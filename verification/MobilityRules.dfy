/** What the standards ask of each mobility option, and what the padder and the parser
    make of it. */
module MobilityRules {
  import opened Addresses
  import opened MobilityOptions
  import opened MobilityRoundTrip

  /** Where the standards want the options: Binding Refresh Advice and Nonce Indices at
      2n, Alternate Care-of Address at 8n+6, Binding Authorization Data at 8n+2, the
      Mobile Network Prefix at 8n+4, those of IPv4 and NAT at 4n. */
  predicate InPlace(t: Type, pos: nat) {
    if t == 2 || t == 4 then pos % 2 == 0
    else if t == 3 then pos % 8 == 6
    else if t == 5 then pos % 8 == 2
    else if t == 6 then pos % 8 == 4
    else pos % 4 == 0
  }

  // ... and how long they are, header included
  function Length(t: Type): nat {
    if t == 2 then 4 else if t == 3 then 18 else if t == 4 then 6 else if t == 5 then 14 else if t == 6 then 20 else 8
  }

  predicate Defined(t: Type) {
    2 <= t <= 6 || 0x15 <= t <= 0x18
  }

  lemma OneInPlace(o: Piece, t: Type, pos: nat)
    requires WellFormed(o) && t == o[0] && Aligned(AlignX(t), AlignY(t), pos)
    ensures InPlace(t, pos) && Defined(t) && |o| == Length(t)
  {
  }

  /** Option j lies in the message as it must. */
  predicate LiesRight(b: Bytes, o: Piece, t: Type, pos: nat) {
    InPlace(t, pos) && Contains(b, pos, o) && Defined(t) && |o| == Length(t)
  }

  lemma AllInPlace(hdr: Piece, opts: seq<Piece>, types: seq<Type>)
    requires Typed(opts, types)
    ensures forall j | 0 <= j < |types| :: LiesRight(Message(hdr, opts), opts[j], types[j], Offsets(|hdr|, opts)[j])
  {
    var at := Offsets(|hdr|, opts);
    PaddedMessage(hdr, opts, types);
    forall j | 0 <= j < |types|
      ensures LiesRight(Message(hdr, opts), opts[j], types[j], at[j])
    {
      OneInPlace(opts[j], types[j], at[j]);
    }
  }

  /** A defined option of another length makes the parser fail, wherever it is met. */
  lemma LengthsChecked(b: Bytes, i: nat, acc: Parsed, beyond: set<nat>)
    requires acc.Parsed? && Tables(acc) && i + 2 <= |b| && b[i] <= MHOPT_MAX && Defined(b[i])
    requires b[i + 1] as int + 2 != Length(b[i])
    ensures ParseFrom(b, i, false, acc, beyond).Bad?
  {
  }

  /** Just the Mobile Network Prefix may be repeated, and of the IPv4 options those
      that what lies behind the table of 11 allows; Binding Authorization Data is
      last. */
  lemma ParsesJust(hdr: Piece, opts: seq<Piece>, types: seq<Type>, beyond: set<nat>)
    requires Typed(opts, types)
    ensures ParseFrom(Message(hdr, opts), |hdr|, false, NoOptions(), beyond).Parsed? <==>
      && (forall i, j | 0 <= i < j < |types| && types[i] == types[j] ::
            types[j] == 6 || (types[j] >= 0x15 && types[j] as nat in beyond))
      && forall i | 0 <= i < |types| - 1 :: types[i] != 5
  {
    PadThenParse(hdr, opts, types, beyond);
    AllInPlace(hdr, opts, types);
  }

  /** A piece of padding: one byte of 0, or type 1, the number of zeros and the zeros. */
  lemma PaddingIs(pad: Pad)
    requires pad > 0
    ensures |PadPiece(pad)| == pad && (pad == 1 ==> PadPiece(pad) == [0])
    ensures pad > 1 ==> PadPiece(pad)[0] == 1 && PadPiece(pad)[1] as int == pad - 2
    ensures forall i | 2 <= i < pad :: PadPiece(pad)[i] == 0
  {
  }

  /** An option of no known type gets as much padding as the one before it. */
  lemma UnknownRepeatsPadding(len: nat, last: Pad, opt: Piece, rest: seq<Piece>)
    requires opt[0] > MHOPT_MAX || !Defined(opt[0])
    ensures Pieces(len, last, [opt] + rest)
      == (if last > 0 then [PadPiece(last)] else []) + [opt] + Pieces(len + last + |opt|, last, rest)
  {
    PiecesStep([], len, last, opt, rest);
  }
}
