/** Parsing what the padder printed. */
module MobilityRoundTrip {
  import opened Addresses
  import opened MobilityOptions

  predicate WellFormed(o: Piece) {
    |o| >= 2 && Known(o[0]) && |o| == SizeOf(o[0]) && o[1] as int == |o| - 2
  }

  // an option type the parser records
  type Type = t: nat | t <= MHOPT_MAX

  // how much padding precedes an option
  type Pad = p: nat | p <= 7

  /** Well-formed options of the given types. */
  predicate Typed(opts: seq<Piece>, types: seq<Type>) {
    |types| == |opts| && forall j | 0 <= j < |opts| :: WellFormed(opts[j]) && types[j] == opts[j][0]
  }

  function PadBytes(pad: Pad): (r: Bytes)
    ensures |r| == pad
  {
    if pad > 0 then PadPiece(pad) else []
  }

  /** Options from the j-th on, with any padding before each and at the end. */
  function Layout(opts: seq<Piece>, pads: seq<Pad>, end: Pad, j: nat): Bytes
    requires j <= |opts| == |pads|
    decreases |opts| - j
  {
    if j == |opts| then PadBytes(end)
    else PadBytes(pads[j]) + opts[j] + Layout(opts, pads, end, j + 1)
  }

  /** Where the padding before option j starts. */
  function Gap(start: nat, opts: seq<Piece>, at: seq<nat>, j: nat): nat
    requires j <= |opts| == |at|
  {
    if j == 0 then start else at[j - 1] + |opts[j - 1]|
  }

  /** Option j lies at at[j]. */
  predicate Placed(start: nat, opts: seq<Piece>, pads: seq<Pad>, at: seq<nat>) {
    |opts| == |pads| == |at| && forall j {:trigger pads[j]} | 0 <= j < |opts| ::
        at[j] == Gap(start, opts, at, j) + pads[j]
  }

  /** From byte i to its end, message b is that layout. */
  predicate LiesAt(b: Bytes, i: nat, opts: seq<Piece>, pads: seq<Pad>, end: Pad, j: nat)
    requires j <= |opts| == |pads|
  {
    i <= |b| && b[i..] == Layout(opts, pads, end, j)
  }

  /** What the parser should have recorded, from option j on. */
  function RecordFrom(acc: Parsed, bauth: bool, types: seq<Type>, at: seq<nat>, j: nat, beyond: set<nat>): (r: Parsed)
    requires acc.Parsed? && Tables(acc) && j <= |types| == |at|
    ensures Tables(r)
    decreases |types| - j
  {
    if j == |types| then acc
    else if bauth then Bad
    else
      var acc' := Record(acc, types[j], at[j], beyond);
      if acc'.Bad? then Bad else RecordFrom(acc', types[j] == BAUTH, types, at, j + 1, beyond)
  }

  // ------------------------------------------------------------- parsing pieces

  lemma SkipPad(b: Bytes, i: nat, pad: nat, acc: Parsed, beyond: set<nat>)
    requires acc.Parsed? && Tables(acc) && 1 <= pad <= 7
    requires i + pad <= |b| && b[i..i + pad] == PadPiece(pad)
    ensures ParseFrom(b, i, false, acc, beyond) == ParseFrom(b, i + pad, false, acc, beyond)
  {
    assert b[i] == b[i..i + pad][0];
    if pad > 1 {
      assert b[i + 1] == b[i..i + pad][1];
    }
  }

  lemma TakeOption(b: Bytes, i: nat, next: nat, o: Piece, acc: Parsed, beyond: set<nat>)
    requires acc.Parsed? && Tables(acc) && WellFormed(o)
    requires next == i + |o| <= |b| && b[i..next] == o
    ensures var acc' := Record(acc, o[0], i, beyond);
      ParseFrom(b, i, false, acc, beyond) == if acc'.Bad? then Bad else ParseFrom(b, next, o[0] == BAUTH, acc', beyond)
  {
    assert b[i] == o[0] && b[i + 1] == o[1];
  }

  lemma SplitThree(b: Bytes, i: nat, p: nat, q: nat, x: Bytes, y: Bytes, z: Bytes)
    requires i <= |b| && b[i..] == x + y + z && p == i + |x| && q == p + |y|
    ensures q <= |b| && b[i..p] == x && b[p..q] == y && b[q..] == z
  {
    var c := b[i..];
    assert c[..|x|] == x && c[|x|..|x| + |y|] == y && c[|x| + |y|..] == z;
    assert b[i..p] == c[..|x|];
    assert b[p..q] == c[|x|..|x| + |y|];
    assert b[q..] == c[|x| + |y|..];
  }

  /** One option, after its padding: bytes i to p are padding, p to q the option. */
  predicate OptionAt(b: Bytes, i: nat, p: nat, q: nat, pad: Pad, opt: Piece) {
    p == i + pad && q == p + |opt| && q <= |b| && b[i..p] == PadBytes(pad) && b[p..q] == opt
  }

  lemma ParseOne(b: Bytes, i: nat, p: nat, q: nat, pad: Pad, opt: Piece, acc: Parsed, beyond: set<nat>)
    requires acc.Parsed? && Tables(acc) && WellFormed(opt)
    requires OptionAt(b, i, p, q, pad, opt)
    ensures var acc' := Record(acc, opt[0], p, beyond);
      ParseFrom(b, i, false, acc, beyond) == if acc'.Bad? then Bad else ParseFrom(b, q, opt[0] == BAUTH, acc', beyond)
  {
    if pad > 0 {
      SkipPad(b, i, pad, acc, beyond);
    }
    TakeOption(b, p, q, opt, acc, beyond);
  }

  lemma ParseEnd(b: Bytes, i: nat, bauth: bool, end: Pad, acc: Parsed, beyond: set<nat>)
    requires acc.Parsed? && Tables(acc)
    requires i <= |b| && b[i..] == PadBytes(end)
    requires bauth ==> end == 0
    ensures ParseFrom(b, i, bauth, acc, beyond) == acc
  {
    if end > 0 {
      assert b[i..] == b[i..i + end];
      SkipPad(b, i, end, acc, beyond);
    }
  }

  lemma LayoutUnfold(opts: seq<Piece>, pads: seq<Pad>, end: Pad, j: nat, tail: Bytes)
    requires j < |opts| == |pads| && tail == Layout(opts, pads, end, j + 1)
    ensures Layout(opts, pads, end, j) == PadBytes(pads[j]) + opts[j] + tail
  {
  }

  lemma LayoutStep(b: Bytes, i: nat, opts: seq<Piece>, pads: seq<Pad>, end: Pad, p: nat, q: nat, j: nat)
    requires j < |opts| == |pads| && p == i + pads[j] && q == p + |opts[j]|
    requires LiesAt(b, i, opts, pads, end, j)
    ensures OptionAt(b, i, p, q, pads[j], opts[j])
    ensures LiesAt(b, q, opts, pads, end, j + 1)
  {
    var tail := Layout(opts, pads, end, j + 1);
    LayoutUnfold(opts, pads, end, j, tail);
    SplitThree(b, i, p, q, PadBytes(pads[j]), opts[j], tail);
  }

  /** From byte i, the parser records options j and later where they lie. */
  predicate Agrees(b: Bytes, i: nat, bauth: bool, types: seq<Type>, at: seq<nat>, j: nat, acc: Parsed, beyond: set<nat>)
    requires acc.Parsed? && Tables(acc) && j <= |types| == |at|
  {
    ParseFrom(b, i, bauth, acc, beyond) == RecordFrom(acc, bauth, types, at, j, beyond)
  }

  /** The parser and the record agree on one more option if they agree on the
      ones after it. */
  lemma AgreeOn(b: Bytes, i: nat, q: nat, pad: Pad, opt: Piece,
                types: seq<Type>, at: seq<nat>, j: nat, acc: Parsed, acc': Parsed, beyond: set<nat>)
    requires acc.Parsed? && Tables(acc) && j < |types| == |at|
    requires WellFormed(opt) && types[j] == opt[0] && OptionAt(b, i, at[j], q, pad, opt)
    requires acc' == Record(acc, types[j], at[j], beyond) && acc'.Parsed?
    requires Agrees(b, q, types[j] == BAUTH, types, at, j + 1, acc', beyond)
    ensures Agrees(b, i, false, types, at, j, acc, beyond)
  {
    ParseOne(b, i, at[j], q, pad, opt, acc, beyond);
    RecordFromStep(acc, false, types, at, j, beyond);
  }

  /** They also agree on giving up. */
  lemma AgreeOnBad(b: Bytes, i: nat, q: nat, bauth: bool, pad: Pad, opt: Piece,
                   types: seq<Type>, at: seq<nat>, j: nat, acc: Parsed, beyond: set<nat>)
    requires acc.Parsed? && Tables(acc) && j < |types| == |at|
    requires WellFormed(opt) && types[j] == opt[0] && OptionAt(b, i, at[j], q, pad, opt)
    requires bauth || Record(acc, types[j], at[j], beyond).Bad?
    ensures Agrees(b, i, bauth, types, at, j, acc, beyond)
  {
    RecordFromStep(acc, bauth, types, at, j, beyond);
    if bauth {
      Overrun(b, i, acc, beyond);
    } else {
      ParseOne(b, i, at[j], q, pad, opt, acc, beyond);
    }
  }

  /** Whatever the padding, the parser skips it and records the options where
      they lie, as long as nothing follows Binding Authorization Data. */
  lemma {:induction false} ParseLayout(b: Bytes, start: nat, opts: seq<Piece>, types: seq<Type>, pads: seq<Pad>,
                                       end: Pad, at: seq<nat>,
                                       j: nat, i: nat, bauth: bool, acc: Parsed, beyond: set<nat>)
    requires acc.Parsed? && Tables(acc) && Typed(opts, types) && Placed(start, opts, pads, at) && j <= |opts|
    requires i == Gap(start, opts, at, j) && bauth == (j > 0 && types[j - 1] == BAUTH)
    requires LiesAt(b, i, opts, pads, end, j)
    requires types != [] && types[|types| - 1] == BAUTH ==> end == 0
    ensures Agrees(b, i, bauth, types, at, j, acc, beyond)
    decreases |opts| - j
  {
    if j == |opts| {
      ParseEnd(b, i, bauth, end, acc, beyond);
    } else {
      var q := at[j] + |opts[j]|;
      assert at[j] == i + pads[j] && WellFormed(opts[j]);
      LayoutStep(b, i, opts, pads, end, at[j], q, j);
      var acc' := Record(acc, types[j], at[j], beyond);
      if bauth || acc'.Bad? {
        AgreeOnBad(b, i, q, bauth, pads[j], opts[j], types, at, j, acc, beyond);
      } else {
        ParseLayout(b, start, opts, types, pads, end, at, j + 1, q, types[j] == BAUTH, acc', beyond);
        AgreeOn(b, i, q, pads[j], opts[j], types, at, j, acc, acc', beyond);
      }
    }
  }

  lemma Overrun(b: Bytes, i: nat, acc: Parsed, beyond: set<nat>)
    requires acc.Parsed? && Tables(acc) && i < |b|
    ensures ParseFrom(b, i, true, acc, beyond) == Bad
  {
  }

  lemma RecordFromStep(acc: Parsed, bauth: bool, types: seq<Type>, at: seq<nat>, j: nat, beyond: set<nat>)
    requires acc.Parsed? && Tables(acc) && j < |types| == |at|
    ensures RecordFrom(acc, bauth, types, at, j, beyond)
         == if bauth || Record(acc, types[j], at[j], beyond).Bad? then Bad
            else RecordFrom(Record(acc, types[j], at[j], beyond), types[j] == BAUTH, types, at, j + 1, beyond)
  {
  }

  // ------------------------------------------------------- what is recorded

  /** The types the parser accepts: repetitions only where allowed, Binding
      Authorization Data last. */
  predicate Acceptable(types: seq<Type>, beyond: set<nat>) {
    && (forall i, j | 0 <= i < j < |types| && types[i] == types[j] :: DupOk(types[j], beyond))
    && (forall i | 0 <= i < |types| - 1 :: types[i] != BAUTH)
  }

  /** The first place of every type, the last place of every repeated type, and
      0 for what is missing. */
  predicate Records(p: Parsed, types: seq<Type>, at: seq<nat>)
    requires p.Parsed? && Tables(p) && |at| == |types|
  {
    && p.count == |types|
    && (forall j | 0 <= j < |types| && types[j] !in types[..j] :: p.opts[types[j]] == at[j])
    && (forall j | 0 <= j < |types| && types[j] in types[..j] && types[j] !in types[j + 1..] ::
        p.ends[types[j]] == at[j])
    && (forall t: Type | t !in types :: p.opts[t] == 0 && p.ends[t] == 0)
  }

  predicate AllPositive(at: seq<nat>) {
    forall j | 0 <= j < |at| :: at[j] > 0
  }

  lemma FirstOf(types: seq<Type>, t: Type) returns (j: nat)
    requires t in types
    ensures j < |types| && types[j] == t && t !in types[..j]
  {
    j := 0;
    while types[j] != t
      invariant j < |types| && t !in types[..j]
      decreases |types| - j
    {
      j := j + 1;
    }
  }

  lemma RecordedNonZero(acc: Parsed, types: seq<Type>, at: seq<nat>, t: Type)
    requires acc.Parsed? && Tables(acc) && |at| == |types| && Records(acc, types, at)
    requires AllPositive(at)
    ensures acc.opts[t] == 0 <==> t !in types
  {
    if t in types {
      var j := FirstOf(types, t);
    }
  }

  lemma RecordOne(acc: Parsed, done: seq<Type>, at: seq<nat>, t: Type, i: nat, beyond: set<nat>)
    requires acc.Parsed? && Tables(acc) && |at| == |done| && Records(acc, done, at)
    requires AllPositive(at)
    ensures var r := Record(acc, t, i, beyond);
      && (r.Parsed? <==> t !in done || DupOk(t, beyond))
      && (r.Parsed? ==> Records(r, done + [t], at + [i]))
  {
    RecordedNonZero(acc, done, at, t);
    var r := Record(acc, t, i, beyond);
    if r.Parsed? {
      RecordsFirst(acc, done, at, t, i, r);
      RecordsLast(acc, done, at, t, i, r);
    }
  }

  lemma RecordsFirst(acc: Parsed, done: seq<Type>, at: seq<nat>, t: Type, i: nat, r: Parsed)
    requires acc.Parsed? && Tables(acc) && |at| == |done| && Records(acc, done, at)
    requires r.Parsed? && Tables(r) && r.opts == if t in done then acc.opts else acc.opts[t := i]
    ensures var all, allAt := done + [t], at + [i];
      forall j | 0 <= j < |all| && all[j] !in all[..j] :: r.opts[all[j]] == allAt[j]
  {
    var all, allAt := done + [t], at + [i];
    forall j | 0 <= j < |all| && all[j] !in all[..j]
      ensures r.opts[all[j]] == allAt[j]
    {
      if j < |done| {
        assert all[..j] == done[..j];
        assert t == done[j] ==> t in done;
      } else {
        assert all[..j] == done;
      }
    }
  }

  lemma RecordsLast(acc: Parsed, done: seq<Type>, at: seq<nat>, t: Type, i: nat, r: Parsed)
    requires acc.Parsed? && Tables(acc) && |at| == |done| && Records(acc, done, at)
    requires r.Parsed? && Tables(r) && r.ends == if t in done then acc.ends[t := i] else acc.ends
    ensures var all, allAt := done + [t], at + [i];
      forall j | 0 <= j < |all| && all[j] in all[..j] && all[j] !in all[j + 1..] :: r.ends[all[j]] == allAt[j]
  {
    var all, allAt := done + [t], at + [i];
    forall j | 0 <= j < |all| && all[j] in all[..j] && all[j] !in all[j + 1..]
      ensures r.ends[all[j]] == allAt[j]
    {
      if j < |done| {
        assert all[..j] == done[..j];
        assert all[j + 1..] == done[j + 1..] + [t];
        assert t in all[j + 1..];
      } else {
        assert all[..j] == done;
      }
    }
  }

  /** The recorded tables of all options, and when there are any. */
  lemma {:induction false} RecordFromMeans(acc: Parsed, types: seq<Type>, at: seq<nat>, j: nat, beyond: set<nat>)
    requires acc.Parsed? && Tables(acc) && j <= |types| == |at| && AllPositive(at)
    requires Records(acc, types[..j], at[..j])
    requires Acceptable(types[..j], beyond)
    ensures var r := RecordFrom(acc, j > 0 && types[j - 1] == BAUTH, types, at, j, beyond);
      && (r.Parsed? <==> Acceptable(types, beyond))
      && (r.Parsed? ==> Records(r, types, at))
    decreases |types| - j
  {
    if j == |types| {
      assert types[..j] == types && at[..j] == at;
    } else if !(j > 0 && types[j - 1] == BAUTH) {
      RecordOne(acc, types[..j], at[..j], types[j], at[j], beyond);
      assert types[..j + 1] == types[..j] + [types[j]] && at[..j + 1] == at[..j] + [at[j]];
      AcceptOne(types, j, beyond);
      var acc' := Record(acc, types[j], at[j], beyond);
      if acc'.Parsed? {
        RecordFromMeans(acc', types, at, j + 1, beyond);
      }
    }
  }

  lemma AcceptOne(types: seq<Type>, j: nat, beyond: set<nat>)
    requires j < |types| && Acceptable(types[..j], beyond)
    requires j > 0 ==> types[j - 1] != BAUTH
    ensures Acceptable(types[..j + 1], beyond) <==> types[j] !in types[..j] || DupOk(types[j], beyond)
    ensures Acceptable(types, beyond) ==> Acceptable(types[..j + 1], beyond)
  {
    if types[j] in types[..j] {
      var i := FirstOf(types[..j], types[j]);
      assert types[..j + 1][i] == types[..j + 1][j];
    }
  }

  // ------------------------------------------------------- the padder's layout

  /** How many bytes precede the padding of option j. */
  function Fill(start: nat, opts: seq<Piece>, j: nat): nat
    requires j <= |opts|
  {
    if j == 0 then start
    else
      var before := Fill(start, opts, j - 1);
      before + PadFor(opts[j - 1][0], before, 0) + |opts[j - 1]|
  }

  function PadAt(start: nat, opts: seq<Piece>, j: nat): Pad
    requires j < |opts|
  {
    PadFor(opts[j][0], Fill(start, opts, j), 0)
  }

  function Pads(start: nat, opts: seq<Piece>): seq<Pad> {
    seq(|opts|, j requires 0 <= j < |opts| => PadAt(start, opts, j))
  }

  /** Where the padder places each option. */
  function Offsets(start: nat, opts: seq<Piece>): (r: seq<nat>)
    ensures |r| == |opts|
  {
    seq(|opts|, j requires 0 <= j < |opts| => Fill(start, opts, j) + PadAt(start, opts, j))
  }

  function EndPad(start: nat, opts: seq<Piece>): Pad {
    OptPad(8, 0, Fill(start, opts, |opts|))
  }

  lemma OffsetsPlaced(start: nat, opts: seq<Piece>)
    ensures Placed(start, opts, Pads(start, opts), Offsets(start, opts))
    ensures forall j | 0 <= j <= |opts| :: Gap(start, opts, Offsets(start, opts), j) == Fill(start, opts, j) >= start
  {
    forall j | 0 <= j <= |opts|
      ensures Gap(start, opts, Offsets(start, opts), j) == Fill(start, opts, j) >= start
    {
      FillGrows(start, opts, j);
    }
  }

  lemma {:induction false} FillGrows(start: nat, opts: seq<Piece>, j: nat)
    requires j <= |opts|
    ensures Fill(start, opts, j) >= start
  {
    if j > 0 {
      FillGrows(start, opts, j - 1);
    }
  }

  lemma FlattenOne(piece: Bytes)
    ensures Flatten([piece]) == piece
  {
    assert [piece][1..] == [];
    assert piece + [] == piece;
  }

  lemma FlattenPads(pad: Pad)
    ensures Flatten(PadPieces(pad)) == PadBytes(pad)
  {
    if pad > 0 {
      FlattenOne(PadPiece(pad));
    }
  }

  lemma FlattenPadded(pad: Pad, opt: Bytes, rest: seq<Bytes>)
    ensures Flatten(PadPieces(pad) + [opt] + rest) == PadBytes(pad) + opt + Flatten(rest)
  {
    FlattenConcat(PadPieces(pad) + [opt], rest);
    FlattenConcat(PadPieces(pad), [opt]);
    FlattenPads(pad);
    FlattenOne(opt);
  }

  lemma FlattenStep(len: nat, last: Pad, opt: Piece, rest: seq<Piece>)
    ensures var pad := PadFor(opt[0], len, last);
      Flatten(Pieces(len, last, [opt] + rest)) == PadBytes(pad) + opt + Flatten(Pieces(len + pad + |opt|, pad, rest))
  {
    var pad := PadFor(opt[0], len, last);
    var tail := Pieces(len + pad + |opt|, pad, rest);
    assert ([opt] + rest)[1..] == rest;
    assert Pieces(len, last, [opt] + rest) == PadPieces(pad) + [opt] + tail;
    FlattenPadded(pad, opt, tail);
  }

  lemma FillStep(start: nat, opts: seq<Piece>, j: nat, last: Pad)
    requires j < |opts| && Known(opts[j][0])
    ensures var len := Fill(start, opts, j); var pad := PadFor(opts[j][0], len, last);
      Pads(start, opts)[j] == pad && Fill(start, opts, j + 1) == len + pad + |opts[j]|
  {
  }

  /** The padder's pieces, put together, are that layout. */
  lemma {:induction false} PiecesLayout(start: nat, opts: seq<Piece>, types: seq<Type>, j: nat, last: Pad)
    requires Typed(opts, types) && j <= |opts|
    ensures Flatten(Pieces(Fill(start, opts, j), last, opts[j..]))
      == Layout(opts, Pads(start, opts), EndPad(start, opts), j)
    decreases |opts| - j
  {
    if j == |opts| {
      FlattenPads(EndPad(start, opts));
    } else {
      assert WellFormed(opts[j]);
      FillStep(start, opts, j, last);
      assert opts[j..] == [opts[j]] + opts[j + 1..];
      FlattenStep(Fill(start, opts, j), last, opts[j], opts[j + 1..]);
      PiecesLayout(start, opts, types, j + 1, Pads(start, opts)[j]);
    }
  }

  // --------------------------------------------------------------- main theorems

  /** The message mh_try_pad makes of a header and options. */
  function Message(hdr: Piece, opts: seq<Piece>): Bytes {
    Flatten([hdr] + Pieces(|hdr|, 0, opts))
  }

  lemma MessageLayout(hdr: Piece, opts: seq<Piece>, types: seq<Type>)
    requires Typed(opts, types)
    ensures Message(hdr, opts) == hdr + Layout(opts, Pads(|hdr|, opts), EndPad(|hdr|, opts), 0)
  {
    FlattenConcat([hdr], Pieces(|hdr|, 0, opts));
    FlattenOne(hdr);
    PiecesLayout(|hdr|, opts, types, 0, 0);
    assert opts[0..] == opts;
  }

  lemma {:induction false} LayoutSize(start: nat, opts: seq<Piece>, j: nat)
    requires j <= |opts|
    ensures Fill(start, opts, j) + |Layout(opts, Pads(start, opts), EndPad(start, opts), j)|
         == Fill(start, opts, |opts|) + EndPad(start, opts)
    decreases |opts| - j
  {
    if j < |opts| {
      LayoutSize(start, opts, j + 1);
    }
  }

  /** The option lies in the message at the offset. */
  predicate Contains(b: Bytes, p: nat, opt: Bytes) {
    p + |opt| <= |b| && b[p..p + |opt|] == opt
  }

  lemma {:induction false} LayoutHolds(b: Bytes, i: nat, start: nat, opts: seq<Piece>, pads: seq<Pad>, end: Pad,
                                       at: seq<nat>, j: nat, k: nat)
    requires Placed(start, opts, pads, at) && j <= k < |opts|
    requires i == Gap(start, opts, at, j) && LiesAt(b, i, opts, pads, end, j)
    ensures Contains(b, at[k], opts[k])
    decreases k - j
  {
    var q := at[j] + |opts[j]|;
    assert at[j] == i + pads[j];
    LayoutStep(b, i, opts, pads, end, at[j], q, j);
    if j < k {
      LayoutHolds(b, q, start, opts, pads, end, at, j + 1, k);
    }
  }

  lemma OffsetsAligned(start: nat, opts: seq<Piece>, types: seq<Type>, j: nat)
    requires Typed(opts, types) && j < |opts|
    ensures Aligned(AlignX(types[j]), AlignY(types[j]), Offsets(start, opts)[j])
  {
    assert WellFormed(opts[j]);
  }

  /** Every option lies unchanged at its offset. */
  predicate Holds(b: Bytes, opts: seq<Piece>, at: seq<nat>)
    requires |at| == |opts|
  {
    forall j | 0 <= j < |opts| :: Contains(b, at[j], opts[j])
  }

  predicate AllAligned(types: seq<Type>, at: seq<nat>)
    requires |at| == |types|
  {
    forall j | 0 <= j < |types| :: Aligned(AlignX(types[j]), AlignY(types[j]), at[j])
  }

  lemma LayoutHoldsAll(b: Bytes, start: nat, opts: seq<Piece>, pads: seq<Pad>, end: Pad, at: seq<nat>)
    requires Placed(start, opts, pads, at) && LiesAt(b, start, opts, pads, end, 0)
    ensures Holds(b, opts, at)
  {
    forall j | 0 <= j < |opts|
      ensures Contains(b, at[j], opts[j])
    {
      LayoutHolds(b, start, start, opts, pads, end, at, 0, j);
    }
  }

  lemma MessageHolds(hdr: Piece, opts: seq<Piece>, types: seq<Type>)
    requires Typed(opts, types)
    ensures Holds(Message(hdr, opts), opts, Offsets(|hdr|, opts))
  {
    var b, at, start := Message(hdr, opts), Offsets(|hdr|, opts), |hdr|;
    var pads, end := Pads(start, opts), EndPad(start, opts);
    MessageLayout(hdr, opts, types);
    OffsetsPlaced(start, opts);
    assert LiesAt(b, start, opts, pads, end, 0);
    LayoutHoldsAll(b, start, opts, pads, end, at);
  }

  lemma MessageAligned(start: nat, opts: seq<Piece>, types: seq<Type>)
    requires Typed(opts, types)
    ensures AllAligned(types, Offsets(start, opts))
  {
    forall j | 0 <= j < |types|
      ensures Aligned(AlignX(types[j]), AlignY(types[j]), Offsets(start, opts)[j])
    {
      OffsetsAligned(start, opts, types, j);
    }
  }

  /** The padded message: the header, then every option unchanged at its offset
      and aligned as it must be; the whole is a multiple of 8 long. */
  lemma PaddedMessage(hdr: Piece, opts: seq<Piece>, types: seq<Type>)
    requires Typed(opts, types)
    ensures hdr <= Message(hdr, opts) && |Message(hdr, opts)| % 8 == 0
    ensures Holds(Message(hdr, opts), opts, Offsets(|hdr|, opts))
    ensures AllAligned(types, Offsets(|hdr|, opts))
  {
    MessageLayout(hdr, opts, types);
    MessageSize(hdr, opts, types);
    MessageHolds(hdr, opts, types);
    MessageAligned(|hdr|, opts, types);
  }

  lemma MessageSize(hdr: Piece, opts: seq<Piece>, types: seq<Type>)
    requires Typed(opts, types)
    ensures |Message(hdr, opts)| % 8 == 0
  {
    MessageLayout(hdr, opts, types);
    LayoutSize(|hdr|, opts, 0);
  }

  lemma BauthFits(len: nat)
    ensures OptPad(8, 0, len + PadFor(BAUTH, len, 0) + 14) == 0
  {
    var pos := len + PadFor(BAUTH, len, 0);
    assert pos % 8 == 2;
    assert (0 - (pos + 14)) % 8 == 0;
  }

  /** Binding Authorization Data ends where no padding is due. */
  lemma NoPaddingAfterBauth(start: nat, opts: seq<Piece>, types: seq<Type>)
    requires Typed(opts, types) && types != [] && types[|types| - 1] == BAUTH
    ensures EndPad(start, opts) == 0
  {
    var n := |opts| - 1;
    assert WellFormed(opts[n]);
    FillStep(start, opts, n, 0);
    BauthFits(Fill(start, opts, n));
  }

  /** Padding and then parsing succeeds exactly for acceptable lists of options,
      and then the tables hold the offsets where the options were placed. */
  lemma PadThenParse(hdr: Piece, opts: seq<Piece>, types: seq<Type>, beyond: set<nat>)
    requires Typed(opts, types)
    ensures var r := ParseFrom(Message(hdr, opts), |hdr|, false, NoOptions(), beyond);
      && (r.Parsed? <==> Acceptable(types, beyond))
      && (r.Parsed? ==> Records(r, types, Offsets(|hdr|, opts)))
  {
    var b, at, start := Message(hdr, opts), Offsets(|hdr|, opts), |hdr|;
    MessageLayout(hdr, opts, types);
    OffsetsPlaced(start, opts);
    assert LiesAt(b, start, opts, Pads(start, opts), EndPad(start, opts), 0);
    if types != [] && types[|types| - 1] == BAUTH {
      NoPaddingAfterBauth(start, opts, types);
    }
    ParseLayout(b, start, opts, types, Pads(start, opts), EndPad(start, opts), at, 0, start, false,
        NoOptions(), beyond);
    assert types[..0] == [] && at[..0] == [];
    RecordFromMeans(NoOptions(), types, at, 0, beyond);
  }
}
