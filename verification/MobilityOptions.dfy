/** Mobility options of a mobility header (section 6.2 of RFC 6275, section 3 of
    RFC 5555): the padder, the parser, and the proof that they fit. */
module MobilityOptions {
  import opened Addresses

  const PAD1: byte := 0x00
  const PADN: byte := 0x01
  const BREFRESH: byte := 0x02
  const ALTCOA: byte := 0x03
  const NONCEID: byte := 0x04
  const BAUTH: byte := 0x05
  const MOB_NET_PRFX: byte := 0x06
  const IPV4HOA: byte := 0x15
  const IPV4COA: byte := 0x16
  const IPV4ACK: byte := 0x17
  const NAT: byte := 0x18
  const MHOPT_MAX := 0x18

  type Bytes = seq<byte>

  // one iovec: a message header or an option
  type Piece = b: Bytes | |b| > 0 witness [0]

  predicate Known(t: byte) {
    BREFRESH <= t <= MOB_NET_PRFX || IPV4HOA <= t <= NAT
  }

  /** The size a known option must have, header included. */
  function SizeOf(t: byte): nat {
    if t == BREFRESH then 4
    else if t == ALTCOA then 18
    else if t == NONCEID then 6
    else if t == BAUTH then 14
    else if t == MOB_NET_PRFX then 20
    else 8
  }

  /** mh_opt_len_chk: true if the length is wrong. */
  predicate BadLength(t: byte, len: int) {
    Known(t) && len != SizeOf(t)
  }

  // alignment requirement xn + y
  function AlignX(t: byte): (xn: nat)
    ensures xn == 2 || xn == 4 || xn == 8
  {
    if t == BREFRESH || t == NONCEID then 2
    else if t == ALTCOA || t == BAUTH || t == MOB_NET_PRFX then 8
    else 4
  }

  function AlignY(t: byte): nat {
    if t == ALTCOA then 6 else if t == BAUTH then 2 else if t == MOB_NET_PRFX then 4 else 0
  }

  /** The position has the form xn + y. */
  predicate Aligned(xn: nat, y: nat, pos: nat)
    requires xn == 2 || xn == 4 || xn == 8
  {
    if xn == 2 then pos % 2 == y % 2 else if xn == 4 then pos % 4 == y % 4 else pos % 8 == y % 8
  }

  lemma PadMod8(y: int, offset: int)
    ensures (offset + (y - offset) % 8) % 8 == y % 8
  {
    assert offset + (y - offset) % 8 == 8 * (y / 8 - (y - offset) / 8) + y % 8;
  }

  lemma PadMod4(y: int, offset: int)
    ensures (offset + (y - offset) % 4) % 4 == y % 4
  {
    assert offset + (y - offset) % 4 == 4 * (y / 4 - (y - offset) / 4) + y % 4;
  }

  lemma PadMod2(y: int, offset: int)
    ensures (offset + (y - offset) % 2) % 2 == y % 2
  {
    assert offset + (y - offset) % 2 == 2 * (y / 2 - (y - offset) / 2) + y % 2;
  }

  /** optpad: (y - offset) & (xn - 1), for xn a power of two. */
  function OptPad(xn: nat, y: nat, offset: nat): (pad: nat)
    requires xn == 2 || xn == 4 || xn == 8
    ensures pad < xn && Aligned(xn, y, offset + pad)
  {
    if xn == 2 then PadMod2(y, offset); (y - offset) % 2
    else if xn == 4 then PadMod4(y, offset); (y - offset) % 4
    else PadMod8(y, offset); (y - offset) % 8
  }

  /** create_opt_pad */
  function PadPiece(pad: nat): (r: Bytes)
    requires 1 <= pad <= 7
    ensures |r| == pad
  {
    if pad == 1 then [PAD1] else [PADN, pad - 2] + seq(pad - 2, _ => 0)
  }

  // ---------------------------------------------------------------------- padder

  /** The padding before an option; an option of an unknown type gets the padding
      computed last. */
  function PadFor(t: byte, len: nat, last: nat): (pad: nat)
    requires last <= 7
    ensures pad <= 7
  {
    if Known(t) then OptPad(AlignX(t), AlignY(t), len) else last
  }

  function PadPieces(pad: nat): seq<Bytes>
    requires pad <= 7
  {
    if pad > 0 then [PadPiece(pad)] else []
  }

  /** The pieces for the options when len bytes are already placed. */
  function Pieces(len: nat, last: nat, opts: seq<Piece>): seq<Bytes>
    requires last <= 7
    decreases |opts|
  {
    if opts == [] then PadPieces(OptPad(8, 0, len))
    else
      var pad := PadFor(opts[0][0], len, last);
      PadPieces(pad) + [opts[0]] + Pieces(len + pad + |opts[0]|, pad, opts[1..])
  }

  function Flatten(pieces: seq<Bytes>): Bytes {
    if pieces == [] then [] else pieces[0] + Flatten(pieces[1..])
  }

  lemma {:induction false} FlattenConcat(a: seq<Bytes>, b: seq<Bytes>)
    ensures Flatten(a + b) == Flatten(a) + Flatten(b)
    decreases |a|
  {
    if a == [] {
      assert a + b == b;
    } else {
      assert (a + b)[1..] == a[1..] + b;
      FlattenConcat(a[1..], b);
    }
  }

  /** The same computation seen from the front: what is done, and what is left. */
  lemma PiecesStep(done: seq<Bytes>, len: nat, last: nat, opt: Piece, rest: seq<Piece>)
    requires last <= 7
    ensures var pad := PadFor(opt[0], len, last);
      done + Pieces(len, last, [opt] + rest) == (done + PadPieces(pad) + [opt]) + Pieces(len + pad + |opt|, pad, rest)
  {
    assert ([opt] + rest)[1..] == rest;
  }

  /** The switch of mh_try_pad over the option types. */
  method Choose(t: byte, len: nat, last: nat) returns (pad: nat)
    requires last <= 7
    ensures pad == PadFor(t, len, last)
  {
    pad := last;
    if t == BREFRESH || t == NONCEID {
      pad := OptPad(2, 0, len);
    } else if t == ALTCOA {
      pad := OptPad(8, 6, len);
    } else if t == BAUTH {
      pad := OptPad(8, 2, len);
    } else if t == MOB_NET_PRFX {
      pad := OptPad(8, 4, len);
    } else if t == IPV4HOA || t == IPV4COA || t == IPV4ACK || t == NAT {
      pad := OptPad(4, 0, len);
    }
  }

  /** Appending a padding piece, if there is anything to pad. */
  method PutPad(out: array<Bytes>, n: nat, pad: nat) returns (n': nat)
    requires n < out.Length && pad <= 7
    modifies out
    ensures n' == n + |PadPieces(pad)| && out[..n'] == old(out[..n]) + PadPieces(pad)
  {
    n' := n;
    if pad > 0 {
      out[n] := PadPiece(pad);
      n' := n + 1;
    }
  }

  /** One option with the padding before it. */
  method Place(out: array<Bytes>, n: nat, len: nat, last: nat, opt: Piece) returns (n': nat, len': nat, pad: nat)
    requires n + 1 < out.Length && last <= 7
    modifies out
    ensures pad == PadFor(opt[0], len, last) && len' == len + pad + |opt|
    ensures n + 1 <= n' <= n + 2 && out[..n'] == old(out[..n]) + PadPieces(pad) + [opt]
  {
    pad := Choose(opt[0], len, last);
    n' := PutPad(out, n, pad);
    len' := len + pad + |opt|;
    ghost var done := out[..n'];
    out[n'] := opt;
    n' := n' + 1;
    assert out[..n'] == done + [opt];
  }

  /** What is out so far, with what is to come of the rest, is all. */
  predicate Leads(done: seq<Bytes>, len: nat, pad: nat, rest: seq<Piece>, all: seq<Bytes>)
    requires pad <= 7
  {
    done + Pieces(len, pad, rest) == all
  }

  lemma LeadsEnd(done: seq<Bytes>, len: nat, last: nat, rest: seq<Piece>, all: seq<Bytes>)
    requires last <= 7 && |rest| == 0 && Leads(done, len, last, rest, all)
    ensures OptPad(8, 0, len) <= 7 && done + PadPieces(OptPad(8, 0, len)) == all
  {
  }

  lemma LeadsOn(done: seq<Bytes>, len: nat, last: nat, input: seq<Piece>, m: nat, all: seq<Bytes>)
    requires last <= 7 && m < |input| && Leads(done, len, last, input[m..], all)
    ensures var pad := PadFor(input[m][0], len, last);
      Leads(done + PadPieces(pad) + [input[m]], len + pad + |input[m]|, pad, input[m + 1..], all)
  {
    assert input[m..] == [input[m]] + input[m + 1..];
    PiecesStep(done, len, last, input[m], input[m + 1..]);
  }

  /** mh_try_pad: input[0] is the message header, the others are options; `out`
      needs room for two pieces per input piece. */
  method MhTryPad(input: seq<Piece>, out: array<Bytes>) returns (n: nat)
    requires |input| >= 1
    requires out.Length >= 2 * |input|
    modifies out
    ensures n <= 2 * |input|
    ensures out[..n] == [input[0]] + Pieces(|input[0]|, 0, input[1..])
  {
    var len: nat, pad: nat := |input[0]|, 0;
    n := 1;
    out[0] := input[0];
    ghost var all := [input[0]] + Pieces(|input[0]|, 0, input[1..]);
    var m := 1;
    while m < |input|
      invariant 1 <= m <= |input| && n <= 2 * m - 1 && pad <= 7
      invariant Leads(out[..n], len, pad, input[m..], all)
    {
      LeadsOn(out[..n], len, pad, input, m, all);
      n, len, pad := Place(out, n, len, pad, input[m]);
      m := m + 1;
    }
    LeadsEnd(out[..n], len, pad, input[m..], all);
    n := PutPad(out, n, OptPad(8, 0, len));
  }

  /** mh_length */
  method MhLength(vec: seq<Bytes>) returns (len: nat)
    ensures len == |Flatten(vec)|
  {
    len := 0;
    for i := 0 to |vec|
      invariant len == |Flatten(vec[..i])|
    {
      assert vec[..i + 1] == vec[..i] + [vec[i]];
      FlattenConcat(vec[..i], [vec[i]]);
      assert Flatten([vec[i]]) == vec[i] + Flatten([]);
      len := len + |vec[i]|;
    }
    assert vec[..|vec|] == vec;
  }

  // ---------------------------------------------------------------------- parser

  // struct mh_options: offset of the first option of a type, and of the last
  // repetition; 0 stands for none
  datatype Parsed = Bad | Parsed(count: nat, opts: seq<nat>, ends: seq<nat>)

  function NoOptions(): Parsed {
    Parsed(0, seq(MHOPT_MAX + 1, _ => 0), seq(MHOPT_MAX + 1, _ => 0))
  }

  /** mh_opts_dup_ok. The table has 11 entries; `beyond` stands for what is
      found past them. */
  predicate DupOk(t: nat, beyond: set<nat>) {
    if t <= 10 then t == 0 || t == 1 || t == 6 else t in beyond
  }

  predicate Tables(acc: Parsed) {
    acc.Parsed? ==> |acc.opts| == MHOPT_MAX + 1 && |acc.ends| == MHOPT_MAX + 1
  }

  function Record(acc: Parsed, t: nat, i: nat, beyond: set<nat>): (r: Parsed)
    requires acc.Parsed? && Tables(acc) && t <= MHOPT_MAX
    ensures Tables(r)
  {
    if acc.opts[t] == 0 then acc.(count := acc.count + 1, opts := acc.opts[t := i])
    else if DupOk(t, beyond) then acc.(count := acc.count + 1, ends := acc.ends[t := i])
    else Bad
  }

  function ParseFrom(b: Bytes, i: nat, bauth: bool, acc: Parsed, beyond: set<nat>): (r: Parsed)
    requires acc.Parsed? && Tables(acc)
    ensures Tables(r)
    decreases |b| - i
  {
    if i >= |b| then acc
    else if bauth then Bad
    else if b[i] == PAD1 then ParseFrom(b, i + 1, bauth, acc, beyond)
    else if |b| - i < 2 || BadLength(b[i], (b[i + 1] as int) + 2) then Bad
    else
      var next := i + (b[i + 1] as int) + 2;
      if b[i] == PADN || b[i] > MHOPT_MAX then ParseFrom(b, next, bauth, acc, beyond)
      else
        var acc' := Record(acc, b[i], i, beyond);
        if acc'.Bad? then Bad else ParseFrom(b, next, b[i] == BAUTH, acc', beyond)
  }

  /** mh_opt_parse: the options of message b start at offset. It reads inside b
      and ends, whatever the bytes are. */
  method MhOptParse(b: Bytes, offset: nat, opts: array<nat>, ends: array<nat>, beyond: set<nat>) returns (ret: int)
    requires offset <= |b|
    requires opts.Length == MHOPT_MAX + 1 && ends.Length == MHOPT_MAX + 1 && opts != ends
    modifies opts, ends
    ensures var p := ParseFrom(b, offset, false, NoOptions(), beyond);
      && (ret < 0 <==> p.Bad?)
      && (p.Parsed? ==> ret == p.count && opts[..] == p.opts && ends[..] == p.ends)
  {
    ghost var p := ParseFrom(b, offset, false, NoOptions(), beyond);
    forall t | 0 <= t < opts.Length {
      opts[t] := 0;
    }
    forall t | 0 <= t < ends.Length {
      ends[t] := 0;
    }
    var left: int := |b| - offset;
    var i := offset;
    var bauth := false;
    ret := 0;
    assert Parsed(0, opts[..], ends[..]) == NoOptions();
    while left > 0
      invariant ret >= 0 && left == |b| - i
      invariant p == ParseFrom(b, i, bauth, Parsed(ret, opts[..], ends[..]), beyond)
      decreases left
    {
      if bauth {
        return -1;
      }
      var t := b[i];
      if t == PAD1 {
        left := left - 1;
        i := i + 1;
        continue;
      }
      if left < 2 || BadLength(t, (b[i + 1] as int) + 2) {
        return -1;
      }
      if t == PADN {
        left := left - ((b[i + 1] as int) + 2);
        i := i + (b[i + 1] as int) + 2;
        continue;
      }
      if t <= MHOPT_MAX {
        if t == BAUTH {
          bauth := true;
        }
        if opts[t] == 0 {
          opts[t] := i;
        } else if DupOk(t, beyond) {
          ends[t] := i;
        } else {
          return -1;
        }
        ret := ret + 1;
      }
      left := left - ((b[i + 1] as int) + 2);
      i := i + (b[i + 1] as int) + 2;
    }
  }
}
