/** Netlink attributes: appending them to a message and finding them in one. */
module NetlinkAttributes {
  import opened Addresses

  // RTA_ALIGN, NLMSG_ALIGN
  function Align(n: nat): (r: nat)
    ensures r % 4 == 0 && n <= r < n + 4
  {
    if n % 4 == 0 then n else n + 4 - n % 4
  }

  const RTA_HDR := 4

  // struct rtattr with its data; rta_len and rta_type have 16 bits
  datatype Attr = Attr(kind: nat, data: seq<byte>)
  {
    // its length and type fit their words
    predicate Ok() {
      kind < 0x1_0000 && Len() < 0x1_0000
    }

    // RTA_LENGTH, and with padding
    function Len(): nat {
      RTA_HDR + |data|
    }

    function Space(): nat {
      Align(Len())
    }

    // what is stored of them otherwise is the low 16 bits
    function Bytes(): (r: seq<byte>)
      ensures |r| == Len()
    {
      Word16(Len() % 0x1_0000) + Word16(kind % 0x1_0000) + data
    }
  }

  function Word16(n: nat): (r: seq<byte>)
    requires n < 0x1_0000
    ensures |r| == 2
  {
    [(n % 256) as byte, (n / 256) as byte]
  }

  function Read16(b: seq<byte>, i: nat): (n: nat)
    requires i + 2 <= |b|
    ensures n < 0x1_0000
  {
    (b[i] as nat) + 256 * (b[i + 1] as nat)
  }

  // ------------------------------------------------------------------- appending

  // a message: its buffer and nlmsg_len
  datatype Msg = Msg(b: seq<byte>, len: nat)

  predicate Fits(m: Msg, maxlen: nat, a: Attr) {
    Align(m.len) + a.Space() <= maxlen
  }

  function Appended(m: Msg, maxlen: nat, a: Attr): Msg
    requires maxlen <= |m.b|
  {
    var at := Align(m.len);
    if Fits(m, maxlen, a) then Msg(m.b[..at] + a.Bytes() + m.b[at + a.Len()..], at + a.Space()) else m
  }

  function Word32(data: u32): (r: seq<byte>)
    ensures |r| == 4
  {
    Word16(data % 0x1_0000) + Word16(data / 0x1_0000)
  }

  class Message {
    const buf: array<byte>
    var nlmsgLen: nat

    ghost function Abs(): Msg
      reads this, buf
    {
      Msg(buf[..], nlmsgLen)
    }

    constructor (size: nat, len: nat)
      ensures fresh(buf) && buf.Length == size && nlmsgLen == len
    {
      buf := new byte[size](_ => 0);
      nlmsgLen := len;
    }

    method Put(at: nat, text: seq<byte>)
      requires at + |text| <= buf.Length
      modifies buf
      ensures buf[..] == old(buf[..at]) + text + old(buf[at + |text|..])
    {
      for k := 0 to |text|
        invariant forall j | 0 <= j < buf.Length :: buf[j] == if at <= j < at + k then text[j - at] else old(buf[j])
      {
        buf[at + k] := text[k];
      }
    }

    /** addattr_l: refused with nothing changed, or appended. */
    method AddattrL(maxlen: nat, kind: nat, data: seq<byte>) returns (ret: int)
      requires maxlen <= buf.Length
      modifies this, buf
      ensures Abs() == Appended(old(Abs()), maxlen, Attr(kind, data))
      ensures ret == if Fits(old(Abs()), maxlen, Attr(kind, data)) then 0 else -1
    {
      var len := RTA_HDR + |data|;
      if Align(nlmsgLen) + Align(len) > maxlen {
        return -1;
      }
      Put(Align(nlmsgLen), Attr(kind, data).Bytes());
      nlmsgLen := Align(nlmsgLen) + Align(len);
      ret := 0;
    }

    /** addattr32 */
    method Addattr32(maxlen: nat, kind: nat, data: u32) returns (ret: int)
      requires maxlen <= buf.Length
      modifies this, buf
      ensures Abs() == Appended(old(Abs()), maxlen, Attr(kind, Word32(data)))
      ensures ret == if Fits(old(Abs()), maxlen, Attr(kind, Word32(data))) then 0 else -1
    {
      var len := RTA_HDR + 4;
      if Align(nlmsgLen) + len > maxlen {
        return -1;
      }
      Put(Align(nlmsgLen), Attr(kind, Word32(data)).Bytes());
      nlmsgLen := Align(nlmsgLen) + len;
      ret := 0;
    }
  }

  // --------------------------------------------------------------------- parsing

  type Table = seq<Option<nat>>

  function Blank(n: nat): (tb: Table)
    ensures |tb| == n && forall k | 0 <= k < n :: tb[k] == None
  {
    seq(n, _ => None)
  }

  // RTA_OK for what is left at a place
  predicate RtaOk(b: seq<byte>, at: nat, len: int)
    requires len >= 0 ==> at + len <= |b|
  {
    len >= RTA_HDR && RTA_HDR <= Read16(b, at) <= len
  }

  function Noted(b: seq<byte>, at: nat, tb: Table): Table
    requires at + RTA_HDR <= |b|
  {
    var kind := Read16(b, at + 2);
    if kind < |tb| then tb[kind := Some(at)] else tb
  }

  /** parse_rtattr from a place on: the table, and how much is left. */
  function Parse(b: seq<byte>, at: nat, len: int, tb: Table): (r: (Table, int))
    requires len >= 0 ==> at + len <= |b|
    ensures |r.0| == |tb|
    decreases len
  {
    if !RtaOk(b, at, len) then (tb, len)
    else
      var n := Align(Read16(b, at));
      Parse(b, at + n, len - n, Noted(b, at, tb))
  }

  /** parse_rtattr, into an array of max + 1 entries: it comes to an end on all bytes. */
  method ParseRtattr(tb: array<Option<nat>>, b: seq<byte>, rta: nat, len: nat) returns (left: int)
    requires rta + len <= |b|
    modifies tb
    ensures (tb[..], left) == Parse(b, rta, len, Blank(tb.Length))
    ensures left >= -3
  {
    for i := 0 to tb.Length
      invariant forall j | 0 <= j < i :: tb[j] == None
    {
      tb[i] := None;
    }
    assert tb[..] == Blank(tb.Length);
    var at: nat := rta;
    left := len;
    while RtaOk(b, at, left)
      invariant left >= -3 && (left >= 0 ==> at + left <= |b|)
      invariant Parse(b, at, left, tb[..]) == Parse(b, rta, len, Blank(tb.Length))
      decreases left
    {
      var kind := Read16(b, at + 2);
      ghost var was := tb[..];
      if kind < tb.Length {
        tb[kind] := Some(at);
      }
      assert tb[..] == Noted(b, at, was);
      var n := Align(Read16(b, at));
      at := at + n;
      left := left - n;
    }
  }

  // ------------------------------------------------------------------ round trip

  /** The attributes one after the other from i to end. */
  predicate Spells(b: seq<byte>, i: nat, end: nat, attrs: seq<Attr>)
    decreases |attrs|
  {
    if attrs == [] then i == end <= |b|
    else
      var a := attrs[0];
      && a.Ok() && i + a.Space() <= end && i + a.Len() <= |b| && b[i..i + a.Len()] == a.Bytes()
      && Spells(b, i + a.Space(), end, attrs[1..])
  }

  /** The table after the attributes: later ones displace earlier ones. */
  function Filled(tb: Table, i: nat, attrs: seq<Attr>): Table
    decreases |attrs|
  {
    if attrs == [] then tb
    else
      var a := attrs[0];
      Filled(if a.kind < |tb| then tb[a.kind := Some(i)] else tb, i + a.Space(), attrs[1..])
  }

  lemma {:induction false} SpellsEnd(b: seq<byte>, i: nat, end: nat, attrs: seq<Attr>)
    requires Spells(b, i, end, attrs)
    ensures i <= end <= |b|
    decreases |attrs|
  {
    if attrs != [] {
      SpellsEnd(b, i + attrs[0].Space(), end, attrs[1..]);
    }
  }

  lemma ReadsBack(b: seq<byte>, i: nat, a: Attr)
    requires a.Ok() && i + a.Len() <= |b| && b[i..i + a.Len()] == a.Bytes()
    ensures Read16(b, i) == a.Len() && Read16(b, i + 2) == a.kind && b[i + RTA_HDR..i + a.Len()] == a.data
  {
    var t := b[i..i + a.Len()];
    assert t[0] == b[i] && t[1] == b[i + 1] && t[2] == b[i + 2] && t[3] == b[i + 3];
    assert b[i + RTA_HDR..i + a.Len()] == t[RTA_HDR..];
  }

  /** From i to end the parser gets to the table and leaves nothing. */
  predicate Parses(b: seq<byte>, i: nat, end: nat, tb: Table, tb': Table) {
    i <= end <= |b| && Parse(b, i, end - i, tb) == (tb', 0)
  }

  lemma ParsesOn(b: seq<byte>, i: nat, end: nat, a: Attr, tb: Table, tb': Table)
    requires i + a.Space() <= end <= |b| && Read16(b, i) == a.Len() && Read16(b, i + 2) == a.kind
    requires Parses(b, i + a.Space(), end, if a.kind < |tb| then tb[a.kind := Some(i)] else tb, tb')
    ensures Parses(b, i, end, tb, tb')
  {
  }

  lemma {:induction false} ParseSpelled(b: seq<byte>, i: nat, end: nat, attrs: seq<Attr>, tb: Table)
    requires Spells(b, i, end, attrs)
    ensures Parses(b, i, end, tb, Filled(tb, i, attrs))
    decreases |attrs|
  {
    if attrs != [] {
      var a := attrs[0];
      ReadsBack(b, i, a);
      SpellsEnd(b, i + a.Space(), end, attrs[1..]);
      var tb1 := if a.kind < |tb| then tb[a.kind := Some(i)] else tb;
      ParseSpelled(b, i + a.Space(), end, attrs[1..], tb1);
      ParsesOn(b, i, end, a, tb, Filled(tb1, i + a.Space(), attrs[1..]));
    }
  }

  lemma SameSlice(b: seq<byte>, b': seq<byte>, i: nat, j: nat, end: nat)
    requires i <= j <= end <= |b| == |b'| && b'[..end] == b[..end]
    ensures b'[i..j] == b[i..j]
  {
    assert b'[i..j] == b'[..end][i..j];
    assert b[i..j] == b[..end][i..j];
  }

  lemma {:induction false} SpellsMore(b: seq<byte>, b': seq<byte>, i: nat, end: nat, attrs: seq<Attr>, a: Attr)
    requires Spells(b, i, end, attrs) && end <= |b| && |b'| == |b| && b'[..end] == b[..end]
    requires a.Ok() && end + a.Space() <= |b| && b'[end..end + a.Len()] == a.Bytes()
    ensures Spells(b', i, end + a.Space(), attrs + [a])
    decreases |attrs|
  {
    if attrs == [] {
      assert (attrs + [a])[1..] == [];
    } else {
      var x := attrs[0];
      SpellsEnd(b, i + x.Space(), end, attrs[1..]);
      SameSlice(b, b', i, i + x.Len(), end);
      assert (attrs + [a])[1..] == attrs[1..] + [a];
      SpellsMore(b, b', i + x.Space(), end, attrs[1..], a);
    }
  }

  predicate AllOk(attrs: seq<Attr>) {
    forall k | 0 <= k < |attrs| :: attrs[k].Ok()
  }

  /** A run of appends, and those that fitted. */
  function Built(m: Msg, maxlen: nat, attrs: seq<Attr>): (r: Msg)
    requires maxlen <= |m.b|
    ensures |r.b| == |m.b|
    decreases |attrs|
  {
    if attrs == [] then m else Appended(Built(m, maxlen, attrs[..|attrs| - 1]), maxlen, attrs[|attrs| - 1])
  }

  function Taken(m: Msg, maxlen: nat, attrs: seq<Attr>): seq<Attr>
    requires maxlen <= |m.b|
    decreases |attrs|
  {
    if attrs == [] then []
    else
      var n := |attrs| - 1;
      Taken(m, maxlen, attrs[..n]) + if Fits(Built(m, maxlen, attrs[..n]), maxlen, attrs[n]) then [attrs[n]] else []
  }

  lemma AppendedParts(m: Msg, maxlen: nat, a: Attr)
    requires maxlen <= |m.b| && Fits(m, maxlen, a) && m.len % 4 == 0
    ensures var m' := Appended(m, maxlen, a);
      && |m'.b| == |m.b| && m'.b[..m.len] == m.b[..m.len]
      && m'.b[m.len..m.len + a.Len()] == a.Bytes() && m'.len == m.len + a.Space()
  {
  }

  /** m' is m grown: aligned, within the bound, and what was there before untouched. */
  predicate Kept(m: Msg, m': Msg, maxlen: nat) {
    |m'.b| == |m.b| && m'.len % 4 == 0 && m.len <= m'.len <= maxlen <= |m.b| && m'.b[..m.len] == m.b[..m.len]
  }

  /** ... by the attributes. */
  predicate Grown(m: Msg, m': Msg, maxlen: nat, attrs: seq<Attr>) {
    Kept(m, m', maxlen) && Spells(m'.b, m.len, m'.len, attrs)
  }

  lemma SamePrefix(a: seq<byte>, b: seq<byte>, d: seq<byte>, i: nat, j: nat)
    requires i <= j <= |a| && |a| == |b| == |d| && b[..i] == a[..i] && d[..j] == b[..j]
    ensures d[..i] == a[..i]
  {
    assert d[..i] == d[..j][..i];
    assert b[..i] == b[..j][..i];
  }

  lemma KeptMore(m: Msg, was: Msg, maxlen: nat, a: Attr)
    requires Kept(m, was, maxlen) && Fits(was, maxlen, a)
    ensures Kept(m, Appended(was, maxlen, a), maxlen)
  {
    var m' := Appended(was, maxlen, a);
    AppendedParts(was, maxlen, a);
    SamePrefix(m.b, was.b, m'.b, m.len, was.len);
  }

  lemma SpelledMore(m: Msg, was: Msg, maxlen: nat, attrs: seq<Attr>, a: Attr)
    requires Kept(m, was, maxlen) && a.Ok() && Fits(was, maxlen, a)
    requires Spells(was.b, m.len, was.len, attrs)
    ensures var m' := Appended(was, maxlen, a); Spells(m'.b, m.len, m'.len, attrs + [a])
  {
    AppendedParts(was, maxlen, a);
    SpellsMore(was.b, Appended(was, maxlen, a).b, m.len, was.len, attrs, a);
  }

  lemma BuiltStep(m: Msg, maxlen: nat, attrs: seq<Attr>)
    requires maxlen <= |m.b| && attrs != []
    ensures var n := |attrs| - 1; var was := Built(m, maxlen, attrs[..n]);
      && Built(m, maxlen, attrs) == Appended(was, maxlen, attrs[n])
      && Taken(m, maxlen, attrs)
         == if Fits(was, maxlen, attrs[n]) then Taken(m, maxlen, attrs[..n]) + [attrs[n]]
             else Taken(m, maxlen, attrs[..n])
  {
  }

  /** From an aligned length within the bound, the length stays so after any run of
      appends and what was before is untouched; the attributes that fitted follow,
      if their lengths and types fit their words. */
  lemma {:induction false} BuiltGrown(m: Msg, maxlen: nat, attrs: seq<Attr>)
    requires m.len % 4 == 0 && m.len <= maxlen <= |m.b|
    ensures Kept(m, Built(m, maxlen, attrs), maxlen)
    ensures AllOk(Taken(m, maxlen, attrs)) ==> Grown(m, Built(m, maxlen, attrs), maxlen, Taken(m, maxlen, attrs))
    decreases |attrs|
  {
    if attrs != [] {
      var n := |attrs| - 1;
      BuiltStep(m, maxlen, attrs);
      BuiltGrown(m, maxlen, attrs[..n]);
      var was, before := Built(m, maxlen, attrs[..n]), Taken(m, maxlen, attrs[..n]);
      if Fits(was, maxlen, attrs[n]) {
        KeptMore(m, was, maxlen, attrs[n]);
        if AllOk(before + [attrs[n]]) {
          AllOkParts(before, attrs[n]);
          SpelledMore(m, was, maxlen, before, attrs[n]);
        }
      }
    }
  }

  lemma AllOkParts(attrs: seq<Attr>, a: Attr)
    requires AllOk(attrs + [a])
    ensures AllOk(attrs) && a.Ok()
  {
    assert forall k | 0 <= k < |attrs| :: (attrs + [a])[k] == attrs[k];
    assert (attrs + [a])[|attrs|] == a;
  }

  /** The last attribute of a type, or -1. */
  function LastOf(attrs: seq<Attr>, kind: nat): (k: int)
    ensures -1 <= k < |attrs|
    ensures k >= 0 ==> attrs[k].kind == kind
    ensures forall j | k < j < |attrs| :: attrs[j].kind != kind
  {
    if attrs == [] then -1
    else if attrs[|attrs| - 1].kind == kind then |attrs| - 1
    else LastOf(attrs[..|attrs| - 1], kind)
  }

  function Offset(i: nat, attrs: seq<Attr>): nat
    decreases |attrs|
  {
    if attrs == [] then i else Offset(i + attrs[0].Space(), attrs[1..])
  }

  lemma {:induction false} LastOfTail(attrs: seq<Attr>, kind: nat)
    requires attrs != []
    ensures LastOf(attrs, kind) == (if LastOf(attrs[1..], kind) >= 0 then LastOf(attrs[1..], kind) + 1
                                    else if attrs[0].kind == kind then 0 else -1)
  {
    var k := LastOf(attrs[1..], kind);
    assert forall j | k < j < |attrs[1..]| :: attrs[1..][j] == attrs[j + 1];
    var k' := LastOf(attrs, kind);
    if k >= 0 {
      assert attrs[1..][k] == attrs[k + 1];
    }
    if k' > 0 {
      assert attrs[1..][k' - 1] == attrs[k'];
    }
  }

  lemma {:induction false} FilledLast(tb: Table, i: nat, attrs: seq<Attr>, kind: nat)
    requires kind < |tb|
    ensures |Filled(tb, i, attrs)| == |tb|
    ensures var k := LastOf(attrs, kind);
      Filled(tb, i, attrs)[kind] == if k < 0 then tb[kind] else Some(Offset(i, attrs[..k]))
    decreases |attrs|
  {
    if attrs != [] {
      var a := attrs[0];
      var tb1 := if a.kind < |tb| then tb[a.kind := Some(i)] else tb;
      FilledLast(tb1, i + a.Space(), attrs[1..], kind);
      LastOfTail(attrs, kind);
      var k := LastOf(attrs[1..], kind);
      if k >= 0 {
        assert attrs[..k + 1][1..] == attrs[1..][..k];
      } else {
        assert attrs[..0] == [];
      }
    }
  }

  lemma {:induction false} SpelledAt(b: seq<byte>, i: nat, end: nat, attrs: seq<Attr>, k: nat)
    requires Spells(b, i, end, attrs) && k < |attrs|
    ensures var at := Offset(i, attrs[..k]); var a := attrs[k];
      && at + a.Len() <= |b| && a.Len() < 0x1_0000 && Read16(b, at) == a.Len() && Read16(b, at + 2) == a.kind
      && b[at + RTA_HDR..at + a.Len()] == a.data
    decreases |attrs|
  {
    if k == 0 {
      assert attrs[..0] == [];
      ReadsBack(b, i, attrs[0]);
    } else {
      assert attrs[..k][1..] == attrs[1..][..k - 1];
      SpelledAt(b, i + attrs[0].Space(), end, attrs[1..], k - 1);
    }
  }

  /** What the table says of a type: the place of the last attribute with it. */
  predicate Answers(b: seq<byte>, r: Option<nat>, attrs: seq<Attr>, kind: nat) {
    var k := LastOf(attrs, kind);
    match r
    case None => k < 0
    case Some(at) =>
      && k >= 0 && at + attrs[k].Len() <= |b| && attrs[k].Len() >= RTA_HDR
      && Read16(b, at + 2) == kind && b[at + RTA_HDR..at + attrs[k].Len()] == attrs[k].data
  }

  lemma AnswersSpelled(b: seq<byte>, i: nat, end: nat, attrs: seq<Attr>, max: nat, kind: nat)
    requires Spells(b, i, end, attrs) && kind <= max
    ensures |Filled(Blank(max + 1), i, attrs)| == max + 1
    ensures Answers(b, Filled(Blank(max + 1), i, attrs)[kind], attrs, kind)
  {
    FilledLast(Blank(max + 1), i, attrs, kind);
    var k := LastOf(attrs, kind);
    if k >= 0 {
      SpelledAt(b, i, end, attrs, k);
    }
  }

  /** From i to end the parser takes the attributes up exactly, and has for the
      type the last attribute with it. */
  predicate ParsesTo(b: seq<byte>, i: nat, end: nat, attrs: seq<Attr>, max: nat, kind: nat)
    requires kind <= max
  {
    && i <= end <= |b|
    && var r := Parse(b, i, end - i, Blank(max + 1)); r.1 == 0 && Answers(b, r.0[kind], attrs, kind)
  }

  lemma SpelledParses(b: seq<byte>, i: nat, end: nat, attrs: seq<Attr>, max: nat, kind: nat)
    requires Spells(b, i, end, attrs) && i <= end <= |b| && kind <= max
    ensures ParsesTo(b, i, end, attrs, max, kind)
  {
    AnswersSpelled(b, i, end, attrs, max, kind);
    ParseSpelled(b, i, end, attrs, Blank(max + 1));
  }

  /** Build then parse: after any run of appends the parser takes up exactly the
      attributes that fitted, and has for each type the last one appended with it. */
  lemma BuildThenParse(m: Msg, maxlen: nat, attrs: seq<Attr>, max: nat, kind: nat)
    requires m.len % 4 == 0 && m.len <= maxlen <= |m.b| && kind <= max
    requires AllOk(Taken(m, maxlen, attrs))
    ensures var m' := Built(m, maxlen, attrs); ParsesTo(m'.b, m.len, m'.len, Taken(m, maxlen, attrs), max, kind)
  {
    BuiltGrown(m, maxlen, attrs);
    var m' := Built(m, maxlen, attrs);
    SpelledParses(m'.b, m.len, m'.len, Taken(m, maxlen, attrs), max, kind);
  }

  /** The length read back is the attribute's own exactly below 65536 bytes: only its
      low 16 bits are stored. */
  lemma LengthReadsBack(m: Msg, maxlen: nat, a: Attr)
    requires m.len % 4 == 0 && m.len <= maxlen <= |m.b| && Fits(m, maxlen, a)
    ensures Read16(Appended(m, maxlen, a).b, m.len) == a.Len() <==> a.Len() < 0x1_0000
  {
    var b := Appended(m, maxlen, a).b;
    AppendedParts(m, maxlen, a);
    var t := b[m.len..m.len + a.Len()];
    assert t[0] == b[m.len] && t[1] == b[m.len + 1];
  }

  /** An append is refused exactly if header, data and padding would go past the
      bound. */
  lemma RefusedJust(m: Msg, maxlen: nat, a: Attr)
    requires m.len % 4 == 0 && maxlen <= |m.b|
    ensures Appended(m, maxlen, a) == m <==> m.len + 4 + |a.data| + (4 - |a.data| % 4) % 4 > maxlen
  {
    assert (4 + |a.data|) % 4 == |a.data| % 4;
    assert a.Space() == 4 + |a.data| + (4 - |a.data| % 4) % 4;
  }

  /** The four bytes of a word are read back as its two halves, the low one first. */
  lemma Word32ReadsBack(data: u32)
    ensures var b := Word32(data); Read16(b, 0) + 0x1_0000 * Read16(b, 2) == data
  {
    var b, lo, hi := Word32(data), data % 0x1_0000, data / 0x1_0000;
    assert b == Word16(lo) + Word16(hi);
    assert b[0] == Word16(lo)[0] && b[1] == Word16(lo)[1] && b[2] == Word16(hi)[0] && b[3] == Word16(hi)[1];
  }
}
