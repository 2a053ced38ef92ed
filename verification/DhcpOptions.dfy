/** The option fields of a DHCP message: adding options to it and finding them. */
module DhcpOptions {
  import opened Addresses

  const PADDING := 0x00
  const OVER := 0x34
  const END := 0xff

  // curr: the options field, the file field, the sname field
  type Field = f: nat | f <= 2

  // the message from sname on: sname[64], file[128], the cookie and options[308],
  // and the two bytes after it that the lookup may read
  const MESSAGE := 64 + 128 + 4 + 308 + 2
  const OPTIONS := 64 + 128 + 4
  const OPTIONS_LEN := 308

  function Base(f: Field): nat {
    if f == 0 then OPTIONS else if f == 1 then 64 else 0
  }

  function Length(f: Field): nat {
    if f == 0 then OPTIONS_LEN else if f == 1 then 128 else 64
  }

  predicate HasBit(over: int, bit: nat)
    requires bit > 0
  {
    (over / bit) % 2 == 1
  }

  /** A value wholly inside one of the three fields, after its code and length. */
  predicate InField(mem: seq<byte>, at: nat, code: int, f: Field)
    requires |mem| >= MESSAGE
  {
    && Base(f) + 2 <= at && at - 1 < MESSAGE
    && mem[at - 2] == code && at + mem[at - 1] as nat <= Base(f) + Length(f)
  }

  predicate Found(mem: seq<byte>, at: nat, code: int)
    requires |mem| >= MESSAGE
  {
    InField(mem, at, code, 0) || InField(mem, at, code, 1) || InField(mem, at, code, 2)
  }

  /** get_option from byte i of a field on. An overload option is read and skipped
      as the source has it: its value from the byte after, its length from the
      field's second byte. */
  function Look(mem: seq<byte>, curr: Field, i: nat, over: int, code: int): (r: Option<nat>)
    requires |mem| >= MESSAGE
    ensures r.Some? ==> Found(mem, r.value, code)
    decreases 2 - curr, OPTIONS_LEN - i
  {
    var b, length := Base(curr), Length(curr);
    if i >= length then None
    else if mem[b + i] == code then
      if i + 1 + mem[b + i + 1] as nat >= length then None else Some(b + i + 2)
    else if mem[b + i] == PADDING then Look(mem, curr, i + 1, over, code)
    else if mem[b + i] == OVER then
      if i + 1 + mem[b + i + 1] as nat >= length then None
      else Look(mem, curr, i + mem[b + 1] as nat + 2, mem[b + i + 3] as int, code)
    else if mem[b + i] == END then
      if curr == 0 && HasBit(over, 1) then Look(mem, 1, 0, over, code)
      else if curr == 1 && HasBit(over, 2) then Look(mem, 2, 0, over, code)
      else None
    else Look(mem, curr, i + mem[b + i + 1] as nat + 2, over, code)
  }

  /** The lookup as it stands amounts to the lookup from the start. */
  ghost predicate Amounts(mem: seq<byte>, done: bool, curr: Field, i: nat, over: int, code: int)
    requires |mem| >= MESSAGE
  {
    Look(mem, 0, 0, 0, code) == if done then None else Look(mem, curr, i, over, code)
  }

  /** get_option: it comes to an end on every message. */
  method GetOption(mem: array<byte>, code: int) returns (r: Option<nat>)
    requires mem.Length >= MESSAGE
    ensures r == Look(mem[..], 0, 0, 0, code)
    ensures r.Some? ==> Found(mem[..], r.value, code)
  {
    ghost var m := mem[..];
    var curr: Field, i, over, length, optionptr := 0, 0, 0, OPTIONS_LEN, OPTIONS;
    var done := false;
    while !done
      invariant i >= 0 && length == Length(curr) && optionptr == Base(curr)
      invariant Amounts(m, done, curr, i, over, code)
      decreases !done, 2 - curr, length - i
    {
      if i >= length {
        return None;
      }
      if mem[optionptr + i] as int == code {
        if i + 1 + mem[optionptr + i + 1] as int >= length {
          return None;
        }
        return Some(optionptr + i + 2);
      }
      if mem[optionptr + i] == PADDING {
        i := i + 1;
      } else if mem[optionptr + i] == OVER {
        if i + 1 + mem[optionptr + i + 1] as int >= length {
          return None;
        }
        over := mem[optionptr + i + 3] as int;
        i := i + mem[optionptr + 1] as int + 2;
      } else if mem[optionptr + i] == END {
        if curr == 0 && HasBit(over, 1) {
          optionptr, i, length, curr := 64, 0, 128, 1;
        } else if curr == 1 && HasBit(over, 2) {
          optionptr, i, length, curr := 0, 0, 64, 2;
        } else {
          done := true;
        }
      } else {
        i := i + mem[optionptr + i + 1] as int + 2;
      }
    }
    r := None;
  }

  // ------------------------------------------------------------------- adding

  /** end_option, if it gets to an END at all. */
  function EndFrom(o: seq<byte>, i: nat): (r: Option<nat>)
    ensures r.Some? ==> i <= r.value < |o| && o[r.value] == END
    decreases |o| - i
  {
    if i >= |o| then None
    else if o[i] == END then Some(i)
    else if o[i] == PADDING then EndFrom(o, i + 1)
    else if i + 1 >= |o| then None
    else EndFrom(o, i + o[i + 1] as nat + 2)
  }

  // code, length and value
  datatype Opt = Opt(code: byte, value: seq<byte>)
  {
    predicate Ok() {
      |value| <= 255
    }

    function Bytes(): (r: seq<byte>)
      requires Ok()
      ensures |r| == |value| + 2
    {
      [code, |value| as byte] + value
    }
  }

  /** The options field after an add. */
  function Added(o: seq<byte>, x: Opt): (r: seq<byte>)
    requires x.Ok() && |o| == OPTIONS_LEN
    ensures |r| == |o|
  {
    var end := EndFrom(o, 0);
    if end.None? || end.value + |x.value| + 2 + 1 >= OPTIONS_LEN then o
    else o[..end.value] + x.Bytes() + [END] + o[end.value + |x.value| + 3..]
  }

  /** end_option has no bound of its own: there must be an END to get to. */
  method EndOption(mem: array<byte>) returns (i: nat)
    requires mem.Length >= MESSAGE && EndFrom(mem[OPTIONS..OPTIONS + OPTIONS_LEN], 0).Some?
    ensures Some(i) == EndFrom(mem[OPTIONS..OPTIONS + OPTIONS_LEN], 0)
  {
    ghost var o := mem[OPTIONS..OPTIONS + OPTIONS_LEN];
    i := 0;
    while mem[OPTIONS + i] != END
      invariant i < OPTIONS_LEN && EndFrom(o, i) == EndFrom(o, 0)
      decreases OPTIONS_LEN - i
    {
      assert o[i] == mem[OPTIONS + i] && (i + 1 < |o| ==> o[i + 1] == mem[OPTIONS + i + 1]);
      if mem[OPTIONS + i] == PADDING {
        i := i + 1;
      } else {
        i := i + mem[OPTIONS + i + 1] as nat + 2;
      }
    }
    assert o[i] == mem[OPTIONS + i];
  }

  /** add_option_string: refused and nothing changed, or in place before a new END. */
  method AddOptionString(mem: array<byte>, x: Opt) returns (ret: nat)
    requires mem.Length >= MESSAGE && x.Ok() && EndFrom(mem[OPTIONS..OPTIONS + OPTIONS_LEN], 0).Some?
    modifies mem
    ensures mem[OPTIONS..OPTIONS + OPTIONS_LEN] == Added(old(mem[OPTIONS..OPTIONS + OPTIONS_LEN]), x)
    ensures mem[..OPTIONS] == old(mem[..OPTIONS]) && mem[OPTIONS + OPTIONS_LEN..] == old(mem[OPTIONS + OPTIONS_LEN..])
    ensures ret == 0 ==> mem[..] == old(mem[..])
    ensures ret == 0 || ret == |x.value| + 2
  {
    ghost var o := mem[OPTIONS..OPTIONS + OPTIONS_LEN];
    var end := EndOption(mem);
    var n := |x.value| + 2;
    if end + n + 1 >= OPTIONS_LEN {
      return 0;
    }
    Splice(mem, OPTIONS + end, x.Bytes() + [END]);
    SplicedField(mem[..], old(mem[..]), o, end, x.Bytes());
    ret := n;
  }

  /** A memcpy. */
  method Splice(mem: array<byte>, at: nat, text: seq<byte>)
    requires at + |text| <= mem.Length
    modifies mem
    ensures mem[..] == old(mem[..at]) + text + old(mem[at + |text|..])
  {
    for k := 0 to |text|
      invariant forall j | 0 <= j < mem.Length :: mem[j] == if at <= j < at + k then text[j - at] else old(mem[j])
    {
      mem[at + k] := text[k];
    }
  }

  lemma SplicedField(m': seq<byte>, m: seq<byte>, o: seq<byte>, end: nat, b: seq<byte>)
    requires |m| >= MESSAGE && o == m[OPTIONS..OPTIONS + OPTIONS_LEN] && end + |b| + 1 < OPTIONS_LEN
    requires m' == m[..OPTIONS + end] + (b + [END]) + m[OPTIONS + end + |b| + 1..]
    ensures |m'| == |m| && m'[OPTIONS..OPTIONS + OPTIONS_LEN] == o[..end] + b + [END] + o[end + |b| + 1..]
    ensures m'[..OPTIONS] == m[..OPTIONS] && m'[OPTIONS + OPTIONS_LEN..] == m[OPTIONS + OPTIONS_LEN..]
  {
  }

  // ------------------------------------------------------------- what is found

  /** The options one after the other from byte i on, and then END. */
  predicate Spells(o: seq<byte>, i: nat, opts: seq<Opt>)
    decreases |opts|
  {
    if opts == [] then i < |o| && o[i] == END
    else
      var x := opts[0];
      && x.Ok() && i + |x.value| + 2 <= |o| && o[i..i + |x.value| + 2] == x.Bytes()
      && Spells(o, i + |x.value| + 2, opts[1..])
  }

  function Size(opts: seq<Opt>): nat {
    if opts == [] then 0 else |opts[0].value| + 2 + Size(opts[1..])
  }

  predicate Plain(opts: seq<Opt>) {
    forall k | 0 <= k < |opts| :: opts[k].Ok() && opts[k].code != PADDING && opts[k].code != OVER && opts[k].code != END
  }

  /** The first option with the code, or their number. */
  function IndexOf(opts: seq<Opt>, code: int): (k: nat)
    ensures k <= |opts| && (k < |opts| ==> opts[k].code == code) && forall j | 0 <= j < k :: opts[j].code != code
  {
    if opts == [] || opts[0].code == code then 0 else 1 + IndexOf(opts[1..], code)
  }

  lemma {:induction false} EndOfSpelled(o: seq<byte>, i: nat, opts: seq<Opt>)
    requires Plain(opts) && Spells(o, i, opts)
    ensures EndFrom(o, i) == Some(i + Size(opts))
    decreases |opts|
  {
    if opts != [] {
      var n := |opts[0].value| + 2;
      assert o[i] == o[i..i + n][0] == opts[0].code && o[i + 1] == o[i..i + n][1];
      EndOfSpelled(o, i + n, opts[1..]);
    }
  }

  lemma SameSlice(o: seq<byte>, o': seq<byte>, i: nat, j: nat, end: nat)
    requires i <= j <= end <= |o| == |o'| && o'[..end] == o[..end]
    ensures o'[i..j] == o[i..j]
  {
    assert o'[i..j] == o'[..end][i..j];
    assert o[i..j] == o[..end][i..j];
  }

  /** o' is o up to `end`, then the option and END. */
  predicate Follows(o: seq<byte>, o': seq<byte>, end: nat, x: Opt)
    requires x.Ok()
  {
    && |o'| == |o| && end + |x.value| + 2 < |o| && o'[..end] == o[..end]
    && o'[end..end + |x.value| + 2] == x.Bytes() && o'[end + |x.value| + 2] == END
  }

  lemma SpellsFirst(o: seq<byte>, i: nat, x: Opt, rest: seq<Opt>)
    requires x.Ok()
    requires i + |x.value| + 2 <= |o| && o[i..i + |x.value| + 2] == x.Bytes() && Spells(o, i + |x.value| + 2, rest)
    ensures Spells(o, i, [x] + rest)
  {
    assert ([x] + rest)[1..] == rest;
  }

  lemma SnocTail(opts: seq<Opt>, x: Opt)
    requires opts != []
    ensures opts + [x] == [opts[0]] + (opts[1..] + [x])
  {
  }

  lemma SpellsOne(o: seq<byte>, i: nat, x: Opt)
    requires x.Ok() && i + |x.value| + 2 < |o| && o[i..i + |x.value| + 2] == x.Bytes() && o[i + |x.value| + 2] == END
    ensures Spells(o, i, [x])
  {
    SpellsFirst(o, i, x, []);
    assert [x] + [] == [x];
  }

  lemma SameFirst(o: seq<byte>, o': seq<byte>, i: nat, opts: seq<Opt>, x: Opt)
    requires opts != [] && x.Ok() && Spells(o, i, opts) && Follows(o, o', i + Size(opts), x)
    ensures var n := |opts[0].value| + 2;
      opts[0].Ok() && i + n <= |o'| && o'[i..i + n] == opts[0].Bytes() && Size(opts) == n + Size(opts[1..])
  {
    var n := |opts[0].value| + 2;
    SameSlice(o, o', i, i + n, i + Size(opts));
  }

  /** An add that fits goes behind the others. */
  lemma {:induction false} SpellsMore(o: seq<byte>, o': seq<byte>, i: nat, opts: seq<Opt>, x: Opt)
    requires x.Ok() && Spells(o, i, opts) && Follows(o, o', i + Size(opts), x)
    ensures Spells(o', i, opts + [x])
    decreases |opts|
  {
    if opts == [] {
      SpellsOne(o', i, x);
      assert opts + [x] == [x];
    } else {
      SameFirst(o, o', i, opts, x);
      SpellsMore(o, o', i + |opts[0].value| + 2, opts[1..], x);
      SpellsFirst(o', i, opts[0], opts[1..] + [x]);
      SnocTail(opts, x);
    }
  }

  predicate Room(opts: seq<Opt>, x: Opt) {
    Size(opts) + |x.value| + 2 + 1 < OPTIONS_LEN
  }

  lemma Spliced(o: seq<byte>, o': seq<byte>, e: nat, b: seq<byte>)
    requires e + |b| < |o| && o' == o[..e] + b + [END] + o[e + |b| + 1..]
    ensures |o'| == |o| && o'[..e] == o[..e] && o'[e..e + |b|] == b && o'[e + |b|] == END
  {
  }

  lemma AddedSpells(o: seq<byte>, opts: seq<Opt>, x: Opt)
    requires Plain(opts) && x.Ok() && |o| == OPTIONS_LEN && Spells(o, 0, opts)
    ensures if Room(opts, x) then Spells(Added(o, x), 0, opts + [x]) else Added(o, x) == o
  {
    EndOfSpelled(o, 0, opts);
    if Room(opts, x) {
      Spliced(o, Added(o, x), Size(opts), x.Bytes());
      SpellsMore(o, Added(o, x), 0, opts, x);
    }
  }

  // ------------------------------------------------------------------ looking up

  /** The lookup from byte i of the options field, with no overload. */
  predicate Looks(mem: seq<byte>, i: nat, code: int, r: Option<nat>)
    requires |mem| >= MESSAGE
  {
    Look(mem, 0, i, 0, code) == r
  }

  lemma LookHit(mem: seq<byte>, i: nat, code: int)
    requires |mem| >= MESSAGE && i + 1 < OPTIONS_LEN
    requires mem[OPTIONS + i] == code && i + 1 + mem[OPTIONS + i + 1] as nat < OPTIONS_LEN
    ensures Looks(mem, i, code, Some(OPTIONS + i + 2))
  {
  }

  lemma LookPast(mem: seq<byte>, i: nat, n: nat, code: int, r: Option<nat>)
    requires |mem| >= MESSAGE && i + 1 < OPTIONS_LEN && n == mem[OPTIONS + i + 1] as nat + 2
    requires var t := mem[OPTIONS + i]; t != code && t != PADDING && t != OVER && t != END
    requires Looks(mem, i + n, code, r)
    ensures Looks(mem, i, code, r)
  {
  }

  lemma LookEnd(mem: seq<byte>, i: nat, code: int)
    requires |mem| >= MESSAGE && i < OPTIONS_LEN && mem[OPTIONS + i] == END && code != END
    ensures Looks(mem, i, code, None)
  {
  }

  lemma SpelledFirst(mem: seq<byte>, o: seq<byte>, i: nat, opts: seq<Opt>)
    requires |mem| >= MESSAGE && o == mem[OPTIONS..OPTIONS + OPTIONS_LEN]
    requires Plain(opts) && opts != [] && Spells(o, i, opts)
    ensures var x := opts[0]; var n := |x.value| + 2;
      && i + n < OPTIONS_LEN && mem[OPTIONS + i] == x.code && mem[OPTIONS + i + 1] as nat == n - 2
      && o[i + 2..i + n] == x.value && Plain(opts[1..]) && Spells(o, i + n, opts[1..])
  {
    var n := |opts[0].value| + 2;
    var b := o[i..i + n];
    assert b[0] == o[i] && b[1] == o[i + 1];
    assert o[i + 2..i + n] == b[2..];
    EndOfSpelled(o, i + n, opts[1..]);
  }

  /** Where the k-th option's value is. */
  function ValueAt(i: nat, opts: seq<Opt>, k: nat): nat
    requires k <= |opts|
  {
    i + Size(opts[..k]) + 2
  }

  lemma ValueAtNext(i: nat, opts: seq<Opt>, k: nat)
    requires opts != [] && k < |opts|
    ensures ValueAt(i, opts, k + 1) == ValueAt(i + |opts[0].value| + 2, opts[1..], k)
    ensures ValueAt(i, opts, 0) == i + 2
  {
    assert opts[..k + 1][1..] == opts[1..][..k];
    assert opts[..0] == [];
  }

  /** The lookup finds the first option with the code. */
  lemma {:induction false} LookSpelled(mem: seq<byte>, o: seq<byte>, i: nat, opts: seq<Opt>, code: int)
    requires |mem| >= MESSAGE && o == mem[OPTIONS..OPTIONS + OPTIONS_LEN]
    requires Plain(opts) && Spells(o, i, opts) && code != END
    ensures var k := IndexOf(opts, code);
      Looks(mem, i, code, if k == |opts| then None else Some(OPTIONS + ValueAt(i, opts, k)))
    decreases |opts|
  {
    if opts == [] {
      assert mem[OPTIONS + i] == o[i];
      LookEnd(mem, i, code);
    } else {
      var n := |opts[0].value| + 2;
      SpelledFirst(mem, o, i, opts);
      ValueAtNext(i, opts, 0);
      if opts[0].code == code {
        LookHit(mem, i, code);
      } else {
        var k := IndexOf(opts[1..], code);
        LookSpelled(mem, o, i + n, opts[1..], code);
        if k < |opts[1..]| {
          ValueAtNext(i, opts, k);
        }
        LookPast(mem, i, n, code, if k == |opts[1..]| then None else Some(OPTIONS + ValueAt(i + n, opts[1..], k)));
      }
    }
  }

  lemma {:induction false} ValueSpelled(mem: seq<byte>, o: seq<byte>, i: nat, opts: seq<Opt>, k: nat)
    requires |mem| >= MESSAGE && o == mem[OPTIONS..OPTIONS + OPTIONS_LEN]
    requires Plain(opts) && Spells(o, i, opts) && k < |opts|
    ensures var at := ValueAt(i, opts, k); at + |opts[k].value| <= |o| && o[at..at + |opts[k].value|] == opts[k].value
    decreases |opts|
  {
    var n := |opts[0].value| + 2;
    SpelledFirst(mem, o, i, opts);
    ValueAtNext(i, opts, if k == 0 then 0 else k - 1);
    if k > 0 {
      ValueSpelled(mem, o, i + n, opts[1..], k - 1);
    }
  }

  /** A run of adds, each taken if there is room. */
  function AddAll(o: seq<byte>, xs: seq<Opt>): (r: seq<byte>)
    requires |o| == OPTIONS_LEN && forall k | 0 <= k < |xs| :: xs[k].Ok()
    ensures |r| == OPTIONS_LEN
    decreases |xs|
  {
    if xs == [] then o else Added(AddAll(o, xs[..|xs| - 1]), xs[|xs| - 1])
  }

  function Taken(xs: seq<Opt>): seq<Opt>
    decreases |xs|
  {
    if xs == [] then []
    else
      var before := Taken(xs[..|xs| - 1]);
      if Room(before, xs[|xs| - 1]) then before + [xs[|xs| - 1]] else before
  }

  lemma {:induction false} AddAllSpells(o: seq<byte>, xs: seq<Opt>)
    requires |o| == OPTIONS_LEN && o[0] == END && Plain(xs)
    ensures Plain(Taken(xs)) && Spells(AddAll(o, xs), 0, Taken(xs))
    decreases |xs|
  {
    if xs != [] {
      var n := |xs| - 1;
      assert Plain(xs[..n]);
      AddAllSpells(o, xs[..n]);
      AddedSpells(AddAll(o, xs[..n]), Taken(xs[..n]), xs[n]);
    }
  }

  lemma NoneWithCode(opts: seq<Opt>, code: int)
    ensures IndexOf(opts, code) == |opts| <==> forall j | 0 <= j < |opts| :: opts[j].code != code
  {
    if IndexOf(opts, code) < |opts| {
      assert opts[IndexOf(opts, code)].code == code;
    }
  }

  /** The answer is the value of the first option with the code, or that there is
      none. */
  predicate Right(mem: seq<byte>, opts: seq<Opt>, code: int, r: Option<nat>) {
    match r
    case None => forall j | 0 <= j < |opts| :: opts[j].code != code
    case Some(at) =>
      var k := IndexOf(opts, code);
      k < |opts| && at + |opts[k].value| <= |mem| && mem[at..at + |opts[k].value|] == opts[k].value
  }

  lemma ValueInMem(mem: seq<byte>, o: seq<byte>, at: nat, v: seq<byte>)
    requires |mem| >= MESSAGE && o == mem[OPTIONS..OPTIONS + OPTIONS_LEN]
    requires at + |v| <= |o| && o[at..at + |v|] == v
    ensures mem[OPTIONS + at..OPTIONS + at + |v|] == v
  {
    forall k | 0 <= k < |v|
      ensures mem[OPTIONS + at + k] == v[k]
    {
      assert o[at..at + |v|][k] == o[at + k];
      assert o[at + k] == mem[OPTIONS + at + k];
    }
  }

  lemma GetSpelled(mem: seq<byte>, o: seq<byte>, opts: seq<Opt>, code: int) returns (r: Option<nat>)
    requires |mem| >= MESSAGE && o == mem[OPTIONS..OPTIONS + OPTIONS_LEN]
    requires Plain(opts) && Spells(o, 0, opts) && code != END
    ensures Looks(mem, 0, code, r) && Right(mem, opts, code, r)
  {
    var k := IndexOf(opts, code);
    LookSpelled(mem, o, 0, opts, code);
    NoneWithCode(opts, code);
    if k == |opts| {
      r := None;
    } else {
      var at := ValueAt(0, opts, k);
      r := Some(OPTIONS + at);
      ValueSpelled(mem, o, 0, opts, k);
      ValueInMem(mem, o, at, opts[k].value);
    }
  }

  /** Whatever is added to a field that holds just END, the lookup of a code finds
      the value of the first option added with it, and nothing if there is none. */
  lemma AddThenGet(mem: seq<byte>, o: seq<byte>, xs: seq<Opt>, code: int)
    requires |mem| >= MESSAGE && |o| == OPTIONS_LEN && o[0] == END && Plain(xs)
    requires mem[OPTIONS..OPTIONS + OPTIONS_LEN] == AddAll(o, xs)
    requires code != END
    ensures Right(mem, Taken(xs), code, Look(mem, 0, 0, 0, code))
  {
    AddAllSpells(o, xs);
    var r := GetSpelled(mem, AddAll(o, xs), Taken(xs), code);
    assert Look(mem, 0, 0, 0, code) == r;
  }

  // ---------------------------------------------- padding, and what an overload does

  // what a field holds before its END: a byte of padding, or an option by its code
  // and the length of its value
  datatype Item = Pad | One(code: byte, n: byte)

  /** Field f holds the items from byte i on, and END at byte e. */
  predicate Spelt(mem: seq<byte>, f: Field, i: nat, items: seq<Item>, e: nat)
    requires |mem| >= MESSAGE
    decreases |items|
  {
    var b, length := Base(f), Length(f);
    if items == [] then i == e < length && mem[b + e] == END
    else match items[0]
      case Pad => i < length && mem[b + i] == PADDING && Spelt(mem, f, i + 1, items[1..], e)
      case One(code, n) =>
        && code != PADDING && code != OVER && code != END && i + 1 + n < length
        && mem[b + i] == code && mem[b + i + 1] == n && Spelt(mem, f, i + n + 2, items[1..], e)
  }

  /** Where the value of the first option with the code is. */
  function Place(i: nat, items: seq<Item>, code: int): Option<nat>
    decreases |items|
  {
    if items == [] then None
    else match items[0]
      case Pad => Place(i + 1, items[1..], code)
      case One(c, n) => if c == code then Some(i + 2) else Place(i + n + 2, items[1..], code)
  }

  function At(base: nat, r: Option<nat>): Option<nat> {
    if r.Some? then Some(base + r.value) else None
  }

  function OrElse(r: Option<nat>, s: Option<nat>): Option<nat> {
    if r.Some? then r else s
  }

  /** The lookup goes through the items of a field in order, and on from its END. */
  lemma {:induction false} LookItems(mem: seq<byte>, f: Field, i: nat, items: seq<Item>, e: nat, over: int, code: int)
    requires |mem| >= MESSAGE && Spelt(mem, f, i, items, e) && code != PADDING && code != END
    ensures Look(mem, f, i, over, code) == OrElse(At(Base(f), Place(i, items, code)), Look(mem, f, e, over, code))
    decreases |items|
  {
    if items != [] {
      match items[0]
      case Pad => LookItems(mem, f, i + 1, items[1..], e, over, code);
      case One(c, n) =>
        if c != code {
          LookItems(mem, f, i + n + 2, items[1..], e, over, code);
        }
    }
  }

  /** The END that end_option gets to, past options and padding. */
  lemma {:induction false} EndOfItems(mem: seq<byte>, o: seq<byte>, i: nat, items: seq<Item>, e: nat)
    requires |mem| >= MESSAGE && o == mem[OPTIONS..OPTIONS + OPTIONS_LEN] && Spelt(mem, 0, i, items, e)
    ensures EndFrom(o, i) == Some(e)
    decreases |items|
  {
    assert forall k | 0 <= k < OPTIONS_LEN :: o[k] == mem[OPTIONS + k];
    if items != [] {
      match items[0]
      case Pad => EndOfItems(mem, o, i + 1, items[1..], e);
      case One(_, n) => EndOfItems(mem, o, i + n + 2, items[1..], e);
    }
  }

  lemma {:induction false} SpeltEnd(mem: seq<byte>, f: Field, i: nat, items: seq<Item>, e: nat)
    requires |mem| >= MESSAGE && Spelt(mem, f, i, items, e)
    ensures i <= e < Length(f) && mem[Base(f) + e] == END
    decreases |items|
  {
    if items != [] {
      match items[0]
      case Pad => SpeltEnd(mem, f, i + 1, items[1..], e);
      case One(_, n) => SpeltEnd(mem, f, i + n + 2, items[1..], e);
    }
  }

  lemma Bits(over: int)
    ensures HasBit(over, 1) <==> over % 2 == 1
    ensures HasBit(over, 2) <==> over / 2 % 2 == 1
  {
  }

  /** The bits of an overload: from the END of a field on to the next one. */
  lemma LookOn(mem: seq<byte>, f: Field, e: nat, over: int, code: int)
    requires |mem| >= MESSAGE && e < Length(f) && mem[Base(f) + e] == END && code != END
    ensures Look(mem, f, e, over, code)
         == if f == 0 && over % 2 == 1 then Look(mem, 1, 0, over, code)
            else if f == 1 && over / 2 % 2 == 1 then Look(mem, 2, 0, over, code) else None
  {
    Bits(over);
  }

  /** What is looked up from the END of the options field on: with bit 0 the 128 bytes
      of the file field, and then with bit 1 the 64 bytes of the sname field. */
  lemma LookFurther(mem: seq<byte>, e: nat, over: int, file: seq<Item>, e1: nat, sname: seq<Item>, e2: nat, code: int)
    requires |mem| >= MESSAGE && e < 308 && mem[196 + e] == END && code != PADDING && code != END
    requires Spelt(mem, 1, 0, file, e1) && Spelt(mem, 2, 0, sname, e2)
    ensures Look(mem, 0, e, over, code)
         == if over % 2 == 0 then None
            else OrElse(At(64, Place(0, file, code)), if over / 2 % 2 == 0 then None else Place(0, sname, code))
  {
    SpeltEnd(mem, 1, 0, file, e1);
    SpeltEnd(mem, 2, 0, sname, e2);
    LookOn(mem, 0, e, over, code);
    LookItems(mem, 1, 0, file, e1, over, code);
    LookOn(mem, 1, e1, over, code);
    LookItems(mem, 2, 0, sname, e2, over, code);
    LookOn(mem, 2, e2, over, code);
  }

  /** With an overload option of one byte at k in the options field, behind a first
      option of one byte: the lookup goes on past it, but takes the byte after its
      value, the next code or END, for the value that says which fields to search. */
  lemma OverloadReads(mem: seq<byte>, k: nat, e: nat, before: seq<Item>, after: seq<Item>,
                      file: seq<Item>, e1: nat, sname: seq<Item>, e2: nat, code: int)
    requires |mem| >= MESSAGE && code != PADDING && code != END && code != OVER
    requires mem[196 + 1] == 1 && k + 3 <= e < 308 && mem[196 + k] == OVER && mem[196 + k + 1] == 1
    requires SpeltTo(mem, 0, before, k) && Spelt(mem, 0, k + 3, after, e)
    requires Spelt(mem, 1, 0, file, e1) && Spelt(mem, 2, 0, sname, e2)
    ensures var over := mem[196 + k + 3];
      Look(mem, 0, 0, 0, code)
      == OrElse(At(196, Place(0, before, code)),
         OrElse(At(196, Place(k + 3, after, code)),
                if over % 2 == 0 then None
                else OrElse(At(64, Place(0, file, code)), if over / 2 % 2 == 0 then None else Place(0, sname, code))))
  {
    var over := mem[196 + k + 3];
    SpeltEnd(mem, 0, k + 3, after, e);
    LookTo(mem, 0, before, k, 0, code);
    LookItems(mem, 0, k + 3, after, e, over as int, code);
    LookFurther(mem, e, over as int, file, e1, sname, e2, code);
  }

  /** The options field holds the items from byte i up to byte k. */
  predicate SpeltTo(mem: seq<byte>, i: nat, items: seq<Item>, k: nat)
    requires |mem| >= MESSAGE
    decreases |items|
  {
    if items == [] then i == k < 308
    else match items[0]
      case Pad => i < 308 && mem[196 + i] == PADDING && SpeltTo(mem, i + 1, items[1..], k)
      case One(code, n) =>
        && code != PADDING && code != OVER && code != END && i + 1 + n < 308
        && mem[196 + i] == code && mem[196 + i + 1] == n && SpeltTo(mem, i + n + 2, items[1..], k)
  }

  lemma {:induction false} LookTo(mem: seq<byte>, i: nat, items: seq<Item>, k: nat, over: int, code: int)
    requires |mem| >= MESSAGE && SpeltTo(mem, i, items, k) && code != PADDING && code != END
    ensures Look(mem, 0, i, over, code) == OrElse(At(196, Place(i, items, code)), Look(mem, 0, k, over, code))
    decreases |items|
  {
    if items != [] {
      match items[0]
      case Pad => LookTo(mem, i + 1, items[1..], k, over, code);
      case One(c, n) =>
        if c != code {
          LookTo(mem, i + n + 2, items[1..], k, over, code);
        }
    }
  }
}
