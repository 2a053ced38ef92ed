/** The Internet checksum: ping's in_cksum, the DHCP client's checksum, and the
    probe whose time stamp is added to a checksum already made. */
module Checksum {
  import opened Addresses

  const INT_MAX := 0x7fffffff

  // ------------------------------------------------------------------ arithmetic

  /** The sum of the words from byte i on, low byte first; a last odd byte is a
      low byte. */
  function SumFrom(b: seq<byte>, i: nat): nat
    decreases |b| - i
  {
    if i >= |b| then 0
    else if i + 1 == |b| then b[i] as nat
    else (b[i] as nat) + 256 * (b[i + 1] as nat) + SumFrom(b, i + 2)
  }

  function Sum(b: seq<byte>): nat {
    SumFrom(b, 0)
  }

  /** The end-around-carry sum: the representative of s modulo 65535 in 1..65535,
      and 0 for 0 only. */
  function Fold(s: nat): nat {
    if s == 0 then 0 else (s - 1) % 65535 + 1
  }

  function Cksum(b: seq<byte>, csum: nat): nat {
    65535 - Fold(csum + Sum(b))
  }

  lemma FoldIs(s: nat, r: nat, k: int)
    requires s == r + 65535 * k && r <= 65535 && (r == 0 <==> s == 0)
    ensures Fold(s) == r
  {
    if s > 0 {
      assert s - 1 == (r - 1) + 65535 * k;
      ModIs(s - 1, r - 1, k);
    }
  }

  lemma ModIs(s: int, r: int, k: int)
    requires s == r + 65535 * k && 0 <= r < 65535
    ensures s % 65535 == r
  {
  }

  lemma FoldParts(s: nat) returns (k: nat)
    ensures s == Fold(s) + 65535 * k && Fold(s) <= 65535 && (Fold(s) == 0 <==> s == 0)
  {
    k := if s == 0 then 0 else (s - 1) / 65535;
  }

  /** Part sums may be folded before they are added. */
  lemma FoldAdd(x: nat, y: nat)
    ensures Fold(Fold(x) + y) == Fold(x + y)
  {
    var k := FoldParts(x);
    var j := FoldParts(Fold(x) + y);
    FoldIs(x + y, Fold(Fold(x) + y), j + k);
  }

  /** Sums of parts that begin at even offsets add up. */
  lemma {:induction false} SumConcat(a: seq<byte>, b: seq<byte>, i: nat)
    requires |a| % 2 == 0 && i <= |a| && i % 2 == 0
    ensures SumFrom(a + b, i) == SumFrom(a, i) + Sum(b)
    decreases |a| - i
  {
    if i == |a| {
      SumShift(a, b, 0);
    } else {
      SumConcat(a, b, i + 2);
    }
  }

  lemma {:induction false} SumShift(a: seq<byte>, b: seq<byte>, i: nat)
    ensures SumFrom(a + b, |a| + i) == SumFrom(b, i)
    decreases |b| - i
  {
    if i + 1 < |b| {
      SumShift(a, b, i + 2);
    }
  }

  function Zeros(n: nat): seq<byte> {
    seq(n, _ => 0)
  }

  lemma {:induction false} SumZeros(n: nat, i: nat)
    ensures SumFrom(Zeros(n), i) == 0
    decreases n - i
  {
    if i + 1 < n {
      SumZeros(n, i + 2);
    }
  }

  // ------------------------------------------------------------------ the methods

  /** in_cksum: right whenever its 31-bit accumulator does not overflow. */
  method InCksum(b: seq<byte>, csum: nat) returns (answer: nat)
    requires csum <= 65535 && csum + Sum(b) <= INT_MAX
    ensures answer == Cksum(b, csum) && answer <= 65535
  {
    var nleft := |b|;
    var w := 0;
    var sum := csum;
    while nleft > 1
      invariant w + nleft == |b| && w % 2 == 0
      invariant sum + SumFrom(b, w) == csum + Sum(b) && sum <= INT_MAX
      decreases nleft
    {
      sum := sum + (b[w] as nat) + 256 * (b[w + 1] as nat);
      w := w + 2;
      nleft := nleft - 2;
    }
    if nleft == 1 {
      sum := sum + b[w] as nat;
    }
    ghost var total := sum;
    sum := sum / 65536 + sum % 65536;
    ghost var half := sum;
    sum := sum + sum / 65536;
    TwoStep(total, half, sum);
    answer := 65535 - sum % 65536;
  }

  /** Two steps fold any 31-bit sum. */
  lemma TwoStep(s: nat, s1: nat, s2: nat)
    requires s <= INT_MAX && s1 == s / 65536 + s % 65536 && s2 == s1 + s1 / 65536
    ensures s2 % 65536 == Fold(s)
  {
    var r := if s1 < 65536 then s1 else s1 - 65535;
    FoldIs(s, r, s / 65536 + if s1 < 65536 then 0 else 1);
  }

  /** The DHCP client's checksum, which folds until nothing is left to fold. */
  method ChecksumLoop(b: seq<byte>) returns (answer: nat)
    requires Sum(b) <= INT_MAX
    ensures answer == Cksum(b, 0)
  {
    var count := |b|;
    var source := 0;
    var sum := 0;
    while count > 1
      invariant source + count == |b| && source % 2 == 0
      invariant sum + SumFrom(b, source) == Sum(b)
      decreases count
    {
      sum := sum + (b[source] as nat) + 256 * (b[source + 1] as nat);
      source := source + 2;
      count := count - 2;
    }
    if count > 0 {
      sum := sum + b[source] as nat;
    }
    while sum / 65536 != 0
      invariant sum >= 0 && Fold(sum) == Fold(Sum(b))
      decreases sum
    {
      FoldOnce(sum);
      sum := sum % 65536 + sum / 65536;
    }
    FoldIs(sum, sum, 0);
    answer := 65535 - sum;
  }

  lemma FoldOnce(s: nat)
    ensures Fold(s % 65536 + s / 65536) == Fold(s)
  {
    var t := s % 65536 + s / 65536;
    var k := FoldParts(t);
    assert s == t + 65535 * (s / 65536);
    FoldIs(s, Fold(t), k + s / 65536);
  }

  // ------------------------------------------------------------------ no overflow

  lemma {:induction false} SumBound(b: seq<byte>, i: nat)
    requires i <= |b|
    ensures SumFrom(b, i) <= 65535 * ((|b| - i) / 2) + 255 * ((|b| - i) % 2)
    ensures (forall j | i <= j < |b| :: b[j] == 255)
      ==> SumFrom(b, i) == 65535 * ((|b| - i) / 2) + 255 * ((|b| - i) % 2)
    decreases |b| - i
  {
    if i + 1 < |b| {
      SumBound(b, i + 2);
    }
  }

  predicate NeverOverflows(n: nat, csum: nat) {
    csum + 65535 * (n / 2) + 255 * (n % 2) <= INT_MAX
  }

  function Ones(n: nat): seq<byte> {
    seq(n, _ => 255)
  }

  /** Lengths and initial sums for which no contents overflow the accumulator. */
  lemma OverflowExactly(n: nat, csum: nat)
    ensures NeverOverflows(n, csum) <==> forall b: seq<byte> | |b| == n :: csum + Sum(b) <= INT_MAX
    ensures n <= 65536 && csum == 0 ==> NeverOverflows(n, csum)
    ensures !NeverOverflows(65536, 65535)
  {
    SumBound(Ones(n), 0);
    forall b: seq<byte> | |b| == n
      ensures Sum(b) <= Sum(Ones(n))
    {
      SumBound(b, 0);
    }
    assert Sum(Ones(n)) == 65535 * (n / 2) + 255 * (n % 2);
    if !NeverOverflows(n, csum) {
      assert |Ones(n)| == n && csum + Sum(Ones(n)) > INT_MAX;
    }
  }

  lemma NoOverflow(b: seq<byte>, csum: nat)
    requires NeverOverflows(|b|, csum)
    ensures csum + Sum(b) <= INT_MAX
  {
    SumBound(b, 0);
  }

  // ------------------------------------------------------------- checksum in place

  /** The two bytes of a checksum as they are stored. */
  function Stored(ck: nat): (b: seq<byte>)
    requires ck <= 65535
    ensures |b| == 2
  {
    [(ck % 256) as byte, (ck / 256) as byte]
  }

  lemma SumStored(ck: nat)
    requires ck <= 65535
    ensures Sum(Stored(ck)) == ck
  {
    assert SumFrom(Stored(ck), 2) == 0;
  }

  lemma SumThree(a: seq<byte>, b: seq<byte>, d: seq<byte>)
    requires |a| % 2 == 0 && |b| % 2 == 0
    ensures Sum(a + b + d) == Sum(a) + Sum(b) + Sum(d)
  {
    SumConcat(a, b, 0);
    SumConcat(a + b, d, 0);
  }

  /** A packet that carries its checksum sums to nothing. */
  lemma ChecksumVerifies(a: seq<byte>, d: seq<byte>)
    requires |a| % 2 == 0
    ensures var ck := Cksum(a + Zeros(2) + d, 0); ck <= 65535 && Cksum(a + Stored(ck) + d, 0) == 0
  {
    var s := Sum(a) + Sum(d);
    SumThree(a, Zeros(2), d);
    SumZeros(2, 0);
    var ck := 65535 - Fold(s);
    SumThree(a, Stored(ck), d);
    SumStored(ck);
    var k := FoldParts(s);
    FoldIs(s + ck, 65535, k);
  }

  /** Incremental checksum: summing with a span zeroed and then folding the span in,
      with the complement as the start, is summing it all. */
  lemma ChecksumIncremental(a: seq<byte>, t: seq<byte>, d: seq<byte>)
    requires |a| % 2 == 0 && |t| % 2 == 0
    ensures var c0 := Cksum(a + Zeros(|t|) + d, 0);
      0 <= 65535 - c0 <= 65535 && Cksum(t, 65535 - c0) == Cksum(a + t + d, 0)
  {
    SumThree(a, Zeros(|t|), d);
    SumZeros(|t|, 0);
    SumThree(a, t, d);
    var s := Sum(a) + Sum(d);
    var k := FoldParts(s);
    FoldAdd(s, Sum(t));
  }

  // --------------------------------------------------------------- send_probe

  const ICMP_ECHO: byte := 8
  const MAX_PACKET := 65536

  /** An echo request: `ck` and `id` as stored, `seqno` in network byte order. */
  function Echo(ck: seq<byte>, id: seq<byte>, seqno: nat, body: seq<byte>): seq<byte>
    requires |ck| == 2 && |id| == 2 && seqno <= 65535
  {
    [ICMP_ECHO, 0] + ck + id + [(seqno / 256) as byte, (seqno % 256) as byte] + body
  }

  function HeaderHead(): seq<byte> {
    [ICMP_ECHO, 0]
  }

  /** The request with its checksum over everything. */
  function Summed(id: seq<byte>, seqno: nat, body: seq<byte>): seq<byte>
    requires |id| == 2 && seqno <= 65535
  {
    Echo(Stored(Cksum(Echo(Zeros(2), id, seqno, body), 0)), id, seqno, body)
  }

  lemma EchoParts(ck: seq<byte>, id: seq<byte>, seqno: nat, body: seq<byte>)
    requires |ck| == 2 && |id| == 2 && seqno <= 65535
    ensures Echo(ck, id, seqno, body)
         == HeaderHead() + ck + (id + [(seqno / 256) as byte, (seqno % 256) as byte] + body)
  {
  }

  /** The request sent always verifies. */
  lemma SummedVerifies(id: seq<byte>, seqno: nat, body: seq<byte>)
    requires |id| == 2 && seqno <= 65535
    ensures Cksum(Summed(id, seqno, body), 0) == 0
  {
    var rest := id + [(seqno / 256) as byte, (seqno % 256) as byte] + body;
    EchoParts(Zeros(2), id, seqno, body);
    ChecksumVerifies(HeaderHead(), rest);
    EchoParts(Stored(Cksum(Echo(Zeros(2), id, seqno, body), 0)), id, seqno, body);
  }

  function Overwrite(s: seq<byte>, at: nat, b: seq<byte>): (r: seq<byte>)
    requires at + |b| <= |s|
    ensures |r| == |s|
  {
    s[..at] + b + s[at + |b|..]
  }

  /** A memcpy into the first cc bytes. */
  method PutBytes(out: array<byte>, cc: nat, at: nat, b: seq<byte>)
    requires at + |b| <= cc <= out.Length
    modifies out
    ensures out[..cc] == Overwrite(old(out[..cc]), at, b)
    ensures out[cc..] == old(out[cc..])
  {
    for i := 0 to |b|
      invariant forall j | 0 <= j < out.Length :: out[j] == if at <= j < at + i then b[j - at] else old(out[j])
    {
      out[at + i] := b[i];
    }
  }

  lemma OverwriteAll(s: seq<byte>, id: seq<byte>, seqno: nat, first: seq<byte>)
    requires 8 + |first| <= |s| && |id| == 2 && seqno <= 65535
    ensures Overwrite(s, 0, Echo(Zeros(2), id, seqno, first)) == Echo(Zeros(2), id, seqno, Body(first, s[8..]))
  {
  }

  lemma OverwriteCk(ck0: seq<byte>, ck: seq<byte>, id: seq<byte>, seqno: nat, body: seq<byte>)
    requires |ck0| == 2 && |ck| == 2 && |id| == 2 && seqno <= 65535
    ensures Overwrite(Echo(ck0, id, seqno, body), 2, ck) == Echo(ck, id, seqno, body)
  {
  }

  lemma OverwriteStamp(ck: seq<byte>, id: seq<byte>, seqno: nat, stamp: seq<byte>, filler: seq<byte>)
    requires |ck| == 2 && |id| == 2 && seqno <= 65535 && |stamp| <= |filler|
    ensures Overwrite(Echo(ck, id, seqno, Body(Zeros(|stamp|), filler)), 8, stamp)
      == Echo(ck, id, seqno, Body(stamp, filler))
  {
  }

  /** The body of a probe: the time stamp, if there is room for one, and the rest
      of the buffer as it was. */
  function Body(stamp: seq<byte>, filler: seq<byte>): seq<byte> {
    if |filler| >= |stamp| then stamp + filler[|stamp|..] else filler
  }

  /** Filling in the header and `first`, and the checksum over it all. */
  method FirstSum(outpack: array<byte>, cc: nat, first: seq<byte>, id: seq<byte>, seqno: nat) returns (ck: nat)
    requires 8 + |first| <= cc <= outpack.Length && cc <= MAX_PACKET
    requires |id| == 2 && seqno <= 65535
    modifies outpack
    ensures var body := Body(first, old(outpack[8..cc]));
      && ck == Cksum(Echo(Zeros(2), id, seqno, body), 0) && ck <= 65535
      && outpack[..cc] == Echo(Stored(ck), id, seqno, body)
    ensures outpack[cc..] == old(outpack[cc..])
  {
    ghost var body := Body(first, outpack[8..cc]);
    OverwriteAll(outpack[..cc], id, seqno, first);
    assert outpack[..cc][8..] == outpack[8..cc];
    PutBytes(outpack, cc, 0, Echo(Zeros(2), id, seqno, first));
    NoOverflow(outpack[..cc], 0);
    ck := InCksum(outpack[..cc], 0);
    OverwriteCk(Zeros(2), Stored(ck), id, seqno, body);
    PutBytes(outpack, cc, 2, Stored(ck));
  }

  /** Putting the stamp in and folding it into the checksum. */
  method StampLate(outpack: array<byte>, cc: nat, ck: nat, stamp: seq<byte>)
    requires 8 + |stamp| <= cc <= outpack.Length && (|stamp| == 8 || |stamp| == 16) && ck <= 65535
    modifies outpack
    ensures var ck2 := Cksum(stamp, 65535 - ck);
      ck2 <= 65535 && outpack[..cc] == Overwrite(Overwrite(old(outpack[..cc]), 8, stamp), 2, Stored(ck2))
    ensures outpack[cc..] == old(outpack[cc..])
  {
    NoOverflow(stamp, 65535 - ck);
    PutBytes(outpack, cc, 8, stamp);
    var ck2 := InCksum(stamp, 65535 - ck);
    PutBytes(outpack, cc, 2, Stored(ck2));
  }

  lemma LateSummed(ck: nat, id: seq<byte>, seqno: nat, stamp: seq<byte>, filler: seq<byte>)
    requires |id| == 2 && seqno <= 65535 && |stamp| <= |filler| && |stamp| % 2 == 0 && ck <= 65535
    requires ck == Cksum(Echo(Zeros(2), id, seqno, Body(Zeros(|stamp|), filler)), 0)
    ensures var was := Echo(Stored(ck), id, seqno, Body(Zeros(|stamp|), filler)); var ck2 := Cksum(stamp, 65535 - ck);
      ck2 <= 65535 && Overwrite(Overwrite(was, 8, stamp), 2, Stored(ck2)) == Summed(id, seqno, Body(stamp, filler))
  {
    LateStamp(id, seqno, stamp, filler);
    OverwriteStamp(Stored(ck), id, seqno, stamp, filler);
    OverwriteCk(Stored(ck), Stored(Cksum(stamp, 65535 - ck)), id, seqno, Body(stamp, filler));
  }

  /** send_probe up to the sendmsg: the packet that goes out is the same, and
      verifies, whether the time stamp is in it before the checksum is made
      (F_LATENCY) or folded in afterwards. */
  method SendProbe(outpack: array<byte>, datalen: nat, stamp: seq<byte>, id: seq<byte>, seqno: nat, latency: bool)
    requires datalen + 8 <= outpack.Length && datalen + 8 <= MAX_PACKET
    requires |stamp| == 8 || |stamp| == 16
    requires |id| == 2 && seqno <= 65535
    modifies outpack
    ensures outpack[..datalen + 8] == Summed(id, seqno, Body(stamp, old(outpack[8..datalen + 8])))
    ensures outpack[datalen + 8..] == old(outpack[datalen + 8..])
  {
    var cc := datalen + 8;
    var timing := datalen >= |stamp|;
    ghost var filler := outpack[8..cc];
    if timing {
      var ck := FirstSum(outpack, cc, if latency then stamp else Zeros(|stamp|), id, seqno);
      if !latency {
        LateSummed(ck, id, seqno, stamp, filler);
        StampLate(outpack, cc, ck, stamp);
      }
    } else {
      assert Body([], filler) == filler;
      var ck := FirstSum(outpack, cc, [], id, seqno);
    }
  }

  /** The stamp folded in late gives the checksum of the whole. */
  lemma LateStamp(id: seq<byte>, seqno: nat, stamp: seq<byte>, filler: seq<byte>)
    requires |id| == 2 && seqno <= 65535 && |stamp| % 2 == 0 && |filler| >= |stamp|
    ensures var c0 := Cksum(Echo(Zeros(2), id, seqno, Body(Zeros(|stamp|), filler)), 0);
      c0 <= 65535 && Cksum(stamp, 65535 - c0) == Cksum(Echo(Zeros(2), id, seqno, Body(stamp, filler)), 0)
  {
    var head := Echo(Zeros(2), id, seqno, []);
    var tail := filler[|stamp|..];
    assert Echo(Zeros(2), id, seqno, Body(Zeros(|stamp|), filler)) == head + Zeros(|stamp|) + tail;
    assert Echo(Zeros(2), id, seqno, Body(stamp, filler)) == head + stamp + tail;
    ChecksumIncremental(head, stamp, tail);
  }

  // ------------------------------------------------------------------- byte order

  /** The same sum with the high byte first. */
  function NetSumFrom(b: seq<byte>, i: nat): nat
    decreases |b| - i
  {
    if i >= |b| then 0
    else if i + 1 == |b| then 256 * (b[i] as nat)
    else 256 * (b[i] as nat) + (b[i + 1] as nat) + NetSumFrom(b, i + 2)
  }

  function Swap(r: nat): nat {
    (r % 256) * 256 + r / 256
  }

  lemma {:induction false} SumsCongruent(b: seq<byte>, i: nat) returns (k: nat)
    ensures 256 * NetSumFrom(b, i) == SumFrom(b, i) + 65535 * k
    ensures NetSumFrom(b, i) == 0 <==> SumFrom(b, i) == 0
    decreases |b| - i
  {
    if i >= |b| {
      k := 0;
    } else if i + 1 == |b| {
      k := b[i] as nat;
    } else {
      var j := SumsCongruent(b, i + 2);
      k := j + b[i] as nat;
    }
  }

  /** The checksum does not depend on the byte order of the machine: the bytes
      stored are those of the big-endian sum (section 2 of RFC 1071). */
  lemma ByteOrderIndependent(b: seq<byte>)
    ensures Fold(Sum(b)) == Swap(Fold(NetSumFrom(b, 0)))
  {
    var n := NetSumFrom(b, 0);
    var k := SumsCongruent(b, 0);
    var j := FoldParts(n);
    var r := Fold(n);
    assert 256 * r == Swap(r) + 65535 * (r / 256);
    assert Sum(b) == Swap(r) + 65535 * (r / 256 + 256 * j - k);
    FoldIs(Sum(b), Swap(r), r / 256 + 256 * j - k);
  }
}
