/** ping's bookkeeping of replies: a bitmap of 65536 bits, indexed by the 16-bit
    sequence number, that tells first replies from duplicates. */
module ReplyTable {
  import opened Addresses

  const MAX_DUP_CHK := 0x1_0000

  // ------------------------------------------------------------------------ bits

  /** Bit m of a byte, low bit first: x & 1 << m. */
  predicate BitOf(x: nat, m: nat) {
    if m == 0 then x % 2 == 1 else BitOf(x / 2, m - 1)
  }

  /** x | 1 << m */
  function WithBit(x: nat, m: nat): nat {
    if m == 0 then x / 2 * 2 + 1 else WithBit(x / 2, m - 1) * 2 + x % 2
  }

  /** x & ~(1 << m) */
  function WithoutBit(x: nat, m: nat): nat {
    if m == 0 then x / 2 * 2 else WithoutBit(x / 2, m - 1) * 2 + x % 2
  }

  lemma {:induction false} BitOfChanged(x: nat, i: nat, j: nat)
    ensures BitOf(WithBit(x, i), j) <==> i == j || BitOf(x, j)
    ensures BitOf(WithoutBit(x, i), j) <==> i != j && BitOf(x, j)
  {
    if i > 0 {
      assert WithBit(x, i) / 2 == WithBit(x / 2, i - 1) && WithBit(x, i) % 2 == x % 2;
      assert WithoutBit(x, i) / 2 == WithoutBit(x / 2, i - 1) && WithoutBit(x, i) % 2 == x % 2;
      if j > 0 {
        BitOfChanged(x / 2, i - 1, j - 1);
      }
    } else {
      assert WithBit(x, 0) / 2 == x / 2 && WithoutBit(x, 0) / 2 == x / 2;
    }
  }

  function Two(n: nat): nat {
    if n == 0 then 1 else 2 * Two(n - 1)
  }

  lemma {:induction false} Width(x: nat, m: nat, n: nat)
    requires m < n && x < Two(n)
    ensures WithBit(x, m) < Two(n) && WithoutBit(x, m) < Two(n)
  {
    if m > 0 {
      Width(x / 2, m - 1, n - 1);
    }
  }

  lemma ByteWidth(x: byte, m: nat)
    requires m < 8
    ensures WithBit(x, m) < 256 && WithoutBit(x, m) < 256
  {
    assert Two(4) == 16;
    assert Two(8) == 256;
    Width(x, m, 8);
  }

  predicate Bit(t: seq<byte>, k: nat)
    requires |t| == MAX_DUP_CHK / 8 && k < MAX_DUP_CHK
  {
    BitOf(t[k / 8], k % 8)
  }

  lemma SameBit(i: nat, k: nat)
    ensures i / 8 == k / 8 && i % 8 == k % 8 <==> i == k
  {
  }

  lemma ChangeIs(t: seq<byte>, i: nat, k: nat)
    requires |t| == MAX_DUP_CHK / 8 && i < MAX_DUP_CHK && k < MAX_DUP_CHK
    ensures WithBit(t[i / 8], i % 8) < 256 && WithoutBit(t[i / 8], i % 8) < 256
    ensures Bit(t[i / 8 := WithBit(t[i / 8], i % 8)], k) <==> k == i || Bit(t, k)
    ensures Bit(t[i / 8 := WithoutBit(t[i / 8], i % 8)], k) <==> k != i && Bit(t, k)
  {
    ByteWidth(t[i / 8], i % 8);
    BitOfChanged(t[i / 8], i % 8, k % 8);
    SameBit(i, k);
  }

  // ------------------------------------------------------------------- reference

  /** The counters with the set of probes answered, told by unbounded numbers. */
  datatype Tally = Tally(ntransmitted: nat, nreceived: int, nrepeats: nat, nchecksum: nat, answered: set<int>)

  // a probe is put together, and sent or not; a reply to a probe arrives, with
  // or without a good checksum
  datatype Event = Attempt(sent: bool) | Reply(probe: int, csfailed: bool)

  function Next(t: Tally, e: Event): Tally {
    match e
    case Attempt(sent) => if sent then t.(ntransmitted := t.ntransmitted + 1) else t
    case Reply(probe, csfailed) =>
      if csfailed then t.(nchecksum := t.nchecksum + 1)
      else if probe in t.answered then t.(nrepeats := t.nrepeats + 1)
      else t.(nreceived := t.nreceived + 1, answered := t.answered + {probe})
  }

  /** The probes the table can tell apart: the last 65535. */
  predicate Recent(t: Tally, probe: int) {
    1 <= probe && t.ntransmitted - 0xffff < probe <= t.ntransmitted
  }

  function Run(t: Tally, es: seq<Event>): Tally
    decreases |es|
  {
    if es == [] then t else Next(Run(t, es[..|es| - 1]), es[|es| - 1])
  }

  function Replies(es: seq<Event>): nat {
    if es == [] then 0 else Replies(es[..|es| - 1]) + if es[|es| - 1].Reply? then 1 else 0
  }

  predicate AllRecent(t: Tally, es: seq<Event>) {
    forall i | 0 <= i < |es| && es[i].Reply? :: Recent(Run(t, es[..i]), es[i].probe)
  }

  const NONE := Tally(0, 0, 0, 0, {})

  /** Each probe is counted at most once. */
  predicate Counts(t: Tally) {
    t.nreceived == |t.answered| && forall p | p in t.answered :: 1 <= p <= t.ntransmitted
  }

  lemma {:induction false} AnsweredBound(s: set<int>, n: nat)
    requires forall p | p in s :: 1 <= p <= n
    ensures |s| <= n
    decreases n
  {
    if n == 0 {
      assert forall p :: p !in s;
    } else {
      AnsweredBound(s - {n}, n - 1);
      assert |s| <= |s - {n}| + 1;
    }
  }

  lemma CountsStep(t: Tally, e: Event)
    requires Counts(t) && (e.Reply? ==> 1 <= e.probe <= t.ntransmitted)
    ensures Counts(Next(t, e))
  {
  }

  /** Over every run in which replies answer recent probes, every reply is counted
      exactly once, and no more replies are received than probes were sent. */
  lemma {:induction false} RunCounts(es: seq<Event>)
    requires AllRecent(NONE, es)
    ensures var t := Run(NONE, es);
      && Counts(t) && t.nreceived <= t.ntransmitted
      && Replies(es) == t.nreceived + t.nrepeats + t.nchecksum
    decreases |es|
  {
    if es != [] {
      var k := |es| - 1;
      forall i | 0 <= i < k && es[..k][i].Reply?
        ensures Recent(Run(NONE, es[..k][..i]), es[..k][i].probe)
      {
        assert es[..k][..i] == es[..i];
      }
      RunCounts(es[..k]);
      CountsStep(Run(NONE, es[..k]), es[k]);
    }
    var t := Run(NONE, es);
    AnsweredBound(t.answered, t.ntransmitted);
  }

  // ----------------------------------------------------------------- the counters

  class Statistics {
    const rcvdTbl: array<byte>
    var ntransmitted: nat
    var nreceived: int
    var nrepeats: nat
    var nchecksum: nat
    // the probes answered
    ghost var answered: set<int>

    ghost function Abs(): Tally
      reads this
    {
      Tally(ntransmitted, nreceived, nrepeats, nchecksum, answered)
    }

    /** For each recent probe, its bit says whether it is answered. */
    ghost predicate Valid()
      reads this, rcvdTbl
    {
      && rcvdTbl.Length == MAX_DUP_CHK / 8
      && forall p | Recent(Abs(), p) :: Bit(rcvdTbl[..], p % MAX_DUP_CHK) <==> p in answered
    }

    constructor ()
      ensures Valid() && Abs() == NONE && fresh(rcvdTbl)
    {
      rcvdTbl := new byte[MAX_DUP_CHK / 8](_ => 0);
      ntransmitted, nreceived, nrepeats, nchecksum := 0, 0, 0, 0;
      answered := {};
    }

    method Set(bit: nat)
      requires rcvdTbl.Length == MAX_DUP_CHK / 8 && bit < MAX_DUP_CHK
      modifies rcvdTbl
      ensures forall k: nat | k < MAX_DUP_CHK :: Bit(rcvdTbl[..], k) <==> k == bit || old(Bit(rcvdTbl[..], k))
    {
      ghost var t := rcvdTbl[..];
      ByteWidth(rcvdTbl[bit / 8], bit % 8);
      rcvdTbl[bit / 8] := WithBit(rcvdTbl[bit / 8], bit % 8);
      assert rcvdTbl[..] == t[bit / 8 := WithBit(t[bit / 8], bit % 8)];
      forall k: nat | k < MAX_DUP_CHK
        ensures Bit(rcvdTbl[..], k) <==> k == bit || Bit(t, k)
      {
        ChangeIs(t, bit, k);
      }
    }

    method Clear(bit: nat)
      requires rcvdTbl.Length == MAX_DUP_CHK / 8 && bit < MAX_DUP_CHK
      modifies rcvdTbl
      ensures forall k: nat | k < MAX_DUP_CHK :: Bit(rcvdTbl[..], k) <==> k != bit && old(Bit(rcvdTbl[..], k))
    {
      ghost var t := rcvdTbl[..];
      ByteWidth(rcvdTbl[bit / 8], bit % 8);
      rcvdTbl[bit / 8] := WithoutBit(rcvdTbl[bit / 8], bit % 8);
      assert rcvdTbl[..] == t[bit / 8 := WithoutBit(t[bit / 8], bit % 8)];
      forall k: nat | k < MAX_DUP_CHK
        ensures Bit(rcvdTbl[..], k) <==> k != bit && Bit(t, k)
      {
        ChangeIs(t, bit, k);
      }
    }

    /** A probe is put together, which clears its bit, and counted if it is sent. */
    method Probe(sent: bool)
      requires Valid() && Counts(Abs())
      modifies this`ntransmitted, rcvdTbl
      ensures Valid() && Abs() == Next(old(Abs()), Attempt(sent))
    {
      Clear((ntransmitted + 1) % MAX_DUP_CHK);
      ghost var n := ntransmitted;
      if sent {
        ntransmitted := ntransmitted + 1;
      }
      forall p | Recent(Abs(), p)
        ensures Bit(rcvdTbl[..], p % MAX_DUP_CHK) <==> p in answered
      {
        Apart(p, n + 1);
      }
    }

    /** The counting part of gather_statistics, on the 16-bit number of the reply;
        `probe` is the probe it answers. */
    method Gather(seqno: nat, csfailed: bool, ghost probe: int)
      requires Valid() && Recent(Abs(), probe) && seqno == probe % MAX_DUP_CHK
      modifies this, rcvdTbl
      ensures Valid() && Abs() == Next(old(Abs()), Reply(probe, csfailed))
    {
      nreceived := nreceived + 1;
      if csfailed {
        nchecksum := nchecksum + 1;
        nreceived := nreceived - 1;
      } else if BitOf(rcvdTbl[seqno / 8], seqno % 8) {
        assert Bit(rcvdTbl[..], seqno);
        nrepeats := nrepeats + 1;
        nreceived := nreceived - 1;
      } else {
        assert !Bit(rcvdTbl[..], seqno);
        First(seqno, probe);
      }
    }

    /** The first reply to a probe. */
    method First(seqno: nat, ghost probe: int)
      requires Valid() && Recent(Abs(), probe) && seqno == probe % MAX_DUP_CHK
      modifies this`answered, rcvdTbl
      ensures Valid() && answered == old(answered) + {probe}
    {
      Set(seqno);
      answered := answered + {probe};
      forall p | Recent(Abs(), p)
        ensures Bit(rcvdTbl[..], p % MAX_DUP_CHK) <==> p in answered
      {
        Apart(p, probe);
      }
    }
  }

  /** Probes less than 65536 apart have different bits. */
  lemma Apart(p: int, q: int)
    requires -MAX_DUP_CHK < p - q < MAX_DUP_CHK
    ensures p % MAX_DUP_CHK == q % MAX_DUP_CHK <==> p == q
  {
  }

  // --------------------------------------------------- the reference, by the events

  function Sends(es: seq<Event>): nat {
    if es == [] then 0
    else var e := es[|es| - 1]; Sends(es[..|es| - 1]) + if e.Attempt? && e.sent then 1 else 0
  }

  predicate Good(e: Event) {
    e.Reply? && !e.csfailed
  }

  function GoodReplies(es: seq<Event>): nat {
    if es == [] then 0 else GoodReplies(es[..|es| - 1]) + if Good(es[|es| - 1]) then 1 else 0
  }

  /** The probes some undamaged reply answers. */
  function Answered(es: seq<Event>): set<int> {
    set i | 0 <= i < |es| && Good(es[i]) :: es[i].probe
  }

  lemma AnsweredMore(es: seq<Event>)
    requires es != []
    ensures var e := es[|es| - 1]; Answered(es) == Answered(es[..|es| - 1]) + if Good(e) then {e.probe} else {}
  {
    var n := |es| - 1;
    forall p | p in Answered(es)
      ensures p in Answered(es[..n]) || (Good(es[n]) && p == es[n].probe)
    {
      var i :| 0 <= i < |es| && Good(es[i]) && es[i].probe == p;
      assert i < n ==> es[..n][i] == es[i];
    }
    forall p | p in Answered(es[..n])
      ensures p in Answered(es)
    {
      var i :| 0 <= i < n && Good(es[..n][i]) && es[..n][i].probe == p;
      assert es[i] == es[..n][i];
    }
  }

  /** After any run: the attempts that sent something, the probes answered, the good
      replies beyond the first to each, and the damaged ones. */
  lemma {:induction false} RunTallies(es: seq<Event>)
    ensures var t := Run(NONE, es);
      && t.ntransmitted == Sends(es) && t.answered == Answered(es) && t.nreceived == |Answered(es)|
      && t.nreceived + t.nrepeats == GoodReplies(es) && t.nchecksum == Replies(es) - GoodReplies(es)
    decreases |es|
  {
    if es != [] {
      RunTallies(es[..|es| - 1]);
      AnsweredMore(es);
    }
  }
}
