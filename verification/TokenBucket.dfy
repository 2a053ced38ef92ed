/** ping's pacing: the token bucket of pinger, on a clock of milliseconds. */
module TokenBucket {
  const MININTERVAL := 10

  // npackets is 0 for no limit
  datatype Config = Config(interval: nat, preload: int, lingertime: int, npackets: nat, deadline: bool)
  {
    // what the source's option checks guarantee
    predicate Ok() {
      preload >= 1
    }
  }

  // cur_time (nothing before the first call), tokens, oom_count, ntransmitted,
  // and the probes that really left
  datatype Bucket = Bucket(started: bool, curTime: int, tokens: int, oomCount: nat, ntransmitted: nat, sends: nat)

  const FRESH := Bucket(false, 0, 0, 0, 0, 0)

  // how the sending of a probe comes out; resends without an error are one attempt
  datatype Outcome = Sent | NoBufs | Again | IcmpError | Hard

  datatype Branch = Over | TooEarly | Left | Backoff | Refund | Failed

  // what a call returns: the time to wait, and which way it went
  datatype Result = Result(b: Bucket, next: int, branch: Branch)

  function Schint(a: int): int {
    if a <= MININTERVAL then MININTERVAL else a
  }

  function Cap(c: Config): int {
    c.interval * c.preload
  }

  function NoresInterval(c: Config): int {
    if Schint(c.interval / 2) > 500 then 500 else Schint(c.interval / 2)
  }

  /** The tokens at a time, before the test. */
  function Gathered(c: Config, b: Bucket, now: int): int {
    var n := now - b.curTime + b.tokens;
    if n > Cap(c) then Cap(c) else n
  }

  /** A flood that has too many probes out. */
  predicate Choked(c: Config, b: Bucket, now: int, inFlight: int) {
    c.interval == 0 && b.started && now - b.curTime < MININTERVAL && inFlight >= c.preload
  }

  /** Nothing more is to be sent. */
  predicate Done(c: Config, b: Bucket, exiting: bool) {
    exiting || (c.npackets != 0 && b.ntransmitted >= c.npackets && !c.deadline)
  }

  /** Whether a call gets to send. */
  predicate Attempts(c: Config, b: Bucket, now: int, inFlight: int, exiting: bool) {
    !Done(c, b, exiting) && (!b.started || (!Choked(c, b, now, inFlight) && Gathered(c, b, now) >= c.interval))
  }

  function Paid(c: Config, b: Bucket, now: int): Bucket {
    b.(started := true, curTime := now,
       tokens := if b.started then Gathered(c, b, now) - c.interval else c.interval * (c.preload - 1))
  }

  function Failure(c: Config, b: Bucket): Result {
    Result(b.(ntransmitted := b.ntransmitted + 1, tokens := 0), Schint(c.interval), Failed)
  }

  /** pinger */
  function Call(c: Config, b: Bucket, now: int, inFlight: int, exiting: bool, o: Outcome): Result {
    if Done(c, b, exiting) then Result(b, 1000, Over)
    else if Choked(c, b, now, inFlight) then Result(b, MININTERVAL - (now - b.curTime), TooEarly)
    else if !Attempts(c, b, now, inFlight, exiting) then Result(b, c.interval - Gathered(c, b, now), TooEarly)
    else
      var p := Paid(c, b, now);
      match o
      case Sent => Result(p.(oomCount := 0, ntransmitted := p.ntransmitted + 1, sends := p.sends + 1),
          c.interval - p.tokens, Left)
      case NoBufs =>
        var q := p.(tokens := 0, oomCount := p.oomCount + 1);
        if q.oomCount * NoresInterval(c) < c.lingertime then Result(q, NoresInterval(c), Backoff) else Failure(c, q)
      case Again => Result(p.(tokens := p.tokens + c.interval), MININTERVAL, Refund)
      case IcmpError => Result(p.(tokens := p.tokens + c.interval), MININTERVAL, Refund)
      case Hard => Failure(c, p)
  }

  class Ping {
    const c: Config
    var started: bool
    var curTime: int
    var tokens: int
    var oomCount: nat
    var ntransmitted: nat
    ghost var sends: nat

    ghost function Abs(): Bucket
      reads this
    {
      Bucket(started, curTime, tokens, oomCount, ntransmitted, sends)
    }

    constructor (c: Config)
      ensures this.c == c && Abs() == FRESH
    {
      this.c := c;
      started, curTime, tokens, oomCount, ntransmitted, sends := false, 0, 0, 0, 0, 0;
    }

    /** The test for tokens, which takes an interval's worth if it lets the call send. */
    method Take(now: int, inFlight: int) returns (go: bool, next: int)
      requires !Done(c, Abs(), false)
      modifies this`started, this`curTime, this`tokens
      ensures go <==> Attempts(c, old(Abs()), now, inFlight, false)
      ensures if go then Abs() == Paid(c, old(Abs()), now)
        else Abs() == old(Abs()) && next == Call(c, old(Abs()), now, inFlight, false, Sent).next
    {
      if !started {
        started, curTime := true, now;
        tokens := c.interval * (c.preload - 1);
      } else {
        var ntokens := now - curTime;
        if c.interval == 0 {
          if ntokens < MININTERVAL && inFlight >= c.preload {
            return false, MININTERVAL - ntokens;
          }
        }
        ntokens := ntokens + tokens;
        if ntokens > c.interval * c.preload {
          ntokens := c.interval * c.preload;
        }
        if ntokens < c.interval {
          return false, c.interval - ntokens;
        }
        curTime := now;
        tokens := ntokens - c.interval;
      }
      return true, 0;
    }

    method Pinger(now: int, inFlight: int, exiting: bool, outcome: Outcome) returns (next: int)
      modifies this
      ensures var r := Call(c, old(Abs()), now, inFlight, exiting, outcome); Abs() == r.b && next == r.next
    {
      if exiting || (c.npackets != 0 && ntransmitted >= c.npackets && !c.deadline) {
        return 1000;
      }
      var go;
      go, next := Take(now, inFlight);
      if !go {
        return;
      }
      match outcome {
        case Sent =>
          oomCount := 0;
          ntransmitted := ntransmitted + 1;
          sends := sends + 1;
          return c.interval - tokens;
        case NoBufs =>
          tokens := 0;
          var nores := Schint(c.interval / 2);
          if nores > 500 {
            nores := 500;
          }
          oomCount := oomCount + 1;
          if oomCount * nores < c.lingertime {
            return nores;
          }
        case Again =>
          tokens := tokens + c.interval;
          return MININTERVAL;
        case IcmpError =>
          tokens := tokens + c.interval;
          return MININTERVAL;
        case Hard =>
      }
      ntransmitted := ntransmitted + 1;
      tokens := 0;
      return Schint(c.interval);
    }
  }

  // ----------------------------------------------------------------- conservation

  predicate Ok(c: Config, b: Bucket) {
    b.started ==> 0 <= b.tokens <= Cap(c)
  }

  /** What the bucket holds at a time: at most the cap, and the cap at first. */
  function Level(c: Config, b: Bucket, now: int): int {
    if b.started then Gathered(c, b, now) else Cap(c)
  }

  lemma CapAtLeast(c: Config)
    requires c.Ok()
    ensures c.interval * (c.preload - 1) == Cap(c) - c.interval >= 0
  {
    assert c.interval * (c.preload - 1) >= 0;
  }

  /** The branches that count a probe: it left, or is taken to have. */
  predicate Advances(r: Branch) {
    r.Left? || r.Failed?
  }

  /** A call takes an interval's worth of tokens for a probe that leaves, and none
      for one that is refunded; it never makes any. */
  lemma CallConserves(c: Config, b: Bucket, now: int, inFlight: int, exiting: bool, o: Outcome)
    requires c.Ok() && Ok(c, b) && (b.started ==> b.curTime <= now)
    ensures var r := Call(c, b, now, inFlight, exiting, o);
      && Ok(c, r.b) && (r.b.started ==> r.b.curTime <= now)
      && r.b.sends == b.sends + (if r.branch.Left? then 1 else 0)
      && r.b.ntransmitted - b.ntransmitted == (if Advances(r.branch) then 1 else 0)
      && Level(c, r.b, now) + (r.b.sends - b.sends) * c.interval <= Level(c, b, now)
  {
    CapAtLeast(c);
  }

  // a call of a run
  datatype Event = Event(now: int, inFlight: int, exiting: bool, o: Outcome)

  function Run(c: Config, b: Bucket, es: seq<Event>): Bucket
    decreases |es|
  {
    if es == [] then b
    else var e := es[|es| - 1]; Call(c, Run(c, b, es[..|es| - 1]), e.now, e.inFlight, e.exiting, e.o).b
  }

  /** With a count and no deadline no more probes are ever sent, or taken to be. */
  lemma {:induction false} NeverTooMany(c: Config, es: seq<Event>)
    requires c.npackets != 0 && !c.deadline
    ensures var b := Run(c, FRESH, es); b.sends <= b.ntransmitted <= c.npackets
    decreases |es|
  {
    if es != [] {
      NeverTooMany(c, es[..|es| - 1]);
    }
  }

  predicate Ordered(es: seq<Event>) {
    forall i, j | 0 <= i < j < |es| :: es[i].now <= es[j].now
  }

  lemma {:induction false} RunConserves(c: Config, b: Bucket, es: seq<Event>)
    requires c.Ok() && Ok(c, b) && Ordered(es) && es != []
    requires b.started ==> b.curTime <= es[0].now
    ensures var b' := Run(c, b, es); var t := es[|es| - 1].now;
      && Ok(c, b') && (b'.started ==> b'.curTime <= t) && b'.sends >= b.sends
      && Level(c, b', t) + (b'.sends - b.sends) * c.interval <= Level(c, b, es[0].now) + t - es[0].now
    decreases |es|
  {
    var k := |es| - 1;
    var e := es[k];
    if k == 0 {
      assert es[..0] == [];
      CallConserves(c, b, e.now, e.inFlight, e.exiting, e.o);
    } else {
      RunConserves(c, b, es[..k]);
      var m := Run(c, b, es[..k]);
      CallConserves(c, m, e.now, e.inFlight, e.exiting, e.o);
      var m' := Run(c, b, es);
      assert (m'.sends - b.sends) * c.interval == (m'.sends - m.sends) * c.interval + (m.sends - b.sends) * c.interval;
    }
  }

  /** The probes that leave between two states take no more than the time passed
      and one bucketful. */
  predicate Paced(c: Config, b: Bucket, b': Bucket, elapsed: int) {
    (b'.sends - b.sends) * c.interval <= elapsed + c.preload * c.interval
  }

  lemma StretchBound(c: Config, b: Bucket, during: seq<Event>)
    requires c.Ok() && Ok(c, b) && Ordered(during) && during != [] && (b.started ==> b.curTime <= during[0].now)
    ensures Paced(c, b, Run(c, b, during), during[|during| - 1].now - during[0].now)
  {
    RunConserves(c, b, during);
    CapAtLeast(c);
    assert Level(c, b, during[0].now) <= Cap(c);
    assert Level(c, Run(c, b, during), during[|during| - 1].now) >= 0;
  }

  lemma Reached(c: Config, before: seq<Event>, now: int)
    requires c.Ok() && Ordered(before) && (before != [] ==> before[|before| - 1].now <= now)
    ensures var b := Run(c, FRESH, before); Ok(c, b) && (b.started ==> b.curTime <= now)
  {
    if before != [] {
      RunConserves(c, FRESH, before);
    }
  }

  /** In any stretch of any run, the probes that leave are paid for by the time it
      takes and one bucketful. */
  lemma RateBound(c: Config, before: seq<Event>, during: seq<Event>)
    requires c.Ok() && Ordered(before + during) && during != []
    ensures Paced(c, Run(c, FRESH, before), Run(c, FRESH, before + during), during[|during| - 1].now - during[0].now)
  {
    OrderedParts(before, during);
    Reached(c, before, during[0].now);
    StretchBound(c, Run(c, FRESH, before), during);
    RunConcat(c, FRESH, before, during);
  }

  lemma OrderedParts(x: seq<Event>, y: seq<Event>)
    requires Ordered(x + y) && y != []
    ensures Ordered(x) && Ordered(y) && (x != [] ==> x[|x| - 1].now <= y[0].now)
  {
    var all := x + y;
    assert forall i | 0 <= i < |x| :: x[i] == all[i];
    assert forall i | 0 <= i < |y| :: y[i] == all[|x| + i];
  }

  lemma {:induction false} RunConcat(c: Config, b: Bucket, x: seq<Event>, y: seq<Event>)
    ensures Run(c, b, x + y) == Run(c, Run(c, b, x), y)
    decreases |y|
  {
    if y == [] {
      assert x + y == x;
    } else {
      var k := |y| - 1;
      assert (x + y)[..|x + y| - 1] == x + y[..k];
      RunConcat(c, b, x, y[..k]);
    }
  }

  // ------------------------------------------------------------------ the waiting

  /** With a fixed interval, a later call gets to send exactly from the returned
      time on, if the call was too early or its probe left and was not the last. */
  lemma WaitExactly(c: Config, b: Bucket, now: int, inFlight: int, o: Outcome, later: int, inFlight': int)
    requires c.Ok() && c.interval > 0 && Ok(c, b) && (b.started ==> b.curTime <= now) && now <= later
    requires !Done(c, b, false) && (Attempts(c, b, now, inFlight, false) ==> o.Sent?)
    ensures var r := Call(c, b, now, inFlight, false, o);
      Attempts(c, r.b, later, inFlight', false) <==> !Done(c, r.b, false) && later >= now + r.next
  {
    CapAtLeast(c);
  }

  /** The call finds the device's queue full, and is not yet to give up. */
  predicate BacksOff(c: Config, b: Bucket, now: int, inFlight: int, o: Outcome) {
    Attempts(c, b, now, inFlight, false) && o.NoBufs? && (b.oomCount + 1) * NoresInterval(c) < c.lingertime
  }

  /** Waiting just the time returned lets the next call send, if anything is still to
      be sent, exactly unless the queue was full and the interval is over 10 ms. */
  lemma WaitSuffices(c: Config, b: Bucket, now: int, inFlight: int, o: Outcome, inFlight': int)
    requires c.Ok() && c.interval > 0 && Ok(c, b) && (b.started ==> b.curTime <= now)
    ensures var r := Call(c, b, now, inFlight, false, o); var wait := if r.next < 0 then 0 else r.next;
      Attempts(c, r.b, now + wait, inFlight', false)
      <==> !Done(c, r.b, false) && !(BacksOff(c, b, now, inFlight, o) && c.interval > MININTERVAL)
  {
    CapAtLeast(c);
  }

  // ------------------------------------------------------------ the other outcomes

  /** Without an interval, a call that may send is held back exactly if the last one
      was less than 10 ms ago and as many probes as are preloaded are unanswered; and
      then just until 10 ms are over, however many are unanswered by then. */
  lemma FloodExactly(c: Config, b: Bucket, now: int, inFlight: int, o: Outcome, later: int, inFlight': int)
    requires c.Ok() && c.interval == 0 && Ok(c, b) && b.started && b.curTime <= now && !Done(c, b, false)
    ensures Attempts(c, b, now, inFlight, false) <==> !(now < b.curTime + 10 && inFlight >= c.preload)
    ensures var r := Call(c, b, now, inFlight, false, o);
      Attempts(c, b, now, inFlight, false)
      || (r.b == b && now + r.next == b.curTime + 10
          && (later >= now + r.next ==> Attempts(c, b, later, inFlight', false)))
  {
    assert c.interval * c.preload == 0;
  }

  /** A hard failure empties the bucket: whatever was saved up, the next call to send
      is one whole interval away; at most 10 ms more are asked for. */
  lemma FailureEmpties(c: Config, b: Bucket, now: int, inFlight: int, later: int, inFlight': int)
    requires c.Ok() && c.interval > 0 && Ok(c, b) && (b.started ==> b.curTime <= now) && now <= later
    requires Attempts(c, b, now, inFlight, false)
    ensures var r := Call(c, b, now, inFlight, false, Hard);
      && r.next == (if c.interval <= 10 then 10 else c.interval) && r.b.ntransmitted == b.ntransmitted + 1
      && (Attempts(c, r.b, later, inFlight', false) <==> !Done(c, r.b, false) && later >= now + c.interval)
  {
    CapAtLeast(c);
  }

  /** What is given back can be spent at once; the wait asked for is 10 ms. */
  lemma RefundIsWhole(c: Config, b: Bucket, now: int, inFlight: int, o: Outcome, later: int, inFlight': int)
    requires c.Ok() && c.interval > 0 && Ok(c, b) && (b.started ==> b.curTime <= now) && now <= later
    requires Attempts(c, b, now, inFlight, false) && (o.Again? || o.IcmpError?)
    ensures var r := Call(c, b, now, inFlight, false, o);
      r.next == 10 && r.b.ntransmitted == b.ntransmitted && Attempts(c, r.b, later, inFlight', false)
  {
    CapAtLeast(c);
  }

  /** How many calls found the queue full since a probe last left. */
  function FullSince(c: Config, es: seq<Event>): nat
    decreases |es|
  {
    if es == [] then 0
    else
      var n := |es| - 1;
      var e := es[n];
      if !Attempts(c, Run(c, FRESH, es[..n]), e.now, e.inFlight, e.exiting) then FullSince(c, es[..n])
      else match e.o
        case Sent => 0
        case NoBufs => FullSince(c, es[..n]) + 1
        case _ => FullSince(c, es[..n])
  }

  lemma {:induction false} CountsFull(c: Config, es: seq<Event>)
    ensures Run(c, FRESH, es).oomCount == FullSince(c, es)
    decreases |es|
  {
    if es != [] {
      CountsFull(c, es[..|es| - 1]);
    }
  }

  // half an interval, but no less than 10 and no more than 500 ms
  function HalfWait(c: Config): int {
    var half := c.interval / 2;
    if half < 10 then 10 else if half < 500 then half else 500
  }

  /** After any run, a call that finds the queue full for the nth time since a probe
      left waits half an interval, 10 to 500 ms, and sends nothing, as long as n such
      waits are less than the linger time; then it takes the probe to be lost. */
  lemma RunBacksOff(c: Config, es: seq<Event>, now: int, inFlight: int)
    requires Attempts(c, Run(c, FRESH, es), now, inFlight, false)
    ensures var b := Run(c, FRESH, es); var r := Call(c, b, now, inFlight, false, NoBufs);
      && r.b.sends == b.sends && r.b.tokens == 0
      && (r.branch.Backoff? <==> (FullSince(c, es) + 1) * HalfWait(c) < c.lingertime)
      && (if r.branch.Backoff? then r.next == HalfWait(c) && r.b.ntransmitted == b.ntransmitted
          else r.next == (if c.interval < 10 then 10 else c.interval) && r.b.ntransmitted == b.ntransmitted + 1)
  {
    CountsFull(c, es);
    assert NoresInterval(c) == HalfWait(c);
  }
}
