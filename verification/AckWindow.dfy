/** ping's window of unacknowledged probes: a 16-bit `acked` that stands for the
    highest probe acknowledged. */
module AckWindow {
  type u16 = w: int | 0 <= w < 0x1_0000

  function Low(n: int): u16 {
    n % 0x1_0000
  }

  /** The value as a signed 16-bit word. */
  function Signed(n: int): int {
    if Low(n) < 0x8000 then Low(n) else Low(n) - 0x1_0000
  }

  // ntransmitted, acked and pipesize
  datatype Window = Window(n: nat, acked: u16, pipesize: int)

  /** in_flight; `counted` is ntransmitted - nreceived - nerrors. */
  function InFlight(w: Window, counted: int): int {
    var diff := Low(Low(w.n) - w.acked);
    if diff <= 0x7fff then diff else counted
  }

  /** acknowledge. The second test is on an int: the words are not subtracted as
      words. */
  function Acknowledged(w: Window, seqno: u16): Window {
    var diff := Low(Low(w.n) - seqno);
    if diff > 0x7fff then w
    else w.(pipesize := if diff + 1 > w.pipesize then diff + 1 else w.pipesize,
            acked := if Signed(seqno - w.acked) > 0 || Low(w.n) - w.acked > 0x7fff then seqno else w.acked)
  }

  /** advance_ntransmitted; its test too is on an int. */
  function Advanced(w: Window): Window {
    var n := w.n + 1;
    w.(n := n, acked := if Low(n) - w.acked > 0x7fff then Low(Low(n) + 1) else w.acked)
  }

  class Ping {
    var ntransmitted: nat
    var acked: u16
    var pipesize: int

    ghost function Abs(): Window
      reads this
    {
      Window(ntransmitted, acked, pipesize)
    }

    constructor (pipesize: int)
      ensures Abs() == Window(0, 0, pipesize) && InStep(Abs(), 0)
    {
      ntransmitted, acked := 0, 0;
      this.pipesize := pipesize;
    }

    method Acknowledge(seqno: u16)
      modifies this
      ensures Abs() == Acknowledged(old(Abs()), seqno)
    {
      var diff := Low(Low(ntransmitted) - seqno);
      if diff <= 0x7fff {
        if diff + 1 > pipesize {
          pipesize := diff + 1;
        }
        if Signed(seqno - acked) > 0 || Low(ntransmitted) - acked > 0x7fff {
          acked := seqno;
        }
      }
    }

    method AdvanceNtransmitted()
      modifies this
      ensures Abs() == Advanced(old(Abs()))
    {
      ntransmitted := ntransmitted + 1;
      if Low(ntransmitted) - acked > 0x7fff {
        acked := Low(Low(ntransmitted) + 1);
      }
    }
  }

  // ------------------------------------------------------------------ refinement

  /** `top` is the highest probe acknowledged, at most 32767 behind the last. */
  predicate InStep(w: Window, top: int) {
    w.acked == Low(top) && 0 <= w.n - top <= 0x7fff
  }

  function Max(a: int, b: int): int {
    if a < b then b else a
  }

  // a probe is sent, or the reply to a probe arrives
  datatype Event = Send | Reply(probe: int)

  function Next(w: Window, e: Event): Window {
    match e
    case Send => Advanced(w)
    case Reply(probe) => Acknowledged(w, Low(probe))
  }

  /** The reference: unbounded numbers. */
  function NextTop(top: int, e: Event): int {
    if e.Reply? then Max(top, e.probe) else top
  }

  function Run(w: Window, es: seq<Event>): Window
    decreases |es|
  {
    if es == [] then w else Next(Run(w, es[..|es| - 1]), es[|es| - 1])
  }

  function RunTop(top: int, es: seq<Event>): int
    decreases |es|
  {
    if es == [] then top else NextTop(RunTop(top, es[..|es| - 1]), es[|es| - 1])
  }

  /** What the event asks for: room in the window, or a reply to one of the last
      32768 probes. */
  predicate Timely(w: Window, top: int, e: Event) {
    match e
    case Send => w.n - top < 0x7fff
    case Reply(probe) => w.n - 0x8000 < probe <= w.n
  }

  predicate AllTimely(w: Window, top: int, es: seq<Event>) {
    forall i | 0 <= i < |es| :: Timely(Run(w, es[..i]), RunTop(top, es[..i]), es[i])
  }

  /** Words subtract like the numbers they stand for. */
  lemma LowDifference(a: int, b: int)
    ensures Low(Low(a) - Low(b)) == Low(a - b)
  {
    var i, j := a / 0x1_0000, b / 0x1_0000;
    LowIs(a - b, Low(a) - Low(b), i - j);
  }

  lemma LowIs(a: int, b: int, k: int)
    requires a == b + 0x1_0000 * k
    ensures Low(a) == Low(b)
  {
  }

  lemma LowSmall(d: int)
    requires -0x8000 <= d < 0x1_0000
    ensures Low(d) == (if d >= 0 then d else d + 0x1_0000)
    ensures d < 0x8000 ==> Signed(d) == d
  {
  }

  lemma SignedDifference(a: int, b: int)
    requires -0x8000 <= a - b < 0x8000
    ensures Signed(Low(a) - Low(b)) == a - b
  {
    LowDifference(a, b);
    LowSmall(a - b);
  }

  /** As ints, words are the numbers' difference or 65536 less, or more. */
  lemma IntDifference(a: int, b: int)
    ensures var d := Low(a) - Low(b); 0 <= a - b < 0x1_0000 ==> d == a - b || d == a - b - 0x1_0000
  {
    LowDifference(a, b);
    if 0 <= a - b < 0x1_0000 {
      assert Low(a - b) == a - b;
    }
  }

  lemma ReplyInStep(w: Window, top: int, probe: int)
    requires InStep(w, top) && Timely(w, top, Reply(probe))
    ensures var w' := Acknowledged(w, Low(probe));
      InStep(w', Max(top, probe)) && w'.pipesize == Max(w.pipesize, w.n - probe + 1) && w'.n == w.n
  {
    LowDifference(w.n, probe);
    LowSmall(w.n - probe);
    SignedDifference(probe, top);
    IntDifference(w.n, top);
  }

  lemma SendInStep(w: Window, top: int)
    requires InStep(w, top) && Timely(w, top, Send)
    ensures InStep(Advanced(w), top) && Advanced(w).n == w.n + 1
  {
    IntDifference(w.n + 1, top);
  }

  lemma StepInStep(w: Window, top: int, e: Event)
    requires InStep(w, top) && Timely(w, top, e)
    ensures InStep(Next(w, e), NextTop(top, e))
    ensures e.Reply? ==> Next(w, e).pipesize == Max(w.pipesize, w.n - e.probe + 1)
    ensures Next(w, e).n == w.n + if e.Send? then 1 else 0
  {
    match e
    case Send => SendInStep(w, top);
    case Reply(probe) => ReplyInStep(w, top, probe);
  }

  lemma InFlightExact(w: Window, top: int, counted: int)
    requires InStep(w, top)
    ensures InFlight(w, counted) == w.n - top
  {
    LowDifference(w.n, top);
    LowSmall(w.n - top);
  }

  /** Over every timely run the 16-bit word follows the highest probe
      acknowledged, and in_flight is exactly the number of probes after it. */
  lemma {:induction false} RunInStep(w: Window, top: int, es: seq<Event>, counted: int)
    requires InStep(w, top) && AllTimely(w, top, es)
    ensures InStep(Run(w, es), RunTop(top, es))
    ensures InFlight(Run(w, es), counted) == Run(w, es).n - RunTop(top, es)
    decreases |es|
  {
    if es != [] {
      var k := |es| - 1;
      forall i | 0 <= i < k
        ensures Timely(Run(w, es[..k][..i]), RunTop(top, es[..k][..i]), es[..k][i])
      {
        assert es[..k][..i] == es[..i];
      }
      RunInStep(w, top, es[..k], counted);
      StepInStep(Run(w, es[..k]), RunTop(top, es[..k]), es[k]);
    }
    InFlightExact(Run(w, es), RunTop(top, es), counted);
  }

  // ---------------------------------------------------------------- out of window

  /** With 32768 probes unacknowledged in_flight resorts to the counters, but
      `acked` is given up, as the code means to, exactly when its own value is
      below 32768. */
  lemma WindowExceeded(w: Window, top: int, counted: int)
    requires InStep(w, top) && w.n - top == 0x7fff
    ensures InFlight(Advanced(w), counted) == counted
    ensures Advanced(w).acked == Low(w.n + 2) <==> Low(top) <= 0x7fff
    ensures Advanced(w).acked == Low(top) <==> Low(top) > 0x7fff
  {
  }

  /** Once given up, a reply to any of the last 32768 probes is taken exactly if the
      count of probes is 65535 modulo 65536, and after the next probe in_flight is
      0 whatever is outstanding. */
  lemma GivenUp(w: Window, probe: int, counted: int)
    requires w.acked == Low(w.n + 1) && w.n - 0x8000 < probe <= w.n
    ensures Acknowledged(w, Low(probe)).acked == Low(probe) <==> Low(w.n) == 0xffff
    ensures InFlight(Advanced(w), counted) == 0
  {
    LowDifference(w.n, probe);
    LowSmall(w.n - probe);
    SignedDifference(probe, w.n + 1);
    LowDifference(w.n + 1, w.n + 1);
    LowIs(Low(w.n) + 1, w.n + 1, -(w.n / 0x1_0000));
    assert Low(w.n + 1) == if Low(w.n) == 0xffff then 0 else Low(w.n) + 1;
  }

  lemma OutOfWindow(w: Window, top: int)
    requires w.acked == Low(top) && Low(top) > 0x7fff && 0x8000 <= w.n - top <= 0x1_0000
    ensures Low(w.n) - w.acked <= 0x7fff
    ensures Low(Low(w.n) - w.acked) == if w.n - top == 0x1_0000 then 0 else w.n - top
  {
    LowDifference(w.n, top);
  }

  /** Not given up, it goes round: after 65536 probes without a reply in_flight
      is 0 again. */
  lemma {:induction false} GoesRound(w: Window, top: int, k: nat, counted: int)
    requires w.acked == Low(top) && Low(top) > 0x7fff && w.n == top + 0x8000 && k <= 0x8000
    ensures var w' := Run(w, seq(k, _ => Send));
      && w'.n == w.n + k && w'.acked == w.acked
      && InFlight(w', counted) == if k < 0x8000 then counted else 0
    decreases k
  {
    if k == 0 {
      OutOfWindow(w, top);
    } else {
      GoesRound(w, top, k - 1, counted);
      assert seq(k, _ => Send)[..k - 1] == seq(k - 1, _ => Send);
      OutOfWindow(Run(w, seq(k, _ => Send)).(acked := w.acked), top);
    }
  }

  /** A reply to a probe that is 32768 or more behind the last is taken for one to
      come, and changes nothing. */
  lemma OldIgnored(w: Window, probe: int)
    requires w.n - 0x1_0000 < probe <= w.n - 0x8000
    ensures Acknowledged(w, Low(probe)) == w
  {
    LowDifference(w.n, probe);
    LowIs(w.n - probe, w.n - probe, 0);
  }

  /** When a reply to one of the last 32768 probes moves `acked` to it: if it is up to
      32767 ahead of it as words go, or the count, as a word, is 32768 or more above
      `acked`. */
  lemma TakesReply(w: Window, probe: int)
    requires w.n - 0x8000 < probe <= w.n
    ensures Acknowledged(w, Low(probe)).acked
         == if 1 <= (probe - w.acked) % 0x1_0000 <= 0x7fff || w.n % 0x1_0000 >= w.acked + 0x8000
            then probe % 0x1_0000 else w.acked
  {
    LowDifference(w.n, probe);
    LowSmall(w.n - probe);
    LowDifference(probe, w.acked);
  }
}
