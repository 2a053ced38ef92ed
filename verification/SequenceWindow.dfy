/** Binding updates between the two programs: the mobile node numbers them on, the
    network may lose, repeat and reorder them, and the home agent ignores one that
    is up to nine numbers behind. */
module SequenceWindow {
  import opened Addresses
  import HA = HomeAgentPlans
  import MN = MobilePlans
  import MR = MobileRuns
  import BU = BindingUpdateMessage
  import RT = MobilityRoundTrip

  // an update of the mobile node's list arrives, a NAT probe does, or the home
  // agent gives the mobile node up
  datatype Event = Arrive(i: nat, link: int, now: int, ids: HA.Ids) | Probe(p: HA.Probe, at: int) | Expire

  // the number in the message, which has 16 bits for it
  function Wire(s: MN.Sent): int {
    s.seqno % 0x1_0000
  }

  function Message(m: HA.Mn, sent: seq<MN.Sent>, i: nat, link: int): HA.Update
    requires i < |sent|
  {
    HA.Update(m.home.v6, sent[i].coa, Wire(sent[i]), link)
  }

  /** It is what the home agent reads from the bytes the mobile node sends. */
  lemma MessageArrives(m: HA.Mn, sent: seq<MN.Sent>, i: nat, link: int, beyond: set<nat>)
    requires i < |sent|
    ensures var u := Message(m, sent, i, link);
      0 <= u.seqno && BU.Receive(RT.Message(BU.Header(sent[i].seqno), [BU.AltCoa(sent[i].coa)]), beyond)
           == Some(BU.Received(u.seqno, u.coa))
  {
    BU.UpdateRoundTrip(sent[i].coa, sent[i].seqno, beyond);
  }

  function Next(m: HA.Mn, sent: seq<MN.Sent>, e: Event): HA.Mn
    requires |m.slots| == HA.NIF + 1
    ensures |Next(m, sent, e).slots| == HA.NIF + 1
  {
    match e
    case Arrive(i, link, now, ids) => if i < |sent| then HA.UpdateMn(m, Message(m, sent, i, link), now, ids) else m
    case Probe(p, at) => HA.ProbeMn(m, p, at)
    case Expire => HA.ExpireMn(m)
  }

  function Run(m: HA.Mn, sent: seq<MN.Sent>, es: seq<Event>): HA.Mn
    requires |m.slots| == HA.NIF + 1
    ensures |Run(m, sent, es).slots| == HA.NIF + 1
    decreases |es|
  {
    if es == [] then m else Next(Run(m, sent, es[..|es| - 1]), sent, es[|es| - 1])
  }

  /** The highest number to arrive since the last expiry; 0 if none did. */
  function Newest(sent: seq<MN.Sent>, es: seq<Event>): int
    decreases |es|
  {
    if es == [] then 0
    else
      var e := es[|es| - 1];
      var before := Newest(sent, es[..|es| - 1]);
      if e.Expire? then 0
      else if e.Arrive? && e.i < |sent| && sent[e.i].seqno > before then sent[e.i].seqno
      else before
  }

  /** The mobile node's list as it leaves it. */
  predicate Numbers(sent: seq<MN.Sent>) {
    forall i | 0 <= i < |sent| :: sent[i].seqno == i + 1
  }

  lemma NumberedNumbers(m: MN.Mobile)
    requires MR.Numbered(m)
    ensures Numbers(m.sent)
  {
  }

  predicate Arrives(sent: seq<MN.Sent>, e: Event) {
    e.Arrive? && e.i < |sent|
  }

  /** An update that is overtaken: a later one arrived before it. */
  predicate Overtaken(sent: seq<MN.Sent>, es: seq<Event>, e: Event) {
    Arrives(sent, e) && sent[e.i].seqno < Newest(sent, es)
  }

  /** ... from before a multiple of 65536 to after it. */
  predicate Straddles(sent: seq<MN.Sent>, es: seq<Event>, e: Event) {
    Overtaken(sent, es, e) && sent[e.i].seqno / 0x1_0000 < Newest(sent, es) / 0x1_0000
  }

  predicate TooLate(sent: seq<MN.Sent>, es: seq<Event>, e: Event) {
    Arrives(sent, e) && sent[e.i].seqno <= Newest(sent, es) - HA.SEQ_WINDOW
  }

  /** So far ahead, in another round of the 16-bit number, that the window takes it
      for a late one. */
  predicate InReach(newest: int, s: int) {
    newest == 0 || s - newest <= 0x1_0000 - HA.SEQ_WINDOW || s / 0x1_0000 == newest / 0x1_0000
  }

  /** At most nine numbers late, and not out of reach. */
  predicate Timely(sent: seq<MN.Sent>, es: seq<Event>, e: Event) {
    !TooLate(sent, es, e) && (Arrives(sent, e) ==> InReach(Newest(sent, es), sent[e.i].seqno))
  }

  predicate AllTimely(sent: seq<MN.Sent>, es: seq<Event>) {
    forall k | 0 <= k < |es| :: Timely(sent, es[..k], es[k])
  }

  predicate NeverStraddles(sent: seq<MN.Sent>, es: seq<Event>) {
    forall k | 0 <= k < |es| :: !Straddles(sent, es[..k], es[k])
  }

  predicate NeverTooLate(sent: seq<MN.Sent>, es: seq<Event>) {
    forall k | 0 <= k < |es| :: !TooLate(sent, es[..k], es[k])
  }

  /** While fewer than 65536 updates are sent nothing straddles, and nothing is out
      of reach. */
  lemma OneRound(sent: seq<MN.Sent>, es: seq<Event>)
    requires Numbers(sent) && |sent| < 0x1_0000 && NeverTooLate(sent, es)
    ensures AllTimely(sent, es) && NeverStraddles(sent, es)
  {
    forall k | 0 <= k < |es|
      ensures Timely(sent, es[..k], es[k]) && !Straddles(sent, es[..k], es[k])
    {
      NewestBound(sent, es[..k]);
    }
  }

  lemma {:induction false} NewestBound(sent: seq<MN.Sent>, es: seq<Event>)
    requires Numbers(sent)
    ensures 0 <= Newest(sent, es) <= |sent|
    decreases |es|
  {
    if es != [] {
      NewestBound(sent, es[..|es| - 1]);
    }
  }

  // ----------------------------------------------------------------- one arrival

  /** The numbers in the messages, where the home agent's is that of the newest. */
  lemma WindowTest(newest: int, s: int)
    requires newest > 0 && s > 0 && newest - s < HA.SEQ_WINDOW && InReach(newest, s)
    ensures var last, wire := newest % 0x1_0000, s % 0x1_0000;
      last > wire && last - wire < HA.SEQ_WINDOW <==> s < newest && s / 0x1_0000 == newest / 0x1_0000
  {
    var q, r := newest / 0x1_0000, s / 0x1_0000;
    assert newest == q * 0x1_0000 + newest % 0x1_0000;
    assert s == r * 0x1_0000 + s % 0x1_0000;
  }

  /** An overtaken update is ignored, and the record stays as it is, exactly if no
      multiple of 65536 lies between it and the newest; put with the number the
      home agent holds, exactly if that is no less than the lag. */
  lemma OvertakenIsIgnored(m: HA.Mn, sent: seq<MN.Sent>, e: Event, newest: int)
    requires |m.slots| == HA.NIF + 1 && Numbers(sent) && Arrives(sent, e)
    requires m.lastBuSeq == newest % 0x1_0000 && 1 <= newest - sent[e.i].seqno < HA.SEQ_WINDOW
    ensures var u := Message(m, sent, e.i, e.link); var lag := newest - sent[e.i].seqno;
      && (HA.Ignored(m, u) <==> sent[e.i].seqno / 0x1_0000 == newest / 0x1_0000)
      && (HA.Ignored(m, u) <==> newest % 0x1_0000 >= lag)
      && (Next(m, sent, e) == m <==> HA.Ignored(m, u))
      && (!HA.Ignored(m, u) ==> Next(m, sent, e).lastBuSeq == Wire(sent[e.i]) > m.lastBuSeq)
  {
    WindowTest(newest, sent[e.i].seqno);
    Lag(newest, sent[e.i].seqno);
  }

  lemma Lag(newest: int, s: int)
    requires 0 < s < newest && newest - s < HA.SEQ_WINDOW
    ensures s / 0x1_0000 == newest / 0x1_0000 <==> newest % 0x1_0000 >= newest - s
    ensures s / 0x1_0000 < newest / 0x1_0000 ==> s % 0x1_0000 > newest % 0x1_0000
  {
    var q, r := newest / 0x1_0000, s / 0x1_0000;
    assert newest == q * 0x1_0000 + newest % 0x1_0000;
    assert s == r * 0x1_0000 + s % 0x1_0000;
    assert q - 1 <= r <= q;
  }

  /** Any timely arrival that is not overtaken is acted on. */
  lemma NewestIsTaken(m: HA.Mn, sent: seq<MN.Sent>, e: Event, newest: int)
    requires |m.slots| == HA.NIF + 1 && Numbers(sent) && Arrives(sent, e)
    requires m.lastBuSeq == newest % 0x1_0000 && newest >= 0
    requires newest <= sent[e.i].seqno && InReach(newest, sent[e.i].seqno)
    ensures Next(m, sent, e).lastBuSeq == Wire(sent[e.i])
  {
    if newest > 0 {
      WindowTest(newest, sent[e.i].seqno);
    }
  }

  /** Before the numbers wrap: the home agent's number goes back exactly if the
      update is ten or more behind; nine or less behind, it changes nothing. */
  lemma ArrivalGoesBack(m: HA.Mn, sent: seq<MN.Sent>, e: Event)
    requires |m.slots| == HA.NIF + 1 && Numbers(sent) && |sent| < 0x1_0000 && Arrives(sent, e)
    ensures var m' := Next(m, sent, e);
      && (m'.lastBuSeq < m.lastBuSeq <==> sent[e.i].seqno <= m.lastBuSeq - HA.SEQ_WINDOW)
      && (m.lastBuSeq - HA.SEQ_WINDOW < sent[e.i].seqno < m.lastBuSeq ==> m' == m)
      && (sent[e.i].seqno >= m.lastBuSeq ==> m'.lastBuSeq == sent[e.i].seqno)
  {
    assert Wire(sent[e.i]) == sent[e.i].seqno;
  }

  lemma OthersKeep(m: HA.Mn, sent: seq<MN.Sent>, e: Event)
    requires |m.slots| == HA.NIF + 1 && !Arrives(sent, e)
    ensures Next(m, sent, e).lastBuSeq == if e.Expire? then 0 else m.lastBuSeq
  {
  }

  // ------------------------------------------------------------------------ runs

  /** The home agent's number is that of the newest update. */
  predicate Follows(m: HA.Mn, sent: seq<MN.Sent>, es: seq<Event>) {
    m.lastBuSeq == Newest(sent, es) % 0x1_0000
  }

  lemma FollowsOn(m: HA.Mn, sent: seq<MN.Sent>, es: seq<Event>)
    requires |m.slots| == HA.NIF + 1 && Numbers(sent) && es != []
    requires var n := |es| - 1; Follows(m, sent, es[..n]) && Timely(sent, es[..n], es[n])
    ensures var n := |es| - 1; Follows(Next(m, sent, es[n]), sent, es) <==> !Straddles(sent, es[..n], es[n])
    ensures var n := |es| - 1;
      Overtaken(sent, es[..n], es[n]) ==> (Next(m, sent, es[n]) == m <==> !Straddles(sent, es[..n], es[n]))
  {
    var n := |es| - 1;
    var e := es[n];
    var newest := Newest(sent, es[..n]);
    NewestBound(sent, es[..n]);
    if !Arrives(sent, e) {
      OthersKeep(m, sent, e);
    } else if sent[e.i].seqno < newest {
      OvertakenIsIgnored(m, sent, e, newest);
      assert sent[e.i].seqno / 0x1_0000 <= newest / 0x1_0000;
    } else {
      NewestIsTaken(m, sent, e, newest);
    }
  }

  ghost predicate AlwaysFollows(m: HA.Mn, sent: seq<MN.Sent>, es: seq<Event>)
    requires |m.slots| == HA.NIF + 1
  {
    forall k | 0 <= k <= |es| :: Follows(Run(m, sent, es[..k]), sent, es[..k])
  }

  lemma RunLast(m: HA.Mn, sent: seq<MN.Sent>, es: seq<Event>, k: nat)
    requires |m.slots| == HA.NIF + 1 && k < |es|
    ensures Run(m, sent, es[..k + 1]) == Next(Run(m, sent, es[..k]), sent, es[k])
  {
    assert es[..k + 1][..k] == es[..k];
  }

  lemma FollowsUpTo(m: HA.Mn, sent: seq<MN.Sent>, es: seq<Event>, k: nat)
    requires |m.slots| == HA.NIF + 1 && Numbers(sent) && AllTimely(sent, es) && k < |es|
    requires Follows(Run(m, sent, es[..k]), sent, es[..k])
    ensures Follows(Run(m, sent, es[..k + 1]), sent, es[..k + 1]) <==> !Straddles(sent, es[..k], es[k])
    ensures Overtaken(sent, es[..k], es[k])
        ==> (Run(m, sent, es[..k + 1]) == Run(m, sent, es[..k]) <==> !Straddles(sent, es[..k], es[k]))
  {
    RunLast(m, sent, es, k);
    assert es[..k + 1][..k] == es[..k] && es[..k + 1][k] == es[k];
    FollowsOn(Run(m, sent, es[..k]), sent, es[..k + 1]);
  }

  lemma {:induction false} FollowsAt(m: HA.Mn, sent: seq<MN.Sent>, es: seq<Event>, k: nat)
    requires |m.slots| == HA.NIF + 1 && m.lastBuSeq == 0 && Numbers(sent) && AllTimely(sent, es) && k <= |es|
    requires forall j | 0 <= j < k :: !Straddles(sent, es[..j], es[j])
    ensures Follows(Run(m, sent, es[..k]), sent, es[..k])
    decreases k
  {
    if k == 0 {
      assert es[..0] == [];
    } else {
      FollowsAt(m, sent, es, k - 1);
      FollowsUpTo(m, sent, es, k - 1);
    }
  }

  /** Over every timely run, with any number of updates, the home agent's number is
      that of the newest update throughout, exactly if no overtaken update
      straddles a multiple of 65536. */
  lemma FollowsNewest(m: HA.Mn, sent: seq<MN.Sent>, es: seq<Event>)
    requires |m.slots| == HA.NIF + 1 && m.lastBuSeq == 0 && Numbers(sent) && AllTimely(sent, es)
    ensures AlwaysFollows(m, sent, es) <==> NeverStraddles(sent, es)
  {
    if NeverStraddles(sent, es) {
      forall k | 0 <= k <= |es|
        ensures Follows(Run(m, sent, es[..k]), sent, es[..k])
      {
        FollowsAt(m, sent, es, k);
      }
    }
    if AlwaysFollows(m, sent, es) {
      forall k | 0 <= k < |es|
        ensures !Straddles(sent, es[..k], es[k])
      {
        assert Follows(Run(m, sent, es[..k]), sent, es[..k]) && Follows(Run(m, sent, es[..k + 1]), sent, es[..k + 1]);
        FollowsUpTo(m, sent, es, k);
      }
    }
  }

  /** The run without the updates that were overtaken. */
  function WithoutOvertaken(sent: seq<MN.Sent>, es: seq<Event>): seq<Event>
    decreases |es|
  {
    if es == [] then []
    else
      var n := |es| - 1;
      WithoutOvertaken(sent, es[..n]) + if Overtaken(sent, es[..n], es[n]) then [] else [es[n]]
  }

  /** After every event of the run the record is what it would be had the overtaken
      updates never arrived. */
  ghost predicate NoEffect(m: HA.Mn, sent: seq<MN.Sent>, es: seq<Event>)
    requires |m.slots| == HA.NIF + 1
  {
    forall k | 0 <= k <= |es| :: Run(m, sent, es[..k]) == Run(m, sent, WithoutOvertaken(sent, es[..k]))
  }

  lemma WithoutLast(m: HA.Mn, sent: seq<MN.Sent>, es: seq<Event>, k: nat)
    requires |m.slots| == HA.NIF + 1 && k < |es|
    ensures var kept := WithoutOvertaken(sent, es[..k]);
      Run(m, sent, WithoutOvertaken(sent, es[..k + 1]))
      == if Overtaken(sent, es[..k], es[k]) then Run(m, sent, kept) else Next(Run(m, sent, kept), sent, es[k])
  {
    var kept := WithoutOvertaken(sent, es[..k]);
    assert es[..k + 1][..k] == es[..k] && es[..k + 1][k] == es[k];
    assert (kept + [es[k]])[..|kept|] == kept;
    assert kept + [] == kept;
  }

  lemma {:induction false} NoEffectAt(m: HA.Mn, sent: seq<MN.Sent>, es: seq<Event>, k: nat)
    requires |m.slots| == HA.NIF + 1 && m.lastBuSeq == 0 && Numbers(sent) && AllTimely(sent, es) && k <= |es|
    requires forall j | 0 <= j < k :: !Straddles(sent, es[..j], es[j])
    ensures Run(m, sent, es[..k]) == Run(m, sent, WithoutOvertaken(sent, es[..k]))
    decreases k
  {
    if k == 0 {
      assert es[..0] == [];
    } else {
      NoEffectAt(m, sent, es, k - 1);
      FollowsAt(m, sent, es, k - 1);
      FollowsUpTo(m, sent, es, k - 1);
      WithoutLast(m, sent, es, k - 1);
      RunLast(m, sent, es, k - 1);
    }
  }

  lemma {:induction false} FirstStraddle(sent: seq<MN.Sent>, es: seq<Event>, k: nat) returns (j: nat)
    requires k < |es| && Straddles(sent, es[..k], es[k])
    ensures j <= k && Straddles(sent, es[..j], es[j]) && forall i | 0 <= i < j :: !Straddles(sent, es[..i], es[i])
  {
    j := 0;
    while !Straddles(sent, es[..j], es[j])
      decreases k - j
      invariant j <= k && forall i | 0 <= i < j :: !Straddles(sent, es[..i], es[i])
    {
      j := j + 1;
    }
  }

  /** Two-party safety, for any number of updates: over every timely run an
      overtaken update never has an effect, exactly if none straddles a multiple of
      65536. */
  lemma OvertakenHasNoEffect(m: HA.Mn, sent: seq<MN.Sent>, es: seq<Event>)
    requires |m.slots| == HA.NIF + 1 && m.lastBuSeq == 0 && Numbers(sent) && AllTimely(sent, es)
    ensures NoEffect(m, sent, es) <==> NeverStraddles(sent, es)
  {
    if NeverStraddles(sent, es) {
      forall k | 0 <= k <= |es|
        ensures Run(m, sent, es[..k]) == Run(m, sent, WithoutOvertaken(sent, es[..k]))
      {
        NoEffectAt(m, sent, es, k);
      }
    } else {
      var k :| 0 <= k < |es| && Straddles(sent, es[..k], es[k]);
      var j := FirstStraddle(sent, es, k);
      NoEffectAt(m, sent, es, j);
      FollowsAt(m, sent, es, j);
      FollowsUpTo(m, sent, es, j);
      WithoutLast(m, sent, es, j);
      assert Run(m, sent, es[..j + 1]) != Run(m, sent, WithoutOvertaken(sent, es[..j + 1]));
    }
  }

  /** Three arrivals around the first wrap: the second overtakes the third, which is
      acted on. */
  lemma WrapReached(m: HA.Mn, sent: seq<MN.Sent>, link: int, ids: HA.Ids)
    requires |m.slots| == HA.NIF + 1 && m.lastBuSeq == 0 && Numbers(sent) && |sent| > 0x1_0000
    ensures var es := [Arrive(0xfff9, link, 0, ids), Arrive(0x1_0000, link, 1, ids), Arrive(0xfffe, link, 2, ids)];
      AllTimely(sent, es) && Straddles(sent, es[..2], es[2]) && !NoEffect(m, sent, es)
  {
    var a, b, d := Arrive(0xfff9, link, 0, ids), Arrive(0x1_0000, link, 1, ids), Arrive(0xfffe, link, 2, ids);
    var es := [a, b, d];
    assert es[..0] == [] && es[..1] == [a] && es[..2] == [a, b];
    assert [a][..0] == [] && [a, b][..1] == [a];
    assert Newest(sent, [a]) == 0xfffa;
    assert Newest(sent, [a, b]) == 0x1_0001;
    assert Timely(sent, es[..0], a) && Timely(sent, es[..1], b) && Timely(sent, es[..2], d);
    assert Straddles(sent, es[..2], es[2]);
    OvertakenHasNoEffect(m, sent, es);
  }

  lemma FollowsAll(m: HA.Mn, sent: seq<MN.Sent>, es: seq<Event>)
    requires |m.slots| == HA.NIF + 1 && m.lastBuSeq == 0 && Numbers(sent) && AllTimely(sent, es)
      && NeverStraddles(sent, es)
    ensures Follows(Run(m, sent, es), sent, es)
  {
    assert es[..|es|] == es;
    FollowsAt(m, sent, es, |es|);
  }

  lemma SmallNumber(m: HA.Mn, sent: seq<MN.Sent>, es: seq<Event>)
    requires Numbers(sent) && |sent| < 0x1_0000 && Follows(m, sent, es)
    ensures m.lastBuSeq == Newest(sent, es)
  {
    NewestBound(sent, es);
  }

  /** With fewer than 65536 updates, none of which comes ten or more numbers late:
      the home agent's number never goes back between expiries, and no overtaken
      update has an effect. */
  lemma SafeInOneRound(m: HA.Mn, sent: seq<MN.Sent>, es: seq<Event>)
    requires |m.slots| == HA.NIF + 1 && m.lastBuSeq == 0
    requires Numbers(sent) && |sent| < 0x1_0000 && NeverTooLate(sent, es)
    ensures NoEffect(m, sent, es) && Run(m, sent, es).lastBuSeq == Newest(sent, es)
  {
    OneRound(sent, es);
    OvertakenHasNoEffect(m, sent, es);
    FollowsAll(m, sent, es);
    SmallNumber(Run(m, sent, es), sent, es);
  }
}
