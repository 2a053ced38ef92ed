/** Runs from start-up that end in each of the steps known to go wrong. */
module HomeAgentWitnesses {
  import opened Addresses
  import opened HomeAgentKernel
  import opened HomeAgentPlans
  import opened HomeAgentMoves
  import opened HomeAgentRuns
  import opened HomeAgentHandoff
  import opened HomeAgentHistory

  const PORT := 666
  const COA: Ip4 := 10
  const NAT_ADDR: Ip4 := 20

  function NodeA(): Home { Home(Ip6(1, 0, 0, 0), 1) }
  function NodeB(): Home { Home(Ip6(2, 0, 0, 0), 2) }

  // a probe from behind the NAT, or straight from the care-of address
  function ProbeOf(h: Home, nated: bool): Probe {
    Probe(h.v6, COA, 7, PORT, if nated then NAT_ADDR else COA, PORT)
  }

  function UpdateTo(h: Home, coa: Ip6, seqno: int): Update {
    Update(h.v6, coa, seqno, 7)
  }

  /** The node says where it is, and registers it. */
  function Arrives(h: Home, nated: bool, ids: Ids): seq<Event> {
    [OnProbe(ProbeOf(h, nated), 1), OnUpdate(UpdateTo(h, MapAddr(COA), 1), 2, ids)]
  }

  // the ids of an update, three at a time
  function IdsFrom(n: int): Ids {
    Ids(n, n + 1, n + 2)
  }

  // ------------------------------------------------------------------ the records

  /** The record after the first probe, and after the first update. */
  predicate Told(m: Mn, h: Home, nated: bool) {
    && |m.slots| == NIF + 1 && m.home == h && m.nifMap == [7] && m.lastBuSeq <= 1
    && m.slots[0] == Slot(INADDR_ANY, false, INADDR_ANY, 0, 0)
    && m.slots[1] == (if nated then Slot(COA, true, NAT_ADDR, PORT, 1) else Slot(COA, false, INADDR_ANY, 0, 1))
  }

  lemma FirstProbe(h: Home, nated: bool)
    ensures var m := ProbeMn(NewMn(h), ProbeOf(h, nated), 1); Told(m, h, nated) && m.active == 0 && m.lastBuSeq == 0
  {
    var m := NewMn(h);
    assert NifIndex(7, m.nifMap) == 0;
    assert m.slots[1] == Slot(INADDR_ANY, false, INADDR_ANY, 0, 0);
  }

  lemma FirstUpdate(m: Mn, h: Home, nated: bool, u: Update, now: int, ids: Ids)
    requires Told(m, h, nated) && m.active == 0 && u == UpdateTo(h, MapAddr(COA), 1)
    ensures Decide(m, u) == Bind4(1) && !NamesNoAddress(m, u)
    ensures var m' := UpdateMn(m, u, now, ids);
      Told(m', h, nated) && m'.active == 1 && m'.tnl44 == ids.t44 && m'.tnl64 == ids.t64 && m'.lastBuSeq == 1
  {
    assert SlotOf(m.slots, COA, 1) == 1;
    assert SlotOf(m.slots, COA, 0) == 1;
  }

  // ------------------------------------------------------------------- one arrival

  ghost predicate Starts(homes: seq<Home>, i: nat) {
    && |homes| <= MAX_MN_NUM && DistinctHomes(homes) && i < |homes|
  }

  lemma FindAt(mns: seq<Mn>, i: nat)
    requires i < |mns| && forall j | 0 <= j < i :: mns[j].home.v6 != mns[i].home.v6
    ensures Find(mns, mns[i].home.v6) == i
  {
  }

  lemma Distinguished(w: World, i: nat)
    requires i < |w.mns| && Distinct(w.mns)
    ensures Find(w.mns, w.mns[i].home.v6) == i
  {
    assert forall j | 0 <= j < i :: w.mns[j].home.v6 != w.mns[i].home.v6;
    FindAt(w.mns, i);
  }

  /** A probe for a node that has sent none, in a world in order. */
  lemma ProbeStep(c: Config, w: World, i: nat, h: Home, nated: bool)
    requires Shaped(w) && WorldInv(c, w) && i < |w.mns| && w.mns[i] == NewMn(h)
    ensures var e := OnProbe(ProbeOf(h, nated), 1); var w' := StepWorld(c, w, e);
      && Fresh(w, e) && Sound(c, w, e) && WorldInv(c, w')
      && w' == w.(mns := w.mns[i := w'.mns[i]]) && Told(w'.mns[i], h, nated) && w'.mns[i].active == 0
  {
    Distinguished(w, i);
    FirstProbe(h, nated);
    StepKeeps(c, w, OnProbe(ProbeOf(h, nated), 1));
  }

  /** The first update of a node, whose NAT address nobody uses. */
  lemma UpdateStep(c: Config, w: World, i: nat, h: Home, nated: bool, ids: Ids)
    requires Shaped(w) && WorldInv(c, w) && i < |w.mns| && Told(w.mns[i], h, nated) && w.mns[i].active == 0
    requires FreshIds(w.kernel.tunnels, ids)
    requires forall j | 0 <= j < |w.mns| :: w.mns[j].active == 0
    ensures var e := OnUpdate(UpdateTo(h, MapAddr(COA), 1), 2, ids); var w' := StepWorld(c, w, e);
      && Fresh(w, e) && Sound(c, w, e) && WorldInv(c, w')
      && w'.mns == w.mns[i := w'.mns[i]] && Told(w'.mns[i], h, nated) && w'.mns[i].active == 1
      && w'.mns[i].lastBuSeq == 1 && Owned(w'.mns[i]) == {ids.t44, ids.t64}
  {
    var u := UpdateTo(h, MapAddr(COA), 1);
    Distinguished(w, i);
    FirstUpdate(w.mns[i], h, nated, u, 2, ids);
    assert !SharesNat(c, w.mns, i, u);
    StepKeeps(c, w, OnUpdate(u, 2, ids));
  }

  lemma TwoEvents(c: Config, w: World, a: Event, b: Event)
    requires Shaped(w)
    requires Fresh(w, a) && Sound(c, w, a) && Fresh(StepWorld(c, w, a), b) && Sound(c, StepWorld(c, w, a), b)
    ensures LegalRun(c, w, [a, b]) && Run(c, w, [a, b]) == StepWorld(c, StepWorld(c, w, a), b)
  {
    assert [] + [a] == [a] && [a] + [b] == [a, b];
    LegalSnoc(c, w, [], a);
    RunSnoc(c, w, [], a);
    LegalSnoc(c, w, [a], b);
    RunSnoc(c, w, [a], b);
  }

  lemma FirstTold(c: Config, homes: seq<Home>, nated: bool) returns (w: World)
    requires Starts(homes, 0)
    ensures var e := OnProbe(ProbeOf(homes[0], nated), 1);
      Fresh(Boot(homes), e) && Sound(c, Boot(homes), e) && w == StepWorld(c, Boot(homes), e)
    ensures WorldInv(c, w) && |w.mns| == |homes| && w.kernel.tunnels == map[]
    ensures Told(w.mns[0], homes[0], nated) && w.mns[0].active == 0
    ensures forall j | 0 < j < |homes| :: w.mns[j] == NewMn(homes[j])
  {
    var w0 := Boot(homes);
    BootInv(c, homes);
    assert w0.mns[0] == NewMn(homes[0]);
    ProbeStep(c, w0, 0, homes[0], nated);
    w := StepWorld(c, w0, OnProbe(ProbeOf(homes[0], nated), 1));
  }

  /** The first of the nodes arrives, from start-up. */
  lemma FirstArrival(c: Config, homes: seq<Home>, nated: bool) returns (w: World)
    requires Starts(homes, 0)
    ensures LegalRun(c, Boot(homes), Arrives(homes[0], nated, IdsFrom(1)))
    ensures w == Run(c, Boot(homes), Arrives(homes[0], nated, IdsFrom(1))) && WorldInv(c, w) && Shaped(w)
    ensures |w.mns| == |homes| && Told(w.mns[0], homes[0], nated) && w.mns[0].active == 1 && w.mns[0].lastBuSeq == 1
    ensures w.kernel.tunnels.Keys == {1, 2}
    ensures forall j | 0 < j < |homes| :: w.mns[j] == NewMn(homes[j])
  {
    var w0 := Boot(homes);
    var w1 := FirstTold(c, homes, nated);
    UpdateStep(c, w1, 0, homes[0], nated, IdsFrom(1));
    w := StepWorld(c, w1, OnUpdate(UpdateTo(homes[0], MapAddr(COA), 1), 2, IdsFrom(1)));
    TwoEvents(c, w0, OnProbe(ProbeOf(homes[0], nated), 1),
        OnUpdate(UpdateTo(homes[0], MapAddr(COA), 1), 2, IdsFrom(1)));
    OnlyFirst(w.mns);
  }

  lemma OnlyFirst(mns: seq<Mn>)
    requires mns != [] && forall j | 0 < j < |mns| :: Owned(mns[j]) == {}
    ensures AllOwned(mns) == Owned(mns[0])
  {
  }

  // ------------------------------------------------------------------ the witnesses

  /** The run is in order up to its last event, which meets unused ifindexes and
      still takes a record out of step with the kernel. */
  ghost predicate GoesWrong(c: Config, homes: seq<Home>, es: seq<Event>, e: Event) {
    && LegalRun(c, Boot(homes), es) && Fresh(Run(c, Boot(homes), es), e)
    && !WorldInv(c, Run(c, Boot(homes), es + [e]))
  }

  lemma WrongIfUnsound(c: Config, homes: seq<Home>, es: seq<Event>, e: Event)
    requires |homes| <= MAX_MN_NUM && DistinctHomes(homes) && LegalRun(c, Boot(homes), es)
    requires Fresh(Run(c, Boot(homes), es), e) && !Sound(c, Run(c, Boot(homes), es), e)
    ensures GoesWrong(c, homes, es, e)
  {
    BootInv(c, homes);
    RunInv(c, Boot(homes), es);
    StepKeeps(c, Run(c, Boot(homes), es), e);
    RunSnoc(c, Boot(homes), es, e);
  }

  /** A node bound straight to its address, whose next probe comes through a NAT. */
  lemma SilentFlipReached(c: Config)
    ensures GoesWrong(c, [NodeA()], Arrives(NodeA(), false, IdsFrom(1)), OnProbe(ProbeOf(NodeA(), true), 3))
  {
    var homes := [NodeA()];
    var w := FirstArrival(c, homes, false);
    var p := ProbeOf(NodeA(), true);
    Distinguished(w, 0);
    assert ProbeSlot(w.mns[0], p) == 1;
    assert SilentFlip(w.mns[0], p);
    WrongIfUnsound(c, homes, Arrives(NodeA(), false, IdsFrom(1)), OnProbe(p, 3));
  }

  /** A bound node that registers 0.0.0.0. */
  lemma NoAddressReached(c: Config)
    ensures GoesWrong(c, [NodeA()], Arrives(NodeA(), false, IdsFrom(1)),
                      OnUpdate(UpdateTo(NodeA(), MapAddr(INADDR_ANY), 2), 3, IdsFrom(4)))
  {
    var homes := [NodeA()];
    var w := FirstArrival(c, homes, false);
    var u := UpdateTo(NodeA(), MapAddr(INADDR_ANY), 2);
    Distinguished(w, 0);
    assert NamesNoAddress(w.mns[0], u);
    WrongIfUnsound(c, homes, Arrives(NodeA(), false, IdsFrom(1)), OnUpdate(u, 3, IdsFrom(4)));
  }

  lemma BothTold(c: Config) returns (w: World)
    ensures var homes := [NodeA(), NodeB()];
      var es := Arrives(NodeA(), true, IdsFrom(1)) + [OnProbe(ProbeOf(NodeB(), true), 1)];
      LegalRun(c, Boot(homes), es) && w == Run(c, Boot(homes), es)
    ensures |w.mns| == 2 && Distinct(w.mns) && Told(w.mns[0], NodeA(), true) && w.mns[0].active == 1
    ensures Told(w.mns[1], NodeB(), true) && w.mns[1].active == 0 && w.kernel.tunnels.Keys == {1, 2}
  {
    var homes := [NodeA(), NodeB()];
    var es := Arrives(NodeA(), true, IdsFrom(1));
    var probe := OnProbe(ProbeOf(NodeB(), true), 1);
    var w0 := FirstArrival(c, homes, true);
    ProbeStep(c, w0, 1, NodeB(), true);
    LegalSnoc(c, Boot(homes), es, probe);
    RunSnoc(c, Boot(homes), es, probe);
    w := StepWorld(c, w0, probe);
    assert w.mns[0] == w0.mns[0];
  }

  lemma Shares(c: Config, w: World, u: Update)
    requires Shaped(w) && |w.mns| == 2 && Told(w.mns[0], NodeA(), true) && w.mns[0].active == 1
    requires Told(w.mns[1], NodeB(), true) && Decide(w.mns[1], u) == Bind4(1)
    ensures SharesNat(c, w.mns, 1, u)
  {
    assert SlotEncap(c, w.mns[1].slots[1]).Key() in OwnedKeys(c, w.mns[0]);
  }

  /** Two nodes behind one NAT address: the second one's update. */
  lemma SharedNatReached(c: Config)
    ensures GoesWrong(c, [NodeA(), NodeB()], Arrives(NodeA(), true, IdsFrom(1)) + [OnProbe(ProbeOf(NodeB(), true), 1)],
                      OnUpdate(UpdateTo(NodeB(), MapAddr(COA), 1), 2, IdsFrom(4)))
  {
    var homes := [NodeA(), NodeB()];
    var es := Arrives(NodeA(), true, IdsFrom(1)) + [OnProbe(ProbeOf(NodeB(), true), 1)];
    var u := UpdateTo(NodeB(), MapAddr(COA), 1);
    var w := BothTold(c);
    FirstUpdate(w.mns[1], NodeB(), true, u, 2, IdsFrom(4));
    Distinguished(w, 1);
    Shares(c, w, u);
    WrongIfUnsound(c, homes, es, OnUpdate(u, 2, IdsFrom(4)));
  }

  const FAR: Ip6 := Ip6(5, 0, 0, 0)
  const FARTHER: Ip6 := Ip6(6, 0, 0, 0)

  function Leave(): Event {
    OnUpdate(UpdateTo(NodeA(), FAR, 2), 3, IdsFrom(4))
  }

  lemma HasLeft(c: Config) returns (w: World)
    ensures var es := Arrives(NodeA(), true, IdsFrom(1)) + [Leave()];
      LegalRun(c, Boot([NodeA()]), es) && w == Run(c, Boot([NodeA()]), es) && LastLeft(c, Boot([NodeA()]), es, 0)
    ensures |w.mns| == 1 && |w.mns[0].slots| == NIF + 1 && w.mns[0].active == -1 && w.mns[0].coav6 == FAR
    ensures w.mns[0].home == NodeA() && w.mns[0].lastBuSeq == 2 && w.kernel.tunnels.Keys == {6}
  {
    var homes := [NodeA()];
    var before := Arrives(NodeA(), true, IdsFrom(1));
    var w0 := FirstArrival(c, homes, true);
    LeaveStep(c, w0);
    LegalSnoc(c, Boot(homes), before, Leave());
    RunSnoc(c, Boot(homes), before, Leave());
    w := StepWorld(c, w0, Leave());
    assert (before + [Leave()])[..2] == before;
  }

  lemma LeaveStep(c: Config, w: World)
    requires Shaped(w) && WorldInv(c, w) && |w.mns| == 1 && w.kernel.tunnels.Keys == {1, 2}
    requires Told(w.mns[0], NodeA(), true) && w.mns[0].active == 1 && w.mns[0].lastBuSeq == 1
    ensures Fresh(w, Leave()) && Sound(c, w, Leave()) && Redoes(w, Leave(), 0) && Leaves(w, Leave(), 0)
    ensures var w' := StepWorld(c, w, Leave()); var m := w'.mns[0];
      && |w'.mns| == 1 && m.active == -1 && m.coav6 == FAR && m.home == NodeA() && m.lastBuSeq == 2
      && w'.kernel.tunnels.Keys == {6}
  {
    Distinguished(w, 0);
    assert Decide(w.mns[0], Leave().update) == Bind6;
    StepKeeps(c, w, Leave());
    OnlyFirst(StepWorld(c, w, Leave()).mns);
  }

  /** A node that leaves a NATed IPv4 for an IPv6 address, and then moves on: that
      last move interrupts delivery. */
  lemma LeavingNatReached(c: Config)
    ensures var es := Arrives(NodeA(), true, IdsFrom(1)) + [Leave()];
      var w := Run(c, Boot([NodeA()]), es); var u := UpdateTo(NodeA(), FARTHER, 3);
      && LegalRun(c, Boot([NodeA()]), es) && |w.mns| == 1 && Moves(w.mns[0], u)
      && FreshIds(w.kernel.tunnels, IdsFrom(7))
      && !NeverInterrupted(c, w.kernel, w.mns[0], u, IdsFrom(7))
  {
    var w := HasLeft(c);
    var u := UpdateTo(NodeA(), FARTHER, 3);
    assert Decide(w.mns[0], u) == Bind6;
    AnyMove(c, [NodeA()], Arrives(NodeA(), true, IdsFrom(1)) + [Leave()], 0, u, IdsFrom(7));
  }
}
