/** What a run of the home agent leaves behind, told by its events: whether all of
    them were sound, what lingers in table 251, and what the probes have said. */
module HomeAgentHistory {
  import opened Addresses
  import opened HomeAgentKernel
  import opened HomeAgentPlans
  import opened HomeAgentMoves
  import opened HomeAgentRuns
  import opened HomeAgentHandoff

  // ------------------------------------------------------------ runs of any kind

  /** The kernel hands out unused ifindexes all along. */
  ghost predicate FreshRun(c: Config, w: World, es: seq<Event>)
    requires Shaped(w)
    decreases es
  {
    es == [] || (Fresh(w, es[0]) && FreshRun(c, StepWorld(c, w, es[0]), es[1..]))
  }

  ghost predicate AlwaysInOrder(c: Config, w: World, es: seq<Event>)
    requires Shaped(w)
  {
    forall n | 0 <= n <= |es| :: WorldInv(c, Run(c, w, es[..n]))
  }

  lemma RunTail(c: Config, w: World, es: seq<Event>, n: nat)
    requires Shaped(w) && es != [] && n < |es|
    ensures Run(c, w, es[..n + 1]) == Run(c, StepWorld(c, w, es[0]), es[1..][..n])
  {
    assert es[..n + 1][1..] == es[1..][..n];
  }

  lemma InOrderTail(c: Config, w: World, es: seq<Event>)
    requires Shaped(w) && es != [] && WorldInv(c, w)
    ensures AlwaysInOrder(c, w, es) <==> AlwaysInOrder(c, StepWorld(c, w, es[0]), es[1..])
  {
    var w1 := StepWorld(c, w, es[0]);
    forall n | 0 <= n < |es|
      ensures Run(c, w, es[..n + 1]) == Run(c, w1, es[1..][..n])
    {
      RunTail(c, w, es, n);
    }
    assert Run(c, w, es[..0]) == w;
    if AlwaysInOrder(c, w1, es[1..]) {
      forall n | 0 <= n <= |es|
        ensures WorldInv(c, Run(c, w, es[..n]))
      {
        if n > 0 {
          assert WorldInv(c, Run(c, w1, es[1..][..n - 1]));
          RunTail(c, w, es, n - 1);
        }
      }
    }
    if AlwaysInOrder(c, w, es) {
      forall n | 0 <= n <= |es[1..]|
        ensures WorldInv(c, Run(c, w1, es[1..][..n]))
      {
        assert WorldInv(c, Run(c, w, es[..n + 1]));
      }
    }
  }

  /** A run is in order after every event exactly if every event of it is sound
      where it happens. */
  lemma {:induction false} RunInvExactly(c: Config, w: World, es: seq<Event>)
    requires Shaped(w) && WorldInv(c, w) && FreshRun(c, w, es)
    ensures AlwaysInOrder(c, w, es) <==> LegalRun(c, w, es)
    decreases es
  {
    if es == [] {
      assert Run(c, w, es[..0]) == w;
    } else {
      var w1 := StepWorld(c, w, es[0]);
      StepKeeps(c, w, es[0]);
      InOrderTail(c, w, es);
      if Sound(c, w, es[0]) {
        RunInvExactly(c, w1, es[1..]);
      } else {
        assert Run(c, w1, es[1..][..0]) == w1;
      }
    }
  }

  lemma {:induction false} LegalSnoc(c: Config, w: World, es: seq<Event>, e: Event)
    requires Shaped(w)
    ensures var w1 := Run(c, w, es);
      LegalRun(c, w, es + [e]) <==> LegalRun(c, w, es) && Fresh(w1, e) && Sound(c, w1, e)
    decreases es
  {
    if es == [] {
      assert [e][1..] == [];
    } else {
      assert (es + [e])[1..] == es[1..] + [e];
      LegalSnoc(c, StepWorld(c, w, es[0]), es[1..], e);
    }
  }

  // ------------------------------------------------------------ tunnels known

  /** There is a tunnel of the kind between the two addresses. */
  predicate Known(k: Kernel, kind: Kind, local: Ip6, remote: Ip6) {
    exists id | id in k.tunnels ::
      k.tunnels[id].kind == kind && k.tunnels[id].local == local && k.tunnels[id].remote == remote
  }

  predicate BoundBy(m: Mn, kind: Kind, remote: Ip6)
    requires |m.slots| == NIF + 1 && m.active <= NIF
  {
    if kind.T66? then m.active < 0 && m.coav6 == remote
    else m.active > 0 && MapAddr(m.slots[m.active].coa) == remote
  }

  function LocalEnd(c: Config, kind: Kind): Ip6 {
    if kind.T66? then c.hav6 else MapAddr(c.hav4)
  }

  function TunnelOf(m: Mn, kind: Kind): int {
    match kind
    case T44 => m.tnl44
    case T64 => m.tnl64
    case T66 => m.tnl66
  }

  lemma BoundHasTunnel(c: Config, k: Kernel, m: Mn, kind: Kind, remote: Ip6)
    requires MnInv(c, k, m) && BoundBy(m, kind, remote)
    ensures Known(k, kind, LocalEnd(c, kind), remote)
  {
    var id := TunnelOf(m, kind);
    assert id in k.tunnels && k.tunnels[id].kind == kind;
  }

  lemma TunnelHasBound(c: Config, k: Kernel, m: Mn, id: int)
    requires MnInv(c, k, m) && id in Owned(m)
    ensures id in k.tunnels && BoundBy(m, k.tunnels[id].kind, k.tunnels[id].remote)
  {
  }

  /** A kernel that gives back a tunnel it has, instead of a new one, would do so
      exactly when some node is bound to that very care-of address. */
  lemma KnownIsBound(c: Config, w: World, kind: Kind, remote: Ip6)
    requires WorldInv(c, w) && Shaped(w)
    ensures Known(w.kernel, kind, LocalEnd(c, kind), remote)
      <==> exists j | 0 <= j < |w.mns| :: BoundBy(w.mns[j], kind, remote)
  {
    forall j | 0 <= j < |w.mns| && BoundBy(w.mns[j], kind, remote)
      ensures Known(w.kernel, kind, LocalEnd(c, kind), remote)
    {
      BoundHasTunnel(c, w.kernel, w.mns[j], kind, remote);
    }
    if Known(w.kernel, kind, LocalEnd(c, kind), remote) {
      var id :| id in w.kernel.tunnels && w.kernel.tunnels[id].kind == kind
                && w.kernel.tunnels[id].local == LocalEnd(c, kind) && w.kernel.tunnels[id].remote == remote;
      assert id in AllOwned(w.mns);
      var j :| 0 <= j < |w.mns| && id in Owned(w.mns[j]);
      TunnelHasBound(c, w.kernel, w.mns[j], id);
    }
  }

  // --------------------------------------------------------------- one probe port

  predicate FromPort(es: seq<Event>, port: int) {
    forall k | 0 <= k < |es| && es[k].OnProbe? :: es[k].probe.port == port && es[k].probe.coa != INADDR_ANY
  }

  ghost predicate AllOnePort(w: World, port: int)
    requires Shaped(w)
  {
    forall i | 0 <= i < |w.mns| :: OnePort(w.mns[i], port)
  }

  lemma ExpireOnePort(m: Mn, port: int)
    requires |m.slots| == NIF + 1 && OnePort(m, port)
    ensures OnePort(ExpireMn(m), port)
  {
  }

  lemma {:induction false} SweepOnePort(c: Config, w: World, i: nat, now: int, port: int)
    requires Shaped(w) && i <= |w.mns| && AllOnePort(w, port)
    ensures AllOnePort(SweepFrom(c, w, i, now), port)
    decreases |w.mns| - i
  {
    if i < |w.mns| {
      ExpireOnePort(w.mns[i], port);
      SweepOnePort(c, SweepOne(c, w, i, now), i + 1, now, port);
    }
  }

  lemma StepOnePort(c: Config, w: World, e: Event, port: int)
    requires Shaped(w) && AllOnePort(w, port)
    requires e.OnProbe? ==> e.probe.port == port && e.probe.coa != INADDR_ANY
    ensures AllOnePort(StepWorld(c, w, e), port)
  {
    match e
    case OnProbe(p, now) =>
      var i := Find(w.mns, p.hoa);
      if i < |w.mns| {
        OnePortFlips(w.mns[i], p, now);
      }
    case OnUpdate(u, now, ids) =>
      var i := Find(w.mns, u.hoa);
      if i < |w.mns| {
        assert UpdateMn(w.mns[i], u, now, ids).slots == w.mns[i].slots;
      }
    case OnSweep(now) => SweepOnePort(c, w, 0, now, port);
  }

  lemma {:induction false} RunOnePort(c: Config, w: World, es: seq<Event>, port: int)
    requires Shaped(w) && AllOnePort(w, port) && FromPort(es, port)
    ensures AllOnePort(Run(c, w, es), port)
    decreases es
  {
    if es != [] {
      assert es[0] in es;
      StepOnePort(c, w, es[0], port);
      assert forall k | 0 <= k < |es[1..]| :: es[1..][k] == es[k + 1];
      RunOnePort(c, StepWorld(c, w, es[0]), es[1..], port);
    }
  }

  /** After any run from start-up in which all probes come from one port, a probe
      from it is a silent flip exactly if it finds the active slot un-NATed under
      the same address and turns it NATed. */
  lemma RunFlips(c: Config, homes: seq<Home>, es: seq<Event>, p: Probe, i: nat)
    requires FromPort(es, p.port) && p.coa != INADDR_ANY && i < |homes|
    ensures var m := Run(c, Boot(homes), es).mns[i]; var s := ProbeSlot(m, p);
      SilentFlip(m, p) <==> s < NIF && m.active == s && m.slots[s].coa == p.coa && !m.slots[s].inNat && Nated(p)
  {
    var w := Boot(homes);
    forall j | 0 <= j < |w.mns|
      ensures OnePort(w.mns[j], p.port)
    {
      assert w.mns[j] == NewMn(homes[j]);
    }
    RunOnePort(c, w, es, p.port);
    OnePortFlips(Run(c, w, es).mns[i], p, 0);
  }

  // -------------------------------------------------------- what lingers in 251

  /** The event gives up, makes or exchanges node i's tunnels. */
  ghost predicate Redoes(w: World, e: Event, i: nat)
    requires Shaped(w) && i < |w.mns|
  {
    match e
    case OnProbe(_, _) => false
    case OnUpdate(u, _, _) => Find(w.mns, u.hoa) == i && !Decide(w.mns[i], u).Stay?
    case OnSweep(now) => Idle(w.mns[i], now)
  }

  /** ... in a move from a NATed IPv4 to an IPv6 care-of address. */
  ghost predicate Leaves(w: World, e: Event, i: nat)
    requires Shaped(w) && i < |w.mns|
  {
    e.OnUpdate? && Find(w.mns, e.update.hoa) == i && LeavesNat(w.mns[i], e.update)
  }

  /** The last event that changed node i's tunnels was such a move. */
  ghost predicate LastLeft(c: Config, w: World, es: seq<Event>, i: nat)
    requires Shaped(w) && i < |w.mns|
    decreases |es|
  {
    if es == [] then false
    else
      var n := |es| - 1;
      var w1 := Run(c, w, es[..n]);
      if Redoes(w1, es[n], i) then Leaves(w1, es[n], i) else LastLeft(c, w, es[..n], i)
  }

  /** How many such moves there were. */
  ghost function Departures(c: Config, w: World, es: seq<Event>, i: nat): nat
    requires Shaped(w) && i < |w.mns|
    decreases |es|
  {
    if es == [] then 0
    else
      var n := |es| - 1;
      Departures(c, w, es[..n], i) + if Leaves(Run(c, w, es[..n]), es[n], i) then 1 else 0
  }

  ghost function ViewAt(w: World, i: nat): View
    requires i < |w.mns|
  {
    ViewOf(w.kernel, w.mns[i].home)
  }

  ghost predicate SameTmp(v: View, v': View) {
    v'.tmp4 == v.tmp4 && v'.tmp6 == v.tmp6 && v'.rule6 == v.rule6
  }

  lemma ApplySameTmp(c: Config, w: World, i: nat, j: nat, ops: seq<Op>, m': Mn, ids: set<int>)
    requires WorldInv(c, w) && i < |w.mns| && j < |w.mns| && j != i
    requires ids !! w.kernel.tunnels.Keys
    requires forall op | op in ops :: Confined(op, w.mns[i].home, Owned(w.mns[i]) + ids)
    ensures SameTmp(ViewAt(w, j), ViewAt(Apply(w, i, ops, m'), j))
  {
    var m, o := w.mns[i], w.mns[j];
    assert MnInv(c, w.kernel, o);
    RoutesStayWithin(c, w.kernel, o);
    assert Owned(o) <= AllOwned(w.mns);
    ConfinedFrame(w.kernel, ops, m.home, Owned(m) + ids, o.home, Owned(o));
  }

  lemma ExpireTmp(c: Config, w: World, i: nat)
    requires WorldInv(c, w) && Shaped(w) && i < |w.mns|
    ensures var w' := Apply(w, i, Expire(c, w.mns[i]), ExpireMn(w.mns[i]));
      TmpEmpty(ViewAt(w', i)) && ViewAt(w', i).rule6 == ViewAt(w, i).rule6
  {
    var m := w.mns[i];
    assert MnInv(c, w.kernel, m);
    ExpireEffect(c, ViewAt(w, i), m);
    ExpireConfined(c, m);
    ViewSteps(w.kernel, m.home, Owned(m), Expire(c, m));
  }

  lemma SweepOneTmp(c: Config, w: World, i: nat, now: int, j: nat)
    requires WorldInv(c, w) && Shaped(w) && i < |w.mns| && j < |w.mns|
    ensures Lingers(ViewAt(w, j), ViewAt(SweepOne(c, w, i, now), j), j == i && Idle(w.mns[j], now), false)
  {
    if Idle(w.mns[i], now) {
      var m := w.mns[i];
      if j == i {
        ExpireTmp(c, w, i);
      } else {
        assert MnInv(c, w.kernel, m);
        ExpireConfined(c, m);
        assert Owned(m) + {} == Owned(m);
        ApplySameTmp(c, w, i, j, Expire(c, m), ExpireMn(m), {});
      }
    }
  }

  lemma LingersOn(v: View, v1: View, v2: View, first: bool, second: bool)
    requires Lingers(v, v1, first, false) && Lingers(v1, v2, second, false)
    ensures Lingers(v, v2, first || second, false)
  {
  }

  predicate Swept(w: World, i: nat, now: int, j: nat)
    requires j < |w.mns|
  {
    j >= i && Idle(w.mns[j], now)
  }

  lemma SweptOn(w: World, w1: World, i: nat, now: int, j: nat)
    requires j < |w.mns| == |w1.mns| && (j != i ==> w1.mns[j] == w.mns[j])
    ensures Swept(w, i, now, j) <==> (j == i && Idle(w.mns[j], now)) || Swept(w1, i + 1, now, j)
  {
  }

  lemma {:induction false} SweepTmp(c: Config, w: World, i: nat, now: int, j: nat)
    requires WorldInv(c, w) && Shaped(w) && i <= |w.mns| && j < |w.mns|
    ensures Lingers(ViewAt(w, j), ViewAt(SweepFrom(c, w, i, now), j), Swept(w, i, now, j), false)
    decreases |w.mns| - i
  {
    if i < |w.mns| {
      var w1 := SweepOne(c, w, i, now);
      SweepOneTmp(c, w, i, now, j);
      SweepOneKeeps(c, w, i, now);
      SweepTmp(c, w1, i + 1, now, j);
      LingersOn(ViewAt(w, j), ViewAt(w1, j), ViewAt(SweepFrom(c, w1, i + 1, now), j),
                j == i && Idle(w.mns[j], now), Swept(w1, i + 1, now, j));
      SweptOn(w, w1, i, now, j);
    }
  }

  /** An update of a node at home, or back to it, leaves table 251 empty. */
  lemma QuietTmp(c: Config, k: Kernel, m: Mn, u: Update, ids: Ids)
    requires MnInv(c, k, m) && FreshIds(k.tunnels, ids)
    requires !Decide(m, u).Stay? && (m.active == 0 || !Moves(m, u))
    ensures var v' := ViewOf(ExecAll(k, UpdateOps(c, m, u, ids)), m.home);
      TmpEmpty(v') && v'.rule6 == ViewOf(k, m.home).rule6 && !LeavesNat(m, u)
  {
    var v := ViewOf(k, m.home);
    var via := Owned(m) + IdSet(ids);
    UpdateConfined(c, m, u, ids);
    ViewSteps(k, m.home, via, UpdateOps(c, m, u, ids));
    match Decide(m, u)
    case Bind4(i) => MoveTo4Effect(c, v, m, i, u.link, ids, via);
    case Bind6 => MoveTo6Effect(c, v, m, u.coa, u.link, ids, via);
    case Return => GoHomeEffect(c, v, m);
  }

  /** What an event does to what lingers. */
  predicate Lingers(v: View, v': View, redoes: bool, leaves: bool) {
    && v'.rule6 == v.rule6 + (if leaves then 1 else 0)
    && (TmpEmpty(v') <==> if redoes then !leaves else TmpEmpty(v))
  }

  lemma OwnTmp(c: Config, k: Kernel, m: Mn, u: Update, ids: Ids)
    requires MnInv(c, k, m) && FreshIds(k.tunnels, ids)
    ensures var v, v' := ViewOf(k, m.home), ViewOf(ExecAll(k, UpdateOps(c, m, u, ids)), m.home);
      Lingers(v, v', !Decide(m, u).Stay?, LeavesNat(m, u))
  {
    if !Decide(m, u).Stay? {
      if m.active != 0 && Moves(m, u) {
        MoveLeftovers(c, k, m, u, ids);
      } else {
        QuietTmp(c, k, m, u, ids);
      }
    }
  }

  lemma OthersTmp(c: Config, w: World, i: nat, u: Update, now: int, ids: Ids, j: nat)
    requires WorldInv(c, w) && Shaped(w) && FreshIds(w.kernel.tunnels, ids)
    requires i < |w.mns| && j < |w.mns| && j != i
    ensures var w' := Apply(w, i, UpdateOps(c, w.mns[i], u, ids), UpdateMn(w.mns[i], u, now, ids));
      Lingers(ViewAt(w, j), ViewAt(w', j), false, false)
  {
    var m := w.mns[i];
    assert MnInv(c, w.kernel, m);
    UpdateConfined(c, m, u, ids);
    ApplySameTmp(c, w, i, j, UpdateOps(c, m, u, ids), UpdateMn(m, u, now, ids), IdSet(ids));
  }

  lemma UpdateTmp(c: Config, w: World, e: Event, j: nat)
    requires WorldInv(c, w) && Shaped(w) && Fresh(w, e) && e.OnUpdate? && j < |w.mns|
    ensures Lingers(ViewAt(w, j), ViewAt(StepWorld(c, w, e), j), Redoes(w, e, j), Leaves(w, e, j))
  {
    var i := Find(w.mns, e.update.hoa);
    if i == |w.mns| {
      assert StepWorld(c, w, e) == w;
    } else if i != j {
      OthersTmp(c, w, i, e.update, e.now, e.ids, j);
    } else {
      OwnTmpAt(c, w, i, e.update, e.now, e.ids);
    }
  }

  lemma OwnTmpAt(c: Config, w: World, i: nat, u: Update, now: int, ids: Ids)
    requires WorldInv(c, w) && Shaped(w) && FreshIds(w.kernel.tunnels, ids) && i < |w.mns|
    ensures var m := w.mns[i]; var w' := Apply(w, i, UpdateOps(c, m, u, ids), UpdateMn(m, u, now, ids));
      Lingers(ViewAt(w, i), ViewAt(w', i), !Decide(m, u).Stay?, LeavesNat(m, u))
  {
    var m := w.mns[i];
    assert MnInv(c, w.kernel, m);
    OwnTmp(c, w.kernel, m, u, ids);
    assert UpdateMn(m, u, now, ids).home == m.home;
  }

  lemma ProbeTmp(c: Config, w: World, e: Event, j: nat)
    requires Shaped(w) && e.OnProbe? && j < |w.mns|
    ensures Lingers(ViewAt(w, j), ViewAt(StepWorld(c, w, e), j), false, false)
  {
    var i := Find(w.mns, e.probe.hoa);
    if i < |w.mns| {
      assert ProbeMn(w.mns[i], e.probe, e.now).home == w.mns[i].home;
    }
  }

  lemma StepTmp(c: Config, w: World, e: Event, j: nat)
    requires WorldInv(c, w) && Shaped(w) && Fresh(w, e) && j < |w.mns|
    ensures Lingers(ViewAt(w, j), ViewAt(StepWorld(c, w, e), j), Redoes(w, e, j), Leaves(w, e, j))
  {
    match e
    case OnProbe(_, _) => ProbeTmp(c, w, e, j);
    case OnUpdate(_, _, _) => UpdateTmp(c, w, e, j);
    case OnSweep(now) => SweepTmp(c, w, 0, now, j);
  }

  /** After any legal run from start-up, table 251 holds something for a node
      exactly if the last event that changed its tunnels took it from a NATed IPv4
      to an IPv6 address, and the IPv6 rules left behind number those moves. */
  lemma {:induction false} RunLeftovers(c: Config, homes: seq<Home>, es: seq<Event>, i: nat)
    requires |homes| <= MAX_MN_NUM && DistinctHomes(homes) && i < |homes| && LegalRun(c, Boot(homes), es)
    ensures var v := ViewAt(Run(c, Boot(homes), es), i);
      && (TmpEmpty(v) <==> !LastLeft(c, Boot(homes), es, i))
      && v.rule6 == Departures(c, Boot(homes), es, i)
    decreases |es|
  {
    if es != [] {
      var n := |es| - 1;
      assert es == es[..n] + [es[n]];
      LegalSnoc(c, Boot(homes), es[..n], es[n]);
      RunLeftovers(c, homes, es[..n], i);
      BootInv(c, homes);
      RunInv(c, Boot(homes), es[..n]);
      StepTmp(c, Run(c, Boot(homes), es[..n]), es[n], i);
      RunSnoc(c, Boot(homes), es[..n], es[n]);
    }
  }

  /** After any legal run from start-up, a node's move between foreign addresses is
      make-before-break exactly if the last event that changed its tunnels did not
      take it from a NATed IPv4 to an IPv6 address. */
  lemma AnyMove(c: Config, homes: seq<Home>, es: seq<Event>, i: nat, u: Update, ids: Ids)
    requires |homes| <= MAX_MN_NUM && DistinctHomes(homes) && i < |homes| && LegalRun(c, Boot(homes), es)
    requires var w := Run(c, Boot(homes), es);
      FreshIds(w.kernel.tunnels, ids) && w.mns[i].active != 0 && Moves(w.mns[i], u)
    ensures var w := Run(c, Boot(homes), es);
      NeverInterrupted(c, w.kernel, w.mns[i], u, ids) <==> !LastLeft(c, Boot(homes), es, i)
  {
    var w := Run(c, Boot(homes), es);
    BootInv(c, homes);
    RunInv(c, Boot(homes), es);
    RunLeftovers(c, homes, es, i);
    assert MnInv(c, w.kernel, w.mns[i]);
    MakeBeforeBreak(c, w.kernel, w.mns[i], u, ids);
  }
}
