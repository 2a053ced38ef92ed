/** What the kernel does for a mobile node after any legal run, told by the events
    alone; and which events change it. */
module HomeAgentService {
  import opened Addresses
  import opened HomeAgentKernel
  import opened HomeAgentPlans
  import opened HomeAgentMoves
  import opened HomeAgentRuns
  import opened HomeAgentHistory
  import opened HomeAgentLedger

  // ------------------------------------------------------------- what is forwarded

  /** Packets for the address go into a tunnel of the kind between the two ends. */
  predicate Leads(k: Kernel, dst: Dest, kind: Kind, local: Ip6, remote: Ip6) {
    var id := Lookup(k, dst);
    && id.Some? && id.value in k.tunnels
    && k.tunnels[id.value].kind == kind && k.tunnels[id.value].local == local && k.tunnels[id.value].remote == remote
  }

  /** To a foreign IPv4 address, the way the probe came: through UDP if a NAT changed
      it, between the NAT's address and port and the local end of the tunnel, or the
      second home agent address if the NAT's is special. */
  predicate Served4(c: Config, k: Kernel, h: Home, p: Probe) {
    && Leads(k, D4(h.v4), T44, MapAddr(c.hav4), MapAddr(p.coa))
    && Leads(k, D6(h.v6), T64, MapAddr(c.hav4), MapAddr(p.coa))
    && (h in k.policies <==> p.natIp != p.coa || p.natPort != p.port)
    && (h in k.policies ==>
          var x := k.policies[h];
          && x.dst == p.natIp && x in k.states && k.states[x] == p.natPort
          && (if IsSpecial(p.natIp, c.special) then x.src == c.hav42
              else MapAddr(x.src) == k.tunnels[Lookup(k, D4(h.v4)).value].local))
  }

  predicate Served(c: Config, k: Kernel, h: Home, path: Path, rs: seq<Report>) {
    match path
    case AtHome => Lookup(k, D4(h.v4)).None? && Lookup(k, D6(h.v6)).None? && h !in k.policies
    case On6(coa) =>
      Leads(k, D4(h.v4), T66, c.hav6, coa) && Leads(k, D6(h.v6), T66, c.hav6, coa) && h !in k.policies
    case Via(j) =>
      && j < |Interfaces(rs)|
      && var r := LastOf(rs, Interfaces(rs)[j]); r.Some? && Served4(c, k, h, r.value.probe)
    case Adrift(p) => Served4(c, k, h, p)
  }

  lemma FourServed(c: Config, k: Kernel, m: Mn, p: Probe)
    requires MnInv(c, k, m) && m.active > 0 && Says(m.slots[m.active], p)
    ensures Served4(c, k, m.home, p)
  {
    var v := ViewOf(k, m.home);
    assert Lookup(k, D4(m.home.v4)) == v.main4 && Lookup(k, D6(m.home.v6)) == v.main6;
  }

  lemma SixServed(c: Config, k: Kernel, m: Mn)
    requires MnInv(c, k, m) && m.active < 0
    ensures var h := m.home;
      Leads(k, D4(h.v4), T66, c.hav6, m.coav6) && Leads(k, D6(h.v6), T66, c.hav6, m.coav6) && h !in k.policies
  {
    var v := ViewOf(k, m.home);
    assert v.main4 == Some(m.tnl66) && v.main6 == Some(m.tnl66);
  }

  lemma InStepServed(c: Config, k: Kernel, m: Mn, b: Mark, rs: seq<Report>, path: Path)
    requires MnInv(c, k, m) && InStep(m, b, rs, path)
    ensures Served(c, k, m.home, path, rs)
  {
    match path
    case AtHome =>
      var v := ViewOf(k, m.home);
      assert v.main4.None? && v.tmp4.None? && v.main6.None? && v.tmp6.None?;
    case On6(_) => SixServed(c, k, m);
    case Via(j) =>
      assert SlotSays(m.slots[j + 1], LastOf(rs, Interfaces(rs)[j]));
      FourServed(c, k, m, LastOf(rs, Interfaces(rs)[j]).value.probe);
    case Adrift(p) => FourServed(c, k, m, p);
  }

  lemma HomesApart(homes: seq<Home>)
    requires DistinctHomes(homes)
    ensures Apart6(homes)
  {
  }

  /** The run so far, and the record of node i. */
  lemma InOrder(c: Config, homes: seq<Home>, es: seq<Event>, i: nat)
    requires |homes| <= MAX_MN_NUM && DistinctHomes(homes) && i < |homes| && LegalRun(c, Boot(homes), es)
    ensures var w := Run(c, Boot(homes), es); var m := w.mns[i]; var hoa := homes[i].v6;
      && WorldInv(c, w) && MnInv(c, w.kernel, m) && m.home == homes[i] && Named(w, homes) && Apart6(homes)
      && InStep(m, Heard(es, hoa), Reports(es, hoa), PathOf(es, hoa))
  {
    BootInv(c, homes);
    RunInv(c, Boot(homes), es);
    HomesApart(homes);
    RunNamed(c, homes, es);
    RunTold(c, homes, es, i);
  }

  /** After any legal run from start-up the kernel forwards a node's packets, and
      encapsulates them, just as the last events about it say. */
  lemma RunServes(c: Config, homes: seq<Home>, es: seq<Event>, i: nat)
    requires |homes| <= MAX_MN_NUM && DistinctHomes(homes) && i < |homes| && LegalRun(c, Boot(homes), es)
    ensures var hoa := homes[i].v6;
      Served(c, Run(c, Boot(homes), es).kernel, homes[i], PathOf(es, hoa), Reports(es, hoa))
  {
    var w, hoa := Run(c, Boot(homes), es), homes[i].v6;
    InOrder(c, homes, es, i);
    InStepServed(c, w.kernel, w.mns[i], Heard(es, hoa), Reports(es, hoa), PathOf(es, hoa));
  }

  // ------------------------------------------------------------------- the updates

  /** Tunnels come for the update, and all of these are on its link. */
  ghost predicate Rebuilt(k: Kernel, k': Kernel, link: int) {
    && (exists id :: id in k'.tunnels && id !in k.tunnels)
    && (forall id | id in k'.tunnels && id !in k.tunnels :: k'.tunnels[id].link == link)
  }

  lemma Moved4Links(c: Config, v: View, m: Mn, i: nat, link: int, ids: Ids)
    requires Shape(m) && Installed(c, v, m) && FreshIds(v.tunnels, ids) && i <= NIF
    ensures var t := MovedTo4(c, v, m, i, link, ids).tunnels;
      && t.Keys - v.tunnels.Keys == {ids.t44, ids.t64} && t[ids.t44].link == link && t[ids.t64].link == link
  {
    Moved4Tunnels(c, v, m, i, link, ids);
  }

  lemma Bind4Effect(c: Config, k: Kernel, m: Mn, u: Update, ids: Ids)
    requires MnInv(c, k, m) && FreshIds(k.tunnels, ids) && Decide(m, u).Bind4?
    ensures Decide(m, u).icoa <= NIF
    ensures ExecAll(k, UpdateOps(c, m, u, ids)).tunnels
         == MovedTo4(c, ViewOf(k, m.home), m, Decide(m, u).icoa, u.link, ids).tunnels
  {
    var v, i := ViewOf(k, m.home), Decide(m, u).icoa;
    UpdateConfined(c, m, u, ids);
    ViewSteps(k, m.home, Owned(m) + IdSet(ids), UpdateOps(c, m, u, ids));
    MoveTo4Effect(c, v, m, i, u.link, ids, Owned(m) + IdSet(ids));
  }

  lemma KeysComeWith(k: Kernel, k': Kernel, ids: set<int>, id: int, link: int)
    requires k'.tunnels.Keys - k.tunnels.Keys == ids && id in ids
    requires forall x | x in ids :: x in k'.tunnels && k'.tunnels[x].link == link
    ensures Rebuilt(k, k', link)
  {
    assert id in k'.tunnels && id !in k.tunnels;
    forall x | x in k'.tunnels && x !in k.tunnels
      ensures k'.tunnels[x].link == link
    {
      assert x in k'.tunnels.Keys - k.tunnels.Keys;
    }
  }

  lemma Bind4Rebuilds(c: Config, k: Kernel, m: Mn, u: Update, ids: Ids)
    requires MnInv(c, k, m) && FreshIds(k.tunnels, ids) && Decide(m, u).Bind4?
    ensures Rebuilt(k, ExecAll(k, UpdateOps(c, m, u, ids)), u.link)
  {
    Bind4Effect(c, k, m, u, ids);
    Moved4Links(c, ViewOf(k, m.home), m, Decide(m, u).icoa, u.link, ids);
    KeysComeWith(k, ExecAll(k, UpdateOps(c, m, u, ids)), {ids.t44, ids.t64}, ids.t44, u.link);
  }

  lemma Bind6Rebuilds(c: Config, k: Kernel, m: Mn, u: Update, ids: Ids)
    requires MnInv(c, k, m) && FreshIds(k.tunnels, ids) && Decide(m, u).Bind6?
    ensures Rebuilt(k, ExecAll(k, UpdateOps(c, m, u, ids)), u.link)
  {
    var v := ViewOf(k, m.home);
    UpdateConfined(c, m, u, ids);
    ViewSteps(k, m.home, Owned(m) + IdSet(ids), UpdateOps(c, m, u, ids));
    MoveTo6Effect(c, v, m, u.coa, u.link, ids, Owned(m) + IdSet(ids));
    var v' := MovedTo6(c, v, m, u.coa, u.link, ids);
    assert ids.t66 in v'.tunnels && ids.t66 !in v.tunnels;
    assert v'.tunnels.Keys <= v.tunnels.Keys + {ids.t66} && v'.tunnels[ids.t66].link == u.link;
  }

  lemma ReturnFrees(c: Config, k: Kernel, m: Mn, u: Update, ids: Ids)
    requires MnInv(c, k, m) && Decide(m, u).Return? && m.active != 0
    ensures exists id :: id in k.tunnels && id !in ExecAll(k, UpdateOps(c, m, u, ids)).tunnels
  {
    var v := ViewOf(k, m.home);
    UpdateConfined(c, m, u, ids);
    ViewSteps(k, m.home, Owned(m) + IdSet(ids), UpdateOps(c, m, u, ids));
    GoHomeEffect(c, v, m);
    var id := if m.active < 0 then m.tnl66 else m.tnl44;
    assert id in k.tunnels && id !in Freed(c, v, m).tunnels;
  }

  /** The path changes with the update. */
  predicate Turns(m: Mn, b: Mark, rs: seq<Report>, path: Path, u: Update) {
    Accepted(b, u.seqno) && Directed(path, rs, u.coa, m.home.v6) != path
  }

  lemma TurnsIs(m: Mn, b: Mark, rs: seq<Report>, path: Path, u: Update)
    requires InStep(m, b, rs, path)
    ensures Turns(m, b, rs, path, u) <==>
      (Decide(m, u).Bind4? || Decide(m, u).Bind6? || (Decide(m, u).Return? && m.active != 0))
  {
    if Accepted(b, u.seqno) && IsV4Mapped(u.coa) && u.coa.w3 != INADDR_ANY {
      Turns4(m, b, rs, path, u);
    }
  }

  lemma Turns4(m: Mn, b: Mark, rs: seq<Report>, path: Path, u: Update)
    requires InStep(m, b, rs, path) && Accepted(b, u.seqno) && IsV4Mapped(u.coa) && u.coa.w3 != INADDR_ANY
    ensures Turns(m, b, rs, path, u) <==> Decide(m, u).Bind4?
    ensures Decide(m, u).Bind4? || Decide(m, u).Stay?
  {
    SlotFound(m.slots, rs, u.coa.w3);
  }

  lemma ReturnsHome(m: Mn, u: Update)
    requires |m.slots| == NIF + 1 && Decide(m, u).Return?
    ensures u.coa == m.home.v6 && !IsV4Mapped(u.coa)
  {
  }

  /** What an update does to the kernel and to its node's record, if it turns the
      path and if it does not. */
  ghost predicate Answered(k: Kernel, k': Kernel, m: Mn, m': Mn, b: Mark, u: Update, turned: bool) {
    && (k' == k <==> !turned)
    && (turned ==> (exists id :: id in k.tunnels && id !in k'.tunnels) || Rebuilt(k, k', u.link))
    && (turned && (u.coa != m.home.v6 || IsV4Mapped(u.coa)) ==> Rebuilt(k, k', u.link))
    && (!turned ==> m' == m.(lastBuSeq := b.seqno, lastBuTime := b.at))
  }

  lemma UpdateAnswered(c: Config, k: Kernel, m: Mn, b: Mark, rs: seq<Report>, path: Path, u: Update, now: int, ids: Ids)
    requires MnInv(c, k, m) && FreshIds(k.tunnels, ids) && InStep(m, b, rs, path)
    ensures Answered(k, ExecAll(k, UpdateOps(c, m, u, ids)), m, UpdateMn(m, u, now, ids),
                     if Accepted(b, u.seqno) then Mark(u.seqno, now) else b, u, Turns(m, b, rs, path, u))
  {
    TurnsIs(m, b, rs, path, u);
    match Decide(m, u)
    case Stay =>
    case Bind4(_) => Bind4Rebuilds(c, k, m, u, ids);
    case Bind6 => Bind6Rebuilds(c, k, m, u, ids);
    case Return =>
      ReturnsHome(m, u);
      if m.active != 0 {
        ReturnFrees(c, k, m, u, ids);
      }
  }

  /** After any legal run, a node's update changes the kernel exactly if it turns the
      path: one that repeats what is in force, an old one, and one for an IPv4
      address no interface has touch number and time at most. One for a foreign
      address that does turn it is answered with new tunnels on its link. */
  lemma UpdateChanges(c: Config, homes: seq<Home>, es: seq<Event>, u: Update, now: int, ids: Ids, i: nat)
    requires |homes| <= MAX_MN_NUM && DistinctHomes(homes) && i < |homes| && u.hoa == homes[i].v6
    requires LegalRun(c, Boot(homes), es) && FreshIds(Run(c, Boot(homes), es).kernel.tunnels, ids)
    ensures var w := Run(c, Boot(homes), es); var es' := es + [OnUpdate(u, now, ids)];
      var w' := Run(c, Boot(homes), es');
      Answered(w.kernel, w'.kernel, w.mns[i], w'.mns[i], Heard(es', u.hoa), u, PathOf(es', u.hoa) != PathOf(es, u.hoa))
  {
    var w, e := Run(c, Boot(homes), es), OnUpdate(u, now, ids);
    var b, rs, path := Heard(es, u.hoa), Reports(es, u.hoa), PathOf(es, u.hoa);
    InOrder(c, homes, es, i);
    RunSnoc(c, Boot(homes), es, e);
    assert (es + [e])[..|es|] == es;
    FindNamed(w, homes, u.hoa, i);
    UpdateAnswered(c, w.kernel, w.mns[i], b, rs, path, u, now, ids);
  }

  // --------------------------------------------------------------------- the sweep

  /** Node j is as it was. */
  ghost predicate Left(w: World, w': World, j: nat) {
    && j < |w.mns| && j < |w'.mns| && w'.mns[j] == w.mns[j]
    && SameFor(w.kernel, w'.kernel, w.mns[j].home, Owned(w.mns[j]))
  }

  lemma LeftOn(w: World, w1: World, w2: World, j: nat)
    requires Left(w, w1, j) && Left(w1, w2, j)
    ensures Left(w, w2, j)
  {
    SameForTrans(w.kernel, w1.kernel, w2.kernel, w.mns[j].home, Owned(w.mns[j]));
  }

  lemma ExpireElsewhere(c: Config, w: World, i: nat, j: nat)
    requires WorldInv(c, w) && Shaped(w) && i < |w.mns| && j < |w.mns| && j != i
    ensures Left(w, Apply(w, i, Expire(c, w.mns[i]), ExpireMn(w.mns[i])), j)
  {
    var m, o := w.mns[i], w.mns[j];
    assert MnInv(c, w.kernel, m) && MnInv(c, w.kernel, o);
    ExpireConfined(c, m);
    RoutesStayWithin(c, w.kernel, o);
    ConfinedFrame(w.kernel, Expire(c, m), m.home, Owned(m), o.home, Owned(o));
  }

  lemma SameLeft(w: World, j: nat)
    requires j < |w.mns|
    ensures Left(w, w, j)
  {
  }

  lemma SweepOneElsewhere(c: Config, w: World, i: nat, now: int, j: nat)
    requires WorldInv(c, w) && Shaped(w) && i < |w.mns| && j < |w.mns| && !Idle(w.mns[j], now)
    ensures Left(w, SweepOne(c, w, i, now), j)
  {
    if Idle(w.mns[i], now) {
      ExpireElsewhere(c, w, i, j);
    } else {
      SameLeft(w, j);
    }
  }

  lemma {:induction false} SweepElsewhere(c: Config, w: World, i: nat, now: int, j: nat)
    requires WorldInv(c, w) && Shaped(w) && i <= |w.mns| && j < |w.mns| && !Idle(w.mns[j], now)
    ensures Left(w, SweepFrom(c, w, i, now), j)
    decreases |w.mns| - i
  {
    if i < |w.mns| {
      var w1 := SweepOne(c, w, i, now);
      SweepOneKeeps(c, w, i, now);
      SweepOneElsewhere(c, w, i, now, j);
      SweepElsewhere(c, w1, i + 1, now, j);
      LeftOn(w, w1, SweepFrom(c, w1, i + 1, now), j);
    }
  }

  /** A sweep after any legal run: a node not heard for over a minute ends up unbound
      and owns nothing; for any other one its record, its tunnels, its routes, its
      rules and its policies are left as they are. */
  lemma SweepExactly(c: Config, homes: seq<Home>, es: seq<Event>, now: int, i: nat)
    requires |homes| <= MAX_MN_NUM && DistinctHomes(homes) && i < |homes| && LegalRun(c, Boot(homes), es)
    ensures var w, w' := Run(c, Boot(homes), es), Run(c, Boot(homes), es + [OnSweep(now)]);
      if now - Heard(es, homes[i].v6).at > 60 then OwnsNothing(w', i)
      else Left(w, w', i)
  {
    InOrder(c, homes, es, i);
    RunSnoc(c, Boot(homes), es, OnSweep(now));
    var w := Run(c, Boot(homes), es);
    if now - Heard(es, homes[i].v6).at > 60 {
      IdleOwnsNothing(c, homes, es, now, i);
    } else {
      SweepElsewhere(c, w, 0, now, i);
    }
  }
}
