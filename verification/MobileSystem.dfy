/** Every run of the mobile node over its real tunnel pool: handoffs at the times
    of a clock, periodic updates, and what other code configures. */
module MobileSystem {
  import opened Addresses
  import opened TunnelPool
  import opened MobileKernel
  import opened MobilePlans
  import opened MobileHandoff
  import opened MobileRuns

  // --------------------------------------------------------- what the pool answers

  /** The tunnel an add gives up. */
  function GivenUp(es: Entries, key: Key): set<int> {
    if IndexOf(es, key) == |es| == SEGMENT then {es[Victim(es)].ifindex} else {}
  }

  /** The tunnel it returns. */
  function Given(es: Entries, kind: int, key: Key, now: int, id: int): int {
    var es' := Use(es, kind, key, now, id);
    if SlotFor(es, key) < |es'| then es'[SlotFor(es, key)].ifindex else 0
  }

  lemma GivenUpIn(p: State, kind: int, key: Key)
    requires p.Ok() && TunnelPool.InUse(kind)
    ensures GivenUp(p.segments.Get(kind), key) <= IdsOf(p.segments.Get(kind)) <= p.live
    ensures p.next !in p.live
  {
    OkParts(p, kind);
    OkIds(p);
  }

  lemma GivenIs(es: Entries, kind: int, key: Key, now: int, id: int)
    requires SegmentOk(es, kind, id) && now < MAX_TIME && id > 0
    ensures Given(es, kind, key, now, id) == if IndexOf(es, key) < |es| then es[IndexOf(es, key)].ifindex else id
    ensures Given(es, kind, key, now, id) in IdsOf(Use(es, kind, key, now, id))
    ensures Given(es, kind, key, now, id) > 0
  {
    UseOk(es, kind, key, now, id);
  }

  lemma AddedLiveIs(p: State, kind: int, key: Key, now: int)
    requires p.Ok() && TunnelPool.InUse(kind)
    ensures var es := p.segments.Get(kind);
      Added(p, kind, key, now).live == if IndexOf(es, key) < |es| then p.live else p.live - GivenUp(es, key) + {p.next}
  {
    OkParts(p, kind);
  }

  lemma AddedIsGiven(p: State, kind: int, key: Key, now: int)
    requires p.Ok() && TunnelPool.InUse(kind) && now < MAX_TIME
    ensures var es := p.segments.Get(kind); var id := Given(es, kind, key, now, p.next);
      && Added(p, kind, key, now).live == p.live - GivenUp(es, key) + {id}
      && (id == p.next || (id in p.live && GivenUp(es, key) == {}))
  {
    var es := p.segments.Get(kind);
    OkParts(p, kind);
    GivenIs(es, kind, key, now, p.next);
    AddedLiveIs(p, kind, key, now);
    if IndexOf(es, key) < |es| {
      InLive(p, kind, IndexOf(es, key));
    }
  }

  /** An add for one kind, as the kernel sees it. */
  lemma AddedLive(p: State, kind: int, key: Key, now: int)
    requires p.Ok() && TunnelPool.InUse(kind) && now < MAX_TIME
    ensures var es := p.segments.Get(kind); var id := Given(es, kind, key, now, p.next);
      && Added(p, kind, key, now).live == p.live - GivenUp(es, key) + {id}
      && p.live - Added(p, kind, key, now).live == GivenUp(es, key)
  {
    GivenUpIn(p, kind, key);
    AddedIsGiven(p, kind, key, now);
  }

  function Key6(c: Config, coa: Ip6, ifindex: int): Key {
    Key(coa, c.hav6, ifindex)
  }

  function Key4(c: Config, coa: Ip4, ifindex: int): Key {
    Key(MapAddr(coa), MapAddr(c.hav4), ifindex)
  }

  const NO_PICKS := Picks(0, {}, 0, {}, 0, {})

  function Picks6(p: State, key: Key, now: int): Picks {
    var es := p.segments.s66;
    Picks(Given(es, 66, key, now, p.next), GivenUp(es, key), 0, {}, 0, {})
  }

  /** For IPv4 the 6-in-4 tunnel is asked for first. */
  ghost function Picks4(p: State, key: Key, now: int): Picks
    requires p.Ok()
  {
    var p1 := Added(p, 64, key, now);
    Picks(0, {}, Given(p.segments.s64, 64, key, now, p.next), GivenUp(p.segments.s64, key),
          Given(p1.segments.s44, 44, key, now, p1.next), GivenUp(p1.segments.s44, key))
  }

  ghost function Added6(p: State, key: Key, now: int): (q: State)
    requires p.Ok() && now < MAX_TIME
    ensures q.Ok()
  {
    AddedOk(p, 66, key, now);
    Added(p, 66, key, now)
  }

  ghost function Added4(p: State, key: Key, now: int): (q: State)
    requires p.Ok() && now < MAX_TIME
    ensures q.Ok()
  {
    var p1 := Added(p, 64, key, now);
    AddedOk(p, 64, key, now);
    AddedOk(p1, 44, key, now);
    Added(p1, 44, key, now)
  }

  /** The pool's answers for a handoff. */
  ghost function PicksFor(c: Config, m: Mobile, p: State, t: Target, ifindex: int, now: int): Picks
    requires p.Ok()
  {
    match Decide(c, m, t, ifindex)
    case Bind6 => Picks6(p, Key6(c, t.coa6, ifindex), now)
    case Bind4 => Picks4(p, Key4(c, t.coa4, ifindex), now)
    case _ => NO_PICKS
  }

  /** ... and what it becomes. */
  ghost function PoolAfter(c: Config, m: Mobile, p: State, t: Target, ifindex: int, now: int): (q: State)
    requires p.Ok() && now < MAX_TIME
    ensures q.Ok()
  {
    match Decide(c, m, t, ifindex)
    case Bind6 => Added6(p, Key6(c, t.coa6, ifindex), now)
    case Bind4 => Added4(p, Key4(c, t.coa4, ifindex), now)
    case _ => p
  }

  lemma Picks6Is(p: State, key: Key, now: int)
    requires p.Ok() && now < MAX_TIME
    ensures var picks, q := Picks6(p, key, now), Added6(p, key, now);
      && picks.t66 > 0 && picks.gone66 <= IdsOf(p.segments.s66)
      && q.live == p.live - picks.gone66 + {picks.t66}
      && q.segments == p.segments.(s66 := Use(p.segments.s66, 66, key, now, p.next))
  {
    OkParts(p, 66);
    GivenIs(p.segments.s66, 66, key, now, p.next);
    GivenUpIn(p, 66, key);
    AddedLive(p, 66, key, now);
  }

  lemma Picks4Is(p: State, key: Key, now: int)
    requires p.Ok() && now < MAX_TIME
    ensures var picks, q := Picks4(p, key, now), Added4(p, key, now); var p1 := Added(p, 64, key, now);
      && picks.t64 > 0 && picks.t44 > 0
      && picks.gone64 <= IdsOf(p.segments.s64) && picks.gone44 <= IdsOf(p.segments.s44)
      && p1.Ok() && picks.t64 in IdsOf(p1.segments.s64) && p1.segments.s44 == p.segments.s44
      && q.live == p.live - picks.gone64 + {picks.t64} - picks.gone44 + {picks.t44}
      && q.segments == p1.segments.(s44 := Use(p1.segments.s44, 44, key, now, p1.next))
      && p1.segments == p.segments.(s64 := Use(p.segments.s64, 64, key, now, p.next))
  {
    var p1 := Added(p, 64, key, now);
    AddedOk(p, 64, key, now);
    OkParts(p, 64);
    OkParts(p1, 44);
    GivenIs(p.segments.s64, 64, key, now, p.next);
    GivenIs(p1.segments.s44, 44, key, now, p1.next);
    GivenUpIn(p, 64, key);
    GivenUpIn(p1, 44, key);
    AddedLive(p, 64, key, now);
    AddedLive(p1, 44, key, now);
  }

  /** Whatever the clock says, the pool hands out real tunnels. */
  lemma PicksFit(c: Config, m: Mobile, p: State, t: Target, ifindex: int, now: int)
    requires p.Ok() && now < MAX_TIME
    ensures Fits(Decide(c, m, t, ifindex), PicksFor(c, m, p, t, ifindex, now))
  {
    match Decide(c, m, t, ifindex)
    case Bind6 => Picks6Is(p, Key6(c, t.coa6, ifindex), now);
    case Bind4 =>
      var key := Key4(c, t.coa4, ifindex);
      Picks4Is(p, key, now);
      OkIds(Added(p, 64, key, now));
    case _ =>
  }

  // ------------------------------------------------------------------------- runs

  // a handoff at a time; the periodic worker, with whether its five seconds are
  // over or it is forced; a change the other code makes to the interfaces, the
  // preferred one or consecutive_bu
  datatype Event = Handoff(t: Target, ifindex: int, now: int) | Tick(due: bool)
                 | Configure(index: int, burst: bool, nics: seq<Iface>)

  datatype System = System(net: Net, m: Mobile, pool: State)

  const EMPTY := Net({}, None, None, None, None, false, 0, None, false, None, 0)

  /** mn_init and tnl_init */
  function Boot(): System {
    System(EMPTY,
           Mobile(AtHome, IN6ADDR_ANY, INADDR_ANY, 0, 0, 0, 0, 0,
                  seq(NIF, _ => Iface(0, IN6ADDR_ANY, INADDR_ANY)), 1, [], false),
           EmptyPool())
  }

  lemma BootIs()
    ensures Boot().pool.Ok() && Boot().net.live == Boot().pool.live
    ensures Installed(Boot().net, Boot().m) && Numbered(Boot().m) && Routed(Boot().net, Boot().m)
  {
  }

  /** bu_worker */
  function Periodic(m: Mobile, due: bool): Mobile {
    if !due || m.coaType == AtHome then m
    else Announce(m, if m.coaType == V6 then m.coav6 else MapAddr(m.coav4), 1)
  }

  function Configured(m: Mobile, index: int, burst: bool, nics: seq<Iface>): Mobile {
    m.(preferred := index, consecutive := burst, ifaces := nics)
  }

  predicate InTime(e: Event) {
    e.Handoff? ==> e.now < MAX_TIME
  }

  predicate AllInTime(es: seq<Event>) {
    forall i | 0 <= i < |es| :: InTime(es[i])
  }

  ghost function HandedOff(c: Config, s: System, t: Target, ifindex: int, now: int): (s': System)
    requires s.pool.Ok() && now < MAX_TIME
    ensures s'.pool.Ok()
  {
    var p := PicksFor(c, s.m, s.pool, t, ifindex, now);
    System(NetAfter(c, s.net, s.m, t, ifindex, p), After(c, s.m, t, ifindex, p),
        PoolAfter(c, s.m, s.pool, t, ifindex, now))
  }

  ghost function Next(c: Config, s: System, e: Event): (s': System)
    requires s.pool.Ok() && InTime(e)
    ensures s'.pool.Ok()
  {
    match e
    case Handoff(t, ifindex, now) => HandedOff(c, s, t, ifindex, now)
    case Tick(due) => s.(m := Periodic(s.m, due))
    case Configure(index, burst, nics) => s.(m := Configured(s.m, index, burst, nics))
  }

  /** From the start of the program. */
  ghost function Run(c: Config, es: seq<Event>): (s: System)
    requires AllInTime(es)
    ensures s.pool.Ok()
    decreases |es|
  {
    if es == [] then
      BootIs();
      Boot()
    else
      Next(c, Run(c, es[..|es| - 1]), es[|es| - 1])
  }

  lemma RunLast(c: Config, es: seq<Event>, k: nat)
    requires AllInTime(es) && k < |es|
    ensures Run(c, es[..k + 1]) == Next(c, Run(c, es[..k]), es[k])
  {
    assert es[..k + 1][..k] == es[..k];
  }

  // ------------------------------------------------ the kernel's tunnels are the pool's

  function Switch6(m: Mobile, coa: Ip6, id: int): seq<Op> {
    TmpUp(id, id) + RulesUp() + Swap6(m, coa, id) + TmpDown(id, id)
  }

  function Switch4(m: Mobile, coa: Ip4, nat1: bool, n4: int, n6: int): seq<Op> {
    TmpUp(n4, n6) + EncapSwap(m, coa, nat1) + RulesUp() + (Release(m) + MainUp(n4, n6)) + TmpDown(n4, n6)
  }

  lemma MoveTo6Parts(m: Mobile, coa: Ip6, p: Picks)
    ensures MoveTo6(m, coa, p) == FromPool(p.gone66, p.t66) + Switch6(m, coa, p.t66)
  {
  }

  lemma MoveTo4Parts(m: Mobile, coa: Ip4, nat1: bool, p: Picks)
    ensures MoveTo4(m, coa, nat1, p)
      == FromPool(p.gone64, p.t64) + FromPool(p.gone44, p.t44) + Switch4(m, coa, nat1, p.t44, p.t64)
  {
  }

  predicate NoTunnels(ops: seq<Op>) {
    forall i | 0 <= i < |ops| :: !ops[i].TunnelUp? && !ops[i].TunnelsDown?
  }

  lemma {:induction false} NoTunnelsIs(n: Net, ops: seq<Op>)
    requires NoTunnels(ops)
    ensures Steps(n, ops).live == n.live
    decreases ops
  {
    if ops != [] {
      NoTunnelsIs(Step(n, ops[0]), ops[1..]);
    }
  }

  lemma FromPoolLive(n: Net, gone: set<int>, id: int, ops: seq<Op>)
    ensures Steps(n, FromPool(gone, id) + ops) == Steps(Pooled(n, gone, id), ops)
  {
    FromPoolIs(n, gone, id, {});
    StepsConcat(n, {}, FromPool(gone, id), ops);
  }

  lemma NoTunnelsCat(a: seq<Op>, b: seq<Op>)
    requires NoTunnels(a) && NoTunnels(b)
    ensures NoTunnels(a + b)
  {
  }

  lemma NoTunnelsParts(m: Mobile, coa6: Ip6, coa: Ip4, nat1: bool, n4: int, n6: int)
    ensures NoTunnels(TmpUp(n4, n6)) && NoTunnels(RulesUp()) && NoTunnels(TmpDown(n4, n6)) && NoTunnels(MainUp(n4, n6))
    ensures NoTunnels(Release(m)) && NoTunnels(EncapOff(m)) && NoTunnels(Return(m))
    ensures NoTunnels(EncapSwap(m, coa, nat1)) && NoTunnels([DstPolicyAdd, DstStateAdd(coa6)])
  {
  }

  lemma NoTunnels6(m: Mobile, coa: Ip6, id: int)
    ensures NoTunnels(Switch6(m, coa, id))
  {
    NoTunnelsParts(m, coa, INADDR_ANY, false, id, id);
    NoTunnelsCat(EncapOff(m), Release(m));
    NoTunnelsCat(EncapOff(m) + Release(m), MainUp(id, id));
    NoTunnelsCat(EncapOff(m) + Release(m) + MainUp(id, id), [DstPolicyAdd, DstStateAdd(coa)]);
    NoTunnelsCat(TmpUp(id, id), RulesUp());
    NoTunnelsCat(TmpUp(id, id) + RulesUp(), Swap6(m, coa, id));
    NoTunnelsCat(TmpUp(id, id) + RulesUp() + Swap6(m, coa, id), TmpDown(id, id));
  }

  lemma NoTunnels4(m: Mobile, coa: Ip4, nat1: bool, n4: int, n6: int)
    ensures NoTunnels(Switch4(m, coa, nat1, n4, n6))
  {
    NoTunnelsParts(m, IN6ADDR_ANY, coa, nat1, n4, n6);
    NoTunnelsCat(Release(m), MainUp(n4, n6));
    NoTunnelsCat(TmpUp(n4, n6), EncapSwap(m, coa, nat1));
    NoTunnelsCat(TmpUp(n4, n6) + EncapSwap(m, coa, nat1), RulesUp());
    NoTunnelsCat(TmpUp(n4, n6) + EncapSwap(m, coa, nat1) + RulesUp(), Release(m) + MainUp(n4, n6));
    NoTunnelsCat(TmpUp(n4, n6) + EncapSwap(m, coa, nat1) + RulesUp() + (Release(m) + MainUp(n4, n6)), TmpDown(n4, n6));
  }

  lemma MoveTo6Live(n: Net, m: Mobile, coa: Ip6, p: Picks)
    ensures Steps(n, MoveTo6(m, coa, p)).live == n.live - p.gone66 + {p.t66}
  {
    MoveTo6Parts(m, coa, p);
    FromPoolLive(n, p.gone66, p.t66, Switch6(m, coa, p.t66));
    NoTunnels6(m, coa, p.t66);
    NoTunnelsIs(Pooled(n, p.gone66, p.t66), Switch6(m, coa, p.t66));
  }

  lemma MoveTo4Live(n: Net, m: Mobile, coa: Ip4, nat1: bool, p: Picks)
    ensures Steps(n, MoveTo4(m, coa, nat1, p)).live == n.live - p.gone64 + {p.t64} - p.gone44 + {p.t44}
  {
    var rest := Switch4(m, coa, nat1, p.t44, p.t64);
    MoveTo4Parts(m, coa, nat1, p);
    FromPoolLive(n, p.gone64, p.t64, FromPool(p.gone44, p.t44));
    FromPoolIs(Pooled(n, p.gone64, p.t64), p.gone44, p.t44, {});
    StepsConcat(n, {}, FromPool(p.gone64, p.t64) + FromPool(p.gone44, p.t44), rest);
    NoTunnels4(m, coa, nat1, p.t44, p.t64);
    NoTunnelsIs(Pooled4(n, p), rest);
  }

  lemma HandoffLive(c: Config, s: System, t: Target, ifindex: int, now: int)
    requires s.pool.Ok() && now < MAX_TIME && s.net.live == s.pool.live
    ensures var s' := HandedOff(c, s, t, ifindex, now); s'.net.live == s'.pool.live
  {
    var p := PicksFor(c, s.m, s.pool, t, ifindex, now);
    match Decide(c, s.m, t, ifindex)
    case Bind6 =>
      MoveTo6Live(s.net, s.m, t.coa6, p);
      Picks6Is(s.pool, Key6(c, t.coa6, ifindex), now);
    case Bind4 =>
      MoveTo4Live(s.net, s.m, t.coa4, t.nat1, p);
      Picks4Is(s.pool, Key4(c, t.coa4, ifindex), now);
    case GoHome => NoTunnelsIs(s.net, Return(s.m));
    case _ =>
  }

  lemma TickNumbers(m: Mobile, due: bool)
    ensures SameBinding(Periodic(m, due), m) && (Numbered(m) ==> Numbered(Periodic(m, due)))
  {
    AnnounceIs(m, if m.coaType == V6 then m.coav6 else MapAddr(m.coav4), 1);
  }

  lemma NextTunnels(c: Config, s: System, e: Event)
    requires s.pool.Ok() && InTime(e) && s.net.live == s.pool.live && Numbered(s.m)
    ensures var s' := Next(c, s, e); s'.net.live == s'.pool.live && Numbered(s'.m)
  {
    match e
    case Handoff(t, ifindex, now) =>
      HandoffLive(c, s, t, ifindex, now);
      HandoffAnnounces(c, s.m, t, ifindex, PicksFor(c, s.m, s.pool, t, ifindex, now));
    case Tick(due) => TickNumbers(s.m, due);
    case Configure(_, _, _) =>
  }

  /** After any run, whatever the clock does: the kernel's tunnels are those of the
      pool, and the updates are numbered from 1 without a gap. */
  lemma {:induction false} RunTunnels(c: Config, es: seq<Event>)
    requires AllInTime(es)
    ensures var s := Run(c, es); s.net.live == s.pool.live && Numbered(s.m)
    decreases |es|
  {
    if es == [] {
      BootIs();
    } else {
      var k := |es| - 1;
      RunTunnels(c, es[..k]);
      NextTunnels(c, Run(c, es[..k]), es[k]);
    }
  }

  // ------------------------------------------------------------- what is installed

  /** A handoff that leaves an old encapsulation behind. */
  predicate LeavesEncap(c: Config, s: System, e: Event) {
    e.Handoff? && KeepsOldEncap(c, s.m, e.t, e.ifindex)
  }

  /** ... or old routes. */
  predicate LeavesRoutes(c: Config, s: System, e: Event) {
    e.Handoff? && HomeFromV4(c, s.m, e.t, e.ifindex)
  }

  lemma NextInstalled(c: Config, s: System, e: Event)
    requires s.pool.Ok() && InTime(e) && Installed(s.net, s.m)
    ensures var s' := Next(c, s, e); Installed(s'.net, s'.m) <==> !LeavesEncap(c, s, e)
  {
    match e
    case Handoff(t, ifindex, now) =>
      PicksFit(c, s.m, s.pool, t, ifindex, now);
      HandoffInstalled(c, s.net, s.m, t, ifindex, PicksFor(c, s.m, s.pool, t, ifindex, now));
    case Tick(due) => TickNumbers(s.m, due);
    case Configure(_, _, _) =>
  }

  lemma NextRouted(c: Config, s: System, e: Event)
    requires s.pool.Ok() && InTime(e) && Installed(s.net, s.m) && Routed(s.net, s.m)
    ensures var s' := Next(c, s, e); (Routed(s'.net, s'.m) <==> !LeavesRoutes(c, s, e)) && s'.net.faults == s.net.faults
  {
    match e
    case Handoff(t, ifindex, now) =>
      PicksFit(c, s.m, s.pool, t, ifindex, now);
      HandoffRouted(c, s.net, s.m, t, ifindex, PicksFor(c, s.m, s.pool, t, ifindex, now));
    case Tick(due) => TickNumbers(s.m, due);
    case Configure(_, _, _) =>
  }

  ghost predicate InstalledNow(c: Config, es: seq<Event>)
    requires AllInTime(es)
  {
    Installed(Run(c, es).net, Run(c, es).m)
  }

  ghost predicate RoutedNow(c: Config, es: seq<Event>)
    requires AllInTime(es)
  {
    Routed(Run(c, es).net, Run(c, es).m)
  }

  ghost predicate LeavesEncapAt(c: Config, es: seq<Event>, k: nat)
    requires AllInTime(es) && k < |es|
  {
    LeavesEncap(c, Run(c, es[..k]), es[k])
  }

  ghost predicate LeavesRoutesAt(c: Config, es: seq<Event>, k: nat)
    requires AllInTime(es) && k < |es|
  {
    LeavesRoutes(c, Run(c, es[..k]), es[k])
  }

  ghost predicate NeverLeavesEncap(c: Config, es: seq<Event>)
    requires AllInTime(es)
  {
    forall k | 0 <= k < |es| :: !LeavesEncapAt(c, es, k)
  }

  ghost predicate NeverLeavesRoutes(c: Config, es: seq<Event>)
    requires AllInTime(es)
  {
    forall k | 0 <= k < |es| :: !LeavesRoutesAt(c, es, k)
  }

  lemma InstalledOn(c: Config, es: seq<Event>, k: nat)
    requires AllInTime(es) && k < |es| && InstalledNow(c, es[..k])
    ensures InstalledNow(c, es[..k + 1]) <==> !LeavesEncapAt(c, es, k)
  {
    RunLast(c, es, k);
    NextInstalled(c, Run(c, es[..k]), es[k]);
  }

  lemma RoutedOn(c: Config, es: seq<Event>, k: nat)
    requires AllInTime(es) && k < |es| && InstalledNow(c, es[..k]) && RoutedNow(c, es[..k])
    ensures RoutedNow(c, es[..k + 1]) <==> !LeavesRoutesAt(c, es, k)
    ensures Run(c, es[..k + 1]).net.faults == Run(c, es[..k]).net.faults
  {
    RunLast(c, es, k);
    NextRouted(c, Run(c, es[..k]), es[k]);
  }

  lemma {:induction false} InstalledAt(c: Config, es: seq<Event>, k: nat)
    requires AllInTime(es) && k <= |es| && forall j | 0 <= j < k :: !LeavesEncapAt(c, es, j)
    ensures InstalledNow(c, es[..k])
    decreases k
  {
    if k == 0 {
      BootIs();
    } else {
      InstalledAt(c, es, k - 1);
      InstalledOn(c, es, k - 1);
    }
  }

  lemma {:induction false} RoutedAt(c: Config, es: seq<Event>, k: nat)
    requires AllInTime(es) && k <= |es| && NeverLeavesEncap(c, es)
    requires forall j | 0 <= j < k :: !LeavesRoutesAt(c, es, j)
    ensures RoutedNow(c, es[..k]) && Run(c, es[..k]).net.faults == 0
    decreases k
  {
    if k == 0 {
      BootIs();
    } else {
      RoutedAt(c, es, k - 1);
      InstalledAt(c, es, k - 1);
      RoutedOn(c, es, k - 1);
    }
  }

  ghost predicate AlwaysInstalled(c: Config, es: seq<Event>)
    requires AllInTime(es)
  {
    forall k | 0 <= k <= |es| :: InstalledNow(c, es[..k])
  }

  /** The kernel holds just what the record says after every event of a run, with
      whatever clock, exactly if none of its handoffs leaves an old encapsulation. */
  lemma RunInstalled(c: Config, es: seq<Event>)
    requires AllInTime(es)
    ensures AlwaysInstalled(c, es) <==> NeverLeavesEncap(c, es)
  {
    if NeverLeavesEncap(c, es) {
      forall k | 0 <= k <= |es|
        ensures InstalledNow(c, es[..k])
      {
        InstalledAt(c, es, k);
      }
    }
    if AlwaysInstalled(c, es) {
      forall k | 0 <= k < |es|
        ensures !LeavesEncapAt(c, es, k)
      {
        assert InstalledNow(c, es[..k]) && InstalledNow(c, es[..k + 1]);
        InstalledOn(c, es, k);
      }
    }
  }

  lemma RoutedSoFar(c: Config, es: seq<Event>, k: nat)
    requires AllInTime(es) && NeverLeavesEncap(c, es) && k < |es|
    requires RoutedNow(c, es[..k]) && RoutedNow(c, es[..k + 1])
    ensures !LeavesRoutesAt(c, es, k)
  {
    InstalledAt(c, es, k);
    RoutedOn(c, es, k);
  }

  lemma FaultFree(c: Config, es: seq<Event>)
    requires AllInTime(es) && NeverLeavesEncap(c, es) && NeverLeavesRoutes(c, es)
    ensures Run(c, es).net.faults == 0
  {
    assert es[..|es|] == es;
    RoutedAt(c, es, |es|);
  }

  ghost predicate AlwaysRouted(c: Config, es: seq<Event>)
    requires AllInTime(es)
  {
    forall k | 0 <= k <= |es| :: RoutedNow(c, es[..k])
  }

  lemma AlwaysRoutedIf(c: Config, es: seq<Event>)
    requires AllInTime(es) && NeverLeavesEncap(c, es) && NeverLeavesRoutes(c, es)
    ensures AlwaysRouted(c, es)
  {
    forall k | 0 <= k <= |es|
      ensures RoutedNow(c, es[..k])
    {
      RoutedAt(c, es, k);
    }
  }

  lemma AlwaysRoutedOnlyIf(c: Config, es: seq<Event>)
    requires AllInTime(es) && NeverLeavesEncap(c, es) && AlwaysRouted(c, es)
    ensures NeverLeavesRoutes(c, es)
  {
    forall k | 0 <= k < |es|
      ensures !LeavesRoutesAt(c, es, k)
    {
      assert RoutedNow(c, es[..k]) && RoutedNow(c, es[..k + 1]);
      RoutedSoFar(c, es, k);
    }
  }

  /** Table 252 is in step with the binding after every event of such a run exactly
      if it never goes home straight from IPv4; and then no add is turned down. */
  lemma RunRouted(c: Config, es: seq<Event>)
    requires AllInTime(es) && NeverLeavesEncap(c, es)
    ensures AlwaysRouted(c, es) <==> NeverLeavesRoutes(c, es)
    ensures NeverLeavesRoutes(c, es) ==> Run(c, es).net.faults == 0
  {
    if NeverLeavesRoutes(c, es) {
      FaultFree(c, es);
      AlwaysRoutedIf(c, es);
    }
    if AlwaysRouted(c, es) {
      AlwaysRoutedOnlyIf(c, es);
    }
  }

  /** Ending the program after such a run leaves nothing, even where a way home from
      IPv4 left routes. */
  lemma RunEnds(c: Config, es: seq<Event>)
    requires AllInTime(es) && NeverLeavesEncap(c, es)
    ensures var s := Run(c, es); Bare(Steps(s.net, Cleanup(s.m, s.pool.live)))
  {
    assert es[..|es|] == es;
    InstalledAt(c, es, |es|);
    RunTunnels(c, es);
    CleanupLeavesNothing(Run(c, es).net, Run(c, es).m);
  }

  // ---------------------------------------------------------------- tunnels in use

  /** No tunnel of the segment was asked for later. */
  predicate Latest(es: Entries, id: int) {
    exists i | 0 <= i < |es| :: es[i].ifindex == id && forall j | 0 <= j < |es| :: es[j].lastAccess <= es[i].lastAccess
  }

  predicate EntriesUpTo(es: Entries, now: int) {
    forall i | 0 <= i < |es| :: es[i].lastAccess <= now
  }

  predicate UpTo(s: Segments, now: int) {
    EntriesUpTo(s.s66, now) && EntriesUpTo(s.s44, now) && EntriesUpTo(s.s64, now)
  }

  /** The tunnels in use are the latest of their segments. */
  predicate Lasting(m: Mobile, s: Segments) {
    (m.coaType == V6 ==> Latest(s.s66, m.t66)) && (OnV4(m) ==> Latest(s.s44, m.t44) && Latest(s.s64, m.t64))
  }

  /** A full segment, whose tunnels were all asked for at the same time, lacks the
      key and has the tunnel in its first slot. */
  predicate Tie(es: Entries, key: Key, id: int) {
    && !HasKey(es, key) && |es| == SEGMENT && es[0].ifindex == id
    && forall i | 0 <= i < |es| :: es[i].lastAccess == es[0].lastAccess
  }

  /** The handoff meets such a segment. */
  predicate Tied(c: Config, m: Mobile, s: Segments, t: Target, ifindex: int) {
    match Decide(c, m, t, ifindex)
    case Bind6 => m.coaType == V6 && Tie(s.s66, Key6(c, t.coa6, ifindex), m.t66)
    case Bind4 =>
      var key := Key4(c, t.coa4, ifindex);
      OnV4(m) && (Tie(s.s64, key, m.t64) || Tie(s.s44, key, m.t44))
    case _ => false
  }

  lemma NoKey(es: Entries, key: Key)
    ensures IndexOf(es, key) == |es| <==> !HasKey(es, key)
  {
    if IndexOf(es, key) < |es| {
      assert es[IndexOf(es, key)].key == key;
    }
  }

  lemma LatestGoes(es: Entries, key: Key, id: int)
    requires |es| <= SEGMENT && DistinctIds(es) && Latest(es, id)
    ensures id in GivenUp(es, key) <==> Tie(es, key, id)
  {
    NoKey(es, key);
    if |es| == SEGMENT {
      var i :| 0 <= i < |es| && es[i].ifindex == id && forall j | 0 <= j < |es| :: es[j].lastAccess <= es[i].lastAccess;
      var v := Victim(es);
      assert es[v].ifindex == id <==> v == i;
    }
  }

  lemma LatestIn(es: Entries, id: int)
    requires Latest(es, id)
    ensures id in IdsOf(es)
  {
  }

  // the tunnels of the other segments are out of an add's reach
  lemma OthersStay(m: Mobile, p: State, kind: int, key: Key)
    requires p.Ok() && TunnelPool.InUse(kind) && Lasting(m, p.segments)
    ensures var gone := GivenUp(p.segments.Get(kind), key);
      && (kind != 66 && m.coaType == V6 ==> m.t66 !in gone)
      && (kind != 44 && OnV4(m) ==> m.t44 !in gone) && (kind != 64 && OnV4(m) ==> m.t64 !in gone)
  {
    OkIds(p);
    GivenUpIn(p, kind, key);
    if m.coaType == V6 {
      LatestIn(p.segments.s66, m.t66);
    } else if OnV4(m) {
      LatestIn(p.segments.s44, m.t44);
      LatestIn(p.segments.s64, m.t64);
    }
  }

  lemma OwnStays(m: Mobile, p: State, kind: int, key: Key, id: int)
    requires p.Ok() && TunnelPool.InUse(kind) && Latest(p.segments.Get(kind), id)
    ensures id in GivenUp(p.segments.Get(kind), key) <==> Tie(p.segments.Get(kind), key, id)
  {
    OkParts(p, kind);
    LatestGoes(p.segments.Get(kind), key, id);
  }

  lemma Spares6(m: Mobile, p: State, key: Key, now: int)
    requires p.Ok() && Lasting(m, p.segments)
    ensures Spares(m, Bind6, Picks6(p, key, now)) <==> !(m.coaType == V6 && Tie(p.segments.s66, key, m.t66))
  {
    OthersStay(m, p, 66, key);
    if m.coaType == V6 {
      OwnStays(m, p, 66, key, m.t66);
    }
  }

  lemma Gone4(p: State, key: Key, now: int)
    requires p.Ok()
    ensures var picks := Picks4(p, key, now);
      picks.gone64 == GivenUp(p.segments.Get(64), key) && picks.gone44 == GivenUp(p.segments.Get(44), key)
  {
  }

  lemma SparedOnV4(m: Mobile, p: State, key: Key, picks: Picks)
    requires p.Ok() && Lasting(m, p.segments)
    requires picks.gone64 == GivenUp(p.segments.Get(64), key) && picks.gone44 == GivenUp(p.segments.Get(44), key)
    ensures Spares(m, Bind4, picks)
       <==> !(OnV4(m) && (Tie(p.segments.Get(64), key, m.t64) || Tie(p.segments.Get(44), key, m.t44)))
  {
    OthersStay(m, p, 64, key);
    OthersStay(m, p, 44, key);
    if OnV4(m) {
      OwnStays(m, p, 64, key, m.t64);
      OwnStays(m, p, 44, key, m.t44);
    }
  }

  /** The tunnels in use survive a handoff exactly if it meets no tie. */
  lemma SparesExactly(c: Config, m: Mobile, p: State, t: Target, ifindex: int, now: int)
    requires p.Ok() && now < MAX_TIME && Lasting(m, p.segments)
    ensures Spares(m, Decide(c, m, t, ifindex), PicksFor(c, m, p, t, ifindex, now))
      <==> !Tied(c, m, p.segments, t, ifindex)
  {
    match Decide(c, m, t, ifindex)
    case Bind6 => Spares6(m, p, Key6(c, t.coa6, ifindex), now);
    case Bind4 =>
      var key := Key4(c, t.coa4, ifindex);
      Gone4(p, key, now);
      SparedOnV4(m, p, key, Picks4(p, key, now));
    case _ =>
  }

  lemma GivenIsLatest(es: Entries, kind: int, key: Key, now: int, id: int)
    requires SegmentOk(es, kind, id) && now < MAX_TIME && id > 0 && EntriesUpTo(es, now)
    ensures Latest(Use(es, kind, key, now, id), Given(es, kind, key, now, id))
  {
    UseOk(es, kind, key, now, id);
    var es' := Use(es, kind, key, now, id);
    var k := SlotFor(es, key);
    assert es'[k].lastAccess == now;
    assert forall j | 0 <= j < |es'| && j != k :: es'[j] == es[j];
  }

  lemma Added6Lasts(p: State, key: Key, now: int)
    requires p.Ok() && now < MAX_TIME && UpTo(p.segments, now)
    ensures Latest(Added6(p, key, now).segments.s66, Picks6(p, key, now).t66)
  {
    OkParts(p, 66);
    GivenIsLatest(p.segments.s66, 66, key, now, p.next);
  }

  lemma Added4Lasts(p: State, key: Key, now: int)
    requires p.Ok() && now < MAX_TIME && UpTo(p.segments, now)
    ensures var s, picks := Added4(p, key, now).segments, Picks4(p, key, now);
      Latest(s.s64, picks.t64) && Latest(s.s44, picks.t44)
  {
    var p1 := Added(p, 64, key, now);
    Picks4Is(p, key, now);
    OkParts(p, 64);
    OkParts(p1, 44);
    GivenIsLatest(p.segments.s64, 64, key, now, p.next);
    GivenIsLatest(p1.segments.s44, 44, key, now, p1.next);
  }

  lemma BindingLasts(c: Config, m: Mobile, m': Mobile, a: Action, t: Target, p: Picks, s: Segments)
    requires IsMove(a) && (a.Bind6? ==> t.To6?) && (a.Bind4? ==> t.To4?) && SameBinding(m', NewBinding(c, m, a, t, p))
    requires a.Bind6? ==> Latest(s.s66, p.t66)
    requires a.Bind4? ==> Latest(s.s64, p.t64) && Latest(s.s44, p.t44)
    ensures Lasting(m', s)
  {
  }

  lemma HandoffLasts(c: Config, s: System, t: Target, ifindex: int, now: int)
    requires s.pool.Ok() && now < MAX_TIME && Lasting(s.m, s.pool.segments) && UpTo(s.pool.segments, now)
    ensures var s' := HandedOff(c, s, t, ifindex, now); Lasting(s'.m, s'.pool.segments)
  {
    var act, p := Decide(c, s.m, t, ifindex), PicksFor(c, s.m, s.pool, t, ifindex, now);
    AfterBinding(c, s.m, t, ifindex, p);
    match act
    case Bind6 =>
      var key := Key6(c, t.coa6, ifindex);
      Added6Lasts(s.pool, key, now);
      BindingLasts(c, s.m, After(c, s.m, t, ifindex, p), act, t, p, Added6(s.pool, key, now).segments);
    case Bind4 =>
      var key := Key4(c, t.coa4, ifindex);
      Added4Lasts(s.pool, key, now);
      BindingLasts(c, s.m, After(c, s.m, t, ifindex, p), act, t, p, Added4(s.pool, key, now).segments);
    case _ =>
  }

  // ------------------------------------------------------------------------ clocks

  /** No handoff of the run is later. */
  predicate Until(es: seq<Event>, now: int) {
    forall i | 0 <= i < |es| && es[i].Handoff? :: es[i].now <= now
  }

  /** The clock does not go back. */
  predicate Steady(es: seq<Event>) {
    forall i, j | 0 <= i < j < |es| && es[i].Handoff? && es[j].Handoff? :: es[i].now <= es[j].now
  }

  /** ... and never stands still from one handoff to the next. */
  predicate Ticking(es: seq<Event>) {
    forall i, j | 0 <= i < j < |es| && es[i].Handoff? && es[j].Handoff? :: es[i].now < es[j].now
  }

  /** The tunnels of a segment were all asked for at different times. */
  predicate Apart(es: Entries) {
    forall i, j | 0 <= i < j < |es| :: es[i].lastAccess != es[j].lastAccess
  }

  predicate AllApart(s: Segments) {
    Apart(s.s66) && Apart(s.s44) && Apart(s.s64)
  }

  lemma UseTimes(es: Entries, kind: int, key: Key, now: int, id: int, most: int)
    requires SegmentOk(es, kind, id) && now < MAX_TIME && id > 0 && EntriesUpTo(es, most) && now <= most
    ensures EntriesUpTo(Use(es, kind, key, now, id), most)
  {
    UseOk(es, kind, key, now, id);
    var es' := Use(es, kind, key, now, id);
    var k := SlotFor(es, key);
    assert es'[k].lastAccess == now;
    assert forall j | 0 <= j < |es'| && j != k :: es'[j] == es[j];
  }

  lemma UseApart(es: Entries, kind: int, key: Key, now: int, id: int)
    requires SegmentOk(es, kind, id) && now < MAX_TIME && id > 0 && EntriesUpTo(es, now - 1) && Apart(es)
    ensures Apart(Use(es, kind, key, now, id))
  {
    UseOk(es, kind, key, now, id);
    var es' := Use(es, kind, key, now, id);
    var k := SlotFor(es, key);
    assert es'[k].lastAccess == now;
    assert forall j | 0 <= j < |es'| && j != k :: es'[j] == es[j];
  }

  lemma HandoffTimes(c: Config, s: System, t: Target, ifindex: int, now: int, most: int)
    requires s.pool.Ok() && now < MAX_TIME && UpTo(s.pool.segments, most) && now <= most
    ensures UpTo(HandedOff(c, s, t, ifindex, now).pool.segments, most)
  {
    var p := s.pool;
    match Decide(c, s.m, t, ifindex)
    case Bind6 =>
      var key := Key6(c, t.coa6, ifindex);
      OkParts(p, 66);
      Picks6Is(p, key, now);
      UseTimes(p.segments.s66, 66, key, now, p.next, most);
    case Bind4 =>
      var key := Key4(c, t.coa4, ifindex);
      var p1 := Added(p, 64, key, now);
      Picks4Is(p, key, now);
      OkParts(p, 64);
      OkParts(p1, 44);
      UseTimes(p.segments.s64, 64, key, now, p.next, most);
      UseTimes(p1.segments.s44, 44, key, now, p1.next, most);
    case _ =>
  }

  lemma HandoffApart(c: Config, s: System, t: Target, ifindex: int, now: int)
    requires s.pool.Ok() && now < MAX_TIME && UpTo(s.pool.segments, now - 1) && AllApart(s.pool.segments)
    ensures AllApart(HandedOff(c, s, t, ifindex, now).pool.segments)
  {
    var p := s.pool;
    match Decide(c, s.m, t, ifindex)
    case Bind6 =>
      var key := Key6(c, t.coa6, ifindex);
      OkParts(p, 66);
      Picks6Is(p, key, now);
      UseApart(p.segments.s66, 66, key, now, p.next);
    case Bind4 =>
      var key := Key4(c, t.coa4, ifindex);
      var p1 := Added(p, 64, key, now);
      Picks4Is(p, key, now);
      OkParts(p, 64);
      OkParts(p1, 44);
      UseApart(p.segments.s64, 64, key, now, p.next);
      UseApart(p1.segments.s44, 44, key, now, p1.next);
    case _ =>
  }

  lemma {:induction false} RunTimes(c: Config, es: seq<Event>, most: int)
    requires AllInTime(es) && Until(es, most)
    ensures UpTo(Run(c, es).pool.segments, most)
    decreases |es|
  {
    if es != [] {
      var k := |es| - 1;
      RunTimes(c, es[..k], most);
      if es[k].Handoff? {
        HandoffTimes(c, Run(c, es[..k]), es[k].t, es[k].ifindex, es[k].now, most);
      }
    }
  }

  /** With a clock that does not go back, the tunnels in use are the latest. */
  lemma {:induction false} RunLasts(c: Config, es: seq<Event>)
    requires AllInTime(es) && Steady(es)
    ensures Lasting(Run(c, es).m, Run(c, es).pool.segments)
    decreases |es|
  {
    if es != [] {
      var k := |es| - 1;
      RunLasts(c, es[..k]);
      match es[k]
      case Handoff(t, ifindex, now) =>
        RunTimes(c, es[..k], now);
        HandoffLasts(c, Run(c, es[..k]), t, ifindex, now);
      case Tick(due) => TickNumbers(Run(c, es[..k]).m, due);
      case Configure(_, _, _) =>
    }
  }

  lemma {:induction false} RunApart(c: Config, es: seq<Event>)
    requires AllInTime(es) && Ticking(es)
    ensures AllApart(Run(c, es).pool.segments)
    decreases |es|
  {
    if es != [] {
      var k := |es| - 1;
      RunApart(c, es[..k]);
      if es[k].Handoff? {
        RunTimes(c, es[..k], es[k].now - 1);
        HandoffApart(c, Run(c, es[..k]), es[k].t, es[k].ifindex, es[k].now);
      }
    }
  }

  lemma ApartNoTie(es: Entries, key: Key, id: int)
    requires Apart(es)
    ensures !Tie(es, key, id)
  {
    if |es| == SEGMENT {
      assert es[0].lastAccess != es[1].lastAccess;
    }
  }

  /** After any run with a clock that does not go back, a move between foreign
      addresses delivers after every single request exactly if it does not meet a
      tie; with a clock that moves on between handoffs it never does. */
  lemma RunMakesBeforeBreak(c: Config, es: seq<Event>, t: Target, ifindex: int, now: int)
    requires AllInTime(es) && Steady(es) && now < MAX_TIME && NeverLeavesEncap(c, es) && NeverLeavesRoutes(c, es)
    requires var m := Run(c, es).m; Foreign(m) && (Decide(c, m, t, ifindex).Bind6? || Decide(c, m, t, ifindex).Bind4?)
    ensures var s := Run(c, es); var p := PicksFor(c, s.m, s.pool, t, ifindex, now);
      var ops := Requests(c, s.m, t, ifindex, p);
      (forall k | 0 < k <= |ops| :: Delivers(Steps(s.net, ops[..k]), Reach(s.m, p)))
      <==> !Tied(c, s.m, s.pool.segments, t, ifindex)
    ensures Ticking(es) ==> !Tied(c, Run(c, es).m, Run(c, es).pool.segments, t, ifindex)
  {
    var s := Run(c, es);
    assert es[..|es|] == es;
    InstalledAt(c, es, |es|);
    RoutedAt(c, es, |es|);
    PicksFit(c, s.m, s.pool, t, ifindex, now);
    RunLasts(c, es);
    SparesExactly(c, s.m, s.pool, t, ifindex, now);
    MakeBeforeBreak(c, s.net, s.m, t, ifindex, PicksFor(c, s.m, s.pool, t, ifindex, now));
    if Ticking(es) {
      RunApart(c, es);
      NoTies(c, s.m, s.pool.segments, t, ifindex);
    }
  }

  lemma NoTies(c: Config, m: Mobile, s: Segments, t: Target, ifindex: int)
    requires AllApart(s)
    ensures !Tied(c, m, s, t, ifindex)
  {
    match Decide(c, m, t, ifindex)
    case Bind6 => ApartNoTie(s.s66, Key6(c, t.coa6, ifindex), m.t66);
    case Bind4 =>
      ApartNoTie(s.s64, Key4(c, t.coa4, ifindex), m.t64);
      ApartNoTie(s.s44, Key4(c, t.coa4, ifindex), m.t44);
    case _ =>
  }
}
