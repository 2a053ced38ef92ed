/** What can go wrong at the mobile node does: each failing case is reached by a
    concrete run from the start. */
module MobileWitnesses {
  import opened Addresses
  import opened TunnelPool
  import opened MobileKernel
  import opened MobilePlans
  import opened MobileHandoff
  import opened MobileRuns
  import opened MobileSystem

  // interface 1 is there, and preferred
  const UP := Configure(1, false, [Iface(1, IN6ADDR_ANY, INADDR_ANY)])

  predicate Ready(m: Mobile) {
    m.preferred == 1 && |m.ifaces| == 1 && m.ifaces[0].ifindex == 1
  }

  lemma StaysReady(c: Config, m: Mobile, t: Target, p: Picks)
    requires Ready(m) && IsMove(Decide(c, m, t, 1))
    ensures Ready(After(c, m, t, 1, p))
  {
    AnnounceIs(NoteIface(m, t, 1).(current := 1), Registers(t), 1);
    AnnounceIs(Moved(c, m, t, 1, p), Registers(t), Burst(m));
  }

  lemma Snoc(c: Config, es: seq<Event>, e: Event)
    requires AllInTime(es) && InTime(e)
    ensures AllInTime(es + [e]) && Run(c, es + [e]) == Next(c, Run(c, es), e)
  {
    assert (es + [e])[..|es|] == es;
  }

  lemma UpIs(c: Config)
    ensures var s := Run(c, [UP]);
      && Installed(s.net, s.m) && Routed(s.net, s.m) && s.net.faults == 0
      && Ready(s.m) && s.m.coaType == AtHome && s.m.coav6 == IN6ADDR_ANY && s.pool.segments.s66 == []
  {
    BootIs();
    Snoc(c, [], UP);
    assert [] + [UP] == [UP];
    NextInstalled(c, Boot(), UP);
    NextRouted(c, Boot(), UP);
  }

  /** A first handoff, to an IPv4 address. */
  function Away(c: Config, a: Ip4): seq<Event> {
    [UP] + [Handoff(To4(a, true), 1, 0)]
  }

  lemma AwayIs(c: Config, a: Ip4)
    requires a != c.hoav4
    ensures var s := Run(c, Away(c, a));
      && Installed(s.net, s.m) && Routed(s.net, s.m) && s.net.faults == 0
      && Ready(s.m) && s.m.coaType == V4Nat && s.m.coav4 == a && s.pool.segments.s66 == []
  {
    var s, e := Run(c, [UP]), Handoff(To4(a, true), 1, 0);
    UpIs(c);
    Snoc(c, [UP], e);
    assert Decide(c, s.m, e.t, 1) == Bind4;
    var p := PicksFor(c, s.m, s.pool, e.t, 1, 0);
    NextInstalled(c, s, e);
    NextRouted(c, s, e);
    AfterBinding(c, s.m, e.t, 1, p);
    StaysReady(c, s.m, e.t, p);
    Picks4Is(s.pool, Key4(c, a, 1), 0);
  }

  /** ... and then straight home. */
  function AndHome(c: Config, a: Ip4): seq<Event> {
    Away(c, a) + [Handoff(To6(c.hoav6), 1, 1)]
  }

  lemma AndHomeIs(c: Config, a: Ip4)
    requires a != c.hoav4
    ensures var s0, s := Run(c, Away(c, a)), Run(c, AndHome(c, a));
      && Installed(s.net, s.m) && !Routed(s.net, s.m) && s.net == s0.net.(encap := None)
      && Ready(s.m) && s.m.coaType == AtHome && s.m.coav6 == c.hoav6 && s.pool.segments.s66 == []
  {
    var s, e := Run(c, Away(c, a)), Handoff(To6(c.hoav6), 1, 1);
    AwayIs(c, a);
    Snoc(c, Away(c, a), e);
    assert Decide(c, s.m, e.t, 1) == GoHome;
    NextInstalled(c, s, e);
    NextRouted(c, s, e);
    ReturnIs(s.net, s.m, {});
    AfterBinding(c, s.m, e.t, 1, NO_PICKS);
    StaysReady(c, s.m, e.t, NO_PICKS);
  }

  lemma AwayAgain(c: Config, s: System, b: Ip6)
    requires s.pool.Ok() && Installed(s.net, s.m) && Ready(s.m) && s.pool.segments.s66 == []
    requires s.m.coaType == AtHome && s.m.coav6 == c.hoav6 != b && s.net.main4.Some? && s.net.main6.Some?
    ensures var s' := Next(c, s, Handoff(To6(b), 1, 2));
      && s'.m.coaType == V6 && Installed(s'.net, s'.m)
      && s'.net.faults == s.net.faults + 2 && s'.net.main4 == s.net.main4 && s'.net.main6 == s.net.main6
  {
    var e := Handoff(To6(b), 1, 2);
    assert Decide(c, s.m, e.t, 1) == Bind6;
    var p := PicksFor(c, s.m, s.pool, e.t, 1, 2);
    assert p.gone66 == {};
    PicksFit(c, s.m, s.pool, e.t, 1, 2);
    NextInstalled(c, s, e);
    StaleRoutes(c, s.net, s.m, e.t, 1, p);
    AfterBinding(c, s.m, e.t, 1, p);
  }

  /** Away on IPv4, straight home and away again: both new routes are turned down,
      and table 252 goes on leading into the tunnels of the first address. */
  lemma StaleRoutesReached(c: Config, a: Ip4, b: Ip6)
    requires a != c.hoav4 && b != c.hoav6
    ensures var s0, s := Run(c, Away(c, a)), Run(c, AndHome(c, a) + [Handoff(To6(b), 1, 2)]);
      && s.m.coaType == V6 && Installed(s.net, s.m) && s.net.faults == 2
      && s.net.main4 == Some(s0.m.t44) && s.net.main6 == Some(s0.m.t64)
  {
    AwayIs(c, a);
    AndHomeIs(c, a);
    Snoc(c, AndHome(c, a), Handoff(To6(b), 1, 2));
    AwayAgain(c, Run(c, AndHome(c, a)), b);
  }

  /** From one IPv4 address to another that is taken without encapsulation: the
      first one's encapsulation is still there. */
  lemma OldEncapReached(c: Config, a: Ip4, b: Ip4)
    requires a != c.hoav4 && b != c.hoav4 && a != b
    ensures var s := Run(c, Away(c, a) + [Handoff(To4(b, false), 1, 1)]);
      s.m.coaType == V4Plain && s.m.coav4 == b && !Installed(s.net, s.m) && s.net.encap == Some(a)
  {
    var s, e := Run(c, Away(c, a)), Handoff(To4(b, false), 1, 1);
    AwayIs(c, a);
    Snoc(c, Away(c, a), e);
    assert Decide(c, s.m, e.t, 1) == Bind4;
    var p := PicksFor(c, s.m, s.pool, e.t, 1, 1);
    PicksFit(c, s.m, s.pool, e.t, 1, 1);
    NextInstalled(c, s, e);
    MoveTo4Is(s.net, s.m, b, false, p, {});
    AfterBinding(c, s.m, e.t, 1, p);
  }

  // ------------------------------------------------------------------------- a tie

  /** One address more than a segment has slots, none of them the home address. */
  predicate Addresses26(c: Config, addrs: seq<Ip6>) {
    && |addrs| == SEGMENT + 1
    && (forall i, j | 0 <= i < j < |addrs| :: addrs[i] != addrs[j])
    && (forall i | 0 <= i < |addrs| :: addrs[i] != c.hoav6 && addrs[i] != IN6ADDR_ANY)
  }

  /** Handoffs to the first n addresses, all within one second. */
  function Hops(addrs: seq<Ip6>, n: nat): seq<Event>
    requires n <= |addrs|
  {
    if n == 0 then [UP] else Hops(addrs, n - 1) + [Handoff(To6(addrs[n - 1]), 1, 0)]
  }

  predicate Filled(c: Config, s: System, addrs: seq<Ip6>, n: nat)
    requires n <= |addrs|
  {
    var es := s.pool.segments.s66;
    && Ready(s.m) && |es| == n
    && (forall i | 0 <= i < n :: es[i].key == Key6(c, addrs[i], 1) && es[i].lastAccess == 0)
    && (if n == 0 then s.m.coaType == AtHome && s.m.coav6 == IN6ADDR_ANY
        else s.m.coaType == V6 && s.m.coav6 == addrs[n - 1] && s.m.t66 == es[n - 1].ifindex)
  }

  lemma FillOne(c: Config, s: System, addrs: seq<Ip6>, n: nat)
    requires s.pool.Ok() && Addresses26(c, addrs) && n < SEGMENT && Filled(c, s, addrs, n)
    ensures Filled(c, Next(c, s, Handoff(To6(addrs[n]), 1, 0)), addrs, n + 1)
  {
    var t := To6(addrs[n]);
    var key := Key6(c, addrs[n], 1);
    assert Decide(c, s.m, t, 1) == Bind6;
    var p := PicksFor(c, s.m, s.pool, t, 1, 0);
    AfterBinding(c, s.m, t, 1, p);
    StaysReady(c, s.m, t, p);
    Picks6Is(s.pool, key, 0);
    IndexOfIs(s.pool.segments.s66, key, n);
  }

  lemma {:induction false} HopsIs(c: Config, addrs: seq<Ip6>, n: nat)
    requires Addresses26(c, addrs) && n <= SEGMENT
    ensures AllInTime(Hops(addrs, n)) && Filled(c, Run(c, Hops(addrs, n)), addrs, n)
  {
    if n == 0 {
      UpIs(c);
      Snoc(c, [], UP);
      assert [] + [UP] == [UP];
    } else {
      HopsIs(c, addrs, n - 1);
      Snoc(c, Hops(addrs, n - 1), Handoff(To6(addrs[n - 1]), 1, 0));
      FillOne(c, Run(c, Hops(addrs, n - 1)), addrs, n - 1);
    }
  }

  lemma BackToFirst(c: Config, s: System, addrs: seq<Ip6>)
    requires s.pool.Ok() && Addresses26(c, addrs) && Filled(c, s, addrs, SEGMENT)
    ensures var s' := Next(c, s, Handoff(To6(addrs[0]), 1, 0)); Tied(c, s'.m, s'.pool.segments, To6(addrs[SEGMENT]), 1)
  {
    var t := To6(addrs[0]);
    var key := Key6(c, addrs[0], 1);
    assert Decide(c, s.m, t, 1) == Bind6;
    var p := PicksFor(c, s.m, s.pool, t, 1, 0);
    AfterBinding(c, s.m, t, 1, p);
    StaysReady(c, s.m, t, p);
    Picks6Is(s.pool, key, 0);
    IndexOfIs(s.pool.segments.s66, key, 0);
  }

  /** Twenty-six handoffs within one second, the last one back to the first of 25
      addresses: the next move to a new address meets a tie. */
  lemma TieReached(c: Config, addrs: seq<Ip6>)
    requires Addresses26(c, addrs)
    ensures var es := Hops(addrs, SEGMENT) + [Handoff(To6(addrs[0]), 1, 0)];
      AllInTime(es) && Tied(c, Run(c, es).m, Run(c, es).pool.segments, To6(addrs[SEGMENT]), 1)
  {
    HopsIs(c, addrs, SEGMENT);
    Snoc(c, Hops(addrs, SEGMENT), Handoff(To6(addrs[0]), 1, 0));
    BackToFirst(c, Run(c, Hops(addrs, SEGMENT)), addrs);
  }
}
