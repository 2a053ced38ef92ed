/** The mobile node itself: do_handoff, mn_cleanup and bu_worker over the globals
    of mn.c and the tunnel pool, issuing kernel requests one at a time. */
module MobileNode {
  import opened Addresses
  import opened TunnelPool
  import opened MobileKernel
  import opened MobilePlans
  import opened MobileHandoff
  import opened MobileRuns
  import opened MobileSystem

  lemma Cat2(l: seq<Op>, a: seq<Op>, b: seq<Op>)
    ensures l + a + b == l + (a + b)
  {
  }

  lemma Cat4(l: seq<Op>, a: seq<Op>, b: seq<Op>, d: seq<Op>, e: seq<Op>)
    ensures l + a + b + d + e == l + (a + b + d + e)
  {
  }

  lemma Cat5(l: seq<Op>, a: seq<Op>, b: seq<Op>, d: seq<Op>, e: seq<Op>, f: seq<Op>)
    ensures l + a + b + d + e + f == l + (a + b + d + e + f)
  {
  }

  // -------------------------------------------------------------------- the node

  class Node {
    const c: Config
    const pool: Pool
    // the globals of the binding
    var m: Mobile
    var net: Net

    // the requests made since `base`
    ghost var base: Net
    ghost var log: seq<Op>

    ghost function Abs(): System
      reads this, pool, pool.slots
    {
      System(net, m, pool.Abs())
    }

    ghost predicate Tracks()
      reads this`net, this`base, this`log
    {
      net == Steps(base, log)
    }

    /** The pool is in order, and its tunnels are the kernel's. */
    ghost predicate Pooling()
      reads this, pool, pool.slots
    {
      pool.Abs().Ok() && pool.live == net.live
    }

    ghost predicate Valid()
      reads this, pool, pool.slots
    {
      Tracks() && Pooling()
    }

    constructor (c: Config)
      ensures Valid() && this.c == c && fresh(pool) && fresh(pool.slots)
      ensures Abs() == Boot() && log == []
    {
      this.c := c;
      pool := new Pool();
      m := Boot().m;
      net := EMPTY;
      base, log := EMPTY, [];
    }

    method Do(op: Op)
      requires Tracks()
      modifies this`net, this`log
      ensures Tracks() && log == old(log) + [op] && net == Step(old(net), op)
      ensures !op.TunnelUp? && !op.TunnelsDown? ==> net.live == old(net.live)
    {
      net := Step(net, op);
      log := log + [op];
      StepsConcat(base, {}, old(log), [op]);
      Steps1(old(net), op, {});
    }

    /** tunnel66_add, tunnel64_add, tunnel44_add */
    method TunnelFor(kind: int, key: Key, now: int) returns (id: int)
      requires Tracks() && Pooling() && TunnelPool.InUse(kind) && now < MAX_TIME
      modifies this`net, this`log, pool, pool.slots
      ensures Tracks() && Pooling()
      ensures pool.Abs() == Added(old(pool.Abs()), kind, key, now)
      ensures var es := old(pool.segments).Get(kind);
        && id == Given(es, kind, key, now, old(pool.nextIfindex))
        && log == old(log) + FromPool(GivenUp(es, key), id)
    {
      ghost var p := pool.Abs();
      var before := pool.live;
      AddedLive(p, kind, key, now);
      AddedHas(p, kind, key, now);
      id := pool.TunnelAdd(kind, key, now);
      Do(TunnelsDown(before - pool.live));
      Do(TunnelUp(id));
    }

    /** sendbu, n times over: each takes the next sequence number. */
    method SendBus(coa: Ip6, n: nat)
      modifies this`m
      ensures m == Announce(old(m), coa, n)
    {
      for k := 0 to n
        invariant Announce(old(m), coa, n) == Announce(m, coa, n - k)
      {
        m := m.(sent := m.sent + [Sent(coa, m.buSeq)], buSeq := m.buSeq + 1);
      }
    }

    method OpenTmp(n4: int, n6: int)
      requires Tracks()
      modifies this`net, this`log
      ensures Tracks() && net.live == old(net.live) && log == old(log) + TmpUp(n4, n6)
    {
      DoBoth(RouteAdd(Tmp, F4, n4), RouteAdd(Tmp, F6, n6));
    }

    method Divert()
      requires Tracks()
      modifies this`net, this`log
      ensures Tracks() && net.live == old(net.live) && log == old(log) + RulesUp()
    {
      DoBoth(RuleAdd(F4), RuleAdd(F6));
    }

    method OpenMain(n4: int, n6: int)
      requires Tracks()
      modifies this`net, this`log
      ensures Tracks() && net.live == old(net.live) && log == old(log) + MainUp(n4, n6)
    {
      DoBoth(RouteAdd(Main, F4, n4), RouteAdd(Main, F6, n6));
    }

    method DoBoth(a: Op, b: Op)
      requires Tracks() && !a.TunnelUp? && !a.TunnelsDown? && !b.TunnelUp? && !b.TunnelsDown?
      modifies this`net, this`log
      ensures Tracks() && net.live == old(net.live) && log == old(log) + [a, b]
    {
      Do(a);
      Do(b);
    }

    method CloseTmp(n4: int, n6: int)
      requires Tracks()
      modifies this`net, this`log
      ensures Tracks() && net.live == old(net.live) && log == old(log) + TmpDown(n4, n6)
    {
      DoBoth(RouteDel(Tmp, F4, n4, false), RouteDel(Tmp, F6, n6, false));
      DoBoth(RuleDel(F4), RuleDel(F6));
    }

    method StopEncap()
      requires Tracks()
      modifies this`net, this`log
      ensures Tracks() && net.live == old(net.live) && log == old(log) + EncapOff(m)
    {
      if m.coaType == V4Nat {
        Do(EncapStop(m.coav4));
      }
    }

    /** Giving up the old routes and, on IPv6, the home address option. */
    method ReleaseOld()
      requires Tracks()
      modifies this`net, this`log
      ensures Tracks() && net.live == old(net.live) && log == old(log) + Release(m)
    {
      if m.coaType == V6 {
        DoBoth(RouteDel(Main, F4, m.t66, false), RouteDel(Main, F6, m.t66, false));
        DoBoth(DstPolicyDel, DstStateDel);
      } else if m.coaType == V4Nat || m.coaType == V4Plain {
        DoBoth(RouteDel(Main, F4, m.t44, false), RouteDel(Main, F6, m.t64, false));
      }
    }

    /** ... and forgetting their tunnels. */
    method ForgetOld()
      modifies this`m
      ensures m == Forgotten(old(m))
    {
      if m.coaType == V6 {
        m := m.(t66 := 0);
      } else if m.coaType == V4Nat || m.coaType == V4Plain {
        m := m.(t64 := 0, t44 := 0);
      }
    }

    /** The requests of the branch for the home address. */
    method LeaveForHome()
      requires Tracks()
      modifies this`net, this`log
      ensures Tracks() && net.live == old(net.live) && log == old(log) + Return(m)
    {
      if m.coaType == V6 {
        ReleaseOld();
      } else if m.coaType == V4Nat || m.coaType == V4Plain {
        StopEncap();
        DoBoth(RouteDel(Main, F4, m.t44, true), RouteDel(Main, F6, m.t64, true));
      }
    }

    /** Rebuilding table 252 while table 251 is in force. */
    method SwapTo6(coa: Ip6, id: int)
      requires Tracks()
      modifies this`net, this`log
      ensures Tracks() && net.live == old(net.live) && log == old(log) + Swap6(m, coa, id)
    {
      Cat4(log, EncapOff(m), Release(m), MainUp(id, id), [DstPolicyAdd, DstStateAdd(coa)]);
      if m.coaType == V4Nat || m.coaType == V4Plain {
        StopEncap();
      }
      assert log == old(log) + EncapOff(m);
      ReleaseOld();
      OpenMain(id, id);
      DoBoth(DstPolicyAdd, DstStateAdd(coa));
    }

    method SwitchTo6(coa: Ip6, id: int)
      requires Tracks()
      modifies this`net, this`log
      ensures Tracks() && net.live == old(net.live) && log == old(log) + Switch6(m, coa, id)
    {
      Cat4(log, TmpUp(id, id), RulesUp(), Swap6(m, coa, id), TmpDown(id, id));
      OpenTmp(id, id);
      Divert();
      SwapTo6(coa, id);
      CloseTmp(id, id);
    }

    /** The requests of the branch for a foreign IPv6 address. */
    method BindTo6(coa: Ip6, ifindex: int, now: int) returns (id: int, ghost p: Picks)
      requires Tracks() && Pooling() && now < MAX_TIME
      modifies this`net, this`log, pool, pool.slots
      ensures Tracks() && Pooling() && Picked6(old(pool.Abs()), pool.Abs(), c, coa, ifindex, now, p)
      ensures id == p.t66 && log == old(log) + MoveTo6(m, coa, p)
    {
      var key := Key6(c, coa, ifindex);
      p := Picks6(pool.Abs(), key, now);
      id := TunnelFor(66, key, now);
      MoveTo6Parts(m, coa, p);
      Cat2(old(log), FromPool(p.gone66, p.t66), Switch6(m, coa, id));
      SwitchTo6(coa, id);
    }

    /** Encapsulation is exchanged for a type 1 address only. */
    method ExchangeEncap(coa: Ip4, nat1: bool)
      requires Tracks()
      modifies this`net, this`log
      ensures Tracks() && net.live == old(net.live) && log == old(log) + EncapSwap(m, coa, nat1)
    {
      if nat1 {
        if m.coaType == V4Nat {
          StopEncap();
        }
        Do(EncapStart(coa));
      }
    }

    method SwapTo4(n4: int, n6: int)
      requires Tracks()
      modifies this`net, this`log
      ensures Tracks() && net.live == old(net.live) && log == old(log) + (Release(m) + MainUp(n4, n6))
    {
      ReleaseOld();
      OpenMain(n4, n6);
    }

    method SwitchTo4(coa: Ip4, nat1: bool, n4: int, n6: int)
      requires Tracks()
      modifies this`net, this`log
      ensures Tracks() && net.live == old(net.live) && log == old(log) + Switch4(m, coa, nat1, n4, n6)
    {
      Cat5(log, TmpUp(n4, n6), EncapSwap(m, coa, nat1), RulesUp(), Release(m) + MainUp(n4, n6), TmpDown(n4, n6));
      OpenTmp(n4, n6);
      ExchangeEncap(coa, nat1);
      Divert();
      SwapTo4(n4, n6);
      CloseTmp(n4, n6);
    }

    method PoolFor4(coa: Ip4, ifindex: int, now: int) returns (n4: int, n6: int, ghost p: Picks)
      requires Tracks() && Pooling() && now < MAX_TIME
      modifies this`net, this`log, pool, pool.slots
      ensures Tracks() && Pooling() && Picked4(old(pool.Abs()), pool.Abs(), c, coa, ifindex, now, p)
      ensures n4 == p.t44 && n6 == p.t64 && log == old(log) + (FromPool(p.gone64, p.t64) + FromPool(p.gone44, p.t44))
    {
      var key := Key4(c, coa, ifindex);
      p := Picks4(pool.Abs(), key, now);
      n6 := TunnelFor(64, key, now);
      n4 := TunnelFor(44, key, now);
      Cat2(old(log), FromPool(p.gone64, p.t64), FromPool(p.gone44, p.t44));
    }

    /** The requests of the branch for a foreign IPv4 address. */
    method BindTo4(coa: Ip4, nat1: bool, ifindex: int, now: int) returns (n4: int, n6: int, ghost p: Picks)
      requires Tracks() && Pooling() && now < MAX_TIME
      modifies this`net, this`log, pool, pool.slots
      ensures Tracks() && Pooling() && Picked4(old(pool.Abs()), pool.Abs(), c, coa, ifindex, now, p)
      ensures n4 == p.t44 && n6 == p.t64 && log == old(log) + MoveTo4(m, coa, nat1, p)
    {
      n4, n6, p := PoolFor4(coa, ifindex, now);
      MoveTo4Parts(m, coa, nat1, p);
      Cat2(old(log), FromPool(p.gone64, p.t64) + FromPool(p.gone44, p.t44), Switch4(m, coa, nat1, n4, n6));
      SwitchTo4(coa, nat1, n4, n6);
    }

    /** The search for the interface, and the address it is given. */
    method NoteAddress(t: Target, ifindex: int) returns (found: bool)
      modifies this`m
      ensures m == NoteIface(old(m), t, ifindex)
      ensures found <==> FindIface(old(m).ifaces, ifindex) < |old(m).ifaces|
    {
      var i := 0;
      while i < |m.ifaces| && m.ifaces[i].ifindex != ifindex
        invariant i <= |m.ifaces|
        invariant forall j | 0 <= j < i :: m.ifaces[j].ifindex != ifindex
      {
        i := i + 1;
      }
      FindIfaceIs(m.ifaces, ifindex, i);
      found := i < |m.ifaces|;
      if found {
        match t
        case To6(coa) => m := m.(ifaces := m.ifaces[i := m.ifaces[i].(coav6 := coa)]);
        case To4(coa, nat1) =>
          if nat1 {
            m := m.(ifaces := m.ifaces[i := m.ifaces[i].(coav4 := coa)]);
          }
      }
    }

    /** The tests at the head of do_handoff. */
    method Admit(t: Target, ifindex: int) returns (act: Action)
      modifies this`m
      ensures act == Decide(c, old(m), t, ifindex)
      ensures IsMove(act) ==> m == Begun(old(m), t, ifindex)
      ensures !IsMove(act) ==> forall p :: m == After(c, old(m), t, ifindex, p)
    {
      ghost var was := m;
      var found := NoteAddress(t, ifindex);
      NotedIs(was, t, ifindex);
      if !found {
        return Refuse;
      }
      if ifindex != m.preferred {
        return Stay;
      }
      if t.To6? && (m.coaType == V6 || m.coaType == AtHome) && m.coav6 == t.coa6 {
        m := m.(consecutive := false);
        return Stay;
      }
      if t.To4? && (m.coaType == V4Nat || m.coaType == V4Plain) && m.coav4 == t.coa4 {
        m := m.(consecutive := false);
        return Stay;
      }
      m := m.(current := ifindex);
      if t.To6? {
        if m.coaType != AtHome && m.coaType != V6 {
          SendBus(t.coa6, 1);
        }
        return if t.coa6 == c.hoav6 then GoHome else Bind6;
      }
      return if t.coa4 == c.hoav4 then Refuse else Bind4;
    }

    /** The updates at the end of a move. */
    method Finish(coa: Ip6)
      modifies this`m
      ensures m == Announce(old(m), coa, Burst(old(m))).(consecutive := false)
    {
      SendBus(coa, if m.consecutive then 10 else 1);
      m := m.(consecutive := false);
    }

    method HandOffHome(coa: Ip6)
      requires Tracks() && coa == c.hoav6
      modifies this`m, this`net, this`log
      ensures Tracks() && net.live == old(net.live) && log == old(log) + Return(old(m))
      ensures m == Announce(NewBinding(c, old(m), GoHome, To6(coa), NO_PICKS),
                            coa, Burst(old(m))).(consecutive := false)
    {
      LeaveForHome();
      ForgetOld();
      m := m.(coaType := AtHome, coav6 := coa, coav4 := c.hoav4);
      Finish(coa);
    }

    method HandOff6(coa: Ip6, ifindex: int, now: int) returns (ghost p: Picks)
      requires Tracks() && Pooling() && now < MAX_TIME
      modifies this`m, this`net, this`log, pool, pool.slots
      ensures Tracks() && Pooling() && Picked6(old(pool.Abs()), pool.Abs(), c, coa, ifindex, now, p)
      ensures log == old(log) + MoveTo6(old(m), coa, p)
      ensures m == Announce(NewBinding(c, old(m), Bind6, To6(coa), p), coa, Burst(old(m))).(consecutive := false)
    {
      var id;
      id, p := BindTo6(coa, ifindex, now);
      Record6(coa, id, p);
    }

    method Record6(coa: Ip6, id: int, ghost p: Picks)
      requires id == p.t66
      modifies this`m
      ensures m == Announce(NewBinding(c, old(m), Bind6, To6(coa), p), coa, Burst(old(m))).(consecutive := false)
    {
      ForgetOld();
      m := m.(t66 := id, coav6 := coa, coaType := V6);
      Finish(coa);
    }

    method HandOff4(coa: Ip4, nat1: bool, ifindex: int, now: int) returns (ghost p: Picks)
      requires Tracks() && Pooling() && now < MAX_TIME
      modifies this`m, this`net, this`log, pool, pool.slots
      ensures Tracks() && Pooling() && Picked4(old(pool.Abs()), pool.Abs(), c, coa, ifindex, now, p)
      ensures log == old(log) + MoveTo4(old(m), coa, nat1, p)
      ensures m == Announce(NewBinding(c, old(m), Bind4, To4(coa, nat1), p),
                            MapAddr(coa), Burst(old(m))).(consecutive := false)
    {
      var n4, n6;
      n4, n6, p := BindTo4(coa, nat1, ifindex, now);
      Record4(coa, nat1, n4, n6, p);
    }

    method Record4(coa: Ip4, nat1: bool, n4: int, n6: int, ghost p: Picks)
      requires n4 == p.t44 && n6 == p.t64
      modifies this`m
      ensures m == Announce(NewBinding(c, old(m), Bind4, To4(coa, nat1), p),
                            MapAddr(coa), Burst(old(m))).(consecutive := false)
    {
      ForgetOld();
      m := m.(coav4 := coa, t64 := n6, t44 := n4, coaType := if nat1 then V4Nat else V4Plain);
      Finish(MapAddr(coa));
    }

    /** A foreign IPv6 address; `was` is the record before the handoff. */
    method Branch6(t: Target, ifindex: int, now: int, ghost was: Mobile) returns (ghost p: Picks)
      requires Tracks() && Pooling() && now < MAX_TIME
      requires Decide(c, was, t, ifindex).Bind6? && m == Begun(was, t, ifindex)
      modifies this`m, this`net, this`log, pool, pool.slots
      ensures Tracks() && Pooling()
      ensures p == PicksFor(c, was, old(pool.Abs()), t, ifindex, now)
      ensures pool.Abs() == PoolAfter(c, was, old(pool.Abs()), t, ifindex, now)
      ensures log == old(log) + MoveTo6(was, t.coa6, p)
      ensures m == After(c, was, t, ifindex, p)
    {
      BegunIs(was, t, ifindex);
      BegunBurst(was, t, ifindex);
      ghost var m1 := m;
      p := HandOff6(t.coa6, ifindex, now);
      SamePlans(was, m1, t, p);
    }

    method Branch4(t: Target, ifindex: int, now: int, ghost was: Mobile) returns (ghost p: Picks)
      requires Tracks() && Pooling() && now < MAX_TIME
      requires Decide(c, was, t, ifindex).Bind4? && m == Begun(was, t, ifindex)
      modifies this`m, this`net, this`log, pool, pool.slots
      ensures Tracks() && Pooling()
      ensures p == PicksFor(c, was, old(pool.Abs()), t, ifindex, now)
      ensures pool.Abs() == PoolAfter(c, was, old(pool.Abs()), t, ifindex, now)
      ensures log == old(log) + MoveTo4(was, t.coa4, t.nat1, p)
      ensures m == After(c, was, t, ifindex, p)
    {
      BegunIs(was, t, ifindex);
      BegunBurst(was, t, ifindex);
      ghost var m1 := m;
      p := HandOff4(t.coa4, t.nat1, ifindex, now);
      SamePlans(was, m1, t, p);
    }

    /** The branches, each with what it leaves behind. */
    method Branch(act: Action, t: Target, ifindex: int, now: int, ghost was: Mobile)
      requires Tracks() && Pooling() && now < MAX_TIME
      requires act == Decide(c, was, t, ifindex) && IsMove(act) && m == Begun(was, t, ifindex)
      modifies this`m, this`net, this`log, pool, pool.slots
      ensures Tracks() && Pooling()
      ensures var p := PicksFor(c, was, old(pool.Abs()), t, ifindex, now);
        log == old(log) + Requests(c, was, t, ifindex, p) && m == After(c, was, t, ifindex, p)
      ensures pool.Abs() == PoolAfter(c, was, old(pool.Abs()), t, ifindex, now)
    {
      match act {
        case GoHome =>
          BegunIs(was, t, ifindex);
          BegunBurst(was, t, ifindex);
          SamePlans(was, m, t, NO_PICKS);
          HandOffHome(t.coa6);
        case Bind6 =>
          ghost var p := Branch6(t, ifindex, now, was);
        case Bind4 =>
          ghost var p := Branch4(t, ifindex, now, was);
      }
    }

    /** do_handoff, at whatever time: its requests in order with the tunnels the pool
        answers, and the record and the pool it ends with. */
    method DoHandoff(t: Target, ifindex: int, now: int) returns (ret: int)
      requires Valid() && now < MAX_TIME
      modifies this`m, this`net, this`log, pool, pool.slots
      ensures Valid() && Abs() == HandedOff(c, old(Abs()), t, ifindex, now)
      ensures log == old(log) + Requests(c, old(m), t, ifindex, PicksFor(c, old(m), old(pool.Abs()), t, ifindex, now))
      ensures ret == if Decide(c, old(m), t, ifindex).Refuse? then -1 else 0
      ensures Installed(old(net), old(m)) ==> (Installed(net, m) <==> !KeepsOldEncap(c, old(m), t, ifindex))
    {
      ghost var s, was := Abs(), m;
      var act := Admit(t, ifindex);
      ret := if act == Refuse then -1 else 0;
      if act != Refuse && act != Stay {
        Branch(act, t, ifindex, now, was);
      }
      StepsConcat(base, {}, old(log), Requests(c, was, t, ifindex, PicksFor(c, was, s.pool, t, ifindex, now)));
      if Installed(s.net, was) {
        NextInstalled(c, s, Handoff(t, ifindex, now));
      }
    }

    /** bu_worker; `due` is whether its interval is over or it is forced. */
    method BuWorker(due: bool)
      requires Valid()
      modifies this`m
      ensures Valid() && Abs() == Next(c, old(Abs()), Tick(due))
    {
      AnnounceIs(m, if m.coaType == V6 then m.coav6 else MapAddr(m.coav4), 1);
      if due {
        if m.coaType == V6 {
          SendBus(m.coav6, 1);
        } else if m.coaType == V4Nat || m.coaType == V4Plain {
          SendBus(MapAddr(m.coav4), 1);
        }
      }
    }

    /** What mn_cleanup deletes from table 252, and the home address option. */
    method DropRoutes()
      requires Tracks()
      modifies this`net, this`log
      ensures Tracks() && net.live == old(net.live) && log == old(log) + Routes(m)
    {
      if m.t66 != 0 {
        DoBoth(RouteDel(Main, F4, m.t66, false), RouteDel(Main, F6, m.t66, false));
        DoBoth(DstPolicyDel, DstStateDel);
      }
      if m.t64 != 0 {
        Do(RouteDel(Main, F6, m.t64, false));
      }
      if m.t44 != 0 {
        Do(RouteDel(Main, F4, m.t44, false));
      }
    }

    /** mn_cleanup: if the kernel held what the record says, nothing is left. */
    method MnCleanup()
      requires Valid()
      modifies this`m, this`net, this`log, pool`live
      ensures Tracks() && log == old(log) + Cleanup(old(m), old(net.live))
      ensures pool.live == {} && net.live == {}
      ensures Installed(old(net), old(m)) ==> Bare(net)
      ensures m == old(m).(coav6 := if old(m).t66 != 0 then IN6ADDR_ANY else old(m).coav6, t66 := 0, t64 := 0, t44 := 0)
    {
      ghost var was := m;
      var pooled := pool.live;
      DropRoutes();
      if m.t66 != 0 {
        m := m.(coav6 := IN6ADDR_ANY);
      }
      m := m.(t66 := 0, t44 := 0, t64 := 0);
      pool.TnlCleanup();
      Do(TunnelsDown(pooled));
      StopEncap();
      CleanupParts(old(log), was, m, pooled);
      StepsConcat(base, {}, old(log), Cleanup(was, pooled));
      if Installed(old(net), was) {
        CleanupLeavesNothing(old(net), was);
      }
    }
  }

  lemma CleanupParts(l: seq<Op>, m: Mobile, m1: Mobile, pooled: set<int>)
    requires m1.coaType == m.coaType && m1.coav4 == m.coav4
    ensures l + Routes(m) + [TunnelsDown(pooled)] + EncapOff(m1) == l + Cleanup(m, pooled)
  {
    assert Cleanup(m, pooled) == Routes(m) + [TunnelsDown(pooled)] + EncapOff(m);
  }

  lemma {:induction false} FindIfaceIs(ifaces: seq<Iface>, ifindex: int, i: nat)
    requires i <= |ifaces| && (i < |ifaces| ==> ifaces[i].ifindex == ifindex)
    requires forall j | 0 <= j < i :: ifaces[j].ifindex != ifindex
    ensures FindIface(ifaces, ifindex) == i
  {
    if i > 0 {
      FindIfaceIs(ifaces[1..], ifindex, i - 1);
    }
  }

  lemma NotedIs(m: Mobile, t: Target, ifindex: int)
    ensures var m1 := NoteIface(m, t, ifindex); m1 == m.(ifaces := m1.ifaces)
  {
  }

  lemma BegunBurst(m: Mobile, t: Target, ifindex: int)
    ensures Begun(m, t, ifindex).consecutive == m.consecutive
  {
    AnnounceIs(NoteIface(m, t, ifindex).(current := ifindex), Registers(t), 1);
  }

  /** The requests depend on the binding alone. */
  lemma SamePlans(m: Mobile, m1: Mobile, t: Target, p: Picks)
    requires SameBinding(m1, m)
    ensures Return(m1) == Return(m)
    ensures t.To6? ==> MoveTo6(m1, t.coa6, p) == MoveTo6(m, t.coa6, p)
    ensures t.To4? ==> MoveTo4(m1, t.coa4, t.nat1, p) == MoveTo4(m, t.coa4, t.nat1, p)
  {
  }

  function Forgotten(m: Mobile): Mobile {
    m.(t66 := if m.coaType == V6 then 0 else m.t66,
       t64 := if OnV4(m) then 0 else m.t64, t44 := if OnV4(m) then 0 else m.t44)
  }

  /** What the pool answers, and becomes, for an IPv6 address. */
  ghost predicate Picked6(p: State, q: State, c: Config, coa: Ip6, ifindex: int, now: int, picks: Picks) {
    var key := Key6(c, coa, ifindex);
    p.Ok() && now < MAX_TIME && q == Added6(p, key, now) && picks == Picks6(p, key, now)
  }

  /** ... and for an IPv4 one. */
  ghost predicate Picked4(p: State, q: State, c: Config, coa: Ip4, ifindex: int, now: int, picks: Picks) {
    var key := Key4(c, coa, ifindex);
    p.Ok() && now < MAX_TIME && q == Added4(p, key, now) && picks == Picks4(p, key, now)
  }
}
