/** The home agent itself: ha_working with its table of mobile nodes, updated in
    place, issuing its kernel requests one at a time. */
module HomeAgent {
  import opened Addresses
  import opened HomeAgentKernel
  import opened HomeAgentPlans
  import opened HomeAgentMoves
  import opened HomeAgentRuns

  class Agent {
    const c: Config
    const mns: array<Mn>
    var kernel: Kernel
    // the next interface index the kernel hands out
    var nextIfindex: int

    // the requests made since `base`, the kernel at the start of an event
    ghost var base: Kernel
    ghost var log: seq<Op>

    ghost function Abs(): World
      reads this, mns
    {
      World(kernel, mns[..])
    }

    /** The requests logged lead from `base` to the kernel as it is, and the next
        interface index is not in use. */
    ghost predicate Tracks()
      reads this
    {
      && nextIfindex > 0
      && (forall id | id in kernel.tunnels :: id < nextIfindex)
      && kernel == ExecAll(base, log)
    }

    ghost predicate Valid()
      reads this, mns
    {
      Shaped(Abs()) && Tracks()
    }

    constructor (c: Config, homes: seq<Home>)
      requires |homes| <= MAX_MN_NUM && DistinctHomes(homes)
      ensures Valid() && WorldInv(c, Abs()) && this.c == c && fresh(mns)
      ensures Abs() == Boot(homes)
    {
      this.c := c;
      mns := new Mn[|homes|](i requires 0 <= i < |homes| => NewMn(homes[i]));
      kernel := EMPTY;
      nextIfindex := 1;
      base, log := EMPTY, [];
      new;
      assert mns[..] == Boot(homes).mns;
      BootInv(c, homes);
    }

    method Do(op: Op)
      requires Tracks()
      requires op.TunnelAdd? ==> op.id < nextIfindex
      modifies this`kernel, this`log
      ensures Tracks()
      ensures log == old(log) + [op]
    {
      kernel := Exec(kernel, op);
      log := log + [op];
      ExecAllConcat(base, old(log), [op]);
      assert [op][1..] == [];
    }

    /** tunnel44_add, tunnel64_add, tunnel66_add */
    method TunnelUp(info: Tunnel) returns (id: int)
      requires Tracks()
      modifies this`kernel, this`log, this`nextIfindex
      ensures Tracks() && id == old(nextIfindex) && nextIfindex == id + 1
      ensures log == old(log) + [TunnelAdd(id, info)]
    {
      id := nextIfindex;
      nextIfindex := nextIfindex + 1;
      Do(TunnelAdd(id, info));
    }

    /** Searching the table for a home address. */
    method FindMn(hoa: Ip6) returns (imn: nat)
      requires Valid()
      ensures imn == Find(mns[..], hoa)
    {
      imn := 0;
      while imn < mns.Length && mns[imn].home.v6 != hoa
        invariant imn <= mns.Length
        invariant forall j | 0 <= j < imn :: mns[j].home.v6 != hoa
      {
        imn := imn + 1;
      }
      FindIsFirst(mns[..], hoa, imn);
    }

    method StopEncap(m: Mn)
      requires Tracks() && 0 < m.active < |m.slots| && m.slots[m.active].inNat
      modifies this`kernel, this`log
      ensures Tracks() && log == old(log) + EncapOff(c, m)
    {
      var special := IpSpecial(m.slots[m.active].peer, c.special);
      Do(EncapStop(m.home, if special then c.hav42 else c.hav4, m.slots[m.active].peer));
    }

    method DropPair(id: int, key: Key)
      requires Tracks()
      modifies this`kernel, this`log
      ensures Tracks() && log == old(log) + if id != 0 then [RouteDel(key, id), TunnelDel(id)] else []
    {
      if id != 0 {
        Do(RouteDel(key, id));
        Do(TunnelDel(id));
      }
    }

    method TearDown4(m: Mn)
      requires Tracks() && 0 < m.active < |m.slots|
      modifies this`kernel, this`log
      ensures Tracks() && log == old(log) + Expire(c, m)
    {
      if m.slots[m.active].inNat {
        StopEncap(m);
      }
      assert log == old(log) + EncapOff(c, m);
      DropPair(m.tnl44, m.home.To4(Main));
      DropPair(m.tnl64, m.home.To6(Main));
    }

    /** The requests of mn_state_cleanup. */
    method TearDown(m: Mn)
      requires Tracks() && m.active < |m.slots|
      modifies this`kernel, this`log
      ensures Tracks() && log == old(log) + Expire(c, m)
    {
      if m.active > 0 {
        TearDown4(m);
      }
      if m.active < 0 && m.tnl66 != 0 {
        DropOld(m);
        Do(TunnelDel(m.tnl66));
      }
    }

    /** mn_state_cleanup */
    method MnStateCleanup(imn: nat)
      requires Valid() && imn < mns.Length
      modifies this`kernel, this`log, mns
      ensures Valid()
      ensures log == old(log) + Expire(c, old(mns[imn]))
      ensures mns[..] == old(mns[..])[imn := ExpireMn(old(mns[imn]))]
    {
      var m := mns[imn];
      TearDown(m);
      if m.active > 0 {
        mns[imn] := mns[imn].(tnl44 := 0, tnl64 := 0);
      } else if m.active < 0 {
        mns[imn] := mns[imn].(tnl66 := 0);
      }
      mns[imn] := mns[imn].(nifMap := [], active := 0, lastBuSeq := 0, slots := ClearCoas(m.slots));
    }

    /** nif_map */
    method NifMap(ifindex: int, nifMap: seq<int>) returns (i: nat)
      ensures i == NifIndex(ifindex, nifMap)
    {
      i := 0;
      while i < |nifMap| && nifMap[i] != ifindex
        invariant i <= |nifMap|
        invariant ifindex !in nifMap[..i]
      {
        i := i + 1;
      }
      NifIndexIsFirst(ifindex, nifMap, i);
    }

    /** What a NAT probe does to the record it is about. */
    method TakeProbe(m: Mn, p: Probe, now: int) returns (r: Mn)
      requires |m.slots| == NIF + 1
      ensures r == ProbeMn(m, p, now)
    {
      r := m;
      var icoa := NifMap(p.ifindex, r.nifMap);
      if icoa < NIF && icoa == |r.nifMap| {
        r := r.(nifMap := r.nifMap + [p.ifindex]);
      }
      icoa := icoa + 1;
      if icoa < NIF {
        var s := r.slots[icoa];
        if r.active == icoa
           && (s.coa != p.coa || (s.inNat && (s.peer != p.natIp || s.port != p.natPort))) {
          r := r.(slots := r.slots[NIF := s.(lastProbe := r.slots[NIF].lastProbe)]);
          r := r.(active := NIF);
        }
        s := s.(coa := p.coa, lastProbe := now);
        if p.coa != p.natIp || p.port != p.natPort {
          s := s.(inNat := true, peer := p.natIp, port := p.natPort);
        } else {
          s := s.(inNat := false);
        }
        r := r.(slots := r.slots[icoa := s]);
      }
    }

    /** A NAT probe. */
    method NatProbe(p: Probe, now: int)
      requires Valid()
      modifies mns
      ensures Valid()
      ensures Abs() == StepWorld(c, old(Abs()), OnProbe(p, now))
    {
      var imn := FindMn(p.hoa);
      if imn < mns.Length {
        mns[imn] := TakeProbe(mns[imn], p, now);
        assert mns[..] == old(mns[..])[imn := ProbeMn(old(mns[imn]), p, now)];
        assert kernel == old(kernel);
      }
    }

    /** Searching the slots for the care-of address of an update. */
    method FindSlot(slots: seq<Slot>, coa: Ip4) returns (icoa: nat)
      requires |slots| == NIF + 1
      ensures icoa == SlotOf(slots, coa, 0)
    {
      icoa := 0;
      while slots[icoa].coa != coa && icoa < NIF
        invariant icoa <= NIF
        invariant forall j | 0 <= j < icoa :: slots[j].coa != coa
        decreases NIF - icoa
      {
        icoa := icoa + 1;
      }
      SlotOfIsFirst(slots, coa, 0, icoa);
    }

    method MakeTmp(h: Home, n4: int, n6: int)
      requires Tracks()
      modifies this`kernel, this`log
      ensures Tracks() && log == old(log) + TmpUp(h, n4, n6)
    {
      Do(RouteAdd(h.To4(Tmp), n4));
      Do(RouteAdd(h.To6(Tmp), n6));
      Do(RuleAdd(D4(h.v4)));
      Do(RuleAdd(D6(h.v6)));
    }

    method DropTmp(h: Home, n4: int, n6: int)
      requires Tracks()
      modifies this`kernel, this`log
      ensures Tracks() && log == old(log) + TmpDown(h, n4, n6)
    {
      Do(RuleDel(D6(h.v6)));
      Do(RuleDel(D4(h.v4)));
      Do(RouteDel(h.To4(Tmp), n4));
      Do(RouteDel(h.To6(Tmp), n6));
    }

    /** Giving up the old tunnels in the middle of a move. */
    method DropOld(m: Mn)
      requires Tracks()
      modifies this`kernel, this`log
      ensures Tracks() && log == old(log) + Release(m)
    {
      if m.active < 0 {
        Do(RouteDel(m.home.To4(Main), m.tnl66));
        Do(RouteDel(m.home.To6(Main), m.tnl66));
        Do(TunnelDel(m.tnl66));
      } else if m.active > 0 {
        Do(TunnelDel(m.tnl44));
        Do(TunnelDel(m.tnl64));
      }
    }

    /** Temporary routes, end of the old tunnels, main routes. */
    method Switch(m: Mn, n4: int, n6: int)
      requires Tracks()
      modifies this`kernel, this`log
      ensures Tracks()
      ensures log == old(log) + ((if m.active != 0 then TmpUp(m.home, n4, n6) + Release(m) else [])
        + MainUp(m.home, n4, n6))
    {
      if m.active < 0 || m.active > 0 {
        MakeTmp(m.home, n4, n6);
        DropOld(m);
      }
      Do(RouteAdd(m.home.To4(Main), n4));
      Do(RouteAdd(m.home.To6(Main), n6));
    }

    /** The end of a move to an IPv4 address. */
    method FinishTo4(m: Mn, icoa: nat, n4: int, n6: int)
      requires Tracks() && |m.slots| == NIF + 1 && m.active <= NIF && icoa < NIF
      modifies this`kernel, this`log
      ensures Tracks()
      ensures log == old(log) + (EncapOff(c, m) + (if m.active != 0 then TmpDown(m.home, n4, n6) else [])
        + EncapOn(c, m, icoa))
    {
      if m.active > 0 && m.slots[m.active].inNat {
        StopEncap(m);
      }
      if m.active < 0 || m.active > 0 {
        DropTmp(m.home, n4, n6);
      }
      var s := m.slots[icoa];
      if s.inNat {
        var special := IpSpecial(s.peer, c.special);
        Do(EncapStart(m.home, Encap(if special then c.hav42 else c.hav4, s.peer, s.port)));
      }
    }

    /** The foreign IPv4 care-of address in slot icoa. */
    method BindTo4(m: Mn, icoa: nat, link: int) returns (ids: Ids)
      requires Tracks() && |m.slots| == NIF + 1 && m.active <= NIF && icoa < NIF
      modifies this`kernel, this`log, this`nextIfindex
      ensures Tracks() && FreshIds(old(kernel.tunnels), ids)
      ensures log == old(log) + MoveTo4(c, m, icoa, link, ids)
    {
      var coa := m.slots[icoa].coa;
      var t64 := TunnelUp(Tunnel(T64, MapAddr(c.hav4), MapAddr(coa), link));
      var t44 := TunnelUp(Tunnel(T44, MapAddr(c.hav4), MapAddr(coa), link));
      ids := Ids(t44, t64, nextIfindex);
      assert log == old(log) + Tunnels4(c, coa, link, ids);
      Switch(m, t44, t64);
      FinishTo4(m, icoa, t44, t64);
      MoveTo4Is(c, m, icoa, link, ids, old(log));
    }

    /** A foreign IPv6 care-of address. */
    method BindTo6(m: Mn, coa: Ip6, link: int) returns (ids: Ids)
      requires Tracks() && |m.slots| == NIF + 1 && m.active <= NIF
      modifies this`kernel, this`log, this`nextIfindex
      ensures Tracks() && FreshIds(old(kernel.tunnels), ids)
      ensures log == old(log) + MoveTo6(c, m, coa, link, ids)
    {
      var t66 := TunnelUp(Tunnel(T66, c.hav6, coa, link));
      ids := Ids(nextIfindex, nextIfindex + 1, t66);
      assert log == old(log) + Tunnels6(c, coa, link, ids);
      Switch(m, t66, t66);
      if m.active > 0 && m.slots[m.active].inNat {
        StopEncap(m);
      } else if m.active != 0 {
        DropTmp(m.home, t66, t66);
      }
      assert log == old(log) + MoveTo6(c, m, coa, link, ids);
    }

    /** Back at home. */
    method ReturnHome(m: Mn)
      requires Tracks() && |m.slots| == NIF + 1 && m.active <= NIF
      modifies this`kernel, this`log
      ensures Tracks() && log == old(log) + GoHome(c, m)
    {
      if m.active < 0 {
        DropOld(m);
      } else if m.active > 0 {
        if m.slots[m.active].inNat {
          StopEncap(m);
        }
        assert log == old(log) + EncapOff(c, m);
        LeaveHome4(m);
      }
    }

    method LeaveHome4(m: Mn)
      requires Tracks()
      modifies this`kernel, this`log
      ensures Tracks()
      ensures log == old(log) + [RouteDel(m.home.To4(Main), m.tnl44), RouteDel(m.home.To6(Main), m.tnl64),
                                 TunnelDel(m.tnl44), TunnelDel(m.tnl64)]
    {
      Do(RouteDel(m.home.To4(Main), m.tnl44));
      Do(RouteDel(m.home.To6(Main), m.tnl64));
      Do(TunnelDel(m.tnl44));
      Do(TunnelDel(m.tnl64));
    }

    /** What an accepted binding update asks the kernel for, and the record it
        leads to. */
    method Rebind(m: Mn, u: Update, now: int) returns (r: Mn, ids: Ids)
      requires Tracks() && |m.slots| == NIF + 1 && m.active <= NIF && !Ignored(m, u)
      modifies this`kernel, this`log, this`nextIfindex
      ensures Tracks() && FreshIds(old(kernel.tunnels), ids)
      ensures log == old(log) + UpdateOps(c, m, u, ids)
      ensures r == UpdateMn(m, u, now, ids)
    {
      ids := Ids(nextIfindex, nextIfindex + 1, nextIfindex + 2);
      r := m.(lastBuSeq := u.seqno, lastBuTime := now);
      if IsV4Mapped(u.coa) {
        var icoa := FindSlot(m.slots, u.coa.w3);
        if icoa != NIF && m.active != icoa {
          ids := BindTo4(m, icoa, u.link);
          if m.active < 0 {
            r := r.(tnl66 := 0);
          }
          r := r.(active := icoa, tnl64 := ids.t64, tnl44 := ids.t44);
        }
      } else if m.home.v6 == u.coa {
        ReturnHome(m);
        if m.active < 0 {
          r := r.(tnl66 := 0);
        } else if m.active > 0 {
          r := r.(tnl64 := 0, tnl44 := 0);
        }
        r := r.(active := 0);
      } else if !(m.active < 0 && m.coav6 == u.coa) {
        ids := BindTo6(m, u.coa, u.link);
        if m.active > 0 {
          r := r.(tnl64 := 0, tnl44 := 0);
        }
        r := r.(coav6 := u.coa, active := -1, tnl66 := ids.t66);
      }
    }

    /** A binding update; `ignored` tells that its sequence number was stale. */
    method BindingUpdate(u: Update, now: int) returns (ids: Ids, ignored: bool)
      requires Valid()
      modifies this, mns
      ensures Valid() && FreshIds(old(kernel.tunnels), ids)
      ensures Abs() == StepWorld(c, old(Abs()), OnUpdate(u, now, ids))
      ensures var i := Find(old(mns[..]), u.hoa); ignored == (i < mns.Length && Ignored(old(mns[..])[i], u))
    {
      base, log := kernel, [];
      ids := Ids(nextIfindex, nextIfindex + 1, nextIfindex + 2);
      ignored := false;
      ghost var w := Abs();
      var imn := FindMn(u.hoa);
      if imn < mns.Length {
        var m := mns[imn];
        if m.lastBuSeq > u.seqno && m.lastBuSeq - u.seqno < SEQ_WINDOW {
          ignored := true;
        } else {
          var r;
          r, ids := Rebind(m, u, now);
          mns[imn] := r;
        }
        assert log == UpdateOps(c, m, u, ids);
        assert mns[..] == w.mns[imn := UpdateMn(m, u, now, ids)];
      }
      UpdateStep(c, w, u, now, ids);
    }

    /** The clean-up of silent mobile nodes at the end of a turn. */
    method Sweep(now: int)
      requires Valid()
      modifies this`kernel, this`log, this`base, mns
      ensures Valid()
      ensures Abs() == StepWorld(c, old(Abs()), OnSweep(now))
    {
      var imn := 0;
      while imn < mns.Length
        invariant imn <= mns.Length && Valid()
        invariant SweepFrom(c, Abs(), imn, now) == SweepFrom(c, old(Abs()), 0, now)
      {
        SweepAt(imn, now);
        imn := imn + 1;
      }
    }

    method SweepAt(imn: nat, now: int)
      requires Valid() && imn < mns.Length
      modifies this`kernel, this`log, this`base, mns
      ensures Valid()
      ensures Abs() == SweepOne(c, old(Abs()), imn, now)
    {
      base, log := kernel, [];
      ghost var w := Abs();
      if now - mns[imn].lastBuTime > EXPIRY {
        MnStateCleanup(imn);
        assert log == Expire(c, w.mns[imn]);
      }
    }

    /** One turn of ha_working: a probe, an update, then the sweep, which a stale
        update skips. */
    method Turn(probe: Option<Probe>, update: Option<Update>, now: int)
      returns (skipped: bool, ghost ids: Ids, ghost es: seq<Event>)
      requires Valid()
      modifies this, mns
      ensures Valid()
      ensures es == (if probe.Some? then [OnProbe(probe.value, now)] else [])
                  + (if update.Some? then [OnUpdate(update.value, now, ids)] else [])
                  + (if skipped then [] else [OnSweep(now)])
      ensures Abs() == Run(c, old(Abs()), es)
      ensures WorldInv(c, old(Abs())) && LegalRun(c, old(Abs()), es) ==> WorldInv(c, Abs())
    {
      ghost var w0 := Abs();
      skipped, ids, es := Receive(probe, update, now);
      if !skipped {
        Sweep(now);
        RunSnoc(c, w0, es, OnSweep(now));
        es := es + [OnSweep(now)];
      }
      TurnInv(c, w0, es);
    }

    /** What the select loop has received. */
    method Receive(probe: Option<Probe>, update: Option<Update>, now: int)
      returns (skipped: bool, ghost ids: Ids, ghost es: seq<Event>)
      requires Valid()
      modifies this, mns
      ensures Valid()
      ensures es == (if probe.Some? then [OnProbe(probe.value, now)] else [])
                  + (if update.Some? then [OnUpdate(update.value, now, ids)] else [])
      ensures Abs() == Run(c, old(Abs()), es)
    {
      es, skipped := [], false;
      ghost var w0 := Abs();
      ids := Ids(0, 0, 0);
      if probe.Some? {
        NatProbe(probe.value, now);
        RunSnoc(c, w0, es, OnProbe(probe.value, now));
        es := es + [OnProbe(probe.value, now)];
      }
      assert Abs() == Run(c, w0, es);
      if update.Some? {
        ids, skipped := BindingUpdate(update.value, now);
        RunSnoc(c, w0, es, OnUpdate(update.value, now, ids));
        es := es + [OnUpdate(update.value, now, ids)];
      }
    }
  }

  // ------------------------------------------------------------------- lemmas

  lemma {:induction false} FindIsFirst(mns: seq<Mn>, hoa: Ip6, i: nat)
    requires i <= |mns| && (i < |mns| ==> mns[i].home.v6 == hoa)
    requires forall j | 0 <= j < i :: mns[j].home.v6 != hoa
    ensures Find(mns, hoa) == i
  {
    if i > 0 {
      FindIsFirst(mns[1..], hoa, i - 1);
    }
  }

  lemma {:induction false} NifIndexIsFirst(ifindex: int, nifMap: seq<int>, i: nat)
    requires i <= |nifMap| && (i < |nifMap| ==> nifMap[i] == ifindex)
    requires ifindex !in nifMap[..i]
    ensures NifIndex(ifindex, nifMap) == i
  {
    if i > 0 {
      assert nifMap[1..][..i - 1] == nifMap[..i][1..];
      NifIndexIsFirst(ifindex, nifMap[1..], i - 1);
    }
  }

  lemma {:induction false} SlotOfIsFirst(slots: seq<Slot>, coa: Ip4, from: nat, i: nat)
    requires |slots| == NIF + 1 && from <= i <= NIF && (i < NIF ==> slots[i].coa == coa)
    requires forall j | from <= j < i :: slots[j].coa != coa
    ensures SlotOf(slots, coa, from) == i
    decreases i - from
  {
    if from < i {
      SlotOfIsFirst(slots, coa, from + 1, i);
    }
  }

  lemma MoveTo4Is(c: Config, m: Mn, icoa: nat, link: int, ids: Ids, before: seq<Op>)
    requires |m.slots| == NIF + 1 && m.active <= NIF && icoa <= NIF
    ensures before + Tunnels4(c, m.slots[icoa].coa, link, ids)
      + ((if m.active != 0 then TmpUp(m.home, ids.t44, ids.t64) + Release(m) else [])
          + MainUp(m.home, ids.t44, ids.t64))
      + (EncapOff(c, m) + (if m.active != 0 then TmpDown(m.home, ids.t44, ids.t64) else []) + EncapOn(c, m, icoa))
      == before + MoveTo4(c, m, icoa, link, ids)
  {
    Regroup(before, Tunnels4(c, m.slots[icoa].coa, link, ids),
            if m.active != 0 then TmpUp(m.home, ids.t44, ids.t64) + Release(m) else [],
            MainUp(m.home, ids.t44, ids.t64), EncapOff(c, m),
            if m.active != 0 then TmpDown(m.home, ids.t44, ids.t64) else [], EncapOn(c, m, icoa));
  }

  lemma Regroup(l: seq<Op>, a: seq<Op>, b: seq<Op>, d: seq<Op>, e: seq<Op>, f: seq<Op>, g: seq<Op>)
    ensures l + a + (b + d) + (e + f + g) == l + (a + b + d + e + f + g)
  {
    assert l + a + (b + d) == l + (a + b + d);
    assert l + (a + b + d) + (e + f + g) == l + (a + b + d + e + f + g);
  }

  lemma UpdateStep(c: Config, w: World, u: Update, now: int, ids: Ids)
    requires Shaped(w)
    ensures var i := Find(w.mns, u.hoa);
      StepWorld(c, w, OnUpdate(u, now, ids))
      == if i == |w.mns| then w
         else World(ExecAll(w.kernel, UpdateOps(c, w.mns[i], u, ids)), w.mns[i := UpdateMn(w.mns[i], u, now, ids)])
  {
  }

  lemma TurnInv(c: Config, w: World, es: seq<Event>)
    requires Shaped(w)
    ensures WorldInv(c, w) && LegalRun(c, w, es) ==> WorldInv(c, Run(c, w, es))
  {
    if WorldInv(c, w) && LegalRun(c, w, es) {
      RunInv(c, w, es);
    }
  }
}
