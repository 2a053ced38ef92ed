/** What is installed for a mobile node, and what one move of it does: every
    lemma here is about the requests of a plan, executed one after the other. */
module HomeAgentMoves {
  import opened Addresses
  import opened HomeAgentKernel
  import opened HomeAgentPlans

  function Owned(m: Mn): set<int> {
    if m.active < 0 then {m.tnl66} else if m.active > 0 then {m.tnl44, m.tnl64} else {}
  }

  /** The XFRM state the record says the node uses. */
  function OwnedKeys(c: Config, m: Mn): set<StateKey>
    requires m.active < |m.slots|
  {
    if NatedActive(m) then {SlotEncap(c, m.slots[m.active]).Key()} else {}
  }

  /** Encapsulated as the slot asks: a state with its port, and the policies. */
  predicate Wrapped(c: Config, v: View, s: Slot) {
    var e := SlotEncap(c, s);
    v.policy == Some(e.Key()) && e.Key() in v.states && v.states[e.Key()] == e.port
  }

  predicate TmpEmpty(v: View) {
    v.tmp4.None? && v.tmp6.None?
  }

  predicate TmpVia(v: View, n4: int, n6: int) {
    v.tmp4 == Some(n4) && v.tmp6 == Some(n6) && v.rule4 && v.rule6 > 0
  }

  predicate MainVia(v: View, n4: int, n6: int) {
    v.main4 == Some(n4) && v.main6 == Some(n6)
  }

  predicate MainEmpty(v: View) {
    v.main4.None? && v.main6.None?
  }

  predicate HasTunnel(v: View, id: int, kind: Kind, local: Ip6, remote: Ip6) {
    && id != 0 && id in v.tunnels
    && v.tunnels[id].kind == kind && v.tunnels[id].local == local && v.tunnels[id].remote == remote
  }

  /** The record's own shape: slot 0 is never used, interfaces have one index. */
  ghost predicate Shape(m: Mn) {
    && |m.slots| == NIF + 1
    && -1 <= m.active <= NIF
    && m.slots[0].coa == INADDR_ANY
    && |m.nifMap| <= NIF
    && (forall i, j | 0 <= i < j < |m.nifMap| :: m.nifMap[i] != m.nifMap[j])
  }

  /** `active` says exactly what the kernel holds for the mobile node. The only
      entries that may linger in table 251 are those of a move from a NATed IPv4
      to an IPv6 care-of address. */
  predicate Installed(c: Config, v: View, m: Mn)
    requires |m.slots| == NIF + 1 && m.active <= NIF
  {
    if m.active == 0 then
      && m.tnl44 == m.tnl64 == m.tnl66 == 0
      && MainEmpty(v) && TmpEmpty(v) && v.policy.None?
    else if m.active < 0 then
      && m.tnl44 == m.tnl64 == 0
      && HasTunnel(v, m.tnl66, T66, c.hav6, m.coav6)
      && MainVia(v, m.tnl66, m.tnl66)
      && (TmpEmpty(v) || TmpVia(v, m.tnl66, m.tnl66))
      && v.policy.None?
    else
      var s := m.slots[m.active];
      && m.tnl66 == 0 && m.tnl44 != m.tnl64
      && HasTunnel(v, m.tnl44, T44, MapAddr(c.hav4), MapAddr(s.coa))
      && HasTunnel(v, m.tnl64, T64, MapAddr(c.hav4), MapAddr(s.coa))
      && MainVia(v, m.tnl44, m.tnl64)
      && TmpEmpty(v)
      && if s.inNat then Wrapped(c, v, s) else v.policy.None?
  }

  // -------------------------------------------------------------------- phases

  lemma Steps1(v: View, a: Op, via: set<int>)
    ensures Steps(v, [a]) == Step(v, a)
    ensures Throughout(v, via, [a]) <==> ViewDelivers(Step(v, a), via)
  {
    assert [a][1..] == [];
  }

  lemma Steps2(v: View, v1: View, v2: View, a: Op, b: Op, via: set<int>)
    requires v1 == Step(v, a) && v2 == Step(v1, b)
    ensures Steps(v, [a, b]) == v2
    ensures Throughout(v, via, [a, b]) <==> ViewDelivers(v1, via) && ViewDelivers(v2, via)
  {
    Steps1(v, a, via);
    Steps1(v1, b, via);
    assert [a, b] == [a] + [b];
    StepsConcat(v, via, [a], [b]);
  }

  lemma Steps4(v: View, v1: View, v2: View, v3: View, v4: View, a: Op, b: Op, d: Op, e: Op, via: set<int>)
    requires v1 == Step(v, a) && v2 == Step(v1, b) && v3 == Step(v2, d) && v4 == Step(v3, e)
    ensures Steps(v, [a, b, d, e]) == v4
    ensures Throughout(v, via, [a, b, d, e])
       <==> ViewDelivers(v1, via) && ViewDelivers(v2, via) && ViewDelivers(v3, via) && ViewDelivers(v4, via)
  {
    Steps2(v, v1, v2, a, b, via);
    Steps2(v2, v3, v4, d, e, via);
    assert [a, b, d, e] == [a, b] + [d, e];
    StepsConcat(v, via, [a, b], [d, e]);
  }

  lemma TmpUpFree(v: View, h: Home, n4: int, n6: int, via: set<int>)
    requires n4 in v.tunnels && n4 in via && n6 in v.tunnels && n6 in via
    requires ViewDelivers(v, via) && TmpEmpty(v)
    ensures Steps(v, TmpUp(h, n4, n6)) == v.(tmp4 := Some(n4), tmp6 := Some(n6), rule4 := true, rule6 := v.rule6 + 1)
    ensures Throughout(v, via, TmpUp(h, n4, n6))
  {
    var v1 := v.(tmp4 := Some(n4));
    var v2 := v1.(tmp6 := Some(n6));
    var v3 := v2.(rule4 := true);
    var v4 := v3.(rule6 := v.rule6 + 1);
    Steps4(v, v1, v2, v3, v4, RouteAdd(h.To4(Tmp), n4), RouteAdd(h.To6(Tmp), n6),
           RuleAdd(D4(h.v4)), RuleAdd(D6(h.v6)), via);
  }

  lemma TmpUpTaken(v: View, h: Home, n4: int, n6: int, via: set<int>)
    requires ViewDelivers(v, via) && v.tmp4.Some? && v.tmp6.Some? && v.rule4 && v.rule6 > 0
    ensures Steps(v, TmpUp(h, n4, n6)) == v.(rule6 := v.rule6 + 1, faults := v.faults + 2)
    ensures Throughout(v, via, TmpUp(h, n4, n6))
  {
    var v1 := v.(faults := v.faults + 1);
    var v2 := v1.(faults := v.faults + 2);
    var v4 := v2.(rule6 := v.rule6 + 1);
    Steps4(v, v1, v2, v2, v4, RouteAdd(h.To4(Tmp), n4), RouteAdd(h.To6(Tmp), n6),
           RuleAdd(D4(h.v4)), RuleAdd(D6(h.v6)), via);
  }

  /** Table 251 takes the new routes if it was empty, and refuses both if not. */
  lemma TmpUpEffect(v: View, h: Home, n4: int, n6: int, via: set<int>)
    requires {n4, n6} <= v.tunnels.Keys * via
    requires ViewDelivers(v, via)
    requires TmpEmpty(v) || (v.tmp4.Some? && v.tmp6.Some? && v.rule4 && v.rule6 > 0)
    ensures Steps(v, TmpUp(h, n4, n6)) ==
            if TmpEmpty(v) then v.(tmp4 := Some(n4), tmp6 := Some(n6), rule4 := true, rule6 := v.rule6 + 1)
            else v.(rule6 := v.rule6 + 1, faults := v.faults + 2)
    ensures Throughout(v, via, TmpUp(h, n4, n6))
  {
    assert n4 in {n4, n6} && n6 in {n4, n6};
    if TmpEmpty(v) {
      TmpUpFree(v, h, n4, n6, via);
    } else {
      TmpUpTaken(v, h, n4, n6, via);
    }
  }

  function Dropped(v: View, ids: set<int>): View {
    v.(main4 := None, main6 := None, tmp4 := Without(v.tmp4, ids), tmp6 := Without(v.tmp6, ids),
       tunnels := v.tunnels - ids)
  }

  /** The old tunnels take the main routes, and whatever else used them, along;
      routes into other tunnels stay. */
  lemma ReleaseEffect(v: View, m: Mn, via: set<int>)
    requires m.active != 0
    requires m.active < 0 ==> MainVia(v, m.tnl66, m.tnl66) && m.tnl66 in v.tunnels
    requires m.active > 0 ==> MainVia(v, m.tnl44, m.tnl64) && {m.tnl44, m.tnl64} <= v.tunnels.Keys && m.tnl44 != m.tnl64
    ensures Steps(v, Release(m)) == Dropped(v, Owned(m))
    ensures v.tmp4.Some? && v.tmp6.Some? && v.rule4 && v.rule6 > 0
            && {v.tmp4.value, v.tmp6.value} <= v.tunnels.Keys * via - Owned(m)
        ==> Throughout(v, via, Release(m))
  {
    var h := m.home;
    if m.active < 0 {
      var a, b := RouteDel(h.To4(Main), m.tnl66), RouteDel(h.To6(Main), m.tnl66);
      var v1 := Step(v, a);
      var v2 := Step(v1, b);
      assert v2 == v.(main4 := None, main6 := None);
      var v3 := Step(v2, TunnelDel(m.tnl66));
      assert v3 == Dropped(v, Owned(m));
      Steps2(v, v1, v2, a, b, via);
      Steps1(v2, TunnelDel(m.tnl66), via);
      assert Release(m) == [a, b] + [TunnelDel(m.tnl66)];
      StepsConcat(v, via, [a, b], [TunnelDel(m.tnl66)]);
    } else {
      var v1 := Step(v, TunnelDel(m.tnl44));
      var v2 := Step(v1, TunnelDel(m.tnl64));
      assert v1.tunnels - {m.tnl64} == v.tunnels - Owned(m);
      assert v2 == Dropped(v, Owned(m));
      Steps2(v, v1, v2, TunnelDel(m.tnl44), TunnelDel(m.tnl64), via);
    }
  }

  /** Table 252 takes the new routes. */
  lemma MainUpEffect(v: View, h: Home, n4: int, n6: int, via: set<int>)
    requires {n4, n6} <= v.tunnels.Keys * via
    requires MainEmpty(v)
    ensures Steps(v, MainUp(h, n4, n6)) == v.(main4 := Some(n4), main6 := Some(n6))
    ensures ViewDelivers(v, via) ==> Throughout(v, via, MainUp(h, n4, n6))
  {
    var v1 := Step(v, RouteAdd(h.To4(Main), n4));
    var v2 := Step(v1, RouteAdd(h.To6(Main), n6));
    Steps2(v, v1, v2, RouteAdd(h.To4(Main), n4), RouteAdd(h.To6(Main), n6), via);
  }

  /** Table 251 and one rule of each family go; table 252 takes over. */
  lemma TmpDownEffect(v: View, h: Home, n4: int, n6: int, via: set<int>)
    requires {n4, n6} <= v.tunnels.Keys * via
    requires MainVia(v, n4, n6) && v.rule6 > 0
    requires TmpEmpty(v) || TmpVia(v, n4, n6)
    ensures Steps(v, TmpDown(h, n4, n6)) == v.(tmp4 := None, tmp6 := None, rule4 := false, rule6 := v.rule6 - 1)
    ensures Throughout(v, via, TmpDown(h, n4, n6))
  {
    var a, b, d, e := RuleDel(D6(h.v6)), RuleDel(D4(h.v4)), RouteDel(h.To4(Tmp), n4), RouteDel(h.To6(Tmp), n6);
    var v1 := Step(v, a);
    var v2 := Step(v1, b);
    var v3 := Step(v2, d);
    var v4 := Step(v3, e);
    Steps4(v, v1, v2, v3, v4, a, b, d, e, via);
  }

  lemma EncapOffEffect(c: Config, v: View, m: Mn, via: set<int>)
    requires m.active < |m.slots|
    requires if NatedActive(m) then Wrapped(c, v, m.slots[m.active]) else v.policy.None?
    ensures Steps(v, EncapOff(c, m)) == v.(policy := None, states := v.states - OwnedKeys(c, m))
    ensures ViewDelivers(v, via) ==> Throughout(v, via, EncapOff(c, m))
  {
    if NatedActive(m) {
      Steps1(v, EncapOff(c, m)[0], via);
    } else {
      assert v.states - {} == v.states;
    }
  }

  // ---------------------------------------------------------------- whole moves

  /** The view after a move to new tunnels n4 and n6. */
  function Moved(c: Config, v: View, m: Mn, n4: int, n6: int, tidy: bool): View
    requires m.active < |m.slots|
  {
    var v1 := v.(main4 := Some(n4), main6 := Some(n6), tunnels := v.tunnels - Owned(m),
                 policy := None, states := v.states - OwnedKeys(c, m));
    if m.active == 0 then v1
    else
      var v2 := v1.(faults := if TmpEmpty(v) then v.faults else v.faults + 2);
      if tidy then v2.(tmp4 := None, tmp6 := None, rule4 := false)
      else v2.(tmp4 := Some(n4), tmp6 := Some(n6), rule4 := true, rule6 := v.rule6 + 1)
  }

  predicate Ready(v: View, m: Mn, n4: int, n6: int, via: set<int>) {
    && n4 != 0 && n6 != 0
    && {n4, n6} <= v.tunnels.Keys * via - Owned(m)
    && Owned(m) <= via
  }

  /** The middle of a move, from the temporary routes to the main routes: it is
      make-before-break exactly when table 251 was empty. */
  lemma SwitchOver(c: Config, v: View, m: Mn, n4: int, n6: int, via: set<int>)
    requires Shape(m) && Installed(c, v, m) && m.active != 0 && Ready(v, m, n4, n6, via)
    ensures var ops := TmpUp(m.home, n4, n6) + Release(m) + MainUp(m.home, n4, n6);
      && Steps(v, ops) == v.(main4 := Some(n4), main6 := Some(n6), tunnels := v.tunnels - Owned(m),
                             rule4 := true, rule6 := v.rule6 + 1,
                             tmp4 := if TmpEmpty(v) then Some(n4) else None,
                             tmp6 := if TmpEmpty(v) then Some(n6) else None,
                             faults := if TmpEmpty(v) then v.faults else v.faults + 2)
      && (Throughout(v, via, ops) <==> TmpEmpty(v))
  {
    var h := m.home;
    TmpUpEffect(v, h, n4, n6, via);
    var v1 := Steps(v, TmpUp(h, n4, n6));
    ReleaseEffect(v1, m, via);
    var v2 := Steps(v1, Release(m));
    MainUpEffect(v2, h, n4, n6, via);
    StepsConcat(v, via, TmpUp(h, n4, n6), Release(m));
    StepsConcat(v, via, TmpUp(h, n4, n6) + Release(m), MainUp(h, n4, n6));
    if !TmpEmpty(v) {
      assert !ViewDelivers(v2, via);
      if Throughout(v1, via, Release(m)) {
        ThroughoutEnds(v1, via, Release(m));
      }
    }
  }

  lemma {:induction false} ThroughoutEnds(v: View, via: set<int>, ops: seq<Op>)
    requires ops != [] && Throughout(v, via, ops)
    ensures ViewDelivers(Steps(v, ops), via)
    decreases ops
  {
    if |ops| > 1 {
      ThroughoutEnds(Step(v, ops[0]), via, ops[1..]);
    }
  }

  /** Everything after the new tunnels exist and before an encapsulation starts. */
  function Core(c: Config, m: Mn, n4: int, n6: int, tidy: bool): seq<Op>
    requires m.active < |m.slots|
  {
    (if m.active != 0 then TmpUp(m.home, n4, n6) + Release(m) else [])
    + MainUp(m.home, n4, n6)
    + EncapOff(c, m)
    + (if tidy then TmpDown(m.home, n4, n6) else [])
  }

  lemma CoreEffect(c: Config, v: View, m: Mn, n4: int, n6: int, tidy: bool, via: set<int>)
    requires Shape(m) && Installed(c, v, m) && Ready(v, m, n4, n6, via)
    requires tidy ==> m.active != 0
    requires !tidy ==> m.active == 0 || NatedActive(m)
    ensures Steps(v, Core(c, m, n4, n6, tidy)) == Moved(c, v, m, n4, n6, tidy)
    ensures m.active != 0 ==> (Throughout(v, via, Core(c, m, n4, n6, tidy)) <==> TmpEmpty(v))
  {
    var h := m.home;
    var a := if m.active != 0 then TmpUp(h, n4, n6) + Release(m) + MainUp(h, n4, n6) else [] + MainUp(h, n4, n6);
    if m.active != 0 {
      SwitchOver(c, v, m, n4, n6, via);
    } else {
      MainUpEffect(v, h, n4, n6, via);
      assert a == MainUp(h, n4, n6);
    }
    var v1 := Steps(v, a);
    EncapOffEffect(c, v1, m, via);
    var v2 := Steps(v1, EncapOff(c, m));
    StepsConcat(v, via, a, EncapOff(c, m));
    var b := if tidy then TmpDown(h, n4, n6) else [];
    if tidy {
      TmpDownEffect(v2, h, n4, n6, via);
    }
    StepsConcat(v, via, a + EncapOff(c, m), b);
    assert Core(c, m, n4, n6, tidy) == a + EncapOff(c, m) + b;
    if m.active != 0 && TmpEmpty(v) {
      assert ViewDelivers(v1, via);
    }
  }

  predicate FreshIds(tunnels: map<int, Tunnel>, ids: Ids) {
    && ids.t44 != ids.t64 && ids.t44 != ids.t66 && ids.t64 != ids.t66
    && 0 !in {ids.t44, ids.t64, ids.t66}
    && {ids.t44, ids.t64, ids.t66} !! tunnels.Keys
  }

  function IdSet(ids: Ids): set<int> {
    {ids.t44, ids.t64, ids.t66}
  }

  function With4(c: Config, v: View, coa: Ip4, link: int, ids: Ids): View {
    v.(tunnels := v.tunnels[ids.t64 := Tunnel(T64, MapAddr(c.hav4), MapAddr(coa), link)]
                           [ids.t44 := Tunnel(T44, MapAddr(c.hav4), MapAddr(coa), link)])
  }

  lemma Tunnels4Effect(c: Config, v: View, coa: Ip4, link: int, ids: Ids, via: set<int>)
    requires FreshIds(v.tunnels, ids)
    ensures Steps(v, Tunnels4(c, coa, link, ids)) == With4(c, v, coa, link, ids)
    ensures ViewDelivers(v, via) ==> Throughout(v, via, Tunnels4(c, coa, link, ids))
  {
    var adds := Tunnels4(c, coa, link, ids);
    var v1 := Step(v, adds[0]);
    var v2 := Step(v1, adds[1]);
    Steps2(v, v1, v2, adds[0], adds[1], via);
  }

  lemma With4Installed(c: Config, v: View, m: Mn, coa: Ip4, link: int, ids: Ids)
    requires Shape(m) && Installed(c, v, m) && FreshIds(v.tunnels, ids)
    ensures Installed(c, With4(c, v, coa, link, ids), m)
    ensures Ready(With4(c, v, coa, link, ids), m, ids.t44, ids.t64, Owned(m) + IdSet(ids))
    ensures m.active != 0 ==> ViewDelivers(v, Owned(m) + IdSet(ids))
  {
  }

  /** Starting the slot's encapsulation, which is refused if its state is there. */
  function Wrapping(c: Config, v: View, s: Slot): View {
    var e := SlotEncap(c, s);
    if !s.inNat then v
    else if e.Key() in v.states then v.(faults := v.faults + 1)
    else v.(states := v.states[e.Key() := e.port], policy := Some(e.Key()))
  }

  /** The view after a move to the IPv4 care-of address in slot icoa. */
  function MovedTo4(c: Config, v: View, m: Mn, icoa: nat, link: int, ids: Ids): View
    requires icoa < |m.slots| && m.active < |m.slots|
  {
    var s := m.slots[icoa];
    Wrapping(c, Moved(c, With4(c, v, s.coa, link, ids), m, ids.t44, ids.t64, m.active != 0), s)
  }

  lemma MoveTo4Parts(c: Config, m: Mn, icoa: nat, link: int, ids: Ids)
    requires Shape(m) && icoa <= NIF
    ensures MoveTo4(c, m, icoa, link, ids)
         == Tunnels4(c, m.slots[icoa].coa, link, ids) + Core(c, m, ids.t44, ids.t64, m.active != 0)
             + EncapOn(c, m, icoa)
  {
  }

  lemma EncapOnEffect(c: Config, v: View, m: Mn, icoa: nat, via: set<int>)
    requires icoa < |m.slots| && v.policy.None?
    ensures Steps(v, EncapOn(c, m, icoa)) == Wrapping(c, v, m.slots[icoa])
    ensures ViewDelivers(v, via) ==> Throughout(v, via, EncapOn(c, m, icoa))
  {
    if m.slots[icoa].inNat {
      Steps1(v, EncapOn(c, m, icoa)[0], via);
    }
  }

  /** A move to an IPv4 care-of address. */
  lemma MoveTo4Effect(c: Config, v: View, m: Mn, icoa: nat, link: int, ids: Ids, via: set<int>)
    requires Shape(m) && Installed(c, v, m) && FreshIds(v.tunnels, ids) && icoa <= NIF
    requires via == Owned(m) + IdSet(ids)
    ensures Steps(v, MoveTo4(c, m, icoa, link, ids)) == MovedTo4(c, v, m, icoa, link, ids)
    ensures m.active != 0 ==> (Throughout(v, via, MoveTo4(c, m, icoa, link, ids)) <==> TmpEmpty(v))
  {
    var coa := m.slots[icoa].coa;
    var adds := Tunnels4(c, coa, link, ids);
    var v2 := With4(c, v, coa, link, ids);
    Tunnels4Effect(c, v, coa, link, ids, via);
    With4Installed(c, v, m, coa, link, ids);
    var tidy := m.active != 0;
    CoreEffect(c, v2, m, ids.t44, ids.t64, tidy, via);
    var core := Core(c, m, ids.t44, ids.t64, tidy);
    var v3 := Steps(v2, core);
    StepsConcat(v, via, adds, core);
    var on := EncapOn(c, m, icoa);
    EncapOnEffect(c, v3, m, icoa, via);
    StepsConcat(v, via, adds + core, on);
    MoveTo4Parts(c, m, icoa, link, ids);
    assert TmpEmpty(v) <==> TmpEmpty(v2);
    assert ViewDelivers(v3, via);
  }

  /** The view after a move to an IPv6 care-of address. */
  function MovedTo6(c: Config, v: View, m: Mn, coa: Ip6, link: int, ids: Ids): View
    requires m.active < |m.slots|
  {
    var v1 := v.(tunnels := v.tunnels[ids.t66 := Tunnel(T66, c.hav6, coa, link)]);
    Moved(c, v1, m, ids.t66, ids.t66, m.active != 0 && !NatedActive(m))
  }

  lemma With6Ready(c: Config, v: View, m: Mn, coa: Ip6, link: int, ids: Ids, via: set<int>)
    requires Shape(m) && Installed(c, v, m) && FreshIds(v.tunnels, ids) && via == Owned(m) + IdSet(ids)
    ensures var v1 := Step(v, TunnelAdd(ids.t66, Tunnel(T66, c.hav6, coa, link)));
      && Installed(c, v1, m) && Ready(v1, m, ids.t66, ids.t66, via) && (TmpEmpty(v1) <==> TmpEmpty(v))
      && (ViewDelivers(v, via) ==> ViewDelivers(v1, via)) && (m.active != 0 ==> ViewDelivers(v1, via))
  {
  }

  /** A move to an IPv6 care-of address. */
  lemma MoveTo6Effect(c: Config, v: View, m: Mn, coa: Ip6, link: int, ids: Ids, via: set<int>)
    requires Shape(m) && Installed(c, v, m) && FreshIds(v.tunnels, ids)
    requires via == Owned(m) + IdSet(ids)
    ensures Steps(v, MoveTo6(c, m, coa, link, ids)) == MovedTo6(c, v, m, coa, link, ids)
    ensures m.active != 0 ==> (Throughout(v, via, MoveTo6(c, m, coa, link, ids)) <==> TmpEmpty(v))
  {
    var add := TunnelAdd(ids.t66, Tunnel(T66, c.hav6, coa, link));
    var v1 := Step(v, add);
    var tidy := m.active != 0 && !NatedActive(m);
    Steps1(v, add, via);
    With6Ready(c, v, m, coa, link, ids, via);
    CoreEffect(c, v1, m, ids.t66, ids.t66, tidy, via);
    StepsConcat(v, via, [add], Core(c, m, ids.t66, ids.t66, tidy));
    MoveTo6Parts(c, m, coa, link, ids);
  }

  lemma MoveTo6Parts(c: Config, m: Mn, coa: Ip6, link: int, ids: Ids)
    requires m.active < |m.slots|
    ensures MoveTo6(c, m, coa, link, ids)
         == [TunnelAdd(ids.t66, Tunnel(T66, c.hav6, coa, link))]
             + Core(c, m, ids.t66, ids.t66, m.active != 0 && !NatedActive(m))
  {
  }

  /** The view of a mobile node that owns nothing any more. */
  function Freed(c: Config, v: View, m: Mn): View
    requires m.active < |m.slots|
  {
    Dropped(v, Owned(m)).(policy := None, states := v.states - OwnedKeys(c, m))
  }

  lemma Home4Steps(v: View, h: Home, n4: int, n6: int)
    requires MainVia(v, n4, n6) && TmpEmpty(v)
    ensures Steps(v, [RouteDel(h.To4(Main), n4), RouteDel(h.To6(Main), n6), TunnelDel(n4), TunnelDel(n6)])
         == v.(main4 := None, main6 := None, tunnels := v.tunnels - {n4, n6})
  {
    var a, b, d, e := RouteDel(h.To4(Main), n4), RouteDel(h.To6(Main), n6), TunnelDel(n4), TunnelDel(n6);
    var v1 := v.(main4 := None);
    var v2 := v1.(main6 := None);
    var v3 := v2.(tunnels := v.tunnels - {n4});
    var v4 := v3.(tunnels := v3.tunnels - {n6});
    Steps4(v, v1, v2, v3, v4, a, b, d, e, {});
    assert v4.tunnels == v.tunnels - {n4, n6};
  }

  lemma Home4Effect(c: Config, v: View, m: Mn)
    requires Shape(m) && Installed(c, v, m) && m.active > 0
    ensures Steps(v, GoHome(c, m)) == Freed(c, v, m)
  {
    var h := m.home;
    EncapOffEffect(c, v, m, {});
    Home4Steps(Steps(v, EncapOff(c, m)), h, m.tnl44, m.tnl64);
    StepsConcat(v, {}, EncapOff(c, m),
                [RouteDel(h.To4(Main), m.tnl44), RouteDel(h.To6(Main), m.tnl64),
                 TunnelDel(m.tnl44), TunnelDel(m.tnl64)]);
  }

  lemma GoHomeEffect(c: Config, v: View, m: Mn)
    requires Shape(m) && Installed(c, v, m)
    ensures Steps(v, GoHome(c, m)) == Freed(c, v, m)
  {
    if m.active < 0 {
      ReleaseEffect(v, m, {});
      assert v.states - {} == v.states;
    } else if m.active > 0 {
      Home4Effect(c, v, m);
    } else {
      assert v.tunnels - {} == v.tunnels && v.states - {} == v.states;
    }
  }

  lemma ExpireEffect(c: Config, v: View, m: Mn)
    requires Shape(m) && Installed(c, v, m)
    ensures Steps(v, Expire(c, m)) == Freed(c, v, m)
  {
    if m.active < 0 {
      ReleaseEffect(v, m, {});
      assert v.states - {} == v.states;
      Steps1(Steps(v, Release(m)), TunnelDel(m.tnl66), {});
      StepsConcat(v, {}, Release(m), [TunnelDel(m.tnl66)]);
      assert Expire(c, m) == Release(m) + [TunnelDel(m.tnl66)];
      assert v.tunnels - Owned(m) - {m.tnl66} == v.tunnels - Owned(m);
    } else if m.active > 0 {
      Expire4Effect(c, v, m);
    } else {
      assert v.tunnels - {} == v.tunnels && v.states - {} == v.states;
    }
  }

  lemma Expire4Effect(c: Config, v: View, m: Mn)
    requires Shape(m) && Installed(c, v, m) && m.active > 0
    ensures Steps(v, Expire(c, m)) == Freed(c, v, m)
  {
    var h := m.home;
    EncapOffEffect(c, v, m, {});
    var v0 := Steps(v, EncapOff(c, m));
    var a, b := RouteDel(h.To4(Main), m.tnl44), TunnelDel(m.tnl44);
    var d, e := RouteDel(h.To6(Main), m.tnl64), TunnelDel(m.tnl64);
    var v1 := Step(v0, a);
    assert v1 == v0.(main4 := None);
    var v2 := Step(v1, b);
    assert v2 == v0.(main4 := None, tunnels := v.tunnels - {m.tnl44});
    var v3 := Step(v2, d);
    assert v3 == v0.(main4 := None, main6 := None, tunnels := v.tunnels - {m.tnl44});
    var v4 := Step(v3, e);
    Steps4(v0, v1, v2, v3, v4, a, b, d, e, {});
    StepsConcat(v, {}, EncapOff(c, m), [a, b, d, e]);
    assert Expire(c, m) == EncapOff(c, m) + [a, b, d, e];
    assert v4.tunnels == v.tunnels - Owned(m);
  }
}
