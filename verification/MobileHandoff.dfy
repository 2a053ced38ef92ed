/** What is installed for the mobile node's binding, and what one handoff does to
    it, request by request. */
module MobileHandoff {
  import opened Addresses
  import opened MobileKernel
  import opened MobilePlans

  predicate Clean(n: Net) {
    n.tmp4.None? && n.tmp6.None? && !n.rule4 && n.rule6 == 0
  }

  predicate Held(n: Net, id: int) {
    id != 0 && id in n.live
  }

  predicate Backed(n: Net) {
    (n.main4.Some? ==> n.main4.value in n.live) && (n.main6.Some? ==> n.main6.value in n.live)
  }

  /** The care-of type says exactly which tunnels are in use, whether the home
      address option is installed, and whether UDP encapsulation is. */
  predicate Installed(n: Net, m: Mobile) {
    && Clean(n) && Backed(n)
    && (if m.coaType == V6 then Held(n, m.t66) && n.dstPolicy && n.dstState == Some(m.coav6)
        else m.t66 == 0 && !n.dstPolicy && n.dstState.None?)
    && (if OnV4(m) then Held(n, m.t44) && Held(n, m.t64) else m.t44 == m.t64 == 0)
    && n.encap == if m.coaType == V4Nat then Some(m.coav4) else None
  }

  /** Table 252 routes both home addresses into the tunnels in use. */
  predicate Routed(n: Net, m: Mobile) {
    if m.coaType == V6 then n.main4 == n.main6 == Some(m.t66)
    else if OnV4(m) then n.main4 == Some(m.t44) && n.main6 == Some(m.t64)
    else n.main4.None? && n.main6.None?
  }

  function InUse(m: Mobile): set<int> {
    if m.coaType == V6 then {m.t66} else if OnV4(m) then {m.t44, m.t64} else {}
  }

  /** The pool hands out real tunnels, and the first one stays for the second. */
  predicate Fits(a: Action, p: Picks) {
    match a
    case Bind6 => p.t66 != 0
    case Bind4 => p.t44 != 0 && p.t64 != 0 && p.t64 !in p.gone44
    case _ => true
  }

  /** ... and gives up none that is in use. */
  predicate Spares(m: Mobile, a: Action, p: Picks) {
    match a
    case Bind6 => p.gone66 !! InUse(m)
    case Bind4 => p.gone64 !! InUse(m) && p.gone44 !! InUse(m)
    case _ => true
  }

  // -------------------------------------------------------------------- phases

  function Pooled(n: Net, gone: set<int>, id: int): Net {
    n.(live := n.live - gone + {id}, main4 := Without(n.main4, gone), main6 := Without(n.main6, gone),
       tmp4 := Without(n.tmp4, gone), tmp6 := Without(n.tmp6, gone))
  }

  /** With no rule of priority 887, table 252 delivers both addresses. */
  predicate ViaMain(n: Net, via: set<int>) {
    && !n.rule4 && n.rule6 == 0
    && n.main4.Some? && n.main4.value in n.live && n.main4.value in via
    && n.main6.Some? && n.main6.value in n.live && n.main6.value in via
  }

  lemma FromPoolIs(n: Net, gone: set<int>, id: int, via: set<int>)
    ensures Steps(n, FromPool(gone, id)) == Pooled(n, gone, id)
    ensures ViaMain(n, via) ==>
      (Throughout(n, via, FromPool(gone, id)) <==> n.main4.value !in gone && n.main6.value !in gone)
    ensures ViaMain(n, via) && n.main4.value !in gone && n.main6.value !in gone ==> ViaMain(Pooled(n, gone, id), via)
  {
    var n1 := Step(n, TunnelsDown(gone));
    Steps2(n, n1, Step(n1, TunnelUp(id)), TunnelsDown(gone), TunnelUp(id), via);
  }

  lemma TmpUpIs(n: Net, n4: int, n6: int, via: set<int>)
    requires Clean(n) && n4 in n.live && n6 in n.live
    ensures Steps(n, TmpUp(n4, n6)) == n.(tmp4 := Some(n4), tmp6 := Some(n6))
    ensures ViaMain(n, via) ==> Throughout(n, via, TmpUp(n4, n6))
  {
    var a, b := RouteAdd(Tmp, F4, n4), RouteAdd(Tmp, F6, n6);
    var n1 := Step(n, a);
    Steps2(n, n1, Step(n1, b), a, b, via);
  }

  /** The rules divert both addresses to the temporary routes. */
  predicate Diverted(n: Net, n4: int, n6: int) {
    n.rule4 && n.rule6 == 1 && n.tmp4 == Some(n4) && n.tmp6 == Some(n6) && n4 in n.live && n6 in n.live
  }

  lemma RulesUpIs(n: Net, n4: int, n6: int, via: set<int>)
    requires !n.rule4 && n.rule6 == 0 && n.tmp4 == Some(n4) && n.tmp6 == Some(n6) && n4 in n.live && n6 in n.live
    ensures Steps(n, RulesUp()) == n.(rule4 := true, rule6 := 1)
    ensures Diverted(Steps(n, RulesUp()), n4, n6)
    ensures ViaMain(n, via) && n4 in via && n6 in via ==> Throughout(n, via, RulesUp())
  {
    var n1 := Step(n, RuleAdd(F4));
    Steps2(n, n1, Step(n1, RuleAdd(F6)), RuleAdd(F4), RuleAdd(F6), via);
  }

  // a request that table 251, its rules and the tunnels do not notice
  predicate Behind(op: Op) {
    match op
    case RouteAdd(t, _, _) => t == Main
    case RouteDel(t, _, _, _) => t == Main
    case TunnelUp(_) => false
    case TunnelsDown(_) => false
    case RuleAdd(_) => false
    case RuleDel(_) => false
    case _ => true
  }

  predicate AllBehind(ops: seq<Op>) {
    forall i | 0 <= i < |ops| :: Behind(ops[i])
  }

  /** While the temporary routes are in force, nothing done to table 252, the
      encapsulation or the home address option interrupts delivery. */
  lemma {:induction false} DivertedHolds(n: Net, n4: int, n6: int, ops: seq<Op>, via: set<int>)
    requires Diverted(n, n4, n6) && AllBehind(ops)
    ensures Diverted(Steps(n, ops), n4, n6) && Steps(n, ops).live == n.live
    ensures n4 in via && n6 in via ==> Throughout(n, via, ops)
    decreases ops
  {
    if ops != [] {
      assert Behind(ops[0]);
      DivertedHolds(Step(n, ops[0]), n4, n6, ops[1..], via);
    }
  }

  function Cleared(r: Option<int>, id: int): Option<int> {
    if r == Some(id) then None else r
  }

  function Released(n: Net, m: Mobile): Net {
    if m.coaType == V6 then
      n.(main4 := Cleared(n.main4, m.t66), main6 := Cleared(n.main6, m.t66), dstPolicy := false, dstState := None)
    else if OnV4(m) then n.(main4 := Cleared(n.main4, m.t44), main6 := Cleared(n.main6, m.t64))
    else n
  }

  lemma ReleaseIs(n: Net, m: Mobile, via: set<int>)
    requires (m.coaType == V6 ==> m.t66 != 0) && (OnV4(m) ==> m.t44 != 0 && m.t64 != 0)
    ensures Steps(n, Release(m)) == Released(n, m) && AllBehind(Release(m))
  {
    if m.coaType == V6 {
      var a, b := RouteDel(Main, F4, m.t66, false), RouteDel(Main, F6, m.t66, false);
      var n1 := Step(n, a);
      var n2 := Step(n1, b);
      var n3 := Step(n2, DstPolicyDel);
      Steps4(n, n1, n2, n3, Step(n3, DstStateDel), a, b, DstPolicyDel, DstStateDel, via);
      assert Release(m) == [a, b, DstPolicyDel, DstStateDel];
    } else if OnV4(m) {
      var a, b := RouteDel(Main, F4, m.t44, false), RouteDel(Main, F6, m.t64, false);
      var n1 := Step(n, a);
      Steps2(n, n1, Step(n1, b), a, b, via);
    }
  }

  lemma EncapOffIs(n: Net, m: Mobile, via: set<int>)
    requires n.encap == if m.coaType == V4Nat then Some(m.coav4) else None
    ensures Steps(n, EncapOff(m)) == n.(encap := None) && AllBehind(EncapOff(m))
    ensures ViaMain(n, via) ==> Throughout(n, via, EncapOff(m))
  {
    if m.coaType == V4Nat {
      Steps1(n, EncapStop(m.coav4), via);
    }
  }

  function Settled(n: Net, n4: int, n6: int): Net {
    n.(main4 := if n.main4.Some? then n.main4 else Some(n4), main6 := if n.main6.Some? then n.main6 else Some(n6),
       faults := n.faults + (if n.main4.Some? then 1 else 0) + (if n.main6.Some? then 1 else 0))
  }

  lemma MainUpIs(n: Net, n4: int, n6: int, via: set<int>)
    requires n4 in n.live && n6 in n.live
    ensures Steps(n, MainUp(n4, n6)) == Settled(n, n4, n6) && AllBehind(MainUp(n4, n6))
  {
    var a, b := RouteAdd(Main, F4, n4), RouteAdd(Main, F6, n6);
    var n1 := Step(n, a);
    Steps2(n, n1, Step(n1, b), a, b, via);
  }

  lemma DstUpIs(n: Net, coa: Ip6, via: set<int>)
    requires !n.dstPolicy && n.dstState.None?
    ensures Steps(n, [DstPolicyAdd, DstStateAdd(coa)]) == n.(dstPolicy := true, dstState := Some(coa))
    ensures AllBehind([DstPolicyAdd, DstStateAdd(coa)])
  {
    var n1 := Step(n, DstPolicyAdd);
    Steps2(n, n1, Step(n1, DstStateAdd(coa)), DstPolicyAdd, DstStateAdd(coa), via);
  }

  lemma TmpDownIs(n: Net, n4: int, n6: int, via: set<int>)
    requires Diverted(n, n4, n6) && n4 != 0 && n6 != 0
    ensures Steps(n, TmpDown(n4, n6)) == n.(tmp4 := None, tmp6 := None, rule4 := false, rule6 := 0)
    ensures n4 in via && n6 in via && n.main4 == Some(n4) && n.main6 == Some(n6) ==> Throughout(n, via, TmpDown(n4, n6))
  {
    var a, b := RouteDel(Tmp, F4, n4, false), RouteDel(Tmp, F6, n6, false);
    var n1 := Step(n, a);
    var n2 := Step(n1, b);
    var n3 := Step(n2, RuleDel(F4));
    Steps4(n, n1, n2, n3, Step(n3, RuleDel(F6)), a, b, RuleDel(F4), RuleDel(F6), via);
  }

  lemma BehindConcat(a: seq<Op>, b: seq<Op>)
    requires AllBehind(a) && AllBehind(b)
    ensures AllBehind(a + b)
  {
  }

  // ----------------------------------------------------------- the whole handoff

  /** What replaces the old routes while the temporary ones are in force. */
  function Swap6(m: Mobile, coa: Ip6, id: int): seq<Op> {
    EncapOff(m) + Release(m) + MainUp(id, id) + [DstPolicyAdd, DstStateAdd(coa)]
  }

  lemma Swap6Is(n: Net, m: Mobile, coa: Ip6, id: int, via: set<int>)
    requires (m.coaType == V6 ==> m.t66 != 0) && (OnV4(m) ==> m.t44 != 0 && m.t64 != 0)
    requires n.encap == (if m.coaType == V4Nat then Some(m.coav4) else None)
    requires m.coaType != V6 ==> !n.dstPolicy && n.dstState.None?
    requires id in n.live
    ensures Steps(n, Swap6(m, coa, id))
         == Settled(Released(n.(encap := None), m), id, id).(dstPolicy := true, dstState := Some(coa))
    ensures AllBehind(Swap6(m, coa, id))
  {
    var n1 := n.(encap := None);
    var n2 := Released(n1, m);
    var n3 := Settled(n2, id, id);
    EncapOffIs(n, m, via);
    ReleaseIs(n1, m, via);
    MainUpIs(n2, id, id, via);
    DstUpIs(n3, coa, via);
    StepsConcat(n, via, EncapOff(m), Release(m));
    StepsConcat(n, via, EncapOff(m) + Release(m), MainUp(id, id));
    StepsConcat(n, via, EncapOff(m) + Release(m) + MainUp(id, id), [DstPolicyAdd, DstStateAdd(coa)]);
    BehindConcat(EncapOff(m), Release(m));
    BehindConcat(EncapOff(m) + Release(m), MainUp(id, id));
    BehindConcat(EncapOff(m) + Release(m) + MainUp(id, id), [DstPolicyAdd, DstStateAdd(coa)]);
  }

  predicate Foreign(m: Mobile) {
    m.coaType != AtHome
  }

  function Reach(m: Mobile, p: Picks): set<int> {
    InUse(m) + {p.t66, p.t64, p.t44}
  }

  lemma UsableMain(n: Net, m: Mobile, via: set<int>)
    requires Installed(n, m) && Routed(n, m) && Foreign(m) && InUse(m) <= via
    ensures ViaMain(n, via) && InUse(m) == {n.main4.value, n.main6.value}
  {
  }

  function Open6(n: Net, p: Picks): Net {
    Pooled(n, p.gone66, p.t66).(tmp4 := Some(p.t66), tmp6 := Some(p.t66), rule4 := true, rule6 := 1)
  }

  lemma Open6Is(n: Net, m: Mobile, p: Picks, via: set<int>)
    requires Installed(n, m) && Fits(Bind6, p)
    ensures var ops := FromPool(p.gone66, p.t66) + TmpUp(p.t66, p.t66) + RulesUp();
      && Steps(n, ops) == Open6(n, p) && Diverted(Open6(n, p), p.t66, p.t66)
      && (Routed(n, m) && Foreign(m) && InUse(m) <= via && p.t66 in via ==>
          (Throughout(n, via, ops) <==> Spares(m, Bind6, p)))
  {
    var n1 := Pooled(n, p.gone66, p.t66);
    var n2 := n1.(tmp4 := Some(p.t66), tmp6 := Some(p.t66));
    if Routed(n, m) && Foreign(m) && InUse(m) <= via {
      UsableMain(n, m, via);
    }
    FromPoolIs(n, p.gone66, p.t66, via);
    TmpUpIs(n1, p.t66, p.t66, via);
    RulesUpIs(n2, p.t66, p.t66, via);
    StepsConcat(n, via, FromPool(p.gone66, p.t66), TmpUp(p.t66, p.t66));
    StepsConcat(n, via, FromPool(p.gone66, p.t66) + TmpUp(p.t66, p.t66), RulesUp());
  }

  function Moved6(n: Net, m: Mobile, coa: Ip6, p: Picks): Net {
    var n1 := Released(Pooled(n, p.gone66, p.t66).(encap := None), m);
    Settled(n1, p.t66, p.t66).(dstPolicy := true, dstState := Some(coa))
  }

  lemma MoveTo6Is(n: Net, m: Mobile, coa: Ip6, p: Picks, via: set<int>)
    requires Installed(n, m) && Fits(Bind6, p)
    ensures Steps(n, MoveTo6(m, coa, p)) == Moved6(n, m, coa, p)
    ensures Routed(n, m) && Foreign(m) && InUse(m) <= via && p.t66 in via ==>
      (Throughout(n, via, MoveTo6(m, coa, p)) <==> Spares(m, Bind6, p))
  {
    var open := FromPool(p.gone66, p.t66) + TmpUp(p.t66, p.t66) + RulesUp();
    var swap := Swap6(m, coa, p.t66);
    var down := TmpDown(p.t66, p.t66);
    assert MoveTo6(m, coa, p) == open + swap + down;
    var n1 := Open6(n, p);
    Open6Is(n, m, p, via);
    Swap6Is(n1, m, coa, p.t66, via);
    DivertedHolds(n1, p.t66, p.t66, swap, via);
    var n2 := Steps(n1, swap);
    TmpDownIs(n2, p.t66, p.t66, via);
    StepsConcat(n, via, open, swap);
    StepsConcat(n, via, open + swap, down);
  }

  function Swap4(m: Mobile, p: Picks): seq<Op> {
    Release(m) + MainUp(p.t44, p.t64)
  }

  lemma Swap4Is(n: Net, m: Mobile, p: Picks, via: set<int>)
    requires (m.coaType == V6 ==> m.t66 != 0) && (OnV4(m) ==> m.t44 != 0 && m.t64 != 0)
    requires p.t44 in n.live && p.t64 in n.live
    ensures Steps(n, Swap4(m, p)) == Settled(Released(n, m), p.t44, p.t64)
    ensures AllBehind(Swap4(m, p))
  {
    ReleaseIs(n, m, via);
    MainUpIs(Released(n, m), p.t44, p.t64, via);
    StepsConcat(n, via, Release(m), MainUp(p.t44, p.t64));
    BehindConcat(Release(m), MainUp(p.t44, p.t64));
  }

  /** The encapsulation after the exchange: a move that does not ask for it leaves
      the old one as it was. */
  function Wrapped(m: Mobile, coa: Ip4, nat1: bool): Option<Ip4> {
    if nat1 then Some(coa) else if m.coaType == V4Nat then Some(m.coav4) else None
  }

  lemma EncapSwapIs(n: Net, m: Mobile, coa: Ip4, nat1: bool, via: set<int>)
    requires n.encap == if m.coaType == V4Nat then Some(m.coav4) else None
    ensures Steps(n, EncapSwap(m, coa, nat1)) == n.(encap := Wrapped(m, coa, nat1))
    ensures ViaMain(n, via) ==> Throughout(n, via, EncapSwap(m, coa, nat1))
  {
    if nat1 {
      EncapOffIs(n, m, via);
      Steps1(n.(encap := None), EncapStart(coa), via);
      StepsConcat(n, via, EncapOff(m), [EncapStart(coa)]);
    }
  }

  function Pooled4(n: Net, p: Picks): Net {
    Pooled(Pooled(n, p.gone64, p.t64), p.gone44, p.t44)
  }

  lemma Pool4Is(n: Net, m: Mobile, p: Picks, via: set<int>)
    requires Installed(n, m) && Fits(Bind4, p)
    ensures var ops := FromPool(p.gone64, p.t64) + FromPool(p.gone44, p.t44); var n' := Pooled4(n, p);
      && Steps(n, ops) == n' && Clean(n') && p.t44 in n'.live && p.t64 in n'.live
      && (Routed(n, m) && Foreign(m) && InUse(m) <= via ==> (Throughout(n, via, ops) <==> Spares(m, Bind4, p)))
      && (Routed(n, m) && Foreign(m) && InUse(m) <= via && Spares(m, Bind4, p) ==> ViaMain(n', via))
  {
    var n1 := Pooled(n, p.gone64, p.t64);
    if Routed(n, m) && Foreign(m) && InUse(m) <= via {
      UsableMain(n, m, via);
    }
    FromPoolIs(n, p.gone64, p.t64, via);
    FromPoolIs(n1, p.gone44, p.t44, via);
    StepsConcat(n, via, FromPool(p.gone64, p.t64), FromPool(p.gone44, p.t44));
  }

  function Open4(n: Net, m: Mobile, coa: Ip4, nat1: bool, p: Picks): Net {
    Pooled4(n, p).(tmp4 := Some(p.t44), tmp6 := Some(p.t64), encap := Wrapped(m, coa, nat1), rule4 := true, rule6 := 1)
  }

  lemma Open4Is(n: Net, m: Mobile, coa: Ip4, nat1: bool, p: Picks, via: set<int>)
    requires Installed(n, m) && Fits(Bind4, p)
    ensures var ops := FromPool(p.gone64, p.t64) + FromPool(p.gone44, p.t44) + TmpUp(p.t44, p.t64)
      + EncapSwap(m, coa, nat1) + RulesUp();
      && Steps(n, ops) == Open4(n, m, coa, nat1, p) && Diverted(Open4(n, m, coa, nat1, p), p.t44, p.t64)
      && (Routed(n, m) && Foreign(m) && InUse(m) <= via && p.t44 in via && p.t64 in via ==>
          (Throughout(n, via, ops) <==> Spares(m, Bind4, p)))
  {
    var pool := FromPool(p.gone64, p.t64) + FromPool(p.gone44, p.t44);
    var n1 := Pooled4(n, p);
    var n2 := n1.(tmp4 := Some(p.t44), tmp6 := Some(p.t64));
    var n3 := n2.(encap := Wrapped(m, coa, nat1));
    Pool4Is(n, m, p, via);
    TmpUpIs(n1, p.t44, p.t64, via);
    EncapSwapIs(n2, m, coa, nat1, via);
    RulesUpIs(n3, p.t44, p.t64, via);
    StepsConcat(n, via, pool, TmpUp(p.t44, p.t64));
    StepsConcat(n, via, pool + TmpUp(p.t44, p.t64), EncapSwap(m, coa, nat1));
    StepsConcat(n, via, pool + TmpUp(p.t44, p.t64) + EncapSwap(m, coa, nat1), RulesUp());
  }

  function Moved4(n: Net, m: Mobile, coa: Ip4, nat1: bool, p: Picks): Net {
    Settled(Released(Pooled4(n, p).(encap := Wrapped(m, coa, nat1)), m), p.t44, p.t64)
  }

  lemma MoveTo4Is(n: Net, m: Mobile, coa: Ip4, nat1: bool, p: Picks, via: set<int>)
    requires Installed(n, m) && Fits(Bind4, p)
    ensures Steps(n, MoveTo4(m, coa, nat1, p)) == Moved4(n, m, coa, nat1, p)
    ensures Routed(n, m) && Foreign(m) && InUse(m) <= via && p.t44 in via && p.t64 in via ==>
      (Throughout(n, via, MoveTo4(m, coa, nat1, p)) <==> Spares(m, Bind4, p))
  {
    var open := FromPool(p.gone64, p.t64) + FromPool(p.gone44, p.t44) + TmpUp(p.t44, p.t64)
        + EncapSwap(m, coa, nat1) + RulesUp();
    var swap := Swap4(m, p);
    var down := TmpDown(p.t44, p.t64);
    assert MoveTo4(m, coa, nat1, p) == open + swap + down;
    var n1 := Open4(n, m, coa, nat1, p);
    Open4Is(n, m, coa, nat1, p, via);
    Swap4Is(n1, m, p, via);
    DivertedHolds(n1, p.t44, p.t64, swap, via);
    TmpDownIs(Steps(n1, swap), p.t44, p.t64, via);
    StepsConcat(n, via, open, swap);
    StepsConcat(n, via, open + swap, down);
  }

  lemma ReturnIs(n: Net, m: Mobile, via: set<int>)
    requires Installed(n, m)
    ensures Steps(n, Return(m)) == if m.coaType == V6 then Released(n, m) else n.(encap := None)
  {
    if m.coaType == V6 {
      ReleaseIs(n, m, via);
    } else if OnV4(m) {
      var a, b := RouteDel(Main, F4, m.t44, true), RouteDel(Main, F6, m.t64, true);
      EncapOffIs(n, m, via);
      var n1 := n.(encap := None);
      Steps2(n1, n1, n1, a, b, via);
      StepsConcat(n, via, EncapOff(m), [a, b]);
    }
  }
}
