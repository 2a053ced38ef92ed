/** What the mobile node sees of the kernel: its tunnels, the default routes of
    tables 251 (temporary) and 252 (main), the rule of priority 887, and the XFRM
    entries for UDP encapsulation and for the home address option. */
module MobileKernel {
  import opened Addresses

  datatype Table = Tmp | Main
  datatype Family = F4 | F6

  /** dstPolicy and dstState are the two entries mn_dstopt_policies_add makes;
      `encap` is the source of the encapsulation. `faults` counts adds that are
      turned down. */
  datatype Net = Net(live: set<int>,
                     main4: Option<int>, main6: Option<int>, tmp4: Option<int>, tmp6: Option<int>,
                     rule4: bool, rule6: nat,
                     encap: Option<Ip4>, dstPolicy: bool, dstState: Option<Ip6>, faults: nat)

  datatype Op =
    // a tunnel from the pool is up: made for the purpose, or up already
    | TunnelUp(id: int)
    // tunnels the pool deletes, and the routes into them with them
    | TunnelsDown(gone: set<int>)
    | RouteAdd(table: Table, family: Family, id: int)
    // the home source key matches no route: all are added for any source
    | RouteDel(table: Table, family: Family, id: int, homeSource: bool)
    | RuleAdd(family: Family)
    | RuleDel(family: Family)
    | EncapStart(coa: Ip4)
    | EncapStop(coa: Ip4)
    | DstPolicyAdd
    | DstStateAdd(coa6: Ip6)
    | DstPolicyDel
    | DstStateDel

  function RouteIn(n: Net, t: Table, f: Family): Option<int> {
    match (t, f)
    case (Main, F4) => n.main4
    case (Main, F6) => n.main6
    case (Tmp, F4) => n.tmp4
    case (Tmp, F6) => n.tmp6
  }

  function WithRoute(n: Net, t: Table, f: Family, r: Option<int>): Net {
    match (t, f)
    case (Main, F4) => n.(main4 := r)
    case (Main, F6) => n.(main6 := r)
    case (Tmp, F4) => n.(tmp4 := r)
    case (Tmp, F6) => n.(tmp6 := r)
  }

  function Without(r: Option<int>, gone: set<int>): Option<int> {
    if r.Some? && r.value in gone then None else r
  }

  function Fault(n: Net): Net {
    n.(faults := n.faults + 1)
  }

  function Step(n: Net, op: Op): Net {
    match op
    case TunnelUp(id) => n.(live := n.live + {id})
    case TunnelsDown(gone) =>
      n.(live := n.live - gone, main4 := Without(n.main4, gone), main6 := Without(n.main6, gone),
         tmp4 := Without(n.tmp4, gone), tmp6 := Without(n.tmp6, gone))
    case RouteAdd(t, f, id) =>
      if RouteIn(n, t, f).Some? || id !in n.live then Fault(n) else WithRoute(n, t, f, Some(id))
    case RouteDel(t, f, id, homeSource) =>
      if !homeSource && RouteIn(n, t, f).Some? && (id == 0 || RouteIn(n, t, f) == Some(id))
      then WithRoute(n, t, f, None) else n
    case RuleAdd(f) => if f.F4? then n.(rule4 := true) else n.(rule6 := n.rule6 + 1)
    case RuleDel(f) => if f.F4? then n.(rule4 := false) else n.(rule6 := if n.rule6 == 0 then 0 else n.rule6 - 1)
    case EncapStart(coa) => if n.encap.Some? then Fault(n) else n.(encap := Some(coa))
    case EncapStop(coa) => if n.encap == Some(coa) then n.(encap := None) else Fault(n)
    case DstPolicyAdd => if n.dstPolicy then Fault(n) else n.(dstPolicy := true)
    case DstStateAdd(coa6) => if n.dstState.Some? then Fault(n) else n.(dstState := Some(coa6))
    case DstPolicyDel => n.(dstPolicy := false)
    case DstStateDel => n.(dstState := None)
  }

  function Steps(n: Net, ops: seq<Op>): Net
    decreases ops
  {
    if ops == [] then n else Steps(Step(n, ops[0]), ops[1..])
  }

  /** Both home addresses are routed into a live tunnel out of `via`. */
  predicate Delivers(n: Net, via: set<int>) {
    var r4 := if n.rule4 && n.tmp4.Some? then n.tmp4 else n.main4;
    var r6 := if n.rule6 > 0 && n.tmp6.Some? then n.tmp6 else n.main6;
    && r4.Some? && r4.value in n.live && r4.value in via
    && r6.Some? && r6.value in n.live && r6.value in via
  }

  /** ... after each single request. */
  predicate Throughout(n: Net, via: set<int>, ops: seq<Op>)
    decreases ops
  {
    ops == [] || (Delivers(Step(n, ops[0]), via) && Throughout(Step(n, ops[0]), via, ops[1..]))
  }

  lemma {:induction false} StepsConcat(n: Net, via: set<int>, a: seq<Op>, b: seq<Op>)
    ensures Steps(n, a + b) == Steps(Steps(n, a), b)
    ensures Throughout(n, via, a + b) <==> Throughout(n, via, a) && Throughout(Steps(n, a), via, b)
    decreases a
  {
    if a == [] {
      assert a + b == b;
    } else {
      assert (a + b)[1..] == a[1..] + b;
      StepsConcat(Step(n, a[0]), via, a[1..], b);
    }
  }

  /** Throughout is delivery after every non-empty prefix of the requests. */
  lemma {:induction false} ThroughoutIsEveryPrefix(n: Net, via: set<int>, ops: seq<Op>)
    ensures Throughout(n, via, ops) <==> forall m | 0 < m <= |ops| :: Delivers(Steps(n, ops[..m]), via)
    decreases ops
  {
    if ops != [] {
      var n1 := Step(n, ops[0]);
      ThroughoutIsEveryPrefix(n1, via, ops[1..]);
      forall m | 0 < m <= |ops|
        ensures Steps(n, ops[..m]) == Steps(n1, ops[1..][..m - 1])
      {
        assert ops[..m][1..] == ops[1..][..m - 1];
      }
      if forall m | 0 < m <= |ops| :: Delivers(Steps(n, ops[..m]), via) {
        assert Delivers(Steps(n, ops[..1]), via);
        forall m | 0 < m <= |ops[1..]|
          ensures Delivers(Steps(n1, ops[1..][..m]), via)
        {
          assert Delivers(Steps(n, ops[..m + 1]), via);
          assert ops[1..][..m + 1 - 1] == ops[1..][..m];
        }
      }
      if Throughout(n, via, ops) {
        forall m | 0 < m <= |ops|
          ensures Delivers(Steps(n, ops[..m]), via)
        {
          if m > 1 {
            assert Delivers(Steps(n1, ops[1..][..m - 1]), via);
          }
        }
      }
    }
  }

  lemma Steps1(n: Net, a: Op, via: set<int>)
    ensures Steps(n, [a]) == Step(n, a)
    ensures Throughout(n, via, [a]) <==> Delivers(Step(n, a), via)
  {
    assert [a][1..] == [];
  }

  lemma Steps2(n: Net, n1: Net, n2: Net, a: Op, b: Op, via: set<int>)
    requires n1 == Step(n, a) && n2 == Step(n1, b)
    ensures Steps(n, [a, b]) == n2
    ensures Throughout(n, via, [a, b]) <==> Delivers(n1, via) && Delivers(n2, via)
  {
    Steps1(n, a, via);
    Steps1(n1, b, via);
    assert [a, b] == [a] + [b];
    StepsConcat(n, via, [a], [b]);
  }

  lemma Steps4(n: Net, n1: Net, n2: Net, n3: Net, n4: Net, a: Op, b: Op, c: Op, d: Op, via: set<int>)
    requires n1 == Step(n, a) && n2 == Step(n1, b) && n3 == Step(n2, c) && n4 == Step(n3, d)
    ensures Steps(n, [a, b, c, d]) == n4
    ensures Throughout(n, via, [a, b, c, d])
      <==> Delivers(n1, via) && Delivers(n2, via) && Delivers(n3, via) && Delivers(n4, via)
  {
    Steps2(n, n1, n2, a, b, via);
    Steps2(n2, n3, n4, c, d, via);
    assert [a, b, c, d] == [a, b] + [c, d];
    StepsConcat(n, via, [a, b], [c, d]);
  }
}
