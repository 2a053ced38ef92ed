/** What the home agent sees of the kernel: tunnels, the routing tables 251
    (temporary) and 252 (main), the policy rules of priority 887 that send a
    home address to table 251, and the XFRM entries of UDP encapsulation. */
module HomeAgentKernel {
  import opened Addresses

  datatype Kind = T44 | T64 | T66
  datatype Tunnel = Tunnel(kind: Kind, local: Ip6, remote: Ip6, link: int)

  // destination of a host route or rule
  datatype Dest = D4(a4: Ip4) | D6(a6: Ip6)

  datatype Table = Tmp | Main
  datatype Key = Key(table: Table, dst: Dest)

  // the two home addresses of a mobile node
  datatype Home = Home(v6: Ip6, v4: Ip4)
  {
    function To4(t: Table): Key { Key(t, D4(v4)) }
    function To6(t: Table): Key { Key(t, D6(v6)) }
  }

  datatype Encap = Encap(src: Ip4, dst: Ip4, port: int)
  {
    function Key(): StateKey { StateKey(src, dst) }
  }

  // an XFRM state is found by its two addresses, whoever it was made for
  datatype StateKey = StateKey(src: Ip4, dst: Ip4)

  /** `states` gives the port of an encapsulation state, `policies` the addresses
      in the template of a home's two policies. `faults` counts the requests the
      kernel turned down: an add whose key is taken or whose tunnel is gone, and
      the removal of an encapsulation that is not there. */
  datatype Kernel = Kernel(tunnels: map<int, Tunnel>,
                           routes: map<Key, int>,
                           rules: multiset<Dest>,
                           states: map<StateKey, int>,
                           policies: map<Home, StateKey>,
                           faults: nat)

  datatype Op =
    | TunnelAdd(id: int, info: Tunnel)
    | TunnelDel(id: int)
    | RouteAdd(key: Key, id: int)
    | RouteDel(key: Key, id: int)
    | RuleAdd(dst: Dest)
    | RuleDel(dst: Dest)
    | EncapStart(home: Home, encap: Encap)
    | EncapStop(home: Home, src: Ip4, peer: Ip4)

  const EMPTY := Kernel(map[], map[], multiset{}, map[], map[], 0)

  function Fault(k: Kernel): Kernel {
    k.(faults := k.faults + 1)
  }

  /** One kernel request. Route adds are exclusive, and so are IPv4 rule adds; an
      IPv6 rule can be added twice. Deleting a tunnel takes its routes with it.
      An encapsulation whose state is there is given up at once; one whose
      policies are there takes these away. */
  function Exec(k: Kernel, op: Op): Kernel {
    match op
    case TunnelAdd(id, info) =>
      if id in k.tunnels then Fault(k) else k.(tunnels := k.tunnels[id := info])
    case TunnelDel(id) =>
      k.(tunnels := k.tunnels - {id},
         routes := if id in k.tunnels then map x | x in k.routes && k.routes[x] != id :: k.routes[x] else k.routes)
    case RouteAdd(key, id) =>
      if key in k.routes || id !in k.tunnels then Fault(k) else k.(routes := k.routes[key := id])
    case RouteDel(key, id) =>
      if key in k.routes && (id == 0 || k.routes[key] == id) then k.(routes := k.routes - {key}) else k
    case RuleAdd(dst) =>
      if dst.D4? && dst in k.rules then k else k.(rules := k.rules + multiset{dst})
    case RuleDel(dst) =>
      k.(rules := k.rules - multiset{dst})
    case EncapStart(home, encap) =>
      if encap.Key() in k.states then Fault(k)
      else if home in k.policies then Fault(k.(policies := k.policies - {home}))
      else k.(states := k.states[encap.Key() := encap.port], policies := k.policies[home := encap.Key()])
    case EncapStop(home, src, peer) =>
      var k1 := k.(states := k.states - {StateKey(src, peer)}, policies := k.policies - {home});
      if StateKey(src, peer) in k.states && home in k.policies then k1 else Fault(k1)
  }

  function ExecAll(k: Kernel, ops: seq<Op>): Kernel
    decreases ops
  {
    if ops == [] then k else ExecAll(Exec(k, ops[0]), ops[1..])
  }

  lemma {:induction false} ExecAllConcat(k: Kernel, a: seq<Op>, b: seq<Op>)
    ensures ExecAll(k, a + b) == ExecAll(ExecAll(k, a), b)
    decreases a
  {
    if a == [] {
      assert a + b == b;
    } else {
      assert (a + b)[1..] == a[1..] + b;
      ExecAllConcat(Exec(k, a[0]), a[1..], b);
    }
  }

  // ---------------------------------------------------------------- forwarding

  /** The tunnel a packet for dst is sent into: rule 887 looks in table 251
      first, the standing rule 1005 looks in table 252. */
  function Lookup(k: Kernel, dst: Dest): Option<int> {
    if dst in k.rules && Key(Tmp, dst) in k.routes then Some(k.routes[Key(Tmp, dst)])
    else if Key(Main, dst) in k.routes then Some(k.routes[Key(Main, dst)])
    else None
  }

  /** Both home addresses are forwarded into a live tunnel out of `via`. */
  predicate Delivers(k: Kernel, h: Home, via: set<int>) {
    && Lookup(k, D4(h.v4)).Some? && Lookup(k, D4(h.v4)).value in k.tunnels && Lookup(k, D4(h.v4)).value in via
    && Lookup(k, D6(h.v6)).Some? && Lookup(k, D6(h.v6)).value in k.tunnels && Lookup(k, D6(h.v6)).value in via
  }

  // --------------------------------------------------- the kernel as one home sees it

  datatype View = View(main4: Option<int>, main6: Option<int>, tmp4: Option<int>, tmp6: Option<int>,
                       rule4: bool, rule6: nat, policy: Option<StateKey>,
                       states: map<StateKey, int>, tunnels: map<int, Tunnel>, faults: nat)

  function At(k: Kernel, key: Key): Option<int> {
    if key in k.routes then Some(k.routes[key]) else None
  }

  function ViewOf(k: Kernel, h: Home): View {
    View(At(k, h.To4(Main)), At(k, h.To6(Main)), At(k, h.To4(Tmp)), At(k, h.To6(Tmp)),
         D4(h.v4) in k.rules, k.rules[D6(h.v6)],
         if h in k.policies then Some(k.policies[h]) else None, k.states, k.tunnels, k.faults)
  }

  function Without(r: Option<int>, gone: set<int>): Option<int> {
    if r.Some? && r.value in gone then None else r
  }

  function RouteIn(v: View, key: Key): Option<int> {
    match key
    case Key(Main, D4(_)) => v.main4
    case Key(Main, D6(_)) => v.main6
    case Key(Tmp, D4(_)) => v.tmp4
    case Key(Tmp, D6(_)) => v.tmp6
  }

  function WithRoute(v: View, key: Key, r: Option<int>): View {
    match key
    case Key(Main, D4(_)) => v.(main4 := r)
    case Key(Main, D6(_)) => v.(main6 := r)
    case Key(Tmp, D4(_)) => v.(tmp4 := r)
    case Key(Tmp, D6(_)) => v.(tmp6 := r)
  }

  /** One request, as seen from the home it is about. */
  function Step(v: View, op: Op): View {
    match op
    case TunnelAdd(id, info) =>
      if id in v.tunnels then v.(faults := v.faults + 1) else v.(tunnels := v.tunnels[id := info])
    case TunnelDel(id) =>
      var v1 := v.(tunnels := v.tunnels - {id});
      if id in v.tunnels
      then v1.(main4 := Without(v.main4, {id}), main6 := Without(v.main6, {id}),
                    tmp4 := Without(v.tmp4, {id}), tmp6 := Without(v.tmp6, {id}))
      else v1
    case RouteAdd(key, id) =>
      if RouteIn(v, key).Some? || id !in v.tunnels then v.(faults := v.faults + 1) else WithRoute(v, key, Some(id))
    case RouteDel(key, id) =>
      if RouteIn(v, key).Some? && (id == 0 || RouteIn(v, key) == Some(id)) then WithRoute(v, key, None) else v
    case RuleAdd(dst) =>
      if dst.D4? then v.(rule4 := true) else v.(rule6 := v.rule6 + 1)
    case RuleDel(dst) =>
      if dst.D4? then v.(rule4 := false) else v.(rule6 := if v.rule6 == 0 then 0 else v.rule6 - 1)
    case EncapStart(_, encap) =>
      if encap.Key() in v.states then v.(faults := v.faults + 1)
      else if v.policy.Some? then v.(policy := None, faults := v.faults + 1)
      else v.(states := v.states[encap.Key() := encap.port], policy := Some(encap.Key()))
    case EncapStop(_, src, peer) =>
      var v1 := v.(states := v.states - {StateKey(src, peer)}, policy := None);
      if StateKey(src, peer) in v.states && v.policy.Some? then v1 else v1.(faults := v.faults + 1)
  }

  function Steps(v: View, ops: seq<Op>): View
    decreases ops
  {
    if ops == [] then v else Steps(Step(v, ops[0]), ops[1..])
  }

  predicate ViewDelivers(v: View, via: set<int>) {
    var r4 := if v.rule4 && v.tmp4.Some? then v.tmp4 else v.main4;
    var r6 := if v.rule6 > 0 && v.tmp6.Some? then v.tmp6 else v.main6;
    && r4.Some? && r4.value in v.tunnels && r4.value in via
    && r6.Some? && r6.value in v.tunnels && r6.value in via
  }

  /** Delivery holds after each single request of the list. */
  predicate Throughout(v: View, via: set<int>, ops: seq<Op>)
    decreases ops
  {
    ops == [] || (ViewDelivers(Step(v, ops[0]), via) && Throughout(Step(v, ops[0]), via, ops[1..]))
  }

  lemma {:induction false} StepsConcat(v: View, via: set<int>, a: seq<Op>, b: seq<Op>)
    ensures Steps(v, a + b) == Steps(Steps(v, a), b)
    ensures Throughout(v, via, a + b) <==> Throughout(v, via, a) && Throughout(Steps(v, a), via, b)
    decreases a
  {
    if a == [] {
      assert a + b == b;
    } else {
      assert (a + b)[1..] == a[1..] + b;
      StepsConcat(Step(v, a[0]), via, a[1..], b);
    }
  }

  /** The request only concerns home h and the tunnels in ids. */
  predicate Confined(op: Op, h: Home, ids: set<int>) {
    match op
    case TunnelAdd(id, _) => id in ids
    case TunnelDel(id) => id in ids
    case RouteAdd(key, id) => (key.dst == D4(h.v4) || key.dst == D6(h.v6)) && id in ids
    case RouteDel(key, id) => (key.dst == D4(h.v4) || key.dst == D6(h.v6))
    case RuleAdd(dst) => dst == D4(h.v4) || dst == D6(h.v6)
    case RuleDel(dst) => dst == D4(h.v4) || dst == D6(h.v6)
    case EncapStart(home, _) => home == h
    case EncapStop(home, _, _) => home == h
  }

  /** At most one IPv4 rule per home address, as exclusive adds keep it. */
  predicate SingleRules(k: Kernel, h: Home) {
    k.rules[D4(h.v4)] <= 1
  }

  lemma TunnelDelRoutes(k: Kernel, id: int, key: Key)
    ensures At(Exec(k, TunnelDel(id)), key) == if id in k.tunnels then Without(At(k, key), {id}) else At(k, key)
  {
  }

  lemma ViewTunnelStep(k: Kernel, h: Home, op: Op)
    requires SingleRules(k, h)
    requires op.TunnelAdd? || op.TunnelDel?
    ensures ViewOf(Exec(k, op), h) == Step(ViewOf(k, h), op)
    ensures SingleRules(Exec(k, op), h)
  {
    if op.TunnelDel? {
      TunnelDelRoutes(k, op.id, h.To4(Main));
      TunnelDelRoutes(k, op.id, h.To6(Main));
      TunnelDelRoutes(k, op.id, h.To4(Tmp));
      TunnelDelRoutes(k, op.id, h.To6(Tmp));
    }
  }

  lemma SetRoute(k: Kernel, h: Home, key: Key, r: Option<int>, k': Kernel)
    requires key.dst == D4(h.v4) || key.dst == D6(h.v6)
    requires k' == k.(routes := k'.routes)
    requires forall x {:trigger At(k', x)} :: At(k', x) == if x == key then r else At(k, x)
    ensures ViewOf(k', h) == WithRoute(ViewOf(k, h), key, r)
  {
    assert At(k', key) == r;
  }

  lemma ViewRouteAdd(k: Kernel, h: Home, ids: set<int>, op: Op)
    requires Confined(op, h, ids) && SingleRules(k, h) && op.RouteAdd?
    ensures ViewOf(Exec(k, op), h) == Step(ViewOf(k, h), op)
    ensures SingleRules(Exec(k, op), h)
  {
    var v := ViewOf(k, h);
    assert RouteIn(v, op.key) == At(k, op.key);
    if op.key !in k.routes && op.id in k.tunnels {
      SetRoute(k, h, op.key, Some(op.id), Exec(k, op));
    }
  }

  lemma ViewRouteDel(k: Kernel, h: Home, ids: set<int>, op: Op)
    requires Confined(op, h, ids) && SingleRules(k, h) && op.RouteDel?
    ensures ViewOf(Exec(k, op), h) == Step(ViewOf(k, h), op)
    ensures SingleRules(Exec(k, op), h)
  {
    var v := ViewOf(k, h);
    assert RouteIn(v, op.key) == At(k, op.key);
    if op.key in k.routes && (op.id == 0 || k.routes[op.key] == op.id) {
      SetRoute(k, h, op.key, None, Exec(k, op));
    }
  }

  /** Requests that leave routes and tunnels alone. */
  lemma SameRoutes(k: Kernel, k': Kernel, h: Home)
    requires k'.routes == k.routes && k'.tunnels == k.tunnels
    ensures var v, v' := ViewOf(k, h), ViewOf(k', h);
      && v'.main4 == v.main4 && v'.main6 == v.main6 && v'.tmp4 == v.tmp4 && v'.tmp6 == v.tmp6 && v'.tunnels == v.tunnels
  {
  }

  lemma ViewRuleAdd(k: Kernel, h: Home, ids: set<int>, op: Op)
    requires Confined(op, h, ids) && SingleRules(k, h) && op.RuleAdd?
    ensures ViewOf(Exec(k, op), h) == Step(ViewOf(k, h), op)
    ensures SingleRules(Exec(k, op), h)
  {
    SameRoutes(k, Exec(k, op), h);
  }

  lemma ViewRuleDel(k: Kernel, h: Home, ids: set<int>, op: Op)
    requires Confined(op, h, ids) && SingleRules(k, h) && op.RuleDel?
    ensures ViewOf(Exec(k, op), h) == Step(ViewOf(k, h), op)
    ensures SingleRules(Exec(k, op), h)
  {
    SameRoutes(k, Exec(k, op), h);
  }

  /** A view is its routes, rules, policy and states, tunnels and faults. */
  lemma ViewIs(k: Kernel, k': Kernel, h: Home, v: View)
    requires k'.routes == k.routes && k'.tunnels == k.tunnels && k'.rules == k.rules
    requires v == ViewOf(k, h).(policy := v.policy, states := k'.states, faults := k'.faults)
    requires v.policy == if h in k'.policies then Some(k'.policies[h]) else None
    ensures ViewOf(k', h) == v
  {
  }

  lemma ViewEncapStart(k: Kernel, h: Home, ids: set<int>, op: Op)
    requires Confined(op, h, ids) && SingleRules(k, h) && op.EncapStart?
    ensures ViewOf(Exec(k, op), h) == Step(ViewOf(k, h), op)
    ensures SingleRules(Exec(k, op), h)
  {
    ViewIs(k, Exec(k, op), h, Step(ViewOf(k, h), op));
  }

  lemma ViewEncapStop(k: Kernel, h: Home, ids: set<int>, op: Op)
    requires Confined(op, h, ids) && SingleRules(k, h) && op.EncapStop?
    ensures ViewOf(Exec(k, op), h) == Step(ViewOf(k, h), op)
    ensures SingleRules(Exec(k, op), h)
  {
    ViewIs(k, Exec(k, op), h, Step(ViewOf(k, h), op));
  }

  lemma ViewStep(k: Kernel, h: Home, ids: set<int>, op: Op)
    requires Confined(op, h, ids) && SingleRules(k, h)
    ensures ViewOf(Exec(k, op), h) == Step(ViewOf(k, h), op)
    ensures SingleRules(Exec(k, op), h)
  {
    if op.TunnelAdd? || op.TunnelDel? {
      ViewTunnelStep(k, h, op);
    } else if op.RouteAdd? {
      ViewRouteAdd(k, h, ids, op);
    } else if op.RouteDel? {
      ViewRouteDel(k, h, ids, op);
    } else if op.RuleAdd? {
      ViewRuleAdd(k, h, ids, op);
    } else if op.RuleDel? {
      ViewRuleDel(k, h, ids, op);
    } else if op.EncapStart? {
      ViewEncapStart(k, h, ids, op);
    } else {
      ViewEncapStop(k, h, ids, op);
    }
  }

  /** Requests confined to a home act on its view alone. */
  lemma {:induction false} ViewSteps(k: Kernel, h: Home, ids: set<int>, ops: seq<Op>)
    requires forall op | op in ops :: Confined(op, h, ids)
    requires SingleRules(k, h)
    ensures ViewOf(ExecAll(k, ops), h) == Steps(ViewOf(k, h), ops)
    ensures SingleRules(ExecAll(k, ops), h)
    decreases ops
  {
    if ops != [] {
      ViewStep(k, h, ids, ops[0]);
      ViewSteps(Exec(k, ops[0]), h, ids, ops[1..]);
    }
  }

  lemma DeliversIsView(k: Kernel, h: Home, via: set<int>)
    ensures Delivers(k, h, via) == ViewDelivers(ViewOf(k, h), via)
  {
  }

  /** Throughout is delivery after every non-empty prefix of the requests. */
  lemma {:induction false} ThroughoutIsEveryPrefix(k: Kernel, h: Home, via: set<int>, ids: set<int>, ops: seq<Op>)
    requires forall op | op in ops :: Confined(op, h, ids)
    requires SingleRules(k, h)
    ensures Throughout(ViewOf(k, h), via, ops)
       <==> forall n | 0 < n <= |ops| :: Delivers(ExecAll(k, ops[..n]), h, via)
    decreases ops
  {
    if ops != [] {
      var k1 := Exec(k, ops[0]);
      ViewStep(k, h, ids, ops[0]);
      DeliversIsView(k1, h, via);
      ThroughoutIsEveryPrefix(k1, h, via, ids, ops[1..]);
      forall n | 0 < n <= |ops|
        ensures ExecAll(k, ops[..n]) == ExecAll(k1, ops[1..][..n - 1])
      {
        assert ops[..n][1..] == ops[1..][..n - 1];
      }
      if forall n | 0 < n <= |ops| :: Delivers(ExecAll(k, ops[..n]), h, via) {
        assert Delivers(ExecAll(k, ops[..1]), h, via);
        forall n | 0 < n <= |ops[1..]|
          ensures Delivers(ExecAll(k1, ops[1..][..n]), h, via)
        {
          assert Delivers(ExecAll(k, ops[..n + 1]), h, via);
          assert ops[1..][..n + 1 - 1] == ops[1..][..n];
        }
      }
      if Throughout(ViewOf(k, h), via, ops) {
        forall n | 0 < n <= |ops|
          ensures Delivers(ExecAll(k, ops[..n]), h, via)
        {
          if n > 1 {
            assert Delivers(ExecAll(k1, ops[1..][..n - 1]), h, via);
          }
        }
      }
    }
  }

  // ------------------------------------------------------------------- framing

  /** Nothing that belongs to home o, whose tunnels are `own`, differs in k and k'. */
  ghost predicate SameFor(k: Kernel, k': Kernel, o: Home, own: set<int>) {
    && (forall id | id in own :: (id in k.tunnels <==> id in k'.tunnels)
                              && (id in k.tunnels ==> k.tunnels[id] == k'.tunnels[id]))
    && (forall key: Key | key.dst == D4(o.v4) || key.dst == D6(o.v6) ::
          (key in k.routes <==> key in k'.routes) && (key in k.routes ==> k.routes[key] == k'.routes[key]))
    && k.rules[D4(o.v4)] == k'.rules[D4(o.v4)] && k.rules[D6(o.v6)] == k'.rules[D6(o.v6)]
    && (o in k.policies <==> o in k'.policies) && (o in k.policies ==> k.policies[o] == k'.policies[o])
  }

  ghost predicate RoutesWithin(k: Kernel, o: Home, own: set<int>) {
    forall key: Key | key in k.routes && (key.dst == D4(o.v4) || key.dst == D6(o.v6)) :: k.routes[key] in own
  }

  lemma SameForTrans(a: Kernel, b: Kernel, c: Kernel, o: Home, own: set<int>)
    requires SameFor(a, b, o, own) && SameFor(b, c, o, own)
    ensures SameFor(a, c, o, own)
  {
  }

  lemma ConfinedTunnelStep(k: Kernel, op: Op, h: Home, ids: set<int>, o: Home, own: set<int>)
    requires Confined(op, h, ids) && h.v4 != o.v4 && h.v6 != o.v6
    requires ids !! own && RoutesWithin(k, o, own)
    requires op.TunnelAdd? || op.TunnelDel?
    ensures SameFor(k, Exec(k, op), o, own) && RoutesWithin(Exec(k, op), o, own)
  {
  }

  lemma ConfinedRouteStep(k: Kernel, op: Op, h: Home, ids: set<int>, o: Home, own: set<int>)
    requires Confined(op, h, ids) && h.v4 != o.v4 && h.v6 != o.v6
    requires ids !! own && RoutesWithin(k, o, own)
    requires op.RouteAdd? || op.RouteDel?
    ensures SameFor(k, Exec(k, op), o, own) && RoutesWithin(Exec(k, op), o, own)
  {
  }

  lemma ConfinedOtherStep(k: Kernel, op: Op, h: Home, ids: set<int>, o: Home, own: set<int>)
    requires Confined(op, h, ids) && h.v4 != o.v4 && h.v6 != o.v6
    requires ids !! own && RoutesWithin(k, o, own)
    requires op.RuleAdd? || op.RuleDel? || op.EncapStart? || op.EncapStop?
    ensures SameFor(k, Exec(k, op), o, own) && RoutesWithin(Exec(k, op), o, own)
  {
  }

  lemma ConfinedStep(k: Kernel, op: Op, h: Home, ids: set<int>, o: Home, own: set<int>)
    requires Confined(op, h, ids) && h.v4 != o.v4 && h.v6 != o.v6
    requires ids !! own && RoutesWithin(k, o, own)
    ensures SameFor(k, Exec(k, op), o, own) && RoutesWithin(Exec(k, op), o, own)
  {
    if op.TunnelAdd? || op.TunnelDel? {
      ConfinedTunnelStep(k, op, h, ids, o, own);
    } else if op.RouteAdd? || op.RouteDel? {
      ConfinedRouteStep(k, op, h, ids, o, own);
    } else {
      ConfinedOtherStep(k, op, h, ids, o, own);
    }
  }

  /** Requests for one mobile node leave every other one alone. */
  lemma {:induction false} ConfinedFrame(k: Kernel, ops: seq<Op>, h: Home, ids: set<int>, o: Home, own: set<int>)
    requires forall op | op in ops :: Confined(op, h, ids)
    requires h.v4 != o.v4 && h.v6 != o.v6
    requires ids !! own
    requires RoutesWithin(k, o, own)
    ensures SameFor(k, ExecAll(k, ops), o, own)
    decreases ops
  {
    if ops != [] {
      var k1 := Exec(k, ops[0]);
      ConfinedStep(k, ops[0], h, ids, o, own);
      ConfinedFrame(k1, ops[1..], h, ids, o, own);
      SameForTrans(k, k1, ExecAll(k, ops), o, own);
    }
  }

  /** The encapsulations the requests stop. */
  ghost predicate StopsWithin(ops: seq<Op>, keys: set<StateKey>) {
    forall op | op in ops && op.EncapStop? :: StateKey(op.src, op.peer) in keys
  }

  /** A state that is there and is not stopped stays; starting another one, or the
      same again, does not touch it. */
  lemma {:induction false} StatesSurvive(k: Kernel, ops: seq<Op>, keys: set<StateKey>, key: StateKey)
    requires StopsWithin(ops, keys) && key in k.states && key !in keys
    ensures key in ExecAll(k, ops).states && ExecAll(k, ops).states[key] == k.states[key]
    decreases ops
  {
    if ops != [] {
      assert ops[0] in ops;
      StatesSurvive(Exec(k, ops[0]), ops[1..], keys, key);
    }
  }

  /** Confined requests can only create tunnels out of ids. */
  lemma {:induction false} ConfinedTunnels(k: Kernel, ops: seq<Op>, h: Home, ids: set<int>)
    requires forall op | op in ops :: Confined(op, h, ids)
    ensures ExecAll(k, ops).tunnels.Keys - ids == k.tunnels.Keys - ids
    decreases ops
  {
    if ops != [] {
      assert Confined(ops[0], h, ids);
      ConfinedTunnels(Exec(k, ops[0]), ops[1..], h, ids);
    }
  }
}
