/** The encapsulation requests of the home agent's kernel are what start_udp_encap
    and stop_udp_encap come to, entry by entry, on the XFRM databases that all
    mobile nodes share. */
module HomeAgentEncap {
  import opened Addresses
  import HK = HomeAgentKernel
  import UE = UdpEncapsulation

  function ArgsOf(h: HK.Home, e: HK.Encap, sport: int, prio: int): UE.Args {
    UE.Args(UE.HomeSide, Some(h.v6), Some(h.v4), e.src, e.dst, sport, e.port, prio)
  }

  // the two policies of a home
  function To6(h: HK.Home): UE.Selector {
    UE.Traffic6(ArgsOf(h, HK.Encap(0, 0, 0), 0, 0), (0, 0))
  }

  function To4(h: HK.Home): UE.Selector {
    UE.Traffic4(ArgsOf(h, HK.Encap(0, 0, 0), 0, 0), (0, 0))
  }

  lemma SelectorsOf(h: HK.Home, e: HK.Encap, sport: int, prio: int)
    ensures UE.Selectors(ArgsOf(h, e, sport, prio)) == [To6(h), To4(h)]
  {
    assert UE.SelectorAt(ArgsOf(h, e, sport, prio), 0) == To6(h)
        && UE.SelectorAt(ArgsOf(h, e, sport, prio), 1) == To4(h);
  }

  predicate Apart(h: HK.Home, g: HK.Home) {
    h.v6 != g.v6 && h.v4 != g.v4
  }

  lemma PoliciesOf(h: HK.Home, g: HK.Home)
    ensures To6(h) != To4(h)
    ensures Apart(h, g) ==> {To6(h), To4(h)} !! {To6(g), To4(g)}
  {
  }

  /** The states are those of the database, with their ports. */
  ghost predicate SameStates(k: map<HK.StateKey, int>, states: map<UE.StateKey, UE.EncapTmpl>) {
    && (forall x | x in k :: UE.StateKey(x.src, x.dst) in states && states[UE.StateKey(x.src, x.dst)].dport == k[x])
    && (forall x | x in states :: HK.StateKey(x.src, x.dst) in k)
  }

  /** A home has both its policies, with the addresses of its encapsulation in the
      template, or none. */
  ghost predicate SamePolicy(k: map<HK.Home, HK.StateKey>, policies: map<UE.Selector, UE.Policy>, h: HK.Home) {
    if h in k then
      && To6(h) in policies && HK.StateKey(policies[To6(h)].src, policies[To6(h)].dst) == k[h]
      && To4(h) in policies && HK.StateKey(policies[To4(h)].src, policies[To4(h)].dst) == k[h]
    else To6(h) !in policies && To4(h) !in policies
  }

  ghost predicate SamePolicies(k: map<HK.Home, HK.StateKey>, policies: map<UE.Selector, UE.Policy>,
                               homes: set<HK.Home>)
  {
    forall h | h in homes :: SamePolicy(k, policies, h)
  }

  ghost predicate Represents(k: HK.Kernel, x: UE.Xfrm, homes: set<HK.Home>)
    reads x
  {
    SameStates(k.states, x.states) && SamePolicies(k.policies, x.policies, homes)
  }

  ghost predicate AllApart(homes: set<HK.Home>) {
    forall h, g | h in homes && g in homes && h != g :: Apart(h, g)
  }

  /** What a request does to one home's policies it does to no other's. */
  lemma Elsewhere(k: map<HK.Home, HK.StateKey>, k': map<HK.Home, HK.StateKey>, was: map<UE.Selector, UE.Policy>,
                  policies: map<UE.Selector, UE.Policy>, homes: set<HK.Home>, h: HK.Home)
    requires AllApart(homes) && h in homes
    requires SamePolicies(k, was, homes)
    requires k' - {h} == k - {h} && SamePolicy(k', policies, h)
    requires policies - {To6(h), To4(h)} == was - {To6(h), To4(h)}
    ensures SamePolicies(k', policies, homes)
  {
    forall g | g in homes
      ensures SamePolicy(k', policies, g)
    {
      if g != h {
        assert Apart(h, g) && SamePolicy(k, was, g);
        PoliciesOf(h, g);
        Untouched(k, k', was, policies, h, g);
      }
    }
  }

  lemma Untouched(k: map<HK.Home, HK.StateKey>, k': map<HK.Home, HK.StateKey>, was: map<UE.Selector, UE.Policy>,
                  policies: map<UE.Selector, UE.Policy>, h: HK.Home, g: HK.Home)
    requires g != h && {To6(h), To4(h)} !! {To6(g), To4(g)} && SamePolicy(k, was, g)
    requires k' - {h} == k - {h} && policies - {To6(h), To4(h)} == was - {To6(h), To4(h)}
    ensures SamePolicy(k', policies, g)
  {
    SameElsewhere(k, k', {h}, g);
    SameElsewhere(was, policies, {To6(h), To4(h)}, To6(g));
    SameElsewhere(was, policies, {To6(h), To4(h)}, To4(g));
  }

  lemma SameElsewhere<K, V>(m: map<K, V>, m': map<K, V>, gone: set<K>, x: K)
    requires m' - gone == m - gone && x !in gone
    ensures x in m' <==> x in m
    ensures x in m ==> m'[x] == m[x]
  {
    assert x in m' - gone <==> x in m - gone;
    if x in m {
      assert (m' - gone)[x] == (m - gone)[x];
    }
  }

  /** Both policies go in exactly if the home has none. */
  lemma AdmittedIs(k: map<HK.Home, HK.StateKey>, policies: map<UE.Selector, UE.Policy>, h: HK.Home)
    requires SamePolicy(k, policies, h)
    ensures UE.Admitted(policies, [To6(h), To4(h)], {}, 1, 2) <==> h !in k
  {
    var ss := [To6(h), To4(h)];
    if UE.Admitted(policies, ss, {}, 1, 2) {
      assert UE.Passes(policies, ss[0], false);
    }
  }

  lemma PoliciesIn(k: map<HK.Home, HK.StateKey>, policies: map<UE.Selector, UE.Policy>, homes: set<HK.Home>, h: HK.Home,
                   p: UE.Policy)
    requires SamePolicies(k, policies, homes) && AllApart(homes) && h in homes
    ensures SamePolicies(k[h := HK.StateKey(p.src, p.dst)], UE.With(policies, [To6(h), To4(h)], p), homes)
  {
    Elsewhere(k, k[h := HK.StateKey(p.src, p.dst)], policies, UE.With(policies, [To6(h), To4(h)], p), homes, h);
  }

  lemma PoliciesOut(k: map<HK.Home, HK.StateKey>, policies: map<UE.Selector, UE.Policy>,
                    homes: set<HK.Home>, h: HK.Home)
    requires SamePolicies(k, policies, homes) && AllApart(homes) && h in homes
    ensures SamePolicies(k - {h}, policies - UE.Elements([To6(h), To4(h)]), homes)
  {
    Elsewhere(k, k - {h}, policies, policies - UE.Elements([To6(h), To4(h)]), homes, h);
  }

  /** Starting, with a kernel that refuses only what is there. */
  method Start(x: UE.Xfrm, ghost k: HK.Kernel, ghost homes: set<HK.Home>, h: HK.Home, e: HK.Encap,
               sport: int, prio: int)
    returns (ret: int)
    requires Represents(k, x, homes) && AllApart(homes) && h in homes
    modifies x
    ensures var k' := HK.Exec(k, HK.EncapStart(h, e));
      Represents(k', x, homes) && (ret == 0 <==> k'.faults == k.faults)
  {
    ghost var was := x.policies;
    SelectorsOf(h, e, sport, prio);
    AdmittedIs(k.policies, was, h);
    PoliciesIn(k.policies, was, homes, h, UE.PolicyOf(ArgsOf(h, e, sport, prio)));
    PoliciesOut(k.policies, was, homes, h);
    ret := x.StartUdpEncap(ArgsOf(h, e, sport, prio), {});
  }

  method Stop(x: UE.Xfrm, ghost k: HK.Kernel, ghost homes: set<HK.Home>, h: HK.Home, e: HK.Encap, sport: int, prio: int)
    returns (ret: int)
    requires Represents(k, x, homes) && AllApart(homes) && h in homes
    modifies x
    ensures Represents(HK.Exec(k, HK.EncapStop(h, e.src, e.dst)), x, homes)
  {
    SelectorsOf(h, e, sport, prio);
    PoliciesOut(k.policies, x.policies, homes, h);
    ret := x.StopUdpEncap(ArgsOf(h, e, sport, prio));
  }
}
