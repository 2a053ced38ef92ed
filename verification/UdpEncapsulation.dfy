/** Starting and stopping UDP encapsulation, at the mobile node and at the home
    agent: one XFRM state and a policy for each protocol. */
module UdpEncapsulation {
  import opened Addresses

  const IPPROTO_ICMP := 1
  const IPPROTO_TCP := 6
  const IPPROTO_UDP := 17
  const IPPROTO_ICMPV6 := 58
  const IPPROTO_MH := 135
  const ICMP6_ECHO_REQUEST := 128
  const ICMP6_ECHO_REPLY := 129

  datatype Family = Inet | Inet6

  // struct xfrm_selector; an IPv4 address fills the first word
  datatype Selector = Selector(family: Family, proto: int, sport: int, sportMask: int, dport: int, dportMask: int,
                               saddr: Ip6, daddr: Ip6, prefixS: int, prefixD: int)

  function Prefix6(a: Ip6): int {
    if a != IN6ADDR_ANY then 128 else 0
  }

  /** set_selector, with code 0 as all its uses here have it */
  function SetSelector(daddr: Ip6, saddr: Ip6, proto: int, kind: int): Selector {
    Selector(Inet6, proto, if proto == 0 then 0 else kind, if proto == 0 || kind == 0 then 0 else 0xffff, 0, 0,
             saddr, daddr, Prefix6(saddr), Prefix6(daddr))
  }

  /** set_v4selector */
  function SetV4Selector(daddr: Ip4, saddr: Ip4, proto: int): Selector {
    Selector(Inet, proto, 0, 0, 0, 0, Ip6(saddr, 0, 0, 0), Ip6(daddr, 0, 0, 0),
             if saddr != INADDR_ANY then 32 else 0, if daddr != INADDR_ANY then 32 else 0)
  }

  datatype Side = MobileSide | HomeSide

  // what start_udp_encap is called with; no home address stands for any
  datatype Args = Args(side: Side, hoa6: Option<Ip6>, hoa4: Option<Ip4>, src: Ip4, dst: Ip4, sport: int,
                       dport: int, prio: int)

  function Protocols6(side: Side): seq<(int, int)> {
    if side.HomeSide? then [(0, 0)]
    else [(IPPROTO_MH, 0), (IPPROTO_ICMPV6, ICMP6_ECHO_REQUEST), (IPPROTO_ICMPV6, ICMP6_ECHO_REPLY), (IPPROTO_TCP, 0),
          (IPPROTO_UDP, 0)]
  }

  function Protocols4(side: Side): seq<(int, int)> {
    if side.HomeSide? then [(0, 0)]
    else [(IPPROTO_ICMP, 0), (IPPROTO_UDP, 0), (IPPROTO_TCP, 0)]
  }

  /** Traffic from the home address at the mobile node, to it at the home agent. */
  function Traffic6(a: Args, p: (int, int)): Selector {
    if a.hoa6.None? then SetSelector(IN6ADDR_ANY, IN6ADDR_ANY, p.0, p.1).(prefixD := 0, prefixS := 0)
    else if a.side.MobileSide? then SetSelector(IN6ADDR_ANY, a.hoa6.value, p.0, p.1).(prefixD := 0, prefixS := 128)
    else SetSelector(a.hoa6.value, IN6ADDR_ANY, p.0, p.1).(prefixD := 128, prefixS := 0)
  }

  function Traffic4(a: Args, p: (int, int)): Selector {
    if a.hoa4.None? then SetSelector(IN6ADDR_ANY, IN6ADDR_ANY, p.0, p.1).(family := Inet, prefixD := 0, prefixS := 0)
    else if a.side.MobileSide? then
      SetV4Selector(INADDR_ANY, a.hoa4.value, p.0).(family := Inet, prefixD := 0, prefixS := 32)
    else SetV4Selector(a.hoa4.value, INADDR_ANY, p.0).(family := Inet, prefixD := 32, prefixS := 0)
  }

  // a state is found by its two addresses
  datatype StateKey = StateKey(src: Ip4, dst: Ip4)
  datatype EncapTmpl = EncapTmpl(sport: int, dport: int, oa: Ip4)
  // a policy's template and priority; it is found by its selector
  datatype Policy = Policy(src: Ip4, dst: Ip4, prio: int)

  function KeyOf(a: Args): StateKey {
    StateKey(a.src, a.dst)
  }

  function TmplOf(a: Args): EncapTmpl {
    EncapTmpl(a.sport, a.dport, a.dst)
  }

  function PolicyOf(a: Args): Policy {
    Policy(a.src, a.dst, a.prio)
  }

  function SelectorAt(a: Args, i: nat): Selector
    requires i < |Protocols6(a.side)| + |Protocols4(a.side)|
  {
    var n := |Protocols6(a.side)|;
    if i < n then Traffic6(a, Protocols6(a.side)[i]) else Traffic4(a, Protocols4(a.side)[i - n])
  }

  /** All its selectors, in the order they are installed. */
  function Selectors(a: Args): (r: seq<Selector>)
    ensures |r| == |Protocols6(a.side)| + |Protocols4(a.side)|
    ensures forall i | 0 <= i < |r| :: r[i] == SelectorAt(a, i)
  {
    var n := |Protocols6(a.side)| + |Protocols4(a.side)|;
    seq(n, i requires 0 <= i < n => SelectorAt(a, i))
  }

  function Elements(ss: seq<Selector>): set<Selector> {
    set s | s in ss
  }

  lemma SelectorIs(a: Args, i: nat)
    requires i < |Selectors(a)|
    ensures var s := Selectors(a)[i]; var n := |Protocols6(a.side)|;
      if i < n then s.family == Inet6 && s.proto == Protocols6(a.side)[i].0 && s.sport == Protocols6(a.side)[i].1
                    && (a.hoa6.Some? ==>
                        if a.side.MobileSide? then s.saddr == a.hoa6.value else s.daddr == a.hoa6.value)
      else s.family == Inet && s.proto == Protocols4(a.side)[i - n].0
           && (a.hoa4.Some? ==> if a.side.MobileSide? then s.saddr.w0 == a.hoa4.value else s.daddr.w0 == a.hoa4.value)
  {
  }

  lemma ProtocolsDistinct(side: Side)
    ensures forall i, j | 0 <= i < j < |Protocols6(side)| ::
      Protocols6(side)[i].0 != Protocols6(side)[j].0 || Protocols6(side)[i].1 != Protocols6(side)[j].1
    ensures forall i, j | 0 <= i < j < |Protocols4(side)| :: Protocols4(side)[i].0 != Protocols4(side)[j].0
  {
  }

  /** No two of them are the same. */
  lemma SelectorsDistinct(a: Args)
    ensures Distinct(Selectors(a))
  {
    ProtocolsDistinct(a.side);
    forall i, j | 0 <= i < j < |Selectors(a)|
      ensures Selectors(a)[i] != Selectors(a)[j]
    {
      SelectorIs(a, i);
      SelectorIs(a, j);
    }
  }

  // ------------------------------------------------------------------- the kernel

  class Xfrm {
    var states: map<StateKey, EncapTmpl>
    var policies: map<Selector, Policy>

    constructor ()
      ensures states == map[] && policies == map[]
    {
      states, policies := map[], map[];
    }

    /** An add that the kernel refuses for a reason of its own, or because the
        entry is there. */
    method PolicyAdd(sel: Selector, p: Policy, refused: bool) returns (ret: int)
      modifies this`policies
      ensures ret == if refused || sel in old(policies) then -1 else 0
      ensures policies == if ret == 0 then old(policies)[sel := p] else old(policies)
    {
      if refused || sel in policies {
        return -1;
      }
      policies := policies[sel := p];
      ret := 0;
    }

    method PolicyDel(sel: Selector) returns (ret: int)
      modifies this`policies
      ensures ret == if sel in old(policies) then 0 else -1
      ensures policies == old(policies) - {sel}
    {
      ret := if sel in policies then 0 else -1;
      policies := policies - {sel};
    }

    /** One of the two loops that add policies; it goes on after a failure. */
    method AddPolicies(ss: seq<Selector>, p: Policy, fails: set<nat>, first: nat) returns (ret: int)
      requires Distinct(ss)
      modifies this`policies
      ensures ret <= 0
      ensures ret == 0 <==> Admitted(old(policies), ss, fails, first, |ss|)
      ensures ret == 0 ==> policies == With(old(policies), ss, p)
      ensures SameBut(old(policies), policies, ss)
    {
      ret := 0;
      for i := 0 to |ss|
        invariant ret <= 0
        invariant ret == 0 <==> Admitted(old(policies), ss, fails, first, i)
        invariant ret == 0 ==> policies == With(old(policies), ss[..i], p)
        invariant SameBut(old(policies), policies, ss)
        invariant forall j | i <= j < |ss| :: ss[j] in policies <==> ss[j] in old(policies)
      {
        WithOneMore(old(policies), ss, i, p);
        AdmittedOneMore(old(policies), ss, fails, first, i);
        var r := PolicyAdd(ss[i], p, first + i in fails);
        ret := ret + r;
      }
      assert ss[..|ss|] == ss;
    }

    method DelPolicies(ss: seq<Selector>) returns (ret: int)
      modifies this`policies
      ensures policies == old(policies) - Elements(ss)
      ensures ret <= 0
    {
      ret := 0;
      for i := 0 to |ss|
        invariant policies == old(policies) - Elements(ss[..i]) && ret <= 0
      {
        assert ss[..i + 1] == ss[..i] + [ss[i]];
        var r := PolicyDel(ss[i]);
        ret := ret + r;
      }
      assert ss[..|ss|] == ss;
    }

    /** stop_udp_encap: whatever was there, none of the entries is left. */
    method StopUdpEncap(a: Args) returns (ret: int)
      modifies this
      ensures policies == old(policies) - Elements(Selectors(a))
      ensures states == old(states) - {KeyOf(a)}
      ensures ret <= 0
    {
      var p6 := |Protocols6(a.side)|;
      var ss := Selectors(a);
      assert ss == ss[..p6] + ss[p6..];
      var r6 := DelPolicies(ss[..p6]);
      var r4 := DelPolicies(ss[p6..]);
      states := states - {KeyOf(a)};
      ret := r6 + r4;
    }

    /** start_udp_encap. `fails` numbers the adds the kernel refuses: the state is
        0, the policies follow. It succeeds exactly if none is refused and no
        entry was there, and then adds just these; if it fails at the state it
        changes nothing, and after that it takes away its policies. */
    method StartUdpEncap(a: Args, fails: set<nat>) returns (ret: int)
      modifies this
      ensures ret <= 0
      ensures ret == 0 <==> (0 !in fails && KeyOf(a) !in old(states)
                             && Admitted(old(policies), Selectors(a), fails, 1, |Selectors(a)|))
      ensures ret == 0 ==> states == old(states)[KeyOf(a) := TmplOf(a)]
      ensures ret == 0 ==> policies == With(old(policies), Selectors(a), PolicyOf(a))
      ensures ret < 0 ==> states == old(states)
      ensures ret < 0 ==>
        policies == if 0 in fails || KeyOf(a) in old(states) then old(policies)
                    else old(policies) - Elements(Selectors(a))
    {
      if 0 in fails || KeyOf(a) in states {
        return -1;
      }
      states := states[KeyOf(a) := TmplOf(a)];
      ret := AddAll(a, fails);
      if ret < 0 {
        SameButGone(old(policies), policies, Selectors(a));
        ret := StopUdpEncap(a);
        ret := -1;
      }
    }

    /** The policies for IPv6, and if these are all in, those for IPv4. */
    method AddBoth(s6: seq<Selector>, s4: seq<Selector>, p: Policy, fails: set<nat>) returns (ret: int)
      requires Distinct(s6) && Distinct(s4)
      modifies this`policies
      ensures ret <= 0
      ensures ret == 0 <==> Admitted(old(policies), s6, fails, 1, |s6|)
                            && Admitted(With(old(policies), s6, p), s4, fails, 1 + |s6|, |s4|)
      ensures ret == 0 ==> policies == With(With(old(policies), s6, p), s4, p)
      ensures SameBut(old(policies), policies, s6 + s4)
    {
      ret := AddPolicies(s6, p, fails, 1);
      if ret == 0 {
        ret := AddPolicies(s4, p, fails, 1 + |s6|);
      }
    }

    method AddAll(a: Args, fails: set<nat>) returns (ret: int)
      modifies this`policies
      ensures ret <= 0
      ensures ret == 0 <==> Admitted(old(policies), Selectors(a), fails, 1, |Selectors(a)|)
      ensures ret == 0 ==> policies == With(old(policies), Selectors(a), PolicyOf(a))
      ensures SameBut(old(policies), policies, Selectors(a))
    {
      var n := |Protocols6(a.side)|;
      Halves(policies, a, fails, n);
      ret := AddBoth(Selectors(a)[..n], Selectors(a)[n..], PolicyOf(a), fails);
    }
  }

  ghost predicate Distinct(ss: seq<Selector>) {
    forall i, j | 0 <= i < j < |ss| :: ss[i] != ss[j]
  }

  lemma Halves(m: map<Selector, Policy>, a: Args, fails: set<nat>, n: nat)
    requires n <= |Selectors(a)|
    ensures var ss := Selectors(a);
      && Distinct(ss[..n]) && Distinct(ss[n..]) && ss == ss[..n] + ss[n..]
      && With(With(m, ss[..n], PolicyOf(a)), ss[n..], PolicyOf(a)) == With(m, ss, PolicyOf(a))
      && (Admitted(m, ss, fails, 1, |ss|) <==>
          (Admitted(m, ss[..n], fails, 1, n)
              && Admitted(With(m, ss[..n], PolicyOf(a)), ss[n..], fails, 1 + n, |ss| - n)))
  {
    SelectorsDistinct(a);
    AdmittedHalves(m, Selectors(a), fails, n);
    AdmittedAfter(m, Selectors(a), fails, n, PolicyOf(a));
    WithHalves(m, Selectors(a), n, PolicyOf(a));
  }

  // ------------------------------------------------------------------------- maps

  function With(m: map<Selector, Policy>, ss: seq<Selector>, p: Policy): map<Selector, Policy> {
    m + map s | s in ss :: p
  }

  predicate Passes(m: map<Selector, Policy>, s: Selector, refused: bool) {
    !refused && s !in m
  }

  /** The first n adds are neither refused nor of entries that are there. */
  predicate Admitted(m: map<Selector, Policy>, ss: seq<Selector>, fails: set<nat>, first: nat, n: nat)
    requires n <= |ss|
  {
    forall i | 0 <= i < n :: Passes(m, ss[i], first + i in fails)
  }

  lemma AdmittedOneMore(m: map<Selector, Policy>, ss: seq<Selector>, fails: set<nat>, first: nat, n: nat)
    requires n < |ss|
    ensures Admitted(m, ss, fails, first, n + 1)
      <==> Admitted(m, ss, fails, first, n) && Passes(m, ss[n], first + n in fails)
  {
  }

  lemma AdmittedHalves(m: map<Selector, Policy>, ss: seq<Selector>, fails: set<nat>, n: nat)
    requires n <= |ss|
    ensures Admitted(m, ss, fails, 1, |ss|)
       <==> Admitted(m, ss[..n], fails, 1, n) && Admitted(m, ss[n..], fails, 1 + n, |ss| - n)
  {
    if Admitted(m, ss[..n], fails, 1, n) && Admitted(m, ss[n..], fails, 1 + n, |ss| - n) {
      forall i | 0 <= i < |ss|
        ensures Passes(m, ss[i], 1 + i in fails)
      {
        if i < n {
          assert Passes(m, ss[..n][i], 1 + i in fails);
        } else {
          assert Passes(m, ss[n..][i - n], 1 + n + (i - n) in fails);
        }
      }
    }
    if Admitted(m, ss, fails, 1, |ss|) {
      forall i | 0 <= i < n
        ensures Passes(m, ss[..n][i], 1 + i in fails)
      {
        assert Passes(m, ss[i], 1 + i in fails);
      }
      forall i | 0 <= i < |ss| - n
        ensures Passes(m, ss[n..][i], 1 + n + i in fails)
      {
        assert Passes(m, ss[n + i], 1 + (n + i) in fails);
      }
    }
  }

  /** Adding the first half does not get in the way of the second. */
  lemma AdmittedAfter(m: map<Selector, Policy>, ss: seq<Selector>, fails: set<nat>, n: nat, p: Policy)
    requires n <= |ss| && Distinct(ss)
    ensures Admitted(With(m, ss[..n], p), ss[n..], fails, 1 + n, |ss| - n)
      <==> Admitted(m, ss[n..], fails, 1 + n, |ss| - n)
  {
    forall i | 0 <= i < |ss| - n
      ensures ss[n..][i] in With(m, ss[..n], p) <==> ss[n..][i] in m
    {
      assert forall j | 0 <= j < n :: ss[j] != ss[n + i];
    }
  }

  lemma WithHalves(m: map<Selector, Policy>, ss: seq<Selector>, n: nat, p: Policy)
    requires n <= |ss|
    ensures With(With(m, ss[..n], p), ss[n..], p) == With(m, ss, p)
  {
    assert ss == ss[..n] + ss[n..];
  }

  /** Nothing but entries for the selectors differs. */
  ghost predicate SameBut(m: map<Selector, Policy>, m': map<Selector, Policy>, ss: seq<Selector>) {
    forall s | s !in ss :: (s in m <==> s in m') && (s in m ==> m[s] == m'[s])
  }

  predicate Clear(states: map<StateKey, EncapTmpl>, policies: map<Selector, Policy>, a: Args) {
    KeyOf(a) !in states && forall i | 0 <= i < |Selectors(a)| :: Selectors(a)[i] !in policies
  }

  lemma WithOneMore(m: map<Selector, Policy>, ss: seq<Selector>, i: nat, p: Policy)
    requires i < |ss|
    ensures With(m, ss[..i], p)[ss[i] := p] == With(m, ss[..i + 1], p)
    ensures (forall j | 0 <= j < i :: ss[j] != ss[i]) ==> (ss[i] in With(m, ss[..i], p) <==> ss[i] in m)
  {
    assert ss[..i + 1] == ss[..i] + [ss[i]];
  }

  lemma SameButGone(m: map<Selector, Policy>, m': map<Selector, Policy>, ss: seq<Selector>)
    requires SameBut(m, m', ss)
    ensures m' - Elements(ss) == m - Elements(ss)
  {
  }

  /** A failure past the state leaves the policies as they were exactly if none of
      the selectors was there. */
  lemma FailureRestores(policies: map<Selector, Policy>, a: Args)
    ensures policies - Elements(Selectors(a)) == policies
      <==> forall i | 0 <= i < |Selectors(a)| :: Selectors(a)[i] !in policies
  {
    var ss := Selectors(a);
    if policies - Elements(ss) == policies {
      forall i | 0 <= i < |ss|
        ensures ss[i] !in policies
      {
        assert ss[i] in Elements(ss);
      }
    }
  }

  /** Stopping after a start that succeeded restores both databases. */
  lemma StopUndoesStart(states: map<StateKey, EncapTmpl>, policies: map<Selector, Policy>, a: Args)
    requires Clear(states, policies, a)
    ensures With(policies, Selectors(a), PolicyOf(a)) - Elements(Selectors(a)) == policies
    ensures states[KeyOf(a) := TmplOf(a)] - {KeyOf(a)} == states
  {
    FailureRestores(policies, a);
  }

  /** Two mobile nodes of a home agent do not get in each other's way in the policy
      database. */
  lemma PoliciesApart(a: Args, b: Args)
    requires a.side == b.side && a.hoa6.Some? && b.hoa6.Some? && a.hoa4.Some? && b.hoa4.Some?
    requires a.hoa6 != b.hoa6 && a.hoa4 != b.hoa4
    ensures Elements(Selectors(a)) !! Elements(Selectors(b))
  {
    forall i, j | 0 <= i < |Selectors(a)| && 0 <= j < |Selectors(b)|
      ensures Selectors(a)[i] != Selectors(b)[j]
    {
      SelectorIs(a, i);
      SelectorIs(b, j);
    }
  }

  // -------------------------------------------------------------- what is encapsulated

  // a packet to be sent; the first port is the type of an ICMPv6 message
  datatype Packet = Packet(family: Family, proto: int, port: int, saddr: Ip6, daddr: Ip6)

  /** No other prefix lengths than none and the whole address are used. */
  predicate InPrefix(a: Ip6, of: Ip6, prefix: int, width: int) {
    prefix == 0 || (prefix == width && a == of)
  }

  /** Whether the kernel takes the packet for one of the selector's. */
  predicate Matches(s: Selector, p: Packet) {
    var width := if p.family == Inet then 32 else 128;
    && s.family == p.family && (s.proto == 0 || s.proto == p.proto)
    && (s.sportMask == 0 || (s.sportMask == 0xffff && s.sport == p.port)) && s.dportMask == 0
    && InPrefix(p.saddr, s.saddr, s.prefixS, width) && InPrefix(p.daddr, s.daddr, s.prefixD, width)
  }

  /** At the mobile node: what comes from the home address and is Mobile IPv6
      signalling, ICMP (of IPv6, just echo requests and replies), TCP or UDP. */
  predicate FromHome(a: Args, p: Packet) {
    if p.family == Inet6 then
      && (a.hoa6.None? || p.saddr == a.hoa6.value)
      && (p.proto == 135 || p.proto == 6 || p.proto == 17 || (p.proto == 58 && (p.port == 128 || p.port == 129)))
    else
      && (a.hoa4.None? || p.saddr == Ip6(a.hoa4.value, 0, 0, 0))
      && (p.proto == 1 || p.proto == 6 || p.proto == 17)
  }

  /** At the home agent: everything that goes to the home address. */
  predicate ToHome(a: Args, p: Packet) {
    if p.family == Inet6 then a.hoa6.None? || p.daddr == a.hoa6.value
    else a.hoa4.None? || p.daddr == Ip6(a.hoa4.value, 0, 0, 0)
  }

  predicate Encapsulates(a: Args, p: Packet) {
    exists i | 0 <= i < |Selectors(a)| :: Matches(Selectors(a)[i], p)
  }

  lemma HomeSideMatches(a: Args, p: Packet)
    requires a.side == HomeSide
    ensures Encapsulates(a, p) <==> ToHome(a, p)
  {
    assert Selectors(a)[0] == Traffic6(a, (0, 0)) && Selectors(a)[1] == Traffic4(a, (0, 0));
    assert Encapsulates(a, p) <==> Matches(Selectors(a)[0], p) || Matches(Selectors(a)[1], p);
  }

  lemma MobileSideMatches(a: Args, p: Packet)
    requires a.side == MobileSide
    ensures Encapsulates(a, p) <==> FromHome(a, p)
  {
    var ss := Selectors(a);
    assert |ss| == 8;
    assert Encapsulates(a, p) <==> (Matches(ss[0], p) || Matches(ss[1], p) || Matches(ss[2], p) || Matches(ss[3], p)
                                    || Matches(ss[4], p) || Matches(ss[5], p) || Matches(ss[6], p)
                                        || Matches(ss[7], p));
  }

  /** The policies of one encapsulation match just the packets that are meant. */
  lemma EncapsulatesJust(a: Args, p: Packet)
    ensures Encapsulates(a, p) <==> if a.side == MobileSide then FromHome(a, p) else ToHome(a, p)
  {
    if a.side == MobileSide {
      MobileSideMatches(a, p);
    } else {
      HomeSideMatches(a, p);
    }
  }
}
