/** One handoff of the mobile node, whatever tunnels it is given: what it leaves
    installed and routed, what it announces, and what the clean-up leaves. */
module MobileRuns {
  import opened Addresses
  import opened MobileKernel
  import opened MobilePlans
  import opened MobileHandoff

  /** Leaving encapsulation behind: from an encapsulated IPv4 address to one that
      is taken without. */
  predicate KeepsOldEncap(c: Config, m: Mobile, t: Target, ifindex: int) {
    Decide(c, m, t, ifindex).Bind4? && !t.nat1 && m.coaType == V4Nat
  }

  /** Going home straight from an IPv4 address. */
  predicate HomeFromV4(c: Config, m: Mobile, t: Target, ifindex: int) {
    Decide(c, m, t, ifindex).GoHome? && OnV4(m)
  }

  // ------------------------------------------------------------ binding updates

  /** The updates sent are numbered from 1 without a gap. */
  predicate Numbered(m: Mobile) {
    m.buSeq == |m.sent| + 1 && forall i | 0 <= i < |m.sent| :: m.sent[i].seqno == i + 1
  }

  /** m2 is m1 after n updates, all for the address. */
  predicate Announced(m1: Mobile, m2: Mobile, coa: Ip6, n: nat) {
    && |m2.sent| == |m1.sent| + n && m1.sent <= m2.sent
    && (forall i | |m1.sent| <= i < |m2.sent| :: m2.sent[i].coa == coa)
  }

  lemma {:induction false} AnnounceIs(m: Mobile, coa: Ip6, n: nat)
    ensures var m' := Announce(m, coa, n);
      && Announced(m, m', coa, n) && (Numbered(m) ==> Numbered(m'))
      && m' == m.(sent := m'.sent, buSeq := m'.buSeq)
    decreases n
  {
    if n > 0 {
      AnnounceIs(m.(sent := m.sent + [Sent(coa, m.buSeq)], buSeq := m.buSeq + 1), coa, n - 1);
    }
  }

  function Updates(c: Config, m: Mobile, t: Target, ifindex: int): nat {
    if IsMove(Decide(c, m, t, ifindex)) then Burst(m) + if t.To6? && OnV4(m) then 1 else 0 else 0
  }

  // the record's part that Installed and Routed speak of
  predicate SameBinding(a: Mobile, b: Mobile) {
    && a.coaType == b.coaType && a.coav6 == b.coav6 && a.coav4 == b.coav4
    && a.t44 == b.t44 && a.t64 == b.t64 && a.t66 == b.t66
  }

  lemma BegunIs(m: Mobile, t: Target, ifindex: int)
    ensures var m1 := Begun(m, t, ifindex);
      && SameBinding(m1, m) && (Numbered(m) ==> Numbered(m1))
      && Announced(m, m1, Registers(t), if t.To6? && OnV4(m) then 1 else 0)
  {
    AnnounceIs(NoteIface(m, t, ifindex).(current := ifindex), Registers(t), 1);
  }

  lemma NewBindingIs(c: Config, m: Mobile, m1: Mobile, a: Action, t: Target, p: Picks)
    requires (a.Bind6? ==> t.To6?) && (a.Bind4? ==> t.To4?)
    requires SameBinding(m1, m)
    ensures var m2 := NewBinding(c, m1, a, t, p);
      SameBinding(m2, NewBinding(c, m, a, t, p)) && m2.sent == m1.sent && m2.buSeq == m1.buSeq
  {
  }

  lemma SameBindingTrans(a: Mobile, b: Mobile, d: Mobile)
    requires SameBinding(a, b) && SameBinding(b, d)
    ensures SameBinding(a, d)
  {
  }

  /** A handoff sends its updates for the new address only, one or ten and one
      more when it leaves IPv4 for IPv6, and numbers them on. */
  lemma HandoffAnnounces(c: Config, m: Mobile, t: Target, ifindex: int, p: Picks)
    requires Numbered(m)
    ensures Announced(m, After(c, m, t, ifindex, p), Registers(t), Updates(c, m, t, ifindex))
    ensures Numbered(After(c, m, t, ifindex, p))
  {
    if IsMove(Decide(c, m, t, ifindex)) {
      MoveAnnounces(c, m, t, ifindex, p);
    }
  }

  lemma MoveAnnounces(c: Config, m: Mobile, t: Target, ifindex: int, p: Picks)
    requires IsMove(Decide(c, m, t, ifindex))
    ensures var m' := After(c, m, t, ifindex, p);
      && SameBinding(m', NewBinding(c, m, Decide(c, m, t, ifindex), t, p)) && (Numbered(m) ==> Numbered(m'))
      && Announced(m, m', Registers(t), Updates(c, m, t, ifindex))
  {
    var m1 := Begun(m, t, ifindex);
    BegunIs(m, t, ifindex);
    NewBindingIs(c, m, m1, Decide(c, m, t, ifindex), t, p);
    var m2 := Moved(c, m, t, ifindex, p);
    AnnounceIs(m2, Registers(t), Burst(m));
    var m3 := Announce(m2, Registers(t), Burst(m));
    SameBindingTrans(m3, m2, NewBinding(c, m, Decide(c, m, t, ifindex), t, p));
  }

  lemma AfterBinding(c: Config, m: Mobile, t: Target, ifindex: int, p: Picks)
    ensures SameBinding(After(c, m, t, ifindex, p), NewBinding(c, m, Decide(c, m, t, ifindex), t, p))
  {
    if IsMove(Decide(c, m, t, ifindex)) {
      MoveAnnounces(c, m, t, ifindex, p);
    }
  }

  // --------------------------------------------------------------- one handoff

  function NetAfter(c: Config, n: Net, m: Mobile, t: Target, ifindex: int, p: Picks): Net {
    Steps(n, Requests(c, m, t, ifindex, p))
  }

  lemma SameInstalled(n: Net, a: Mobile, b: Mobile)
    requires SameBinding(a, b)
    ensures Installed(n, a) <==> Installed(n, b)
    ensures Routed(n, a) <==> Routed(n, b)
  {
  }

  lemma Bind6Installed(c: Config, n: Net, m: Mobile, t: Target, p: Picks)
    requires Installed(n, m) && t.To6? && Fits(Bind6, p)
    ensures Installed(Moved6(n, m, t.coa6, p), NewBinding(c, m, Bind6, t, p))
  {
  }

  lemma Bind4Installed(c: Config, n: Net, m: Mobile, t: Target, p: Picks)
    requires Installed(n, m) && t.To4? && Fits(Bind4, p)
    ensures Installed(Moved4(n, m, t.coa4, t.nat1, p), NewBinding(c, m, Bind4, t, p)) <==> t.nat1 || m.coaType != V4Nat
  {
  }

  /** What is installed agrees with the record after a handoff exactly when it
      does not take an encapsulated node to an unencapsulated IPv4 address. */
  lemma HandoffInstalled(c: Config, n: Net, m: Mobile, t: Target, ifindex: int, p: Picks)
    requires Installed(n, m) && Fits(Decide(c, m, t, ifindex), p)
    ensures Installed(NetAfter(c, n, m, t, ifindex, p), After(c, m, t, ifindex, p))
      <==> !KeepsOldEncap(c, m, t, ifindex)
  {
    AfterBinding(c, m, t, ifindex, p);
    SameInstalled(NetAfter(c, n, m, t, ifindex, p), After(c, m, t, ifindex, p),
        NewBinding(c, m, Decide(c, m, t, ifindex), t, p));
    match Decide(c, m, t, ifindex)
    case GoHome => ReturnIs(n, m, {});
    case Bind6 =>
      MoveTo6Is(n, m, t.coa6, p, {});
      Bind6Installed(c, n, m, t, p);
    case Bind4 =>
      MoveTo4Is(n, m, t.coa4, t.nat1, p, {});
      Bind4Installed(c, n, m, t, p);
    case _ =>
  }

  lemma Bind6Routed(c: Config, n: Net, m: Mobile, t: Target, p: Picks)
    requires Installed(n, m) && Routed(n, m) && t.To6? && Fits(Bind6, p)
    ensures var n' := Moved6(n, m, t.coa6, p); Routed(n', NewBinding(c, m, Bind6, t, p)) && n'.faults == n.faults
  {
  }

  lemma Bind4Routed(c: Config, n: Net, m: Mobile, t: Target, p: Picks)
    requires Installed(n, m) && Routed(n, m) && t.To4? && Fits(Bind4, p)
    ensures var n' := Moved4(n, m, t.coa4, t.nat1, p);
      Routed(n', NewBinding(c, m, Bind4, t, p)) && n'.faults == n.faults
  {
  }

  /** Table 252 follows the binding exactly when the handoff does not go home from
      IPv4. Either way no add collides in this handoff. */
  lemma HandoffRouted(c: Config, n: Net, m: Mobile, t: Target, ifindex: int, p: Picks)
    requires Installed(n, m) && Routed(n, m) && Fits(Decide(c, m, t, ifindex), p)
    ensures Routed(NetAfter(c, n, m, t, ifindex, p), After(c, m, t, ifindex, p)) <==> !HomeFromV4(c, m, t, ifindex)
    ensures NetAfter(c, n, m, t, ifindex, p).faults == n.faults
  {
    AfterBinding(c, m, t, ifindex, p);
    SameInstalled(NetAfter(c, n, m, t, ifindex, p), After(c, m, t, ifindex, p),
        NewBinding(c, m, Decide(c, m, t, ifindex), t, p));
    match Decide(c, m, t, ifindex)
    case GoHome => ReturnIs(n, m, {});
    case Bind6 =>
      MoveTo6Is(n, m, t.coa6, p, {});
      Bind6Routed(c, n, m, t, p);
    case Bind4 =>
      MoveTo4Is(n, m, t.coa4, t.nat1, p, {});
      Bind4Routed(c, n, m, t, p);
    case _ =>
  }

  /** In a move between two foreign addresses both home addresses are routed into a
      live tunnel, an old one or a new one, after every single request, exactly when
      the pool gives up no tunnel in use. Either way table 251 is empty at the end. */
  lemma MakeBeforeBreak(c: Config, n: Net, m: Mobile, t: Target, ifindex: int, p: Picks)
    requires Installed(n, m) && Routed(n, m) && Foreign(m) && Fits(Decide(c, m, t, ifindex), p)
    requires Decide(c, m, t, ifindex).Bind6? || Decide(c, m, t, ifindex).Bind4?
    ensures var ops := Requests(c, m, t, ifindex, p);
      (forall k | 0 < k <= |ops| :: Delivers(Steps(n, ops[..k]), Reach(m, p)))
      <==> Spares(m, Decide(c, m, t, ifindex), p)
    ensures Clean(NetAfter(c, n, m, t, ifindex, p))
  {
    ThroughoutIsEveryPrefix(n, Reach(m, p), Requests(c, m, t, ifindex, p));
    if Decide(c, m, t, ifindex).Bind6? {
      MoveTo6Is(n, m, t.coa6, p, Reach(m, p));
    } else {
      MoveTo4Is(n, m, t.coa4, t.nat1, p, Reach(m, p));
    }
  }

  /** The tunnels a handoff gives up. */
  function Gone(a: Action, p: Picks): set<int> {
    match a
    case Bind6 => p.gone66
    case Bind4 => p.gone64 + p.gone44
    case _ => {}
  }

  function Count(r: Option<int>): nat {
    if r.Some? then 1 else 0
  }

  lemma WithoutTwice(r: Option<int>, a: set<int>, b: set<int>)
    ensures Without(Without(r, a), b) == Without(r, a + b)
  {
  }

  /** A move away from home while table 252 still has routes, which going home from
      IPv4 leaves there: those whose tunnels the pool does not give up stay, and for
      each of them the new route is turned down. */
  lemma StaleRoutes(c: Config, n: Net, m: Mobile, t: Target, ifindex: int, p: Picks)
    requires Installed(n, m) && m.coaType == AtHome && Fits(Decide(c, m, t, ifindex), p)
    requires Decide(c, m, t, ifindex).Bind6? || Decide(c, m, t, ifindex).Bind4?
    ensures var n' := NetAfter(c, n, m, t, ifindex, p); var gone := Gone(Decide(c, m, t, ifindex), p);
      var stale4, stale6 := Without(n.main4, gone), Without(n.main6, gone);
      && n'.faults == n.faults + Count(stale4) + Count(stale6)
      && n'.main4 == (if stale4.Some? then stale4 else Some(if t.To6? then p.t66 else p.t44))
      && n'.main6 == if stale6.Some? then stale6 else Some(if t.To6? then p.t66 else p.t64)
  {
    if Decide(c, m, t, ifindex).Bind6? {
      MoveTo6Is(n, m, t.coa6, p, {});
    } else {
      MoveTo4Is(n, m, t.coa4, t.nat1, p, {});
      WithoutTwice(n.main4, p.gone64, p.gone44);
      WithoutTwice(n.main6, p.gone64, p.gone44);
    }
  }

  // ---------------------------------------------------------------- the clean-up

  function Routes(m: Mobile): seq<Op> {
    (if m.t66 != 0 then [RouteDel(Main, F4, m.t66, false), RouteDel(Main, F6, m.t66, false)] + DstDown() else [])
    + (if m.t64 != 0 then [RouteDel(Main, F6, m.t64, false)] else [])
    + (if m.t44 != 0 then [RouteDel(Main, F4, m.t44, false)] else [])
  }

  lemma RoutesIs(n: Net, m: Mobile)
    requires Installed(n, m)
    ensures var n' := Steps(n, Routes(m));
      && n'.live == n.live && Clean(n') && Backed(n') && n'.encap == n.encap && !n'.dstPolicy && n'.dstState.None?
  {
    if m.coaType == V6 {
      ReleaseIs(n, m, {});
      assert Routes(m) == Release(m);
    } else if OnV4(m) {
      var a, b := RouteDel(Main, F6, m.t64, false), RouteDel(Main, F4, m.t44, false);
      var n1 := Step(n, a);
      Steps2(n, n1, Step(n1, b), a, b, {});
      assert Routes(m) == [a, b];
    } else {
      assert Routes(m) == [];
    }
  }

  predicate Bare(n: Net) {
    && n.live == {} && n.main4.None? && n.main6.None? && Clean(n)
    && n.encap.None? && !n.dstPolicy && n.dstState.None?
  }

  /** The clean-up leaves no tunnel, no route, no encapsulation and no home
      address option, whatever the binding and even with stale routes. */
  lemma CleanupLeavesNothing(n: Net, m: Mobile)
    requires Installed(n, m)
    ensures Bare(Steps(n, Cleanup(m, n.live)))
  {
    var n1 := Steps(n, Routes(m));
    RoutesIs(n, m);
    var n2 := Step(n1, TunnelsDown(n.live));
    Steps1(n1, TunnelsDown(n.live), {});
    EncapOffIs(n2, m, {});
    StepsConcat(n, {}, Routes(m), [TunnelsDown(n.live)]);
    StepsConcat(n, {}, Routes(m) + [TunnelsDown(n.live)], EncapOff(m));
    assert Cleanup(m, n.live) == Routes(m) + [TunnelsDown(n.live)] + EncapOff(m);
  }
}
