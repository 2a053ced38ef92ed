/** Make-before-break at the home agent, request by request. */
module HomeAgentHandoff {
  import opened Addresses
  import opened HomeAgentKernel
  import opened HomeAgentPlans
  import opened HomeAgentMoves
  import opened HomeAgentRuns

  predicate Moves(m: Mn, u: Update)
    requires |m.slots| == NIF + 1
  {
    Decide(m, u).Bind4? || Decide(m, u).Bind6?
  }

  /** After every single kernel request of the update both home addresses are
      forwarded into a live tunnel, the old one or a new one. */
  ghost predicate NeverInterrupted(c: Config, k: Kernel, m: Mn, u: Update, ids: Ids)
    requires |m.slots| == NIF + 1 && m.active <= NIF
  {
    var ops := UpdateOps(c, m, u, ids);
    forall n | 0 < n <= |ops| :: Delivers(ExecAll(k, ops[..n]), m.home, Owned(m) + IdSet(ids))
  }

  /** One move, as its home sees it. */
  predicate MoveSeen(c: Config, v: View, v': View, m: Mn, u: Update)
    requires |m.slots| == NIF + 1 && m.active <= NIF
  {
    && v'.faults == v.faults + (if TmpEmpty(v) then 0 else 2) + (if StateTaken(c, v.states.Keys, m, u) then 1 else 0)
    && (if LeavesNat(m, u) then v'.main4 == v'.tmp4 && v'.main6 == v'.tmp6 && !TmpEmpty(v') else TmpEmpty(v'))
    && v'.rule4 == LeavesNat(m, u)
    && v'.rule6 == v.rule6 + if LeavesNat(m, u) then 1 else 0
  }

  lemma Move4Seen(c: Config, v: View, m: Mn, u: Update, ids: Ids, via: set<int>)
    requires Shape(m) && Installed(c, v, m) && FreshIds(v.tunnels, ids) && m.active != 0 && Decide(m, u).Bind4?
    requires via == Owned(m) + IdSet(ids)
    ensures MoveSeen(c, v, Steps(v, UpdateOps(c, m, u, ids)), m, u)
    ensures Throughout(v, via, UpdateOps(c, m, u, ids)) <==> TmpEmpty(v)
  {
    MoveTo4Effect(c, v, m, Decide(m, u).icoa, u.link, ids, via);
  }

  lemma Move6Seen(c: Config, v: View, m: Mn, u: Update, ids: Ids, via: set<int>)
    requires Shape(m) && Installed(c, v, m) && FreshIds(v.tunnels, ids) && m.active != 0 && Decide(m, u).Bind6?
    requires via == Owned(m) + IdSet(ids)
    ensures MoveSeen(c, v, Steps(v, UpdateOps(c, m, u, ids)), m, u)
    ensures Throughout(v, via, UpdateOps(c, m, u, ids)) <==> TmpEmpty(v)
  {
    MoveTo6Effect(c, v, m, u.coa, u.link, ids, via);
  }

  lemma MoveIsSeen(c: Config, k: Kernel, m: Mn, u: Update, ids: Ids)
    requires MnInv(c, k, m) && FreshIds(k.tunnels, ids) && m.active != 0 && Moves(m, u)
    ensures var v := ViewOf(k, m.home); var ops := UpdateOps(c, m, u, ids);
      && AllConfined(ops, m.home, Owned(m) + IdSet(ids))
      && ViewOf(ExecAll(k, ops), m.home) == Steps(v, ops)
      && MoveSeen(c, v, Steps(v, ops), m, u)
      && (Throughout(v, Owned(m) + IdSet(ids), ops) <==> TmpEmpty(v))
  {
    var via := Owned(m) + IdSet(ids);
    UpdateConfined(c, m, u, ids);
    ViewSteps(k, m.home, via, UpdateOps(c, m, u, ids));
    if Decide(m, u).Bind4? {
      Move4Seen(c, ViewOf(k, m.home), m, u, ids, via);
    } else {
      Move6Seen(c, ViewOf(k, m.home), m, u, ids, via);
    }
  }

  /** A move between two foreign care-of addresses is make-before-break exactly
      when table 251 holds nothing for the mobile node as it starts; then no
      route add collides, and otherwise both temporary ones do. What is turned
      down beyond that is an encapsulation whose state is taken. */
  lemma MakeBeforeBreak(c: Config, k: Kernel, m: Mn, u: Update, ids: Ids)
    requires MnInv(c, k, m) && FreshIds(k.tunnels, ids)
    requires m.active != 0 && Moves(m, u)
    ensures NeverInterrupted(c, k, m, u, ids) <==> TmpEmpty(ViewOf(k, m.home))
    ensures ExecAll(k, UpdateOps(c, m, u, ids)).faults
         == k.faults + (if TmpEmpty(ViewOf(k, m.home)) then 0 else 2)
             + (if StateTaken(c, k.states.Keys, m, u) then 1 else 0)
  {
    var via := Owned(m) + IdSet(ids);
    MoveIsSeen(c, k, m, u, ids);
    ThroughoutIsEveryPrefix(k, m.home, via, via, UpdateOps(c, m, u, ids));
  }

  /** What a move leaves in table 251: nothing, unless it goes from a NATed IPv4
      to an IPv6 care-of address; then both temporary routes and one more rule of
      priority 887 stay behind. */
  lemma MoveLeftovers(c: Config, k: Kernel, m: Mn, u: Update, ids: Ids)
    requires MnInv(c, k, m) && FreshIds(k.tunnels, ids)
    requires m.active != 0 && Moves(m, u)
    ensures MoveSeen(c, ViewOf(k, m.home), ViewOf(ExecAll(k, UpdateOps(c, m, u, ids)), m.home), m, u)
  {
    MoveIsSeen(c, k, m, u, ids);
  }

  /** Two moves in a row: the second is make-before-break exactly when the first
      did not leave a NATed IPv4 address for an IPv6 one. */
  lemma SecondMove(c: Config, k: Kernel, m: Mn, u1: Update, ids1: Ids, u2: Update, ids2: Ids, now: int)
    requires MnInv(c, k, m) && FreshIds(k.tunnels, ids1)
    requires m.active != 0 && Moves(m, u1) && !NamesNoAddress(m, u1) && !StateTaken(c, k.states.Keys, m, u1)
    requires var k1 := ExecAll(k, UpdateOps(c, m, u1, ids1)); FreshIds(k1.tunnels, ids2)
    requires Moves(UpdateMn(m, u1, now, ids1), u2)
    ensures NeverInterrupted(c, ExecAll(k, UpdateOps(c, m, u1, ids1)), UpdateMn(m, u1, now, ids1), u2, ids2)
       <==> !LeavesNat(m, u1)
  {
    var k1 := ExecAll(k, UpdateOps(c, m, u1, ids1));
    var m1 := UpdateMn(m, u1, now, ids1);
    UpdateInstalled(c, ViewOf(k, m.home), m, u1, now, ids1);
    UpdateConfined(c, m, u1, ids1);
    ViewSteps(k, m.home, Owned(m) + IdSet(ids1), UpdateOps(c, m, u1, ids1));
    assert MnInv(c, k1, m1);
    MoveLeftovers(c, k, m, u1, ids1);
    assert m1.active != 0 by {
      if Decide(m, u1).Bind4? {
        assert u1.coa == MapAddr(u1.coa.w3);
      }
    }
    MakeBeforeBreak(c, k1, m1, u2, ids2);
  }
}
