/** One event, and whole runs of events, over all mobile nodes. */
module HomeAgentRuns {
  import opened Addresses
  import opened HomeAgentKernel
  import opened HomeAgentPlans
  import opened HomeAgentMoves

  // ------------------------------------------------------------ one mobile node

  /** The care-of address traffic is tunnelled to. */
  function Bound(m: Mn): Option<Ip6>
    requires m.active < |m.slots|
  {
    if m.active == 0 then None
    else if m.active < 0 then Some(m.coav6)
    else Some(MapAddr(m.slots[m.active].coa))
  }

  /** The update names 0.0.0.0, which the unused slot 0 always matches. */
  predicate NamesNoAddress(m: Mn, u: Update) {
    !Ignored(m, u) && u.coa == MapAddr(INADDR_ANY) && m.active != 0
  }

  predicate LeavesNat(m: Mn, u: Update)
    requires |m.slots| == NIF + 1 && m.active <= NIF
  {
    Decide(m, u) == Bind6 && NatedActive(m)
  }

  /** The update starts an encapsulation whose state is there, and is not the one
      the node itself gives up. */
  predicate StateTaken(c: Config, states: set<StateKey>, m: Mn, u: Update)
    requires |m.slots| == NIF + 1 && m.active <= NIF
  {
    match Decide(m, u)
    case Bind4(i) => i < |m.slots| && m.slots[i].inNat && SlotEncap(c, m.slots[i]).Key() in states - OwnedKeys(c, m)
    case _ => false
  }

  /** The tunnels and states there are afterwards. */
  predicate Balanced(c: Config, v: View, v': View, m: Mn, m': Mn, ids: set<int>)
    requires m.active < |m.slots| && m'.active < |m'.slots|
  {
    && v'.tunnels.Keys == v.tunnels.Keys - Owned(m) + Owned(m') && Owned(m') <= Owned(m) + ids
    && v'.states.Keys == v.states.Keys - OwnedKeys(c, m) + OwnedKeys(c, m')
    && OwnedKeys(c, m') !! v.states.Keys - OwnedKeys(c, m)
  }

  /** A binding update keeps what is installed in step with the record, unless it
      takes a bound node to 0.0.0.0, or asks for a state that is taken. */
  lemma UpdateInstalled(c: Config, v: View, m: Mn, u: Update, now: int, ids: Ids)
    requires Shape(m) && Installed(c, v, m) && FreshIds(v.tunnels, ids)
    ensures var v' := Steps(v, UpdateOps(c, m, u, ids)); var m' := UpdateMn(m, u, now, ids);
      && Shape(m') && m'.home == m.home
      && (Installed(c, v', m') <==> !NamesNoAddress(m, u) && !StateTaken(c, v.states.Keys, m, u))
      && (Installed(c, v', m') ==> Balanced(c, v, v', m, m', IdSet(ids)))
  {
    var via := Owned(m) + IdSet(ids);
    match Decide(m, u)
    case Stay =>
      assert Steps(v, []) == v;
      StaysBalanced(c, v, m, UpdateMn(m, u, now, ids), IdSet(ids));
    case Bind4(i) =>
      MoveTo4Effect(c, v, m, i, u.link, ids, via);
      Moved4Installed(c, v, m, i, u, now, ids);
    case Bind6 =>
      MoveTo6Effect(c, v, m, u.coa, u.link, ids, via);
      Moved6Installed(c, v, m, u, now, ids);
    case Return =>
      GoHomeEffect(c, v, m);
  }

  lemma StaysBalanced(c: Config, v: View, m: Mn, m': Mn, ids: set<int>)
    requires Shape(m) && Installed(c, v, m) && m'.active == m.active && m'.slots == m.slots && Owned(m') == Owned(m)
    ensures Balanced(c, v, v, m, m', ids)
  {
  }

  lemma Moved4Tunnels(c: Config, v: View, m: Mn, i: nat, link: int, ids: Ids)
    requires Shape(m) && Installed(c, v, m) && FreshIds(v.tunnels, ids) && i <= NIF
    ensures var v' := MovedTo4(c, v, m, i, link, ids);
      && v'.tunnels.Keys == v.tunnels.Keys - Owned(m) + {ids.t44, ids.t64}
      && HasTunnel(v', ids.t44, T44, MapAddr(c.hav4), MapAddr(m.slots[i].coa))
      && HasTunnel(v', ids.t64, T64, MapAddr(c.hav4), MapAddr(m.slots[i].coa))
      && MainVia(v', ids.t44, ids.t64) && TmpEmpty(v')
  {
  }

  lemma Moved4States(c: Config, v: View, m: Mn, i: nat, link: int, ids: Ids)
    requires Shape(m) && Installed(c, v, m) && i <= NIF
    ensures var v' := MovedTo4(c, v, m, i, link, ids); var s := m.slots[i];
      var taken := s.inNat && SlotEncap(c, s).Key() in v.states.Keys - OwnedKeys(c, m);
      && (!s.inNat ==> v'.policy.None?)
      && (s.inNat ==> (Wrapped(c, v', s) <==> !taken))
      && v'.states.Keys == v.states.Keys - OwnedKeys(c, m) + if s.inNat then {SlotEncap(c, s).Key()} else {}
  {
  }

  lemma Moved4Installed(c: Config, v: View, m: Mn, i: nat, u: Update, now: int, ids: Ids)
    requires Shape(m) && Installed(c, v, m) && FreshIds(v.tunnels, ids)
    requires Decide(m, u) == Bind4(i)
    ensures var v' := MovedTo4(c, v, m, i, u.link, ids); var m' := UpdateMn(m, u, now, ids);
      && (Installed(c, v', m') <==> !NamesNoAddress(m, u) && !StateTaken(c, v.states.Keys, m, u))
      && (Installed(c, v', m') ==> Balanced(c, v, v', m, m', IdSet(ids)))
  {
    assert m.slots[i].coa == u.coa.w3;
    assert u.coa == MapAddr(u.coa.w3);
    Moved4Tunnels(c, v, m, i, u.link, ids);
    Moved4States(c, v, m, i, u.link, ids);
    var v' := MovedTo4(c, v, m, i, u.link, ids);
    var m' := UpdateMn(m, u, now, ids);
    if u.coa.w3 == INADDR_ANY {
      assert i == 0 && m'.active == 0;
      assert !MainEmpty(v');
    } else {
      assert i != 0 && m'.active == i && m'.slots == m.slots;
    }
  }

  lemma Moved6Installed(c: Config, v: View, m: Mn, u: Update, now: int, ids: Ids)
    requires Shape(m) && Installed(c, v, m) && FreshIds(v.tunnels, ids)
    requires Decide(m, u) == Bind6
    ensures var v' := MovedTo6(c, v, m, u.coa, u.link, ids); var m' := UpdateMn(m, u, now, ids);
      && Installed(c, v', m') && !NamesNoAddress(m, u) && Balanced(c, v, v', m, m', IdSet(ids))
  {
  }

  /** Traffic follows the updates: an accepted update for a foreign address binds
      to just that address (an unknown IPv4 one changes nothing), and one for the
      home address ends the binding. */
  lemma UpdateBinds(m: Mn, u: Update, now: int, ids: Ids)
    requires Shape(m) && !NamesNoAddress(m, u)
    ensures var m' := UpdateMn(m, u, now, ids);
      Bound(m') == if Ignored(m, u) then Bound(m)
                   else if u.coa == m.home.v6 && !IsV4Mapped(u.coa) then None
                   else if !IsV4Mapped(u.coa) then Some(u.coa)
                   else if exists i | 0 < i < NIF :: m.slots[i].coa == u.coa.w3 && u.coa.w3 != INADDR_ANY
                   then Some(u.coa)
                   else Bound(m)
  {
    if !Ignored(m, u) && IsV4Mapped(u.coa) {
      assert u.coa == MapAddr(u.coa.w3);
      var i := SlotOf(m.slots, u.coa.w3, 0);
      if u.coa.w3 == INADDR_ANY {
        assert i == 0;
      }
    }
  }

  /** The probe turns the active slot's NAT flag without contradicting anything
      the snapshot test looks at. */
  predicate SilentFlip(m: Mn, p: Probe)
    requires |m.slots| == NIF + 1
  {
    var i := ProbeSlot(m, p);
    i < NIF && m.active == i && !Displaces(m.slots[i], p) && m.slots[i].inNat != Nated(p)
  }

  /** A probe issues no request and never redirects traffic: the shadow slot
      keeps what is installed. It is sound exactly if it is not a silent flip. */
  lemma ProbeInstalled(c: Config, v: View, m: Mn, p: Probe, now: int)
    requires Shape(m) && Installed(c, v, m)
    ensures var m' := ProbeMn(m, p, now);
      && Shape(m') && m'.home == m.home && Owned(m') == Owned(m)
      && Bound(m') == Bound(m)
      && (Installed(c, v, m') <==> !SilentFlip(m, p))
      && (Installed(c, v, m') ==> OwnedKeys(c, m') == OwnedKeys(c, m))
      && (m'.slots[NIF] != m.slots[NIF] ==> m'.active == NIF)
  {
    var i := ProbeSlot(m, p);
    ProbeShape(m, p, now);
    if i >= NIF {
    } else if m.active != i {
      ProbeElsewhere(c, v, m, p, now);
    } else if Displaces(m.slots[i], p) {
      ProbeDisplaces(c, v, m, p, now);
    } else {
      ProbeConfirms(c, v, m, p, now);
    }
  }

  lemma ProbeShape(m: Mn, p: Probe, now: int)
    requires Shape(m)
    ensures var m' := ProbeMn(m, p, now); var i := ProbeSlot(m, p);
      && Shape(m') && m'.home == m.home
      && m'.coav6 == m.coav6 && m'.tnl44 == m.tnl44 && m'.tnl64 == m.tnl64 && m'.tnl66 == m.tnl66
      && (forall j | 0 <= j < NIF && j != i :: m'.slots[j] == m.slots[j])
      && (i < NIF ==> m'.slots[i] == Learn(m.slots[i], p, now))
      && (if i < NIF && m.active == i && Displaces(m.slots[i], p)
          then m'.active == NIF && m'.slots[NIF] == m.slots[i].(lastProbe := m.slots[NIF].lastProbe)
          else m'.active == m.active && m'.slots[NIF] == m.slots[NIF])
  {
  }

  lemma ProbeElsewhere(c: Config, v: View, m: Mn, p: Probe, now: int)
    requires Shape(m) && Installed(c, v, m) && m.active != ProbeSlot(m, p)
    ensures var m' := ProbeMn(m, p, now);
      Installed(c, v, m') && Bound(m') == Bound(m) && OwnedKeys(c, m') == OwnedKeys(c, m)
  {
    ProbeShape(m, p, now);
    assert m.active > 0 ==> ProbeMn(m, p, now).slots[m.active] == m.slots[m.active];
  }

  lemma ProbeDisplaces(c: Config, v: View, m: Mn, p: Probe, now: int)
    requires Shape(m) && Installed(c, v, m) && m.active == ProbeSlot(m, p) < NIF && Displaces(m.slots[m.active], p)
    ensures var m' := ProbeMn(m, p, now);
      Installed(c, v, m') && Bound(m') == Bound(m) && OwnedKeys(c, m') == OwnedKeys(c, m)
  {
    ProbeShape(m, p, now);
  }

  lemma ProbeConfirms(c: Config, v: View, m: Mn, p: Probe, now: int)
    requires Shape(m) && Installed(c, v, m) && m.active == ProbeSlot(m, p) < NIF && !Displaces(m.slots[m.active], p)
    ensures var m' := ProbeMn(m, p, now);
      && (Installed(c, v, m') <==> m.slots[m.active].inNat == Nated(p))
      && (Installed(c, v, m') ==> OwnedKeys(c, m') == OwnedKeys(c, m))
      && Bound(m') == Bound(m)
  {
    ProbeShape(m, p, now);
  }

  /** What a NATed slot has been told, if every probe names the same port. */
  predicate OnePort(m: Mn, port: int)
    requires |m.slots| == NIF + 1
  {
    forall i | 0 <= i <= NIF && m.slots[i].coa != INADDR_ANY && m.slots[i].inNat ::
      m.slots[i].peer != m.slots[i].coa || m.slots[i].port != port
  }

  /** With one probe port only the un-NATed to NATed turn is silent. */
  lemma OnePortFlips(m: Mn, p: Probe, now: int)
    requires |m.slots| == NIF + 1 && OnePort(m, p.port) && p.coa != INADDR_ANY
    ensures OnePort(ProbeMn(m, p, now), p.port)
    ensures var i := ProbeSlot(m, p);
      SilentFlip(m, p) <==> i < NIF && m.active == i && m.slots[i].coa == p.coa && !m.slots[i].inNat && Nated(p)
  {
    var m' := ProbeMn(m, p, now);
    var i := ProbeSlot(m, p);
    assert forall j | 0 <= j <= NIF && j != i && j != NIF :: m'.slots[j] == m.slots[j];
  }

  lemma ExpireInstalled(c: Config, v: View, m: Mn)
    requires Shape(m) && Installed(c, v, m)
    ensures var v' := Steps(v, Expire(c, m)); var m' := ExpireMn(m);
      && Shape(m') && Installed(c, v', m') && m'.home == m.home
      && Owned(m') == {} && OwnedKeys(c, m') == {}
      && v'.tunnels.Keys == v.tunnels.Keys - Owned(m) && v'.states.Keys == v.states.Keys - OwnedKeys(c, m)
  {
    ExpireEffect(c, v, m);
  }

  // ---------------------------------------------------------- all mobile nodes

  datatype World = World(kernel: Kernel, mns: seq<Mn>)

  datatype Event =
    | OnProbe(probe: Probe, now: int)
    | OnUpdate(update: Update, now: int, ids: Ids)
    | OnSweep(now: int)

  ghost predicate Distinct(mns: seq<Mn>) {
    forall i, j | 0 <= i < j < |mns| ::
      && mns[i].home.v4 != mns[j].home.v4 && mns[i].home.v6 != mns[j].home.v6
      && Owned(mns[i]) !! Owned(mns[j])
  }

  ghost predicate MnInv(c: Config, k: Kernel, m: Mn) {
    Shape(m) && SingleRules(k, m.home) && Installed(c, ViewOf(k, m.home), m)
  }

  function AllOwned(mns: seq<Mn>): set<int> {
    set i, id | 0 <= i < |mns| && id in Owned(mns[i]) :: id
  }

  function AllKeys(c: Config, mns: seq<Mn>): set<StateKey>
    requires forall i | 0 <= i < |mns| :: mns[i].active < |mns[i].slots|
  {
    set i, key | 0 <= i < |mns| && key in OwnedKeys(c, mns[i]) :: key
  }

  /** No XFRM state is used by two mobile nodes. */
  ghost predicate KeysApart(c: Config, mns: seq<Mn>)
    requires forall i | 0 <= i < |mns| :: mns[i].active < |mns[i].slots|
  {
    forall i, j | 0 <= i < j < |mns| :: OwnedKeys(c, mns[i]) !! OwnedKeys(c, mns[j])
  }

  /** Every mobile node has exactly what its record says, and no tunnel or XFRM
      state exists that does not belong to just one of them. */
  ghost predicate WorldInv(c: Config, w: World) {
    && |w.mns| <= MAX_MN_NUM
    && Distinct(w.mns)
    && (forall i | 0 <= i < |w.mns| :: MnInv(c, w.kernel, w.mns[i]))
    && w.kernel.tunnels.Keys == AllOwned(w.mns)
    && KeysApart(c, w.mns) && w.kernel.states.Keys == AllKeys(c, w.mns)
  }

  /** The first record with the home address, or the number of records. */
  function Find(mns: seq<Mn>, hoa: Ip6): (i: nat)
    ensures i <= |mns|
    ensures i < |mns| ==> mns[i].home.v6 == hoa
    ensures forall j | 0 <= j < i :: mns[j].home.v6 != hoa
  {
    if mns == [] || mns[0].home.v6 == hoa then 0 else 1 + Find(mns[1..], hoa)
  }

  ghost predicate Shaped(w: World) {
    forall i | 0 <= i < |w.mns| :: |w.mns[i].slots| == NIF + 1 && w.mns[i].active <= NIF
  }

  ghost function Apply(w: World, i: nat, ops: seq<Op>, m: Mn): World
    requires i < |w.mns|
  {
    World(ExecAll(w.kernel, ops), w.mns[i := m])
  }

  ghost function SweepFrom(c: Config, w: World, i: nat, now: int): (r: World)
    requires i <= |w.mns| && Shaped(w)
    ensures |r.mns| == |w.mns| && Shaped(r)
    decreases |w.mns| - i
  {
    if i == |w.mns| then w
    else
      SweepFrom(c, SweepOne(c, w, i, now), i + 1, now)
  }

  predicate Idle(m: Mn, now: int) {
    now - m.lastBuTime > EXPIRY
  }

  ghost function SweepOne(c: Config, w: World, i: nat, now: int): (r: World)
    requires i < |w.mns| && Shaped(w)
    ensures |r.mns| == |w.mns| && Shaped(r)
    ensures forall j | 0 <= j < |w.mns| ::
      r.mns[j] == if j == i && Idle(w.mns[j], now) then ExpireMn(w.mns[j]) else w.mns[j]
  {
    if Idle(w.mns[i], now) then Apply(w, i, Expire(c, w.mns[i]), ExpireMn(w.mns[i])) else w
  }

  ghost function StepWorld(c: Config, w: World, e: Event): (r: World)
    requires Shaped(w)
    ensures Shaped(r) && |r.mns| == |w.mns|
  {
    match e
    case OnProbe(p, now) =>
      var i := Find(w.mns, p.hoa);
      if i == |w.mns| then w else w.(mns := w.mns[i := ProbeMn(w.mns[i], p, now)])
    case OnUpdate(u, now, ids) =>
      var i := Find(w.mns, u.hoa);
      if i == |w.mns| then w
      else Apply(w, i, UpdateOps(c, w.mns[i], u, ids), UpdateMn(w.mns[i], u, now, ids))
    case OnSweep(now) =>
      SweepFrom(c, w, 0, now)
  }

  /** The update takes node i behind a NAT address, and a local address towards it,
      that another bound node is encapsulated with. */
  ghost predicate SharesNat(c: Config, mns: seq<Mn>, i: nat, u: Update)
    requires i < |mns| && forall j | 0 <= j < |mns| :: |mns[j].slots| == NIF + 1 && mns[j].active <= NIF
  {
    match Decide(mns[i], u)
    case Bind4(icoa) =>
      && icoa < |mns[i].slots| && mns[i].slots[icoa].inNat
      && exists j | 0 <= j < |mns| && j != i :: SlotEncap(c, mns[i].slots[icoa]).Key() in OwnedKeys(c, mns[j])
    case _ => false
  }

  /** The three events that take a record out of step with the kernel are the
      others. */
  ghost predicate Sound(c: Config, w: World, e: Event)
    requires Shaped(w)
  {
    match e
    case OnProbe(p, _) => var i := Find(w.mns, p.hoa); i < |w.mns| ==> !SilentFlip(w.mns[i], p)
    case OnUpdate(u, _, _) =>
      var i := Find(w.mns, u.hoa);
      i < |w.mns| ==> !NamesNoAddress(w.mns[i], u) && !SharesNat(c, w.mns, i, u)
    case OnSweep(_) => true
  }

  // the kernel hands out ifindexes that are not in use
  ghost predicate Fresh(w: World, e: Event) {
    e.OnUpdate? ==> FreshIds(w.kernel.tunnels, e.ids)
  }

  lemma RoutesStayWithin(c: Config, k: Kernel, m: Mn)
    requires MnInv(c, k, m)
    ensures RoutesWithin(k, m.home, Owned(m))
  {
    forall key: Key | key in k.routes && (key.dst == D4(m.home.v4) || key.dst == D6(m.home.v6))
      ensures k.routes[key] in Owned(m)
    {
      var v := ViewOf(k, m.home);
      assert RouteIn(v, key) == At(k, key);
      assert key == m.home.To4(Tmp) || key == m.home.To6(Tmp) || key == m.home.To4(Main) || key == m.home.To6(Main);
    }
  }

  lemma SameForKeeps(c: Config, k: Kernel, k': Kernel, m: Mn)
    requires MnInv(c, k, m) && SameFor(k, k', m.home, Owned(m))
    requires forall key | key in OwnedKeys(c, m) ::
      key in k'.states && (key in k.states ==> k'.states[key] == k.states[key])
    ensures MnInv(c, k', m)
  {
    var v, v' := ViewOf(k, m.home), ViewOf(k', m.home);
    assert v'.main4 == v.main4 && v'.main6 == v.main6 && v'.tmp4 == v.tmp4 && v'.tmp6 == v.tmp6;
    assert v'.rule4 == v.rule4 && v'.rule6 == v.rule6 && v'.policy == v.policy;
  }

  /** A change of one record, with requests confined to it, keeps all the others
      in order; so the whole is in order again just if that one is. */
  lemma ApplyKeeps(c: Config, w: World, i: nat, ops: seq<Op>, m': Mn, ids: set<int>)
    requires WorldInv(c, w) && i < |w.mns| && m'.home == w.mns[i].home
    requires ids !! w.kernel.tunnels.Keys
    requires forall op | op in ops :: Confined(op, m'.home, Owned(w.mns[i]) + ids)
    requires Shape(m') && Shaped(w) && StopsWithin(ops, OwnedKeys(c, w.mns[i]))
    requires var v := ViewOf(w.kernel, m'.home);
      Installed(c, Steps(v, ops), m') ==> Balanced(c, v, Steps(v, ops), w.mns[i], m', ids)
    ensures WorldInv(c, Apply(w, i, ops, m')) <==> Installed(c, Steps(ViewOf(w.kernel, m'.home), ops), m')
  {
    var m := w.mns[i];
    var w' := Apply(w, i, ops, m');
    assert MnInv(c, w.kernel, m);
    ViewSteps(w.kernel, m.home, Owned(m) + ids, ops);
    forall j | 0 <= j < |w.mns| && j != i
      ensures MnInv(c, w'.kernel, w'.mns[j])
    {
      OthersKeep(c, w, i, j, ops, ids);
    }
    if Installed(c, ViewOf(w'.kernel, m'.home), m') {
      assert MnInv(c, w'.kernel, w'.mns[i]);
      ReplaceOwned(w, i, m', ids);
      ReplaceKeys(c, w, i, m');
    }
    if WorldInv(c, w') {
      assert MnInv(c, w'.kernel, w'.mns[i]);
    }
  }

  lemma KeyIsListed(c: Config, mns: seq<Mn>, j: nat, key: StateKey)
    requires forall i | 0 <= i < |mns| :: mns[i].active < |mns[i].slots|
    requires j < |mns| && key in OwnedKeys(c, mns[j])
    ensures key in AllKeys(c, mns)
  {
  }

  lemma OthersStates(c: Config, w: World, i: nat, j: nat, ops: seq<Op>)
    requires Shaped(w) && KeysApart(c, w.mns) && w.kernel.states.Keys == AllKeys(c, w.mns)
    requires i < |w.mns| && j < |w.mns| && j != i && StopsWithin(ops, OwnedKeys(c, w.mns[i]))
    ensures forall key | key in OwnedKeys(c, w.mns[j]) :: key in w.kernel.states && key in ExecAll(w.kernel, ops).states
    ensures forall key | key in OwnedKeys(c, w.mns[j]) :: ExecAll(w.kernel, ops).states[key] == w.kernel.states[key]
  {
    assert OwnedKeys(c, w.mns[j]) !! OwnedKeys(c, w.mns[i]);
    forall key | key in OwnedKeys(c, w.mns[j])
      ensures key in w.kernel.states && key in ExecAll(w.kernel, ops).states
      ensures ExecAll(w.kernel, ops).states[key] == w.kernel.states[key]
    {
      KeyIsListed(c, w.mns, j, key);
      StatesSurvive(w.kernel, ops, OwnedKeys(c, w.mns[i]), key);
    }
  }

  lemma OthersKeep(c: Config, w: World, i: nat, j: nat, ops: seq<Op>, ids: set<int>)
    requires WorldInv(c, w) && i < |w.mns| && j < |w.mns| && j != i
    requires ids !! w.kernel.tunnels.Keys
    requires forall op | op in ops :: Confined(op, w.mns[i].home, Owned(w.mns[i]) + ids)
    requires Shaped(w) && StopsWithin(ops, OwnedKeys(c, w.mns[i]))
    ensures MnInv(c, ExecAll(w.kernel, ops), w.mns[j])
  {
    var m, o := w.mns[i], w.mns[j];
    assert MnInv(c, w.kernel, o);
    RoutesStayWithin(c, w.kernel, o);
    assert Owned(o) <= AllOwned(w.mns);
    ConfinedFrame(w.kernel, ops, m.home, Owned(m) + ids, o.home, Owned(o));
    OthersStates(c, w, i, j, ops);
    SameForKeeps(c, w.kernel, ExecAll(w.kernel, ops), o);
  }

  lemma ReplaceKeys(c: Config, w: World, i: nat, m': Mn)
    requires i < |w.mns| && Shaped(w) && |m'.slots| == NIF + 1 && m'.active <= NIF
    requires KeysApart(c, w.mns) && w.kernel.states.Keys == AllKeys(c, w.mns)
    requires OwnedKeys(c, m') !! w.kernel.states.Keys - OwnedKeys(c, w.mns[i])
    ensures KeysApart(c, w.mns[i := m'])
    ensures AllKeys(c, w.mns[i := m']) == AllKeys(c, w.mns) - OwnedKeys(c, w.mns[i]) + OwnedKeys(c, m')
  {
    var mns' := w.mns[i := m'];
    forall j | 0 <= j < |w.mns|
      ensures OwnedKeys(c, w.mns[j]) <= AllKeys(c, w.mns)
      ensures j != i ==> OwnedKeys(c, m') !! OwnedKeys(c, w.mns[j]) && mns'[j] == w.mns[j]
    {
      assert j != i ==> OwnedKeys(c, w.mns[j]) !! OwnedKeys(c, w.mns[i]);
    }
    forall key | key in AllKeys(c, w.mns) - OwnedKeys(c, w.mns[i]) + OwnedKeys(c, m')
      ensures key in AllKeys(c, mns')
    {
      if key in OwnedKeys(c, m') {
        assert mns'[i] == m';
      } else {
        var j :| 0 <= j < |w.mns| && key in OwnedKeys(c, w.mns[j]);
        assert mns'[j] == w.mns[j];
      }
    }
    forall key | key in AllKeys(c, mns')
      ensures key in AllKeys(c, w.mns) - OwnedKeys(c, w.mns[i]) + OwnedKeys(c, m')
    {
      var j :| 0 <= j < |mns'| && key in OwnedKeys(c, mns'[j]);
      if j != i {
        assert key in OwnedKeys(c, w.mns[j]);
      }
    }
  }

  lemma ReplaceOwned(w: World, i: nat, m': Mn, ids: set<int>)
    requires i < |w.mns| && Distinct(w.mns) && w.kernel.tunnels.Keys == AllOwned(w.mns)
    requires m'.home == w.mns[i].home && ids !! w.kernel.tunnels.Keys
    requires Owned(m') <= Owned(w.mns[i]) + ids
    ensures Distinct(w.mns[i := m'])
    ensures AllOwned(w.mns[i := m']) == AllOwned(w.mns) - Owned(w.mns[i]) + Owned(m')
  {
    var mns' := w.mns[i := m'];
    forall j | 0 <= j < |w.mns|
      ensures Owned(w.mns[j]) <= AllOwned(w.mns) && (j != i ==> Owned(m') !! Owned(w.mns[j]) && mns'[j] == w.mns[j])
    {
    }
    forall id | id in AllOwned(w.mns) - Owned(w.mns[i]) + Owned(m')
      ensures id in AllOwned(mns')
    {
      if id in Owned(m') {
        assert mns'[i] == m';
      } else {
        var j :| 0 <= j < |w.mns| && id in Owned(w.mns[j]);
        assert mns'[j] == w.mns[j];
      }
    }
    forall id | id in AllOwned(mns')
      ensures id in AllOwned(w.mns) - Owned(w.mns[i]) + Owned(m')
    {
      var j :| 0 <= j < |mns'| && id in Owned(mns'[j]);
      if j != i {
        assert id in Owned(w.mns[j]);
      }
    }
  }

  ghost predicate AllConfined(ops: seq<Op>, h: Home, ids: set<int>) {
    forall op | op in ops :: Confined(op, h, ids)
  }

  lemma CoreConfined(c: Config, m: Mn, n4: int, n6: int, tidy: bool, ids: set<int>)
    requires m.active < |m.slots| && Owned(m) <= ids && n4 in ids && n6 in ids
    ensures AllConfined(Core(c, m, n4, n6, tidy), m.home, ids)
  {
    assert AllConfined(TmpUp(m.home, n4, n6), m.home, ids);
    assert AllConfined(Release(m), m.home, ids);
    assert AllConfined(MainUp(m.home, n4, n6), m.home, ids);
    assert AllConfined(EncapOff(c, m), m.home, ids);
    assert AllConfined(TmpDown(m.home, n4, n6), m.home, ids);
  }

  lemma MoveTo4Confined(c: Config, m: Mn, i: nat, link: int, ids: Ids, all: set<int>)
    requires Shape(m) && i <= NIF && all == Owned(m) + IdSet(ids)
    ensures AllConfined(MoveTo4(c, m, i, link, ids), m.home, all)
  {
    CoreConfined(c, m, ids.t44, ids.t64, m.active != 0, all);
    MoveTo4Parts(c, m, i, link, ids);
    assert AllConfined(Tunnels4(c, m.slots[i].coa, link, ids), m.home, all);
    assert AllConfined(EncapOn(c, m, i), m.home, all);
  }

  lemma MoveTo6Confined(c: Config, m: Mn, coa: Ip6, link: int, ids: Ids, all: set<int>)
    requires Shape(m) && all == Owned(m) + IdSet(ids)
    ensures AllConfined(MoveTo6(c, m, coa, link, ids), m.home, all)
  {
    var tidy := m.active != 0 && !NatedActive(m);
    CoreConfined(c, m, ids.t66, ids.t66, tidy, all);
    assert AllConfined(Tunnels6(c, coa, link, ids), m.home, all);
    assert MoveTo6(c, m, coa, link, ids) == Tunnels6(c, coa, link, ids) + Core(c, m, ids.t66, ids.t66, tidy);
  }

  lemma UpdateConfined(c: Config, m: Mn, u: Update, ids: Ids)
    requires Shape(m)
    ensures AllConfined(UpdateOps(c, m, u, ids), m.home, Owned(m) + IdSet(ids))
  {
    var all := Owned(m) + IdSet(ids);
    match Decide(m, u)
    case Stay =>
    case Bind4(i) => MoveTo4Confined(c, m, i, u.link, ids, all);
    case Bind6 => MoveTo6Confined(c, m, u.coa, u.link, ids, all);
    case Return =>
      assert AllConfined(Release(m), m.home, all);
      assert AllConfined(EncapOff(c, m), m.home, all);
  }

  lemma CoreStops(c: Config, m: Mn, n4: int, n6: int, tidy: bool)
    requires m.active < |m.slots|
    ensures StopsWithin(Core(c, m, n4, n6, tidy), OwnedKeys(c, m))
  {
    var keys := OwnedKeys(c, m);
    assert StopsWithin(TmpUp(m.home, n4, n6), keys) && StopsWithin(Release(m), keys);
    assert StopsWithin(MainUp(m.home, n4, n6), keys) && StopsWithin(TmpDown(m.home, n4, n6), keys);
    assert StopsWithin(EncapOff(c, m), keys);
  }

  lemma UpdateStops(c: Config, m: Mn, u: Update, ids: Ids)
    requires Shape(m)
    ensures StopsWithin(UpdateOps(c, m, u, ids), OwnedKeys(c, m))
  {
    match Decide(m, u)
    case Stay =>
    case Bind4(i) =>
      MoveTo4Parts(c, m, i, u.link, ids);
      CoreStops(c, m, ids.t44, ids.t64, m.active != 0);
    case Bind6 =>
      MoveTo6Parts(c, m, u.coa, u.link, ids);
      CoreStops(c, m, ids.t66, ids.t66, m.active != 0 && !NatedActive(m));
    case Return =>
      assert StopsWithin(EncapOff(c, m), OwnedKeys(c, m)) && StopsWithin(Release(m), OwnedKeys(c, m));
  }

  lemma ExpireConfined(c: Config, m: Mn)
    requires Shape(m)
    ensures AllConfined(Expire(c, m), m.home, Owned(m)) && StopsWithin(Expire(c, m), OwnedKeys(c, m))
  {
    assert AllConfined(EncapOff(c, m), m.home, Owned(m));
    assert AllConfined(Release(m), m.home, Owned(m));
  }

  lemma ExpireBalanced(c: Config, v: View, m: Mn)
    requires Shape(m) && Installed(c, v, m)
    ensures var m' := ExpireMn(m); var v' := Steps(v, Expire(c, m));
      && Shape(m') && m'.home == m.home && Installed(c, v', m') && Balanced(c, v, v', m, m', {})
      && Owned(m) + {} == Owned(m)
  {
    ExpireInstalled(c, v, m);
  }

  lemma ExpireKeeps(c: Config, w: World, i: nat)
    requires WorldInv(c, w) && i < |w.mns|
    ensures WorldInv(c, Apply(w, i, Expire(c, w.mns[i]), ExpireMn(w.mns[i])))
  {
    var m := w.mns[i];
    assert MnInv(c, w.kernel, m);
    ExpireBalanced(c, ViewOf(w.kernel, m.home), m);
    ExpireConfined(c, m);
    WorldShaped(c, w);
    ApplyKeeps(c, w, i, Expire(c, m), ExpireMn(m), {});
  }

  lemma WorldShaped(c: Config, w: World)
    requires WorldInv(c, w)
    ensures Shaped(w)
  {
    forall i | 0 <= i < |w.mns|
      ensures |w.mns[i].slots| == NIF + 1 && w.mns[i].active <= NIF
    {
      assert MnInv(c, w.kernel, w.mns[i]);
    }
  }

  lemma SweepOneKeeps(c: Config, w: World, i: nat, now: int)
    requires WorldInv(c, w) && i < |w.mns| && Shaped(w)
    ensures WorldInv(c, SweepOne(c, w, i, now))
  {
    if Idle(w.mns[i], now) {
      ExpireKeeps(c, w, i);
    }
  }

  /** The sweep frees every mobile node that has been silent for over 60 seconds,
      and touches no other record. */
  lemma {:induction false} SweepKeeps(c: Config, w: World, i: nat, now: int)
    requires WorldInv(c, w) && i <= |w.mns| && Shaped(w)
    ensures var w' := SweepFrom(c, w, i, now);
      && WorldInv(c, w')
      && (forall j | 0 <= j < |w.mns| ::
          w'.mns[j] == if j >= i && Idle(w.mns[j], now) then ExpireMn(w.mns[j]) else w.mns[j])
    decreases |w.mns| - i
  {
    if i < |w.mns| {
      SweepOneKeeps(c, w, i, now);
      SweepKeeps(c, SweepOne(c, w, i, now), i + 1, now);
    }
  }

  lemma SameOwned(c: Config, w: World, i: nat, m': Mn)
    requires WorldInv(c, w) && i < |w.mns| && Owned(m') == Owned(w.mns[i])
    requires Shape(w.mns[i]) && Shape(m') && OwnedKeys(c, m') == OwnedKeys(c, w.mns[i])
    ensures var v := ViewOf(w.kernel, w.mns[i].home); Balanced(c, v, v, w.mns[i], m', {})
  {
    assert Owned(w.mns[i]) <= AllOwned(w.mns);
    assert OwnedKeys(c, w.mns[i]) <= AllKeys(c, w.mns);
  }

  lemma ProbeKeepsAt(c: Config, w: World, i: nat, p: Probe, now: int)
    requires WorldInv(c, w) && i < |w.mns| && Shape(w.mns[i])
    ensures WorldInv(c, Apply(w, i, [], ProbeMn(w.mns[i], p, now))) <==> !SilentFlip(w.mns[i], p)
  {
    var m := w.mns[i];
    var v := ViewOf(w.kernel, m.home);
    assert MnInv(c, w.kernel, m);
    var m' := ProbeMn(m, p, now);
    ProbeInstalled(c, v, m, p, now);
    assert Steps(v, []) == v;
    if Installed(c, v, m') {
      SameOwned(c, w, i, m');
    }
    ApplyKeeps(c, w, i, [], m', {});
  }

  lemma ProbeKeeps(c: Config, w: World, e: Event)
    requires WorldInv(c, w) && Shaped(w) && e.OnProbe?
    ensures WorldInv(c, StepWorld(c, w, e)) <==> Sound(c, w, e)
  {
    var i := Find(w.mns, e.probe.hoa);
    if i < |w.mns| {
      assert MnInv(c, w.kernel, w.mns[i]);
      ProbeKeepsAt(c, w, i, e.probe, e.now);
      assert Apply(w, i, [], ProbeMn(w.mns[i], e.probe, e.now)) == StepWorld(c, w, e);
    }
  }

  /** Seen from the records, a state that is taken is another node's. */
  lemma TakenIsShared(c: Config, w: World, i: nat, u: Update)
    requires WorldInv(c, w) && Shaped(w) && i < |w.mns|
    ensures StateTaken(c, w.kernel.states.Keys, w.mns[i], u) <==> SharesNat(c, w.mns, i, u)
  {
    match Decide(w.mns[i], u)
    case Bind4(icoa) =>
      if icoa < |w.mns[i].slots| {
        var key := SlotEncap(c, w.mns[i].slots[icoa]).Key();
        forall j | 0 <= j < |w.mns| && j != i
          ensures OwnedKeys(c, w.mns[j]) !! OwnedKeys(c, w.mns[i])
            && (key in OwnedKeys(c, w.mns[j]) ==> key in AllKeys(c, w.mns))
        {
        }
      }
    case _ =>
  }

  lemma UpdateKeeps(c: Config, w: World, e: Event)
    requires WorldInv(c, w) && Shaped(w) && Fresh(w, e) && e.OnUpdate?
    ensures WorldInv(c, StepWorld(c, w, e)) <==> Sound(c, w, e)
  {
    var i := Find(w.mns, e.update.hoa);
    if i < |w.mns| {
      var m := w.mns[i];
      assert MnInv(c, w.kernel, m);
      UpdateInstalled(c, ViewOf(w.kernel, m.home), m, e.update, e.now, e.ids);
      UpdateConfined(c, m, e.update, e.ids);
      UpdateStops(c, m, e.update, e.ids);
      TakenIsShared(c, w, i, e.update);
      ApplyKeeps(c, w, i, UpdateOps(c, m, e.update, e.ids), UpdateMn(m, e.update, e.now, e.ids), IdSet(e.ids));
    }
  }

  /** One event keeps the world in order exactly if it is neither a silent flip,
      nor an update that names 0.0.0.0 for a bound mobile node, nor one that takes
      a node behind the NAT address of another. */
  lemma StepKeeps(c: Config, w: World, e: Event)
    requires WorldInv(c, w) && Shaped(w) && Fresh(w, e)
    ensures WorldInv(c, StepWorld(c, w, e)) <==> Sound(c, w, e)
  {
    match e
    case OnProbe(_, _) => ProbeKeeps(c, w, e);
    case OnUpdate(_, _, _) => UpdateKeeps(c, w, e);
    case OnSweep(now) => SweepKeeps(c, w, 0, now);
  }

  // ------------------------------------------------------------------ whole runs

  ghost function Run(c: Config, w: World, es: seq<Event>): (r: World)
    requires Shaped(w)
    ensures Shaped(r) && |r.mns| == |w.mns|
    decreases es
  {
    if es == [] then w else Run(c, StepWorld(c, w, es[0]), es[1..])
  }

  /** Every event of the run is sound in the state it meets, and the kernel hands
      out unused ifindexes. */
  ghost predicate LegalRun(c: Config, w: World, es: seq<Event>)
    requires Shaped(w)
    decreases es
  {
    es == [] || (Fresh(w, es[0]) && Sound(c, w, es[0]) && LegalRun(c, StepWorld(c, w, es[0]), es[1..]))
  }

  function NewMn(h: Home): Mn {
    Mn(h, 0, seq(NIF + 1, _ => Slot(INADDR_ANY, false, INADDR_ANY, 0, 0)), [], IN6ADDR_ANY, 0, 0, 0, 0, 0)
  }

  ghost predicate DistinctHomes(homes: seq<Home>) {
    forall i, j | 0 <= i < j < |homes| :: homes[i].v4 != homes[j].v4 && homes[i].v6 != homes[j].v6
  }

  function Boot(homes: seq<Home>): (w: World)
    ensures Shaped(w) && |w.mns| == |homes|
  {
    World(EMPTY, seq(|homes|, i requires 0 <= i < |homes| => NewMn(homes[i])))
  }

  /** Start-up: nobody is bound and nothing is installed. */
  lemma BootInv(c: Config, homes: seq<Home>)
    requires |homes| <= MAX_MN_NUM && DistinctHomes(homes)
    ensures WorldInv(c, Boot(homes))
  {
    var w := Boot(homes);
    assert AllOwned(w.mns) == {};
    assert forall i | 0 <= i < |homes| :: w.mns[i] == NewMn(homes[i]);
  }

  /** Over every run of probes, updates and sweeps the kernel holds for each
      mobile node exactly what `active` says, and no tunnel is left over. */
  lemma {:induction false} RunInv(c: Config, w: World, es: seq<Event>)
    requires WorldInv(c, w) && Shaped(w) && LegalRun(c, w, es)
    ensures WorldInv(c, Run(c, w, es))
    decreases es
  {
    if es != [] {
      StepKeeps(c, w, es[0]);
      RunInv(c, StepWorld(c, w, es[0]), es[1..]);
    }
  }

  /** A mobile node that is idle when the sweep comes ends up unbound, with no
      tunnel, route or encapsulation, whatever run led there. */
  lemma IdleOwnsNothing(c: Config, homes: seq<Home>, es: seq<Event>, now: int, i: nat)
    requires |homes| <= MAX_MN_NUM && DistinctHomes(homes) && i < |homes|
    requires LegalRun(c, Boot(homes), es) && Idle(Run(c, Boot(homes), es).mns[i], now)
    ensures OwnsNothing(Run(c, Boot(homes), es + [OnSweep(now)]), i)
  {
    BootInv(c, homes);
    RunInv(c, Boot(homes), es);
    var w1 := Run(c, Boot(homes), es);
    WorldShaped(c, w1);
    SweepKeeps(c, w1, 0, now);
    RunSnoc(c, Boot(homes), es, OnSweep(now));
    var w2 := StepWorld(c, w1, OnSweep(now));
    assert MnInv(c, w2.kernel, w2.mns[i]);
  }

  ghost predicate OwnsNothing(w: World, i: nat)
    requires i < |w.mns|
  {
    var m := w.mns[i];
    var v := ViewOf(w.kernel, m.home);
    m.active == 0 && m.lastBuSeq == 0 && Owned(m) == {} && MainEmpty(v) && TmpEmpty(v) && v.policy.None?
  }

  lemma {:induction false} RunSnoc(c: Config, w: World, es: seq<Event>, e: Event)
    requires Shaped(w)
    ensures Run(c, w, es + [e]) == StepWorld(c, Run(c, w, es), e)
    decreases es
  {
    if es == [] {
      assert [e][1..] == [];
    } else {
      assert (es + [e])[1..] == es[1..] + [e];
      RunSnoc(c, StepWorld(c, w, es[0]), es[1..], e);
    }
  }
}
