/** The mobile node's record told by the events alone: where its handoffs have taken
    it, the tunnels it uses and the updates it sends. */
module MobileLedger {
  import opened Addresses
  import opened TunnelPool
  import opened MobileKernel
  import opened MobilePlans
  import opened MobileHandoff
  import opened MobileRuns
  import opened MobileSystem

  // at home (or, to begin with, nowhere), on a foreign IPv6 address, or on an IPv4
  // one, with or without encapsulation
  datatype Place = Home(coa6: Ip6) | Six(coa6: Ip6) | Four(coa4: Ip4, encap: bool)

  // with the interface of the last move, that of the last handoff but those for the
  // address in use, the interfaces there are, and the addresses of all updates sent
  datatype Account = Account(place: Place, link: int, current: int, preferred: int, known: seq<int>, burst: bool,
                             sent: seq<Ip6>)

  function Copies(a: Ip6, n: nat): (r: seq<Ip6>)
    ensures |r| == n && forall i | 0 <= i < n :: r[i] == a
  {
    seq(n, _ => a)
  }

  function AddressOf(p: Place): Ip6 {
    match p
    case Home(a) => a
    case Six(a) => a
    case Four(a, _) => MapAddr(a)
  }

  predicate IsThere(p: Place, t: Target) {
    match t
    case To6(a) => (p.Home? || p.Six?) && p.coa6 == a
    case To4(a, _) => p.Four? && p.coa4 == a
  }

  /** A handoff on the preferred interface, to an address that is not the one in use
      nor the IPv4 home address. */
  predicate Goes(c: Config, a: Account, t: Target, ifindex: int) {
    && ifindex in a.known && ifindex == a.preferred
    && !IsThere(a.place, t) && (t.To4? ==> t.coa4 != c.hoav4)
  }

  /** Its updates: one or ten, and one more from IPv4 to IPv6. */
  function Due(a: Account, t: Target): nat {
    (if a.burst then 10 else 1) + if t.To6? && a.place.Four? then 1 else 0
  }

  function PlaceOf(c: Config, t: Target): Place {
    match t
    case To6(a) => if a == c.hoav6 then Home(a) else Six(a)
    case To4(a, encap) => Four(a, encap)
  }

  function Handed(c: Config, a: Account, t: Target, ifindex: int): Account {
    if ifindex !in a.known || ifindex != a.preferred then a
    else if IsThere(a.place, t) then a.(burst := false)
    else if !Goes(c, a, t, ifindex) then a.(current := ifindex)
    else
      var place := PlaceOf(c, t);
      a.(place := place, link := ifindex, current := ifindex, burst := false,
         sent := a.sent + Copies(AddressOf(place), Due(a, t)))
  }

  function Told(c: Config, es: seq<Event>): Account
    decreases |es|
  {
    if es == [] then Account(Home(IN6ADDR_ANY), 0, 0, 0, [0, 0, 0], false, [])
    else
      var a := Told(c, es[..|es| - 1]);
      match es[|es| - 1]
      case Handoff(t, ifindex, _) => Handed(c, a, t, ifindex)
      case Tick(due) => if due && !a.place.Home? then a.(sent := a.sent + [AddressOf(a.place)]) else a
      case Configure(index, burst, nics) =>
        a.(preferred := index, burst := burst, known := seq(|nics|, i requires 0 <= i < |nics| => nics[i].ifindex))
  }

  // ---------------------------------------------------------------- the record's side

  predicate AtPlace(m: Mobile, p: Place) {
    match p
    case Home(a) => m.coaType == AtHome && m.coav6 == a
    case Six(a) => m.coaType == V6 && m.coav6 == a
    case Four(a, encap) => m.coaType == (if encap then V4Nat else V4Plain) && m.coav4 == a
  }

  predicate Knows(m: Mobile, known: seq<int>) {
    |m.ifaces| == |known| && forall i | 0 <= i < |known| :: m.ifaces[i].ifindex == known[i]
  }

  /** The updates, numbered from 1. */
  predicate HasSent(m: Mobile, sent: seq<Ip6>) {
    && |m.sent| == |sent| && m.buSeq == |sent| + 1
    && forall i | 0 <= i < |sent| :: m.sent[i] == Sent(sent[i], i + 1)
  }

  predicate InStep(m: Mobile, a: Account) {
    && AtPlace(m, a.place) && Knows(m, a.known) && HasSent(m, a.sent)
    && m.current == a.current && m.preferred == a.preferred && m.consecutive == a.burst
  }

  lemma KnownIs(m: Mobile, known: seq<int>, ifindex: int)
    requires Knows(m, known)
    ensures FindIface(m.ifaces, ifindex) < |m.ifaces| <==> ifindex in known
  {
    var i := FindIface(m.ifaces, ifindex);
    if i < |m.ifaces| {
      assert known[i] == ifindex;
    }
    if ifindex in known {
      var j :| 0 <= j < |known| && known[j] == ifindex;
      assert m.ifaces[j].ifindex == ifindex;
    }
  }

  lemma SentMore(m: Mobile, m': Mobile, sent: seq<Ip6>, coa: Ip6, n: nat)
    requires HasSent(m, sent) && Announced(m, m', coa, n) && Numbered(m')
    ensures HasSent(m', sent + Copies(coa, n))
  {
    assert forall i | 0 <= i < |m.sent| :: m'.sent[i] == m.sent[i];
  }

  lemma HasSentNumbered(m: Mobile, sent: seq<Ip6>)
    requires HasSent(m, sent)
    ensures Numbered(m)
  {
  }

  /** What a handoff leaves of the rest of the record. */
  lemma MoveRest(c: Config, m: Mobile, t: Target, ifindex: int, p: Picks)
    requires IsMove(Decide(c, m, t, ifindex))
    ensures var m' := After(c, m, t, ifindex, p);
      && m'.preferred == m.preferred && !m'.consecutive && m'.current == ifindex
      && m'.ifaces == NoteIface(m, t, ifindex).ifaces
  {
    AnnounceIs(NoteIface(m, t, ifindex).(current := ifindex), Registers(t), 1);
    AnnounceIs(Moved(c, m, t, ifindex, p), Registers(t), Burst(m));
  }

  lemma NotedKnows(m: Mobile, t: Target, ifindex: int, known: seq<int>)
    requires Knows(m, known)
    ensures Knows(NoteIface(m, t, ifindex), known)
  {
  }

  /** Decide's answer in the ledger's terms. */
  lemma GoesIs(c: Config, m: Mobile, a: Account, t: Target, ifindex: int)
    requires InStep(m, a)
    ensures Goes(c, a, t, ifindex) <==> IsMove(Decide(c, m, t, ifindex))
    ensures Decide(c, m, t, ifindex).Refuse? <==>
      (ifindex !in a.known || (ifindex == a.preferred && !IsThere(a.place, t) && !Goes(c, a, t, ifindex)))
  {
    KnownIs(m, a.known, ifindex);
  }

  lemma MoveInStep(c: Config, m: Mobile, a: Account, t: Target, ifindex: int, p: Picks)
    requires InStep(m, a) && Goes(c, a, t, ifindex)
    ensures InStep(After(c, m, t, ifindex, p), Handed(c, a, t, ifindex))
  {
    GoesIs(c, m, a, t, ifindex);
    var m', a' := After(c, m, t, ifindex, p), Handed(c, a, t, ifindex);
    MoveRest(c, m, t, ifindex, p);
    NotedKnows(m, t, ifindex, a.known);
    HasSentNumbered(m, a.sent);
    MoveAnnounces(c, m, t, ifindex, p);
    SentMore(m, m', a.sent, Registers(t), Updates(c, m, t, ifindex));
  }

  lemma StayInStep(c: Config, m: Mobile, a: Account, t: Target, ifindex: int, p: Picks)
    requires InStep(m, a) && !Goes(c, a, t, ifindex)
    ensures InStep(After(c, m, t, ifindex, p), Handed(c, a, t, ifindex))
  {
    GoesIs(c, m, a, t, ifindex);
    KnownIs(m, a.known, ifindex);
    NotedKnows(m, t, ifindex, a.known);
  }

  lemma TickInStep(m: Mobile, a: Account, due: bool)
    requires InStep(m, a)
    ensures InStep(Periodic(m, due), if due && !a.place.Home? then a.(sent := a.sent + [AddressOf(a.place)]) else a)
  {
    if due && !a.place.Home? {
      var coa := AddressOf(a.place);
      AnnounceIs(m, coa, 1);
      HasSentNumbered(m, a.sent);
      SentMore(m, Announce(m, coa, 1), a.sent, coa, 1);
      assert Copies(coa, 1) == [coa];
    }
  }

  lemma BootInStep(c: Config)
    ensures InStep(Boot().m, Told(c, []))
  {
  }

  // --------------------------------------------------------------- the tunnels in use

  predicate HasEntry(es: Entries, key: Key, id: int) {
    exists i | 0 <= i < |es| :: es[i].key == key && es[i].ifindex == id
  }

  /** The tunnels in use go from the address the node is at to the home agent, by the
      interface of the last move. */
  predicate Tunnelled(c: Config, m: Mobile, s: Segments, p: Place, link: int) {
    match p
    case Home(_) => true
    case Six(a) => HasEntry(s.s66, Key(a, c.hav6, link), m.t66)
    case Four(a, _) =>
      && HasEntry(s.s44, Key(MapAddr(a), MapAddr(c.hav4), link), m.t44)
      && HasEntry(s.s64, Key(MapAddr(a), MapAddr(c.hav4), link), m.t64)
  }

  lemma GivenHasKey(es: Entries, kind: int, key: Key, now: int, id: int)
    requires SegmentOk(es, kind, id) && now < MAX_TIME && id > 0
    ensures HasEntry(Use(es, kind, key, now, id), key, Given(es, kind, key, now, id))
  {
    UseOk(es, kind, key, now, id);
    var k, es' := SlotFor(es, key), Use(es, kind, key, now, id);
    assert es'[k].key == key && es'[k].ifindex == Given(es, kind, key, now, id);
  }

  lemma Added6Goes(p: State, key: Key, now: int)
    requires p.Ok() && now < MAX_TIME
    ensures HasEntry(Added6(p, key, now).segments.s66, key, Picks6(p, key, now).t66)
  {
    OkParts(p, 66);
    GivenHasKey(p.segments.s66, 66, key, now, p.next);
  }

  lemma Added4Goes(p: State, key: Key, now: int)
    requires p.Ok() && now < MAX_TIME
    ensures var s, picks := Added4(p, key, now).segments, Picks4(p, key, now);
      HasEntry(s.s44, key, picks.t44) && HasEntry(s.s64, key, picks.t64)
  {
    var p1 := Added(p, 64, key, now);
    Picks4Is(p, key, now);
    OkParts(p, 64);
    OkParts(p1, 44);
    GivenHasKey(p.segments.s64, 64, key, now, p.next);
    GivenHasKey(p1.segments.s44, 44, key, now, p1.next);
  }

  lemma MoveTunnelled(c: Config, s: System, a: Account, t: Target, ifindex: int, now: int)
    requires s.pool.Ok() && now < MAX_TIME && InStep(s.m, a) && Goes(c, a, t, ifindex)
    ensures var s', a' := HandedOff(c, s, t, ifindex, now), Handed(c, a, t, ifindex);
      Tunnelled(c, s'.m, s'.pool.segments, a'.place, a'.link)
  {
    GoesIs(c, s.m, a, t, ifindex);
    AfterBinding(c, s.m, t, ifindex, PicksFor(c, s.m, s.pool, t, ifindex, now));
    match Decide(c, s.m, t, ifindex)
    case Bind6 => Added6Goes(s.pool, Key6(c, t.coa6, ifindex), now);
    case Bind4 => Added4Goes(s.pool, Key4(c, t.coa4, ifindex), now);
    case _ =>
  }

  lemma SameTunnelled(c: Config, m: Mobile, m': Mobile, s: Segments, p: Place, link: int)
    requires SameBinding(m', m) && Tunnelled(c, m, s, p, link)
    ensures Tunnelled(c, m', s, p, link)
  {
  }

  // ------------------------------------------------------------------------- all runs

  ghost predicate Follows(c: Config, s: System, a: Account) {
    InStep(s.m, a) && Tunnelled(c, s.m, s.pool.segments, a.place, a.link)
  }

  /** A handoff that goes nowhere: nothing is asked of the kernel or the pool, no
      update is sent, and off the preferred interface nothing but the addresses of
      the interfaces is written down. */
  lemma StaysPut(c: Config, s: System, a: Account, t: Target, ifindex: int, now: int)
    requires s.pool.Ok() && now < MAX_TIME && InStep(s.m, a) && !Goes(c, a, t, ifindex)
    ensures var s' := HandedOff(c, s, t, ifindex, now);
      && s'.net == s.net && s'.pool == s.pool && SameBinding(s'.m, s.m) && s'.m.sent == s.m.sent
      && (ifindex != a.preferred ==> s'.m == s.m.(ifaces := s'.m.ifaces))
  {
    GoesIs(c, s.m, a, t, ifindex);
  }

  lemma HandoffFollows(c: Config, s: System, a: Account, t: Target, ifindex: int, now: int)
    requires s.pool.Ok() && now < MAX_TIME && Follows(c, s, a)
    ensures Follows(c, HandedOff(c, s, t, ifindex, now), Handed(c, a, t, ifindex))
  {
    var p, s' := PicksFor(c, s.m, s.pool, t, ifindex, now), HandedOff(c, s, t, ifindex, now);
    if Goes(c, a, t, ifindex) {
      MoveInStep(c, s.m, a, t, ifindex, p);
      MoveTunnelled(c, s, a, t, ifindex, now);
    } else {
      StayInStep(c, s.m, a, t, ifindex, p);
      StaysPut(c, s, a, t, ifindex, now);
      SameTunnelled(c, s.m, s'.m, s.pool.segments, a.place, a.link);
    }
  }

  /** After any run, whatever the clock does: the node is bound to the address of the
      last handoff that went anywhere, over tunnels from there to the home agent; and
      its updates, in order, are one or ten for each of these handoffs, one more from
      IPv4 to IPv6, and one for each due tick away from home, each for the address of
      the last handoff before it. */
  lemma {:induction false} RunTold(c: Config, es: seq<Event>)
    requires AllInTime(es)
    ensures Follows(c, Run(c, es), Told(c, es))
    decreases |es|
  {
    if es == [] {
      BootInStep(c);
    } else {
      var n := |es| - 1;
      var s, a := Run(c, es[..n]), Told(c, es[..n]);
      RunTold(c, es[..n]);
      match es[n]
      case Handoff(t, ifindex, now) => HandoffFollows(c, s, a, t, ifindex, now);
      case Tick(due) =>
        TickInStep(s.m, a, due);
        TickNumbers(s.m, due);
        SameTunnelled(c, s.m, Periodic(s.m, due), s.pool.segments, a.place, a.link);
      case Configure(_, _, _) =>
    }
  }

  /** Away from home the last update sent is for the address the node is at. */
  lemma {:induction false} LastSent(c: Config, es: seq<Event>)
    ensures var a := Told(c, es); !a.place.Home? ==> a.sent != [] && a.sent[|a.sent| - 1] == AddressOf(a.place)
    decreases |es|
  {
    if es != [] {
      LastSent(c, es[..|es| - 1]);
    }
  }

  lemma HomeAgain(c: Config, m: Mobile, a: Account, t: Target, ifindex: int, p: Picks)
    requires InStep(m, a) && Goes(c, a, t, ifindex) && PlaceOf(c, t).Home?
    ensures After(c, m, t, ifindex, p).coav4 == c.hoav4
  {
    GoesIs(c, m, a, t, ifindex);
    AfterBinding(c, m, t, ifindex, p);
  }

  /** After any run, a handoff for an interface that is not preferred, or not known,
      for the address in use or for the IPv4 home address changes neither the kernel
      nor the pool, nor the binding, and sends nothing; any other one binds to just
      its target, over tunnels from there, and sends its updates for it. */
  lemma HandoffTells(c: Config, es: seq<Event>, t: Target, ifindex: int, now: int)
    requires AllInTime(es) && now < MAX_TIME
    ensures var s, a := Run(c, es), Told(c, es); var s' := HandedOff(c, s, t, ifindex, now);
      if !Goes(c, a, t, ifindex) then
        && s'.net == s.net && s'.pool == s.pool && SameBinding(s'.m, s.m) && s'.m.sent == s.m.sent
        && (ifindex != a.preferred ==> s'.m == s.m.(ifaces := s'.m.ifaces))
      else
        && AtPlace(s'.m, PlaceOf(c, t)) && s'.m.current == ifindex
        && (PlaceOf(c, t).Home? ==> s'.m.coav4 == c.hoav4)
        && Tunnelled(c, s'.m, s'.pool.segments, PlaceOf(c, t), ifindex)
        && HasSent(s'.m, a.sent + Copies(AddressOf(PlaceOf(c, t)), Due(a, t)))
  {
    var s, a := Run(c, es), Told(c, es);
    RunTold(c, es);
    HandoffFollows(c, s, a, t, ifindex, now);
    if !Goes(c, a, t, ifindex) {
      StaysPut(c, s, a, t, ifindex, now);
    } else if PlaceOf(c, t).Home? {
      HomeAgain(c, s.m, a, t, ifindex, PicksFor(c, s.m, s.pool, t, ifindex, now));
    }
  }

  /** One more update, for the address of the last one. */
  predicate Repeats(m: Mobile, m': Mobile) {
    && |m'.sent| == |m.sent| + 1 && m.sent <= m'.sent && m.sent != []
    && m'.sent[|m.sent|] == Sent(m.sent[|m.sent| - 1].coa, |m.sent| + 1)
  }

  lemma TickRepeats(m: Mobile, a: Account)
    requires InStep(m, a) && !a.place.Home? && a.sent != [] && a.sent[|a.sent| - 1] == AddressOf(a.place)
    ensures Repeats(m, Periodic(m, true))
  {
    var m1 := m.(sent := m.sent + [Sent(AddressOf(a.place), m.buSeq)], buSeq := m.buSeq + 1);
    assert Announce(m1, AddressOf(a.place), 0) == m1;
    assert m.sent[|m.sent| - 1] == Sent(a.sent[|m.sent| - 1], |m.sent|);
  }

  lemma LastInstalled(n: Net, m: Mobile, a: Account)
    requires InStep(m, a) && !a.place.Home? && a.sent != [] && a.sent[|a.sent| - 1] == AddressOf(a.place)
    requires Installed(n, m)
    ensures m.coaType != AtHome && m.sent != [] && Addressed(n, m, m.sent[|m.sent| - 1].coa)
  {
    assert m.sent[|m.sent| - 1] == Sent(a.sent[|m.sent| - 1], |m.sent|);
  }

  /** It is the address in the home address option's state on IPv6, and the source of
      the encapsulation on IPv4, if there is one. */
  predicate Addressed(n: Net, m: Mobile, coa: Ip6) {
    && (m.coaType == V6 ==> n.dstState == Some(coa))
    && (m.coaType == V4Nat ==> n.encap.Some? && coa == MapAddr(n.encap.value))
  }

  predicate Ticked(s: System, s': System) {
    if s.m.coaType == AtHome then s' == s
    else
      && s'.net == s.net && s'.pool == s.pool && SameBinding(s'.m, s.m)
      && Repeats(s.m, s'.m) && Addressed(s.net, s.m, s.m.sent[|s.m.sent| - 1].coa)
  }

  predicate Registered(m: Mobile, a: Account) {
    InStep(m, a) && (!a.place.Home? ==> a.sent != [] && a.sent[|a.sent| - 1] == AddressOf(a.place))
  }

  lemma RunRegisters(c: Config, es: seq<Event>)
    requires AllInTime(es)
    ensures Registered(Run(c, es).m, Told(c, es))
  {
    RunTold(c, es);
    LastSent(c, es);
  }

  lemma TickIs(s: System, a: Account)
    requires Registered(s.m, a) && Installed(s.net, s.m)
    ensures Ticked(s, s.(m := Periodic(s.m, true)))
  {
    if !a.place.Home? {
      TickRepeats(s.m, a);
      LastInstalled(s.net, s.m, a);
      TickNumbers(s.m, true);
    }
  }

  lemma InstalledAfter(c: Config, es: seq<Event>)
    requires AllInTime(es) && NeverLeavesEncap(c, es)
    ensures Installed(Run(c, es).net, Run(c, es).m)
  {
    assert es[..|es|] == es;
    InstalledAt(c, es, |es|);
  }

  /** The periodic update after any run: nothing at home; away, just one more, for
      the address the last one was for, which is the one installed. */
  lemma TickTells(c: Config, es: seq<Event>)
    requires AllInTime(es) && NeverLeavesEncap(c, es)
    ensures Ticked(Run(c, es), Next(c, Run(c, es), Tick(true)))
  {
    RunRegisters(c, es);
    InstalledAfter(c, es);
    TickIs(Run(c, es), Told(c, es));
  }

  /** What a handoff writes down about the interface, moving or not: the IPv6 address,
      or the IPv4 address of a type 1 handoff. */
  lemma HandoffNotes(c: Config, m: Mobile, t: Target, ifindex: int, p: Picks, i: nat)
    requires i < |m.ifaces| && m.ifaces[i].ifindex == ifindex && forall j | 0 <= j < i :: m.ifaces[j].ifindex != ifindex
    ensures var nics := After(c, m, t, ifindex, p).ifaces;
      && |nics| == |m.ifaces| && (forall j | 0 <= j < |nics| && j != i :: nics[j] == m.ifaces[j])
      && nics[i] == match t
                    case To6(a) => Iface(ifindex, a, m.ifaces[i].coav4)
                    case To4(a, encap) => if encap then Iface(ifindex, m.ifaces[i].coav6, a) else m.ifaces[i]
  {
    assert FindIface(m.ifaces, ifindex) == i;
    if IsMove(Decide(c, m, t, ifindex)) {
      MoveRest(c, m, t, ifindex, p);
    }
  }
}
