/** The home agent's records told by the events alone: what a mobile node was last
    heard to say, which slot each of its interfaces has, and the way traffic goes. */
module HomeAgentLedger {
  import opened Addresses
  import opened HomeAgentKernel
  import opened HomeAgentPlans
  import opened HomeAgentMoves
  import opened HomeAgentRuns

  // ----------------------------------------------------------------- being heard

  // number and time of the last update accepted; a node that is dropped starts again
  datatype Mark = Mark(seqno: int, at: int)

  predicate Accepted(b: Mark, seqno: int) {
    !(b.seqno > seqno && b.seqno - seqno < 10)
  }

  function Heard(es: seq<Event>, hoa: Ip6): Mark
    decreases |es|
  {
    if es == [] then Mark(0, 0)
    else
      var n := |es| - 1;
      var b := Heard(es[..n], hoa);
      match es[n]
      case OnUpdate(u, now, _) => if u.hoa == hoa && Accepted(b, u.seqno) then Mark(u.seqno, now) else b
      case OnSweep(now) => if now - b.at > 60 then Mark(0, b.at) else b
      case OnProbe(_, _) => b
  }

  /** A sweep now finds the node silent for over a minute. */
  predicate Silent(es: seq<Event>, hoa: Ip6, now: int) {
    now - Heard(es, hoa).at > 60
  }

  // ------------------------------------------------------------- what probes report

  datatype Report = Report(probe: Probe, at: int)

  /** The node's probes since it was last dropped. */
  function Reports(es: seq<Event>, hoa: Ip6): seq<Report>
    decreases |es|
  {
    if es == [] then []
    else
      var n := |es| - 1;
      var before := Reports(es[..n], hoa);
      match es[n]
      case OnProbe(p, now) => if p.hoa == hoa then before + [Report(p, now)] else before
      case OnSweep(now) => if Silent(es[..n], hoa, now) then [] else before
      case OnUpdate(_, _, _) => before
  }

  /** Its interfaces, in the order of their first probes. */
  function Interfaces(rs: seq<Report>): seq<int>
    decreases |rs|
  {
    if rs == [] then []
    else
      var before := Interfaces(rs[..|rs| - 1]);
      var x := rs[|rs| - 1].probe.ifindex;
      if x in before then before else before + [x]
  }

  /** The last probe of an interface. */
  function LastOf(rs: seq<Report>, x: int): Option<Report>
    decreases |rs|
  {
    if rs == [] then None
    else if rs[|rs| - 1].probe.ifindex == x then Some(rs[|rs| - 1])
    else LastOf(rs[..|rs| - 1], x)
  }

  /** The slot says what the probe did: its address, whether a NAT changed address or
      port on the way, and if so to what. */
  predicate Says(s: Slot, p: Probe) {
    && s.coa == p.coa
    && (s.inNat <==> p.natIp != p.coa || p.natPort != p.port)
    && (s.inNat ==> s.peer == p.natIp && s.port == p.natPort)
  }

  /** Interface number k has slot k + 1, as long as there are slots; all others below
      the shadow slot are unused. */
  predicate InSlots(slots: seq<Slot>, rs: seq<Report>)
    requires |slots| == NIF + 1
  {
    var ifs := Interfaces(rs);
    && slots[0].coa == INADDR_ANY
    && (forall j | |ifs| < j < NIF :: slots[j].coa == INADDR_ANY)
    && (forall j | 1 <= j <= |ifs| && j < NIF :: SlotSays(slots[j], LastOf(rs, ifs[j - 1])))
  }

  predicate SlotSays(s: Slot, r: Option<Report>) {
    r.Some? && Says(s, r.value.probe) && s.lastProbe == r.value.at
  }

  predicate Mapped(nifMap: seq<int>, ifs: seq<int>) {
    nifMap == if |ifs| <= NIF then ifs else ifs[..NIF]
  }

  predicate NoRepeats(xs: seq<int>) {
    forall i, j | 0 <= i < j < |xs| :: xs[i] != xs[j]
  }

  lemma NoRepeatsMore(xs: seq<int>, x: int)
    requires NoRepeats(xs) && x !in xs
    ensures NoRepeats(xs + [x])
  {
  }

  lemma {:induction false} InterfacesApart(rs: seq<Report>)
    ensures NoRepeats(Interfaces(rs))
    decreases |rs|
  {
    if rs != [] {
      var n := |rs| - 1;
      InterfacesApart(rs[..n]);
      if rs[n].probe.ifindex !in Interfaces(rs[..n]) {
        NoRepeatsMore(Interfaces(rs[..n]), rs[n].probe.ifindex);
      }
    }
  }

  /** An interface keeps its number, and with it its slot, whatever is probed later. */
  lemma {:induction false} InterfaceStays(rs: seq<Report>, more: seq<Report>)
    ensures Interfaces(rs) <= Interfaces(rs + more)
    decreases |more|
  {
    if more == [] {
      assert rs + more == rs;
    } else {
      var n := |more| - 1;
      InterfaceStays(rs, more[..n]);
      assert more == more[..n] + [more[n]] && rs + more == rs + more[..n] + [more[n]];
      OneMore(rs + more[..n], more[n]);
    }
  }

  lemma {:induction false} ProbedIsListed(rs: seq<Report>, x: int)
    ensures x in Interfaces(rs) <==> LastOf(rs, x).Some?
    ensures LastOf(rs, x).Some? ==> LastOf(rs, x).value.probe.ifindex == x
    decreases |rs|
  {
    if rs != [] {
      ProbedIsListed(rs[..|rs| - 1], x);
    }
  }

  lemma OneMore(rs: seq<Report>, r: Report)
    ensures var ifs := Interfaces(rs);
      Interfaces(rs + [r]) == if r.probe.ifindex in ifs then ifs else ifs + [r.probe.ifindex]
    ensures forall x :: LastOf(rs + [r], x) == if x == r.probe.ifindex then Some(r) else LastOf(rs, x)
  {
    assert (rs + [r])[..|rs|] == rs;
  }

  // -------------------------------------------------------------- the way traffic goes

  // home, a foreign IPv6 address, the address of interface number k, or an address
  // the interface it belonged to has left since
  datatype Path = AtHome | On6(coa: Ip6) | Via(k: nat) | Adrift(last: Probe)

  /** The interface's last probe before this one said otherwise. */
  predicate Contradicts(q: Probe, p: Probe) {
    || q.coa != p.coa
    || ((q.natIp != q.coa || q.natPort != q.port) && (q.natIp != p.natIp || q.natPort != p.natPort))
  }

  predicate Names(rs: seq<Report>, k: nat, a: Ip4)
    requires k < |Interfaces(rs)|
  {
    var r := LastOf(rs, Interfaces(rs)[k]);
    r.Some? && r.value.probe.coa == a
  }

  /** The first interface, from k on, whose last probe named the address. */
  function FirstWith(rs: seq<Report>, a: Ip4, k: nat): (r: Option<nat>)
    ensures r.Some? ==> k <= r.value < |Interfaces(rs)| && r.value < NIF - 1 && Names(rs, r.value, a)
    ensures forall j | k <= j < |Interfaces(rs)| && j < NIF - 1 && (r.Some? ==> j < r.value) :: !Names(rs, j, a)
    decreases |Interfaces(rs)| - k
  {
    if k >= |Interfaces(rs)| || k >= NIF - 1 then None
    else if Names(rs, k, a) then Some(k)
    else FirstWith(rs, a, k + 1)
  }

  function Diverted(path: Path, rs: seq<Report>, p: Probe): Path {
    match path
    case Via(k) =>
      var q := LastOf(rs, p.ifindex);
      if k < |Interfaces(rs)| && Interfaces(rs)[k] == p.ifindex && q.Some? && Contradicts(q.value.probe, p)
      then Adrift(q.value.probe) else path
    case _ => path
  }

  /** Where an accepted update leads; an IPv4 address no interface has changes nothing. */
  function Directed(path: Path, rs: seq<Report>, coa: Ip6, hoa: Ip6): Path {
    if coa.w0 == 0 && coa.w1 == 0 && coa.w2 == 0xffff0000 then
      if coa.w3 == 0 then AtHome
      else
        var k := FirstWith(rs, coa.w3, 0);
        if k.Some? then Via(k.value) else path
    else if coa == hoa then AtHome
    else On6(coa)
  }

  function PathOf(es: seq<Event>, hoa: Ip6): Path
    decreases |es|
  {
    if es == [] then AtHome
    else
      var n := |es| - 1;
      var before := PathOf(es[..n], hoa);
      match es[n]
      case OnProbe(p, _) => if p.hoa == hoa then Diverted(before, Reports(es[..n], hoa), p) else before
      case OnUpdate(u, _, _) =>
        if u.hoa == hoa && Accepted(Heard(es[..n], hoa), u.seqno)
        then Directed(before, Reports(es[..n], hoa), u.coa, hoa) else before
      case OnSweep(now) => if Silent(es[..n], hoa, now) then AtHome else before
  }

  /** The record's side of it. */
  predicate OnPath(m: Mn, path: Path, rs: seq<Report>)
    requires |m.slots| == NIF + 1
  {
    match path
    case AtHome => m.active == 0
    case On6(coa) => m.active < 0 && m.coav6 == coa
    case Via(k) => k < |Interfaces(rs)| && k < NIF - 1 && m.active == k + 1
    case Adrift(p) => m.active == NIF && Says(m.slots[NIF], p)
  }

  predicate InStep(m: Mn, b: Mark, rs: seq<Report>, path: Path) {
    && |m.slots| == NIF + 1 && m.lastBuSeq == b.seqno && m.lastBuTime == b.at
    && InSlots(m.slots, rs) && Mapped(m.nifMap, Interfaces(rs)) && OnPath(m, path, rs)
  }

  // ---------------------------------------------------------------- step by step

  lemma {:induction false} IndexIs(x: int, nifMap: seq<int>, k: nat)
    requires k <= |nifMap| && (k < |nifMap| ==> nifMap[k] == x) && x !in nifMap[..k]
    ensures NifIndex(x, nifMap) == k
    decreases k
  {
    if k > 0 {
      assert nifMap[..k][0] == nifMap[0];
      assert nifMap[1..][..k - 1] == nifMap[..k][1..];
      IndexIs(x, nifMap[1..], k - 1);
    }
  }

  /** A known interface is found at its number, a new one gets the next. */
  lemma NumberOf(m: Mn, rs: seq<Report>, x: int) returns (k: nat)
    requires Mapped(m.nifMap, Interfaces(rs))
    ensures var ifs := Interfaces(rs); k <= |ifs| && (k < |ifs| ==> ifs[k] == x) && (k == |ifs| ==> x !in ifs)
    ensures NifIndex(x, m.nifMap) == if k < NIF then k else NIF
  {
    var ifs := Interfaces(rs);
    InterfacesApart(rs);
    if x in ifs {
      k :| 0 <= k < |ifs| && ifs[k] == x;
    } else {
      k := |ifs|;
    }
    var i := if k < NIF then k else NIF;
    forall j | 0 <= j < i
      ensures m.nifMap[j] != x
    {
      assert m.nifMap[j] == ifs[j] && ifs[j] in ifs;
    }
    IndexIs(x, m.nifMap, i);
  }

  lemma ProbeSlots(m: Mn, rs: seq<Report>, p: Probe, now: int, k: nat)
    requires |m.slots| == NIF + 1 && InSlots(m.slots, rs) && Mapped(m.nifMap, Interfaces(rs))
    requires var ifs := Interfaces(rs);
      k <= |ifs| && (k < |ifs| ==> ifs[k] == p.ifindex) && (k == |ifs| ==> p.ifindex !in ifs)
    requires NifIndex(p.ifindex, m.nifMap) == if k < NIF then k else NIF
    ensures var m', rs' := ProbeMn(m, p, now), rs + [Report(p, now)];
      InSlots(m'.slots, rs') && Mapped(m'.nifMap, Interfaces(rs'))
  {
    var m', rs', ifs := ProbeMn(m, p, now), rs + [Report(p, now)], Interfaces(rs);
    OneMore(rs, Report(p, now));
    InterfacesApart(rs);
    assert forall j | 0 <= j < NIF && j != k + 1 :: m'.slots[j] == m.slots[j];
    assert k + 1 < NIF ==> m'.slots[k + 1] == Learn(m.slots[k + 1], p, now);
    forall j | 1 <= j <= |Interfaces(rs')| && j < NIF
      ensures SlotSays(m'.slots[j], LastOf(rs', Interfaces(rs')[j - 1]))
    {
      if j != k + 1 {
        assert Interfaces(rs')[j - 1] == ifs[j - 1] != p.ifindex;
      }
    }
  }

  lemma ProbePath(m: Mn, rs: seq<Report>, path: Path, p: Probe, now: int, k: nat)
    requires |m.slots| == NIF + 1 && InSlots(m.slots, rs) && OnPath(m, path, rs)
    requires var ifs := Interfaces(rs);
      k <= |ifs| && (k < |ifs| ==> ifs[k] == p.ifindex) && (k == |ifs| ==> p.ifindex !in ifs)
    requires NifIndex(p.ifindex, m.nifMap) == if k < NIF then k else NIF
    ensures OnPath(ProbeMn(m, p, now), Diverted(path, rs, p), rs + [Report(p, now)])
  {
    OneMore(rs, Report(p, now));
    InterfacesApart(rs);
    match path
    case Via(j) =>
      if j == k {
        assert SlotSays(m.slots[k + 1], LastOf(rs, p.ifindex));
      } else {
        assert Interfaces(rs)[j] != p.ifindex;
      }
    case _ =>
  }

  lemma ProbeInStep(m: Mn, b: Mark, rs: seq<Report>, path: Path, p: Probe, now: int)
    requires InStep(m, b, rs, path)
    ensures InStep(ProbeMn(m, p, now), b, rs + [Report(p, now)], Diverted(path, rs, p))
  {
    var k := NumberOf(m, rs, p.ifindex);
    ProbeSlots(m, rs, p, now, k);
    ProbePath(m, rs, path, p, now, k);
  }

  lemma {:induction false} SlotIsInterface(slots: seq<Slot>, rs: seq<Report>, a: Ip4, k: nat)
    requires |slots| == NIF + 1 && InSlots(slots, rs) && a != INADDR_ANY && k + 1 <= NIF
    ensures SlotOf(slots, a, k + 1) == var r := FirstWith(rs, a, k); if r.Some? then r.value + 1 else NIF
    decreases NIF - k
  {
    var ifs := Interfaces(rs);
    if k + 1 < NIF {
      SlotIsInterface(slots, rs, a, k + 1);
      if k < |ifs| {
        assert SlotSays(slots[k + 1], LastOf(rs, ifs[k]));
      } else {
        assert slots[k + 1].coa == INADDR_ANY;
      }
    }
  }

  lemma SlotFound(slots: seq<Slot>, rs: seq<Report>, a: Ip4)
    requires |slots| == NIF + 1 && InSlots(slots, rs) && a != INADDR_ANY
    ensures SlotOf(slots, a, 0) == var r := FirstWith(rs, a, 0); if r.Some? then r.value + 1 else NIF
  {
    SlotIsInterface(slots, rs, a, 0);
    assert SlotOf(slots, a, 0) == SlotOf(slots, a, 1);
  }

  lemma UpdateInStep(m: Mn, b: Mark, rs: seq<Report>, path: Path, u: Update, now: int, ids: Ids)
    requires InStep(m, b, rs, path)
    ensures var ok := Accepted(b, u.seqno);
      InStep(UpdateMn(m, u, now, ids), if ok then Mark(u.seqno, now) else b, rs,
             if ok then Directed(path, rs, u.coa, m.home.v6) else path)
  {
    if Accepted(b, u.seqno) && IsV4Mapped(u.coa) && u.coa.w3 != INADDR_ANY {
      SlotFound(m.slots, rs, u.coa.w3);
    }
  }

  lemma ExpireInStep(m: Mn, b: Mark, rs: seq<Report>, path: Path)
    requires InStep(m, b, rs, path)
    ensures InStep(ExpireMn(m), Mark(0, b.at), [], AtHome)
  {
  }

  // ------------------------------------------------------------------------ all runs

  predicate Apart6(homes: seq<Home>) {
    forall i, j | 0 <= i < j < |homes| :: homes[i].v6 != homes[j].v6
  }

  /** The records are those of the nodes, in order. */
  ghost predicate Named(w: World, homes: seq<Home>) {
    |w.mns| == |homes| && forall i | 0 <= i < |homes| :: w.mns[i].home == homes[i]
  }

  lemma FindNamed(w: World, homes: seq<Home>, hoa: Ip6, i: nat)
    requires Named(w, homes) && Apart6(homes) && i < |homes|
    ensures Find(w.mns, hoa) == i <==> homes[i].v6 == hoa
  {
    var j := Find(w.mns, hoa);
    assert j < |homes| ==> w.mns[j].home == homes[j];
    assert w.mns[i].home == homes[i];
  }

  lemma {:induction false} SweepRecords(c: Config, w: World, i: nat, now: int)
    requires i <= |w.mns| && Shaped(w)
    ensures var w' := SweepFrom(c, w, i, now);
      forall j | 0 <= j < |w.mns| ::
        w'.mns[j] == if j >= i && Idle(w.mns[j], now) then ExpireMn(w.mns[j]) else w.mns[j]
    decreases |w.mns| - i
  {
    if i < |w.mns| {
      SweepRecords(c, SweepOne(c, w, i, now), i + 1, now);
    }
  }

  /** What an event does to one record. */
  lemma StepRecord(c: Config, w: World, homes: seq<Home>, e: Event, i: nat)
    requires Shaped(w) && Named(w, homes) && Apart6(homes) && i < |homes|
    ensures var m, m' := w.mns[i], StepWorld(c, w, e).mns[i];
      match e
      case OnProbe(p, now) => m' == if p.hoa == homes[i].v6 then ProbeMn(m, p, now) else m
      case OnUpdate(u, now, ids) => m' == if u.hoa == homes[i].v6 then UpdateMn(m, u, now, ids) else m
      case OnSweep(now) => m' == if Idle(m, now) then ExpireMn(m) else m
  {
    match e
    case OnProbe(p, now) => FindNamed(w, homes, p.hoa, i);
    case OnUpdate(u, now, ids) => FindNamed(w, homes, u.hoa, i);
    case OnSweep(now) => SweepRecords(c, w, 0, now);
  }

  lemma StepNamed(c: Config, w: World, homes: seq<Home>, e: Event)
    requires Shaped(w) && Named(w, homes) && Apart6(homes)
    ensures Named(StepWorld(c, w, e), homes)
  {
    forall i | 0 <= i < |homes|
      ensures StepWorld(c, w, e).mns[i].home == homes[i]
    {
      StepRecord(c, w, homes, e, i);
    }
  }

  lemma RunLast(c: Config, w: World, es: seq<Event>)
    requires Shaped(w) && es != []
    ensures Run(c, w, es) == StepWorld(c, Run(c, w, es[..|es| - 1]), es[|es| - 1])
  {
    assert es == es[..|es| - 1] + [es[|es| - 1]];
    RunSnoc(c, w, es[..|es| - 1], es[|es| - 1]);
  }

  lemma {:induction false} RunNamed(c: Config, homes: seq<Home>, es: seq<Event>)
    requires Apart6(homes)
    ensures Named(Run(c, Boot(homes), es), homes)
    decreases |es|
  {
    if es != [] {
      RunNamed(c, homes, es[..|es| - 1]);
      RunLast(c, Boot(homes), es);
      StepNamed(c, Run(c, Boot(homes), es[..|es| - 1]), homes, es[|es| - 1]);
    }
  }

  /** After any run from start-up, whatever goes wrong in it, the record of a node is
      what the events tell: the number and time of the last accepted update, a slot
      for each interface with what its last probe said, and the way traffic goes. */
  lemma {:induction false} RunTold(c: Config, homes: seq<Home>, es: seq<Event>, i: nat)
    requires Apart6(homes) && i < |homes|
    ensures var hoa := homes[i].v6;
      InStep(Run(c, Boot(homes), es).mns[i], Heard(es, hoa), Reports(es, hoa), PathOf(es, hoa))
    decreases |es|
  {
    var hoa := homes[i].v6;
    if es == [] {
      assert Boot(homes).mns[i] == NewMn(homes[i]);
    } else {
      var n := |es| - 1;
      var w := Run(c, Boot(homes), es[..n]);
      var m, b, rs, path := w.mns[i], Heard(es[..n], hoa), Reports(es[..n], hoa), PathOf(es[..n], hoa);
      RunTold(c, homes, es[..n], i);
      RunNamed(c, homes, es[..n]);
      RunLast(c, Boot(homes), es);
      StepRecord(c, w, homes, es[n], i);
      match es[n]
      case OnProbe(p, now) => ProbeInStep(m, b, rs, path, p, now);
      case OnUpdate(u, now, ids) => UpdateInStep(m, b, rs, path, u, now, ids);
      case OnSweep(now) => ExpireInStep(m, b, rs, path);
    }
  }

  /** No sweep of these drops the node. */
  predicate Kept(es: seq<Event>, more: seq<Event>, hoa: Ip6) {
    forall k | 0 <= k < |more| && more[k].OnSweep? :: !Silent(es + more[..k], hoa, more[k].now)
  }

  /** As long as the node is not dropped its interfaces keep their numbers, so the
      slots of two interfaces are never the same and an interface's never changes. */
  lemma {:induction false} SlotsKept(es: seq<Event>, more: seq<Event>, hoa: Ip6)
    requires Kept(es, more, hoa)
    ensures Interfaces(Reports(es, hoa)) <= Interfaces(Reports(es + more, hoa))
    ensures NoRepeats(Interfaces(Reports(es + more, hoa)))
    decreases |more|
  {
    InterfacesApart(Reports(es + more, hoa));
    if more == [] {
      assert es + more == es;
    } else {
      var n := |more| - 1;
      var before := es + more[..n];
      assert forall k | 0 <= k < n :: more[..n][..k] == more[..k];
      SlotsKept(es, more[..n], hoa);
      assert es + more == before + [more[n]] && (before + [more[n]])[..|before|] == before;
      match more[n]
      case OnProbe(p, now) => InterfaceStays(Reports(before, hoa), [Report(p, now)]);
      case _ =>
    }
  }
}
