/** The home agent's record of a mobile node, and the kernel requests that each
    event makes it issue, in order. */
module HomeAgentPlans {
  import opened Addresses
  import opened HomeAgentKernel

  const NIF := 30
  const MAX_MN_NUM := 10
  const EXPIRY := 60
  const SEQ_WINDOW := 10

  datatype Config = Config(hav4: Ip4, hav42: Ip4, special: Ip4, hav6: Ip6)

  // entry i of coav4[], in_nat[], natv4[], nat_port[] and last_natv4_t[]
  datatype Slot = Slot(coa: Ip4, inNat: bool, peer: Ip4, port: int, lastProbe: int)

  // struct _mn; nifMap is NIF_MAP[0..nnif]
  datatype Mn = Mn(home: Home, active: int, slots: seq<Slot>, nifMap: seq<int>, coav6: Ip6,
                   tnl44: int, tnl66: int, tnl64: int, lastBuTime: int, lastBuSeq: int)

  // struct NATINFO and the translated source it arrived from
  datatype Probe = Probe(hoa: Ip6, coa: Ip4, ifindex: int, port: int, natIp: Ip4, natPort: int)

  // what recvbu delivers, with the interface it arrived on
  datatype Update = Update(hoa: Ip6, coa: Ip6, seqno: int, link: int)

  // ifindexes the kernel hands out for the tunnels an update needs
  datatype Ids = Ids(t44: int, t64: int, t66: int)

  /** The local address UDP encapsulation uses towards a NAT. */
  function EncapSource(c: Config, peer: Ip4): Ip4 {
    if IsSpecial(peer, c.special) then c.hav42 else c.hav4
  }

  function SlotEncap(c: Config, s: Slot): Encap {
    Encap(EncapSource(c, s.peer), s.peer, s.port)
  }

  predicate NatedActive(m: Mn)
    requires m.active < |m.slots|
  {
    m.active > 0 && m.slots[m.active].inNat
  }

  // ------------------------------------------------------------ building blocks

  function TmpUp(h: Home, n4: int, n6: int): seq<Op> {
    [RouteAdd(h.To4(Tmp), n4), RouteAdd(h.To6(Tmp), n6), RuleAdd(D4(h.v4)), RuleAdd(D6(h.v6))]
  }

  function TmpDown(h: Home, n4: int, n6: int): seq<Op> {
    [RuleDel(D6(h.v6)), RuleDel(D4(h.v4)), RouteDel(h.To4(Tmp), n4), RouteDel(h.To6(Tmp), n6)]
  }

  function MainUp(h: Home, n4: int, n6: int): seq<Op> {
    [RouteAdd(h.To4(Main), n4), RouteAdd(h.To6(Main), n6)]
  }

  /** Giving up the tunnels of the old care-of address during a move. */
  function Release(m: Mn): seq<Op> {
    if m.active < 0 then
      [RouteDel(m.home.To4(Main), m.tnl66), RouteDel(m.home.To6(Main), m.tnl66), TunnelDel(m.tnl66)]
    else if m.active > 0 then
      [TunnelDel(m.tnl44), TunnelDel(m.tnl64)]
    else
      []
  }

  function EncapOff(c: Config, m: Mn): seq<Op>
    requires m.active < |m.slots|
  {
    if NatedActive(m)
    then [EncapStop(m.home, EncapSource(c, m.slots[m.active].peer), m.slots[m.active].peer)]
    else []
  }

  function EncapOn(c: Config, m: Mn, icoa: int): seq<Op>
    requires 0 <= icoa < |m.slots|
  {
    if m.slots[icoa].inNat then [EncapStart(m.home, SlotEncap(c, m.slots[icoa]))] else []
  }

  /** A move to a foreign care-of address: first the new tunnels, then the routes
      in table 251 (if a route exists at all), then the old tunnels go, then the
      routes in table 252, then the rest is tidied up. */
  function Move(c: Config, m: Mn, adds: seq<Op>, n4: int, n6: int, tidy: bool, on: seq<Op>): seq<Op>
    requires m.active < |m.slots|
  {
    adds
    + (if m.active != 0 then TmpUp(m.home, n4, n6) + Release(m) else [])
    + MainUp(m.home, n4, n6)
    + EncapOff(c, m)
    + (if tidy then TmpDown(m.home, n4, n6) else [])
    + on
  }

  function Tunnels4(c: Config, coa: Ip4, link: int, ids: Ids): seq<Op> {
    [TunnelAdd(ids.t64, Tunnel(T64, MapAddr(c.hav4), MapAddr(coa), link)),
     TunnelAdd(ids.t44, Tunnel(T44, MapAddr(c.hav4), MapAddr(coa), link))]
  }

  function Tunnels6(c: Config, coa: Ip6, link: int, ids: Ids): seq<Op> {
    [TunnelAdd(ids.t66, Tunnel(T66, c.hav6, coa, link))]
  }

  function MoveTo4(c: Config, m: Mn, icoa: int, link: int, ids: Ids): seq<Op>
    requires m.active < |m.slots| && 0 <= icoa < |m.slots|
  {
    Move(c, m, Tunnels4(c, m.slots[icoa].coa, link, ids), ids.t44, ids.t64, m.active != 0, EncapOn(c, m, icoa))
  }

  /** A move away from a NATed IPv4 address skips the removal of the temporary
      entries. */
  function MoveTo6(c: Config, m: Mn, coa: Ip6, link: int, ids: Ids): seq<Op>
    requires m.active < |m.slots|
  {
    Move(c, m, Tunnels6(c, coa, link, ids), ids.t66, ids.t66, m.active != 0 && !NatedActive(m), [])
  }

  function GoHome(c: Config, m: Mn): seq<Op>
    requires m.active < |m.slots|
  {
    if m.active < 0 then
      Release(m)
    else if m.active > 0 then
      EncapOff(c, m)
      + [RouteDel(m.home.To4(Main), m.tnl44), RouteDel(m.home.To6(Main), m.tnl64),
         TunnelDel(m.tnl44), TunnelDel(m.tnl64)]
    else
      []
  }

  /** mn_state_cleanup */
  function Expire(c: Config, m: Mn): seq<Op>
    requires m.active < |m.slots|
  {
    EncapOff(c, m)
    + (if m.active > 0 && m.tnl44 != 0 then [RouteDel(m.home.To4(Main), m.tnl44), TunnelDel(m.tnl44)] else [])
    + (if m.active > 0 && m.tnl64 != 0 then [RouteDel(m.home.To6(Main), m.tnl64), TunnelDel(m.tnl64)] else [])
    + (if m.active < 0 && m.tnl66 != 0 then Release(m) + [TunnelDel(m.tnl66)] else [])
  }

  // ------------------------------------------------------------ the record's side

  /** nif_map: the index an interface is known by, or the next free one. */
  function NifIndex(ifindex: int, nifMap: seq<int>): (i: nat)
    ensures i <= |nifMap|
    ensures i < |nifMap| ==> nifMap[i] == ifindex
    ensures ifindex !in nifMap[..i]
  {
    if nifMap == [] || nifMap[0] == ifindex then 0 else 1 + NifIndex(ifindex, nifMap[1..])
  }

  /** The first slot below NIF that holds the care-of address, or NIF. */
  function SlotOf(slots: seq<Slot>, coa: Ip4, from: nat): (i: nat)
    requires from <= NIF < |slots|
    ensures from <= i <= NIF
    ensures i < NIF ==> slots[i].coa == coa
    ensures forall j | from <= j < i :: slots[j].coa != coa
    decreases NIF - from
  {
    if from == NIF || slots[from].coa == coa then from else SlotOf(slots, coa, from + 1)
  }

  predicate Nated(p: Probe) {
    p.coa != p.natIp || p.port != p.natPort
  }

  /** The probe contradicts what is installed for the slot it is about. */
  predicate Displaces(s: Slot, p: Probe) {
    s.coa != p.coa || (s.inNat && (s.peer != p.natIp || s.port != p.natPort))
  }

  function Learn(s: Slot, p: Probe, now: int): Slot {
    if Nated(p) then Slot(p.coa, true, p.natIp, p.natPort, now)
    else s.(coa := p.coa, inNat := false, lastProbe := now)
  }

  /** The slot a probe is about (one more than the interface's index). */
  function ProbeSlot(m: Mn, p: Probe): nat {
    NifIndex(p.ifindex, m.nifMap) + 1
  }

  function ProbeMn(m: Mn, p: Probe, now: int): Mn
    requires |m.slots| == NIF + 1
  {
    var i := ProbeSlot(m, p) - 1;
    var m1 := if i < NIF && i == |m.nifMap| then m.(nifMap := m.nifMap + [p.ifindex]) else m;
    if i + 1 >= NIF then m1
    else
      var m2 :=
        if m.active == i + 1 && Displaces(m.slots[i + 1], p)
        then m1.(slots := m.slots[NIF := m.slots[i + 1].(lastProbe := m.slots[NIF].lastProbe)], active := NIF)
        else m1;
      m2.(slots := m2.slots[i + 1 := Learn(m.slots[i + 1], p, now)])
  }

  predicate Ignored(m: Mn, u: Update) {
    m.lastBuSeq > u.seqno && m.lastBuSeq - u.seqno < SEQ_WINDOW
  }

  datatype Action = Stay | Bind4(icoa: nat) | Bind6 | Return

  /** What a binding update asks for. */
  function Decide(m: Mn, u: Update): Action
    requires |m.slots| == NIF + 1
  {
    if Ignored(m, u) then Stay
    else if IsV4Mapped(u.coa) then
      var i := SlotOf(m.slots, u.coa.w3, 0);
      if i == NIF || m.active == i then Stay else Bind4(i)
    else if u.coa == m.home.v6 then Return
    else if m.active < 0 && m.coav6 == u.coa then Stay
    else Bind6
  }

  function UpdateOps(c: Config, m: Mn, u: Update, ids: Ids): seq<Op>
    requires |m.slots| == NIF + 1 && m.active <= NIF
  {
    match Decide(m, u)
    case Stay => []
    case Bind4(i) => MoveTo4(c, m, i, u.link, ids)
    case Bind6 => MoveTo6(c, m, u.coa, u.link, ids)
    case Return => GoHome(c, m)
  }

  function UpdateMn(m: Mn, u: Update, now: int, ids: Ids): (r: Mn)
    requires |m.slots| == NIF + 1
    ensures |r.slots| == NIF + 1 && (m.active <= NIF ==> r.active <= NIF)
  {
    if Ignored(m, u) then m
    else
      var m1 := m.(lastBuSeq := u.seqno, lastBuTime := now);
      match Decide(m, u)
      case Stay => m1
      case Bind4(i) =>
        m1.(active := i, tnl66 := if m.active < 0 then 0 else m.tnl66, tnl64 := ids.t64, tnl44 := ids.t44)
      case Bind6 => m1.(active := -1, coav6 := u.coa, tnl66 := ids.t66,
                      tnl64 := if m.active > 0 then 0 else m.tnl64, tnl44 := if m.active > 0 then 0 else m.tnl44)
      case Return => m1.(active := 0, tnl66 := if m.active < 0 then 0 else m.tnl66,
                       tnl64 := if m.active > 0 then 0 else m.tnl64, tnl44 := if m.active > 0 then 0 else m.tnl44)
  }

  function ClearCoas(slots: seq<Slot>): (r: seq<Slot>)
    requires |slots| == NIF + 1
    ensures |r| == NIF + 1
    ensures r[NIF] == slots[NIF]
    ensures forall i | 0 <= i < NIF :: r[i] == slots[i].(coa := INADDR_ANY)
  {
    seq(NIF + 1, i requires 0 <= i <= NIF => if i < NIF then slots[i].(coa := INADDR_ANY) else slots[i])
  }

  function ExpireMn(m: Mn): Mn
    requires |m.slots| == NIF + 1
  {
    m.(active := 0, nifMap := [], lastBuSeq := 0, slots := ClearCoas(m.slots),
       tnl44 := if m.active > 0 then 0 else m.tnl44,
       tnl64 := if m.active > 0 then 0 else m.tnl64,
       tnl66 := if m.active < 0 then 0 else m.tnl66)
  }
}
