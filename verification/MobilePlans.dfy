/** The mobile node's record of its binding, and the kernel requests do_handoff
    makes, in order. */
module MobilePlans {
  import opened Addresses
  import opened MobileKernel

  const NIF := 3

  // current_coa_type: 0, 1, 2 and 255
  datatype CoaType = AtHome | V4Nat | V4Plain | V6

  datatype Config = Config(hoav6: Ip6, hoav4: Ip4, hav6: Ip6, hav4: Ip4)

  // struct _iface
  datatype Iface = Iface(ifindex: int, coav6: Ip6, coav4: Ip4)

  // a binding update that was sent
  datatype Sent = Sent(coa: Ip6, seqno: int)

  /** The globals of mn.c that make up the binding. */
  datatype Mobile = Mobile(coaType: CoaType, coav6: Ip6, coav4: Ip4, t44: int, t64: int, t66: int,
                           current: int, preferred: int, ifaces: seq<Iface>,
                           buSeq: int, sent: seq<Sent>, consecutive: bool)

  // the arguments of do_handoff; type 1 asks for UDP encapsulation, type 2 does not
  datatype Target = To6(coa6: Ip6) | To4(coa4: Ip4, nat1: bool)

  // what the pool answers: the tunnels, and those it gave up for them
  datatype Picks = Picks(t66: int, gone66: set<int>, t64: int, gone64: set<int>, t44: int, gone44: set<int>)

  predicate OnV4(m: Mobile) {
    m.coaType == V4Nat || m.coaType == V4Plain
  }

  datatype Action = Refuse | Stay | GoHome | Bind6 | Bind4

  /** The first interface with the index, or NIF. */
  function FindIface(ifaces: seq<Iface>, ifindex: int): (i: nat)
    ensures i <= |ifaces|
    ensures i < |ifaces| ==> ifaces[i].ifindex == ifindex
    ensures forall j | 0 <= j < i :: ifaces[j].ifindex != ifindex
  {
    if ifaces == [] || ifaces[0].ifindex == ifindex then 0 else 1 + FindIface(ifaces[1..], ifindex)
  }

  function Decide(c: Config, m: Mobile, t: Target, ifindex: int): Action {
    if FindIface(m.ifaces, ifindex) == |m.ifaces| then Refuse
    else if ifindex != m.preferred then Stay
    else match t
      case To6(coa) =>
        if (m.coaType == V6 || m.coaType == AtHome) && m.coav6 == coa then Stay
        else if coa == c.hoav6 then GoHome else Bind6
      case To4(coa, _) =>
        if OnV4(m) && m.coav4 == coa then Stay
        else if coa == c.hoav4 then Refuse else Bind4
  }

  // ------------------------------------------------------------ building blocks

  /** A tunnel from the pool, which may have to give one up for it. */
  function FromPool(gone: set<int>, id: int): seq<Op> {
    [TunnelsDown(gone), TunnelUp(id)]
  }

  function TmpUp(n4: int, n6: int): seq<Op> {
    [RouteAdd(Tmp, F4, n4), RouteAdd(Tmp, F6, n6)]
  }

  function RulesUp(): seq<Op> {
    [RuleAdd(F4), RuleAdd(F6)]
  }

  function MainUp(n4: int, n6: int): seq<Op> {
    [RouteAdd(Main, F4, n4), RouteAdd(Main, F6, n6)]
  }

  function TmpDown(n4: int, n6: int): seq<Op> {
    [RouteDel(Tmp, F4, n4, false), RouteDel(Tmp, F6, n6, false), RuleDel(F4), RuleDel(F6)]
  }

  function DstDown(): seq<Op> {
    [DstPolicyDel, DstStateDel]
  }

  /** Giving up the main routes and, on IPv6, the home address option. */
  function Release(m: Mobile): seq<Op> {
    if m.coaType == V6 then [RouteDel(Main, F4, m.t66, false), RouteDel(Main, F6, m.t66, false)] + DstDown()
    else if OnV4(m) then [RouteDel(Main, F4, m.t44, false), RouteDel(Main, F6, m.t64, false)]
    else []
  }

  function EncapOff(m: Mobile): seq<Op> {
    if m.coaType == V4Nat then [EncapStop(m.coav4)] else []
  }

  /** To a foreign IPv6 care-of address. */
  function MoveTo6(m: Mobile, coa: Ip6, p: Picks): seq<Op> {
    FromPool(p.gone66, p.t66)
    + TmpUp(p.t66, p.t66) + RulesUp()
    + EncapOff(m) + Release(m)
    + MainUp(p.t66, p.t66)
    + [DstPolicyAdd, DstStateAdd(coa)]
    + TmpDown(p.t66, p.t66)
  }

  /** Encapsulation is exchanged only for a type 1 address. */
  function EncapSwap(m: Mobile, coa: Ip4, nat1: bool): seq<Op> {
    if nat1 then EncapOff(m) + [EncapStart(coa)] else []
  }

  /** To a foreign IPv4 care-of address. */
  function MoveTo4(m: Mobile, coa: Ip4, nat1: bool, p: Picks): seq<Op> {
    FromPool(p.gone64, p.t64) + FromPool(p.gone44, p.t44)
    + TmpUp(p.t44, p.t64)
    + EncapSwap(m, coa, nat1)
    + RulesUp()
    + Release(m)
    + MainUp(p.t44, p.t64)
    + TmpDown(p.t44, p.t64)
  }

  /** Home. From an IPv4 address the routes are deleted under a source key they
      were not added with. */
  function Return(m: Mobile): seq<Op> {
    if m.coaType == V6 then Release(m)
    else if OnV4(m) then EncapOff(m) + [RouteDel(Main, F4, m.t44, true), RouteDel(Main, F6, m.t64, true)]
    else []
  }

  /** mn_cleanup; `pooled` is what the tunnel pool holds. */
  function Cleanup(m: Mobile, pooled: set<int>): seq<Op> {
    (if m.t66 != 0 then [RouteDel(Main, F4, m.t66, false), RouteDel(Main, F6, m.t66, false)] + DstDown() else [])
    + (if m.t64 != 0 then [RouteDel(Main, F6, m.t64, false)] else [])
    + (if m.t44 != 0 then [RouteDel(Main, F4, m.t44, false)] else [])
    + [TunnelsDown(pooled)]
    + EncapOff(m)
  }

  // ------------------------------------------------------------ the record's side

  /** n binding updates for the address, numbered on from the counter. */
  function Announce(m: Mobile, coa: Ip6, n: nat): Mobile
    decreases n
  {
    if n == 0 then m
    else Announce(m.(sent := m.sent + [Sent(coa, m.buSeq)], buSeq := m.buSeq + 1), coa, n - 1)
  }

  function Burst(m: Mobile): nat {
    if m.consecutive then 10 else 1
  }

  /** The address the interface was given. */
  function NoteIface(m: Mobile, t: Target, ifindex: int): Mobile {
    var i := FindIface(m.ifaces, ifindex);
    if i == |m.ifaces| then m
    else match t
      case To6(coa) => m.(ifaces := m.ifaces[i := m.ifaces[i].(coav6 := coa)])
      case To4(coa, nat1) => if nat1 then m.(ifaces := m.ifaces[i := m.ifaces[i].(coav4 := coa)]) else m
  }

  /** Coming from IPv4, a first update goes out on the old path. */
  function EarlyUpdate(m: Mobile, t: Target): Mobile {
    if t.To6? && OnV4(m) then Announce(m, t.coa6, 1) else m
  }

  /** The address a handoff registers. */
  function Registers(t: Target): Ip6 {
    match t
    case To6(coa) => coa
    case To4(coa, _) => MapAddr(coa)
  }

  /** The binding a move ends with, updates aside. */
  function NewBinding(c: Config, m: Mobile, a: Action, t: Target, p: Picks): Mobile
    requires (a.Bind6? ==> t.To6?) && (a.Bind4? ==> t.To4?)
  {
    var off := m.(t66 := if m.coaType == V6 then 0 else m.t66,
                  t64 := if OnV4(m) then 0 else m.t64, t44 := if OnV4(m) then 0 else m.t44);
    match a
    case GoHome => off.(coaType := AtHome, coav6 := c.hoav6, coav4 := c.hoav4)
    case Bind6 => off.(coaType := V6, coav6 := t.coa6, t66 := p.t66)
    case Bind4 => off.(coaType := if t.nat1 then V4Nat else V4Plain, coav4 := t.coa4, t44 := p.t44, t64 := p.t64)
    case _ => m
  }

  predicate IsMove(a: Action) {
    a.GoHome? || a.Bind6? || a.Bind4?
  }

  /** The record as a move begins. */
  function Begun(m: Mobile, t: Target, ifindex: int): Mobile {
    EarlyUpdate(NoteIface(m, t, ifindex).(current := ifindex), t)
  }

  /** ... and once its kernel requests are made, before its updates. */
  function Moved(c: Config, m: Mobile, t: Target, ifindex: int, p: Picks): Mobile {
    NewBinding(c, Begun(m, t, ifindex), Decide(c, m, t, ifindex), t, p)
  }

  function After(c: Config, m: Mobile, t: Target, ifindex: int, p: Picks): Mobile {
    var m1 := NoteIface(m, t, ifindex);
    match Decide(c, m, t, ifindex)
    case Refuse =>
      if ifindex == m.preferred && FindIface(m.ifaces, ifindex) < |m.ifaces| then m1.(current := ifindex) else m1
    case Stay => if ifindex == m.preferred then m1.(consecutive := false) else m1
    case _ => Announce(Moved(c, m, t, ifindex, p), Registers(t), Burst(m)).(consecutive := false)
  }

  function Requests(c: Config, m: Mobile, t: Target, ifindex: int, p: Picks): seq<Op> {
    match Decide(c, m, t, ifindex)
    case Refuse => []
    case Stay => []
    case GoHome => Return(m)
    case Bind6 => MoveTo6(m, t.coa6, p)
    case Bind4 => MoveTo4(m, t.coa4, t.nat1, p)
  }
}
