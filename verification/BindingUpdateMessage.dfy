/** The binding update as the mobile node writes it and the home agent reads it
    (sections 6.1.7 and 6.2.5 of RFC 6275). */
module BindingUpdateMessage {
  import opened Addresses
  import opened MobilityOptions
  import opened MobilityRoundTrip
  import opened MobilityRules

  const IPPROTO_NONE: byte := 59
  const MH_TYPE_BU: byte := 5
  const BU_SIZE := 12

  // htons(IP6_MH_BU_ACK | IP6_MH_BU_HOME) with the little-endian constants
  const BU_FLAGS := 0x00c0
  const BU_LIFETIME := 10000 / 4

  /** A 16-bit field in network byte order; the value is cut to 16 bits. */
  function Net16(v: int): (r: Bytes)
    ensures |r| == 2
  {
    [v / 0x100 % 0x100, v % 0x100]
  }

  function Host16(hi: byte, lo: byte): nat {
    hi * 0x100 + lo
  }

  /** The bytes of a word as they lie in memory. */
  function WordBytes(w: u32): (r: Bytes)
    ensures |r| == 4
  {
    [w % 0x100, w / 0x100 % 0x100, w / 0x1_0000 % 0x100, w / 0x100_0000]
  }

  function WordOf(b0: byte, b1: byte, b2: byte, b3: byte): u32 {
    b0 + b1 * 0x100 + b2 * 0x1_0000 + b3 * 0x100_0000
  }

  function AddrBytes(a: Ip6): (r: Bytes)
    ensures |r| == 16
  {
    WordBytes(a.w0) + WordBytes(a.w1) + WordBytes(a.w2) + WordBytes(a.w3)
  }

  function AddrOf(b: Bytes): Ip6
    requires |b| == 16
  {
    Ip6(WordOf(b[0], b[1], b[2], b[3]), WordOf(b[4], b[5], b[6], b[7]),
        WordOf(b[8], b[9], b[10], b[11]), WordOf(b[12], b[13], b[14], b[15]))
  }

  lemma WordRoundTrip(w: u32)
    ensures var b := WordBytes(w); WordOf(b[0], b[1], b[2], b[3]) == w
  {
    Quotients(w);
  }

  lemma Quotients(w: nat)
    ensures w / 0x1_0000 == w / 0x100 / 0x100 && w / 0x100_0000 == w / 0x100 / 0x100 / 0x100
  {
  }

  lemma AddrRoundTrip(a: Ip6)
    ensures AddrOf(AddrBytes(a)) == a
  {
    WordRoundTrip(a.w0);
    WordRoundTrip(a.w1);
    WordRoundTrip(a.w2);
    WordRoundTrip(a.w3);
  }

  lemma Net16RoundTrip(v: int)
    ensures var b := Net16(v); Host16(b[0], b[1]) == v % 0x1_0000
  {
  }

  /** struct ip6_mh_binding_update, header length 3 */
  function Header(seqno: int): (r: Piece)
    ensures |r| == BU_SIZE
  {
    [IPPROTO_NONE, 3, MH_TYPE_BU, 0, 0, 0] + Net16(seqno) + Net16(BU_FLAGS) + Net16(BU_LIFETIME)
  }

  /** struct ip6_mh_opt_altcoa */
  function AltCoa(coa: Ip6): (r: Piece)
    ensures WellFormed(r) && r[0] == ALTCOA
  {
    [ALTCOA, 16] + AddrBytes(coa)
  }

  /** sendbu: a header, a hand-written padding of two bytes, and the option. */
  method SendBu(coa: Ip6, seqno: int) returns (msg: Bytes)
    ensures msg == Message(Header(seqno), [AltCoa(coa)])
    ensures |msg| == 32 && msg[1] as int == |msg| / 8 - 1
  {
    var pad2 := [PADN, 0];
    msg := Header(seqno) + pad2 + AltCoa(coa);
    PrinterAgrees(coa, seqno);
  }

  /** The second printer writes what mh_try_pad would write. */
  lemma PrinterAgrees(coa: Ip6, seqno: int)
    ensures Message(Header(seqno), [AltCoa(coa)]) == Header(seqno) + [PADN, 0] + AltCoa(coa)
    ensures Offsets(BU_SIZE, [AltCoa(coa)]) == [14]
  {
    var hdr, opts := Header(seqno), [AltCoa(coa)];
    MessageLayout(hdr, opts, [ALTCOA]);
    assert PadAt(12, opts, 0) == 2;
    assert Fill(12, opts, 1) == 32;
    assert EndPad(12, opts) == 0;
    LayoutUnfold(opts, Pads(12, opts), 0, 0, []);
    assert PadBytes(2) == [PADN, 0];
  }

  datatype Received = Received(seqno: nat, coa: Ip6)

  /** What recvbu makes of a message; None where it rejects the message, and
      where it would follow a missing or cut-off option. */
  function Receive(msg: Bytes, beyond: set<nat>): Option<Received> {
    if |msg| < BU_SIZE || msg[2] != MH_TYPE_BU then None
    else
      var p := ParseFrom(msg, BU_SIZE, false, NoOptions(), beyond);
      if p.Bad? then None
      else
        var at := p.opts[ALTCOA];
        if at == 0 || at + 18 > |msg| then None
        else Some(Received(Host16(msg[6], msg[7]), AddrOf(msg[at + 2..at + 18])))
  }

  /** recvbu, after the message has arrived. */
  method RecvBu(msg: Bytes, beyond: set<nat>) returns (r: Option<Received>)
    ensures r == Receive(msg, beyond)
  {
    if |msg| < BU_SIZE || msg[2] != MH_TYPE_BU {
      return None;
    }
    var seqno := Host16(msg[6], msg[7]);
    var opts, ends := new nat[MHOPT_MAX + 1], new nat[MHOPT_MAX + 1];
    var status := MhOptParse(msg, BU_SIZE, opts, ends, beyond);
    if status < 0 {
      return None;
    }
    var at := opts[ALTCOA];
    assert at == opts[..][ALTCOA];
    if at == 0 || at + 18 > |msg| {
      return None;
    }
    return Some(Received(seqno, AddrOf(msg[at + 2..at + 18])));
  }

  /** The home agent reads the sequence number, modulo 65536, and the care-of
      address the mobile node wrote; a mapped IPv4 address comes out again. */
  lemma UpdateRoundTrip(coa: Ip6, seqno: int, beyond: set<nat>)
    ensures var msg := Message(Header(seqno), [AltCoa(coa)]);
      Receive(msg, beyond) == Some(Received(seqno % 0x1_0000, coa))
    ensures forall a: Ip4 :: coa == MapAddr(a) ==>
      UnmapAddr(Receive(Message(Header(seqno), [AltCoa(coa)]), beyond).value.coa) == Some(a)
  {
    var hdr, opts := Header(seqno), [AltCoa(coa)];
    var msg := Message(hdr, opts);
    PrinterAgrees(coa, seqno);
    PadThenParse(hdr, opts, [ALTCOA], beyond);
    var p := ParseFrom(msg, BU_SIZE, false, NoOptions(), beyond);
    var types: seq<Type> := [ALTCOA];
    assert Acceptable(types, beyond);
    assert types[0] !in types[..0];
    assert p.opts[types[0]] == Offsets(BU_SIZE, opts)[0] == 14;
    assert msg[16..32] == AddrBytes(coa);
    AddrRoundTrip(coa);
    Net16RoundTrip(seqno);
    assert msg[6] == Net16(seqno)[0] && msg[7] == Net16(seqno)[1];
  }

  /** The bytes of the update on the wire: no next header, four units of 8 bytes, type
      5, checksum left open, the number high byte first, the flags, a lifetime of 2500
      units of 4 seconds, and from byte 14 on the alternate care-of address option. */
  lemma UpdateBytes(coa: Ip6, seqno: int)
    ensures var msg := Message(Header(seqno), [AltCoa(coa)]);
      && |msg| == 32 && msg[..6] == [59, 3, 5, 0, 0, 0]
      && (msg[6] as int) * 256 + msg[7] as int == seqno % 0x1_0000
      && msg[8..12] == [0x00, 0xc0, 0x09, 0xc4] && msg[12..16] == [1, 0, 3, 16]
  {
    PrinterAgrees(coa, seqno);
    Net16RoundTrip(seqno);
  }

  /** In a mapped address, ten bytes of zeros and two of ones come first. */
  lemma MappedBytes(a: Ip4)
    ensures AddrBytes(MapAddr(a))[..12] == [0, 0, 0, 0, 0, 0, 0, 0, 0, 0, 0xff, 0xff]
  {
  }

  lemma SliceOf(b: Bytes, at: nat, o: Bytes)
    requires at + |o| <= |b| && b[at..at + |o|] == o && |o| == 18
    ensures b[at + 2..at + 18] == o[2..18]
  {
    assert b[at + 2..at + 18] == b[at..at + |o|][2..18];
  }

  lemma FirstRecorded(hdr: Piece, opts: seq<Piece>, types: seq<Type>, beyond: set<nat>, j: nat)
    requires Typed(opts, types) && Acceptable(types, beyond) && j < |types| && types[j] !in types[..j]
    ensures var p := ParseFrom(Message(hdr, opts), |hdr|, false, NoOptions(), beyond);
      p.Parsed? && p.opts[types[j]] == Offsets(|hdr|, opts)[j]
  {
    PadThenParse(hdr, opts, types, beyond);
  }

  lemma FirstAltCoa(hdr: Piece, opts: seq<Piece>, types: seq<Type>, beyond: set<nat>, j: nat)
    requires |hdr| == 12 && Typed(opts, types) && Acceptable(types, beyond)
    requires j < |types| && types[j] == 3 && 3 !in types[..j]
    ensures var p := ParseFrom(Message(hdr, opts), 12, false, NoOptions(), beyond);
      && p.Parsed? && p.opts[3] > 0 && p.opts[3] + 18 <= |Message(hdr, opts)|
      && Message(hdr, opts)[p.opts[3] + 2..p.opts[3] + 18] == opts[j][2..18]
  {
    var at := Offsets(|hdr|, opts)[j];
    AllInPlace(hdr, opts, types);
    assert LiesRight(Message(hdr, opts), opts[j], types[j], at);
    FirstRecorded(hdr, opts, types, beyond, j);
    SliceOf(Message(hdr, opts), at, opts[j]);
  }

  lemma ReceivesAltCoa(hdr: Piece, opts: seq<Piece>, types: seq<Type>, beyond: set<nat>, j: nat)
    requires |hdr| == 12 && hdr[2] == 5 && hdr <= Message(hdr, opts) && Typed(opts, types) && Acceptable(types, beyond)
    requires j < |types| && types[j] == 3 && 3 !in types[..j]
    ensures |opts[j]| == 18
    ensures Receive(Message(hdr, opts), beyond) == Some(Received(Host16(hdr[6], hdr[7]), AddrOf(opts[j][2..18])))
  {
    FirstAltCoa(hdr, opts, types, beyond, j);
    assert WellFormed(opts[j]);
  }

  lemma ReceivesNothing(hdr: Piece, opts: seq<Piece>, types: seq<Type>, beyond: set<nat>)
    requires |hdr| == 12 && hdr <= Message(hdr, opts) && Typed(opts, types)
    requires !(hdr[2] == 5 && Acceptable(types, beyond) && 3 in types)
    ensures Receive(Message(hdr, opts), beyond) == None
  {
    PadThenParse(hdr, opts, types, beyond);
  }

  /** What the home agent reads from any message of well-formed options behind a
      header of 12 bytes: something just if it is a binding update, parses, and has an
      alternate care-of address; then the number from bytes 6 and 7, and the address
      in the first such option. */
  lemma ReceivesJust(hdr: Piece, opts: seq<Piece>, types: seq<Type>, beyond: set<nat>)
    requires |hdr| == 12 && Typed(opts, types)
    ensures var r := Receive(Message(hdr, opts), beyond);
      if hdr[2] == 5 && Acceptable(types, beyond) && 3 in types then
        && r.Some? && r.value.seqno == (hdr[6] as int) * 256 + hdr[7] as int
        && exists j | 0 <= j < |types| && |opts[j]| == 18 ::
             types[j] == 3 && 3 !in types[..j] && r.value.coa == AddrOf(opts[j][2..18])
      else r == None
  {
    PaddedMessage(hdr, opts, types);
    if hdr[2] == 5 && Acceptable(types, beyond) && 3 in types {
      var j := FirstOf(types, 3);
      ReceivesAltCoa(hdr, opts, types, beyond, j);
    } else {
      ReceivesNothing(hdr, opts, types, beyond);
    }
  }
}
