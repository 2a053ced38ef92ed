/** Bytes, and IPv4 and IPv6 addresses as words in network byte order on a
    little-endian host (so htonl(0xffff) is the word 0xffff0000). */
module Addresses {

  type byte = b: int | 0 <= b < 0x100
  type u32 = w: int | 0 <= w < 0x1_0000_0000

  datatype Option<+T> = None | Some(value: T)

  // struct in_addr: the word s_addr
  type Ip4 = u32

  // struct in6_addr: the words s6_addr32[0..4]
  datatype Ip6 = Ip6(w0: u32, w1: u32, w2: u32, w3: u32)

  const INADDR_ANY: Ip4 := 0
  const IN6ADDR_ANY: Ip6 := Ip6(0, 0, 0, 0)

  predicate IsV4Mapped(a: Ip6) {
    a.w0 == 0 && a.w1 == 0 && a.w2 == 0xffff0000
  }

  /** ipv6_map_addr */
  function MapAddr(a: Ip4): (r: Ip6)
    ensures IsV4Mapped(r)
  {
    Ip6(0, 0, 0xffff0000, a)
  }

  /** ipv6_unmap_addr: nothing unless the address is v4-mapped */
  function UnmapAddr(a: Ip6): Option<Ip4> {
    if IsV4Mapped(a) then Some(a.w3) else None
  }

  /** Mapping and unmapping are inverse, and only v4-mapped addresses unmap. */
  lemma MapUnmap(a: Ip4, b: Ip6)
    ensures UnmapAddr(MapAddr(a)) == Some(a)
    ensures UnmapAddr(b).Some? <==> exists v :: b == MapAddr(v)
    ensures UnmapAddr(b).Some? ==> MapAddr(UnmapAddr(b).value) == b
  {
    if UnmapAddr(b).Some? {
      assert b == MapAddr(b.w3);
    }
  }

  /** The number of one bits of a word. */
  function Ones(k: bv32): (n: nat)
    decreases k
  {
    if k == 0 then 0 else (if k & 1 == 1 then 1 else 0) + Ones(k >> 1)
  }

  /** ip_special: the address differs from the configured one in at most 3 bits. */
  method IpSpecial(ip: Ip4, special: Ip4) returns (r: bool)
    ensures r == IsSpecial(ip, special)
  {
    var k := (ip as bv32) ^ (special as bv32);
    var c := 0;
    while k != 0
      invariant c + Ones(k) == Ones((ip as bv32) ^ (special as bv32))
      decreases k
    {
      if k & 1 == 1 {
        c := c + 1;
      }
      k := k >> 1;
    }
    return c <= 3;
  }

  predicate IsSpecial(ip: Ip4, special: Ip4) {
    Ones((ip as bv32) ^ (special as bv32)) <= 3
  }
}
