/** The `std::net` address values the codec carries, and the octet codec of
    `Ipv4Addr` and `Ipv6Addr` (4 and 16 octets in network order, read with
    nom's streaming `take`). */
module Net {
  import opened Wire

  type Ipv4Addr = a: seq<uint8> | |a| == 4 witness [0, 0, 0, 0]
  type Ipv6Addr = a: seq<uint8> | |a| == 16 witness [0, 0, 0, 0, 0, 0, 0, 0, 0, 0, 0, 0, 0, 0, 0, 0]

  /** `Ipv4Addr::new(0, 0, 0, 0)` */
  const Unspecified: Ipv4Addr := [0, 0, 0, 0]

  datatype IpAddr = V4(ip4: Ipv4Addr) | V6(ip6: Ipv6Addr)

  datatype SocketAddr = SocketV4(ip4: Ipv4Addr, port: uint16) | SocketV6(ip6: Ipv6Addr, port: uint16)
  {
    /** `SocketAddr::ip` */
    function Ip(): IpAddr {
      match this
      case SocketV4(a, _) => V4(a)
      case SocketV6(a, _) => V6(a)
    }
  }

  /** `Ipv4Addr::encode_into`: the octets, in order. */
  method EncodeIpv4Into(ip: Ipv4Addr, buffer: Buffer)
    modifies buffer
    ensures buffer.bytes == old(buffer.bytes) + ip
  {
    buffer.Extend(ip);
  }

  /** `Ipv4Addr::decode` */
  function DecodeIpv4(s: seq<uint8>): (r: Parsed<Ipv4Addr>)
    ensures |s| < 4 <==> r == Incomplete
    ensures |s| >= 4 ==> r == Done(s[4..], s[..4])
  {
    var p :- Take(Streaming, 4, s);
    Done(p.0, p.1)
  }

  /** `Ipv6Addr::encode_into`: the octets, in order. */
  method EncodeIpv6Into(ip: Ipv6Addr, buffer: Buffer)
    modifies buffer
    ensures buffer.bytes == old(buffer.bytes) + ip
  {
    buffer.Extend(ip);
  }

  /** `Ipv6Addr::decode` */
  function DecodeIpv6(s: seq<uint8>): (r: Parsed<Ipv6Addr>)
    ensures |s| < 16 <==> r == Incomplete
    ensures |s| >= 16 ==> r == Done(s[16..], s[..16])
  {
    var p :- Take(Streaming, 16, s);
    Done(p.0, p.1)
  }

  lemma Ipv4RoundTrip(ip: Ipv4Addr, rest: seq<uint8>)
    ensures DecodeIpv4(ip + rest) == Done(rest, ip)
  {
    assert (ip + rest)[..4] == ip;
    assert (ip + rest)[4..] == rest;
  }

  lemma Ipv6RoundTrip(ip: Ipv6Addr, rest: seq<uint8>)
    ensures DecodeIpv6(ip + rest) == Done(rest, ip)
  {
    assert (ip + rest)[..16] == ip;
    assert (ip + rest)[16..] == rest;
  }
}
