/** The older address codec of src/common/address_type.rs. Same wire layout as
    the SOCKS5 one, but every field is read with nom's `streaming` parsers:
    any cut-off encoding asks for more input rather than failing. */
module CommonLegacyAddress {
  import opened Wire
  import opened Net

  datatype AddressType = IPv4(ip4: Ipv4Addr) | DomainName(name: Utf8String) | IPv6(ip6: Ipv6Addr)

  /** `encode_hostname` panics (`expect`) on a name longer than 255 bytes. */
  predicate Encodable(a: AddressType) {
    a.DomainName? ==> |a.name| <= 0xFF
  }

  /** `encode_hostname`: a length byte, then the name. */
  method EncodeHostname(buffer: Buffer, name: Utf8String)
    requires |name| <= 0xFF
    modifies buffer
    ensures buffer.bytes == old(buffer.bytes) + [|name|] + name
  {
    buffer.Push(|name|);
    buffer.Extend(name);
  }

  /** `decode_hostname`: a length byte, exactly that many bytes, and an `Error`
      when they are not UTF-8. */
  function DecodeHostname(s: seq<uint8>): (r: Parsed<Utf8String>)
    ensures r.Done? <==> |s| >= 1 && |s| >= 1 + s[0] as int && ValidUtf8(s[1..1 + s[0] as int])
    ensures r.Done? ==> r.value == s[1..1 + s[0] as int] && r.rest == s[1 + s[0] as int..]
    ensures |s| == 0 || |s| < 1 + s[0] as int <==> r == Incomplete
    ensures |s| >= 1 && |s| >= 1 + s[0] as int && !ValidUtf8(s[1..1 + s[0] as int]) ==> r == Reject(MapOpt)
  {
    var p :- Byte(Streaming, s);
    var (rest, len) := p;
    var q :- Take(Streaming, len, rest);
    assert q.1 == s[1..1 + len];
    if ValidUtf8(q.1) then Done(q.0, q.1) else Reject(MapOpt)
  }

  /** `encode_ipv4`: pushes the octets one at a time. */
  method EncodeIpv4(ip: Ipv4Addr, buffer: Buffer)
    modifies buffer
    ensures buffer.bytes == old(buffer.bytes) + ip
  {
    for i := 0 to 4
      invariant buffer.bytes == old(buffer.bytes) + ip[..i]
    {
      buffer.Push(ip[i]);
      assert ip[..i + 1] == ip[..i] + [ip[i]];
    }
  }

  /** `decode_ipv4`: exactly four bytes, the same streaming `take` as
      `Ipv4Addr::decode`. */
  function DecodeIpv4(s: seq<uint8>): (r: Parsed<Ipv4Addr>)
    ensures |s| < 4 <==> r == Incomplete
    ensures |s| >= 4 ==> r == Done(s[4..], s[..4])
  {
    Net.DecodeIpv4(s)
  }

  /** `encode_ipv6`: pushes the octets one at a time. */
  method EncodeIpv6(ip: Ipv6Addr, buffer: Buffer)
    modifies buffer
    ensures buffer.bytes == old(buffer.bytes) + ip
  {
    for i := 0 to 16
      invariant buffer.bytes == old(buffer.bytes) + ip[..i]
    {
      buffer.Push(ip[i]);
      assert ip[..i + 1] == ip[..i] + [ip[i]];
    }
  }

  /** `decode_ipv6`: exactly sixteen bytes, the same streaming `take` as
      `Ipv6Addr::decode`. */
  function DecodeIpv6(s: seq<uint8>): (r: Parsed<Ipv6Addr>)
    ensures |s| < 16 <==> r == Incomplete
    ensures |s| >= 16 ==> r == Done(s[16..], s[..16])
  {
    Net.DecodeIpv6(s)
  }

  /** The bytes `encode_into` appends. */
  function AddressEncoding(a: AddressType): (r: seq<uint8>)
    requires Encodable(a)
    ensures a.IPv4? ==> |r| == 5 && r[0] == 1 && r[1..] == a.ip4
    ensures a.IPv6? ==> |r| == 17 && r[0] == 4 && r[1..] == a.ip6
    ensures a.DomainName? ==> |r| == 2 + |a.name| && r[0] == 3 && r[1] == |a.name| && r[2..] == a.name
  {
    match a
    case IPv4(ip4) => [1] + ip4
    case IPv6(ip6) => [4] + ip6
    case DomainName(name) => [3, |name|] + name
  }

  method EncodeAddressInto(a: AddressType, buffer: Buffer)
    requires Encodable(a)
    modifies buffer
    ensures buffer.bytes == old(buffer.bytes) + AddressEncoding(a)
  {
    match a
    case IPv4(ip4) =>
      buffer.Push(1);
      EncodeIpv4(ip4, buffer);
      AppendAssoc(old(buffer.bytes), [1], ip4);
    case IPv6(ip6) =>
      buffer.Push(4);
      EncodeIpv6(ip6, buffer);
      AppendAssoc(old(buffer.bytes), [4], ip6);
    case DomainName(name) =>
      buffer.Push(3);
      EncodeHostname(buffer, name);
      AppendAssoc(old(buffer.bytes), [3], [|name|]);
      assert [3] + [|name|] == [3, |name|];
      AppendAssoc(old(buffer.bytes), [3, |name|], name);
  }

  const InvalidAddressType := Failure(ParseError(NoneOf, Some("Invalid address type")))

  /** `AddressType::decode`: dispatches on the tag byte. */
  function DecodeAddress(s: seq<uint8>): (r: Parsed<AddressType>)
    ensures |s| == 0 ==> r == Incomplete
    ensures |s| >= 1 && s[0] != 1 && s[0] != 3 && s[0] != 4 ==> r == InvalidAddressType
    ensures r.Done? ==> Encodable(r.value) && s == AddressEncoding(r.value) + r.rest
    ensures r.Failure? ==> r == InvalidAddressType
  {
    var p :- Byte(Streaming, s);
    var (rest, tag) := p;
    if tag == 1 then
      var q :- DecodeIpv4(rest);
      assert rest == q.1 + q.0;
      Done(q.0, IPv4(q.1))
    else if tag == 3 then
      var q :- DecodeHostname(rest);
      assert rest == [|q.1|] + q.1 + q.0;
      Done(q.0, DomainName(q.1))
    else if tag == 4 then
      var q :- DecodeIpv6(rest);
      assert rest == q.1 + q.0;
      Done(q.0, IPv6(q.1))
    else InvalidAddressType
  }

  lemma {:induction false} AddressRoundTrip(a: AddressType, rest: seq<uint8>)
    requires Encodable(a)
    ensures DecodeAddress(AddressEncoding(a) + rest) == Done(rest, a)
  {
    var s := AddressEncoding(a) + rest;
    match a
    case IPv4(ip4) =>
      AppendAssoc([1], ip4, rest);
      assert s[1..] == ip4 + rest;
      assert (ip4 + rest)[..4] == ip4;
    case IPv6(ip6) =>
      AppendAssoc([4], ip6, rest);
      assert s[1..] == ip6 + rest;
      assert (ip6 + rest)[..16] == ip6;
    case DomainName(name) =>
      assert [3, |name|] == [3] + [|name|];
      AppendAssoc([3], [|name|], name);
      AppendAssoc([3], [|name|] + name, rest);
      AppendAssoc([|name|], name, rest);
      var t := s[1..];
      assert t == [|name|] + (name + rest);
      assert t[1..1 + |name|] == name;
      assert t[1 + |name|..] == rest;
  }

  /** Every strict prefix of an encoding (the empty one included) asks for
      more input. */
  lemma {:induction false} TruncatedAddress(a: AddressType, k: nat)
    requires Encodable(a) && k < |AddressEncoding(a)|
    ensures DecodeAddress(AddressEncoding(a)[..k]) == Incomplete
  {
    var s := AddressEncoding(a)[..k];
    if k > 0 {
      assert s[0] == AddressEncoding(a)[0];
      if a.DomainName? && k > 1 {
        assert s[1..][0] == |a.name|;
      }
    }
  }
}
