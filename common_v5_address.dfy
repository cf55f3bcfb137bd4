/** The SOCKS5 address of section 5 of RFC 1928 (src/common/v5/address_type.rs):
    a tag byte (1 IPv4, 3 domain name, 4 IPv6) and its payload. The tag and the
    name length are read with nom's `complete` `be_u8`; the name bytes with
    `length_data`, which asks for more input when they are short. */
module CommonV5Address {
  import opened Wire
  import opened Net

  datatype AddressType = IPv4(ip4: Ipv4Addr) | DomainName(name: Utf8String) | IPv6(ip6: Ipv6Addr)

  /** `encode_into` panics (`expect`) on a name longer than 255 bytes. */
  predicate Encodable(a: AddressType) {
    a.DomainName? ==> |a.name| <= 0xFF
  }

  function Tag(a: AddressType): uint8 {
    match a
    case IPv4(_) => 1
    case DomainName(_) => 3
    case IPv6(_) => 4
  }

  /** The bytes `encode_into` appends. */
  function AddressEncoding(a: AddressType): (r: seq<uint8>)
    requires Encodable(a)
    ensures |r| >= 2 && r[0] == Tag(a)
    ensures a.IPv4? ==> |r| == 5 && r[1..] == a.ip4
    ensures a.IPv6? ==> |r| == 17 && r[1..] == a.ip6
    ensures a.DomainName? ==> |r| == 2 + |a.name| && r[1] == |a.name| && r[2..] == a.name
  {
    match a
    case IPv4(ip4) => [1] + ip4
    case IPv6(ip6) => [4] + ip6
    case DomainName(name) => [3, |name|] + name
  }

  method EncodeAddressInto(a: AddressType, buffer: Buffer)
    requires Encodable(a)
    modifies buffer
    ensures buffer.bytes == old(buffer.bytes) + AddressEncoding(a)
  {
    match a
    case IPv4(ip4) =>
      buffer.Push(1);
      EncodeIpv4Into(ip4, buffer);
      AppendAssoc(old(buffer.bytes), [1], ip4);
    case IPv6(ip6) =>
      buffer.Push(4);
      EncodeIpv6Into(ip6, buffer);
      AppendAssoc(old(buffer.bytes), [4], ip6);
    case DomainName(name) =>
      buffer.Push(3);
      buffer.Push(|name|);
      assert buffer.bytes == old(buffer.bytes) + [3, |name|];
      buffer.Extend(name);
      AppendAssoc(old(buffer.bytes), [3, |name|], name);
  }

  const InvalidAddressType := Failure(ParseError(NoneOf, Some("Invalid address type")))

  /** `map_opt(length_data(be_u8), from_utf8)`: a length byte, that many
      bytes, and an `Error` when they are not UTF-8. */
  function DecodeDomainName(s: seq<uint8>): (r: Parsed<AddressType>)
    ensures |s| == 0 ==> r == Reject(Eof)
    ensures |s| >= 1 && |s| < 1 + s[0] as int ==> r == Incomplete
    ensures r.Done? <==> |s| >= 1 && |s| >= 1 + s[0] as int && ValidUtf8(s[1..1 + s[0] as int])
    ensures r.Done? ==> r.value == DomainName(s[1..1 + s[0] as int]) && r.rest == s[1 + s[0] as int..]
  {
    var p :- Byte(Complete, s);
    var (rest, len) := p;
    if |rest| < len then Incomplete
    else
      assert rest[..len] == s[1..1 + len as int] && rest[len..] == s[1 + len as int..];
      if ValidUtf8(rest[..len]) then Done(rest[len..], DomainName(rest[..len]))
      else Reject(MapOpt)
  }

  /** `AddressType::decode`: dispatches on the tag byte. */
  function DecodeAddress(s: seq<uint8>): (r: Parsed<AddressType>)
    ensures |s| == 0 ==> r == Reject(Eof)
    ensures |s| >= 1 && s[0] != 1 && s[0] != 3 && s[0] != 4 ==> r == InvalidAddressType
    ensures r.Done? ==> |s| >= 1 && s[0] == Tag(r.value) && Encodable(r.value)
    ensures r.Done? ==> s == AddressEncoding(r.value) + r.rest
    ensures r.Failure? ==> r == InvalidAddressType
  {
    var p :- Byte(Complete, s);
    var (rest, tag) := p;
    if tag == 1 then
      var q :- DecodeIpv4(rest);
      assert rest == q.1 + q.0;
      Done(q.0, IPv4(q.1))
    else if tag == 3 then
      DecodeDomainName(rest)
    else if tag == 4 then
      var q :- DecodeIpv6(rest);
      assert rest == q.1 + q.0;
      Done(q.0, IPv6(q.1))
    else InvalidAddressType
  }

  /** Decoding what `encode_into` wrote gives back the address and leaves
      whatever followed it. */
  lemma {:induction false} AddressRoundTrip(a: AddressType, rest: seq<uint8>)
    requires Encodable(a)
    ensures DecodeAddress(AddressEncoding(a) + rest) == Done(rest, a)
  {
    var s := AddressEncoding(a) + rest;
    match a
    case IPv4(ip4) =>
      AppendAssoc([1], ip4, rest);
      assert s[1..] == ip4 + rest;
      Ipv4RoundTrip(ip4, rest);
    case IPv6(ip6) =>
      AppendAssoc([4], ip6, rest);
      assert s[1..] == ip6 + rest;
      Ipv6RoundTrip(ip6, rest);
    case DomainName(name) =>
      assert [3, |name|] == [3] + [|name|];
      AppendAssoc([3], [|name|], name);
      AppendAssoc([3], [|name|] + name, rest);
      AppendAssoc([|name|], name, rest);
      var t := [|name|] + (name + rest);
      assert s == [3] + t;
      DecodeDomainNameTag(t);
      NameRoundTrip(name, rest);
  }

  lemma NameRoundTrip(name: Utf8String, rest: seq<uint8>)
    requires |name| <= 0xFF
    ensures DecodeDomainName([|name|] + (name + rest)) == Done(rest, DomainName(name))
  {
    var t := [|name|] + (name + rest);
    assert t[1..] == name + rest;
    assert t[1..][..|name|] == name;
    assert t[1..][|name|..] == rest;
  }

  /** A name whose bytes are not UTF-8 is a recoverable `Error`, not a `Failure`. */
  lemma DomainNameNotUtf8(bytes: seq<uint8>, rest: seq<uint8>)
    requires |bytes| <= 0xFF && !ValidUtf8(bytes)
    ensures DecodeAddress([3, |bytes|] + bytes + rest) == Reject(MapOpt)
  {
    var t := [|bytes|] + (bytes + rest);
    NameNotUtf8(bytes, rest);
    DecodeDomainNameTag(t);
    assert [3, |bytes|] == [3] + [|bytes|];
    AppendAssoc([3], [|bytes|], bytes);
    AppendAssoc([3], [|bytes|] + bytes, rest);
    AppendAssoc([|bytes|], bytes, rest);
  }

  lemma NameNotUtf8(bytes: seq<uint8>, rest: seq<uint8>)
    requires |bytes| <= 0xFF && !ValidUtf8(bytes)
    ensures DecodeDomainName([|bytes|] + (bytes + rest)) == Reject(MapOpt)
  {
    var t := [|bytes|] + (bytes + rest);
    assert t[1..] == bytes + rest;
    assert t[1..][..|bytes|] == bytes;
  }

  lemma DecodeDomainNameTag(t: seq<uint8>)
    ensures DecodeAddress([3] + t) == DecodeDomainName(t)
  {
    assert ([3] + t)[1..] == t;
  }

  /** A cut-off encoding: a missing tag or name-length byte is an `Error`
      (`complete` `be_u8`); a cut-off address payload asks for more input. */
  lemma {:induction false} TruncatedAddress(a: AddressType, k: nat)
    requires Encodable(a) && k < |AddressEncoding(a)|
    ensures k == 0 || (a.DomainName? && k == 1) ==> DecodeAddress(AddressEncoding(a)[..k]) == Reject(Eof)
    ensures k > 0 && !(a.DomainName? && k == 1) ==> DecodeAddress(AddressEncoding(a)[..k]) == Incomplete
  {
    var s := AddressEncoding(a)[..k];
    if k > 0 {
      assert s[0] == Tag(a);
      if a.DomainName? && k > 1 {
        assert s[1..][0] == |a.name|;
      }
    }
  }

  /** `From<IpAddr>` */
  function FromIpAddr(ip: IpAddr): (a: AddressType)
    ensures !a.DomainName? && Encodable(a)
    ensures ip.V4? ==> a == IPv4(ip.ip4)
    ensures ip.V6? ==> a == IPv6(ip.ip6)
  {
    match ip
    case V4(ip4) => IPv4(ip4)
    case V6(ip6) => IPv6(ip6)
  }
}
