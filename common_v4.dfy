/** SOCKS4 enumerations and addresses (src/common/v4.rs). SOCKS4 has no IPv6:
    its address is an IPv4 address or, in the 4A extension, a domain name. */
module CommonV4 {
  import opened Wire
  import opened Net
  import CommonV5Address

  datatype Command = Connect | Bind

  /** The `repr(u8)` discriminant. */
  function CommandByte(c: Command): uint8 {
    match c
    case Connect => 1
    case Bind => 2
  }

  /** `Command::encode_into` */
  method EncodeCommandInto(c: Command, buffer: Buffer)
    modifies buffer
    ensures buffer.bytes == old(buffer.bytes) + [CommandByte(c)]
  {
    buffer.Push(CommandByte(c));
  }

  /** `Command::decode`: bytes 1 and 2 only; 3 (the SOCKS5 UDP ASSOCIATE) and
      every other byte is a `Failure`, empty input an `Error`. */
  function DecodeCommand(s: seq<uint8>): (r: Parsed<Command>)
    ensures r.Done? <==> |s| >= 1 && 1 <= s[0] <= 2
    ensures r.Done? ==> r.rest == s[1..] && CommandByte(r.value) == s[0]
    ensures r.Failure? <==> |s| >= 1 && !(1 <= s[0] <= 2)
    ensures |s| == 0 ==> r == Reject(Eof)
  {
    var p :- Byte(Complete, s);
    var (rest, b) := p;
    if b == 1 then Done(rest, Connect)
    else if b == 2 then Done(rest, Bind)
    else Failure(ParseError(NoneOf, None))
  }

  lemma CommandRoundTrip(c: Command, rest: seq<uint8>)
    ensures DecodeCommand([CommandByte(c)] + rest) == Done(rest, c)
  {
    assert ([CommandByte(c)] + rest)[1..] == rest;
  }

  datatype AddressType = IPv4(ip4: Ipv4Addr) | DomainName(name: Utf8String)

  /** `TryFrom<v5::AddressType>`: IPv4 and names carry over, IPv6 is refused
      as `Unsupported`. */
  function TryFromV5(a: CommonV5Address.AddressType): (r: Result<AddressType, IoErrorKind>)
    ensures r.Ok? <==> !a.IPv6?
    ensures r.Ok? ==> ToV5(r.value) == a
    ensures r.Err? ==> r.error == Unsupported
  {
    match a
    case IPv4(ip4) => Ok(IPv4(ip4))
    case DomainName(n) => Ok(DomainName(n))
    case IPv6(_) => Err(Unsupported)
  }

  /** The same address in the SOCKS5 shape, which loses nothing. */
  function ToV5(a: AddressType): (r: CommonV5Address.AddressType)
    ensures !r.IPv6?
  {
    match a
    case IPv4(ip4) => CommonV5Address.IPv4(ip4)
    case DomainName(n) => CommonV5Address.DomainName(n)
  }

  /** Every SOCKS4 address survives the trip through the SOCKS5 shape. */
  lemma TryFromToV5(a: AddressType)
    ensures TryFromV5(ToV5(a)) == Ok(a)
  {
  }
}
