/** SOCKS5 enumerations (src/common/v5.rs): the authentication methods of
    section 3 of RFC 1928 and the request commands of its section 4. Both
    decoders use nom's `complete` `be_u8`. */
module CommonV5 {
  import opened Wire

  datatype AuthenticationMethod =
    | None
    | Gssapi
    | UsernamePassword
    | IanaAssigned(code: uint8)
    | PrivateMethod(code: uint8)
    | NotAcceptable

  /** `From<u8>`: total, and every byte lands in exactly one class. */
  function MethodFromByte(b: uint8): (m: AuthenticationMethod)
    ensures m == AuthenticationMethod.None <==> b == 0
    ensures m == Gssapi <==> b == 1
    ensures m == UsernamePassword <==> b == 2
    ensures m.IanaAssigned? <==> 3 <= b <= 0x7F
    ensures m.PrivateMethod? <==> 0x80 <= b <= 0xFE
    ensures m == NotAcceptable <==> b == 0xFF
    ensures MethodByte(m) == b
  {
    if b == 0 then AuthenticationMethod.None
    else if b == 1 then Gssapi
    else if b == 2 then UsernamePassword
    else if b <= 0x7F then IanaAssigned(b)
    else if b <= 0xFE then PrivateMethod(b)
    else NotAcceptable
  }

  /** `as_u8` */
  function MethodByte(m: AuthenticationMethod): uint8 {
    match m
    case None => 0
    case Gssapi => 1
    case UsernamePassword => 2
    case IanaAssigned(v) => v
    case PrivateMethod(v) => v
    case NotAcceptable => 0xFF
  }

  /** A method value `From<u8>` can produce: an `IanaAssigned` or
      `PrivateMethod` whose payload lies in its own range. */
  predicate Canonical(m: AuthenticationMethod) {
    && (m.IanaAssigned? ==> 3 <= m.code <= 0x7F)
    && (m.PrivateMethod? ==> 0x80 <= m.code <= 0xFE)
  }

  /** Converting to a byte and back is the identity exactly on canonical values. */
  lemma MethodByteRoundTrip(m: AuthenticationMethod)
    ensures MethodFromByte(MethodByte(m)) == m <==> Canonical(m)
  {
  }

  /** `IanaAssigned(0)` is written as byte 0 and read back as `None`. */
  lemma NonCanonicalMethodExample()
    ensures MethodFromByte(MethodByte(IanaAssigned(0))) == AuthenticationMethod.None
  {
  }

  /** `AuthenticationMethod::encode_into` */
  method EncodeMethodInto(m: AuthenticationMethod, buffer: Buffer)
    modifies buffer
    ensures buffer.bytes == old(buffer.bytes) + [MethodByte(m)]
  {
    buffer.Push(MethodByte(m));
  }

  /** `AuthenticationMethod::decode`: never rejects a byte value. */
  function DecodeMethod(s: seq<uint8>): (r: Parsed<AuthenticationMethod>)
    ensures r.Done? <==> |s| >= 1
    ensures r.Done? ==> r.rest == s[1..] && MethodByte(r.value) == s[0] && Canonical(r.value)
    ensures |s| == 0 ==> r == Reject(Eof)
  {
    var p :- Byte(Complete, s);
    Done(p.0, MethodFromByte(p.1))
  }

  datatype Command = Connect | Bind | UdpAssociate

  /** The `repr(u8)` discriminant. */
  function CommandByte(c: Command): uint8 {
    match c
    case Connect => 1
    case Bind => 2
    case UdpAssociate => 3
  }

  /** `Command::encode_into` */
  method EncodeCommandInto(c: Command, buffer: Buffer)
    modifies buffer
    ensures buffer.bytes == old(buffer.bytes) + [CommandByte(c)]
  {
    buffer.Push(CommandByte(c));
  }

  /** `Command::decode`: bytes 1, 2 and 3 only; any other byte is a
      `Failure`, empty input an `Error`. */
  function DecodeCommand(s: seq<uint8>): (r: Parsed<Command>)
    ensures r.Done? <==> |s| >= 1 && 1 <= s[0] <= 3
    ensures r.Done? ==> r.rest == s[1..] && CommandByte(r.value) == s[0]
    ensures r.Failure? <==> |s| >= 1 && !(1 <= s[0] <= 3)
    ensures |s| == 0 ==> r == Reject(Eof)
  {
    var p :- Byte(Complete, s);
    var (rest, b) := p;
    if b == 1 then Done(rest, Connect)
    else if b == 2 then Done(rest, Bind)
    else if b == 3 then Done(rest, UdpAssociate)
    else Failure(ParseError(NoneOf, Option.None))
  }

  lemma CommandRoundTrip(c: Command, rest: seq<uint8>)
    ensures DecodeCommand([CommandByte(c)] + rest) == Done(rest, c)
  {
    assert ([CommandByte(c)] + rest)[1..] == rest;
  }
}
