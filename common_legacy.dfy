/** The older enumerations of src/common.rs: a `Version` with SOCKS5 only, and
    copies of `AuthenticationMethod` and `Command`. Unlike src/common/v5.rs,
    every decoder here uses nom's `streaming` `be_u8`, so empty input asks for
    more bytes instead of failing. */
module CommonLegacy {
  import opened Wire

  datatype Version = Socks5

  /** The `repr(u8)` discriminant. */
  function VersionByte(v: Version): uint8 {
    5
  }

  /** `Version::encode_into` */
  method EncodeVersionInto(v: Version, buffer: Buffer)
    modifies buffer
    ensures buffer.bytes == old(buffer.bytes) + [VersionByte(v)]
  {
    buffer.Push(VersionByte(v));
  }

  /** `Version::decode`: `verify(be_u8, == 5)`. */
  function DecodeVersion(s: seq<uint8>): (r: Parsed<Version>)
    ensures r.Done? <==> |s| >= 1 && s[0] == 5
    ensures r.Done? ==> r.rest == s[1..]
    ensures |s| == 0 <==> r == Incomplete
    ensures |s| >= 1 && s[0] != 5 ==> r == Reject(Verify)
  {
    var p :- Byte(Streaming, s);
    if p.1 == 5 then Done(p.0, Socks5) else Reject(Verify)
  }

  lemma VersionRoundTrip(v: Version, rest: seq<uint8>)
    ensures DecodeVersion([VersionByte(v)] + rest) == Done(rest, v)
  {
    assert ([VersionByte(v)] + rest)[1..] == rest;
  }

  datatype AuthenticationMethod =
    | None
    | Gssapi
    | UsernamePassword
    | IanaAssigned(code: uint8)
    | PrivateMethod(code: uint8)
    | NotAcceptable

  /** `From<u8>` */
  function MethodFromByte(b: uint8): (m: AuthenticationMethod)
    ensures m == AuthenticationMethod.None <==> b == 0
    ensures m == Gssapi <==> b == 1
    ensures m == UsernamePassword <==> b == 2
    ensures m.IanaAssigned? <==> 3 <= b <= 0x7F
    ensures m.PrivateMethod? <==> 0x80 <= b <= 0xFE
    ensures m == NotAcceptable <==> b == 0xFF
    ensures MethodByte(m) == b
  {
    if b == 0 then AuthenticationMethod.None
    else if b == 1 then Gssapi
    else if b == 2 then UsernamePassword
    else if b <= 0x7F then IanaAssigned(b)
    else if b <= 0xFE then PrivateMethod(b)
    else NotAcceptable
  }

  /** `as_u8` */
  function MethodByte(m: AuthenticationMethod): uint8 {
    match m
    case None => 0
    case Gssapi => 1
    case UsernamePassword => 2
    case IanaAssigned(v) => v
    case PrivateMethod(v) => v
    case NotAcceptable => 0xFF
  }

  /** `AuthenticationMethod::encode_into` */
  method EncodeMethodInto(m: AuthenticationMethod, buffer: Buffer)
    modifies buffer
    ensures buffer.bytes == old(buffer.bytes) + [MethodByte(m)]
  {
    buffer.Push(MethodByte(m));
  }

  /** `AuthenticationMethod::decode`: every byte is a method; empty input is
      `Incomplete`. */
  function DecodeMethod(s: seq<uint8>): (r: Parsed<AuthenticationMethod>)
    ensures r.Done? <==> |s| >= 1
    ensures r.Done? ==> r.rest == s[1..] && MethodByte(r.value) == s[0] && r.value == MethodFromByte(s[0])
    ensures |s| == 0 ==> r == Incomplete
  {
    var p :- Byte(Streaming, s);
    Done(p.0, MethodFromByte(p.1))
  }

  datatype Command = Connect | Bind | UdpAssociate

  /** The `repr(u8)` discriminant (`c as u8`). */
  function CommandByte(c: Command): uint8 {
    match c
    case Connect => 1
    case Bind => 2
    case UdpAssociate => 3
  }

  /** `Command::from_u8`: the inverse of the discriminant. */
  function CommandFromU8(b: uint8): (r: Option<Command>)
    ensures r.Some? <==> 1 <= b <= 3
    ensures r.Some? ==> CommandByte(r.value) == b
  {
    if b == 1 then Some(Connect)
    else if b == 2 then Some(Bind)
    else if b == 3 then Some(UdpAssociate)
    else Option.None
  }

  lemma CommandFromU8RoundTrip(c: Command)
    ensures CommandFromU8(CommandByte(c)) == Some(c)
  {
  }

  /** `Command::encode_into` */
  method EncodeCommandInto(c: Command, buffer: Buffer)
    modifies buffer
    ensures buffer.bytes == old(buffer.bytes) + [CommandByte(c)]
  {
    buffer.Push(CommandByte(c));
  }

  /** `Command::decode`: `map_opt(be_u8, from_u8)`, so a byte outside 1..=3
      is a recoverable `Error`. */
  function DecodeCommand(s: seq<uint8>): (r: Parsed<Command>)
    ensures r.Done? <==> |s| >= 1 && 1 <= s[0] <= 3
    ensures r.Done? ==> r.rest == s[1..] && CommandByte(r.value) == s[0]
    ensures |s| == 0 <==> r == Incomplete
    ensures |s| >= 1 && !(1 <= s[0] <= 3) ==> r == Reject(MapOpt)
  {
    var p :- Byte(Streaming, s);
    match CommandFromU8(p.1)
    case Some(c) => Done(p.0, c)
    case None => Reject(MapOpt)
  }

  lemma CommandRoundTrip(c: Command, rest: seq<uint8>)
    ensures DecodeCommand([CommandByte(c)] + rest) == Done(rest, c)
  {
    assert ([CommandByte(c)] + rest)[1..] == rest;
  }
}
