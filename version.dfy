/** The protocol version byte that opens a SOCKS4 request and every SOCKS5
    message, as src/request.rs, src/response.rs, src/server.rs and
    src/client.rs use it: 4 or 5. It reads the byte with nom's `streaming`
    `be_u8` and rejects any other value through `verify`, as the SOCKS5-only
    decoder of src/common.rs does. */
module Versions {
  import opened Wire

  datatype Version = Socks4 | Socks5

  /** The `repr(u8)` discriminant. */
  function VersionByte(v: Version): (b: uint8)
    ensures b == 4 <==> v == Socks4
    ensures b == 5 <==> v == Socks5
  {
    match v
    case Socks4 => 4
    case Socks5 => 5
  }

  /** `Version::encode_into` */
  method EncodeVersionInto(v: Version, buffer: Buffer)
    modifies buffer
    ensures buffer.bytes == old(buffer.bytes) + [VersionByte(v)]
  {
    buffer.Push(VersionByte(v));
  }

  /** `Version::decode` */
  function DecodeVersion(s: seq<uint8>): (r: Parsed<Version>)
    ensures r.Done? <==> |s| >= 1 && (s[0] == 4 || s[0] == 5)
    ensures r.Done? ==> r.rest == s[1..] && VersionByte(r.value) == s[0]
    ensures |s| == 0 <==> r == Incomplete
    ensures |s| >= 1 && s[0] != 4 && s[0] != 5 ==> r == Reject(Verify)
  {
    var p :- Byte(Streaming, s);
    var (rest, b) := p;
    if b == 4 then Done(rest, Socks4)
    else if b == 5 then Done(rest, Socks5)
    else Reject(Verify)
  }

  /** `verify(Version::decode, |&v| v == expected)` */
  function Expect(expected: Version, s: seq<uint8>): (r: Parsed<Version>)
    ensures r.Done? <==> |s| >= 1 && s[0] == VersionByte(expected)
    ensures r.Done? ==> r.rest == s[1..] && r.value == expected
    ensures |s| == 0 <==> r == Incomplete
    ensures |s| >= 1 && s[0] != VersionByte(expected) ==> r == Reject(Verify)
  {
    var p :- DecodeVersion(s);
    if p.1 == expected then Done(p.0, p.1) else Reject(Verify)
  }
}
