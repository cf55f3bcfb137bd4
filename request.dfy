/** The SOCKS4/4A CONNECT request (src/request.rs, `mod v4`): version 4, a
    command, a big-endian port, an IPv4 address and a NUL-terminated user id;
    in the 4A form the address is 0.0.0.1 and a NUL-terminated domain name
    follows. Every field is read with nom's `complete` parsers. */
module RequestV4 {
  import opened Wire
  import opened Net
  import opened Versions
  import opened CommonV4

  datatype Request = Request(command: Command, addr: AddressType, port: uint16, secret: Option<Utf8String>)

  /** The bytes `encode_string` appends: the string, then a NUL. */
  function StringEncoding(s: Option<seq<uint8>>): (r: seq<uint8>)
    ensures |r| >= 1 && r[|r| - 1] == 0
    ensures s.Some? ==> r == s.value + [0]
    ensures s.None? ==> r == [0]
  {
    (if s.Some? then s.value else []) + [0]
  }

  /** `encode_string` */
  method EncodeString(s: Option<seq<uint8>>, buffer: Buffer)
    modifies buffer
    ensures buffer.bytes == old(buffer.bytes) + StringEncoding(s)
  {
    if s.Some? {
      buffer.Extend(s.value);
    }
    buffer.Push(0);
  }

  /** A byte `take_while1` accepts: ASCII and not NUL. */
  predicate IsStringByte(b: uint8) {
    1 <= b <= 0x7F
  }

  /** A string `decode_string` gives back as `Some`: non-empty, ASCII, no NUL. */
  predicate IsWireString(s: seq<uint8>) {
    |s| >= 1 && forall i :: 0 <= i < |s| ==> IsStringByte(s[i])
  }

  /** The length of the run of string bytes `take_while1` takes. */
  function RunLength(s: seq<uint8>): (n: nat)
    ensures n <= |s|
    ensures forall i :: 0 <= i < n ==> IsStringByte(s[i])
    ensures n < |s| ==> !IsStringByte(s[n])
    decreases |s|
  {
    if |s| > 0 && IsStringByte(s[0]) then 1 + RunLength(s[1..]) else 0
  }

  /** `decode_string`: `terminated(opt(take_while1(ascii, not NUL)), tag("\0"))`.
      An empty run gives `None`; a run not followed by NUL is an `Error`. */
  function DecodeString(s: seq<uint8>): (r: Parsed<Option<Utf8String>>)
    ensures r.Done? || r == Reject(Tag)
    ensures r.Done? ==> s == StringEncoding(r.value) + r.rest
    ensures r.Done? && r.value.Some? ==> IsWireString(r.value.value)
    ensures |s| >= 1 && s[0] == 0 ==> r == Done(s[1..], None)
  {
    var n := RunLength(s);
    if n < |s| && s[n] == 0 then
      assert IsAscii(s[..n]) by {
        forall i | 0 <= i < |s[..n]| ensures s[..n][i] <= 0x7F {
          assert s[..n][i] == s[i];
        }
      }
      AsciiIsUtf8(s[..n]);
      assert s == s[..n] + [0] + s[n + 1..];
      Done(s[n + 1..], if n == 0 then None else Some(s[..n]))
    else Reject(Tag)
  }

  /** `None` and wire strings survive encoding and decoding. */
  lemma StringRoundTrip(o: Option<Utf8String>, rest: seq<uint8>)
    requires o.Some? ==> IsWireString(o.value)
    ensures DecodeString(StringEncoding(o) + rest) == Done(rest, o)
  {
    var x := if o.Some? then o.value else [];
    var s := StringEncoding(o) + rest;
    assert s == x + [0] + rest;
    var n := RunLength(s);
    assert s[|x|] == 0;
    assert n == |x|;
    assert s[..n] == x;
    assert s[n + 1..] == rest;
  }

  /** `Some("")` is written as a bare NUL, which reads back as `None`. */
  lemma EmptyStringReadsAsNone()
    ensures DecodeString(StringEncoding(Some([]))) == Done([], None)
  {
  }

  /** The first eight bytes, the user id included, of a request to `ip`. */
  function Header(c: Command, port: uint16, ip: Ipv4Addr, secret: Option<Utf8String>): seq<uint8> {
    [4, CommandByte(c)] + BeBytes(port) + ip + StringEncoding(secret)
  }

  /** The 4A marker address `encode_into` writes for a domain name. */
  const DomainMarker: Ipv4Addr := [0, 0, 0, 1]

  /** The bytes `Request::encode_into` appends. */
  function RequestEncoding(r: Request): seq<uint8> {
    match r.addr
    case IPv4(ip4) => Header(r.command, r.port, ip4, r.secret)
    case DomainName(n) => Header(r.command, r.port, DomainMarker, r.secret) + StringEncoding(Some(n))
  }

  /** The layout of a request: version 4, command, big-endian port, then the
      IPv4 address and the user id, or the 4A marker, the user id and the
      name. */
  lemma RequestLayout(r: Request)
    ensures var b := RequestEncoding(r);
            && |b| >= 9 && b[0] == 4 && b[1] == CommandByte(r.command) && b[2..4] == BeBytes(r.port)
            && (r.addr.IPv4? ==> b[4..8] == r.addr.ip4 && b[8..] == StringEncoding(r.secret))
            && (r.addr.DomainName? ==>
                  b[4..8] == DomainMarker && b[8..] == StringEncoding(r.secret) + StringEncoding(Some(r.addr.name)))
  {
  }

  /** The fields `Request::encode_into` writes before the address: version,
      command and big-endian port. */
  method EncodeFixedInto(c: Command, port: uint16, buffer: Buffer)
    modifies buffer
    ensures buffer.bytes == old(buffer.bytes) + ([4, CommandByte(c)] + BeBytes(port))
  {
    EncodeVersionInto(Socks4, buffer);
    EncodeCommandInto(c, buffer);
    buffer.Extend(BeBytes(port));
  }

  /** The IPv4 branch of `Request::encode_into`: the octets, then the user id. */
  method EncodeIpv4TailInto(ip: Ipv4Addr, secret: Option<Utf8String>, buffer: Buffer)
    modifies buffer
    ensures buffer.bytes == old(buffer.bytes) + ip + StringEncoding(secret)
  {
    buffer.Extend(ip);
    EncodeString(secret, buffer);
  }

  /** The domain-name branch of `Request::encode_into`: the 4A marker, the
      user id, then the name. */
  method EncodeDomainTailInto(name: Utf8String, secret: Option<Utf8String>, buffer: Buffer)
    modifies buffer
    ensures buffer.bytes == old(buffer.bytes) + DomainMarker + StringEncoding(secret) + StringEncoding(Some(name))
  {
    buffer.Extend(DomainMarker);
    EncodeString(secret, buffer);
    EncodeString(Some(name), buffer);
  }

  /** `Request::encode_into` */
  method EncodeRequestInto(r: Request, buffer: Buffer)
    modifies buffer
    ensures buffer.bytes == old(buffer.bytes) + RequestEncoding(r)
  {
    EncodeFixedInto(r.command, r.port, buffer);
    ghost var fixed := [4, CommandByte(r.command)] + BeBytes(r.port);
    match r.addr
    case IPv4(ip4) =>
      EncodeIpv4TailInto(ip4, r.secret, buffer);
      AppendAssoc(old(buffer.bytes), fixed, ip4);
      AppendAssoc(old(buffer.bytes), fixed + ip4, StringEncoding(r.secret));
    case DomainName(n) =>
      EncodeDomainTailInto(n, r.secret, buffer);
      AppendAssoc(old(buffer.bytes), fixed, DomainMarker);
      AppendAssoc(old(buffer.bytes), fixed + DomainMarker, StringEncoding(r.secret));
      AppendAssoc(old(buffer.bytes), fixed + DomainMarker + StringEncoding(r.secret), StringEncoding(Some(n)));
  }

  const EmptyDomainName := Failure(ParseError(Verify, Some("Got empty domain name")))

  /** The address choice after the user id: a non-empty second string is a
      domain name whatever the four address bytes were, a bare NUL is a
      `Failure`, and anything else (the `opt` fails) leaves the IPv4 address. */
  function ChooseAddress(c: Command, port: uint16, ip: Ipv4Addr, secret: Option<Utf8String>,
                         tail: seq<uint8>): Parsed<Request>
  {
    match DecodeString(tail)
    case Done(rest, Some(n)) => Done(rest, Request(c, DomainName(n), port, secret))
    case Done(_, None) => EmptyDomainName
    case _ => Done(tail, Request(c, IPv4(ip), port, secret))
  }

  /** `Request::decode` */
  function DecodeRequest(s: seq<uint8>): (r: Parsed<Request>)
    ensures |s| == 0 <==> r == Incomplete
    ensures |s| >= 1 && s[0] != 4 ==> r == Reject(Verify)
    ensures r.Done? ==> |s| >= 1 && s[0] == 4
    ensures |s| >= 2 && s[0] == 4 && !(1 <= s[1] <= 2) ==> r == Failure(ParseError(NoneOf, None))
    ensures 1 <= |s| < 8 && s[0] == 4 && (|s| == 1 || 1 <= s[1] <= 2) ==> r == Reject(Eof)
    ensures |s| >= 8 && s[0] == 4 && 1 <= s[1] <= 2 && !DecodeString(s[8..]).Done? ==> r == Reject(Tag)
  {
    var v :- Expect(Socks4, s);
    var c :- DecodeCommand(v.0);
    var p :- BeU16(Complete, c.0);
    var ip :- Take(Complete, 4, p.0);
    var secret :- DecodeString(ip.0);
    ChooseAddress(c.1, p.1, ip.1, secret.1, secret.0)
  }

  /** Decoding reads the header field by field and leaves the address choice
      to what follows the user id. */
  lemma {:induction false} DecodeHeader(c: Command, port: uint16, ip: Ipv4Addr, secret: Option<Utf8String>,
                                        tail: seq<uint8>)
    requires secret.Some? ==> IsWireString(secret.value)
    ensures DecodeRequest(Header(c, port, ip, secret) + tail) == ChooseAddress(c, port, ip, secret, tail)
  {
    var u := StringEncoding(secret) + tail;
    var t2 := ip + u;
    var t1 := BeBytes(port) + t2;
    var t0 := [CommandByte(c)] + t1;
    var s := Header(c, port, ip, secret) + tail;
    assert s == [4] + t0;
    assert Expect(Socks4, s) == Done(t0, Socks4);
    CommandRoundTrip(c, t1);
    BeU16RoundTrip(Complete, port, t2);
    assert t2[..4] == ip && t2[4..] == u;
    assert Take(Complete, 4, t2) == Done(u, ip);
    StringRoundTrip(secret, tail);
  }

  /** Every request decoding accepts is a header (whose user id is a wire
      string) followed by a tail, decoded as `ChooseAddress` decides on that
      tail. */
  lemma {:induction false} RequestSound(s: seq<uint8>)
    requires DecodeRequest(s).Done?
    ensures exists c: Command, port: uint16, ip: Ipv4Addr, secret: Option<Utf8String>, tail: seq<uint8> ::
              && (secret.Some? ==> IsWireString(secret.value))
              && s == Header(c, port, ip, secret) + tail
              && DecodeRequest(s) == ChooseAddress(c, port, ip, secret, tail)
  {
    var c := DecodeCommand(s[1..]);
    var p := BeU16(Complete, c.rest);
    var ip := Take(Complete, 4, p.rest);
    var secret := DecodeString(ip.rest);
    assert c.Done? && p.Done? && ip.Done? && secret.Done?;
    assert DecodeRequest(s) == ChooseAddress(c.value, p.value, ip.value, secret.value, secret.rest);
    HeaderSound(s, c.value, p.value, ip.value, secret.value, c.rest, p.rest, ip.rest, secret.rest);
  }

  /** The header fields read back in order rebuild the bytes they were read from. */
  lemma HeaderSound(s: seq<uint8>, c: Command, port: uint16, ip: Ipv4Addr, secret: Option<Utf8String>,
                    r1: seq<uint8>, r2: seq<uint8>, r3: seq<uint8>, tail: seq<uint8>)
    requires |s| >= 1 && s[0] == 4 && DecodeCommand(s[1..]) == Done(r1, c)
    requires BeU16(Complete, r1) == Done(r2, port) && Take(Complete, 4, r2) == Done(r3, ip)
    requires DecodeString(r3) == Done(tail, secret)
    ensures s == Header(c, port, ip, secret) + tail
  {
    var e := StringEncoding(secret);
    var b := BeBytes(port);
    var h := [4, CommandByte(c)];
    BeU16Sound(Complete, r1);
    assert r2 == r2[..4] + r2[4..];
    assert s == [4] + s[1..];
    assert s[1..] == [CommandByte(c)] + s[1..][1..];
    assert s == h + r1;
    // r1 == b + (ip + (e + tail)), regrouped to the left
    AppendAssoc(ip, e, tail);
    AppendAssoc(b, ip + e, tail);
    AppendAssoc(b, ip, e);
    assert r1 == (b + ip + e) + tail;
    AppendAssoc(h, b + ip + e, tail);
    AppendAssoc(h, b + ip, e);
    AppendAssoc(h, b, ip);
  }

  /** A non-empty ASCII string after the user id makes the request a domain
      name request, whatever the four address bytes are: the 0.0.0.x marker
      is not checked. */
  lemma DomainNameWhateverAddress(c: Command, port: uint16, ip: Ipv4Addr, secret: Option<Utf8String>,
                                  name: Utf8String, rest: seq<uint8>)
    requires secret.Some? ==> IsWireString(secret.value)
    requires IsWireString(name)
    ensures DecodeRequest(Header(c, port, ip, secret) + StringEncoding(Some(name)) + rest)
            == Done(rest, Request(c, DomainName(name), port, secret))
  {
    assert Header(c, port, ip, secret) + StringEncoding(Some(name)) + rest
        == Header(c, port, ip, secret) + (StringEncoding(Some(name)) + rest);
    DecodeHeader(c, port, ip, secret, StringEncoding(Some(name)) + rest);
    StringRoundTrip(Some(name), rest);
  }

  /** A bare NUL after the user id is a `Failure`. */
  lemma EmptyDomainNameFails(c: Command, port: uint16, ip: Ipv4Addr, secret: Option<Utf8String>,
                             rest: seq<uint8>)
    requires secret.Some? ==> IsWireString(secret.value)
    ensures DecodeRequest(Header(c, port, ip, secret) + [0] + rest) == EmptyDomainName
  {
    assert Header(c, port, ip, secret) + [0] + rest == Header(c, port, ip, secret) + ([0] + rest);
    DecodeHeader(c, port, ip, secret, [0] + rest);
    assert ([0] + rest)[1..] == rest;
  }

  /** When no NUL-terminated string follows the user id, the request is for
      the IPv4 address, and what follows is left unread. */
  lemma NoSecondStringIsIpv4(c: Command, port: uint16, ip: Ipv4Addr, secret: Option<Utf8String>,
                             rest: seq<uint8>)
    requires secret.Some? ==> IsWireString(secret.value)
    requires !DecodeString(rest).Done?
    ensures DecodeRequest(Header(c, port, ip, secret) + rest) == Done(rest, Request(c, IPv4(ip), port, secret))
  {
    DecodeHeader(c, port, ip, secret, rest);
  }

  /** A request whose strings are wire strings; the user id may be absent. */
  predicate WellFormed(r: Request) {
    && (r.secret.Some? ==> IsWireString(r.secret.value))
    && (r.addr.DomainName? ==> IsWireString(r.addr.name))
  }

  /** `decode(encode(r))` gives `r` back, with any following bytes left over;
      after an IPv4 request those bytes must not start with a NUL-terminated
      ASCII string, which would be read as a domain name. */
  lemma RequestRoundTrip(r: Request, rest: seq<uint8>)
    requires WellFormed(r)
    requires r.addr.IPv4? ==> !DecodeString(rest).Done?
    ensures DecodeRequest(RequestEncoding(r) + rest) == Done(rest, r)
  {
    match r.addr
    case IPv4(ip4) =>
      NoSecondStringIsIpv4(r.command, r.port, ip4, r.secret, rest);
    case DomainName(n) =>
      DomainNameWhateverAddress(r.command, r.port, DomainMarker, r.secret, n, rest);
  }
}

/** The SOCKS5 method-selection message of section 3 of RFC 1928 and the
    request of its section 4 (src/request.rs, `mod v5`), read with nom's
    `complete` parsers after the version byte. */
module RequestV5 {
  import opened Wire
  import opened Versions
  import opened CommonV5
  import opened CommonV5Address

  datatype Hello = Hello(methods: seq<AuthenticationMethod>)

  /** The method bytes, in the order offered. */
  function MethodBytes(ms: seq<AuthenticationMethod>): (r: seq<uint8>)
    ensures |r| == |ms|
    ensures forall i :: 0 <= i < |ms| ==> r[i] == MethodByte(ms[i])
  {
    if ms == [] then [] else [MethodByte(ms[0])] + MethodBytes(ms[1..])
  }

  lemma MethodBytesSnoc(ms: seq<AuthenticationMethod>, i: nat)
    requires i < |ms|
    ensures MethodBytes(ms[..i + 1]) == MethodBytes(ms[..i]) + [MethodByte(ms[i])]
  {
    var a := MethodBytes(ms[..i + 1]);
    var b := MethodBytes(ms[..i]) + [MethodByte(ms[i])];
    assert |a| == |b|;
    forall k | 0 <= k < |a| ensures a[k] == b[k] {
      assert ms[..i + 1][k] == ms[k];
      if k < i {
        assert ms[..i][k] == ms[k];
      }
    }
  }

  /** The bytes `Hello::encode_into` appends; more than 255 methods panic. */
  function HelloEncoding(h: Hello): (r: seq<uint8>)
    requires |h.methods| <= 0xFF
    ensures |r| == 2 + |h.methods| && r[0] == 5 && r[1] == |h.methods|
    ensures r[2..] == MethodBytes(h.methods)
  {
    [5, |h.methods|] + MethodBytes(h.methods)
  }

  /** The loop of `Hello::encode_into`: one byte per method, in order. */
  method EncodeMethodsInto(ms: seq<AuthenticationMethod>, buffer: Buffer)
    modifies buffer
    ensures buffer.bytes == old(buffer.bytes) + MethodBytes(ms)
  {
    for i := 0 to |ms|
      invariant buffer.bytes == old(buffer.bytes) + MethodBytes(ms[..i])
    {
      EncodeMethodInto(ms[i], buffer);
      MethodBytesSnoc(ms, i);
    }
    assert ms[..|ms|] == ms;
  }

  /** `Hello::encode_into`: the version, the count, then the methods. */
  method EncodeHelloInto(h: Hello, buffer: Buffer)
    requires |h.methods| <= 0xFF
    modifies buffer
    ensures buffer.bytes == old(buffer.bytes) + HelloEncoding(h)
  {
    EncodeVersionInto(Socks5, buffer);
    buffer.Push(|h.methods|);
    assert buffer.bytes == old(buffer.bytes) + [5, |h.methods|];
    EncodeMethodsInto(h.methods, buffer);
    AppendAssoc(old(buffer.bytes), [5, |h.methods|], MethodBytes(h.methods));
  }

  /** The `length_count` loop: exactly `count` method bytes, in order; too
      few is an `Error`. */
  function DecodeMethods(count: nat, s: seq<uint8>): (r: Parsed<seq<AuthenticationMethod>>)
    ensures r.Done? <==> |s| >= count
    ensures r.Done? ==> |r.value| == count && MethodBytes(r.value) == s[..count] && r.rest == s[count..]
    ensures r.Done? ==> forall i :: 0 <= i < count ==> Canonical(r.value[i])
    ensures !r.Done? ==> r == Reject(Eof)
    decreases count
  {
    if count == 0 then Done(s, [])
    else
      var m :- DecodeMethod(s);
      var ms :- DecodeMethods(count - 1, m.0);
      assert MethodBytes([m.1] + ms.1) == [MethodByte(m.1)] + MethodBytes(ms.1);
      Done(ms.0, [m.1] + ms.1)
  }

  /** `Hello::decode` */
  function DecodeHello(s: seq<uint8>): (r: Parsed<Hello>)
    ensures |s| == 0 <==> r == Incomplete
    ensures |s| >= 1 && s[0] != 5 ==> r == Reject(Verify)
    ensures r.Done? ==> |s| >= 2 && |r.value.methods| == s[1]
    ensures r.Done? ==> s == HelloEncoding(r.value) + r.rest
  {
    var v :- Expect(Socks5, s);
    var n :- Byte(Complete, v.0);
    var ms :- DecodeMethods(n.1, n.0);
    Done(ms.0, Hello(ms.1))
  }

  /** Method lists the decoder can produce: every method canonical. */
  predicate CanonicalMethods(ms: seq<AuthenticationMethod>) {
    forall i :: 0 <= i < |ms| ==> Canonical(ms[i])
  }

  lemma HelloRoundTrip(h: Hello, rest: seq<uint8>)
    requires |h.methods| <= 0xFF && CanonicalMethods(h.methods)
    ensures DecodeHello(HelloEncoding(h) + rest) == Done(rest, h)
  {
    var s := HelloEncoding(h) + rest;
    var ms := h.methods;
    var t := s[2..];
    assert t == MethodBytes(ms) + rest;
    var r := DecodeMethods(|ms|, t);
    assert r.Done?;
    forall i | 0 <= i < |ms| ensures r.value[i] == ms[i] {
      MethodByteRoundTrip(r.value[i]);
      MethodByteRoundTrip(ms[i]);
      assert MethodByte(r.value[i]) == t[i] == MethodByte(ms[i]);
    }
    assert r.value == ms;
    assert t[|ms|..] == rest;
  }

  datatype Request = Request(command: Command, addr: AddressType, port: uint16)

  /** The bytes `Request::encode_into` appends. */
  function RequestEncoding(r: Request): (b: seq<uint8>)
    requires Encodable(r.addr)
    ensures |b| == 5 + |AddressEncoding(r.addr)|
    ensures b[0] == 5 && b[1] == CommandByte(r.command) && b[2] == 0
    ensures b[3..|b| - 2] == AddressEncoding(r.addr) && b[|b| - 2..] == BeBytes(r.port)
  {
    [5, CommandByte(r.command), 0] + AddressEncoding(r.addr) + BeBytes(r.port)
  }

  /** `Request::encode_into` */
  method EncodeRequestInto(r: Request, buffer: Buffer)
    requires Encodable(r.addr)
    modifies buffer
    ensures buffer.bytes == old(buffer.bytes) + RequestEncoding(r)
  {
    EncodeVersionInto(Socks5, buffer);
    EncodeCommandInto(r.command, buffer);
    buffer.Push(0);
    ghost var head := [5, CommandByte(r.command), 0];
    assert buffer.bytes == old(buffer.bytes) + head;
    EncodeAddressInto(r.addr, buffer);
    AppendAssoc(old(buffer.bytes), head, AddressEncoding(r.addr));
    buffer.Extend(BeBytes(r.port));
    AppendAssoc(old(buffer.bytes), head + AddressEncoding(r.addr), BeBytes(r.port));
  }

  /** `Request::decode`: the reserved byte is read but its value ignored. */
  function DecodeRequest(s: seq<uint8>): (r: Parsed<Request>)
    ensures |s| == 0 ==> r == Incomplete
    ensures |s| >= 1 && s[0] != 5 ==> r == Reject(Verify)
    ensures r.Done? ==> |s| >= 1 && s[0] == 5 && Encodable(r.value.addr)
  {
    var v :- Expect(Socks5, s);
    var c :- DecodeCommand(v.0);
    var z :- Byte(Complete, c.0);
    var a :- DecodeAddress(z.0);
    var p :- BeU16(Complete, a.0);
    Done(p.0, Request(c.1, a.1, p.1))
  }

  lemma RequestRoundTrip(r: Request, rest: seq<uint8>)
    requires Encodable(r.addr)
    ensures DecodeRequest(RequestEncoding(r) + rest) == Done(rest, r)
  {
    var s := RequestEncoding(r) + rest;
    var a := AddressEncoding(r.addr);
    assert s[1..] == [CommandByte(r.command)] + ([0] + a + BeBytes(r.port) + rest);
    CommandRoundTrip(r.command, [0] + a + BeBytes(r.port) + rest);
    assert s[3..] == a + (BeBytes(r.port) + rest);
    AddressRoundTrip(r.addr, BeBytes(r.port) + rest);
    BeU16RoundTrip(Complete, r.port, rest);
  }

  /** Every request read is the encoding of its value followed by the rest,
      once the ignored reserved byte is taken to be 0. */
  lemma {:induction false} RequestSound(s: seq<uint8>)
    requires DecodeRequest(s).Done?
    ensures |s| >= 3
    ensures s[2 := 0] == RequestEncoding(DecodeRequest(s).value) + DecodeRequest(s).rest
  {
    var r := DecodeRequest(s);
    var c := DecodeCommand(s[1..]);
    assert c.rest == s[2..];
    var a := DecodeAddress(s[3..]);
    assert s[2..][1..] == s[3..];
    var port := BeU16(Complete, a.rest);
    BeU16Sound(Complete, a.rest);
    var head := [5, CommandByte(r.value.command), 0];
    var e := AddressEncoding(r.value.addr);
    assert s[2 := 0] == head + s[3..];
    AppendAssoc(head, e, BeBytes(r.value.port) + r.rest);
    AppendAssoc(head + e, BeBytes(r.value.port), r.rest);
  }

  /** Whatever value the reserved byte has, the request decodes the same. */
  lemma ReservedByteIgnored(s: seq<uint8>, x: uint8)
    requires |s| >= 3
    ensures DecodeRequest(s[2 := x]) == DecodeRequest(s)
  {
    var t := s[2 := x];
    assert t[1..][1..][1..] == s[1..][1..][1..];
  }
}
