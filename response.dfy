/** The SOCKS4 reply (src/response.rs, `mod v4`): a zero byte, a status, a
    big-endian port and an IPv4 address, all read with nom's `streaming`
    parsers, so a cut-off reply asks for more input. */
module ResponseV4 {
  import opened Wire
  import opened Net

  datatype Status = Success | Rejected | InetdNotAccessible | InetdNotIdentified

  /** The `repr(u8)` discriminant, 0x5A to 0x5D. */
  function StatusByte(st: Status): (b: uint8)
    ensures 0x5A <= b <= 0x5D
  {
    match st
    case Success => 0x5A
    case Rejected => 0x5B
    case InetdNotAccessible => 0x5C
    case InetdNotIdentified => 0x5D
  }

  /** `Status::encode_into` */
  method EncodeStatusInto(st: Status, buffer: Buffer)
    modifies buffer
    ensures buffer.bytes == old(buffer.bytes) + [StatusByte(st)]
  {
    buffer.Push(StatusByte(st));
  }

  /** `Status::decode`: a byte outside 0x5A..0x5D is a `Failure`. */
  function DecodeStatus(s: seq<uint8>): (r: Parsed<Status>)
    ensures r.Done? <==> |s| >= 1 && 0x5A <= s[0] <= 0x5D
    ensures r.Done? ==> r.rest == s[1..] && StatusByte(r.value) == s[0]
    ensures |s| == 0 <==> r == Incomplete
    ensures r.Failure? <==> |s| >= 1 && !(0x5A <= s[0] <= 0x5D)
  {
    var p :- Byte(Streaming, s);
    var (rest, b) := p;
    if b == 0x5A then Done(rest, Success)
    else if b == 0x5B then Done(rest, Rejected)
    else if b == 0x5C then Done(rest, InetdNotAccessible)
    else if b == 0x5D then Done(rest, InetdNotIdentified)
    else Failure(ParseError(NoneOf, None))
  }

  lemma StatusRoundTrip(st: Status, rest: seq<uint8>)
    ensures DecodeStatus([StatusByte(st)] + rest) == Done(rest, st)
  {
    assert ([StatusByte(st)] + rest)[1..] == rest;
  }

  datatype Response = Response(status: Status, addr: Ipv4Addr, port: uint16)

  /** The eight bytes `Response::encode_into` appends. */
  function ResponseEncoding(r: Response): (b: seq<uint8>)
    ensures |b| == 8 && b[0] == 0 && b[1] == StatusByte(r.status)
    ensures b[2..4] == BeBytes(r.port) && b[4..] == r.addr
  {
    [0, StatusByte(r.status)] + BeBytes(r.port) + r.addr
  }

  /** `Response::encode_into` */
  method EncodeResponseInto(r: Response, buffer: Buffer)
    modifies buffer
    ensures buffer.bytes == old(buffer.bytes) + ResponseEncoding(r)
  {
    buffer.Push(0);
    EncodeStatusInto(r.status, buffer);
    buffer.Extend(BeBytes(r.port));
    EncodeIpv4Into(r.addr, buffer);
  }

  /** `Response::decode`: the leading byte must be zero. */
  function DecodeResponse(s: seq<uint8>): (r: Parsed<Response>)
    ensures r.Done? <==> |s| >= 8 && s[0] == 0 && 0x5A <= s[1] <= 0x5D
    ensures r.Done? ==> s == ResponseEncoding(r.value) + r.rest
    ensures |s| >= 1 && s[0] != 0 ==> r == Reject(Verify)
    ensures |s| >= 2 && s[0] == 0 && !(0x5A <= s[1] <= 0x5D) ==> r.Failure?
  {
    var z :- Byte(Streaming, s);
    if z.1 != 0 then Reject(Verify)
    else
      var st :- DecodeStatus(z.0);
      var p :- BeU16(Streaming, st.0);
      var a :- DecodeIpv4(p.0);
      assert s == [0, StatusByte(st.1)] + s[2..4] + s[4..8] + s[8..];
      assert s[2..4] == BeBytes(p.1) by {
        var q := s[2..4];
        var e := BeBytes(p.1);
        assert (q[0] as int) * 0x100 + q[1] as int == (e[0] as int) * 0x100 + e[1] as int;
      }
      Done(a.0, Response(st.1, a.1, p.1))
  }

  lemma ResponseRoundTrip(r: Response, rest: seq<uint8>)
    ensures DecodeResponse(ResponseEncoding(r) + rest) == Done(rest, r)
  {
    var s := ResponseEncoding(r) + rest;
    assert s[1..] == [StatusByte(r.status)] + (BeBytes(r.port) + (r.addr + rest));
    StatusRoundTrip(r.status, BeBytes(r.port) + (r.addr + rest));
    BeU16RoundTrip(Streaming, r.port, r.addr + rest);
    Ipv4RoundTrip(r.addr, rest);
  }

  /** Every strict prefix of a reply asks for more input. */
  lemma TruncatedResponse(r: Response, k: nat)
    requires k < 8
    ensures DecodeResponse(ResponseEncoding(r)[..k]) == Incomplete
  {
    var s := ResponseEncoding(r)[..k];
    if k >= 2 {
      assert s[1..][0] == StatusByte(r.status);
    }
  }
}

/** The SOCKS5 replies (src/response.rs, `mod v5`): the method choice of
    section 3 of RFC 1928 and the reply of its section 6. */
module ResponseV5 {
  import opened Wire
  import opened Versions
  import opened CommonV5
  import opened CommonV5Address

  /** The server's method choice. */
  datatype Hello = Hello(choice: AuthenticationMethod)

  /** The two bytes `Hello::encode_into` appends. */
  function HelloEncoding(h: Hello): (b: seq<uint8>)
    ensures |b| == 2 && b[0] == VersionByte(Socks5) && b[1] == MethodByte(h.choice)
  {
    [VersionByte(Socks5), MethodByte(h.choice)]
  }

  /** `Hello::encode_into` */
  method EncodeHelloInto(h: Hello, buffer: Buffer)
    modifies buffer
    ensures buffer.bytes == old(buffer.bytes) + HelloEncoding(h)
  {
    EncodeVersionInto(Socks5, buffer);
    EncodeMethodInto(h.choice, buffer);
  }

  /** `Hello::decode`: the version must be 5; the method byte is read with
      the `complete` `be_u8`, so a lone version byte is an `Error`. */
  function DecodeHello(s: seq<uint8>): (r: Parsed<Hello>)
    ensures r.Done? <==> |s| >= 2 && s[0] == 5
    ensures r.Done? ==> s == HelloEncoding(r.value) + r.rest && Canonical(r.value.choice)
    ensures |s| == 0 <==> r == Incomplete
    ensures |s| >= 1 && s[0] != 5 ==> r == Reject(Verify)
    ensures |s| == 1 && s[0] == 5 ==> r == Reject(Eof)
  {
    var v :- Expect(Socks5, s);
    var m :- DecodeMethod(v.0);
    assert s == [5, s[1]] + s[2..];
    Done(m.0, Hello(m.1))
  }

  lemma HelloRoundTrip(h: Hello, rest: seq<uint8>)
    requires Canonical(h.choice)
    ensures DecodeHello(HelloEncoding(h) + rest) == Done(rest, h)
  {
    MethodByteRoundTrip(h.choice);
    assert (HelloEncoding(h) + rest)[1..][1..] == rest;
  }

  datatype Status =
    | Success
    | GeneralFailure
    | ConnectionNotAllowed
    | NetworkUnreachable
    | HostUnreachable
    | ConnectionRefused
    | TtlExpired
    | CommandNotSupported
    | Unassigned(code: uint8)

  /** `From<u8>`: every byte is a status; 8 and above are unassigned. */
  function StatusFromByte(b: uint8): (st: Status)
    ensures StatusByte(st) == b
    ensures st.Unassigned? <==> b >= 8
    ensures st == Success <==> b == 0
  {
    match b
    case 0 => Success
    case 1 => GeneralFailure
    case 2 => ConnectionNotAllowed
    case 3 => NetworkUnreachable
    case 4 => HostUnreachable
    case 5 => ConnectionRefused
    case 6 => TtlExpired
    case 7 => CommandNotSupported
    case _ => Unassigned(b)
  }

  /** The byte `Status::encode_into` writes. */
  function StatusByte(st: Status): uint8 {
    match st
    case Success => 0
    case GeneralFailure => 1
    case ConnectionNotAllowed => 2
    case NetworkUnreachable => 3
    case HostUnreachable => 4
    case ConnectionRefused => 5
    case TtlExpired => 6
    case CommandNotSupported => 7
    case Unassigned(v) => v
  }

  /** Statuses `From<u8>` can produce: an `Unassigned` code is at least 8. */
  predicate CanonicalStatus(st: Status) {
    st.Unassigned? ==> st.code >= 8
  }

  lemma StatusByteRoundTrip(st: Status)
    ensures StatusFromByte(StatusByte(st)) == st <==> CanonicalStatus(st)
  {
  }

  /** `Status::encode_into` */
  method EncodeStatusInto(st: Status, buffer: Buffer)
    modifies buffer
    ensures buffer.bytes == old(buffer.bytes) + [StatusByte(st)]
  {
    buffer.Push(StatusByte(st));
  }

  /** `Status::decode`: `map(be_u8, From::from)`, streaming. */
  function DecodeStatus(s: seq<uint8>): (r: Parsed<Status>)
    ensures r.Done? <==> |s| >= 1
    ensures r.Done? ==> r.rest == s[1..] && StatusByte(r.value) == s[0] && CanonicalStatus(r.value)
    ensures |s| == 0 ==> r == Incomplete
  {
    var p :- Byte(Streaming, s);
    Done(p.0, StatusFromByte(p.1))
  }

  datatype Response = Response(status: Status, addr: AddressType, port: uint16)

  /** The bytes `Response::encode_into` appends. */
  function ResponseEncoding(r: Response): (b: seq<uint8>)
    requires Encodable(r.addr)
    ensures |b| == 5 + |AddressEncoding(r.addr)|
    ensures b[0] == VersionByte(Socks5) && b[1] == StatusByte(r.status) && b[2] == 0
    ensures b[3..|b| - 2] == AddressEncoding(r.addr) && b[|b| - 2..] == BeBytes(r.port)
  {
    [VersionByte(Socks5), StatusByte(r.status), 0] + AddressEncoding(r.addr) + BeBytes(r.port)
  }

  /** `Response::encode_into` */
  method EncodeResponseInto(r: Response, buffer: Buffer)
    requires Encodable(r.addr)
    modifies buffer
    ensures buffer.bytes == old(buffer.bytes) + ResponseEncoding(r)
  {
    EncodeVersionInto(Socks5, buffer);
    EncodeStatusInto(r.status, buffer);
    buffer.Push(0);
    ghost var head := [VersionByte(Socks5), StatusByte(r.status), 0];
    assert buffer.bytes == old(buffer.bytes) + head;
    EncodeAddressInto(r.addr, buffer);
    AppendAssoc(old(buffer.bytes), head, AddressEncoding(r.addr));
    buffer.Extend(BeBytes(r.port));
    AppendAssoc(old(buffer.bytes), head + AddressEncoding(r.addr), BeBytes(r.port));
  }

  /** `Response::decode`: version 5, a status, a reserved byte whose value is
      ignored, an address and a port. */
  function DecodeResponse(s: seq<uint8>): (r: Parsed<Response>)
    ensures |s| == 0 ==> r == Incomplete
    ensures |s| >= 1 && s[0] != 5 ==> r == Reject(Verify)
    ensures r.Done? ==> |s| >= 1 && s[0] == 5 && Encodable(r.value.addr) && CanonicalStatus(r.value.status)
    ensures r.Done? ==> |s| >= 2 && StatusByte(r.value.status) == s[1]
  {
    var v :- Expect(Socks5, s);
    var st :- DecodeStatus(v.0);
    var z :- Byte(Streaming, st.0);
    var a :- DecodeAddress(z.0);
    var p :- BeU16(Streaming, a.0);
    Done(p.0, Response(st.1, a.1, p.1))
  }

  lemma ResponseRoundTrip(r: Response, rest: seq<uint8>)
    requires Encodable(r.addr) && CanonicalStatus(r.status)
    ensures DecodeResponse(ResponseEncoding(r) + rest) == Done(rest, r)
  {
    var s := ResponseEncoding(r) + rest;
    var a := AddressEncoding(r.addr);
    StatusByteRoundTrip(r.status);
    assert s[3..] == a + (BeBytes(r.port) + rest);
    AddressRoundTrip(r.addr, BeBytes(r.port) + rest);
    BeU16RoundTrip(Streaming, r.port, rest);
  }

  /** Every reply read is the encoding of its value followed by the rest,
      once the ignored reserved byte is taken to be 0. */
  lemma {:induction false} ResponseSound(s: seq<uint8>)
    requires DecodeResponse(s).Done?
    ensures |s| >= 3
    ensures s[2 := 0] == ResponseEncoding(DecodeResponse(s).value) + DecodeResponse(s).rest
  {
    var r := DecodeResponse(s);
    var st := DecodeStatus(s[1..]);
    assert st.rest == s[2..];
    var a := DecodeAddress(s[3..]);
    assert s[2..][1..] == s[3..];
    var port := BeU16(Streaming, a.rest);
    BeU16Sound(Streaming, a.rest);
    var head := [VersionByte(Socks5), StatusByte(r.value.status), 0];
    var e := AddressEncoding(r.value.addr);
    assert s[2 := 0] == head + s[3..];
    AppendAssoc(head, e, BeBytes(r.value.port) + r.rest);
    AppendAssoc(head + e, BeBytes(r.value.port), r.rest);
  }

  /** Whatever value the reserved byte has, the reply decodes the same. */
  lemma ReservedByteIgnored(s: seq<uint8>, x: uint8)
    requires |s| >= 3
    ensures DecodeResponse(s[2 := x]) == DecodeResponse(s)
  {
    var t := s[2 := x];
    assert t[1..][1..][1..] == s[1..][1..][1..];
  }

  /** A cut-off reply asks for more input, except where the `complete`
      readers inside the address see nothing: right after the reserved byte,
      and right after the domain-name tag. */
  lemma {:induction false} TruncatedResponse(r: Response, k: nat)
    requires Encodable(r.addr) && k < |ResponseEncoding(r)|
    ensures k == 3 || (r.addr.DomainName? && k == 4) ==> DecodeResponse(ResponseEncoding(r)[..k]) == Reject(Eof)
    ensures k != 3 && !(r.addr.DomainName? && k == 4) ==> DecodeResponse(ResponseEncoding(r)[..k]) == Incomplete
  {
    var e := ResponseEncoding(r);
    var a := AddressEncoding(r.addr);
    var s := e[..k];
    if k >= 3 {
      assert s[0] == 5;
      assert s[1..][1..][1..] == s[3..];
      if k - 3 < |a| {
        assert s[3..] == a[..k - 3];
        TruncatedAddress(r.addr, k - 3);
      } else {
        var p := BeBytes(r.port)[..k - 3 - |a|];
        assert s[3..] == a + p;
        AddressRoundTrip(r.addr, p);
      }
    }
  }
}
