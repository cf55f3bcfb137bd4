# socks-parser in Dafny

A model of the core of `socks-parser`, a Rust library for the SOCKS proxy
protocols. It has two parts.

**The wire codec.** Each message and field type has an `encode_into` that
appends bytes to a `Vec<u8>` and a nom `decode` that returns the remaining
input and a value, or an error. The types are:

- versions, commands, authentication methods and statuses;
- the tagged address;
- the SOCKS4/4A request and reply;
- the SOCKS5 method offer and method choice (sections 3 and 6 of RFC 1928);
- the SOCKS5 request and reply (sections 4 and 6 of RFC 1928).

**The handshake.** The server's `handle_client` and the client's `connect`,
built on the codec.

How the Rust maps to Dafny:

- **Bytes** are `seq<uint8>`.
- **nom results** are a `Parsed<T>` datatype:
  - `Done(rest, value)`;
  - `Incomplete` (nom's `Err::Incomplete`);
  - `Error` (nom's `Err::Error`);
  - `Failure` (nom's `Err::Failure`).

  The `streaming` and `complete` flavours of `be_u8`, `be_u16` and `take`
  differ only on short input: `streaming` gives `Incomplete`, `complete`
  gives an `Error` of kind `Eof`. The model keeps that difference field by
  field.
- **Encoders** are methods on a `Buffer` class whose `bytes` they extend.
  Each is proved to append exactly the bytes of a specification function
  (`...Encoding`). The decoders are functions, proved to read back what the
  encoders write.
- **The handshake code** becomes methods on a `Stream` class:
  - each `read_buf` delivers the next chunk the peer sent;
  - each `write_all` appends one byte string to the `sent` log.

  Each method is proved against a specification function of the incoming
  chunks (`Serve`, `ClientV4Run`, `ClientV5Run`). Those functions are then
  related by lemmas: what the server answers, what the client concludes, and
  how the two meet.
- **The network** is a parameter, `network: Destination -> Dial`. It gives
  the outcome of `TcpStream::connect` and `peer_addr`: refused, connected
  with a known peer address, or connected with `peer_addr` failing.

Modules and the source files they model:

| module | source |
|---|---|
| `Wire` | bytes, the nom result type, `be_u8`/`be_u16`/`take`, UTF-8 validity, the byte buffer |
| `Net` | `Ipv4Addr`/`Ipv6Addr`/`SocketAddr` and their octet codec |
| `Transport` | the connection the handshakes run over |
| `Versions` | the `Version` enum {Socks4, Socks5} used by src/request.rs, src/server.rs and src/client.rs |
| `CommonV5`, `CommonV5Address` | src/common/v5.rs, src/common/v5/address_type.rs |
| `CommonV4` | src/common/v4.rs |
| `CommonLegacy`, `CommonLegacyAddress` | src/common.rs, src/common/address_type.rs (the older streaming copies) |
| `RequestV4`, `RequestV5` | src/request.rs |
| `ResponseV4`, `ResponseV5` | src/response.rs |
| `Server` | src/server.rs |
| `Client` | src/client.rs |

Three places where the code is followed rather than the protocol documents:

- **Reply to a refused SOCKS4 connect.** It carries port 0, not the
  requested port (src/server.rs:68).
- **SOCKS4 request decoding.** It does not check the 0.0.0.x marker of the
  4A form. Any non-empty string after the user id makes the request a
  domain-name request (src/request.rs:83-88).
- **SOCKS5 request and reply decoding.** The reserved byte is read but never
  checked to be zero (src/request.rs:190, src/response.rs:197).

## Model

| member | source | states |
|---|---|---|
| Wire.BeU16RoundTrip | src/response.rs:56-68 | reading a big-endian `u16` back from `to_be_bytes` gives the port and leaves the following bytes, in both parser flavours |
| Wire.BeU16Sound | src/response.rs:56-68 | whatever `be_u16` reads is the `to_be_bytes` encoding of its value, followed by the rest |
| Wire.AsciiIsUtf8 | src/request.rs:42-45 | a run of ASCII bytes is valid UTF-8, so `from_utf8` never rejects a user id or name that `take_while1` accepted |
| Transport.Stream.ReadBuf | src/server.rs:40 | `read_buf` appends the next chunk the peer sent to the buffer, returns its length and consumes it; nothing is written |
| Transport.Stream.WriteAll | src/server.rs:72 | `write_all` hands the whole message to the peer and reads nothing |
| Net.EncodeIpv4Into | src/common/v5/address_type.rs:27 | `Ipv4Addr::encode_into` appends the 4 octets in order |
| Net.DecodeIpv4 | src/common/v5/address_type.rs:49 | fewer than 4 bytes ask for more input; otherwise the first 4 bytes are the address and the rest is left |
| Net.EncodeIpv6Into | src/common/v5/address_type.rs:31 | `Ipv6Addr::encode_into` appends the 16 octets in order |
| Net.DecodeIpv6 | src/common/v5/address_type.rs:58 | fewer than 16 bytes ask for more input; otherwise the first 16 bytes are the address |
| Net.Ipv4RoundTrip | src/common/v5/address_type.rs:25-49 | decoding an encoded IPv4 address gives it back and leaves what follows |
| Net.Ipv6RoundTrip | src/common/v5/address_type.rs:29-58 | decoding an encoded IPv6 address gives it back and leaves what follows |
| Versions.VersionByte | src/request.rs:53 | the version byte is 4 exactly for Socks4 and 5 exactly for Socks5 |
| Versions.EncodeVersionInto | src/request.rs:53 | `Version::encode_into` appends exactly the version byte |
| Versions.DecodeVersion | src/server.rs:42 | succeeds exactly when the first byte is 4 or 5, consuming one byte; empty input is `Incomplete`; any other first byte fails `verify` |
| Versions.Expect | src/request.rs:77 | `verify(Version::decode, == v)` succeeds exactly on the byte of `v`; empty input is `Incomplete`; any other byte fails `verify` |
| CommonV5.MethodFromByte | src/common/v5.rs:15-25 | `From<u8>` partitions the bytes: 0 None, 1 Gssapi, 2 UsernamePassword, 3..=0x7F IanaAssigned, 0x80..=0xFE PrivateMethod, 0xFF NotAcceptable; and `as_u8(from(b)) == b` for every byte |
| CommonV5.MethodByteRoundTrip | src/common/v5.rs:15-38 | `from(as_u8(m)) == m` if and only if an IanaAssigned/PrivateMethod payload lies in its own range |
| CommonV5.NonCanonicalMethodExample | src/common/v5.rs:28-38 | IanaAssigned(0) is written as 0 and read back as None |
| CommonV5.EncodeMethodInto | src/common/v5.rs:42-44 | appends exactly the method byte and keeps the earlier bytes |
| CommonV5.DecodeMethod | src/common/v5.rs:46-51 | never rejects a byte value: on non-empty input it consumes one byte and returns its method; empty input is an `Eof` error (complete `be_u8`) |
| CommonV5.EncodeCommandInto | src/common/v5.rs:63-65 | appends exactly the command byte 1, 2 or 3 |
| CommonV5.DecodeCommand | src/common/v5.rs:67-81 | succeeds exactly on bytes 1..=3; any other byte is a `Failure`; empty input is an `Error` |
| CommonV5.CommandRoundTrip | src/common/v5.rs:62-81 | `decode(encode(c) ++ rest) == Done(rest, c)` for every command |
| CommonV5Address.AddressEncoding | src/common/v5/address_type.rs:23-40 | tag 1 and 4 octets (5 bytes), tag 4 and 16 octets (17 bytes), or tag 3, a length byte and the name |
| CommonV5Address.EncodeAddressInto | src/common/v5/address_type.rs:23-40 | appends exactly the address encoding; names longer than 255 bytes are excluded (the `expect` panics) |
| CommonV5Address.DecodeAddress | src/common/v5/address_type.rs:42-65 | empty input is an `Eof` error; a tag other than 1/3/4 is the `Failure` "Invalid address type", and that is its only `Failure`; success means the input starts with the encoding of the value |
| CommonV5Address.DecodeDomainName | src/common/v5/address_type.rs:52-56 | `map_opt(length_data(be_u8), from_utf8)`: empty input is an `Eof` error, too few name bytes are `Incomplete`, and it succeeds exactly when the length byte is followed by that many UTF-8 bytes, which become the name, leaving what follows them |
| CommonV5Address.AddressRoundTrip | src/common/v5/address_type.rs:22-65 | `decode(encode(a) ++ rest) == Done(rest, a)` for IPv4, IPv6 and UTF-8 names of at most 255 bytes |
| CommonV5Address.DomainNameNotUtf8 | src/common/v5/address_type.rs:50-57 | a name whose bytes are not UTF-8 is a recoverable `MapOpt` error |
| CommonV5Address.NameNotUtf8 | src/common/v5/address_type.rs:52-56 | `map_opt(length_data(be_u8), from_utf8)` rejects bytes that are not UTF-8 with `MapOpt` |
| CommonV5Address.NameRoundTrip | src/common/v5/address_type.rs:52-56 | a length byte followed by that many UTF-8 bytes decodes to that name and leaves the rest |
| CommonV5Address.DecodeDomainNameTag | src/common/v5/address_type.rs:50-57 | tag 3 hands the rest of the input to the domain-name reader |
| CommonV5Address.TruncatedAddress | src/common/v5/address_type.rs:46-58 | a cut-off encoding is an `Eof` error when the tag or name length is missing, and `Incomplete` when the payload is cut |
| CommonV5Address.FromIpAddr | src/common/v5/address_type.rs:78-85 | `From<IpAddr>` maps V4 to IPv4 and V6 to IPv6, never to a domain name |
| CommonV4.EncodeCommandInto | src/common/v4.rs:15-17 | appends exactly the command byte, Connect 1 and Bind 2 |
| CommonV4.DecodeCommand | src/common/v4.rs:19-32 | succeeds exactly on bytes 1 and 2; 3 and every other byte is a `Failure`; empty input is an `Error` |
| CommonV4.CommandRoundTrip | src/common/v4.rs:14-32 | `decode(encode(c) ++ rest) == Done(rest, c)` for both commands |
| CommonV4.TryFromV5 | src/common/v4.rs:41-53 | succeeds exactly for IPv4 and domain names, carrying them over unchanged; IPv6 is an `Unsupported` error |
| CommonV4.ToV5 | src/common/v4.rs:44-47 | the SOCKS5 shape of a SOCKS4 address is never IPv6 |
| CommonV4.TryFromToV5 | src/common/v4.rs:41-53 | every SOCKS4 address survives the conversion from its SOCKS5 shape |
| CommonLegacy.EncodeVersionInto | src/common.rs:16-18 | appends exactly the byte 5 |
| CommonLegacy.DecodeVersion | src/common.rs:20-30 | succeeds exactly when the first byte is 5, consuming it; empty input is `Incomplete`; any other byte fails `verify` |
| CommonLegacy.VersionRoundTrip | src/common.rs:15-30 | the encoded version reads back and leaves what follows |
| CommonLegacy.MethodFromByte | src/common.rs:43-54 | the same total partition of the bytes, with `as_u8(from(b)) == b` |
| CommonLegacy.EncodeMethodInto | src/common.rs:70-72 | appends exactly the method byte |
| CommonLegacy.DecodeMethod | src/common.rs:74-79 | every byte is a method; empty input is `Incomplete` (streaming `be_u8`) |
| CommonLegacy.CommandFromU8 | src/common.rs:90-99 | `from_u8` is `Some` exactly on 1..=3 and inverts the discriminant |
| CommonLegacy.CommandFromU8RoundTrip | src/common.rs:84-99 | `from_u8(c as u8) == Some(c)` |
| CommonLegacy.EncodeCommandInto | src/common.rs:102-104 | appends exactly the command byte |
| CommonLegacy.DecodeCommand | src/common.rs:106-111 | succeeds exactly on 1..=3; any other byte is a recoverable `MapOpt` error; empty input is `Incomplete` |
| CommonLegacy.CommandRoundTrip | src/common.rs:101-111 | `decode(encode(c) ++ rest) == Done(rest, c)` |
| CommonLegacyAddress.EncodeHostname | src/common/address_type.rs:22-26 | appends a length byte, then the name, for names of at most 255 bytes |
| CommonLegacyAddress.DecodeHostname | src/common/address_type.rs:28-37 | reads length L, then exactly L bytes; succeeds exactly when they are there and UTF-8; short input is `Incomplete`; non-UTF-8 is a `MapOpt` error |
| CommonLegacyAddress.EncodeIpv4 | src/common/address_type.rs:39-43 | the octet loop appends the 4 octets in order |
| CommonLegacyAddress.DecodeIpv4 | src/common/address_type.rs:45-53 | takes exactly 4 bytes as the address; fewer is `Incomplete` |
| CommonLegacyAddress.EncodeIpv6 | src/common/address_type.rs:55-59 | the octet loop appends the 16 octets in order |
| CommonLegacyAddress.DecodeIpv6 | src/common/address_type.rs:61-69 | takes exactly 16 bytes as the address; fewer is `Incomplete` |
| CommonLegacyAddress.AddressEncoding | src/common/address_type.rs:72-87 | tag 1 and 4 octets, tag 4 and 16 octets, or tag 3, a length byte and the name |
| CommonLegacyAddress.EncodeAddressInto | src/common/address_type.rs:72-87 | appends exactly the address encoding |
| CommonLegacyAddress.DecodeAddress | src/common/address_type.rs:89-108 | empty input is `Incomplete`; an unknown tag is the `Failure` "Invalid address type", its only `Failure`; success means the input starts with the encoding of the value |
| CommonLegacyAddress.AddressRoundTrip | src/common/address_type.rs:71-108 | `decode(encode(a) ++ rest) == Done(rest, a)` for names of at most 255 UTF-8 bytes |
| CommonLegacyAddress.TruncatedAddress | src/common/address_type.rs:89-108 | every strict prefix of an encoding, the empty one included, is `Incomplete` |
| RequestV4.StringEncoding | src/request.rs:28-33 | the string bytes then a NUL; `None` gives the NUL alone |
| RequestV4.EncodeString | src/request.rs:28-33 | `encode_string` appends exactly that |
| RequestV4.RunLength | src/request.rs:42 | the run `take_while1` takes: every byte in it is ASCII and non-NUL, and the byte after it is not |
| RequestV4.DecodeString | src/request.rs:35-49 | succeeds or fails with a `Tag` error; on success the input is the encoding of the value followed by the rest, and a `Some` is non-empty NUL-free ASCII; a leading NUL reads as `None` |
| RequestV4.StringRoundTrip | src/request.rs:28-49 | `None` and every non-empty NUL-free ASCII string read back after encoding |
| RequestV4.EmptyStringReadsAsNone | src/request.rs:28-49 | `Some("")` is written as a bare NUL and read back as `None` |
| RequestV4.RequestLayout | src/request.rs:52-67 | 0x04, command, big-endian port, then the IPv4 octets and user id, or 0.0.0.1, user id and name, each string NUL-terminated |
| RequestV4.EncodeFixedInto | src/request.rs:53-55 | appends the version byte 4, the command byte and the big-endian port |
| RequestV4.EncodeIpv4TailInto | src/request.rs:57-59 | after an IPv4 address: appends its four octets, then the user id as a NUL-terminated string |
| RequestV4.EncodeDomainTailInto | src/request.rs:61-64 | after a domain name: appends the marker 0.0.0.1, the user id, then the name, each string NUL-terminated |
| RequestV4.EncodeRequestInto | src/request.rs:52-67 | `Request::encode_into` appends exactly that |
| RequestV4.DecodeRequest | src/request.rs:69-108 | empty input is `Incomplete`; a leading byte other than 4 fails `verify`; a success starts with 4; after a 4, a command byte other than 1 or 2 is a `Failure`, a header cut short before its eighth byte is an `Eof` error, and a user id not ended by NUL is a `Tag` error |
| RequestV4.RequestSound | src/request.rs:69-108 | every request decoding accepts is a header, whose user id is a wire string, followed by a tail, and the result is the address choice on that tail |
| RequestV4.HeaderSound | src/request.rs:74-84 | the command, port, four address bytes and user id, read in order, rebuild the header bytes they were read from |
| RequestV4.ChooseAddress | src/request.rs:83-97 | defines the address choice after the user id: a second string that reads as a non-empty name gives `DomainName` of it, an empty one the `Failure` "Got empty domain name", and a failed `opt` the IPv4 address with the tail left unread; stated by `DecodeHeader`, `DomainNameWhateverAddress`, `EmptyDomainNameFails` and `NoSecondStringIsIpv4` |
| RequestV4.DecodeHeader | src/request.rs:74-86 | the header is read field by field, and the address choice depends only on what follows the user id |
| RequestV4.DomainNameWhateverAddress | src/request.rs:87-88 | a non-empty second string makes a domain-name request whatever the four address bytes are |
| RequestV4.EmptyDomainNameFails | src/request.rs:89-95 | a bare NUL after the user id is the `Failure` "Got empty domain name" |
| RequestV4.NoSecondStringIsIpv4 | src/request.rs:96 | with no second NUL-terminated string the request is for the IPv4 address, and what follows is left unread |
| RequestV4.RequestRoundTrip | src/request.rs:52-108 | `decode(encode(r) ++ rest) == Done(rest, r)` when the user id is absent or a wire string and any name is a wire string; after an IPv4 request `rest` must not start with a NUL-terminated string |
| RequestV5.MethodBytes | src/request.rs:143-145 | one byte per method, in the order offered |
| RequestV5.MethodBytesSnoc | src/request.rs:143-145 | one more method appends one more byte |
| RequestV5.HelloEncoding | src/request.rs:135-146 | 0x05, the count, then the method bytes; more than 255 methods are excluded (the `expect` panics) |
| RequestV5.EncodeMethodsInto | src/request.rs:143-145 | the loop appends exactly the method bytes, in order |
| RequestV5.EncodeHelloInto | src/request.rs:135-146 | `Hello::encode_into` appends exactly the hello encoding |
| RequestV5.DecodeMethods | src/request.rs:157 | `length_count` succeeds exactly when `count` bytes are there; it reads that many methods, in order, and consumes exactly them; otherwise an `Eof` error |
| RequestV5.DecodeHello | src/request.rs:148-162 | empty input is `Incomplete`; a version other than 5 fails `verify`; a success reads exactly the count of methods and its input starts with their encoding |
| RequestV5.HelloRoundTrip | src/request.rs:134-162 | a hello of at most 255 methods, each canonical, reads back with its order kept |
| RequestV5.RequestEncoding | src/request.rs:173-179 | 05, command, 00, tagged address, big-endian port |
| RequestV5.EncodeRequestInto | src/request.rs:173-179 | `Request::encode_into` appends exactly that |
| RequestV5.DecodeRequest | src/request.rs:181-201 | empty input is `Incomplete`; a version other than 5 fails `verify`; a success starts with 5 and has an encodable address |
| RequestV5.RequestRoundTrip | src/request.rs:172-201 | `decode(encode(r) ++ rest) == Done(rest, r)` |
| RequestV5.ReservedByteIgnored | src/request.rs:186-190 | any value of the reserved byte decodes the same |
| RequestV5.RequestSound | src/request.rs:181-201 | every request read is the encoding of its value followed by the rest, with the ignored reserved byte taken to be 0 |
| ResponseV4.StatusByte | src/response.rs:13-20 | the status discriminants lie in 0x5A..=0x5D |
| ResponseV4.EncodeStatusInto | src/response.rs:23-25 | appends exactly the status byte |
| ResponseV4.DecodeStatus | src/response.rs:27-42 | succeeds exactly on 0x5A..=0x5D; other bytes are a `Failure`; empty input is `Incomplete` |
| ResponseV4.StatusRoundTrip | src/response.rs:22-42 | every status reads back |
| ResponseV4.ResponseEncoding | src/response.rs:53-58 | exactly 8 bytes: 0x00, status, big-endian port, 4 address octets |
| ResponseV4.EncodeResponseInto | src/response.rs:53-58 | `Response::encode_into` appends exactly that |
| ResponseV4.DecodeResponse | src/response.rs:60-72 | succeeds exactly on 8 or more bytes with a leading 0 and a valid status; then the input is the encoding plus the rest; a non-zero first byte fails `verify`; a bad status is a `Failure` |
| ResponseV4.ResponseRoundTrip | src/response.rs:52-72 | every reply reads back and leaves what follows |
| ResponseV4.TruncatedResponse | src/response.rs:60-72 | every strict prefix of a reply is `Incomplete` |
| ResponseV5.HelloEncoding | src/response.rs:98-101 | 0x05 followed by the method byte |
| ResponseV5.EncodeHelloInto | src/response.rs:98-101 | appends exactly those two bytes |
| ResponseV5.DecodeHello | src/response.rs:103-117 | succeeds exactly on two or more bytes starting with 5; empty input is `Incomplete`; another version fails `verify`; a lone 5 is an `Eof` error |
| ResponseV5.HelloRoundTrip | src/response.rs:97-117 | a canonical method choice reads back |
| ResponseV5.StatusFromByte | src/response.rs:133-147 | `From<u8>` is total, `encode(from(b))` is the byte b, Unassigned exactly from 8 up, and Success exactly for 0 |
| ResponseV5.StatusByteRoundTrip | src/response.rs:133-163 | `from(encode(s)) == s` if and only if s is named or Unassigned(v) with v ≥ 8 |
| ResponseV5.EncodeStatusInto | src/response.rs:150-163 | appends exactly the status byte |
| ResponseV5.DecodeStatus | src/response.rs:165-170 | every byte is a status; empty input is `Incomplete` |
| ResponseV5.ResponseEncoding | src/response.rs:181-187 | 05, status, 00, tagged address, big-endian port |
| ResponseV5.EncodeResponseInto | src/response.rs:181-187 | `Response::encode_into` appends exactly that |
| ResponseV5.DecodeResponse | src/response.rs:189-201 | empty input is `Incomplete`; another version fails `verify`; a success has the status of the second byte and an encodable address |
| ResponseV5.ResponseRoundTrip | src/response.rs:180-201 | every reply with a canonical status reads back |
| ResponseV5.ReservedByteIgnored | src/response.rs:193-197 | any value of the reserved byte decodes the same |
| ResponseV5.ResponseSound | src/response.rs:189-201 | every reply read is the encoding of its value followed by the rest, with the ignored reserved byte taken to be 0 |
| ResponseV5.TruncatedResponse | src/response.rs:189-201 | a cut-off reply is `Incomplete`, except an `Eof` error right after the reserved byte or the domain-name tag |
| Server.V5Success | src/server.rs:148-152 | the success reply's address is encodable whenever the request's was |
| Server.SelectMethod | src/server.rs:105-109 | "no authentication" is chosen exactly when the client offers it; otherwise the choice is NotAcceptable |
| Server.V4Failure | src/server.rs:62-69 | defines the SOCKS4 reply to a refused connect: Rejected, the requested IPv4 address or 0.0.0.0 for a name, and port 0 |
| Server.V4Success | src/server.rs:77-90 | defines the SOCKS4 reply to a connect that succeeded: the peer's IPv4 address and port; 0.0.0.0 with the requested port for an IPv6 peer; the requested address (0.0.0.0 for a name) and port when the peer address is unknown |
| Server.V4Reply | src/server.rs:59-90 | the SOCKS4 reply says Success exactly when the connect succeeded; a refused connect gets Rejected with port 0 |
| Server.V5Failure | src/server.rs:136-140 | defines the SOCKS5 reply to a refused connect: GeneralFailure, echoing the requested address and port |
| Server.V5Reply | src/server.rs:133-157 | the SOCKS5 reply says Success exactly when the connect succeeded; a refused connect gets GeneralFailure echoing the requested address and port |
| Server.DialOutcome | src/server.rs:133-163 | defines how a run ends once the connect was tried: the relay after a connect, the connect error after a refusal |
| Server.Serve | src/server.rs:37-48 | defines the whole run of `handle_client` over the chunks the client sends: the reads it takes, the replies it writes, the destination it dials and how it ends; its properties are stated by `OutcomeIsReported`, `NoAuthenticationOnly`, `BadVersionGetsNoReply` and `AcceptedRequestV5` |
| Server.ServeV4 | src/server.rs:50-96 | defines the run of `handle_client_v4` on the first read; stated by `ServeV4Reported` |
| Server.ServeV5 | src/server.rs:101-121 | defines the run of `handle_client_v5` on the first read and the chunks after it; stated by `ServeV5Reported` and `ServeV5Accepts` |
| Server.RequestPhaseV5 | src/server.rs:123-163 | defines the request phase of `handle_client_v5`: one read, the request, the connect and its reply; stated by `RequestPhaseV5Reported` |
| Server.V5ReplyStatus | src/server.rs:133-157 | the SOCKS5 reply encodes; its status is Success exactly when the connect succeeded, and GeneralFailure when it was refused |
| Server.HandleClient | src/server.rs:37-48 | one read, then dispatch on the version; a bad version aborts with InvalidData; the writes and reads are exactly those of `Serve` |
| Server.ServeNoVersion | src/server.rs:40-42 | a first read that does not decode as a version ends the run after that read, with no reply and InvalidData |
| Server.ServeSocks4 | src/server.rs:44-45 | version 4 hands the first read to the SOCKS4 handler; the run takes one more read than that handler's |
| Server.ServeSocks5 | src/server.rs:44-46 | version 5 hands the first read and the later chunks to the SOCKS5 handler; the run takes one more read than that handler's |
| Server.ServeV5Accepts | src/server.rs:104-125 | an offer that is accepted is answered with the chosen method, followed by whatever the request phase writes |
| Server.AcceptedRequestV5 | src/server.rs:101-160 | an accepted offer of "no authentication" and a request that decodes: two reads, the method reply then the reply to the connect, and the requested destination is dialed |
| Server.HandleClientV4 | src/server.rs:50-93 | decodes the request, dials it, writes the one reply `V4Reply` and returns the outcome; a bad request aborts with InvalidData and writes nothing |
| Server.HandleClientV5 | src/server.rs:101-121 | writes the method choice first; with NotAcceptable it aborts with Unsupported and reads no more |
| Server.HandleRequestV5 | src/server.rs:123-160 | reads the request into the cleared buffer, dials it and writes the one reply `V5Reply` |
| Server.V4ReplyDecodes | src/server.rs:59-93 | the SOCKS4 reply reads back whole, as Success after a connect and Rejected after a refusal |
| Server.V5ReplyDecodes | src/server.rs:133-160 | the SOCKS5 reply reads back whole, as Success after a connect and GeneralFailure after a refusal |
| Server.ServeV4Reported | src/server.rs:50-96 | at most one reply; relay only after a Success reply, the connect error only after a Rejected one |
| Server.RequestPhaseV5Reported | src/server.rs:123-163 | at most one reply in the request phase, and it matches the outcome |
| Server.ServeV5Reported | src/server.rs:101-163 | at most two replies; the last one matches the outcome |
| Server.OutcomeIsReported | src/server.rs:37-48 | whatever arrives and whatever the network does: at most two writes; a first read without a version byte gets nothing; otherwise relay starts only after a Success reply and a failed connect is reported |
| Server.NoAuthenticationOnly | src/server.rs:105-121 | "no authentication" is chosen exactly when offered; otherwise the one write is `05 FF`, nothing is dialed and the request is never read |
| Server.BadVersionGetsNoReply | src/server.rs:40-42 | a first byte other than 4 or 5 gets no reply and aborts with InvalidData |
| Client.Endpoint | src/client.rs:22-41 | `into_socks_addr` keeps the port; a socket address gives the IPv4 or IPv6 address of its own IP (`From<IpAddr>`), a host name gives `DomainName` of that same name; the result is a domain name exactly for a name target |
| Client.V4Verdict | src/client.rs:74-85 | a decoded SOCKS4 reply gives the tunnel exactly when its status is Success; a reply that does not decode is an InvalidData error |
| Client.V5Verdict | src/client.rs:128-139 | a decoded SOCKS5 reply gives the tunnel exactly when its status is Success; a reply that does not decode is an InvalidData error |
| Client.ClientV4Run | src/client.rs:55-86 | `connect_v4` reads once for each message it writes, and writes nothing exactly when the target is IPv6 |
| Client.V5Handshake | src/client.rs:88-140 | `connect_v5` first writes its offer, reads once for each message it writes, writes at most two, and reaches a tunnel only after sending the offer and the request |
| Client.ClientV5Run | src/client.rs:88-140 | defines `connect_v5` with each reply decoded from the bytes just read: the handshake on the first two chunks |
| Client.HelloFailure | src/client.rs:99-114 | the method-reply stage ends the connect unless the reply decodes and accepts "no authentication": with Unsupported for another method, InvalidData for a reply that does not decode |
| Client.ClientV5RunAsWritten | src/client.rs:88-140 | defines `connect_v5` as written for every target: the handshake on the stale views of the buffer, each a prefix of what the client last sent; the target is encoded, and a name over 255 bytes panics, only after the method reply accepts; stated by `AsWrittenNeverTunnels` and `StaleReplyNeverTunnels` |
| Client.StaleHelloNeverAccepts | src/client.rs:95-101 | the method reply decoded from the stale buffer succeeds exactly when two or more bytes arrive, and then reads GSSAPI |
| Client.StaleReplyNeverTunnels | src/client.rs:123-132 | the reply decoded from the stale buffer after the request never has status Success |
| Client.AsWrittenNeverTunnels | src/client.rs:88-114 | for every target, a name of any length included, `connect_v5` as written sends only the method offer and always fails: Unsupported on a reply of 2+ bytes, InvalidData otherwise; it never reaches the encoder that could panic |
| Client.Client.New | src/client.rs:47-49 | a new client speaks SOCKS5 |
| Client.Client.NewWithVersion | src/client.rs:51-53 | a client keeps the version it is given |
| Client.Client.ConnectV4 | src/client.rs:55-86 | an IPv6 target fails before any write; otherwise one CONNECT request with no user id, one read, and a tunnel exactly when the reply decodes with Success |
| Client.Client.ConnectV5AsWritten | src/client.rs:88-114 | the code as written, with the method reply read into a buffer still holding the offer, behaves as `ClientV5RunAsWritten`, for every target |
| Client.Client.ConnectV5 | src/client.rs:88-140 | with the buffer cleared before each read, behaves as `ClientV5Run`: offer, method reply, request, reply |
| Client.Client.HelloStageV5 | src/client.rs:91-102 | sends the offer of "no authentication" only, reads one reply into the cleared buffer and decodes it as the method reply |
| Client.V5HandshakeAccepted | src/client.rs:105-132 | once "no authentication" is accepted, the client sends its request and its outcome is the verdict on the reply |
| Client.Client.RequestStageV5 | src/client.rs:116-132 | sends the CONNECT request, reads one reply and judges it |
| Client.Client.Connect | src/client.rs:142-147 | dispatches on the client's version: SOCKS4 behaves as `ClientV4Run`, SOCKS5 as `ClientV5RunAsWritten` (the `connect_v5` of the source, which never tunnels), for every target; the outcome, the writes and the reads are those of the run |
| Client.ServerAcceptsOffer | src/client.rs:92-97 | the server reads the client's offer as "no authentication" alone and chooses it |
| Client.ServerAnswersV5 | src/client.rs:88-125 | the server reads both SOCKS5 messages, dials the target and writes the method choice and the reply |
| Client.ClientReadsV5 | src/client.rs:99-139 | the corrected client reads the server's acceptance and any reply, and judges it by its status |
| Client.V5Interop | src/client.rs:88-140 | client meets server: both read two messages, the target is dialed, the tunnel opens exactly when the connect succeeds, a refusal reads as GeneralFailure, and the as-written client fails even so |
| Client.ServerAnswersV4 | src/client.rs:55-70 | the server reads the SOCKS4 request, dials the target and writes one reply |
| Client.V4Interop | src/client.rs:55-86 | client meets server: the target is dialed, the tunnel opens exactly when the connect succeeds, a refusal reads as Rejected |
| Client.V4RefusesIpv6 | src/client.rs:58-59 | an IPv6 target fails with Unsupported before anything is written |
| Client.ClientV5Decisions | src/client.rs:105-139 | a malformed method reply is InvalidData; any method but "no authentication" is Unsupported and no request is sent; the tunnel opens exactly when the reply decodes with Success |

## Left out

- tokio I/O. These are not modelled:
  - the accept loop and `tokio::spawn` (src/server.rs:25-35);
  - `copy_bidirectional` (src/server.rs:96,163): `Relayed` marks where the relay would start;
  - I/O errors of `read_buf` and `write_all`.

  `TcpStream::connect` and `peer_addr` are the `network` parameter.
- Stream fragmentation. Each `read_buf` is taken to return exactly one message the peer wrote. Reads of zero bytes are modelled as an empty chunk once the peer has finished.
- Concurrency between connections. Nothing in a handshake depends on it.
- nom's `VerboseError` chains and the text `map_nom_error` formats. An error keeps its kind and at most one context label. `Wire.Parsed` stands for nom's `IResult` without the error's input position.
- `from_utf8` is the RFC 3629 well-formedness predicate `Wire.ValidUtf8`, not a model of the standard library.
- The `Display` impls and `log` calls are formatting only.
- src/lib.rs is not part of this model: its `Wire` trait and `impl_encoder_decoder!` wrappers are one-line delegations.
- The `Version` enum with both Socks4 and Socks5 is used by src/request.rs, src/server.rs and src/client.rs but is not among the source files. `Versions` models it after the streaming `verify` decoder of src/common.rs.
- `Ipv4Addr`/`Ipv6Addr` `encode_into`/`decode` are not among the source files. They are modelled as 4 and 16 octets in network order, read with the streaming `take`, as in src/common/address_type.rs:39-69.
- Client.Client.ConnectV5AsWritten: models only the method-reply stage. That stage always fails, so the request stage after it (src/client.rs:116-139) can never run in this method. Its stale read is stated separately by `Client.StaleReplyNeverTunnels` and is part of `Client.ClientV5RunAsWritten`.
- The three `IntoSocksAddr` impls (src/client.rs:22-41) are one function, `Client.Endpoint`, on a `Target` that is a socket address or a name and port: the `(String, u16)` and `(&str, u16)` impls both become `NameTarget`.
- A name longer than 255 bytes, or more than 255 offered methods, makes `expect` panic. The encoders require the bound instead of modelling the panic. `Client.ClientV5RunAsWritten` names the panic as the outcome `Panicked`, and `Client.AsWrittenNeverTunnels` shows it is never reached. The corrected `Client.Client.ConnectV5` requires a name of at most 255 bytes.

## Findings

| source | as written | input that shows it | evidently intended | confidence | as-written member | corrected member |
|---|---|---|---|---|---|---|
| src/client.rs:95-101 | `connect_v5` reads the method reply into the buffer that still holds its `05 01 00` offer, then decodes `&buffer[..n]`. That is a prefix of its own offer, so two reply bytes or more decode as the proxy choosing GSSAPI (byte 1), and the connect fails with Unsupported | the proxy's acceptance `05 00` | clear the buffer before the read, as src/client.rs:72 does for SOCKS4, so that the reply itself is decoded | high; not executed | Client.AsWrittenNeverTunnels | Client.V5Interop |
| src/client.rs:123-129 | the reply to the request is read into the buffer still holding the request, and `&buffer[..n]` is a prefix of that request, whose second byte, the CONNECT command 1, reads as status GeneralFailure | the proxy's success reply `05 00 00 01 7f 00 00 01 00 50` | clear the buffer before the read, so that the reply itself is decoded | high; not executed | Client.StaleReplyNeverTunnels | Client.ClientReadsV5 |
