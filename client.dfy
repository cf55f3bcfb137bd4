/** The client side of the handshake (src/client.rs): `Client` wraps a
    stream and a protocol version, and `connect` asks the proxy for a
    tunnel to a target. */
module Client {
  import opened Wire
  import opened Net
  import opened Versions
  import opened Transport
  import CommonV4
  import CommonV5
  import A = CommonV5Address
  import RequestV4
  import RequestV5
  import ResponseV4
  import ResponseV5
  import Server

  /** What `connect` accepts: a socket address, or a host name and a port. */
  datatype Target = SocketTarget(socket: SocketAddr) | NameTarget(name: Utf8String, port: uint16)

  /** `IntoSocksAddr::into_socks_addr` */
  function Endpoint(t: Target): (d: Server.Destination)
    ensures d.addr.DomainName? <==> t.NameTarget?
    ensures d.port == (if t.SocketTarget? then t.socket.port else t.port)
    ensures t.SocketTarget? ==> (d.addr.IPv4? <==> t.socket.SocketV4?)
    ensures t.SocketTarget? ==> d.addr == A.FromIpAddr(t.socket.Ip())
    ensures t.NameTarget? ==> d.addr == A.DomainName(t.name)
  {
    match t
    case SocketTarget(sa) => Server.Destination(A.FromIpAddr(sa.Ip()), sa.port)
    case NameTarget(n, port) => Server.Destination(A.DomainName(n), port)
  }

  /** The `io::Error` `connect` returns: of the given kind, or of kind
      `Other` naming the status the proxy refused with. */
  datatype ClientError =
    | Io(kind: IoErrorKind)
    | RejectedV4(status4: ResponseV4.Status)
    | RejectedV5(status5: ResponseV5.Status)

  /** How `connect` ends: with the tunnel, with an error, or in a panic of
      an encoder's `expect`, after which it does not return at all. */
  datatype ClientOutcome = Tunnelled | Failed(error: ClientError) | Panicked

  /** One `connect` as seen from outside: the reads done, the byte strings
      written and the outcome. */
  datatype ClientRun = ClientRun(consumed: nat, sent: seq<seq<uint8>>, outcome: ClientOutcome)

  /** What a decoded SOCKS4 reply means for `connect_v4`. */
  function V4Verdict(reply: Parsed<ResponseV4.Response>): (o: ClientOutcome)
    ensures o == Tunnelled <==> reply.Done? && reply.value.status == ResponseV4.Success
    ensures !reply.Done? ==> o == Failed(Io(InvalidData))
  {
    match reply
    case Done(_, r) => if r.status == ResponseV4.Success then Tunnelled else Failed(RejectedV4(r.status))
    case _ => Failed(Io(InvalidData))
  }

  /** What a decoded SOCKS5 reply means for `connect_v5`. */
  function V5Verdict(reply: Parsed<ResponseV5.Response>): (o: ClientOutcome)
    ensures o == Tunnelled <==> reply.Done? && reply.value.status == ResponseV5.Success
    ensures !reply.Done? ==> o == Failed(Io(InvalidData))
  {
    match reply
    case Done(_, r) => if r.status == ResponseV5.Success then Tunnelled else Failed(RejectedV5(r.status))
    case _ => Failed(Io(InvalidData))
  }

  /** SOCKS4 cannot carry an IPv6 target. */
  predicate V4Reachable(t: Target) {
    !Endpoint(t).addr.IPv6?
  }

  /** The CONNECT request `connect_v4` sends, with no user id. */
  function V4RequestBytes(t: Target): seq<uint8>
    requires V4Reachable(t)
  {
    var d := Endpoint(t);
    RequestV4.RequestEncoding(RequestV4.Request(CommonV4.Connect, CommonV4.TryFromV5(d.addr).value, d.port, Option.None))
  }

  /** `connect_v4`: an IPv6 target fails before anything is sent. */
  function ClientV4Run(replies: seq<seq<uint8>>, t: Target): (run: ClientRun)
    ensures run.consumed == |run.sent| <= 1
    ensures run.sent == [] <==> !V4Reachable(t)
  {
    if !V4Reachable(t) then ClientRun(0, [], Failed(Io(Unsupported)))
    else ClientRun(1, [V4RequestBytes(t)], V4Verdict(ResponseV4.DecodeResponse(ChunkAt(replies, 0))))
  }

  /** The method offer `connect_v5` sends: no authentication only. */
  const HelloBytes: seq<uint8> := RequestV5.HelloEncoding(RequestV5.Hello([CommonV5.AuthenticationMethod.None]))

  /** The SOCKS5 encoder panics on a domain name longer than 255 bytes. */
  predicate V5Sendable(t: Target) {
    A.Encodable(Endpoint(t).addr)
  }

  /** The CONNECT request `connect_v5` sends. */
  function V5RequestBytes(t: Target): seq<uint8>
    requires V5Sendable(t)
  {
    var d := Endpoint(t);
    RequestV5.RequestEncoding(RequestV5.Request(CommonV5.Connect, d.addr, d.port))
  }

  /** The method-reply stage of `connect_v5`, given the bytes the reply is
      decoded from: the error that ends the connect, or nothing once the
      proxy accepts "no authentication". */
  function HelloFailure(helloView: seq<uint8>): (f: Option<ClientOutcome>)
    ensures f.None? <==> ResponseV5.DecodeHello(helloView).Done?
                         && ResponseV5.DecodeHello(helloView).value.choice == CommonV5.AuthenticationMethod.None
    ensures f.Some? ==> f.value == Failed(Io(if ResponseV5.DecodeHello(helloView).Done? then Unsupported else InvalidData))
  {
    match ResponseV5.DecodeHello(helloView)
    case Done(_, h) =>
      if h.choice != CommonV5.AuthenticationMethod.None then Some(Failed(Io(Unsupported))) else Option.None
    case _ => Some(Failed(Io(InvalidData)))
  }

  /** The two stages of `connect_v5`, given the bytes each reply is decoded
      from: the method reply, which must accept no authentication, then the
      reply to the request. */
  function V5Handshake(helloView: seq<uint8>, replyView: seq<uint8>, t: Target): (run: ClientRun)
    requires V5Sendable(t)
    ensures run.consumed == |run.sent| && 1 <= |run.sent| <= 2 && run.sent[0] == HelloBytes
    ensures run.outcome == Tunnelled ==> run.sent == [HelloBytes, V5RequestBytes(t)]
  {
    var failure := HelloFailure(helloView);
    if failure.Some? then ClientRun(1, [HelloBytes], failure.value)
    else ClientRun(2, [HelloBytes, V5RequestBytes(t)], V5Verdict(ResponseV5.DecodeResponse(replyView)))
  }

  /** Once the proxy accepts "no authentication", the client sends its
      request and judges the reply. */
  lemma V5HandshakeAccepted(helloView: seq<uint8>, replyView: seq<uint8>, t: Target)
    requires V5Sendable(t)
    requires ResponseV5.DecodeHello(helloView).Done?
    requires ResponseV5.DecodeHello(helloView).value.choice == CommonV5.AuthenticationMethod.None
    ensures V5Handshake(helloView, replyView, t)
            == ClientRun(2, [HelloBytes, V5RequestBytes(t)], V5Verdict(ResponseV5.DecodeResponse(replyView)))
  {
  }

  /** `connect_v5` with each reply decoded from the bytes just read. */
  function ClientV5Run(replies: seq<seq<uint8>>, t: Target): ClientRun
    requires V5Sendable(t)
  {
    V5Handshake(ChunkAt(replies, 0), ChunkAt(replies, 1), t)
  }

  /** What `&buffer[..n]` holds when the buffer held `written` before a read
      appended the `n` bytes of `chunk`. */
  function StaleView(written: seq<uint8>, chunk: seq<uint8>): seq<uint8> {
    (written + chunk)[..|chunk|]
  }

  /** `connect_v5` as written: the buffer still holds the message just sent
      when each reply is read into it, and its first `n` bytes are decoded.
      The target is encoded only after the method reply accepts "no
      authentication", so only then can a name over 255 bytes panic. */
  function ClientV5RunAsWritten(replies: seq<seq<uint8>>, t: Target): ClientRun
  {
    var helloView := StaleView(HelloBytes, ChunkAt(replies, 0));
    var failure := HelloFailure(helloView);
    if failure.Some? then ClientRun(1, [HelloBytes], failure.value)
    else if !V5Sendable(t) then ClientRun(1, [HelloBytes], Panicked)
    else V5Handshake(helloView, StaleView(V5RequestBytes(t), ChunkAt(replies, 1)), t)
  }

  /** The stale view of the method reply is never an acceptance of "no
      authentication": it is a prefix of the client's own offer. */
  lemma StaleHelloNeverAccepts(chunk: seq<uint8>)
    ensures var h := ResponseV5.DecodeHello(StaleView(HelloBytes, chunk));
            && (h.Done? <==> |chunk| >= 2)
            && (h.Done? ==> h.value.choice == CommonV5.Gssapi)
  {
    var seen := StaleView(HelloBytes, chunk);
    assert HelloBytes == [5, 1, 0];
    if |chunk| >= 2 {
      assert seen[..2] == [5, 1];
    } else if |chunk| == 1 {
      assert seen == [5];
    } else {
      assert seen == [];
    }
  }

  /** The second stale read, had the first one passed, would not grant a
      tunnel either: the bytes decoded are a prefix of the client's own
      request, whose second byte, the CONNECT command 1, reads as the status
      "general failure". */
  lemma StaleReplyNeverTunnels(t: Target, chunk: seq<uint8>)
    requires V5Sendable(t)
    ensures V5Verdict(ResponseV5.DecodeResponse(StaleView(V5RequestBytes(t), chunk))) != Tunnelled
  {
    var view := StaleView(V5RequestBytes(t), chunk);
    var r := ResponseV5.DecodeResponse(view);
    if r.Done? {
      assert view[1] == V5RequestBytes(t)[1] == 1;
    }
  }

  class Client {
    const stream: Stream
    const version: Version

    /** `Client::new`: SOCKS5. */
    constructor New(stream: Stream)
      ensures this.stream == stream && version == Socks5
    {
      this.stream := stream;
      version := Socks5;
    }

    /** `Client::new_with_version` */
    constructor NewWithVersion(stream: Stream, version: Version)
      ensures this.stream == stream && this.version == version
    {
      this.stream := stream;
      this.version := version;
    }

    /** `connect_v4` */
    method ConnectV4(t: Target) returns (outcome: ClientOutcome)
      modifies stream
      ensures var run := ClientV4Run(old(stream.pending), t);
              && outcome == run.outcome
              && stream.sent == old(stream.sent) + run.sent && stream.pending == Drop(old(stream.pending), run.consumed)
    {
      var d := Endpoint(t);
      var addr := CommonV4.TryFromV5(d.addr);
      if addr.Err? {
        assert Drop(old(stream.pending), 0) == old(stream.pending);
        return Failed(Io(addr.error));
      }
      var buffer := new Buffer();
      RequestV4.EncodeRequestInto(RequestV4.Request(CommonV4.Connect, addr.value, d.port, Option.None), buffer);
      assert buffer.bytes == V4RequestBytes(t);
      stream.WriteAll(buffer.bytes);
      buffer.Clear();
      var n := stream.ReadBuf(buffer);
      assert buffer.bytes[..n] == ChunkAt(old(stream.pending), 0);
      outcome := V4Verdict(ResponseV4.DecodeResponse(buffer.bytes[..n]));
    }

    /** `connect_v5` as written: the buffer is not cleared before the
        method reply is read into it. The request stage that follows is
        never reached. */
    method ConnectV5AsWritten(t: Target) returns (outcome: ClientOutcome)
      modifies stream
      ensures var run := ClientV5RunAsWritten(old(stream.pending), t);
              && outcome == run.outcome
              && stream.sent == old(stream.sent) + run.sent && stream.pending == Drop(old(stream.pending), run.consumed)
    {
      var buffer := new Buffer();
      RequestV5.EncodeHelloInto(RequestV5.Hello([CommonV5.AuthenticationMethod.None]), buffer);
      assert buffer.bytes == HelloBytes;
      stream.WriteAll(buffer.bytes);
      var n := stream.ReadBuf(buffer);
      assert buffer.bytes[..n] == StaleView(HelloBytes, ChunkAt(old(stream.pending), 0));
      var hello := ResponseV5.DecodeHello(buffer.bytes[..n]);
      StaleHelloNeverAccepts(ChunkAt(old(stream.pending), 0));
      if !hello.Done? {
        return Failed(Io(InvalidData));
      }
      if hello.value.choice != CommonV5.AuthenticationMethod.None {
        return Failed(Io(Unsupported));
      }
      assert false;
    }

    /** `connect_v5` with the buffer cleared before each read, so that each
        reply is decoded from the bytes just read. */
    method ConnectV5(t: Target) returns (outcome: ClientOutcome)
      requires V5Sendable(t)
      modifies stream
      ensures var run := ClientV5Run(old(stream.pending), t);
              && outcome == run.outcome
              && stream.sent == old(stream.sent) + run.sent && stream.pending == Drop(old(stream.pending), run.consumed)
    {
      var buffer := new Buffer();
      var hello := HelloStageV5(buffer);
      if !hello.Done? || hello.value.choice != CommonV5.AuthenticationMethod.None {
        outcome := if hello.Done? then Failed(Io(Unsupported)) else Failed(Io(InvalidData));
        return;
      }
      V5HandshakeAccepted(ChunkAt(old(stream.pending), 0), ChunkAt(old(stream.pending), 1), t);
      outcome := RequestStageV5(t, buffer);
      DropDrop(old(stream.pending), 1, 1);
      AppendAssoc(old(stream.sent), [HelloBytes], [V5RequestBytes(t)]);
      assert [HelloBytes] + [V5RequestBytes(t)] == [HelloBytes, V5RequestBytes(t)];
    }

    /** The first stage of `connect_v5`: offer "no authentication", read
        the method reply into the cleared buffer and decode it. */
    method HelloStageV5(buffer: Buffer) returns (hello: Parsed<ResponseV5.Hello>)
      modifies stream, buffer
      ensures hello == ResponseV5.DecodeHello(ChunkAt(old(stream.pending), 0))
      ensures stream.sent == old(stream.sent) + [HelloBytes] && stream.pending == Drop(old(stream.pending), 1)
    {
      buffer.Clear();
      RequestV5.EncodeHelloInto(RequestV5.Hello([CommonV5.AuthenticationMethod.None]), buffer);
      assert buffer.bytes == HelloBytes;
      stream.WriteAll(buffer.bytes);
      buffer.Clear();
      var n := stream.ReadBuf(buffer);
      assert buffer.bytes[..n] == ChunkAt(old(stream.pending), 0);
      hello := ResponseV5.DecodeHello(buffer.bytes[..n]);
    }

    /** The second stage of `connect_v5`: send the request, read the reply
        into the cleared buffer and judge it. */
    method RequestStageV5(t: Target, buffer: Buffer) returns (outcome: ClientOutcome)
      requires V5Sendable(t)
      modifies stream, buffer
      ensures outcome == V5Verdict(ResponseV5.DecodeResponse(ChunkAt(old(stream.pending), 0)))
      ensures stream.sent == old(stream.sent) + [V5RequestBytes(t)] && stream.pending == Drop(old(stream.pending), 1)
    {
      var d := Endpoint(t);
      buffer.Clear();
      RequestV5.EncodeRequestInto(RequestV5.Request(CommonV5.Connect, d.addr, d.port), buffer);
      assert buffer.bytes == V5RequestBytes(t);
      stream.WriteAll(buffer.bytes);
      buffer.Clear();
      var n := stream.ReadBuf(buffer);
      assert buffer.bytes[..n] == ChunkAt(old(stream.pending), 0);
      outcome := V5Verdict(ResponseV5.DecodeResponse(buffer.bytes[..n]));
    }

    /** `connect`: the handshake of the client's version, with `connect_v5`
        as written. */
    method Connect(t: Target) returns (outcome: ClientOutcome)
      modifies stream
      ensures version == Socks4 ==>
                var run := ClientV4Run(old(stream.pending), t);
                && outcome == run.outcome
                && stream.sent == old(stream.sent) + run.sent && stream.pending == Drop(old(stream.pending), run.consumed)
      ensures version == Socks5 ==>
                var run := ClientV5RunAsWritten(old(stream.pending), t);
                && outcome == run.outcome
                && stream.sent == old(stream.sent) + run.sent && stream.pending == Drop(old(stream.pending), run.consumed)
    {
      if version == Socks4 {
        outcome := ConnectV4(t);
      } else {
        outcome := ConnectV5AsWritten(t);
      }
    }
  }

  /** As written, `connect_v5` never gets a tunnel: whatever the proxy
      replies, the bytes decoded are a prefix of its own `05 01 00`, so a
      reply of two bytes or more reads as the proxy choosing GSSAPI, and a
      shorter one as a malformed reply. Only the method offer is sent, so
      the target is never encoded, whatever its length. */
  lemma AsWrittenNeverTunnels(replies: seq<seq<uint8>>, t: Target)
    ensures ClientV5RunAsWritten(replies, t)
            == ClientRun(1, [HelloBytes], Failed(Io(if |ChunkAt(replies, 0)| >= 2 then Unsupported else InvalidData)))
  {
    StaleHelloNeverAccepts(ChunkAt(replies, 0));
  }

  /** The server reads the client's offer as "no authentication" only, and
      accepts it. */
  lemma ServerAcceptsOffer()
    ensures RequestV5.DecodeHello(HelloBytes) == Done([], RequestV5.Hello([CommonV5.AuthenticationMethod.None]))
    ensures Server.SelectMethod([CommonV5.AuthenticationMethod.None]) == CommonV5.AuthenticationMethod.None
    ensures DecodeVersion(HelloBytes) == Done(HelloBytes[1..], Socks5)
  {
    RequestV5.HelloRoundTrip(RequestV5.Hello([CommonV5.AuthenticationMethod.None]), []);
    assert HelloBytes + [] == HelloBytes;
  }

  /** What the server does with the two messages of a SOCKS5 client. */
  lemma {:induction false} ServerAnswersV5(t: Target, network: Server.Destination -> Server.Dial)
    requires V5Sendable(t)
    ensures var d := Endpoint(t);
            var req := RequestV5.Request(CommonV5.Connect, d.addr, d.port);
            Server.Serve([HelloBytes, V5RequestBytes(t)], network)
            == Server.ServerRun(2, [Server.MethodReply(CommonV5.AuthenticationMethod.None),
                                    ResponseV5.ResponseEncoding(Server.V5Reply(req, network(d)))],
                                Some(d), Server.DialOutcome(network(d)))
  {
    var d := Endpoint(t);
    var req := RequestV5.Request(CommonV5.Connect, d.addr, d.port);
    ServerAcceptsOffer();
    RequestV5.RequestRoundTrip(req, []);
    assert V5RequestBytes(t) + [] == V5RequestBytes(t);
    Server.AcceptedRequestV5(HelloBytes, V5RequestBytes(t), network);
  }

  /** What the SOCKS5 client makes of the server's acceptance and a reply. */
  lemma {:induction false} ClientReadsV5(t: Target, r: ResponseV5.Response)
    requires V5Sendable(t) && A.Encodable(r.addr) && ResponseV5.CanonicalStatus(r.status)
    ensures ClientV5Run([Server.MethodReply(CommonV5.AuthenticationMethod.None), ResponseV5.ResponseEncoding(r)], t)
            == ClientRun(2, [HelloBytes, V5RequestBytes(t)], V5Verdict(Done([], r)))
  {
    var accept := Server.MethodReply(CommonV5.AuthenticationMethod.None);
    ResponseV5.HelloRoundTrip(ResponseV5.Hello(CommonV5.AuthenticationMethod.None), []);
    assert accept + [] == accept;
    ResponseV5.ResponseRoundTrip(r, []);
    assert ResponseV5.ResponseEncoding(r) + [] == ResponseV5.ResponseEncoding(r);
  }

  /** The SOCKS5 client meets the server: the server reads exactly the two
      messages the client sends and dials the client's target; the client
      gets its tunnel exactly when the connect succeeds, and the general
      failure otherwise; the client as written fails even then. */
  lemma {:induction false} V5Interop(t: Target, network: Server.Destination -> Server.Dial)
    requires V5Sendable(t)
    ensures var srv := Server.Serve([HelloBytes, V5RequestBytes(t)], network);
            var cl := ClientV5Run(srv.sent, t);
            && cl.sent == [HelloBytes, V5RequestBytes(t)]
            && srv.consumed == 2 && cl.consumed == 2
            && srv.dialed == Some(Endpoint(t))
            && (network(Endpoint(t)).Connected? <==> srv.outcome == Server.Relayed)
            && (network(Endpoint(t)).Connected? <==> cl.outcome == Tunnelled)
            && (network(Endpoint(t)).Refused? ==> cl.outcome == Failed(RejectedV5(ResponseV5.GeneralFailure)))
            && ClientV5RunAsWritten(srv.sent, t).outcome == Failed(Io(Unsupported))
  {
    var d := Endpoint(t);
    var req := RequestV5.Request(CommonV5.Connect, d.addr, d.port);
    var reply := Server.V5Reply(req, network(d));
    ServerAnswersV5(t, network);
    var srv := Server.Serve([HelloBytes, V5RequestBytes(t)], network);
    assert srv.sent == [Server.MethodReply(CommonV5.AuthenticationMethod.None), ResponseV5.ResponseEncoding(reply)];
    Server.V5ReplyStatus(req, network(d));
    ClientReadsV5(t, reply);
    assert ClientV5Run(srv.sent, t).outcome == V5Verdict(Done([], reply));
    AsWrittenNeverTunnels(srv.sent, t);
    assert |ChunkAt(srv.sent, 0)| == 2;
  }

  /** What the server does with the request of a SOCKS4 client. */
  lemma {:induction false} ServerAnswersV4(t: Target, network: Server.Destination -> Server.Dial)
    requires V4Reachable(t)
    requires t.NameTarget? ==> RequestV4.IsWireString(t.name)
    ensures var d := Endpoint(t);
            var req := RequestV4.Request(CommonV4.Connect, CommonV4.TryFromV5(d.addr).value, d.port, Option.None);
            Server.Serve([V4RequestBytes(t)], network)
            == Server.ServerRun(1, [ResponseV4.ResponseEncoding(Server.V4Reply(req, network(d)))],
                                Some(d), Server.DialOutcome(network(d)))
  {
    var d := Endpoint(t);
    var req := RequestV4.Request(CommonV4.Connect, CommonV4.TryFromV5(d.addr).value, d.port, Option.None);
    var bytes := V4RequestBytes(t);
    assert RequestV4.DecodeString([]) == Reject(Tag);
    RequestV4.RequestRoundTrip(req, []);
    assert bytes + [] == bytes;
    assert RequestV4.DecodeRequest(bytes) == Done([], req);
    assert DecodeVersion(bytes) == Done(bytes[1..], Socks4);
    assert ChunkAt([bytes], 0) == bytes;
    Server.ServeSocks4([bytes], network);
  }

  /** The SOCKS4 client meets the server: the server dials the client's
      target, and the client gets its tunnel exactly when the connect
      succeeds, and the rejection otherwise. */
  lemma {:induction false} V4Interop(t: Target, network: Server.Destination -> Server.Dial)
    requires V4Reachable(t)
    requires t.NameTarget? ==> RequestV4.IsWireString(t.name)
    ensures var srv := Server.Serve([V4RequestBytes(t)], network);
            var cl := ClientV4Run(srv.sent, t);
            && cl.sent == [V4RequestBytes(t)]
            && srv.consumed == 1 && cl.consumed == 1
            && srv.dialed == Some(Endpoint(t))
            && (network(Endpoint(t)).Connected? <==> srv.outcome == Server.Relayed)
            && (network(Endpoint(t)).Connected? <==> cl.outcome == Tunnelled)
            && (network(Endpoint(t)).Refused? ==> cl.outcome == Failed(RejectedV4(ResponseV4.Rejected)))
  {
    var d := Endpoint(t);
    var req := RequestV4.Request(CommonV4.Connect, CommonV4.TryFromV5(d.addr).value, d.port, Option.None);
    ServerAnswersV4(t, network);
    Server.V4ReplyDecodes(req, network(d));
  }

  /** A SOCKS4 connect to an IPv6 target fails before anything is sent. */
  lemma V4RefusesIpv6(replies: seq<seq<uint8>>, t: Target)
    requires Endpoint(t).addr.IPv6?
    ensures ClientV4Run(replies, t) == ClientRun(0, [], Failed(Io(Unsupported)))
  {
  }

  /** The SOCKS5 client's rules: a malformed method reply is invalid data,
      any method but "no authentication" is unsupported and stops before the
      request is sent, and the tunnel is granted exactly when the reply to
      the request decodes with status Success. */
  lemma ClientV5Decisions(replies: seq<seq<uint8>>, t: Target)
    requires V5Sendable(t)
    ensures var h := ResponseV5.DecodeHello(ChunkAt(replies, 0));
            var r := ResponseV5.DecodeResponse(ChunkAt(replies, 1));
            var run := ClientV5Run(replies, t);
            && (!h.Done? ==> run == ClientRun(1, [HelloBytes], Failed(Io(InvalidData))))
            && (h.Done? && h.value.choice != CommonV5.AuthenticationMethod.None ==>
                  run == ClientRun(1, [HelloBytes], Failed(Io(Unsupported))))
            && (run.outcome == Tunnelled <==>
                  h.Done? && h.value.choice == CommonV5.AuthenticationMethod.None
                  && r.Done? && r.value.status == ResponseV5.Success)
  {
  }
}
