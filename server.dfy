/** The server side of the handshake (src/server.rs): one client connection,
    from the first read to the point where the relay would start. The network
    is a parameter: `network(d)` is what `TcpStream::connect` to `d` gives,
    a refusal or a connection together with what `peer_addr` reports. */
module Server {
  import opened Wire
  import opened Net
  import opened Versions
  import opened Transport
  import CommonV4
  import CommonV5
  import A = CommonV5Address
  import RequestV4
  import RequestV5
  import ResponseV4
  import ResponseV5

  /** What connecting gives: a refusal, or a connection whose `peer_addr`
      is known (`Some`) or an error (`None`). */
  datatype Dial = Refused | Connected(peer: Option<SocketAddr>)

  /** Where the server connects. */
  datatype Destination = Destination(addr: A.AddressType, port: uint16)

  /** How `handle_client` ends: the relay starts, an error is returned after
      a bad message or method, or the connect error is returned. */
  datatype Outcome = Relayed | Aborted(kind: IoErrorKind) | DialFailed

  /** One connection as seen from outside: the reads done, the byte strings
      written, the destination connected to, and the outcome. */
  datatype ServerRun = ServerRun(consumed: nat, sent: seq<seq<uint8>>, dialed: Option<Destination>, outcome: Outcome)

  /** The method chosen from the client's offer: no authentication if it is
      offered, otherwise "no acceptable methods". */
  function SelectMethod(methods: seq<CommonV5.AuthenticationMethod>): (m: CommonV5.AuthenticationMethod)
    ensures m == CommonV5.AuthenticationMethod.None <==> CommonV5.AuthenticationMethod.None in methods
    ensures m == CommonV5.AuthenticationMethod.None || m == CommonV5.NotAcceptable
  {
    if CommonV5.AuthenticationMethod.None in methods then CommonV5.AuthenticationMethod.None
    else CommonV5.NotAcceptable
  }

  /** The SOCKS4 reply to a refused connect: the requested IPv4 address, or
      0.0.0.0 for a domain name, and port 0. */
  function V4Failure(req: RequestV4.Request): ResponseV4.Response {
    ResponseV4.Response(ResponseV4.Rejected, if req.addr.IPv4? then req.addr.ip4 else Unspecified, 0)
  }

  /** The SOCKS4 reply to a connect that succeeded: the peer's IPv4 address
      and port; 0.0.0.0 and the requested port for an IPv6 peer; the
      requested address (or 0.0.0.0 for a name) and port when the peer
      address is unknown. */
  function V4Success(req: RequestV4.Request, peer: Option<SocketAddr>): ResponseV4.Response {
    match peer
    case Some(SocketV4(ip, port)) => ResponseV4.Response(ResponseV4.Success, ip, port)
    case Some(SocketV6(_, _)) => ResponseV4.Response(ResponseV4.Success, Unspecified, req.port)
    case None =>
      ResponseV4.Response(ResponseV4.Success, if req.addr.IPv4? then req.addr.ip4 else Unspecified, req.port)
  }

  /** The SOCKS5 reply to a refused connect echoes the request. */
  function V5Failure(req: RequestV5.Request): ResponseV5.Response {
    ResponseV5.Response(ResponseV5.GeneralFailure, req.addr, req.port)
  }

  /** The SOCKS5 reply to a connect that succeeded: the peer's address and
      port, or the request's when the peer address is unknown. */
  function V5Success(req: RequestV5.Request, peer: Option<SocketAddr>): (r: ResponseV5.Response)
    ensures A.Encodable(req.addr) ==> A.Encodable(r.addr)
  {
    match peer
    case Some(SocketV4(ip, port)) => ResponseV5.Response(ResponseV5.Success, A.IPv4(ip), port)
    case Some(SocketV6(ip, port)) => ResponseV5.Response(ResponseV5.Success, A.IPv6(ip), port)
    case None => ResponseV5.Response(ResponseV5.Success, req.addr, req.port)
  }

  /** The SOCKS4 reply to the connect. */
  function V4Reply(req: RequestV4.Request, dial: Dial): (r: ResponseV4.Response)
    ensures r.status == ResponseV4.Success <==> dial.Connected?
    ensures dial.Refused? ==> r.status == ResponseV4.Rejected && r.port == 0
  {
    match dial
    case Refused => V4Failure(req)
    case Connected(peer) => V4Success(req, peer)
  }

  /** The SOCKS5 reply to the connect. */
  function V5Reply(req: RequestV5.Request, dial: Dial): (r: ResponseV5.Response)
    ensures r.status == ResponseV5.Success <==> dial.Connected?
    ensures dial.Refused? ==> r.status == ResponseV5.GeneralFailure && r.addr == req.addr && r.port == req.port
  {
    match dial
    case Refused => V5Failure(req)
    case Connected(peer) => V5Success(req, peer)
  }

  /** The SOCKS5 reply encodes, and says success exactly when the connect
      succeeded and the general failure when it was refused. */
  lemma V5ReplyStatus(req: RequestV5.Request, dial: Dial)
    requires A.Encodable(req.addr)
    ensures var r := V5Reply(req, dial);
            && A.Encodable(r.addr) && ResponseV5.CanonicalStatus(r.status)
            && (r.status == ResponseV5.Success <==> dial.Connected?)
            && (dial.Refused? ==> r.status == ResponseV5.GeneralFailure)
  {
  }

  /** How the run ends once the connect has been tried. */
  function DialOutcome(dial: Dial): Outcome {
    if dial.Refused? then DialFailed else Relayed
  }

  /** `handle_client_v4`, given the bytes of the first read. */
  function ServeV4(msg: seq<uint8>, network: Destination -> Dial): ServerRun {
    match RequestV4.DecodeRequest(msg)
    case Done(_, req) =>
      var dest := Destination(CommonV4.ToV5(req.addr), req.port);
      ServerRun(0, [ResponseV4.ResponseEncoding(V4Reply(req, network(dest)))], Some(dest), DialOutcome(network(dest)))
    case _ => ServerRun(0, [], Option.None, Aborted(InvalidData))
  }

  /** The server's method-choice message. */
  function MethodReply(m: CommonV5.AuthenticationMethod): seq<uint8> {
    ResponseV5.HelloEncoding(ResponseV5.Hello(m))
  }

  /** The request phase of `handle_client_v5`, after the method reply:
      one read, the request, the connect and the reply to it. */
  function RequestPhaseV5(pending: seq<seq<uint8>>, network: Destination -> Dial): ServerRun {
    match RequestV5.DecodeRequest(ChunkAt(pending, 0))
    case Done(_, req) =>
      var dest := Destination(req.addr, req.port);
      ServerRun(1, [ResponseV5.ResponseEncoding(V5Reply(req, network(dest)))], Some(dest), DialOutcome(network(dest)))
    case _ => ServerRun(1, [], Option.None, Aborted(InvalidData))
  }

  /** `handle_client_v5`, given the bytes of the first read and the chunks
      still to come. */
  function ServeV5(msg: seq<uint8>, pending: seq<seq<uint8>>, network: Destination -> Dial): ServerRun {
    match RequestV5.DecodeHello(msg)
    case Done(_, hello) =>
      var choice := SelectMethod(hello.methods);
      if choice == CommonV5.NotAcceptable then
        ServerRun(0, [MethodReply(choice)], Option.None, Aborted(Unsupported))
      else
        var phase := RequestPhaseV5(pending, network);
        phase.(sent := [MethodReply(choice)] + phase.sent)
    case _ => ServerRun(0, [], Option.None, Aborted(InvalidData))
  }

  /** `handle_client`: the first read picks the protocol by its version byte. */
  function Serve(incoming: seq<seq<uint8>>, network: Destination -> Dial): ServerRun {
    var first := ChunkAt(incoming, 0);
    var run :=
      match DecodeVersion(first)
      case Done(_, Socks4) => ServeV4(first, network)
      case Done(_, Socks5) => ServeV5(first, Drop(incoming, 1), network)
      case _ => ServerRun(0, [], Option.None, Aborted(InvalidData));
    run.(consumed := run.consumed + 1)
  }

  /** A first read that is no version byte ends the run at once. */
  lemma ServeNoVersion(incoming: seq<seq<uint8>>, network: Destination -> Dial)
    requires !DecodeVersion(ChunkAt(incoming, 0)).Done?
    ensures Serve(incoming, network) == ServerRun(1, [], Option.None, Aborted(InvalidData))
  {
  }

  /** A first read whose version byte is 4 goes to the SOCKS4 handler. */
  lemma ServeSocks4(incoming: seq<seq<uint8>>, network: Destination -> Dial)
    requires DecodeVersion(ChunkAt(incoming, 0)).Done? && DecodeVersion(ChunkAt(incoming, 0)).value == Socks4
    ensures var run := ServeV4(ChunkAt(incoming, 0), network);
            Serve(incoming, network) == run.(consumed := run.consumed + 1)
  {
  }

  /** A first read whose version byte is 5 goes to the SOCKS5 handler,
      which is given the chunks after it. */
  lemma ServeSocks5(incoming: seq<seq<uint8>>, network: Destination -> Dial)
    requires DecodeVersion(ChunkAt(incoming, 0)).Done? && DecodeVersion(ChunkAt(incoming, 0)).value == Socks5
    ensures var run := ServeV5(ChunkAt(incoming, 0), Drop(incoming, 1), network);
            Serve(incoming, network) == run.(consumed := run.consumed + 1)
  {
  }

  /** An offer the server accepts is answered with the chosen method ahead of
      whatever the request phase sends. */
  lemma ServeV5Accepts(msg: seq<uint8>, pending: seq<seq<uint8>>, network: Destination -> Dial)
    requires RequestV5.DecodeHello(msg).Done?
    requires SelectMethod(RequestV5.DecodeHello(msg).value.methods) != CommonV5.NotAcceptable
    ensures var phase := RequestPhaseV5(pending, network);
            ServeV5(msg, pending, network)
            == phase.(sent := [MethodReply(SelectMethod(RequestV5.DecodeHello(msg).value.methods))] + phase.sent)
  {
  }

  /** A SOCKS5 client whose offer the server accepts and whose request it
      reads gets the method reply and the reply to its connect, in two reads,
      and the server dials the requested destination. */
  lemma AcceptedRequestV5(hello: seq<uint8>, request: seq<uint8>, network: Destination -> Dial)
    requires DecodeVersion(hello).Done? && DecodeVersion(hello).value == Socks5
    requires RequestV5.DecodeHello(hello).Done?
    requires SelectMethod(RequestV5.DecodeHello(hello).value.methods) == CommonV5.AuthenticationMethod.None
    requires RequestV5.DecodeRequest(request).Done?
    ensures var req := RequestV5.DecodeRequest(request).value;
            var dest := Destination(req.addr, req.port);
            Serve([hello, request], network)
            == ServerRun(2, [MethodReply(CommonV5.AuthenticationMethod.None), ResponseV5.ResponseEncoding(V5Reply(req, network(dest)))],
                         Some(dest), DialOutcome(network(dest)))
  {
    var incoming := [hello, request];
    var req := RequestV5.DecodeRequest(request).value;
    var dest := Destination(req.addr, req.port);
    var reply := ResponseV5.ResponseEncoding(V5Reply(req, network(dest)));
    var accept := MethodReply(CommonV5.AuthenticationMethod.None);
    assert ChunkAt([request], 0) == request;
    var phase := RequestPhaseV5([request], network);
    assert phase == ServerRun(1, [reply], Some(dest), DialOutcome(network(dest)));
    ServeV5Accepts(hello, [request], network);
    var run := ServeV5(hello, [request], network);
    assert run == ServerRun(1, [accept] + [reply], Some(dest), DialOutcome(network(dest)));
    assert ChunkAt(incoming, 0) == hello && Drop(incoming, 1) == [request];
    ServeSocks5(incoming, network);
  }

  /** `handle_client_v4` */
  method HandleClientV4(stream: Stream, buffer: Buffer, network: Destination -> Dial)
    returns (outcome: Outcome, dialed: Option<Destination>)
    modifies stream, buffer
    ensures var run := ServeV4(old(buffer.bytes), network);
            && outcome == run.outcome && dialed == run.dialed && run.consumed == 0
            && stream.sent == old(stream.sent) + run.sent && stream.pending == old(stream.pending)
  {
    var parsed := RequestV4.DecodeRequest(buffer.bytes);
    if !parsed.Done? {
      return Aborted(InvalidData), Option.None;
    }
    var req := parsed.value;
    var dest := Destination(CommonV4.ToV5(req.addr), req.port);
    dialed := Some(dest);
    var response := V4Reply(req, network(dest));
    outcome := DialOutcome(network(dest));
    buffer.Clear();
    ResponseV4.EncodeResponseInto(response, buffer);
    assert buffer.bytes == ResponseV4.ResponseEncoding(response);
    stream.WriteAll(buffer.bytes);
  }

  /** `handle_client_v5` */
  method HandleClientV5(stream: Stream, buffer: Buffer, network: Destination -> Dial)
    returns (outcome: Outcome, dialed: Option<Destination>)
    modifies stream, buffer
    ensures var run := ServeV5(old(buffer.bytes), old(stream.pending), network);
            && outcome == run.outcome && dialed == run.dialed
            && stream.sent == old(stream.sent) + run.sent && stream.pending == Drop(old(stream.pending), run.consumed)
  {
    ghost var msg := buffer.bytes;
    var hello := RequestV5.DecodeHello(buffer.bytes);
    if !hello.Done? {
      assert Drop(old(stream.pending), 0) == old(stream.pending);
      return Aborted(InvalidData), Option.None;
    }
    var choice := SelectMethod(hello.value.methods);
    buffer.Clear();
    ResponseV5.EncodeHelloInto(ResponseV5.Hello(choice), buffer);
    assert buffer.bytes == MethodReply(choice);
    stream.WriteAll(buffer.bytes);
    if choice == CommonV5.NotAcceptable {
      assert Drop(old(stream.pending), 0) == old(stream.pending);
      return Aborted(Unsupported), Option.None;
    }
    ServeV5Accepts(msg, old(stream.pending), network);
    ghost var phase := RequestPhaseV5(old(stream.pending), network);
    outcome, dialed := HandleRequestV5(stream, buffer, network);
    AppendAssoc(old(stream.sent), [MethodReply(choice)], phase.sent);
  }

  /** The request phase of `handle_client_v5`. */
  method HandleRequestV5(stream: Stream, buffer: Buffer, network: Destination -> Dial)
    returns (outcome: Outcome, dialed: Option<Destination>)
    modifies stream, buffer
    ensures var run := RequestPhaseV5(old(stream.pending), network);
            && outcome == run.outcome && dialed == run.dialed
            && stream.sent == old(stream.sent) + run.sent && stream.pending == Drop(old(stream.pending), run.consumed)
  {
    buffer.Clear();
    var n := stream.ReadBuf(buffer);
    assert buffer.bytes[..n] == ChunkAt(old(stream.pending), 0);
    var parsed := RequestV5.DecodeRequest(buffer.bytes[..n]);
    if !parsed.Done? {
      return Aborted(InvalidData), Option.None;
    }
    var req := parsed.value;
    var dest := Destination(req.addr, req.port);
    dialed := Some(dest);
    var response := V5Reply(req, network(dest));
    outcome := DialOutcome(network(dest));
    buffer.Clear();
    ResponseV5.EncodeResponseInto(response, buffer);
    assert buffer.bytes == ResponseV5.ResponseEncoding(response);
    stream.WriteAll(buffer.bytes);
  }

  /** `handle_client` */
  method HandleClient(stream: Stream, network: Destination -> Dial)
    returns (outcome: Outcome, dialed: Option<Destination>)
    modifies stream
    ensures var run := Serve(old(stream.pending), network);
            && outcome == run.outcome && dialed == run.dialed
            && stream.sent == old(stream.sent) + run.sent && stream.pending == Drop(old(stream.pending), run.consumed)
  {
    var buffer := new Buffer();
    var n := stream.ReadBuf(buffer);
    assert buffer.bytes[..n] == ChunkAt(old(stream.pending), 0);
    var version := DecodeVersion(buffer.bytes[..n]);
    if !version.Done? {
      ServeNoVersion(old(stream.pending), network);
      return Aborted(InvalidData), Option.None;
    }
    assert buffer.bytes == ChunkAt(old(stream.pending), 0);
    if version.value == Socks4 {
      ServeSocks4(old(stream.pending), network);
      outcome, dialed := HandleClientV4(stream, buffer, network);
    } else {
      ServeSocks5(old(stream.pending), network);
      ghost var run := ServeV5(ChunkAt(old(stream.pending), 0), Drop(old(stream.pending), 1), network);
      outcome, dialed := HandleClientV5(stream, buffer, network);
      DropDrop(old(stream.pending), 1, run.consumed);
    }
  }

  /** The last byte string written. */
  function LastSent(run: ServerRun): seq<uint8>
    requires |run.sent| >= 1
  {
    run.sent[|run.sent| - 1]
  }

  /** `msg` is a whole reply of protocol `v` reporting success. */
  predicate ReportsSuccess(v: Version, msg: seq<uint8>) {
    match v
    case Socks4 =>
      var d := ResponseV4.DecodeResponse(msg);
      d.Done? && d.rest == [] && d.value.status == ResponseV4.Success
    case Socks5 =>
      var d := ResponseV5.DecodeResponse(msg);
      d.Done? && d.rest == [] && d.value.status == ResponseV5.Success
  }

  /** `msg` is a whole reply of protocol `v` reporting the failed connect. */
  predicate ReportsFailure(v: Version, msg: seq<uint8>) {
    match v
    case Socks4 =>
      var d := ResponseV4.DecodeResponse(msg);
      d.Done? && d.rest == [] && d.value.status == ResponseV4.Rejected
    case Socks5 =>
      var d := ResponseV5.DecodeResponse(msg);
      d.Done? && d.rest == [] && d.value.status == ResponseV5.GeneralFailure
  }

  /** The SOCKS4 reply reads back whole, and reports how the connect went. */
  lemma V4ReplyDecodes(req: RequestV4.Request, dial: Dial)
    ensures var bytes := ResponseV4.ResponseEncoding(V4Reply(req, dial));
            && ResponseV4.DecodeResponse(bytes) == Done([], V4Reply(req, dial))
            && (dial.Connected? ==> ReportsSuccess(Socks4, bytes))
            && (dial.Refused? ==> ReportsFailure(Socks4, bytes))
  {
    var bytes := ResponseV4.ResponseEncoding(V4Reply(req, dial));
    ResponseV4.ResponseRoundTrip(V4Reply(req, dial), []);
    assert bytes + [] == bytes;
  }

  /** The SOCKS5 reply reads back whole, and reports how the connect went. */
  lemma V5ReplyDecodes(req: RequestV5.Request, dial: Dial)
    requires A.Encodable(req.addr)
    ensures var bytes := ResponseV5.ResponseEncoding(V5Reply(req, dial));
            && ResponseV5.DecodeResponse(bytes) == Done([], V5Reply(req, dial))
            && (dial.Connected? ==> ReportsSuccess(Socks5, bytes))
            && (dial.Refused? ==> ReportsFailure(Socks5, bytes))
  {
    var bytes := ResponseV5.ResponseEncoding(V5Reply(req, dial));
    ResponseV5.ResponseRoundTrip(V5Reply(req, dial), []);
    assert bytes + [] == bytes;
  }

  /** The run ends as its last reply says: a destination is dialed exactly
      when the run ends in the relay or in the connect error, and the last
      reply is a whole reply of protocol `v` reporting success before the
      relay and failure before the connect error. */
  predicate Reported(v: Version, run: ServerRun) {
    && (run.dialed.Some? <==> run.outcome == Relayed || run.outcome == DialFailed)
    && (run.outcome == Relayed ==> |run.sent| >= 1 && ReportsSuccess(v, LastSent(run)))
    && (run.outcome == DialFailed ==> |run.sent| >= 1 && ReportsFailure(v, LastSent(run)))
  }

  /** Whether a run ends as its last reply says does not depend on how
      many reads it took. */
  lemma ReportedAnyConsumed(v: Version, run: ServerRun, consumed: nat)
    requires Reported(v, run)
    ensures Reported(v, run.(consumed := consumed))
  {
    var moved := run.(consumed := consumed);
    assert moved.sent == run.sent && moved.dialed == run.dialed && moved.outcome == run.outcome;
  }

  /** A reply written ahead of a run's own does not change how it ends. */
  lemma ReportedAfterReply(v: Version, run: ServerRun, reply: seq<uint8>)
    requires Reported(v, run)
    ensures Reported(v, run.(sent := [reply] + run.sent))
  {
    var sent := [reply] + run.sent;
    if |run.sent| >= 1 {
      assert sent[|sent| - 1] == run.sent[|run.sent| - 1];
    }
  }

  lemma ServeV4Reported(msg: seq<uint8>, network: Destination -> Dial)
    ensures Reported(Socks4, ServeV4(msg, network)) && |ServeV4(msg, network).sent| <= 1
  {
    var d := RequestV4.DecodeRequest(msg);
    if d.Done? {
      var dest := Destination(CommonV4.ToV5(d.value.addr), d.value.port);
      V4ReplyDecodes(d.value, network(dest));
    }
  }

  lemma RequestPhaseV5Reported(pending: seq<seq<uint8>>, network: Destination -> Dial)
    ensures Reported(Socks5, RequestPhaseV5(pending, network)) && |RequestPhaseV5(pending, network).sent| <= 1
  {
    var d := RequestV5.DecodeRequest(ChunkAt(pending, 0));
    if d.Done? {
      var dest := Destination(d.value.addr, d.value.port);
      V5ReplyDecodes(d.value, network(dest));
    }
  }

  lemma ServeV5Reported(msg: seq<uint8>, pending: seq<seq<uint8>>, network: Destination -> Dial)
    ensures Reported(Socks5, ServeV5(msg, pending, network)) && |ServeV5(msg, pending, network).sent| <= 2
  {
    var h := RequestV5.DecodeHello(msg);
    if h.Done? && SelectMethod(h.value.methods) != CommonV5.NotAcceptable {
      ServeV5Accepts(msg, pending, network);
      RequestPhaseV5Reported(pending, network);
      ReportedAfterReply(Socks5, RequestPhaseV5(pending, network), MethodReply(SelectMethod(h.value.methods)));
    }
  }

  /** Whatever the client sends and the network does, the server writes at
      most two replies, a first read that is no version byte gets none, and
      otherwise the run ends as its last reply says, in the protocol the
      client chose. */
  lemma {:induction false} OutcomeIsReported(incoming: seq<seq<uint8>>, network: Destination -> Dial)
    ensures var run := Serve(incoming, network);
            var v := DecodeVersion(ChunkAt(incoming, 0));
            && |run.sent| <= 2
            && (v.Done? ==> Reported(v.value, run))
            && (!v.Done? ==> run == ServerRun(1, [], Option.None, Aborted(InvalidData)))
  {
    var first := ChunkAt(incoming, 0);
    var v := DecodeVersion(first);
    if v.Done? && v.value == Socks4 {
      ServeSocks4(incoming, network);
      var run := ServeV4(first, network);
      ServeV4Reported(first, network);
      ReportedAnyConsumed(Socks4, run, run.consumed + 1);
    } else if v.Done? {
      ServeSocks5(incoming, network);
      var run := ServeV5(first, Drop(incoming, 1), network);
      ServeV5Reported(first, Drop(incoming, 1), network);
      ReportedAnyConsumed(Socks5, run, run.consumed + 1);
    }
  }

  /** A SOCKS5 client that does not offer "no authentication" gets the
      "no acceptable methods" reply and nothing else: the request is never
      read and nothing is dialed. A client that offers it gets it. */
  lemma NoAuthenticationOnly(incoming: seq<seq<uint8>>, network: Destination -> Dial)
    requires RequestV5.DecodeHello(ChunkAt(incoming, 0)).Done?
    ensures var methods := RequestV5.DecodeHello(ChunkAt(incoming, 0)).value.methods;
            var run := Serve(incoming, network);
            && |run.sent| >= 1
            && (CommonV5.AuthenticationMethod.None in methods ==> run.sent[0] == [5, 0] && run.consumed == 2)
            && (CommonV5.AuthenticationMethod.None !in methods ==>
                  run == ServerRun(1, [[5, 0xFF]], Option.None, Aborted(Unsupported)))
  {
    var first := ChunkAt(incoming, 0);
    assert DecodeVersion(first) == Done(first[1..], Socks5);
  }

  /** A first read that is not a version byte 4 or 5 gets no reply at all. */
  lemma BadVersionGetsNoReply(incoming: seq<seq<uint8>>, network: Destination -> Dial)
    requires |ChunkAt(incoming, 0)| >= 1 && ChunkAt(incoming, 0)[0] != 4 && ChunkAt(incoming, 0)[0] != 5
    ensures Serve(incoming, network) == ServerRun(1, [], Option.None, Aborted(InvalidData))
  {
  }
}
