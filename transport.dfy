/** The byte stream a handshake runs over (a tokio `TcpStream` or any
    `AsyncRead + AsyncWrite`), reduced to what the handshake code observes:
    each `read_buf` delivers the next chunk the peer sent (nothing once the
    peer has finished), and each `write_all` sends one whole byte string. */
module Transport {
  import opened Wire

  /** The chunk the `i`-th read delivers. */
  function ChunkAt(chunks: seq<seq<uint8>>, i: nat): seq<uint8> {
    if i < |chunks| then chunks[i] else []
  }

  /** What is left to read after `k` reads. */
  function Drop(chunks: seq<seq<uint8>>, k: nat): seq<seq<uint8>> {
    if k < |chunks| then chunks[k..] else []
  }

  class Stream {
    /** The chunks still to be read, one per `read_buf`. */
    var pending: seq<seq<uint8>>
    /** The byte strings written so far, one per `write_all`. */
    var sent: seq<seq<uint8>>

    constructor (incoming: seq<seq<uint8>>)
      ensures pending == incoming && sent == []
    {
      pending := incoming;
      sent := [];
    }

    /** `read_buf`: appends the next chunk to `buffer` and returns its length. */
    method ReadBuf(buffer: Buffer) returns (n: nat)
      modifies this, buffer
      ensures n == |ChunkAt(old(pending), 0)|
      ensures buffer.bytes == old(buffer.bytes) + ChunkAt(old(pending), 0)
      ensures pending == Drop(old(pending), 1) && sent == old(sent)
    {
      var chunk := ChunkAt(pending, 0);
      buffer.Extend(chunk);
      pending := Drop(pending, 1);
      n := |chunk|;
    }

    /** `write_all` */
    method WriteAll(bytes: seq<uint8>)
      modifies this
      ensures sent == old(sent) + [bytes] && pending == old(pending)
    {
      sent := sent + [bytes];
    }
  }

  lemma DropDrop(chunks: seq<seq<uint8>>, j: nat, k: nat)
    ensures Drop(Drop(chunks, j), k) == Drop(chunks, j + k)
    ensures ChunkAt(Drop(chunks, j), k) == ChunkAt(chunks, j + k)
  {
  }
}
