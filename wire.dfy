/** Bytes, the nom-style result every decoder returns, the primitive parsers the
    decoders are built from, the UTF-8 check behind `String`, and the growable
    byte buffer (`Vec<u8>`) every encoder appends to. */
module Wire {

  type uint8 = b: int | 0 <= b < 0x100
  type uint16 = w: int | 0 <= w < 0x1_0000

  datatype Option<+T> = None | Some(value: T)

  datatype Result<+T, +E> = Ok(value: T) | Err(error: E)

  /** The `std::io::ErrorKind`s the handshake code reports. */
  datatype IoErrorKind = InvalidData | Unsupported | Other

  /** Whether a parser is nom's `complete` or `streaming` flavour: on input that
      is too short the first reports an error, the second asks for more bytes. */
  datatype Mode = Complete | Streaming

  /** The nom `ErrorKind`s the decoders can produce. */
  datatype ErrorKind = Eof | Verify | NoneOf | MapOpt | Tag

  /** A classified parse error; `context` holds the context a decoder attaches
      explicitly when it raises the error itself ("Invalid address type"). */
  datatype ParseError = ParseError(kind: ErrorKind, context: Option<string>)

  /** `nom::IResult`: the unconsumed input and a value, or one of nom's three
      errors. `Incomplete` means more input may help; `Error` lets an enclosing
      `opt` or `alt` try something else; `Failure` is final. */
  datatype Parsed<+T> =
    | Done(rest: seq<uint8>, value: T)
    | Incomplete
    | Error(error: ParseError)
    | Failure(error: ParseError)
  {
    predicate IsFailure() {
      !Done?
    }

    function PropagateFailure<U>(): Parsed<U>
      requires !Done?
    {
      match this
      case Incomplete => Incomplete
      case Error(e) => Error(e)
      case Failure(e) => Failure(e)
    }

    function Extract(): (seq<uint8>, T)
      requires Done?
    {
      (rest, value)
    }
  }

  function Reject<T>(kind: ErrorKind): Parsed<T> {
    Error(ParseError(kind, None))
  }

  /** What a parser in the given mode reports when the input runs out. */
  function Short<T>(mode: Mode): Parsed<T> {
    if mode == Streaming then Incomplete else Reject(Eof)
  }

  /** `be_u8` */
  function Byte(mode: Mode, s: seq<uint8>): Parsed<uint8> {
    if |s| == 0 then Short(mode) else Done(s[1..], s[0])
  }

  /** `be_u16`: two bytes, most significant first. */
  function BeU16(mode: Mode, s: seq<uint8>): Parsed<uint16> {
    if |s| < 2 then Short(mode) else Done(s[2..], (s[0] as int) * 0x100 + s[1] as int)
  }

  /** `take(n)` */
  function Take(mode: Mode, n: nat, s: seq<uint8>): Parsed<seq<uint8>> {
    if |s| < n then Short(mode) else Done(s[n..], s[..n])
  }

  /** `u16::to_be_bytes` */
  function BeBytes(w: uint16): (r: seq<uint8>)
    ensures |r| == 2 && (r[0] as int) * 0x100 + r[1] as int == w
  {
    [w / 0x100, w % 0x100]
  }

  lemma BeU16RoundTrip(mode: Mode, w: uint16, rest: seq<uint8>)
    ensures BeU16(mode, BeBytes(w) + rest) == Done(rest, w)
  {
    assert (BeBytes(w) + rest)[2..] == rest;
  }

  /** Whatever `be_u16` reads is the big-endian encoding of its value. */
  lemma BeU16Sound(mode: Mode, s: seq<uint8>)
    requires BeU16(mode, s).Done?
    ensures s == BeBytes(BeU16(mode, s).value) + BeU16(mode, s).rest
  {
    var w := BeU16(mode, s).value;
    assert w / 0x100 == s[0] && w % 0x100 == s[1];
    assert s == [s[0], s[1]] + s[2..];
  }

  predicate IsContinuation(b: uint8) {
    0x80 <= b <= 0xBF
  }

  /** Well-formed UTF-8 as in the syntax of section 4 of RFC 3629: the byte
      sequences `std::str::from_utf8` accepts. */
  predicate ValidUtf8(s: seq<uint8>)
    decreases |s|
  {
    if s == [] then true
    else if s[0] <= 0x7F then ValidUtf8(s[1..])
    else if 0xC2 <= s[0] <= 0xDF then
      2 <= |s| && IsContinuation(s[1]) && ValidUtf8(s[2..])
    else if 0xE0 <= s[0] <= 0xEF then
      && 3 <= |s|
      && (if s[0] == 0xE0 then 0xA0 <= s[1] <= 0xBF
          else if s[0] == 0xED then 0x80 <= s[1] <= 0x9F
          else IsContinuation(s[1]))
      && IsContinuation(s[2])
      && ValidUtf8(s[3..])
    else if 0xF0 <= s[0] <= 0xF4 then
      && 4 <= |s|
      && (if s[0] == 0xF0 then 0x90 <= s[1] <= 0xBF
          else if s[0] == 0xF4 then 0x80 <= s[1] <= 0x8F
          else IsContinuation(s[1]))
      && IsContinuation(s[2])
      && IsContinuation(s[3])
      && ValidUtf8(s[4..])
    else false
  }

  /** A Rust `String`, as the bytes of its UTF-8 encoding. */
  type Utf8String = s: seq<uint8> | ValidUtf8(s) witness []

  predicate IsAscii(s: seq<uint8>) {
    forall i :: 0 <= i < |s| ==> s[i] <= 0x7F
  }

  /** Every ASCII byte string is valid UTF-8. */
  lemma {:induction false} AsciiIsUtf8(s: seq<uint8>)
    requires IsAscii(s)
    ensures ValidUtf8(s)
    decreases |s|
  {
    if s != [] {
      assert IsAscii(s[1..]) by {
        forall i | 0 <= i < |s[1..]| ensures s[1..][i] <= 0x7F {
          assert s[1..][i] == s[i + 1];
        }
      }
      AsciiIsUtf8(s[1..]);
    }
  }

  /** Appending in two steps appends the concatenation. */
  lemma AppendAssoc<T>(a: seq<T>, b: seq<T>, c: seq<T>)
    ensures a + b + c == a + (b + c)
  {
  }

  /** The `Vec<u8>` an encoder appends to. */
  class Buffer {
    var bytes: seq<uint8>

    /** `Vec::new()` */
    constructor ()
      ensures bytes == []
    {
      bytes := [];
    }

    /** `Vec::push` */
    method Push(b: uint8)
      modifies this
      ensures bytes == old(bytes) + [b]
    {
      bytes := bytes + [b];
    }

    /** `Vec::extend_from_slice` */
    method Extend(s: seq<uint8>)
      modifies this
      ensures bytes == old(bytes) + s
    {
      bytes := bytes + s;
    }

    /** `Vec::clear` */
    method Clear()
      modifies this
      ensures bytes == []
    {
      bytes := [];
    }
  }
}
