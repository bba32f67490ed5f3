/** The chunked coding of section 7.1 of RFC 9112: a decoder written from the grammar there. */
module ChunkedCoding {
  import opened Sequences
  import opened Numerals

  type Byte = x: int | 0 <= x < 256

  type Bytes = seq<Byte>

  const CRLF: Bytes := [13, 10]

  predicate IsHex(b: Byte) {
    48 <= b <= 57 || 65 <= b <= 70 || 97 <= b <= 102
  }

  function HexValue(b: Byte): nat
    requires IsHex(b)
  {
    if b <= 57 then b - 48 else if b <= 70 then b - 55 else b - 87
  }

  /** The number of hexadecimal digits at the front. */
  function HexPrefix(s: Bytes): (n: nat)
    ensures n <= |s|
    ensures forall i | 0 <= i < n :: IsHex(s[i])
  {
    if s == [] || !IsHex(s[0]) then 0 else 1 + HexPrefix(s[1..])
  }

  function HexNumber(digits: Bytes): nat
    requires forall i | 0 <= i < |digits| :: IsHex(digits[i])
  {
    if digits == [] then 0
    else HexNumber(digits[..|digits| - 1]) * 16 + HexValue(digits[|digits| - 1])
  }

  predicate AllHex(digits: Bytes) {
    forall i | 0 <= i < |digits| :: IsHex(digits[i])
  }

  function HexValues(digits: Bytes): (values: seq<nat>)
    requires AllHex(digits)
  {
    seq(|digits|, i requires 0 <= i < |digits| => HexValue(digits[i]))
  }

  // The digits are these, in this order; letters are read in both cases.
  lemma TheHexDigits(d: nat)
    requires d < 16
    ensures var b: Byte := "0123456789abcdef"[d] as int; IsHex(b) && HexValue(b) == d
    ensures var b: Byte := "0123456789ABCDEF"[d] as int; IsHex(b) && HexValue(b) == d
  {
  }

  /** A size line is read as a number to the base sixteen: the digits' values times the powers of sixteen for their places. */
  lemma {:induction false} HexNumberMeaning(digits: Bytes)
    requires AllHex(digits)
    ensures HexNumber(digits) == Numeral(16, HexValues(digits))
  {
    if digits != [] {
      var n := |digits| - 1;
      HexNumberMeaning(digits[..n]);
      assert HexValues(digits) == HexValues(digits[..n]) + [HexValue(digits[n])];
      NumeralAppend(16, HexValues(digits[..n]), HexValue(digits[n]));
    }
  }

  /** What follows the first CRLF. */
  function AfterLine(s: Bytes): (r: Option<Bytes>)
    ensures r.Some? ==> |r.value| < |s|
  {
    if |s| < 2 then None
    else if s[..2] == CRLF then Some(s[2..])
    else AfterLine(s[1..])
  }

  /** What follows chunk-ext and its CRLF; extensions are not recognised, so they are ignored. */
  function AfterExtension(s: Bytes): (r: Option<Bytes>)
    ensures r.Some? ==> |r.value| < |s|
  {
    if |s| >= 2 && s[..2] == CRLF then Some(s[2..])
    else if s != [] && (s[0] == 59 || s[0] == 32 || s[0] == 9) then AfterLine(s)
    else None
  }

  /** What follows the trailer section and the CRLF that ends it. */
  function AfterTrailers(s: Bytes): Option<Bytes>
    decreases |s|
  {
    if |s| >= 2 && s[..2] == CRLF then Some(s[2..])
    else
      match AfterLine(s)
      case None => None
      case Some(r) => AfterTrailers(r)
  }

  datatype Message = Message(content: Bytes, rest: Bytes)

  /** chunked-body = *chunk last-chunk trailer-section CRLF; None if the bytes do not start with one. */
  function Decode(s: Bytes): Option<Message>
    decreases |s|
  {
    var n := HexPrefix(s);
    if n == 0 then None
    else
      match AfterExtension(s[n..])
      case None => None
      case Some(body) =>
        var size := HexNumber(s[..n]);
        if size == 0 then
          match AfterTrailers(body)
          case None => None
          case Some(rest) => Some(Message([], rest))
        else if |body| >= size + 2 && body[size..size + 2] == CRLF then
          match Decode(body[size + 2..])
          case None => None
          case Some(m) => Some(Message(body[..size] + m.content, m.rest))
        else None
  }
}

/** The chunked response writer. */
module ResponseStreamClass {
  import opened Sequences
  import opened Numerals
  import opened ChunkedCoding

  function HexDigit(n: nat): (b: Byte)
    requires n < 16
    ensures IsHex(b) && HexValue(b) == n
  {
    if n < 10 then 48 + n else 87 + n
  }

  /** std::hex of a length: lower case, no leading zeros. */
  function Hex(n: nat): (s: Bytes)
    ensures |s| >= 1
    ensures forall i | 0 <= i < |s| :: IsHex(s[i])
    ensures HexNumber(s) == n
  {
    if n < 16 then
      var s: Bytes := [HexDigit(n)];
      assert s[..0] == [];
      s
    else
      var s := Hex(n / 16) + [HexDigit(n % 16)];
      assert s[..|s| - 1] == Hex(n / 16);
      s
  }

  /** The size a chunk is announced with: lower-case digits that stand for it to the base sixteen, without a leading
      zero. */
  lemma {:induction false} HexMeaning(n: nat)
    ensures AllHex(Hex(n)) && Numeral(16, HexValues(Hex(n))) == n
    ensures forall i | 0 <= i < |Hex(n)| :: Hex(n)[i] as char in "0123456789abcdef"
    ensures Hex(n)[0] as char == '0' ==> n == 0 && |Hex(n)| == 1
  {
    HexNumberMeaning(Hex(n));
    assert AllHex(Hex(n)) && Numeral(16, HexValues(Hex(n))) == n;
    hide HexNumber, HexValues, Numeral;
    LowerCase(n % 16);
    if n >= 16 {
      HexMeaning(n / 16);
    }
  }

  lemma LowerCase(d: nat)
    requires d < 16
    ensures HexDigit(d) as char == "0123456789abcdef"[d]
  {
  }

  function Chunk(data: Bytes): Bytes {
    Hex(|data|) + CRLF + data + CRLF
  }

  lemma ChunkText(data: Bytes)
    ensures Chunk(data) == Hex(|data|) + CRLF + data + CRLF
  {
  }

  const TERMINATOR: Bytes := [48, 13, 10, 13, 10]

  function Chunks(payloads: seq<Bytes>): Bytes {
    if payloads == [] then [] else Chunk(payloads[0]) + Chunks(payloads[1..])
  }

  function Concat(payloads: seq<Bytes>): Bytes {
    if payloads == [] then [] else payloads[0] + Concat(payloads[1..])
  }

  lemma {:induction false} HexPrefixOf(digits: Bytes, s: Bytes)
    requires forall i | 0 <= i < |digits| :: IsHex(digits[i])
    requires s != [] && !IsHex(s[0])
    ensures HexPrefix(digits + s) == |digits|
  {
    if digits == [] {
      assert digits + s == s;
    } else {
      assert (digits + s)[1..] == digits[1..] + s;
      HexPrefixOf(digits[1..], s);
    }
  }

  // A line of hexadecimal digits is read back, whatever follows it.
  lemma SizeLine(n: nat, tail: Bytes)
    ensures var s := Hex(n) + CRLF + tail;
            && HexPrefix(s) == |Hex(n)| && s[..HexPrefix(s)] == Hex(n)
            && AfterExtension(s[HexPrefix(s)..]) == Some(tail)
  {
    var s := Hex(n) + CRLF + tail;
    assert s == Hex(n) + (CRLF + tail) && s[..|Hex(n)|] == Hex(n);
    HexPrefixOf(Hex(n), CRLF + tail);
    assert s[|Hex(n)|..] == CRLF + tail;
    assert (CRLF + tail)[..2] == CRLF && (CRLF + tail)[2..] == tail;
  }

  lemma DecodeTerminator(tail: Bytes)
    ensures Decode(TERMINATOR + tail) == Some(Message([], tail))
  {
    assert Hex(0) == [48];
    assert TERMINATOR + tail == Hex(0) + CRLF + (CRLF + tail);
    SizeLine(0, CRLF + tail);
    assert (CRLF + tail)[..2] == CRLF && (CRLF + tail)[2..] == tail;
  }

  lemma DecodeChunk(data: Bytes, tail: Bytes)
    requires data != []
    ensures Decode(Chunk(data) + tail) ==
            match Decode(tail) case None => None case Some(m) => Some(Message(data + m.content, m.rest))
  {
    var body := data + CRLF + tail;
    assert Chunk(data) + tail == Hex(|data|) + CRLF + body;
    SizeLine(|data|, body);
    assert body[..|data|] == data && body[|data|..|data| + 2] == CRLF && body[|data| + 2..] == tail;
  }

  /** Round trip: non-empty payloads, then the terminator, decode to the payloads; nothing more is consumed. */
  lemma {:induction false} RoundTrip(payloads: seq<Bytes>, tail: Bytes)
    requires [] !in payloads
    ensures Decode(Chunks(payloads) + TERMINATOR + tail) == Some(Message(Concat(payloads), tail))
  {
    if payloads == [] {
      assert Chunks(payloads) + TERMINATOR + tail == TERMINATOR + tail;
      DecodeTerminator(tail);
    } else {
      var more := Chunks(payloads[1..]) + TERMINATOR + tail;
      assert Chunks(payloads) + TERMINATOR + tail == Chunk(payloads[0]) + more;
      DecodeChunk(payloads[0], more);
      RoundTrip(payloads[1..], tail);
    }
  }

  // An empty payload prints the terminator: the message ends there.
  lemma {:induction false} EmptyEndsMessage(payloads: seq<Bytes>, tail: Bytes)
    requires [] in payloads
    ensures var m := Decode(Chunks(payloads) + TERMINATOR + tail); m.Some? && |m.value.rest| > |tail|
  {
    var more := Chunks(payloads[1..]) + TERMINATOR + tail;
    assert Chunks(payloads) + TERMINATOR + tail == Chunk(payloads[0]) + more;
    if payloads[0] == [] {
      assert Hex(0) == [48];
      assert Chunk([]) == TERMINATOR;
      DecodeTerminator(more);
    } else {
      DecodeChunk(payloads[0], more);
      EmptyEndsMessage(payloads[1..], tail);
    }
  }

  /** Exactly the streams without an empty payload survive the round trip with all bytes consumed. */
  lemma RoundTripIff(payloads: seq<Bytes>)
    ensures Decode(Chunks(payloads) + TERMINATOR) == Some(Message(Concat(payloads), [])) <==> [] !in payloads
  {
    assert Chunks(payloads) + TERMINATOR + [] == Chunks(payloads) + TERMINATOR;
    if [] in payloads {
      EmptyEndsMessage(payloads, []);
    } else {
      RoundTrip(payloads, []);
    }
  }

  lemma {:induction false} ChunksAppend(payloads: seq<Bytes>, data: Bytes)
    ensures Chunks(payloads + [data]) == Chunks(payloads) + Chunk(data)
  {
    if payloads == [] {
      assert [data][1..] == [];
    } else {
      assert (payloads + [data])[1..] == payloads[1..] + [data];
      ChunksAppend(payloads[1..], data);
    }
  }

  // ---------------------------------------------------------------- the writer

  /** The connection behind the stream; whether it takes the bytes is not ours to say. */
  class AsyncStream {
    var sent: Bytes
    var closed: bool

    constructor ()
      ensures sent == [] && !closed
    {
      sent, closed := [], false;
    }

    method Send(data: Bytes, takes: bool) returns (ok: bool)
      modifies this`sent
      ensures ok == takes && sent == if takes then old(sent) + data else old(sent)
    {
      if takes {
        sent := sent + data;
      }
      ok := takes;
    }

    method Close()
      modifies this`closed
      ensures closed
    {
      closed := true;
    }
  }

  class ResponseStream {
    var asyncStream: AsyncStream?
    ghost const connection: AsyncStream
    ghost var payloads: seq<Bytes>     // those for which send returned true
    ghost var terminated: bool         // the connection has taken the terminator

    ghost predicate Valid()
      reads this, connection
    {
      && (asyncStream != null ==> asyncStream == connection && !terminated)
      && (connection.closed <==> asyncStream == null)
      && connection.sent == if terminated then Chunks(payloads) + TERMINATOR else Chunks(payloads)
    }

    constructor (stream: AsyncStream)
      requires stream.sent == [] && !stream.closed
      ensures Valid() && asyncStream == stream && connection == stream && payloads == [] && !terminated
    {
      asyncStream := stream;
      connection := stream;
      payloads := [];
      terminated := false;
    }

    method Send(data: Bytes, takes: bool) returns (ok: bool)
      requires Valid()
      modifies this`payloads, connection`sent
      ensures Valid() && (ok <==> asyncStream != null && takes)
      ensures payloads == if ok then old(payloads) + [data] else old(payloads)
      ensures ok ==> connection.sent == old(connection.sent) + (Hex(|data|) + [13, 10] + data + [13, 10])
      ensures !ok ==> connection.sent == old(connection.sent)
    {
      hide Hex, Chunk, Chunks;
      if asyncStream == null {
        return false;
      }
      ok := asyncStream.Send(Hex(|data|) + CRLF + data + CRLF, takes);
      if ok {
        ChunkText(data);
        ChunksAppend(payloads, data);
        payloads := payloads + [data];
      }
    }

    /** Also what the destructor does.  Only the first call writes anything. */
    method Close(takes: bool)
      requires Valid()
      modifies this, connection
      ensures Valid() && asyncStream == null && payloads == old(payloads) && connection.closed
      ensures old(asyncStream) == null ==> terminated == old(terminated) && connection.sent == old(connection.sent)
      ensures old(asyncStream) != null ==>
                terminated == takes && connection.sent == old(connection.sent) + if takes then [48, 13, 10, 13, 10] else []
      ensures terminated && [] !in payloads ==> Decode(connection.sent) == Some(Message(Concat(payloads), []))
    {
      if asyncStream != null {
        var _ := asyncStream.Send([48, 13, 10, 13, 10], takes);
        asyncStream.Close();
        asyncStream := null;
        terminated := takes;
      }
      RoundTripIff(payloads);
    }
  }
}
