/** read_chunked_body: the chunked coding of RFC 7230 section 4.1 over any sequence of reads. */
module ChunkedBody {
  import opened Prelude
  import opened Text
  import opened Buffers
  import opened Lines
  import opened Network
  import opened Sequences

  // ----- The size in front of a chunk

  const SEMICOLON: byte := 59
  const PLUS: byte := 43

  function HexDigit(b: byte): (digit: Option<nat>)
    ensures digit.Some? ==> digit.value < 16
  {
    if 48 <= b <= 57 then Some(b - 48)
    else if 65 <= b <= 70 then Some(b - 55)
    else if 97 <= b <= 102 then Some(b - 87)
    else None
  }

  /** The number hexadecimal digits write. */
  function HexValue(s: Str): Option<nat> {
    if s == [] then Some(0)
    else match (HexValue(s[..|s| - 1]), HexDigit(s[|s| - 1]))
      case (Some(high), Some(low)) => Some(16 * high + low)
      case (_, _) => None
  }

  /** from_str_radix for a 64-bit word: a sign is allowed, an overflow is not. */
  function ParseHex(s: Str): Option<nat> {
    var digits := if s != [] && s[0] == PLUS then s[1..] else s;
    if digits == [] then None
    else match HexValue(digits)
      case None => None
      case Some(n) => if n < USIZE then Some(n) else None
  }

  /** The part of a line before the first semicolon. */
  function BeforeExtension(line: Str): Str {
    if line == [] || line[0] == SEMICOLON then [] else [line[0]] + BeforeExtension(line[1..])
  }

  function ChunkSize(line: Str): Option<nat> {
    ParseHex(TrimEnd(TrimStart(BeforeExtension(line))))
  }

  // ----- The body in a whole stream of octets

  /** Trailer lines, up to an empty one. */
  function Trailers(input: seq<byte>, position: nat): (r: Result<nat>)
    ensures r.Ok? ==> position < r.value <= |input|
    decreases |input| - position
  {
    match Line(input, position)
    case Err(e) => Err(e)
    case Ok(line) => if line.value == [] then Ok(line.next) else Trailers(input, line.next)
  }

  /** A sum of 64-bit words, held at the largest. */
  function Saturate(n: nat): nat {
    if n < USIZE then n else USIZE - 1
  }

  /** Reads the size off a line; the framing does not depend on how sizes are written. */
  type SizeReader = Str -> Option<nat>

  const CHUNK_SIZE: SizeReader := line => ChunkSize(line)

  function SizeOf(sizes: SizeReader, line: Str): Option<nat> {
    sizes(line)
  }

  /** Chunks behind the `body` so far, up to the last one and its trailers. */
  function Chunks(sizes: SizeReader, input: seq<byte>, position: nat, body: seq<byte>, max: nat)
    : (r: Result<Read<seq<byte>>>)
    decreases |input| - position
  {
    match Line(input, position)
    case Err(e) => Err(e)
    case Ok(line) =>
      match SizeOf(sizes, line.value)
      case None => Err(InvalidChunkSize)
      case Some(size) =>
        if size == 0 then
          (match Trailers(input, line.next)
           case Err(e) => Err(e)
           case Ok(next) => Ok(Read(body, next)))
        else if Saturate(|body| + size) > max then Err(BodyTooLarge)
        else if line.next + size + 2 > |input| then Err(ConnectionClosed)
        else if !CrlfAt(input, line.next + size) then Err(MissingChunkEnd)
        else Chunks(sizes, input, line.next + size + 2, body + Octets(input, line.next, size), max)
  }

  // ----- The reader

  /** ensure_buffer */
  method EnsureBuffer(stream: TcpStream, buffer: seq<byte>, required: nat, ghost whole: seq<byte>)
    returns (r: Result<seq<byte>>)
    requires Feeds(stream, buffer, whole)
    modifies stream`position
    ensures stream.Valid()
    ensures r.Ok? <==> required <= |whole|
    ensures r.Err? ==> r == Err(ConnectionClosed)
    ensures r.Ok? ==> Feeds(stream, r.value, whole) && buffer <= r.value && required <= |r.value|
  {
    var filled := buffer;
    while |filled| < required
      invariant Feeds(stream, filled, whole) && buffer <= filled
      decreases |stream.input| - stream.position
    {
      var more := Refill(stream, filled, 1024, whole);
      if more == filled {
        return Err(ConnectionClosed);
      }
      filled := more;
    }
    return Ok(filled);
  }

  /** read_buffer_line */
  method ReadBufferLine(stream: TcpStream, buffer: seq<byte>, position: nat, ghost whole: seq<byte>)
    returns (r: Result<Read<Str>>, filled: seq<byte>)
    requires Feeds(stream, buffer, whole)
    modifies stream`position
    ensures stream.Valid() && r == Line(whole, position)
    ensures r.Ok? ==> Feeds(stream, filled, whole) && r.value.next <= |filled|
  {
    filled := buffer;
    while true
      invariant Feeds(stream, filled, whole)
      decreases |whole| - |filled|
    {
      var end := FindCrlf(filled, position);
      if end.Some? {
        FoundEarly(filled, whole, position);
        OctetsOfPrefix(filled, whole, position, end.value - position);
        return Ok(Read(Octets(filled, position, end.value - position), end.value + 2)), filled;
      }
      var more := EnsureBuffer(stream, filled, |filled| + 1, whole);
      if more.Err? {
        assert filled == whole;
        return Err(more.error), filled;
      }
      filled := more.value;
    }
  }

  method ReadTrailers(stream: TcpStream, buffer: seq<byte>, position: nat, ghost whole: seq<byte>)
    returns (r: Result<nat>)
    requires Feeds(stream, buffer, whole)
    modifies stream`position
    ensures stream.Valid() && r == Trailers(whole, position)
  {
    var filled, next := buffer, position;
    while true
      invariant Feeds(stream, filled, whole) && Trailers(whole, next) == Trailers(whole, position)
      decreases |whole| - next
    {
      var trailer, more := ReadBufferLine(stream, filled, next, whole);
      if trailer.Err? { return Err(trailer.error); }
      filled, next := more, trailer.value.next;
      if trailer.value.value == [] { return Ok(next); }
    }
  }

  /** What read_chunked_body makes of `whole`. */
  function Decoded(sizes: SizeReader, whole: seq<byte>, max: nat): Result<seq<byte>> {
    match Chunks(sizes, whole, 0, [], max)
    case Err(e) => Err(e)
    case Ok(read) => Ok(read.value)
  }

  method ReadChunks(sizes: SizeReader, stream: TcpStream, prefix: seq<byte>, max: nat, ghost whole: seq<byte>)
    returns (r: Result<seq<byte>>)
    requires Feeds(stream, prefix, whole)
    modifies stream`position
    ensures stream.Valid() && r == Decoded(sizes, whole, max)
  {
    var buffer, position, body: seq<byte> := prefix, 0, [];
    ghost var goal := Chunks(sizes, whole, 0, [], max);
    while true
      invariant Feeds(stream, buffer, whole) && Chunks(sizes, whole, position, body, max) == goal
      decreases |whole| - position
    {
      var sizeLine, filled := ReadBufferLine(stream, buffer, position, whole);
      if sizeLine.Err? { return Err(sizeLine.error); }
      var start := sizeLine.value.next;
      var size := SizeOf(sizes, sizeLine.value.value);
      if size.None? { return Err(InvalidChunkSize); }
      if size.value == 0 {
        var end := ReadTrailers(stream, filled, start, whole);
        if end.Err? { return Err(end.error); }
        return Ok(body);
      }
      if Saturate(|body| + size.value) > max { return Err(BodyTooLarge); }
      var more := EnsureBuffer(stream, filled, start + size.value + 2, whole);
      if more.Err? { return Err(more.error); }
      buffer := more.value;
      OctetsOfPrefix(buffer, whole, start, size.value);
      body := body + Octets(buffer, start, size.value);
      if !CrlfAt(buffer, start + size.value) { return Err(MissingChunkEnd); }
      position := start + size.value + 2;
    }
  }

  /** read_chunked_body: however the octets arrive, the result is that of the whole. */
  method ReadChunkedBody(stream: TcpStream, prefix: seq<byte>, max: nat) returns (r: Result<seq<byte>>)
    requires stream.Valid()
    modifies stream`position
    ensures stream.Valid()
    ensures r == Decoded(CHUNK_SIZE, prefix + Octets(stream.input, old(stream.position),
                                                     |stream.input| - old(stream.position)), max)
  {
    r := ReadChunks(CHUNK_SIZE, stream, prefix, max,
                    prefix + Octets(stream.input, stream.position, |stream.input| - stream.position));
  }

  // ----- Encodings

  /** A chunk as it is sent: the line that says its size, and its data. */
  datatype Chunk = Chunk(line: Str, data: seq<byte>)

  /** The line may carry an extension, a sign, leading zeros, white space: all it must do is
      say the size, and end where it ends. */
  predicate GoodChunk(sizes: SizeReader, chunk: Chunk) {
    chunk.data != [] && NoCrlf(chunk.line) && SizeOf(sizes, chunk.line) == Some(|chunk.data|)
  }

  datatype Encoding = Encoding(chunks: seq<Chunk>, last: Str, trailers: seq<Str>)

  predicate GoodChunks(sizes: SizeReader, chunks: seq<Chunk>) {
    chunks == [] || (GoodChunk(sizes, chunks[0]) && GoodChunks(sizes, chunks[1..]))
  }

  predicate GoodTrailers(trailers: seq<Str>) {
    trailers == [] || (trailers[0] != [] && NoCrlf(trailers[0]) && GoodTrailers(trailers[1..]))
  }

  predicate WellFormed(sizes: SizeReader, e: Encoding) {
    GoodChunks(sizes, e.chunks) && NoCrlf(e.last) && SizeOf(sizes, e.last) == Some(0) && GoodTrailers(e.trailers)
  }

  function Data(chunks: seq<Chunk>): seq<byte> {
    if chunks == [] then [] else chunks[0].data + Data(chunks[1..])
  }

  function TrailerBytes(trailers: seq<Str>): seq<byte> {
    if trailers == [] then CRLF else trailers[0] + CRLF + TrailerBytes(trailers[1..])
  }

  function Encoded(e: Encoding): seq<byte>
    decreases |e.chunks|
  {
    if e.chunks == [] then e.last + CRLF + TrailerBytes(e.trailers)
    else e.chunks[0].line + CRLF + (e.chunks[0].data + CRLF) + Encoded(e.(chunks := e.chunks[1..]))
  }

  lemma {:induction false} TrailersRead(input: seq<byte>, position: nat, trailers: seq<Str>)
    requires GoodTrailers(trailers) && Holds(input, position, TrailerBytes(trailers))
    ensures Trailers(input, position) == Ok(position + |TrailerBytes(trailers)|)
    decreases |trailers|
  {
    if trailers == [] {
      assert [] + CRLF == CRLF;
      LineReads(input, position, []);
    } else {
      HoldsConcat(input, position, trailers[0] + CRLF, TrailerBytes(trailers[1..]));
      LineReads(input, position, trailers[0]);
      TrailersRead(input, position + |trailers[0]| + 2, trailers[1..]);
    }
  }

  lemma ChunkReads(sizes: SizeReader, input: seq<byte>, position: nat, chunk: Chunk, rest: seq<byte>)
    returns (start: nat, next: nat)
    requires GoodChunk(sizes, chunk)
    requires Holds(input, position, chunk.line + CRLF + (chunk.data + CRLF) + rest)
    ensures start == position + |chunk.line| + 2 && next == start + |chunk.data| + 2 <= |input|
    ensures Line(input, position) == Ok(Read(chunk.line, start))
    ensures Octets(input, start, |chunk.data|) == chunk.data && CrlfAt(input, start + |chunk.data|)
    ensures Holds(input, next, rest)
  {
    start, next := position + |chunk.line| + 2, position + |chunk.line| + 2 + |chunk.data| + 2;
    HoldsConcat(input, position, chunk.line + CRLF + (chunk.data + CRLF), rest);
    HoldsConcat(input, position, chunk.line + CRLF, chunk.data + CRLF);
    HoldsConcat(input, start, chunk.data, CRLF);
    LineReads(input, position, chunk.line);
    OctetsAre(input, start, chunk.data);
    HeldAt(input, start + |chunk.data|, CRLF, 0);
    HeldAt(input, start + |chunk.data|, CRLF, 1);
  }

  lemma {:induction false} ChunksStep(sizes: SizeReader, input: seq<byte>, position: nat, body: seq<byte>, max: nat,
                                      line: Str, data: seq<byte>, start: nat)
    requires Line(input, position) == Ok(Read(line, start)) && SizeOf(sizes, line) == Some(|data|) && data != []
    requires start + |data| + 2 <= |input| && Octets(input, start, |data|) == data
    requires CrlfAt(input, start + |data|)
    ensures Chunks(sizes, input, position, body, max) ==
            if Saturate(|body| + |data|) > max then Err(BodyTooLarge)
            else Chunks(sizes, input, start + |data| + 2, body + data, max)
  {}

  lemma {:induction false} LastChunk(sizes: SizeReader, input: seq<byte>, position: nat, body: seq<byte>, max: nat,
                                     line: Str, start: nat, end: nat)
    requires Line(input, position) == Ok(Read(line, start)) && SizeOf(sizes, line) == Some(0)
    requires Trailers(input, start) == Ok(end)
    ensures Chunks(sizes, input, position, body, max) == Ok(Read(body, end))
  {}

  lemma {:induction false} EndReads(sizes: SizeReader, input: seq<byte>, position: nat, body: seq<byte>, max: nat,
                                    line: Str, trailers: seq<Str>, start: nat, end: nat)
    requires NoCrlf(line) && SizeOf(sizes, line) == Some(0) && GoodTrailers(trailers)
    requires Holds(input, position, line + CRLF) && start == position + |line| + 2
    requires Holds(input, start, TrailerBytes(trailers)) && end == start + |TrailerBytes(trailers)|
    ensures Chunks(sizes, input, position, body, max) == Ok(Read(body, end))
  {
    LineReads(input, position, line);
    TrailersRead(input, start, trailers);
    LastChunk(sizes, input, position, body, max, line, start, end);
  }

  lemma {:induction false} ChunksEnd(sizes: SizeReader, input: seq<byte>, position: nat, body: seq<byte>, max: nat,
                                     e: Encoding, end: nat)
    requires WellFormed(sizes, e) && e.chunks == [] && Holds(input, position, Encoded(e))
    requires end == position + |Encoded(e)|
    ensures Chunks(sizes, input, position, body, max) == Ok(Read(body, end))
  {
    var start := HoldsFirst(input, position, e.last + CRLF, TrailerBytes(e.trailers));
    EndReads(sizes, input, position, body, max, e.last, e.trailers, start, end);
  }

  /** An encoding is its first chunk and an encoding. */
  lemma TakeChunk(sizes: SizeReader, e: Encoding) returns (chunk: Chunk, rest: Encoding)
    requires WellFormed(sizes, e) && e.chunks != []
    ensures |rest.chunks| == |e.chunks| - 1 && GoodChunk(sizes, chunk) && WellFormed(sizes, rest)
    ensures Encoded(e) == chunk.line + CRLF + (chunk.data + CRLF) + Encoded(rest)
    ensures Data(e.chunks) == chunk.data + Data(rest.chunks)
  {
    chunk, rest := e.chunks[0], e.(chunks := e.chunks[1..]);
  }

  lemma {:induction false} FirstChunk(sizes: SizeReader, input: seq<byte>, position: nat, body: seq<byte>, max: nat,
                                      e: Encoding)
    returns (data: seq<byte>, rest: Encoding, next: nat)
    requires WellFormed(sizes, e) && e.chunks != [] && Holds(input, position, Encoded(e))
    ensures |rest.chunks| == |e.chunks| - 1 && WellFormed(sizes, rest)
    ensures Data(e.chunks) == data + Data(rest.chunks)
    ensures Holds(input, next, Encoded(rest)) && position + |Encoded(e)| == next + |Encoded(rest)|
    ensures Chunks(sizes, input, position, body, max) ==
            if Saturate(|body| + |data|) > max then Err(BodyTooLarge)
            else Chunks(sizes, input, next, body + data, max)
  {
    var chunk, start;
    chunk, rest := TakeChunk(sizes, e);
    data := chunk.data;
    start, next := ChunkReads(sizes, input, position, chunk, Encoded(rest));
    ChunksStep(sizes, input, position, body, max, chunk.line, data, start);
  }

  /** The chunks at `position` make `total`, if it fits, and end at `end`. */
  predicate ChunksTo(sizes: SizeReader, input: seq<byte>, position: nat, body: seq<byte>, max: nat,
                     total: seq<byte>, end: nat)
  {
    Chunks(sizes, input, position, body, max) ==
    if Saturate(|total|) <= max then Ok(Read(total, end)) else Err(BodyTooLarge)
  }

  /** An encoding decodes to its data, exactly when they fit the limit. */
  lemma {:induction false} EncodingReads(sizes: SizeReader, input: seq<byte>, position: nat, e: Encoding,
                                         body: seq<byte>, total: seq<byte>, max: nat, end: nat)
    requires WellFormed(sizes, e) && Holds(input, position, Encoded(e)) && Saturate(|body|) <= max
    requires total == body + Data(e.chunks) && end == position + |Encoded(e)|
    ensures ChunksTo(sizes, input, position, body, max, total, end)
    decreases |e.chunks|
  {
    if e.chunks == [] {
      Nothing(body);
      ChunksEnd(sizes, input, position, body, max, e, end);
    } else {
      var data, rest, next := FirstChunk(sizes, input, position, body, max, e);
      Assoc(body, data, Data(rest.chunks));
      if Saturate(|body| + |data|) <= max {
        EncodingReads(sizes, input, next, rest, body + data, total, max, end);
      }
    }
  }

  /** The data of any encoding come back, whatever follows it, within the limit and only then. */
  lemma ChunkedRoundTrip(sizes: SizeReader, e: Encoding, rest: seq<byte>, max: nat)
    requires WellFormed(sizes, e)
    ensures Decoded(sizes, Encoded(e) + rest, max) ==
            if Saturate(|Data(e.chunks)|) <= max then Ok(Data(e.chunks)) else Err(BodyTooLarge)
  {
    HoldsWhole(Encoded(e) + rest);
    HoldsConcat(Encoded(e) + rest, 0, Encoded(e), rest);
    Nothing(Data(e.chunks));
    EncodingReads(sizes, Encoded(e) + rest, 0, e, [], Data(e.chunks), max, |Encoded(e)|);
  }

  // ----- Nothing else is accepted

  lemma {:induction false} TrailersAreEncoded(input: seq<byte>, position: nat) returns (trailers: seq<Str>)
    requires Trailers(input, position).Ok?
    ensures GoodTrailers(trailers)
    ensures Octets(input, position, Trailers(input, position).value - position) == TrailerBytes(trailers)
    decreases |input| - position
  {
    LineIsHeld(input, position);
    var line := Line(input, position).value;
    if line.value == [] {
      trailers := [];
      assert [] + CRLF == CRLF;
    } else {
      var rest := TrailersAreEncoded(input, line.next);
      trailers := [line.value] + rest;
      assert trailers[1..] == rest;
      OctetsJoin(input, position, |line.value| + 2, Trailers(input, line.next).value - line.next);
    }
  }

  lemma ChunkIsHeld(input: seq<byte>, start: nat, size: nat)
    requires start + size + 2 <= |input| && CrlfAt(input, start + size)
    ensures Octets(input, start, size + 2) == Octets(input, start, size) + CRLF
  {
    CrlfIsHeld(input, start + size, start + size);
    OctetsJoin(input, start, size, 2);
  }

  /** What one chunk leaves to be read. */
  lemma {:induction false} ChunkTaken(sizes: SizeReader, input: seq<byte>, position: nat, body: seq<byte>, max: nat)
    returns (line: Read<Str>, data: seq<byte>)
    requires Chunks(sizes, input, position, body, max).Ok?
    ensures Line(input, position) == Ok(line) && SizeOf(sizes, line.value) == Some(|data|)
    ensures data == [] ==>
              && Trailers(input, line.next).Ok?
              && Chunks(sizes, input, position, body, max) == Ok(Read(body, Trailers(input, line.next).value))
    ensures data != [] ==>
              && Saturate(|body + data|) <= max && line.next + |data| + 2 <= |input|
              && Octets(input, line.next, |data|) == data && CrlfAt(input, line.next + |data|)
              && Chunks(sizes, input, position, body, max) ==
                 Chunks(sizes, input, line.next + |data| + 2, body + data, max)
  {
    line := Line(input, position).value;
    var size := SizeOf(sizes, line.value).value;
    data := if size == 0 then [] else Octets(input, line.next, size);
  }

  /** The octets from `position` to `end` are an encoding. */
  predicate EncodedAt(input: seq<byte>, position: nat, end: nat, e: Encoding) {
    position < end <= |input| && Octets(input, position, end - position) == Encoded(e)
  }

  lemma EndIsEncoded(sizes: SizeReader, input: seq<byte>, position: nat, line: Read<Str>, end: nat)
    returns (e: Encoding)
    requires Line(input, position) == Ok(line) && SizeOf(sizes, line.value) == Some(0)
    requires Trailers(input, line.next) == Ok(end)
    ensures WellFormed(sizes, e) && Data(e.chunks) == []
    ensures EncodedAt(input, position, end, e)
  {
    LineIsHeld(input, position);
    var trailers := TrailersAreEncoded(input, line.next);
    e := Encoding([], line.value, trailers);
    OctetsJoin(input, position, |line.value| + 2, end - line.next);
  }

  /** A chunk in front of an encoding. */
  lemma AddChunk(sizes: SizeReader, chunk: Chunk, rest: Encoding) returns (e: Encoding)
    requires GoodChunk(sizes, chunk) && WellFormed(sizes, rest)
    ensures WellFormed(sizes, e)
    ensures Encoded(e) == chunk.line + CRLF + (chunk.data + CRLF) + Encoded(rest)
    ensures Data(e.chunks) == chunk.data + Data(rest.chunks)
  {
    e := rest.(chunks := [chunk] + rest.chunks);
    DropConcat([chunk], rest.chunks);
    Nothing(rest.chunks);
    assert e.(chunks := e.chunks[1..]) == rest;
  }

  lemma HeldChunk(input: seq<byte>, position: nat, line: Str, data: seq<byte>, start: nat, end: nat)
    requires start == position + |line| + 2 && start + |data| + 2 <= end <= |input|
    requires Octets(input, position, |line| + 2) == line + CRLF
    requires Octets(input, start, |data|) == data && CrlfAt(input, start + |data|)
    ensures Octets(input, position, end - position) ==
            line + CRLF + (data + CRLF) + Octets(input, start + |data| + 2, end - (start + |data| + 2))
  {
    ChunkIsHeld(input, start, |data|);
    OctetsJoin(input, position, |line| + 2, |data| + 2);
    OctetsJoin(input, position, |line| + 2 + |data| + 2, end - (start + |data| + 2));
  }

  lemma {:induction false} ChunkAhead(sizes: SizeReader, input: seq<byte>, position: nat, line: Read<Str>,
                                      data: seq<byte>, next: nat, end: nat, rest: Encoding)
    returns (e: Encoding)
    requires Line(input, position) == Ok(line) && SizeOf(sizes, line.value) == Some(|data|) && data != []
    requires next == line.next + |data| + 2 <= |input|
    requires Octets(input, line.next, |data|) == data && CrlfAt(input, line.next + |data|)
    requires WellFormed(sizes, rest) && EncodedAt(input, next, end, rest)
    ensures WellFormed(sizes, e) && Data(e.chunks) == data + Data(rest.chunks)
    ensures EncodedAt(input, position, end, e)
  {
    LineIsHeld(input, position);
    HeldChunk(input, position, line.value, data, line.next, end);
    e := AddChunk(sizes, Chunk(line.value, data), rest);
  }

  /** What is read is an encoding of what is returned, and within the limit. */
  lemma {:induction false} ChunksAreEncoded(sizes: SizeReader, input: seq<byte>, position: nat, body: seq<byte>,
                                            max: nat, read: Read<seq<byte>>)
    returns (e: Encoding)
    requires Chunks(sizes, input, position, body, max) == Ok(read) && Saturate(|body|) <= max
    ensures WellFormed(sizes, e) && read.value == body + Data(e.chunks) && Saturate(|read.value|) <= max
    ensures EncodedAt(input, position, read.next, e)
    decreases |input| - position
  {
    var line, data := ChunkTaken(sizes, input, position, body, max);
    if data == [] {
      e := EndIsEncoded(sizes, input, position, line, read.next);
      Nothing(body);
    } else {
      var next := line.next + |data| + 2;
      var rest := ChunksAreEncoded(sizes, input, next, body + data, max, read);
      e := ChunkAhead(sizes, input, position, line, data, next, read.next, rest);
      Assoc(body, data, Data(rest.chunks));
    }
  }

  /** Only encodings are accepted, for their data and within the limit. */
  lemma OnlyEncodingsDecode(sizes: SizeReader, input: seq<byte>, max: nat) returns (e: Encoding, rest: seq<byte>)
    requires Decoded(sizes, input, max).Ok?
    ensures WellFormed(sizes, e) && input == Encoded(e) + rest
    ensures Decoded(sizes, input, max) == Ok(Data(e.chunks)) && Saturate(|Data(e.chunks)|) <= max
  {
    var read := Chunks(sizes, input, 0, [], max).value;
    e := ChunksAreEncoded(sizes, input, 0, [], max, read);
    rest := Octets(input, read.next, |input| - read.next);
    OctetsSplit(input, read.next);
    assert [] + Data(e.chunks) == Data(e.chunks);
  }

  // ----- Size lines

  /** Hexadecimal digits of a number. */
  function Hex(n: nat): (s: Str)
    ensures s != [] && forall i | 0 <= i < |s| :: HexDigit(s[i]).Some?
  {
    (if n < 16 then [] else Hex(n / 16)) + [if n % 16 < 10 then 48 + n % 16 else 87 + n % 16]
  }

  lemma {:induction false} HexRoundTrip(n: nat)
    ensures HexValue(Hex(n)) == Some(n)
  {
    assert Hex(n)[..|Hex(n)| - 1] == if n < 16 then [] else Hex(n / 16);
    if n >= 16 {
      HexRoundTrip(n / 16);
    }
  }

  lemma {:induction false} DigitsAreDigits(digits: Str, i: nat)
    requires HexValue(digits).Some? && i < |digits|
    ensures HexDigit(digits[i]).Some?
  {
    if i < |digits| - 1 {
      DigitsAreDigits(digits[..|digits| - 1], i);
    }
  }

  lemma {:induction false} ExtensionIsCut(digits: Str, extension: Str)
    requires extension == [] || extension[0] == SEMICOLON
    requires forall i | 0 <= i < |digits| :: digits[i] != SEMICOLON
    ensures BeforeExtension(digits + extension) == digits
    decreases |digits|
  {
    if digits == [] {
      assert [] + extension == extension;
    } else {
      assert (digits + extension)[1..] == digits[1..] + extension;
      ExtensionIsCut(digits[1..], extension);
    }
  }

  /** Digits, of either case and with any zeros in front, and any extension behind a semicolon
      say their number when it fits a word, and nothing when it does not. */
  lemma SizeLineReads(digits: Str, extension: Str)
    requires digits != [] && HexValue(digits).Some?
    requires extension == [] || extension[0] == SEMICOLON
    ensures ChunkSize(digits + extension) ==
            if HexValue(digits).value < USIZE then Some(HexValue(digits).value) else None
  {
    forall i | 0 <= i < |digits| ensures digits[i] != SEMICOLON && SpaceAt(digits, i) == 0 && digits[i] != PLUS {
      DigitsAreDigits(digits, i);
    }
    ExtensionIsCut(digits, extension);
    NothingToTrim(digits);
  }

  lemma NothingToTrim(digits: Str)
    requires digits != [] && forall i | 0 <= i < |digits| :: SpaceAt(digits, i) == 0
    ensures TrimEnd(TrimStart(digits)) == digits
  {}

  // ----- Encodings in the form of RFC 7230

  /** A chunk in the form of section 4.1 of RFC 7230: a size in hexadecimal digits, extensions
      behind a semicolon, and the data. */
  datatype RfcChunk = RfcChunk(digits: Str, extension: Str, data: seq<byte>)

  predicate RfcSize(digits: Str, extension: Str, size: nat) {
    && digits != [] && HexValue(digits) == Some(size) && size < USIZE
    && NoCrlf(extension) && (extension == [] || extension[0] == SEMICOLON)
  }

  predicate RfcForm(chunk: RfcChunk) {
    chunk.data != [] && RfcSize(chunk.digits, chunk.extension, |chunk.data|)
  }

  predicate AllRfcForm(chunks: seq<RfcChunk>) {
    chunks == [] || (RfcForm(chunks[0]) && AllRfcForm(chunks[1..]))
  }

  function Sent(chunks: seq<RfcChunk>): seq<Chunk> {
    if chunks == [] then []
    else [Chunk(chunks[0].digits + chunks[0].extension, chunks[0].data)] + Sent(chunks[1..])
  }

  lemma {:induction false} CrlfAfterDigits(digits: Str, extension: Str, i: nat)
    requires i <= |digits| && (forall k | 0 <= k < |digits| :: digits[k] != CR) && FindCrlf(extension, 0) == None
    requires extension == [] || extension[0] == SEMICOLON
    ensures FindCrlf(digits + extension, i) == None
    decreases |digits| - i
  {
    if i < |digits| {
      assert (digits + extension)[i] == digits[i];
      CrlfAfterDigits(digits, extension, i + 1);
    } else {
      NoneBehind(digits, extension, 0);
    }
  }

  lemma {:induction false} NoneBehind(front: Str, rest: Str, i: nat)
    requires i <= |rest| && FindCrlf(rest, i) == None
    ensures FindCrlf(front + rest, |front| + i) == None
    decreases |rest| - i
  {
    if i + 1 < |rest| {
      assert (front + rest)[|front| + i] == rest[i] && (front + rest)[|front| + i + 1] == rest[i + 1];
      NoneBehind(front, rest, i + 1);
    }
  }

  lemma {:induction false} SizeLineIsGood(digits: Str, extension: Str, size: nat)
    requires RfcSize(digits, extension, size)
    ensures NoCrlf(digits + extension) && SizeOf(CHUNK_SIZE, digits + extension) == Some(size)
  {
    SizeLineReads(digits, extension);
    forall k | 0 <= k < |digits| ensures digits[k] != CR {
      DigitsAreDigits(digits, k);
    }
    CrlfAfterDigits(digits, extension, 0);
  }

  lemma {:induction false} RfcChunksAreGood(chunks: seq<RfcChunk>)
    requires AllRfcForm(chunks)
    ensures GoodChunks(CHUNK_SIZE, Sent(chunks))
  {
    if chunks != [] {
      var first := chunks[0];
      SizeLineIsGood(first.digits, first.extension, |first.data|);
      RfcChunksAreGood(chunks[1..]);
      assert Sent(chunks)[1..] == Sent(chunks[1..]);
    }
  }

  /** A body in the RFC's form, with sizes in either case of digits and with any zeros in front,
      extensions and trailers, comes back within the limit and only then. */
  lemma RfcRoundTrip(chunks: seq<RfcChunk>, zeros: Str, extension: Str, trailers: seq<Str>, rest: seq<byte>, max: nat)
    requires AllRfcForm(chunks) && RfcSize(zeros, extension, 0) && GoodTrailers(trailers)
    ensures var data := Data(Sent(chunks));
            Decoded(CHUNK_SIZE, Encoded(Encoding(Sent(chunks), zeros + extension, trailers)) + rest, max) ==
            if Saturate(|data|) <= max then Ok(data) else Err(BodyTooLarge)
  {
    RfcChunksAreGood(chunks);
    SizeLineIsGood(zeros, extension, 0);
    ChunkedRoundTrip(CHUNK_SIZE, Encoding(Sent(chunks), zeros + extension, trailers), rest, max);
  }
}
