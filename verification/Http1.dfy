/** HTTP/1 request heads: the lines read from a client and the header fields in them. */
module Http1 {
  import opened Prelude
  import opened Text
  import opened Buffers
  import opened Lines

  const COLON: byte := 58

  /** A request without its body. */
  datatype Head = Head(verb: Str, target: Str, version: Str, headers: seq<Header>)

  // ----- Lines and words

  /** The text from `position` on, cut at every CRLF. */
  function LinesFrom(text: Str, position: nat): (lines: seq<Str>)
    requires position <= |text|
    ensures lines != []
    decreases |text| - position
  {
    match FindCrlf(text, position)
    case None => [Octets(text, position, |text| - position)]
    case Some(end) => [Octets(text, position, end - position)] + LinesFrom(text, end + 2)
  }

  function SkipSpaces(s: Str, i: nat): (j: nat)
    requires i <= |s|
    ensures i <= j <= |s|
    decreases |s| - i
  {
    if SpaceAt(s, i) == 0 then i else SkipSpaces(s, i + SpaceAt(s, i))
  }

  function WordEnd(s: Str, i: nat): (j: nat)
    requires i <= |s|
    ensures i <= j <= |s|
    decreases |s| - i
  {
    if i == |s| || SpaceAt(s, i) > 0 then i else WordEnd(s, i + 1)
  }

  /** The next word of split_whitespace. */
  function Word(s: Str, i: nat): (r: Option<Read<Str>>)
    requires i <= |s|
    ensures r.Some? ==> i < r.value.next <= |s| && r.value.value != []
  {
    var start := SkipSpaces(s, i);
    var end := WordEnd(s, start);
    if start == end then None else Some(Read(s[start..end], end))
  }

  // ----- Header fields

  function FindByte(s: Str, b: byte, i: nat): (r: Option<nat>)
    ensures r.Some? ==> i <= r.value < |s| && s[r.value] == b
    ensures r.Some? ==> forall k | i <= k < r.value :: s[k] != b
    ensures r.None? ==> forall k | i <= k < |s| :: s[k] != b
    decreases |s| - i
  {
    if i >= |s| then None else if s[i] == b then Some(i) else FindByte(s, b, i + 1)
  }

  /** A line with a colon, split there; white space around both parts is dropped. */
  function HeaderOf(line: Str): Option<Header> {
    match FindByte(line, COLON, 0)
    case None => None
    case Some(i) => Some(Header(Trim(line[..i]), Trim(line[i + 1..])))
  }

  function HeadersOf(lines: seq<Str>): seq<Header> {
    if lines == [] then []
    else
      HeadersOf(lines[..|lines| - 1]) +
      match HeaderOf(lines[|lines| - 1])
      case None => []
      case Some(header) => [header]
  }

  predicate Digits(s: Str) {
    s != [] && forall i | 0 <= i < |s| :: 48 <= s[i] <= 57
  }

  /** parse::<usize>().unwrap_or(0) */
  function ParseLength(s: Str): nat {
    var digits := if s != [] && s[0] == 43 then s[1..] else s;
    if Digits(digits) && DecimalValue(digits) < USIZE then DecimalValue(digits) else 0
  }

  predicate Named(header: Header, name: string) {
    SameIgnoringCase(header.name, Ascii(name))
  }

  /** The last Content-Length. */
  function LengthOf(headers: seq<Header>): Option<nat> {
    if headers == [] then None
    else
      var header := headers[|headers| - 1];
      if Named(header, "content-length") then Some(ParseLength(header.value))
      else LengthOf(headers[..|headers| - 1])
  }

  predicate StartsAt(s: Str, text: Str, i: nat) {
    i + |text| <= |s| && s[i..i + |text|] == text
  }

  predicate Contains(s: Str, text: Str) {
    exists i | 0 <= i <= |s| :: StartsAt(s, text, i)
  }

  predicate SaysChunked(header: Header) {
    Named(header, "transfer-encoding") && Contains(Lower(header.value), Ascii("chunked"))
  }

  predicate ChunkedOf(headers: seq<Header>) {
    headers != [] && (ChunkedOf(headers[..|headers| - 1]) || SaysChunked(headers[|headers| - 1]))
  }

  // ----- The head

  function StartLine(line: Str): Result<Head> {
    match Word(line, 0)
    case None => Err(MissingMethod)
    case Some(verb) =>
      match Word(line, verb.next)
      case None => Err(MissingTarget)
      case Some(target) =>
        match Word(line, target.next)
        case None => Err(MissingVersion)
        case Some(version) => Ok(Head(verb.value, target.value, version.value, []))
  }

  function HeadOf(lines: seq<Str>): Result<Head>
    requires lines != []
  {
    match StartLine(lines[0])
    case Err(e) => Err(e)
    case Ok(head) => Ok(head.(headers := HeadersOf(lines[1..])))
  }

  /** What the octets before the empty line say. */
  function ParseHead(bytes: seq<byte>): Result<Head> {
    HeadOf(LinesFrom(Lossy(bytes), 0))
  }

  method ReadHead(bytes: seq<byte>) returns (r: Result<Head>, length: Option<nat>, chunked: bool)
    ensures r == ParseHead(bytes)
    ensures r.Ok? ==> length == LengthOf(r.value.headers) && chunked == ChunkedOf(r.value.headers)
  {
    var lines := LinesFrom(Lossy(bytes), 0);
    var start := StartLine(lines[0]);
    length, chunked := None, false;
    if start.Err? {
      return start, length, chunked;
    }
    var rest := lines[1..];
    var headers: seq<Header> := [];
    for i := 0 to |rest|
      invariant headers == HeadersOf(rest[..i])
      invariant length == LengthOf(headers) && chunked == ChunkedOf(headers)
    {
      assert rest[..i + 1][..i] == rest[..i];
      var header := HeaderOf(rest[i]);
      if header.Some? {
        if Named(header.value, "content-length") {
          length := Some(ParseLength(header.value.value));
        }
        if SaysChunked(header.value) {
          chunked := true;
        }
        assert (headers + [header.value])[..|headers|] == headers;
        headers := headers + [header.value];
      }
    }
    assert rest[..|rest|] == rest;
    return Ok(start.value.(headers := headers)), length, chunked;
  }

  /** find_header_end: the first empty line. */
  function HeaderEnd(input: seq<byte>, position: nat): (r: Option<nat>)
    ensures r.Some? ==> position <= r.value && r.value + 4 <= |input|
    decreases |input| - position
  {
    if position + 4 > |input| then None
    else if CrlfAt(input, position) && CrlfAt(input, position + 2) then Some(position)
    else HeaderEnd(input, position + 1)
  }
}
