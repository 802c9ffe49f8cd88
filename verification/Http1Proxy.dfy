/** A request read from a client and sent on to an upstream, its body streamed behind it. */
module Http1Proxy {
  import opened Prelude
  import opened Text
  import opened Buffers
  import opened Lines
  import opened Network
  import opened Http1
  import opened ChunkedBody
  import opened Config
  import opened Sequences

  const MAX_HEAD: nat := 65536

  /** What the proxy knows besides the request. */
  datatype Via = Via(host: Str, remoteIp: Str, websocket: bool, rewrite: Option<ProxyRewrite>)

  // ----- The rebuilt head

  /** proxy_target: the prefix of the path is replaced, the query stays. */
  function ProxyTarget(target: Str, rewrite: Option<ProxyRewrite>): Str {
    match FindByte(target, 63, 0)
    case None => RewritePath(target, rewrite)
    case Some(i) => RewritePath(target[..i], rewrite) + target[i..]
  }

  function RewritePath(path: Str, rewrite: Option<ProxyRewrite>): Str {
    if rewrite.Some? && rewrite.value.kind == Ascii("replacePrefix") && rewrite.value.from <= path then
      rewrite.value.to + path[|rewrite.value.from|..]
    else path
  }

  function ProxyVersion(version: Str): Str {
    if SameIgnoringCase(version, Ascii("HTTP/2.0")) then Ascii("HTTP/1.1") else version
  }

  predicate Forwarding(header: Header) {
    Named(header, "x-real-ip") || Named(header, "x-forwarded-for") || Named(header, "x-forwarded-proto")
  }

  predicate Framing(header: Header) {
    Named(header, "content-length") || Named(header, "transfer-encoding")
  }

  predicate HopByHop(header: Header) {
    Named(header, "connection") || Named(header, "proxy-connection") || Named(header, "keep-alive")
  }

  function Passed(via: Via, header: Header): seq<Header> {
    if Named(header, "host") then [Header(Ascii("Host"), via.host)]
    else if Forwarding(header) || Framing(header) || (!via.websocket && HopByHop(header)) then []
    else [header]
  }

  function AllPassed(via: Via, headers: seq<Header>): seq<Header> {
    if headers == [] then []
    else AllPassed(via, headers[..|headers| - 1]) + Passed(via, headers[|headers| - 1])
  }

  predicate HasHost(headers: seq<Header>) {
    headers != [] && (HasHost(headers[..|headers| - 1]) || Named(headers[|headers| - 1], "host"))
  }

  /** The last X-Forwarded-For. */
  function ForwardedFor(headers: seq<Header>): Option<Str> {
    if headers == [] then None
    else if Named(headers[|headers| - 1], "x-forwarded-for") then Some(headers[|headers| - 1].value)
    else ForwardedFor(headers[..|headers| - 1])
  }

  function Chain(via: Via, existing: Option<Str>): Str {
    if existing.Some? && existing.value != [] then existing.value + [44, 32] + via.remoteIp else via.remoteIp
  }

  function HostField(via: Via, wroteHost: bool): seq<Header> {
    if wroteHost then [] else [Header(Ascii("Host"), via.host)]
  }

  function RouteFields(via: Via, forwardedFor: Option<Str>): seq<Header> {
    [Header(Ascii("X-Real-IP"), via.remoteIp),
     Header(Ascii("X-Forwarded-For"), Chain(via, forwardedFor)),
     Header(Ascii("X-Forwarded-Proto"), Ascii("http"))]
  }

  function CloseField(via: Via): seq<Header> {
    if via.websocket then [] else [Header(Ascii("Connection"), Ascii("close"))]
  }

  function LengthField(length: Option<nat>): seq<Header> {
    if length.Some? then [Header(Ascii("Content-Length"), Decimal(length.value))] else []
  }

  function ProxyHeaders(via: Via, headers: seq<Header>, length: Option<nat>): seq<Header> {
    AllPassed(via, headers) + HostField(via, HasHost(headers)) + RouteFields(via, ForwardedFor(headers)) +
    CloseField(via) + LengthField(length)
  }

  function FieldLine(header: Header): Str {
    header.name + [58, 32] + header.value
  }

  function FieldsBytes(headers: seq<Header>): seq<byte> {
    if headers == [] then []
    else FieldsBytes(headers[..|headers| - 1]) + (FieldLine(headers[|headers| - 1]) + CRLF)
  }

  function RequestLine(head: Head): Str {
    head.verb + [32] + head.target + [32] + head.version
  }

  /** A head as octets, with the empty line that ends it. */
  function HeadBytes(head: Head): seq<byte> {
    RequestLine(head) + CRLF + FieldsBytes(head.headers) + CRLF
  }

  /** The head the upstream gets. */
  function ProxyHead(via: Via, head: Head, length: Option<nat>): Head {
    Head(head.verb, ProxyTarget(head.target, via.rewrite), ProxyVersion(head.version),
         ProxyHeaders(via, head.headers, length))
  }

  lemma {:induction false} FieldsConcat(a: seq<Header>, b: seq<Header>)
    ensures FieldsBytes(a + b) == FieldsBytes(a) + FieldsBytes(b)
  {
    if b == [] {
      assert a + b == a;
    } else {
      assert (a + b)[..|a + b| - 1] == a + b[..|b| - 1];
      FieldsConcat(a, b[..|b| - 1]);
    }
  }

  lemma OneField(out: seq<byte>, headers: seq<Header>, header: Header)
    ensures out + FieldsBytes(headers) + (FieldLine(header) + CRLF) == out + FieldsBytes(headers + [header])
  {
    assert (headers + [header])[..|headers|] == headers;
  }

  method WriteField(out: seq<byte>, ghost start: seq<byte>, ghost headers: seq<Header>, header: Header)
    returns (result: seq<byte>)
    requires out == start + FieldsBytes(headers)
    ensures result == start + FieldsBytes(headers + [header])
  {
    OneField(start, headers, header);
    result := out + (header.name + [58, 32] + header.value + CRLF);
    assert header.name + [58, 32] + header.value + CRLF == FieldLine(header) + CRLF;
  }

  lemma {:induction false} NextField(via: Via, headers: seq<Header>, i: nat)
    requires i < |headers|
    ensures AllPassed(via, headers[..i + 1]) == AllPassed(via, headers[..i]) + Passed(via, headers[i])
    ensures HasHost(headers[..i + 1]) == (HasHost(headers[..i]) || Named(headers[i], "host"))
    ensures ForwardedFor(headers[..i + 1]) ==
            if Named(headers[i], "x-forwarded-for") then Some(headers[i].value) else ForwardedFor(headers[..i])
  {
    assert headers[..i + 1][..i] == headers[..i];
  }

  method WriteHeaders(via: Via, headers: seq<Header>, out: seq<byte>)
    returns (result: seq<byte>, wroteHost: bool, forwardedFor: Option<Str>)
    ensures result == out + FieldsBytes(AllPassed(via, headers))
    ensures wroteHost == HasHost(headers) && forwardedFor == ForwardedFor(headers)
  {
    result, wroteHost, forwardedFor := out, false, None;
    assert out + [] == out;
    for i := 0 to |headers|
      invariant result == out + FieldsBytes(AllPassed(via, headers[..i]))
      invariant wroteHost == HasHost(headers[..i]) && forwardedFor == ForwardedFor(headers[..i])
    {
      NextField(via, headers, i);
      var header := headers[i];
      ghost var passed := AllPassed(via, headers[..i]);
      Nothing(passed);
      if Named(header, "host") {
        wroteHost := true;
        result := WriteField(result, out, passed, Header(Ascii("Host"), via.host));
        continue;
      }
      if Forwarding(header) {
        if Named(header, "x-forwarded-for") {
          forwardedFor := Some(header.value);
        }
        continue;
      }
      if Framing(header) {
        continue;
      }
      if !via.websocket && HopByHop(header) {
        continue;
      }
      result := WriteField(result, out, passed, header);
    }
    assert headers[..|headers|] == headers;
  }

  lemma ConcatThree(a: seq<byte>, b: seq<byte>, c: seq<byte>)
    ensures a + b + c == a + (b + c)
    ensures a + [] == a
  {}

  method WriteOptional(out: seq<byte>, ghost start: seq<byte>, ghost headers: seq<Header>, fields: seq<Header>)
    returns (result: seq<byte>)
    requires out == start + FieldsBytes(headers) && |fields| <= 1
    ensures result == start + FieldsBytes(headers + fields)
  {
    result := out;
    if fields != [] {
      assert fields == [fields[0]];
      result := WriteField(out, start, headers, fields[0]);
    } else {
      assert headers + [] == headers;
    }
  }

  method WriteRoute(via: Via, out: seq<byte>, ghost start: seq<byte>, ghost headers: seq<Header>,
                    forwardedFor: Option<Str>)
    returns (result: seq<byte>)
    requires out == start + FieldsBytes(headers)
    ensures result == start + FieldsBytes(headers + RouteFields(via, forwardedFor))
  {
    var fields := RouteFields(via, forwardedFor);
    result := WriteField(out, start, headers, fields[0]);
    result := WriteField(result, start, headers + [fields[0]], fields[1]);
    result := WriteField(result, start, headers + [fields[0]] + [fields[1]], fields[2]);
    assert headers + [fields[0]] + [fields[1]] + [fields[2]] == headers + fields;
  }

  method WriteOwnHeaders(via: Via, out: seq<byte>, ghost start: seq<byte>, ghost headers: seq<Header>,
                         wroteHost: bool, forwardedFor: Option<Str>, length: Option<nat>)
    returns (result: seq<byte>)
    requires out == start + FieldsBytes(AllPassed(via, headers))
    requires wroteHost == HasHost(headers) && forwardedFor == ForwardedFor(headers)
    ensures result == start + FieldsBytes(ProxyHeaders(via, headers, length))
  {
    ghost var written := AllPassed(via, headers);
    result := WriteOptional(out, start, written, HostField(via, wroteHost));
    written := written + HostField(via, wroteHost);
    result := WriteRoute(via, result, start, written, forwardedFor);
    written := written + RouteFields(via, forwardedFor);
    result := WriteOptional(result, start, written, CloseField(via));
    written := written + CloseField(via);
    result := WriteOptional(result, start, written, LengthField(length));
  }

  /** build_proxy_request, up to the body. */
  method BuildProxyHead(via: Via, head: Head, length: Option<nat>) returns (result: seq<byte>)
    ensures result == HeadBytes(ProxyHead(via, head, length))
  {
    var start := head.verb + [32] + ProxyTarget(head.target, via.rewrite) + [32] + ProxyVersion(head.version) + CRLF;
    var out, wroteHost, forwardedFor := WriteHeaders(via, head.headers, start);
    result := WriteOwnHeaders(via, out, start, head.headers, wroteHost, forwardedFor, length);
    result := result + CRLF;
  }

  // ----- What a whole stream of octets asks for

  datatype Whole = Whole(head: Head, body: seq<byte>) {
    /** The length written for the upstream; none for an empty body. */
    function Length(): Option<nat> {
      if body == [] then None else Some(|body|)
    }
  }

  function Rest(input: seq<byte>, position: nat): seq<byte>
    requires position <= |input|
  {
    Octets(input, position, |input| - position)
  }

  function DeclaredLength(headers: seq<Header>): nat {
    match LengthOf(headers)
    case None => 0
    case Some(n) => n
  }

  /** The body behind a head. */
  function BodyOf(input: seq<byte>, start: nat, headers: seq<Header>, max: nat): Result<seq<byte>>
    requires start <= |input|
  {
    if ChunkedOf(headers) then Decoded(CHUNK_SIZE, Rest(input, start), max)
    else
      var n := DeclaredLength(headers);
      if n > max then Err(BodyTooLarge)
      else if start + n > |input| then Err(ConnectionClosed)
      else Ok(Octets(input, start, n))
  }

  /** The request at the head of `input`. */
  function Request(input: seq<byte>, max: nat): Result<Whole> {
    match HeaderEnd(input, 0)
    case None => Err(ConnectionClosed)
    case Some(end) =>
      match ParseHead(Octets(input, 0, end))
      case Err(e) => Err(e)
      case Ok(head) =>
        match BodyOf(input, end + 4, head.headers, max)
        case Err(e) => Err(e)
        case Ok(body) => Ok(Whole(head, body))
  }

  /** What the upstream is sent for it. */
  function Forwarded(via: Via, request: Whole): seq<byte> {
    HeadBytes(ProxyHead(via, request.head, request.Length())) + request.body
  }

  // ----- Reading the head

  lemma {:induction false} HeadFoundEarly(buffer: seq<byte>, whole: seq<byte>, position: nat)
    requires buffer <= whole
    ensures HeaderEnd(buffer, position).Some? ==> HeaderEnd(whole, position) == HeaderEnd(buffer, position)
    ensures HeaderEnd(buffer, position).None? && HeaderEnd(whole, position).Some? ==>
              HeaderEnd(whole, position).value + 4 > |buffer|
    decreases |buffer| - position
  {
    if position + 4 <= |buffer| {
      assert CrlfAt(buffer, position) == CrlfAt(whole, position);
      assert CrlfAt(buffer, position + 2) == CrlfAt(whole, position + 2);
      HeadFoundEarly(buffer, whole, position + 1);
    }
  }

  /** No empty line within 64 KiB. */
  predicate TooLong(whole: seq<byte>) {
    |whole| > MAX_HEAD && (HeaderEnd(whole, 0).Some? ==> HeaderEnd(whole, 0).value + 4 > MAX_HEAD)
  }

  datatype Buffered = Buffered(buffer: seq<byte>, end: nat)

  /** The loop that reads up to the empty line. A head within 64 KiB is always read, one that
      ends more than one read beyond is always refused; in between, the reads decide. */
  method ReadHeaders(client: TcpStream, ghost whole: seq<byte>) returns (r: Result<Option<Buffered>>)
    requires Feeds(client, [], whole)
    modifies client`position
    ensures client.Valid()
    ensures r == Ok(None) <==> whole == []
    ensures r.Ok? && r.value.Some? ==>
              var b := r.value.value;
              && Feeds(client, b.buffer, whole) && HeaderEnd(whole, 0) == Some(b.end)
              && b.end + 4 <= |b.buffer| <= MAX_HEAD + 1024
    ensures r.Err? ==> r.error == HeadersTooLarge || r.error == ConnectionClosed
    ensures r == Err(HeadersTooLarge) ==> TooLong(whole)
    ensures r == Err(ConnectionClosed) ==> HeaderEnd(whole, 0).None? && |whole| <= MAX_HEAD
  {
    var buffer := [];
    while true
      invariant Feeds(client, buffer, whole) && |buffer| <= MAX_HEAD
      invariant HeaderEnd(buffer, 0).None?
      decreases |whole| - |buffer|
    {
      var filled := Refill(client, buffer, 1024, whole);
      HeadFoundEarly(filled, whole, 0);
      if filled == buffer {
        return if buffer == [] then Ok(None) else Err(ConnectionClosed);
      }
      buffer := filled;
      var end := HeaderEnd(buffer, 0);
      if end.Some? {
        return Ok(Some(Buffered(buffer, end.value)));
      }
      if |buffer| > MAX_HEAD {
        return Err(HeadersTooLarge);
      }
    }
  }

  // ----- Reading the request

  /** A request whose body may still be on its way. */
  datatype Received = Received(head: Head, body: seq<byte>, length: Option<nat>, complete: bool)

  /** `r` was read from `whole`: a chunked body is there in full; of another, a prefix, and then
      nothing behind it has been taken from the connection. */
  ghost predicate ReadFrom(r: Received, whole: seq<byte>, max: nat, taken: int) {
    var end := HeaderEnd(whole, 0);
    && end.Some?
    && ParseHead(Octets(whole, 0, end.value)) == Ok(r.head)
    && if ChunkedOf(r.head.headers) then
         && BodyOf(whole, end.value + 4, r.head.headers, max) == Ok(r.body)
         && r.complete && r.length == Whole(r.head, r.body).Length()
       else
         var n := DeclaredLength(r.head.headers);
         && n <= max && r.length == (if n == 0 then None else Some(n))
         && |r.body| <= n && end.value + 4 + |r.body| <= |whole|
         && r.body == Octets(whole, end.value + 4, |r.body|)
         && (r.complete <==> |r.body| == n)
         && (!r.complete ==> taken == end.value + 4 + |r.body|)
  }

  lemma {:induction false} RestOfConcat(buffer: seq<byte>, rest: seq<byte>, start: nat)
    requires start <= |buffer|
    ensures Rest(buffer + rest, start) == Rest(buffer, start) + rest
  {
    OctetsSlice(buffer, start, |buffer| - start);
    OctetsSlice(buffer + rest, start, |buffer + rest| - start);
    assert (buffer + rest)[start..] == buffer[start..] + rest;
    assert (buffer + rest)[start..] == (buffer + rest)[start..|buffer + rest|];
    assert buffer[start..] == buffer[start..|buffer|];
  }

  lemma {:induction false} RestOfWhole(buffer: seq<byte>, rest: seq<byte>, start: nat, whole: seq<byte>)
    requires start <= |buffer| && whole == buffer + rest
    ensures Rest(whole, start) == Rest(buffer, start) + rest
  {
    RestOfConcat(buffer, rest, start);
  }

  method ReadBufferedChunks(client: TcpStream, b: Buffered, max: nat, ghost whole: seq<byte>)
    returns (r: Result<seq<byte>>)
    requires Feeds(client, b.buffer, whole) && b.end + 4 <= |b.buffer|
    modifies client`position
    ensures client.Valid() && r == Decoded(CHUNK_SIZE, Rest(whole, b.end + 4), max)
  {
    ghost var coming := Rest(client.input, client.position);
    assert whole == b.buffer + coming;
    RestOfWhole(b.buffer, coming, b.end + 4, whole);
    r := ReadChunkedBody(client, Rest(b.buffer, b.end + 4), max);
  }

  method ReadBody(client: TcpStream, b: Buffered, head: Head, length: Option<nat>, chunked: bool, max: nat,
                  ghost whole: seq<byte>)
    returns (r: Result<Received>)
    requires Feeds(client, b.buffer, whole) && b.end + 4 <= |b.buffer|
    requires HeaderEnd(whole, 0) == Some(b.end) && ParseHead(Octets(whole, 0, b.end)) == Ok(head)
    requires length == LengthOf(head.headers) && chunked == ChunkedOf(head.headers)
    modifies client`position
    ensures client.Valid()
    ensures match r
            case Err(e) => BodyOf(whole, b.end + 4, head.headers, max) == Err(e)
            case Ok(received) =>
              && received.head == head
              && ReadFrom(received, whole, max, client.position - (|client.input| - |whole|))
  {
    if chunked {
      var body := ReadBufferedChunks(client, b, max, whole);
      if body.Err? { return Err(body.error); }
      return Ok(Received(head, body.value, if body.value == [] then None else Some(|body.value|), true));
    }
    var n := if length.Some? then length.value else 0;
    if n > max {
      return Err(BodyTooLarge);
    }
    var size := |b.buffer| - (b.end + 4);
    if size > n {
      size := n;
    }
    OctetsOfPrefix(b.buffer, whole, b.end + 4, size);
    var body := Octets(b.buffer, b.end + 4, size);
    return Ok(Received(head, body, if n == 0 then None else Some(n), |body| >= n));
  }

  /** The part of read_http_request behind its loop. */
  method ReadBehindHead(client: TcpStream, b: Buffered, max: nat, ghost whole: seq<byte>)
    returns (r: Result<Received>)
    requires Feeds(client, b.buffer, whole) && b.end + 4 <= |b.buffer| && HeaderEnd(whole, 0) == Some(b.end)
    modifies client`position
    ensures client.Valid()
    ensures match r
            case Err(e) => Request(whole, max) == Err(e)
            case Ok(received) => ReadFrom(received, whole, max, client.position - (|client.input| - |whole|))
  {
    OctetsOfPrefix(b.buffer, whole, 0, b.end);
    var head, length, chunked := ReadHead(Octets(b.buffer, 0, b.end));
    if head.Err? { return Err(head.error); }
    r := ReadBody(client, b, head.value, length, chunked, max, whole);
  }

  /** read_http_request */
  method ReadRequest(client: TcpStream, max: nat, ghost whole: seq<byte>) returns (r: Result<Option<Received>>)
    requires Feeds(client, [], whole)
    modifies client`position
    ensures client.Valid()
    ensures r == Ok(None) <==> whole == []
    ensures r.Ok? && r.value.Some? ==>
              ReadFrom(r.value.value, whole, max, client.position - (|client.input| - |whole|))
    ensures r.Err? ==> Request(whole, max) == Err(r.error) || (r.error == HeadersTooLarge && TooLong(whole))
  {
    var b := ReadHeaders(client, whole);
    if b.Err? { return Err(b.error); }
    if b.value.None? { return Ok(None); }
    var received := ReadBehindHead(client, b.value.value, max, whole);
    if received.Err? { return Err(received.error); }
    return Ok(Some(received.value));
  }

  // ----- Sending it on

  /** The octets of the body that are still to come. */
  function Missing(request: Received): nat {
    if request.complete || request.length.None? || |request.body| >= request.length.value then 0
    else request.length.value - |request.body|
  }

  /** `sent` octets from `start` on have been added to `before`. */
  predicate PassedOn(input: seq<byte>, start: nat, sent: nat, before: seq<byte>, output: seq<byte>) {
    start + sent <= |input| && output == before + Octets(input, start, sent)
  }

  lemma PassMore(input: seq<byte>, start: nat, sent: nat, before: seq<byte>, output: seq<byte>, chunk: seq<byte>)
    requires PassedOn(input, start, sent, before, output)
    requires start + sent + |chunk| <= |input| && chunk == Octets(input, start + sent, |chunk|)
    ensures PassedOn(input, start, sent + |chunk|, before, output + chunk)
  {
    OctetsJoin(input, start, sent, |chunk|);
    ConcatThree(before, Octets(input, start, sent), chunk);
  }

  /** stream_proxy_request_body: the rest of the body, and not one octet more. */
  method StreamBody(client: TcpStream, upstream: TcpStream, request: Received) returns (r: Result<()>)
    requires client.Valid() && client != upstream
    modifies client`position, upstream`output
    ensures client.Valid()
    ensures var left := |client.input| - old(client.position);
            var sent := if Missing(request) <= left then Missing(request) else left;
            && (r == if Missing(request) <= left then Ok(()) else Err(ConnectionClosed))
            && PassedOn(client.input, old(client.position), sent, old(upstream.output), upstream.output)
            && client.position == old(client.position) + sent
  {
    ghost var start, before := client.position, upstream.output;
    Nothing(before);
    if request.length.None? || request.complete {
      return Ok(());
    }
    var remaining: nat :=
      if |request.body| >= request.length.value then 0 else request.length.value - |request.body|;
    ghost var sent: nat := 0;
    while remaining > 0
      invariant client.Valid() && client.position == start + sent && sent + remaining == Missing(request)
      invariant PassedOn(client.input, start, sent, before, upstream.output)
      decreases remaining
    {
      var chunk := client.Read(if remaining < 8192 then remaining else 8192);
      if chunk == [] {
        return Err(ConnectionClosed);
      }
      PassMore(client.input, start, sent, before, upstream.output, chunk);
      upstream.WriteAll(chunk);
      remaining := remaining - |chunk|;
      sent := sent + |chunk|;
    }
    return Ok(());
  }

  /** A request that has been read in full is the one that `whole` begins with. */
  lemma ReadInFull(r: Received, whole: seq<byte>, max: nat, taken: int)
    requires ReadFrom(r, whole, max, taken) && r.complete
    ensures Request(whole, max) == Ok(Whole(r.head, r.body)) && r.length == Whole(r.head, r.body).Length()
  {}

  /** The rest of the body completes it, or the client has closed too early. */
  lemma ReadInPart(r: Received, whole: seq<byte>, max: nat, taken: nat)
    requires ReadFrom(r, whole, max, taken) && !r.complete && r.length.Some?
    ensures taken <= |whole| && |r.body| < r.length.value
    ensures var missing := r.length.value - |r.body|;
            if taken + missing <= |whole| then
              && Request(whole, max) == Ok(Whole(r.head, r.body + Octets(whole, taken, missing)))
              && r.length == Some(|r.body| + missing)
            else Request(whole, max) == Err(ConnectionClosed)
  {
    var end := HeaderEnd(whole, 0).value;
    var missing := r.length.value - |r.body|;
    if taken + missing <= |whole| {
      OctetsJoin(whole, end + 4, |r.body|, missing);
    }
  }

  lemma ConcatFour(a: seq<byte>, b: seq<byte>, c: seq<byte>, d: seq<byte>)
    ensures a + (b + c) + d == a + (b + (c + d))
  {}

  predicate HeadReads(whole: seq<byte>) {
    HeaderEnd(whole, 0).Some? && ParseHead(Octets(whole, 0, HeaderEnd(whole, 0).value)).Ok?
  }

  function HeadAt(whole: seq<byte>): Head
    requires HeadReads(whole)
  {
    ParseHead(Octets(whole, 0, HeaderEnd(whole, 0).value)).value
  }

  /** The client closed within the body: the head and all that came of the body were sent. */
  predicate CutShort(whole: seq<byte>, head: seq<byte>, before: seq<byte>, after: seq<byte>)
    requires HeadReads(whole)
  {
    var start, headers := HeaderEnd(whole, 0).value + 4, HeadAt(whole).headers;
    && !ChunkedOf(headers) && start + DeclaredLength(headers) > |whole|
    && after == before + (head + Rest(whole, start))
  }

  /** The head sent for a body of the length that was declared. */
  function DeclaredHead(via: Via, head: Head): seq<byte> {
    HeadBytes(ProxyHead(via, head, Some(DeclaredLength(head.headers))))
  }

  /** What is written for a request, by how much of its body was there and how much came. */
  lemma Written(via: Via, input: seq<byte>, max: nat, received: Received, taken: nat, sent: nat,
                before: seq<byte>, after: seq<byte>)
    requires ReadFrom(received, input, max, taken) && taken + sent <= |input|
    requires sent == if received.complete || received.length.None? then 0
                     else if taken + received.length.value - |received.body| <= |input|
                     then received.length.value - |received.body| else |input| - taken
    requires after == before +
                      (HeadBytes(ProxyHead(via, received.head, received.length)) + received.body) +
                      Octets(input, taken, sent)
    ensures match Request(input, max)
            case Ok(request) => after == before + Forwarded(via, request)
            case Err(e) =>
              && e == ConnectionClosed && HeadReads(input)
              && CutShort(input, DeclaredHead(via, HeadAt(input)), before, after)
  {
    if received.complete {
      ReadInFull(received, input, max, taken);
      assert received.body + [] == received.body;
      WrittenWhole(via, Whole(received.head, received.body), received, before, after, []);
    } else {
      ReadInPart(received, input, max, taken);
      var came := Octets(input, taken, sent);
      if taken + (received.length.value - |received.body|) <= |input| {
        WrittenWhole(via, Whole(received.head, received.body + came), received, before, after, came);
      } else {
        ShortFacts(input, max, received, taken);
        WrittenShort(input, received, taken, before, after,
                     HeadBytes(ProxyHead(via, received.head, received.length)));
      }
    }
  }

  lemma WrittenWhole(via: Via, request: Whole, received: Received, before: seq<byte>, after: seq<byte>,
                     came: seq<byte>)
    requires request == Whole(received.head, received.body + came) && received.length == request.Length()
    requires after == before +
                      (HeadBytes(ProxyHead(via, received.head, received.length)) + received.body) + came
    ensures after == before + Forwarded(via, request)
  {
    ConcatFour(before, HeadBytes(ProxyHead(via, received.head, received.length)), received.body, came);
  }

  /** What is known of a request whose body has not come in full. */
  lemma ShortFacts(input: seq<byte>, max: nat, received: Received, taken: nat)
    requires ReadFrom(received, input, max, taken) && !received.complete && received.length.Some?
    ensures HeadReads(input) && HeadAt(input) == received.head && !ChunkedOf(received.head.headers)
    ensures received.length == Some(DeclaredLength(received.head.headers))
    ensures taken == HeaderEnd(input, 0).value + 4 + |received.body| && taken <= |input|
    ensures received.body == Octets(input, HeaderEnd(input, 0).value + 4, |received.body|)
  {}

  lemma WrittenShort(input: seq<byte>, received: Received, taken: nat, before: seq<byte>, after: seq<byte>,
                     head: seq<byte>)
    requires HeadReads(input) && HeadAt(input) == received.head && !ChunkedOf(received.head.headers)
    requires received.length == Some(DeclaredLength(received.head.headers))
    requires taken == HeaderEnd(input, 0).value + 4 + |received.body| && taken <= |input|
    requires received.body == Octets(input, HeaderEnd(input, 0).value + 4, |received.body|)
    requires |input| < taken + (received.length.value - |received.body|)
    requires after == before + (head + received.body) + Octets(input, taken, |input| - taken)
    ensures CutShort(input, head, before, after)
  {
    ShortPieces(input, HeaderEnd(input, 0).value + 4, |received.body|, before, head);
  }

  lemma ShortPieces(input: seq<byte>, start: nat, n: nat, before: seq<byte>, head: seq<byte>)
    requires start + n <= |input|
    ensures before + (head + Octets(input, start, n)) + Octets(input, start + n, |input| - (start + n)) ==
            before + (head + Rest(input, start))
  {
    var left := |input| - (start + n);
    OctetsJoin(input, start, n, left);
    ConcatFour(before, head, Octets(input, start, n), Octets(input, start + n, left));
  }

  method SendOn(client: TcpStream, upstream: TcpStream, via: Via, max: nat, received: Received)
    returns (r: Result<()>)
    requires client.Valid() && client != upstream && ReadFrom(received, client.input, max, client.position)
    modifies client`position, upstream`output
    ensures match Request(client.input, max)
            case Ok(request) =>
              r == Ok(()) && upstream.output == old(upstream.output) + Forwarded(via, request)
            case Err(e) =>
              && r == Err(e) && HeadReads(client.input)
              && CutShort(client.input, DeclaredHead(via, HeadAt(client.input)), old(upstream.output), upstream.output)
  {
    var head := BuildProxyHead(via, received.head, received.length);
    upstream.WriteAll(head + received.body);
    ghost var taken := client.position;
    r := StreamBody(client, upstream, received);
    Written(via, client.input, max, received, taken, client.position - taken,
            old(upstream.output), upstream.output);
    ReadOrShort(received, client.input, max, taken);
  }

  lemma ReadOrShort(r: Received, whole: seq<byte>, max: nat, taken: nat)
    requires ReadFrom(r, whole, max, taken)
    ensures Request(whole, max).Ok? <==>
            (r.complete || taken + r.length.value - |r.body| <= |whole|)
  {
    if r.complete {
      ReadInFull(r, whole, max, taken);
    } else {
      ReadInPart(r, whole, max, taken);
    }
  }

  /** A request is read and sent on: whatever the reads, the upstream gets the rebuilt head with
      the length of the body, and then the body, no octet lost, repeated or overshot. When it
      fails, nothing was sent, or the head and all there was of a body cut short. */
  method ForwardRequest(client: TcpStream, upstream: TcpStream, via: Via, max: nat)
    returns (r: Result<Option<()>>)
    requires client.Valid() && client.position == 0 && client != upstream
    modifies client`position, upstream`output
    ensures r == Ok(None) <==> client.input == []
    ensures r == Ok(Some(())) ==>
              && Request(client.input, max).Ok?
              && upstream.output == old(upstream.output) + Forwarded(via, Request(client.input, max).value)
    ensures r.Err? ==>
              Request(client.input, max) == Err(r.error) || (r.error == HeadersTooLarge && TooLong(client.input))
    ensures r.Err? ==>
              || upstream.output == old(upstream.output)
              || (HeadReads(client.input) &&
                  CutShort(client.input, DeclaredHead(via, HeadAt(client.input)), old(upstream.output),
                           upstream.output))
  {
    OctetsSplit(client.input, 0);
    var request := ReadRequest(client, max, client.input);
    if request.Err? { return Err(request.error); }
    if request.value.None? { return Ok(None); }
    var sent := SendOn(client, upstream, via, max, request.value.value);
    if sent.Err? { return Err(sent.error); }
    return Ok(Some(()));
  }
}
