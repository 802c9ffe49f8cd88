/** Requests from HTTP/2 streams sent on over HTTP/1. */
module H2Proxy {
  import opened Prelude
  import opened Text
  import opened Sequences
  import opened Lines
  import opened Http1
  import opened Http1Clean
  import opened Http1Proxy
  import opened Http1Reread
  import opened Http1Relay

  /** h2_header: the first field of that name. */
  function FirstNamed(fields: seq<Header>, name: string): Option<Str> {
    if fields == [] then None
    else if Named(fields[0], name) then Some(fields[0].value)
    else FirstNamed(fields[1..], name)
  }

  predicate Pseudo(field: Header) {
    field.name != [] && field.name[0] == 58
  }

  function Regular(fields: seq<Header>): seq<Header> {
    if fields == [] then []
    else (if Pseudo(fields[0]) then [] else [fields[0]]) + Regular(fields[1..])
  }

  function Otherwise(value: Option<Str>, default: string): Str {
    match value
    case None => Ascii(default)
    case Some(value) => value
  }

  function Authority(fields: seq<Header>): seq<Header> {
    match FirstNamed(fields, ":authority")
    case None => []
    case Some(value) => [Header(Ascii("host"), value)]
  }

  /** The request line and the fields that handle_h2_request makes of a stream's header fields. */
  function H2Head(fields: seq<Header>): Head {
    Head(Otherwise(FirstNamed(fields, ":method"), "GET"), Otherwise(FirstNamed(fields, ":path"), "/"),
         Ascii("HTTP/2.0"), Regular(fields) + Authority(fields))
  }

  /** A request from a stream reads back from what the upstream is sent if and only if its rebuilt
      head is clean; when the fields are, exactly when the values from the configuration fit. */
  lemma H2ReadsBack(via: Via, fields: seq<Header>, body: seq<byte>, rest: seq<byte>)
    requires |body| < USIZE
    ensures var request := Whole(H2Head(fields), body);
            var head := ProxyHead(via, request.head, request.Length());
            && (ReadsAs(Forwarded(via, request) + rest, |body|, Whole(head, body)) <==> CleanHead(head))
            && (CleanHead(H2Head(fields)) ==> (CleanHead(head) <==> ViaFits(via, H2Head(fields))))
  {
    var request := Whole(H2Head(fields), body);
    SentOnReadsBack(via, request, rest);
    if CleanHead(H2Head(fields)) {
      ProxyHeadFits(via, request.head, request.Length());
    }
  }

  // ----- What the upstream reads

  lemma {:induction false} FirstValue(fields: seq<Header>, name: string)
    ensures FirstNamed(fields, name) == if Values(fields, name) == [] then None else Some(Values(fields, name)[0])
  {
    if fields != [] {
      FirstValue(fields[1..], name);
      HeadAndTail(fields);
      OneValue(fields[0], name);
      ValuesConcat([fields[0]], fields[1..], name);
    }
  }

  /** The first of the values, or the default. */
  function FirstOr(values: seq<Str>, default: string): Str {
    if values == [] then Ascii(default) else values[0]
  }

  lemma AuthorityIsManaged(websocket: bool, fields: seq<Header>)
    ensures ClientFields(websocket, H2Head(fields).headers) == ClientFields(websocket, Regular(fields))
  {
    ClientConcat(websocket, Regular(fields), Authority(fields));
    if Authority(fields) != [] {
      var host := Authority(fields)[0];
      assert Authority(fields) == [host];
      IsOwn(host);
      OneClient(websocket, host);
    }
    Nothing(ClientFields(websocket, Regular(fields)));
  }

  /** What the upstream reads of a request from a stream. */
  ghost predicate RelaysStream(via: Via, fields: seq<Header>, body: seq<byte>, octets: seq<byte>) {
    var sent := Request(octets, |body|);
    sent.Ok? && sent.value.body == body && IsOfStream(via, fields, sent.value.head)
  }

  ghost predicate IsOfStream(via: Via, fields: seq<Header>, sent: Head) {
    && sent.verb == FirstOr(Values(fields, ":method"), "GET") && sent.version == Ascii("HTTP/1.1")
    && (exists path, query ::
          Retargets(via.rewrite, FirstOr(Values(fields, ":path"), "/"), sent.target, path, query))
    && ClientFields(via.websocket, sent.headers) == ClientFields(via.websocket, Regular(fields))
    && Values(sent.headers, "host") != [] && AllAre(Values(sent.headers, "host"), via.host)
  }

  lemma HeadOfStream(via: Via, fields: seq<Header>, length: nat, sent: Head)
    requires Relays(via, H2Head(fields), length, sent)
    ensures IsOfStream(via, fields, sent)
  {
    HeadSays(fields);
    AuthorityIsManaged(via.websocket, fields);
    var path, query :| Retargets(via.rewrite, H2Head(fields).target, sent.target, path, query);
    assert Retargets(via.rewrite, FirstOr(Values(fields, ":path"), "/"), sent.target, path, query);
  }

  lemma HeadSays(fields: seq<Header>)
    ensures var head := H2Head(fields);
            && head.verb == FirstOr(Values(fields, ":method"), "GET")
            && head.target == FirstOr(Values(fields, ":path"), "/") && head.version == Ascii("HTTP/2.0")
  {
    FirstValue(fields, ":method");
    FirstValue(fields, ":path");
  }

  /** A request from a stream whose rebuilt head is clean reaches the upstream with its method, its
      path, its fields and its body. */
  lemma StreamIsRelayed(via: Via, fields: seq<Header>, body: seq<byte>, rest: seq<byte>)
    requires |body| < USIZE
    requires CleanHead(ProxyHead(via, H2Head(fields), Whole(H2Head(fields), body).Length()))
    ensures RelaysStream(via, fields, body, Forwarded(via, Whole(H2Head(fields), body)) + rest)
  {
    var request := Whole(H2Head(fields), body);
    CleanIsRelayed(via, request, rest);
    HeadOfStream(via, fields, |body|, Request(Forwarded(via, request) + rest, |body|).value.head);
  }

  // ----- A field that does not fit a line

  /** A field named x, whose value has a line end in it. */
  const LINE_END_FIELD := Header([120], TWO_LINES)

  lemma {:induction false} RegularHolds(fields: seq<Header>, field: Header)
    requires field in fields && !Pseudo(field)
    ensures field in Regular(fields)
  {
    if field != fields[0] {
      RegularHolds(fields[1..], field);
    }
  }

  lemma ShortName(name: string)
    requires |name| != 1
    ensures !Named(LINE_END_FIELD, name)
  {
    assert Ascii("x") == [120];
    OtherName("x", name, TWO_LINES);
  }

  lemma LineEndPasses(via: Via)
    ensures Passed(via, LINE_END_FIELD) == [LINE_END_FIELD]
  {
    ShortName("host");
    ShortName("x-real-ip");
    ShortName("x-forwarded-for");
    ShortName("x-forwarded-proto");
    ShortName("content-length");
    ShortName("transfer-encoding");
    ShortName("connection");
    ShortName("proxy-connection");
    ShortName("keep-alive");
  }

  lemma {:induction false} PassedOnHolds(via: Via, headers: seq<Header>, field: Header)
    requires field in headers && Passed(via, field) == [field]
    ensures field in AllPassed(via, headers)
  {
    var front, last := headers[..|headers| - 1], headers[|headers| - 1];
    if field != last {
      assert field in front;
      PassedOnHolds(via, front, field);
    }
  }

  /** A decoded field may hold any text, a line end included, and is passed on as it is: no reader
      finds the head that was meant. */
  lemma LineEndBreaksHead(via: Via, fields: seq<Header>, body: seq<byte>, rest: seq<byte>)
    requires LINE_END_FIELD in fields && |body| < USIZE
    ensures Utf8(LINE_END_FIELD.name) && Utf8(LINE_END_FIELD.value)
    ensures var request := Whole(H2Head(fields), body);
            !ReadsAs(Forwarded(via, request) + rest, |body|,
                     Whole(ProxyHead(via, request.head, request.Length()), body))
  {
    var request := Whole(H2Head(fields), body);
    var headers := ProxyHeaders(via, request.head.headers, request.Length());
    RegularHolds(fields, LINE_END_FIELD);
    LineEndPasses(via);
    PassedOnHolds(via, request.head.headers, LINE_END_FIELD);
    assert LINE_END_FIELD in headers;
    NotClean(headers);
    SentOnReadsBack(via, request, rest);
  }

  lemma NotClean(headers: seq<Header>)
    requires LINE_END_FIELD in headers
    ensures Utf8(LINE_END_FIELD.name) && Utf8(LINE_END_FIELD.value)
    ensures !CleanHeaders(headers)
  {
    assert CrlfAt(TWO_LINES, 1);
    AsciiIsUtf8([120]);
    AsciiIsUtf8(TWO_LINES);
  }
}
