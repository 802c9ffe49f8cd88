/** What an upstream finds in the request it is sent: the client's, but for the fields that the proxy
    writes itself. */
module Http1Relay {
  import opened Prelude
  import opened Text
  import opened Sequences
  import opened Config
  import opened Http1
  import opened Http1Clean
  import opened Http1Proxy
  import opened Http1Reread

  /** The values of the fields with a name, in any letter case. */
  function Values(headers: seq<Header>, name: string): seq<Str> {
    if headers == [] then []
    else
      var last := headers[|headers| - 1];
      Values(headers[..|headers| - 1], name) + if SameIgnoringCase(last.name, Ascii(name)) then [last.value] else []
  }

  /** Fields that the proxy writes, or that say how the body comes. */
  const OWN_NAMES: seq<string> :=
    ["host", "x-real-ip", "x-forwarded-for", "x-forwarded-proto", "content-length", "transfer-encoding"]

  /** Fields of one connection, which only an upgrade to WebSocket passes on. */
  const HOP_NAMES: seq<string> := ["connection", "proxy-connection", "keep-alive"]

  predicate OneOf(header: Header, names: seq<string>) {
    exists k | 0 <= k < |names| :: SameIgnoringCase(header.name, Ascii(names[k]))
  }

  predicate Managed(websocket: bool, header: Header) {
    OneOf(header, OWN_NAMES) || (!websocket && OneOf(header, HOP_NAMES))
  }

  /** The fields that are nobody's but the client's. */
  function ClientFields(websocket: bool, headers: seq<Header>): seq<Header> {
    if headers == [] then []
    else
      var last := headers[|headers| - 1];
      ClientFields(websocket, headers[..|headers| - 1]) + if Managed(websocket, last) then [] else [last]
  }

  /** The target cut in front of its query: a prefix of the path is replaced if the rule matches. */
  predicate Retargets(rewrite: Option<ProxyRewrite>, target: Str, sent: Str, path: Str, query: Str) {
    && target == path + query && 63 !in path && (query == [] || query[0] == 63)
    && (if rewrite.Some? && rewrite.value.kind == Ascii("replacePrefix") && rewrite.value.from <= path
        then sent == rewrite.value.to + path[|rewrite.value.from|..] + query
        else sent == target)
  }

  /** X-Forwarded-For: the last one received, if it says anything, and the client behind it. */
  function Hops(received: seq<Str>, remoteIp: Str): Str {
    if received == [] || received[|received| - 1] == [] then remoteIp
    else received[|received| - 1] + Ascii(", ") + remoteIp
  }

  /** `length` octets of a body are announced. */
  predicate Announces(values: seq<Str>, length: nat) {
    if length == 0 then values == [] else |values| == 1 && SaysDecimal(values[0], length)
  }

  predicate SaysDecimal(value: Str, n: nat) {
    (forall k | 0 <= k < |value| :: 48 <= value[k] <= 57) && value != [] && DecimalValue(value) == n
  }

  predicate AllAre(values: seq<Str>, value: Str) {
    forall i | 0 <= i < |values| :: values[i] == value
  }

  /** The fields of the request sent on: the client's own in order, and each of the proxy's. */
  predicate RelaysFields(via: Via, received: seq<Header>, length: nat, sent: seq<Header>) {
    && ClientFields(via.websocket, sent) == ClientFields(via.websocket, received)
    && Values(sent, "host") != [] && AllAre(Values(sent, "host"), via.host)
    && |Values(sent, "host")| == (if Values(received, "host") == [] then 1 else |Values(received, "host")|)
    && Values(sent, "x-real-ip") == [via.remoteIp]
    && Values(sent, "x-forwarded-for") == [Hops(Values(received, "x-forwarded-for"), via.remoteIp)]
    && Values(sent, "x-forwarded-proto") == [Ascii("http")]
    && Announces(Values(sent, "content-length"), length) && Values(sent, "transfer-encoding") == []
    && (!via.websocket ==>
          && Values(sent, "connection") == [Ascii("close")]
          && Values(sent, "proxy-connection") == [] && Values(sent, "keep-alive") == [])
  }

  /** The request sent on for one received. */
  ghost predicate Relays(via: Via, received: Head, length: nat, sent: Head) {
    && sent.verb == received.verb
    && sent.version == (if SameIgnoringCase(received.version, Ascii("HTTP/2.0")) then Ascii("HTTP/1.1")
                        else received.version)
    && (exists path, query :: Retargets(via.rewrite, received.target, sent.target, path, query))
    && RelaysFields(via, received.headers, length, sent.headers)
  }

  // ----- The target

  lemma TargetIsRelayed(rewrite: Option<ProxyRewrite>, target: Str) returns (path: Str, query: Str)
    ensures Retargets(rewrite, target, ProxyTarget(target, rewrite), path, query)
  {
    match FindByte(target, 63, 0)
    case None =>
      path, query := target, [];
      Nothing(target);
      Nothing(RewritePath(target, rewrite));
    case Some(i) =>
      path, query := target[..i], target[i..];
      assert target == path + query;
  }

  // ----- Fields one by one

  lemma {:induction false} ValuesConcat(a: seq<Header>, b: seq<Header>, name: string)
    ensures Values(a + b, name) == Values(a, name) + Values(b, name)
    decreases |b|
  {
    if b == [] {
      Nothing(a);
      Nothing(Values(a, name));
    } else {
      FrontConcat(a, b);
      ValuesConcat(a, b[..|b| - 1], name);
      Assoc(Values(a, name), Values(b[..|b| - 1], name),
            if SameIgnoringCase(b[|b| - 1].name, Ascii(name)) then [b[|b| - 1].value] else []);
    }
  }

  lemma {:induction false} ClientConcat(websocket: bool, a: seq<Header>, b: seq<Header>)
    ensures ClientFields(websocket, a + b) == ClientFields(websocket, a) + ClientFields(websocket, b)
    decreases |b|
  {
    if b == [] {
      Nothing(a);
      Nothing(ClientFields(websocket, a));
    } else {
      FrontConcat(a, b);
      ClientConcat(websocket, a, b[..|b| - 1]);
      Assoc(ClientFields(websocket, a), ClientFields(websocket, b[..|b| - 1]),
            if Managed(websocket, b[|b| - 1]) then [] else [b[|b| - 1]]);
    }
  }

  lemma OneValue(header: Header, name: string)
    ensures Values([header], name) == if SameIgnoringCase(header.name, Ascii(name)) then [header.value] else []
  {
    assert [header][..0] == [];
    Nothing(if SameIgnoringCase(header.name, Ascii(name)) then [header.value] else []);
  }

  lemma OneClient(websocket: bool, header: Header)
    ensures ClientFields(websocket, [header]) == if Managed(websocket, header) then [] else [header]
  {
    assert [header][..0] == [];
    Nothing(if Managed(websocket, header) then [] else [header]);
  }

  lemma IsOwn(header: Header)
    ensures OneOf(header, OWN_NAMES) <==> Named(header, "host") || Forwarding(header) || Framing(header)
    ensures OneOf(header, HOP_NAMES) <==> HopByHop(header)
  {
    assert OWN_NAMES[0] == "host" && OWN_NAMES[1] == "x-real-ip" && OWN_NAMES[2] == "x-forwarded-for";
    assert OWN_NAMES[3] == "x-forwarded-proto" && OWN_NAMES[4] == "content-length";
    assert OWN_NAMES[5] == "transfer-encoding";
    assert HOP_NAMES[0] == "connection" && HOP_NAMES[1] == "proxy-connection" && HOP_NAMES[2] == "keep-alive";
  }

  /** The names asked for above. */
  predicate Asked(name: string) {
    || name == "host" || name == "x-real-ip" || name == "x-forwarded-for" || name == "x-forwarded-proto"
    || name == "content-length" || name == "transfer-encoding" || name == "connection" || name == "proxy-connection"
    || name == "keep-alive"
  }

  /** A field of the proxy's has this one of the names. */
  lemma FieldSays(text: string, value: Str, name: string, same: bool)
    requires if same then SameIgnoringCase(Ascii(text), Ascii(name)) else Different(text, name)
    ensures Values([Header(Ascii(text), value)], name) == if same then [value] else []
  {
    OneValue(Header(Ascii(text), value), name);
    if !same {
      OtherText(text, name);
    }
  }

  lemma HostSays(value: Str, name: string)
    requires Asked(name)
    ensures Values([Header(Ascii("Host"), value)], name) == if name == "host" then [value] else []
  {
    if name == "host" {
      assert Lower(Ascii("Host")) == Lower(Ascii("host"));
    }
    FieldSays("Host", value, name, name == "host");
  }

  lemma RealIpSays(value: Str, name: string)
    requires Asked(name)
    ensures Values([Header(Ascii("X-Real-IP"), value)], name) == if name == "x-real-ip" then [value] else []
  {
    if name == "x-real-ip" {
      assert Lower(Ascii("X-Real-IP")) == Lower(Ascii("x-real-ip"));
    }
    FieldSays("X-Real-IP", value, name, name == "x-real-ip");
  }

  lemma ForwardedForSays(value: Str, name: string)
    requires Asked(name)
    ensures Values([Header(Ascii("X-Forwarded-For"), value)], name) == if name == "x-forwarded-for" then [value] else []
  {
    if name == "x-forwarded-for" {
      assert Lower(Ascii("X-Forwarded-For")) == Lower(Ascii("x-forwarded-for"));
    }
    FieldSays("X-Forwarded-For", value, name, name == "x-forwarded-for");
  }

  lemma ProtoSays(value: Str, name: string)
    requires Asked(name)
    ensures Values([Header(Ascii("X-Forwarded-Proto"), value)], name) ==
            if name == "x-forwarded-proto" then [value] else []
  {
    if name == "x-forwarded-proto" {
      assert Lower(Ascii("X-Forwarded-Proto")) == Lower(Ascii("x-forwarded-proto"));
    }
    FieldSays("X-Forwarded-Proto", value, name, name == "x-forwarded-proto");
  }

  lemma CloseSays(value: Str, name: string)
    requires Asked(name)
    ensures Values([Header(Ascii("Connection"), value)], name) == if name == "connection" then [value] else []
  {
    if name == "connection" {
      assert Lower(Ascii("Connection")) == Lower(Ascii("connection"));
    }
    FieldSays("Connection", value, name, name == "connection");
  }

  lemma LengthSays(value: Str, name: string)
    requires Asked(name)
    ensures Values([Header(Ascii("Content-Length"), value)], name) == if name == "content-length" then [value] else []
  {
    if name == "content-length" {
      assert Lower(Ascii("Content-Length")) == Lower(Ascii("content-length"));
    }
    FieldSays("Content-Length", value, name, name == "content-length");
  }

  lemma RouteSays(via: Via, existing: Option<Str>, name: string)
    requires Asked(name)
    ensures Values(RouteFields(via, existing), name) ==
            (if name == "x-real-ip" then [via.remoteIp] else []) +
            (if name == "x-forwarded-for" then [Chain(via, existing)] else []) +
            (if name == "x-forwarded-proto" then [Ascii("http")] else [])
  {
    var a, b := Header(Ascii("X-Real-IP"), via.remoteIp), Header(Ascii("X-Forwarded-For"), Chain(via, existing));
    var c := Header(Ascii("X-Forwarded-Proto"), Ascii("http"));
    RealIpSays(via.remoteIp, name);
    ForwardedForSays(Chain(via, existing), name);
    ProtoSays(Ascii("http"), name);
    assert RouteFields(via, existing) == [a] + [b] + [c];
    ValuesConcat([a] + [b], [c], name);
    ValuesConcat([a], [b], name);
  }

  // ----- The client's fields that are passed on

  /** Names of which nothing is passed on as it came. */
  predicate Stopped(websocket: bool, name: string) {
    || name == "x-real-ip" || name == "x-forwarded-for" || name == "x-forwarded-proto"
    || name == "content-length" || name == "transfer-encoding"
    || (!websocket && (name == "connection" || name == "proxy-connection" || name == "keep-alive"))
  }

  lemma PassedSays(via: Via, header: Header, name: string)
    requires Stopped(via.websocket, name)
    ensures Values(Passed(via, header), name) == []
  {
    HostSays(via.host, name);
    OneValue(header, name);
  }

  lemma {:induction false} AllPassedSays(via: Via, headers: seq<Header>, name: string)
    requires Stopped(via.websocket, name)
    ensures Values(AllPassed(via, headers), name) == []
  {
    if headers != [] {
      var front, last := headers[..|headers| - 1], headers[|headers| - 1];
      AllPassedSays(via, front, name);
      PassedSays(via, last, name);
      ValuesConcat(AllPassed(via, front), Passed(via, last), name);
    }
  }

  lemma PassedHost(via: Via, header: Header)
    ensures Values(Passed(via, header), "host") == if Named(header, "host") then [via.host] else []
  {
    HostSays(via.host, "host");
    OneValue(header, "host");
  }

  /** Every Host of the client is replaced. */
  lemma {:induction false} HostsPassed(via: Via, headers: seq<Header>)
    ensures |Values(AllPassed(via, headers), "host")| == |Values(headers, "host")|
    ensures AllAre(Values(AllPassed(via, headers), "host"), via.host)
    ensures HasHost(headers) <==> Values(headers, "host") != []
  {
    if headers != [] {
      var front, last := headers[..|headers| - 1], headers[|headers| - 1];
      HostsPassed(via, front);
      PassedHost(via, last);
      ValuesConcat(AllPassed(via, front), Passed(via, last), "host");
      OneMoreAlike(Values(AllPassed(via, front), "host"), Values(front, "host"), via.host, last.value,
                   Named(last, "host"));
    }
  }

  lemma OneMoreAlike(sent: seq<Str>, received: seq<Str>, host: Str, value: Str, named: bool)
    requires |sent| == |received| && AllAre(sent, host)
    ensures var more := sent + if named then [host] else [];
            |more| == |received + if named then [value] else []| && AllAre(more, host)
  {}

  lemma HostIsManaged(websocket: bool, value: Str)
    ensures Managed(websocket, Header(Ascii("Host"), value))
  {
    IsOwn(Header(Ascii("Host"), value));
    assert Lower(Ascii("Host")) == Lower(Ascii("host"));
  }

  lemma PassedClient(via: Via, header: Header)
    ensures ClientFields(via.websocket, Passed(via, header)) == if Managed(via.websocket, header) then [] else [header]
  {
    IsOwn(header);
    HostIsManaged(via.websocket, via.host);
    OneClient(via.websocket, Header(Ascii("Host"), via.host));
    OneClient(via.websocket, header);
  }

  lemma {:induction false} ClientPassed(via: Via, headers: seq<Header>)
    ensures ClientFields(via.websocket, AllPassed(via, headers)) == ClientFields(via.websocket, headers)
  {
    if headers != [] {
      var front, last := headers[..|headers| - 1], headers[|headers| - 1];
      ClientPassed(via, front);
      PassedClient(via, last);
      ClientConcat(via.websocket, AllPassed(via, front), Passed(via, last));
    }
  }

  // ----- All fields of the rebuilt head

  lemma SentSays(via: Via, headers: seq<Header>, length: Option<nat>, name: string)
    requires Asked(name)
    ensures Values(ProxyHeaders(via, headers, length), name) ==
            Values(AllPassed(via, headers), name) + Values(HostField(via, HasHost(headers)), name) +
            Values(RouteFields(via, ForwardedFor(headers)), name) + Values(CloseField(via), name) +
            Values(LengthField(length), name)
  {
    var passed, host := AllPassed(via, headers), HostField(via, HasHost(headers));
    var route, close := RouteFields(via, ForwardedFor(headers)), CloseField(via);
    ValuesConcat(passed, host, name);
    ValuesConcat(passed + host, route, name);
    ValuesConcat(passed + host + route, close, name);
    ValuesConcat(passed + host + route + close, LengthField(length), name);
  }

  lemma FewSay(via: Via, wroteHost: bool, length: Option<nat>, name: string)
    requires Asked(name)
    ensures Values(HostField(via, wroteHost), name) == if name == "host" && !wroteHost then [via.host] else []
    ensures Values(CloseField(via), name) == if name == "connection" && !via.websocket then [Ascii("close")] else []
    ensures Values(LengthField(length), name) ==
            if name == "content-length" && length.Some? then [Decimal(length.value)] else []
  {
    HostSays(via.host, name);
    CloseSays(Ascii("close"), name);
    if length.Some? {
      LengthSays(Decimal(length.value), name);
    }
  }

  /** The values written besides those passed on. */
  function Written(via: Via, wroteHost: bool, forwardedFor: Option<Str>, length: Option<nat>, name: string): seq<Str> {
    if name == "host" && !wroteHost then [via.host]
    else if name == "x-real-ip" then [via.remoteIp]
    else if name == "x-forwarded-for" then [Chain(via, forwardedFor)]
    else if name == "x-forwarded-proto" then [Ascii("http")]
    else if name == "connection" && !via.websocket then [Ascii("close")]
    else if name == "content-length" && length.Some? then [Decimal(length.value)]
    else []
  }

  lemma AloneOf<T>(a: seq<T>, b: seq<T>, c: seq<T>, d: seq<T>, e: seq<T>, all: seq<T>)
    requires if b != [] then c == [] && d == [] && e == [] && all == b
             else if c != [] then d == [] && e == [] && all == c
             else if d != [] then e == [] && all == d
             else all == e
    ensures a + b + c + d + e == a + all
  {}

  lemma SentIs(via: Via, headers: seq<Header>, length: Option<nat>, name: string)
    requires Asked(name)
    ensures Values(ProxyHeaders(via, headers, length), name) ==
            Values(AllPassed(via, headers), name) +
            Written(via, HasHost(headers), ForwardedFor(headers), length, name)
  {
    SentSays(via, headers, length, name);
    FewSay(via, HasHost(headers), length, name);
    RouteSays(via, ForwardedFor(headers), name);
    AloneOf(Values(AllPassed(via, headers), name), Values(HostField(via, HasHost(headers)), name),
            Values(RouteFields(via, ForwardedFor(headers)), name), Values(CloseField(via), name),
            Values(LengthField(length), name),
            Written(via, HasHost(headers), ForwardedFor(headers), length, name));
  }

  lemma StoppedIs(via: Via, headers: seq<Header>, length: Option<nat>, name: string)
    requires Stopped(via.websocket, name)
    ensures Values(ProxyHeaders(via, headers, length), name) ==
            Written(via, HasHost(headers), ForwardedFor(headers), length, name)
  {
    SentIs(via, headers, length, name);
    AllPassedSays(via, headers, name);
    Nothing(Written(via, HasHost(headers), ForwardedFor(headers), length, name));
  }

  lemma {:induction false} LastForwardedFor(headers: seq<Header>)
    ensures var values := Values(headers, "x-forwarded-for");
            ForwardedFor(headers) == if values == [] then None else Some(values[|values| - 1])
  {
    if headers != [] {
      LastForwardedFor(headers[..|headers| - 1]);
    }
  }

  lemma ChainIsHops(via: Via, headers: seq<Header>)
    ensures Chain(via, ForwardedFor(headers)) == Hops(Values(headers, "x-forwarded-for"), via.remoteIp)
  {
    LastForwardedFor(headers);
    assert Ascii(", ") == [44, 32];
  }

  lemma HostsAreSent(via: Via, headers: seq<Header>, length: Option<nat>)
    ensures var sent := Values(ProxyHeaders(via, headers, length), "host");
            && sent != [] && AllAre(sent, via.host)
            && |sent| == if Values(headers, "host") == [] then 1 else |Values(headers, "host")|
  {
    SentIs(via, headers, length, "host");
    HostsPassed(via, headers);
  }

  lemma ForwardingIsSent(via: Via, headers: seq<Header>, length: Option<nat>)
    ensures var sent := ProxyHeaders(via, headers, length);
            && Values(sent, "x-real-ip") == [via.remoteIp] && Values(sent, "x-forwarded-proto") == [Ascii("http")]
            && Values(sent, "x-forwarded-for") == [Hops(Values(headers, "x-forwarded-for"), via.remoteIp)]
  {
    StoppedIs(via, headers, length, "x-real-ip");
    StoppedIs(via, headers, length, "x-forwarded-for");
    StoppedIs(via, headers, length, "x-forwarded-proto");
    ChainIsHops(via, headers);
  }

  lemma HopByHopIsSent(via: Via, headers: seq<Header>, length: Option<nat>)
    requires !via.websocket
    ensures Values(ProxyHeaders(via, headers, length), "connection") == [Ascii("close")]
    ensures Values(ProxyHeaders(via, headers, length), "proxy-connection") == []
    ensures Values(ProxyHeaders(via, headers, length), "keep-alive") == []
  {
    StoppedIs(via, headers, length, "connection");
    StoppedIs(via, headers, length, "proxy-connection");
    StoppedIs(via, headers, length, "keep-alive");
  }

  lemma LengthIsAnnounced(via: Via, headers: seq<Header>, body: nat)
    ensures var length := if body == 0 then None else Some(body);
            && Announces(Values(ProxyHeaders(via, headers, length), "content-length"), body)
            && Values(ProxyHeaders(via, headers, length), "transfer-encoding") == []
  {
    var length := if body == 0 then None else Some(body);
    StoppedIs(via, headers, length, "content-length");
    StoppedIs(via, headers, length, "transfer-encoding");
    DecimalRoundTrip(body);
  }

  lemma ManagedText(websocket: bool, text: string, name: string, value: Str)
    requires Lower(Ascii(text)) == Lower(Ascii(name)) && (name in OWN_NAMES || (!websocket && name in HOP_NAMES))
    ensures ClientFields(websocket, [Header(Ascii(text), value)]) == []
  {
    OneClient(websocket, Header(Ascii(text), value));
  }

  lemma ShortTexts()
    ensures Lower(Ascii("Host")) == Lower(Ascii("host"))
    ensures Lower(Ascii("X-Real-IP")) == Lower(Ascii("x-real-ip"))
    ensures Lower(Ascii("Connection")) == Lower(Ascii("connection"))
  {}

  lemma ForwardedTexts()
    ensures Lower(Ascii("X-Forwarded-For")) == Lower(Ascii("x-forwarded-for"))
    ensures Lower(Ascii("X-Forwarded-Proto")) == Lower(Ascii("x-forwarded-proto"))
  {}

  lemma AllNamed()
    ensures "host" in OWN_NAMES && "x-real-ip" in OWN_NAMES && "x-forwarded-for" in OWN_NAMES
    ensures "x-forwarded-proto" in OWN_NAMES && "content-length" in OWN_NAMES && "connection" in HOP_NAMES
  {
    assert OWN_NAMES[0] == "host" && OWN_NAMES[1] == "x-real-ip" && OWN_NAMES[2] == "x-forwarded-for";
    assert OWN_NAMES[3] == "x-forwarded-proto" && OWN_NAMES[4] == "content-length" && HOP_NAMES[0] == "connection";
  }

  lemma OwnAreManaged(via: Via, wroteHost: bool, existing: Option<Str>, length: Option<nat>)
    ensures ClientFields(via.websocket, HostField(via, wroteHost)) == []
    ensures ClientFields(via.websocket, RouteFields(via, existing)) == []
    ensures ClientFields(via.websocket, CloseField(via)) == []
    ensures ClientFields(via.websocket, LengthField(length)) == []
  {
    ShortTexts();
    ForwardedTexts();
    SameName();
    AllNamed();
    var a, b := Header(Ascii("X-Real-IP"), via.remoteIp), Header(Ascii("X-Forwarded-For"), Chain(via, existing));
    var c := Header(Ascii("X-Forwarded-Proto"), Ascii("http"));
    ManagedText(via.websocket, "Host", "host", via.host);
    ManagedText(via.websocket, "X-Real-IP", "x-real-ip", via.remoteIp);
    ManagedText(via.websocket, "X-Forwarded-For", "x-forwarded-for", Chain(via, existing));
    ManagedText(via.websocket, "X-Forwarded-Proto", "x-forwarded-proto", Ascii("http"));
    assert RouteFields(via, existing) == [a] + [b] + [c];
    ClientConcat(via.websocket, [a] + [b], [c]);
    ClientConcat(via.websocket, [a], [b]);
    if !via.websocket {
      ManagedText(false, "Connection", "connection", Ascii("close"));
    }
    if length.Some? {
      ManagedText(via.websocket, "Content-Length", "content-length", Decimal(length.value));
    }
  }

  lemma ClientIsSent(via: Via, headers: seq<Header>, length: Option<nat>)
    ensures ClientFields(via.websocket, ProxyHeaders(via, headers, length)) == ClientFields(via.websocket, headers)
  {
    var passed, host := AllPassed(via, headers), HostField(via, HasHost(headers));
    var route, close := RouteFields(via, ForwardedFor(headers)), CloseField(via);
    OwnAreManaged(via, HasHost(headers), ForwardedFor(headers), length);
    ClientPassed(via, headers);
    ClientConcat(via.websocket, passed, host);
    ClientConcat(via.websocket, passed + host, route);
    ClientConcat(via.websocket, passed + host + route, close);
    ClientConcat(via.websocket, passed + host + route + close, LengthField(length));
    Nothing(ClientFields(via.websocket, headers));
  }

  lemma FieldsAreRelayed(via: Via, headers: seq<Header>, body: nat)
    ensures RelaysFields(via, headers, body, ProxyHeaders(via, headers, if body == 0 then None else Some(body)))
  {
    var length := if body == 0 then None else Some(body);
    ClientIsSent(via, headers, length);
    HostsAreSent(via, headers, length);
    ForwardingIsSent(via, headers, length);
    LengthIsAnnounced(via, headers, body);
    if !via.websocket {
      HopByHopIsSent(via, headers, length);
    }
  }

  lemma HeadIsRelayed(via: Via, request: Whole)
    ensures Relays(via, request.head, |request.body|, ProxyHead(via, request.head, request.Length()))
  {
    var path, query := TargetIsRelayed(via.rewrite, request.head.target);
    FieldsAreRelayed(via, request.head.headers, |request.body|);
  }

  /** A reader finds the request in the octets, and it relays the one received. */
  ghost predicate RelaysIn(via: Via, request: Whole, octets: seq<byte>) {
    var sent := Request(octets, |request.body|);
    && sent.Ok? && sent.value.body == request.body
    && Relays(via, request.head, |request.body|, sent.value.head)
  }

  /** The upstream reads the client's method, its target but for a rewritten prefix, its fields and its
      body, and the proxy's fields in their places, when the configured values fit. */
  lemma RequestIsRelayed(via: Via, input: seq<byte>, max: nat, request: Whole, rest: seq<byte>)
    requires Request(input, max) == Ok(request) && |request.body| < USIZE && ViaFits(via, request.head)
    ensures RelaysIn(via, request, Forwarded(via, request) + rest)
  {
    ForwardedReadsBack(via, input, max, request, rest);
    HeadIsRelayed(via, request);
  }

  /** So it does for any request whose rebuilt head is clean, an HTTP/2 one included. */
  lemma CleanIsRelayed(via: Via, request: Whole, rest: seq<byte>)
    requires |request.body| < USIZE && CleanHead(ProxyHead(via, request.head, request.Length()))
    ensures RelaysIn(via, request, Forwarded(via, request) + rest)
  {
    SentOnReadsBack(via, request, rest);
    HeadIsRelayed(via, request);
  }
}
