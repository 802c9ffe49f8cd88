/** The fields a client finds in a response, told apart from how they are put together. */
module H2Answers {
  import opened Prelude
  import opened Text
  import opened Sequences
  import opened HpackTable
  import opened HpackDecoding
  import opened H2Streams
  import opened H2Connection
  import opened H2Response
  import opened H2RoundTrip

  /** The fields of an HTTP/1 connection, which section 8.1.2.2 of RFC 7540 keeps out of HTTP/2. */
  const CONNECTION_NAMES: seq<string> :=
    ["connection", "transfer-encoding", "keep-alive", "proxy-connection", "upgrade"]

  predicate OfConnection(name: Str) {
    exists k | 0 <= k < 5 :: SameIgnoringCase(name, Ascii(CONNECTION_NAMES[k]))
  }

  /** It is not for the client, or the server writes it afresh. */
  predicate Withheld(name: Str) {
    OfConnection(name) || SameIgnoringCase(name, Ascii("content-length"))
  }

  /** The field is the one given there, its name in small letters. */
  predicate Carries(headers: seq<Header>, field: Header, i: nat) {
    && i < |headers| && !Withheld(headers[i].name)
    && field.name == Lower(headers[i].name) && field.value == headers[i].value
  }

  /** `fields` are those of `headers` that are not withheld, from the positions in `at`: all of them,
      in order, and each as often as it was given. */
  predicate Conveys(headers: seq<Header>, fields: seq<Header>, at: seq<nat>) {
    && |at| == |fields| && Increasing(at)
    && (forall j | 0 <= j < |at| :: Carries(headers, fields[j], at[j]))
    && (forall i: nat | i < |headers| :: Conveyed(headers, at, i))
  }

  predicate Conveyed(headers: seq<Header>, at: seq<nat>, i: nat) {
    i < |headers| ==> Withheld(headers[i].name) || i in at
  }

  predicate SaysNumber(value: Str, n: nat) {
    (forall k | 0 <= k < |value| :: 48 <= value[k] <= 57) && value != [] && DecimalValue(value) == n
  }

  /** No field is of a connection, and only the third is a content-length. */
  predicate NamesAt(fields: seq<Header>, i: nat) {
    i < |fields| ==>
      !OfConnection(fields[i].name) && (SameIgnoringCase(fields[i].name, Ascii("content-length")) <==> i == 2)
  }

  /** A client finds the status, the type and the length of the content, each in its field, and then
      the response's own fields; none belongs to a connection, and there is one length. */
  ghost predicate Describes(fields: seq<Header>, response: Response) {
    && |fields| >= 3
    && fields[0].name == Ascii(":status") && SaysNumber(fields[0].value, response.status)
    && fields[1] == Header(Ascii("content-type"), response.contentType)
    && fields[2].name == Ascii("content-length") && SaysNumber(fields[2].value, |response.body|)
    && (exists at: seq<nat> :: Conveys(response.headers, fields[3..], at))
    && (forall i: nat | i < |fields| :: NamesAt(fields, i))
  }

  // ----- The fields of one response

  lemma WithheldIsDropped(name: Str)
    ensures Withheld(name) <==> Dropped(name)
  {
    assert CONNECTION_NAMES[0] == "connection" && CONNECTION_NAMES[1] == "transfer-encoding";
    assert CONNECTION_NAMES[2] == "keep-alive" && CONNECTION_NAMES[3] == "proxy-connection";
    assert CONNECTION_NAMES[4] == "upgrade";
    if Dropped(name) && !SameIgnoringCase(name, Ascii("content-length")) {
      var k := if SameIgnoringCase(name, Ascii("connection")) then 0
               else if SameIgnoringCase(name, Ascii("transfer-encoding")) then 1
               else if SameIgnoringCase(name, Ascii("keep-alive")) then 2
               else if SameIgnoringCase(name, Ascii("proxy-connection")) then 3
               else 4;
      assert SameIgnoringCase(name, Ascii(CONNECTION_NAMES[k]));
    }
  }

  function Shifted(at: seq<nat>): seq<nat> {
    seq(|at|, j requires 0 <= j < |at| => at[j] + 1)
  }

  lemma CarriesLater(header: Header, headers: seq<Header>, field: Header, i: nat)
    requires Carries(headers, field, i)
    ensures Carries([header] + headers, field, i + 1)
  {
    assert ([header] + headers)[i + 1] == headers[i];
  }

  lemma ShiftedHas(at: seq<nat>, i: nat)
    requires i in at
    ensures i + 1 in Shifted(at)
  {
    var j :| 0 <= j < |at| && at[j] == i;
    assert Shifted(at)[j] == i + 1;
  }

  lemma ConveyedLater(header: Header, headers: seq<Header>, at: seq<nat>, i: nat)
    requires i > 0 && Conveyed(headers, at, i - 1)
    ensures Conveyed([header] + headers, Shifted(at), i)
  {
    if i <= |headers| {
      assert ([header] + headers)[i] == headers[i - 1];
      if !Withheld(headers[i - 1].name) {
        ShiftedHas(at, i - 1);
      }
    }
  }

  lemma ConveysShifted(header: Header, headers: seq<Header>, fields: seq<Header>, at: seq<nat>)
    requires Conveys(headers, fields, at)
    ensures Withheld(header.name) ==> Conveys([header] + headers, fields, Shifted(at))
    ensures |at| == |fields| && Increasing(Shifted(at))
    ensures forall j | 0 <= j < |at| :: Carries([header] + headers, fields[j], Shifted(at)[j])
    ensures forall i: nat | 0 < i <= |headers| :: Conveyed([header] + headers, Shifted(at), i)
  {
    forall j | 0 <= j < |at| ensures Carries([header] + headers, fields[j], Shifted(at)[j]) {
      CarriesLater(header, headers, fields[j], at[j]);
    }
    forall i: nat | 0 < i <= |headers| ensures Conveyed([header] + headers, Shifted(at), i) {
      ConveyedLater(header, headers, at, i);
    }
  }

  lemma ConveysOneMore(all: seq<Header>, fields: seq<Header>, at: seq<nat>, field: Header)
    requires |at| == |fields| && Increasing(at) && (forall j | 0 <= j < |at| :: at[j] > 0)
    requires forall j | 0 <= j < |at| :: Carries(all, fields[j], at[j])
    requires forall i: nat | 0 < i < |all| :: Conveyed(all, at, i)
    requires Carries(all, field, 0)
    ensures Conveys(all, [field] + fields, [0] + at)
  {
    forall j | 0 <= j < |at| + 1 ensures Carries(all, ([field] + fields)[j], ([0] + at)[j]) {
      if j > 0 {
        assert Carries(all, fields[j - 1], at[j - 1]);
      }
    }
    forall i: nat | i < |all| ensures Conveyed(all, [0] + at, i) {
      if i > 0 {
        assert Conveyed(all, at, i);
      } else {
        assert ([0] + at)[0] == 0;
      }
    }
  }

  /** The field that one header makes, or none. */
  function Passing(header: Header): seq<Header> {
    if Withheld(header.name) then [] else [Header(Lower(header.name), header.value)]
  }

  lemma ConveysMore(header: Header, headers: seq<Header>, fields: seq<Header>, at: seq<nat>) returns (all: seq<nat>)
    requires Conveys(headers, fields, at)
    ensures Conveys([header] + headers, Passing(header) + fields, all)
  {
    ConveysShifted(header, headers, fields, at);
    if Withheld(header.name) {
      all := Shifted(at);
      Nothing(fields);
    } else {
      all := [0] + Shifted(at);
      ConveysOneMore([header] + headers, fields, Shifted(at), Header(Lower(header.name), header.value));
    }
  }

  lemma {:induction false} KeptConveys(headers: seq<Header>) returns (at: seq<nat>)
    ensures Conveys(headers, Kept(headers), at)
  {
    if headers == [] {
      at := [];
    } else {
      var rest := KeptConveys(headers[1..]);
      WithheldIsDropped(headers[0].name);
      at := ConveysMore(headers[0], headers[1..], Kept(headers[1..]), rest);
      HeadAndTail(headers);
    }
  }

  lemma NumberSaid(n: nat)
    ensures SaysNumber(Decimal(n), n)
  {
    DecimalRoundTrip(n);
  }

  lemma NotOfConnection(text: string)
    requires text == ":status" || text == "content-type" || text == "content-length"
    ensures !OfConnection(Ascii(text))
  {
    forall k | 0 <= k < 5 ensures !SameIgnoringCase(Ascii(text), Ascii(CONNECTION_NAMES[k])) {
      OtherText(text, CONNECTION_NAMES[k]);
    }
  }

  /** The names of fields that are conveyed are not withheld in small letters either. */
  lemma ConveyedStays(headers: seq<Header>, fields: seq<Header>, at: seq<nat>, j: nat)
    requires Conveys(headers, fields, at) && j < |fields|
    ensures !Withheld(fields[j].name)
  {
    var i := at[j];
    assert Carries(headers, fields[j], i);
    LowerIdempotent(headers[i].name);
    forall name | SameIgnoringCase(fields[j].name, name) ensures SameIgnoringCase(headers[i].name, name) {}
  }

  lemma ThreeThen<T>(a: T, b: T, c: T, rest: seq<T>)
    ensures var all := [a, b, c] + rest;
            |all| >= 3 && all[0] == a && all[1] == b && all[2] == c && all[3..] == rest
    ensures forall i | 3 <= i < |rest| + 3 :: ([a, b, c] + rest)[i] == rest[i - 3]
  {}

  lemma OwnNames()
    ensures !OfConnection(Ascii(":status")) && !OfConnection(Ascii("content-type"))
    ensures !OfConnection(Ascii("content-length"))
    ensures !SameIgnoringCase(Ascii(":status"), Ascii("content-length"))
    ensures !SameIgnoringCase(Ascii("content-type"), Ascii("content-length"))
  {
    NotOfConnection(":status");
    NotOfConnection("content-type");
    NotOfConnection("content-length");
    OtherText(":status", "content-length");
    OtherText("content-type", "content-length");
  }

  lemma {:induction false} DescribesAll(status: Header, contentType: Header, length: Header, rest: seq<Header>,
                                        fields: seq<Header>, at: seq<nat>, response: Response)
    requires status.name == Ascii(":status") && SaysNumber(status.value, response.status)
    requires contentType == Header(Ascii("content-type"), response.contentType)
    requires length.name == Ascii("content-length") && SaysNumber(length.value, |response.body|)
    requires Conveys(response.headers, rest, at) && fields == [status, contentType, length] + rest
    ensures Describes(fields, response)
  {
    ThreeThen(status, contentType, length, rest);
    forall i: nat ensures NamesAt(fields, i) {
      NameAt(status, contentType, length, rest, fields, at, response.headers, i);
    }
  }

  lemma {:induction false} NameAt(status: Header, contentType: Header, length: Header, rest: seq<Header>,
                                  fields: seq<Header>, at: seq<nat>, headers: seq<Header>, i: nat)
    requires status.name == Ascii(":status") && contentType.name == Ascii("content-type")
    requires length.name == Ascii("content-length")
    requires Conveys(headers, rest, at) && fields == [status, contentType, length] + rest
    ensures NamesAt(fields, i)
  {
    OwnNames();
    ThreeThen(status, contentType, length, rest);
    if 3 <= i < |fields| {
      ConveyedStays(headers, rest, at, i - 3);
    }
  }

  lemma FieldsDescribe(response: Response)
    ensures Describes(ResponseFields(response), response)
  {
    var at := KeptConveys(response.headers);
    NumberSaid(response.status);
    NumberSaid(|response.body|);
    DescribesAll(Header(Ascii(":status"), Decimal(response.status)),
                 Header(Ascii("content-type"), response.contentType),
                 Header(Ascii("content-length"), Decimal(|response.body|)), Kept(response.headers),
                 ResponseFields(response), at, response);
  }

  // ----- A whole connection

  /** One message for every request that is answered, in order: on its stream, with the fields of
      the response and exactly its body. */
  ghost predicate Answered(codec: Codec, respond: Program, requests: seq<Message>, from: nat, messages: seq<Message>)
    requires |codec.staticTable| == 61
    decreases |requests| - from
  {
    if from >= |requests| then messages == []
    else
      var response := respond(from, requests[from]);
      if response.None? || !Sends(codec, response.value) then Answered(codec, respond, requests, from + 1, messages)
      else
        && messages != [] && messages[0].id == requests[from].id && messages[0].body == response.value.body
        && Describes(messages[0].fields, response.value)
        && Answered(codec, respond, requests, from + 1, messages[1..])
  }

  lemma {:induction false} AnswersAre(codec: Codec, respond: Program, requests: seq<Message>, from: nat)
    requires |codec.staticTable| == 61
    ensures Answered(codec, respond, requests, from, AllAnswers(codec, respond, requests, from))
    decreases |requests| - from
  {
    if from < |requests| {
      AnswersAre(codec, respond, requests, from + 1);
      var first, rest := Answers(codec, respond, from, requests[from]), AllAnswers(codec, respond, requests, from + 1);
      if first == [] {
        Nothing(rest);
      } else {
        FieldsDescribe(respond(from, requests[from]).value);
        assert (first + rest)[1..] == rest;
      }
    }
  }

  /** What the server writes reads back as the responses to the requests it dispatched, and every
      field a client finds is one the response describes. */
  lemma ResponsesAreRead(codec: Codec, respond: Program, input: seq<byte>, table: DynamicTable)
    requires |codec.staticTable| == 61 && AllProper(respond)
    ensures var outcome := Connect(codec, Responder(codec, respond), input);
            var seen := ReadAll(outcome.state.output, 0);
            && seen.Ok?
            && Answered(codec, respond, outcome.state.requests, 0,
                        Dispatched(map[], H2Wire.ItemsOf(codec, table, seen.value)))
  {
    EndToEnd(codec, respond, input, table);
    AnswersAre(codec, respond, Connect(codec, Responder(codec, respond), input).state.requests, 0);
  }
}
