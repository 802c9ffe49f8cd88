/** Responses all the way: what a server writes on a connection, read back by its client. */
module H2RoundTrip {
  import opened Prelude
  import opened Text
  import opened Sequences
  import opened Buffers
  import opened HpackTable
  import opened HpackDecoding
  import opened HpackEncoder
  import opened H2Frame
  import opened H2Streams
  import opened H2Connection
  import opened H2Wire
  import opened H2Response

  /** Every event up to the end of the connection. */
  function ReadAll(input: seq<byte>, position: nat): Result<seq<Event>>
    decreases |input| - position
  {
    match NextEvent(input, position)
    case Err(e) => Err(e)
    case Ok(None) => Ok([])
    case Ok(Some(read)) =>
      match ReadAll(input, read.next)
      case Err(e) => Err(e)
      case Ok(rest) => Ok([read.value] + rest)
  }

  predicate ReadsAs(input: seq<byte>, position: nat, events: seq<Event>) {
    ReadAll(input, position) == Ok(events)
  }

  lemma {:induction false} ReadAllStep(input: seq<byte>, position: nat, event: Event, next: nat, rest: seq<Event>)
    requires EventAt(input, position, event, next) && ReadsAs(input, next, rest)
    ensures ReadsAs(input, position, [event] + rest)
  {}

  lemma {:induction false} ReadAllAct(input: seq<byte>, position: nat, act: Act, next: nat, rest: seq<Event>)
    requires Sendable(act) && Buffers.Holds(input, position, ActBytes(act)) && next == position + |ActBytes(act)|
    requires ReadsAs(input, next, rest)
    ensures ReadsAs(input, position, [EventOf(act)] + rest)
  {
    ActReads(input, position, act, next);
    ReadAllStep(input, position, EventOf(act), next, rest);
  }

  lemma {:induction false} ActsReadBack(input: seq<byte>, position: nat, acts: seq<Act>)
    requires AllSendable(acts) && Buffers.Holds(input, position, ActsBytes(acts))
    requires position + |ActsBytes(acts)| == |input|
    ensures ReadsAs(input, position, EventsOf(acts))
    decreases |acts|
  {
    if acts == [] {
      assert ParseFrame(input, position) == Ok(None);
    } else {
      var next := HoldsFirst(input, position, ActBytes(acts[0]), ActsBytes(acts[1..]));
      ActsReadBack(input, next, acts[1..]);
      ReadAllAct(input, position, acts[0], next, EventsOf(acts[1..]));
    }
  }

  lemma {:induction false} EventsConcat(a: seq<Act>, b: seq<Act>)
    ensures EventsOf(a + b) == EventsOf(a) + EventsOf(b)
    decreases |a|
  {
    if a == [] {
      assert a + b == b;
    } else {
      DropConcat(a, b);
      EventsConcat(a[1..], b);
    }
  }

  lemma {:induction false} BytesConcat(a: seq<Act>, b: seq<Act>)
    requires AllSendable(a) && AllSendable(b)
    ensures AllSendable(a + b) && ActsBytes(a + b) == ActsBytes(a) + ActsBytes(b)
    decreases |a|
  {
    if a == [] {
      Nothing(b);
      Nothing(ActsBytes(b));
    } else {
      DropConcat(a, b);
      BytesConcat(a[1..], b);
      Assoc(ActBytes(a[0]), ActsBytes(a[1..]), ActsBytes(b));
    }
  }

  // ----- One response

  function BodyItems(id: nat, body: seq<byte>): seq<Item>
    decreases |body|
  {
    if |body| <= MAX_FRAME_SIZE then [Chunk(id, body, true)]
    else [Chunk(id, body[..MAX_FRAME_SIZE], false)] + BodyItems(id, body[MAX_FRAME_SIZE..])
  }

  function ResponseItems(id: nat, response: Response): seq<Item> {
    [Fields(id, ResponseFields(response), response.body == [])] +
    if response.body == [] then [] else BodyItems(id, response.body)
  }

  lemma {:induction false} ItemsOfBody(codec: Codec, table: DynamicTable, id: nat, body: seq<byte>, more: seq<Event>)
    requires |codec.staticTable| == 61
    ensures ItemsOf(codec, table, EventsOf(DataActs(id, body)) + more) ==
            BodyItems(id, body) + ItemsOf(codec, table, more)
    decreases |body|
  {
    var acts := DataActs(id, body);
    var all := EventsOf(acts) + more;
    if |body| <= MAX_FRAME_SIZE {
      assert acts[1..] == [];
      assert all[1..] == more;
    } else {
      assert acts[1..] == DataActs(id, body[MAX_FRAME_SIZE..]);
      assert all[1..] == EventsOf(DataActs(id, body[MAX_FRAME_SIZE..])) + more;
      ItemsOfBody(codec, table, id, body[MAX_FRAME_SIZE..], more);
    }
  }

  lemma {:induction false} BodyDispatched(streams: Streams, id: nat, body: seq<byte>, more: seq<Item>)
    ensures Dispatched(streams, BodyItems(id, body) + more) ==
            [Message(id, Get(streams, id).fields, Get(streams, id).body + body)] + Dispatched(streams - {id}, more)
    decreases |body|
  {
    var all := BodyItems(id, body) + more;
    if |body| <= MAX_FRAME_SIZE {
      assert all[1..] == more;
    } else {
      var piece, rest := body[..MAX_FRAME_SIZE], body[MAX_FRAME_SIZE..];
      var next := Take(streams, Chunk(id, piece, false)).0;
      assert all[1..] == BodyItems(id, rest) + more;
      BodyDispatched(next, id, rest, more);
      assert next - {id} == streams - {id};
      var before := Get(streams, id).body;
      assert before + piece + rest == before + body;
    }
  }

  lemma ResponseDispatched(streams: Streams, id: nat, response: Response, more: seq<Item>)
    requires id !in streams
    ensures Dispatched(streams, ResponseItems(id, response) + more) ==
            [Message(id, ResponseFields(response), response.body)] + Dispatched(streams, more)
  {
    var all := ResponseItems(id, response) + more;
    assert streams - {id} == streams;
    if response.body == [] {
      assert all[1..] == more;
    } else {
      var next := Take(streams, all[0]).0;
      assert all[1..] == BodyItems(id, response.body) + more;
      BodyDispatched(next, id, response.body, more);
      assert next - {id} == streams;
      assert [] + response.body == response.body;
    }
  }

  /** A block within a frame holds no string of 2^32 octets. */
  lemma {:induction false} ShortBlockFits(codec: Codec, headers: seq<Header>)
    requires |codec.staticTable| == 61 && |HeadersBytes(codec, headers)| <= 0xff_ffff
    ensures AllFit(codec, headers)
    decreases |headers|
  {
    if headers != [] {
      assert |HeaderBytes(codec, headers[0])| <= 0xff_ffff;
      ShortBlockFits(codec, headers[1..]);
    }
  }

  /** A field that decodes to itself. */
  predicate PlainField(header: Header) {
    ValidHeader(header) && Lower(header.name) == header.name
  }

  predicate PlainFields(headers: seq<Header>) {
    AllValid(headers) && LowerNames(headers) == headers
  }

  lemma OneMore(header: Header, headers: seq<Header>)
    requires PlainField(header) && PlainFields(headers)
    ensures PlainFields([header] + headers)
  {
    assert ([header] + headers)[1..] == headers;
  }

  lemma {:induction false} KeptIsPlain(headers: seq<Header>)
    requires AllValid(headers)
    ensures PlainFields(Kept(headers))
    decreases |headers|
  {
    if headers != [] {
      KeptIsPlain(headers[1..]);
      if Dropped(headers[0].name) {
        assert Kept(headers) == Kept(headers[1..]);
      } else {
        LowerKeepsUtf8(headers[0].name);
        LowerIdempotent(headers[0].name);
        OneMore(LowerName(headers[0]), Kept(headers[1..]));
      }
    }
  }

  predicate LowerText(text: string) {
    forall i | 0 <= i < |text| :: text[i] < 'A' || 'Z' < text[i] < 128 as char
  }

  lemma NamesAreLower()
    ensures LowerText(":status") && LowerText("content-type") && LowerText("content-length")
  {}

  lemma PlainName(text: string, value: Str)
    requires LowerText(text) && Utf8(value)
    ensures PlainField(Header(Ascii(text), value))
  {
    AsciiIsUtf8(Ascii(text));
  }

  lemma DecimalIsUtf8(n: nat)
    ensures Utf8(Decimal(n))
  {
    AsciiIsUtf8(Decimal(n));
  }

  lemma StatusIsPlain(status: nat)
    ensures PlainField(Header(Ascii(":status"), Decimal(status)))
  {
    DecimalIsUtf8(status);
    NamesAreLower();
    PlainName(":status", Decimal(status));
  }

  lemma ContentTypeIsPlain(contentType: Str)
    requires Utf8(contentType)
    ensures PlainField(Header(Ascii("content-type"), contentType))
  {
    NamesAreLower();
    PlainName("content-type", contentType);
  }

  lemma ContentLengthIsPlain(length: nat)
    ensures PlainField(Header(Ascii("content-length"), Decimal(length)))
  {
    DecimalIsUtf8(length);
    NamesAreLower();
    PlainName("content-length", Decimal(length));
  }

  lemma ThreeMore(a: Header, b: Header, c: Header, headers: seq<Header>)
    requires PlainField(a) && PlainField(b) && PlainField(c) && PlainFields(headers)
    ensures PlainFields([a, b, c] + headers)
  {
    OneMore(c, headers);
    OneMore(b, [c] + headers);
    OneMore(a, [b] + ([c] + headers));
    assert [a, b, c] + headers == [a] + ([b] + ([c] + headers));
  }

  lemma FieldsArePlain(response: Response)
    requires Proper(response)
    ensures PlainFields(ResponseFields(response))
  {
    StatusIsPlain(response.status);
    ContentTypeIsPlain(response.contentType);
    ContentLengthIsPlain(|response.body|);
    KeptIsPlain(response.headers);
    ThreeMore(Header(Ascii(":status"), Decimal(response.status)),
              Header(Ascii("content-type"), response.contentType),
              Header(Ascii("content-length"), Decimal(|response.body|)), Kept(response.headers));
  }

  /** The header block of a response decodes to its fields, whatever the client's table. */
  lemma ResponseBlockDecodes(codec: Codec, table: DynamicTable, response: Response)
    requires |codec.staticTable| == 61 && Proper(response) && Sends(codec, response)
    ensures DecodeFrom(codec, HeadersBytes(codec, ResponseFields(response)), 0, table) ==
            Ok(Decoded(ResponseFields(response), table))
  {
    FieldsArePlain(response);
    ShortBlockFits(codec, ResponseFields(response));
    EncoderInverse(codec, table, ResponseFields(response));
  }

  lemma ItemsOfResponse(codec: Codec, table: DynamicTable, id: nat, response: Response, more: seq<Event>)
    requires |codec.staticTable| == 61 && Proper(response) && Sends(codec, response)
    ensures ItemsOf(codec, table, EventsOf(ResponseActs(codec, id, response)) + more) ==
            ResponseItems(id, response) + ItemsOf(codec, table, more)
  {
    ResponseBlockDecodes(codec, table, response);
    ItemsOfActs(codec, table, id, HeadersBytes(codec, ResponseFields(response)), ResponseFields(response),
                response.body, ResponseActs(codec, id, response), more);
  }

  lemma ItemsOfActs(codec: Codec, table: DynamicTable, id: nat, block: seq<byte>, fields: seq<Header>,
                    body: seq<byte>, acts: seq<Act>, more: seq<Event>)
    requires |codec.staticTable| == 61
    requires DecodeFrom(codec, block, 0, table) == Ok(Decoded(fields, table))
    requires acts == [SendHeaders(id, PLAIN, [block], body == [])] + if body == [] then [] else DataActs(id, body)
    ensures ItemsOf(codec, table, EventsOf(acts) + more) ==
            ([Fields(id, fields, body == [])] + if body == [] then [] else BodyItems(id, body)) +
            ItemsOf(codec, table, more)
  {
    var data := if body == [] then [] else DataActs(id, body);
    var items := if body == [] then [] else BodyItems(id, body);
    BlockItem(codec, table, id, block, fields, body == [], data, more);
    if body == [] {
      Nothing(more);
    } else {
      ItemsOfBody(codec, table, id, body, more);
    }
    Assoc([Fields(id, fields, body == [])], items, ItemsOf(codec, table, more));
  }

  lemma {:induction false} BlockItem(
      codec: Codec, table: DynamicTable, id: nat, block: seq<byte>, fields: seq<Header>, last: bool,
      acts: seq<Act>, more: seq<Event>)
    requires |codec.staticTable| == 61
    requires DecodeFrom(codec, block, 0, table) == Ok(Decoded(fields, table))
    ensures ItemsOf(codec, table, EventsOf([SendHeaders(id, PLAIN, [block], last)] + acts) + more) ==
            [Fields(id, fields, last)] + ItemsOf(codec, table, EventsOf(acts) + more)
  {
    var sent := SendHeaders(id, PLAIN, [block], last);
    DropConcat([sent], acts);
    assert EventsOf([sent] + acts) == [EventOf(sent)] + EventsOf(acts);
    Assoc([EventOf(sent)], EventsOf(acts), more);
    DropOne(EventOf(sent), EventsOf(acts) + more);
    assert Join([block]) == block;
  }

  lemma DropOne<T>(x: T, s: seq<T>)
    ensures ([x] + s)[0] == x && ([x] + s)[1..] == s
  {}

  // ----- A whole connection

  /** What the program answers to the n-th request, or nothing when it fails. */
  type Program = (nat, Message) -> Option<Response>

  ghost predicate AllProper(respond: Program) {
    forall n, request :: respond(n, request).Some? ==> Proper(respond(n, request).value)
  }

  function Responder(codec: Codec, respond: Program): Handler
    requires |codec.staticTable| == 61
  {
    (n: nat, request: Message) =>
      match respond(n, request)
      case None => None
      case Some(response) =>
        if Sends(codec, response) then Some(ResponseBytes(codec, request.id, response)) else None
  }

  /** The message the client should see for a request; none for the one that failed. */
  function Answers(codec: Codec, respond: Program, n: nat, request: Message): seq<Message>
    requires |codec.staticTable| == 61
  {
    match respond(n, request)
    case None => []
    case Some(response) =>
      if Sends(codec, response) then [Message(request.id, ResponseFields(response), response.body)] else []
  }

  function AllAnswers(codec: Codec, respond: Program, requests: seq<Message>, from: nat): seq<Message>
    requires |codec.staticTable| == 61
    decreases |requests| - from
  {
    if from >= |requests| then []
    else Answers(codec, respond, from, requests[from]) + AllAnswers(codec, respond, requests, from + 1)
  }

  /** The acts of the server on one event. */
  ghost function ActsFor(codec: Codec, respond: Program, state: State, event: Event): seq<Act>
    requires |codec.staticTable| == 61
  {
    if event.Reply? then [SendOther(event.frame)]
    else
      var step := React(codec, Responder(codec, respond), state, event);
      var n := |state.requests|;
      if |step.state.requests| <= n then []
      else match respond(n, step.state.requests[n])
        case None => []
        case Some(response) =>
          if Sends(codec, response) then ResponseActs(codec, step.state.requests[n].id, response) else []
  }

  predicate Answerable(event: Event) {
    match event
    case HeaderBlock(id, _, _) => id < 0x8000_0000
    case DataPart(id, _, _) => id < 0x8000_0000
    case Reply(frame) => Sendable(SendOther(frame)) && Answer(frame) == Ignored
    case Ignored => true
    case Goodbye => true
  }

  lemma EventsAreAnswerable(input: seq<byte>, position: nat)
    requires NextEvent(input, position).Ok? && NextEvent(input, position).value.Some?
    ensures Answerable(NextEvent(input, position).value.value.value)
  {
    FlagsRead(true, false, PLAIN);
  }

  ghost function ServerActs(codec: Codec, respond: Program, input: seq<byte>, position: nat, state: State): seq<Act>
    requires |codec.staticTable| == 61
    decreases |input| - position
  {
    match NextEvent(input, position)
    case Err(_) => []
    case Ok(None) => []
    case Ok(Some(read)) =>
      if read.value == Goodbye then []
      else
        var step := React(codec, Responder(codec, respond), state, read.value);
        if step.error.Some? then ActsFor(codec, respond, state, read.value)
        else ActsFor(codec, respond, state, read.value) +
             ServerActs(codec, respond, input, read.next, step.state)
  }

  /** One event: what is written are the acts for it. */
  lemma ReactWrites(codec: Codec, respond: Program, state: State, event: Event)
    requires |codec.staticTable| == 61 && Answerable(event)
    ensures var step := React(codec, Responder(codec, respond), state, event);
            var acts := ActsFor(codec, respond, state, event);
            AllSendable(acts) && step.state.output == state.output + ActsBytes(acts)
  {
    var acts := ActsFor(codec, respond, state, event);
    var step := React(codec, Responder(codec, respond), state, event);
    if event.Reply? {
      assert acts[1..] == [];
      assert ActBytes(acts[0]) + [] == ActBytes(acts[0]);
    } else if acts != [] {
      var request := step.state.requests[|state.requests|];
      ResponseActsBytes(codec, request.id, respond(|state.requests|, request).value);
    } else {
      assert state.output + [] == state.output;
    }
  }

  /** Stream ids of the events read from the wire have 31 bits, and replies need no reply. */
  lemma {:induction false} ServerWrites(
      codec: Codec, respond: Program, input: seq<byte>, position: nat, state: State)
    requires |codec.staticTable| == 61
    ensures var acts := ServerActs(codec, respond, input, position, state);
            && AllSendable(acts)
            && Serve(codec, Responder(codec, respond), input, position, state).state.output ==
               state.output + ActsBytes(acts)
    decreases |input| - position
  {
    var next := NextEvent(input, position);
    if next.Err? || next.value.None? || next.value.value.value == Goodbye {
      assert state.output + [] == state.output;
    } else {
      var read := next.value.value;
      EventsAreAnswerable(input, position);
      ReactWrites(codec, respond, state, read.value);
      var step := React(codec, Responder(codec, respond), state, read.value);
      if step.error.None? {
        ServerWrites(codec, respond, input, read.next, step.state);
        WriteMore(state.output, ActsFor(codec, respond, state, read.value),
                  ServerActs(codec, respond, input, read.next, step.state));
      }
    }
  }

  lemma WriteMore(output: seq<byte>, a: seq<Act>, b: seq<Act>)
    requires AllSendable(a) && AllSendable(b)
    ensures AllSendable(a + b)
    ensures output + ActsBytes(a) + ActsBytes(b) == output + ActsBytes(a + b)
  {
    BytesConcat(a, b);
    Assoc(output, ActsBytes(a), ActsBytes(b));
  }

  /** One event: what the client makes of the acts for it. */
  lemma ReactAnswers(codec: Codec, table: DynamicTable, respond: Program, state: State, event: Event,
                     more: seq<Event>)
    requires |codec.staticTable| == 61 && AllProper(respond) && Answerable(event)
    ensures var step := React(codec, Responder(codec, respond), state, event);
            var n := |state.requests|;
            && (step.state.requests == state.requests ||
                (|step.state.requests| == n + 1 && step.state.requests[..n] == state.requests))
            && Dispatched(map[], ItemsOf(codec, table, EventsOf(ActsFor(codec, respond, state, event)) + more)) ==
               (if |step.state.requests| == n then [] else Answers(codec, respond, n, step.state.requests[n])) +
               Dispatched(map[], ItemsOf(codec, table, more))
  {
    var acts := ActsFor(codec, respond, state, event);
    var step := React(codec, Responder(codec, respond), state, event);
    if event.Reply? {
      ReplyIsIgnored(codec, table, event.frame, more);
    } else if acts == [] {
      assert EventsOf(acts) + more == more;
    } else {
      var request := step.state.requests[|state.requests|];
      var response := respond(|state.requests|, request).value;
      ItemsOfResponse(codec, table, request.id, response, more);
      ResponseDispatched(map[], request.id, response, ItemsOf(codec, table, more));
    }
  }

  lemma ReplyIsIgnored(codec: Codec, table: DynamicTable, frame: Frame, more: seq<Event>)
    requires |codec.staticTable| == 61 && (Answer(frame) == Ignored || Answer(frame).Reply?)
    ensures ItemsOf(codec, table, EventsOf([SendOther(frame)]) + more) == ItemsOf(codec, table, more)
  {
    var all := EventsOf([SendOther(frame)]) + more;
    assert EventsOf([SendOther(frame)]) == [Answer(frame)];
    assert all[1..] == more;
  }

  /** The messages that a client with an empty stream map makes of the acts. */
  ghost predicate Sees(codec: Codec, table: DynamicTable, acts: seq<Act>, messages: seq<Message>)
    requires |codec.staticTable| == 61
  {
    Dispatched(map[], ItemsOf(codec, table, EventsOf(acts))) == messages
  }

  /** Requests are only ever added, and the answers to them are what the client sees. */
  lemma {:induction false} ClientSees(
      codec: Codec, table: DynamicTable, respond: Program, input: seq<byte>, position: nat, state: State)
    requires |codec.staticTable| == 61 && AllProper(respond)
    ensures var outcome := Serve(codec, Responder(codec, respond), input, position, state);
            && state.requests <= outcome.state.requests
            && Sees(codec, table, ServerActs(codec, respond, input, position, state),
                    AllAnswers(codec, respond, outcome.state.requests, |state.requests|))
    decreases |input| - position
  {
    var next := NextEvent(input, position);
    if next.Ok? && next.value.Some? && next.value.value.value != Goodbye {
      var read := next.value.value;
      EventsAreAnswerable(input, position);
      var acts := ActsFor(codec, respond, state, read.value);
      var step := React(codec, Responder(codec, respond), state, read.value);
      if step.error.Some? {
        ReactAnswers(codec, table, respond, state, read.value, []);
        assert EventsOf(acts) + [] == EventsOf(acts);
        LastAnswer(codec, respond, state.requests, step.state.requests);
      } else {
        var rest := ServerActs(codec, respond, input, read.next, step.state);
        ReactAnswers(codec, table, respond, state, read.value, EventsOf(rest));
        EventsConcat(acts, rest);
        ClientSees(codec, table, respond, input, read.next, step.state);
        NextAnswer(codec, respond, state.requests, step.state.requests,
                   Serve(codec, Responder(codec, respond), input, read.next, step.state).state.requests);
      }
    }
  }

  predicate Grows(before: seq<Message>, after: seq<Message>) {
    after == before || (|after| == |before| + 1 && after[..|before|] == before)
  }

  lemma LastAnswer(codec: Codec, respond: Program, before: seq<Message>, after: seq<Message>)
    requires |codec.staticTable| == 61 && Grows(before, after)
    ensures (if |after| == |before| then [] else Answers(codec, respond, |before|, after[|before|])) + [] ==
            AllAnswers(codec, respond, after, |before|)
  {}

  lemma NextAnswer(codec: Codec, respond: Program, before: seq<Message>, after: seq<Message>, all: seq<Message>)
    requires |codec.staticTable| == 61 && Grows(before, after) && after <= all
    ensures before <= all
    ensures (if |after| == |before| then [] else Answers(codec, respond, |before|, after[|before|])) +
            AllAnswers(codec, respond, all, |after|) == AllAnswers(codec, respond, all, |before|)
  {
    if after != before {
      assert all[|before|] == after[|before|];
    }
  }

  /** What a client reads of the octets, taken from an empty stream map. */
  ghost predicate Shows(codec: Codec, table: DynamicTable, output: seq<byte>, messages: seq<Message>)
    requires |codec.staticTable| == 61
  {
    var seen := ReadAll(output, 0);
    seen.Ok? && Dispatched(map[], ItemsOf(codec, table, seen.value)) == messages
  }

  lemma ActsShow(codec: Codec, table: DynamicTable, output: seq<byte>, acts: seq<Act>, messages: seq<Message>)
    requires |codec.staticTable| == 61 && AllSendable(acts) && output == ActsBytes(acts)
    requires Sees(codec, table, acts, messages)
    ensures Shows(codec, table, output, messages)
  {
    HoldsWhole(output);
    ActsReadBack(output, 0, acts);
  }

  /** The settings a server opens with. */
  function Hello(): seq<Act> {
    [SendOther(Frame(SETTINGS, 0, 0, []))]
  }

  lemma HelloBytes()
    ensures AllSendable(Hello()) && ActsBytes(Hello()) == Opening().output
  {
    Nothing(ActBytes(Hello()[0]));
  }

  lemma HelloIsUnseen(codec: Codec, table: DynamicTable, acts: seq<Act>, messages: seq<Message>)
    requires |codec.staticTable| == 61 && Sees(codec, table, acts, messages)
    ensures Sees(codec, table, Hello() + acts, messages)
  {
    EventsConcat(Hello(), acts);
    ReplyIsIgnored(codec, table, Frame(SETTINGS, 0, 0, []), EventsOf(acts));
  }

  /** After the preface. */
  lemma ServedIsShown(codec: Codec, respond: Program, input: seq<byte>, table: DynamicTable)
    requires |codec.staticTable| == 61 && AllProper(respond)
    ensures var outcome := Serve(codec, Responder(codec, respond), input, 24, Opening());
            Shows(codec, table, outcome.state.output, AllAnswers(codec, respond, outcome.state.requests, 0))
  {
    var outcome := Serve(codec, Responder(codec, respond), input, 24, Opening());
    var acts := ServerActs(codec, respond, input, 24, Opening());
    var messages := AllAnswers(codec, respond, outcome.state.requests, 0);
    ServerWrites(codec, respond, input, 24, Opening());
    ClientSees(codec, table, respond, input, 24, Opening());
    HelloBytes();
    BytesConcat(Hello(), acts);
    HelloIsUnseen(codec, table, acts, messages);
    ActsShow(codec, table, outcome.state.output, Hello() + acts, messages);
  }

  /** Whatever a client sends, what the server writes reads back, frame for frame, as the
      responses to the requests it dispatched, in order, each complete and undisturbed: the
      lower-cased fields that may be sent and the exact body. */
  lemma EndToEnd(codec: Codec, respond: Program, input: seq<byte>, table: DynamicTable)
    requires |codec.staticTable| == 61 && AllProper(respond)
    ensures var outcome := Connect(codec, Responder(codec, respond), input);
            var seen := ReadAll(outcome.state.output, 0);
            && seen.Ok?
            && Dispatched(map[], ItemsOf(codec, table, seen.value)) ==
               AllAnswers(codec, respond, outcome.state.requests, 0)
  {
    var outcome := Connect(codec, Responder(codec, respond), input);
    if |input| < 24 || Octets(input, 0, 24) != PREFACE {
      assert ParseFrame([], 0) == Ok(None);
    } else {
      ServedIsShown(codec, respond, input, table);
      assert Shows(codec, table, outcome.state.output, AllAnswers(codec, respond, outcome.state.requests, 0));
    }
  }
}
