/** The HTTP/2 connection loop: frames to events, events to requests. */
module H2Connection {
  import opened Prelude
  import opened Buffers
  import opened HpackTable
  import opened HpackDecoding
  import opened Network
  import opened Sequences
  import opened H2Frame
  import opened H2Streams

  /** What a frame, with its continuations, means to the connection. */
  datatype Event =
    | HeaderBlock(id: nat, block: seq<byte>, last: bool)
    | DataPart(id: nat, data: seq<byte>, last: bool)
    | Reply(frame: Frame)
    | Ignored
    | Goodbye

  // ----- Frames to events

  /** read_h2_continuations: the rest of a header block, uninterrupted up to END_HEADERS. */
  function Continuations(input: seq<byte>, position: nat, id: nat, block: seq<byte>)
    : (r: Result<Read<seq<byte>>>)
    ensures r.Ok? ==> position < r.value.next
    decreases |input| - position
  {
    match ParseFrame(input, position)
    case Err(e) => Err(e)
    case Ok(None) => Err(HeaderBlockTruncated)
    case Ok(Some(read)) =>
      var frame := read.value;
      if frame.frameType != CONTINUATION || frame.streamId != id then Err(ContinuationExpected)
      else if Has(frame, END_HEADERS) then Ok(Read(block + frame.payload, read.next))
      else Continuations(input, read.next, id, block + frame.payload)
  }

  /** The answer to a frame that asks for one. */
  function Answer(frame: Frame): Event {
    if frame.frameType == SETTINGS && !Has(frame, ACK) then Reply(Frame(SETTINGS, 1, 0, []))
    else if frame.frameType == PING && !Has(frame, ACK) && |frame.payload| == 8 then
      Reply(Frame(PING, 1, 0, frame.payload))
    else if frame.frameType == GOAWAY then Goodbye
    else Ignored
  }

  function HeadersEvent(input: seq<byte>, frame: Frame, next: nat): (r: Result<Read<Event>>)
    ensures r.Ok? ==> next <= r.value.next
  {
    match HeadersPayload(frame)
    case Err(e) => Err(e)
    case Ok(block) =>
      if Has(frame, END_HEADERS) then
        Ok(Read(HeaderBlock(frame.streamId, block, Has(frame, END_STREAM)), next))
      else match Continuations(input, next, frame.streamId, block)
        case Err(e) => Err(e)
        case Ok(whole) =>
          Ok(Read(HeaderBlock(frame.streamId, whole.value, Has(frame, END_STREAM)), whole.next))
  }

  function DataEvent(frame: Frame, next: nat): Result<Read<Event>> {
    match DataPayload(frame)
    case Err(e) => Err(e)
    case Ok(data) => Ok(Read(DataPart(frame.streamId, data, Has(frame, END_STREAM)), next))
  }

  function FrameEvent(input: seq<byte>, frame: Frame, next: nat): (r: Result<Read<Event>>)
    ensures r.Ok? ==> next <= r.value.next
  {
    if frame.frameType == HEADERS then HeadersEvent(input, frame, next)
    else if frame.frameType == DATA then DataEvent(frame, next)
    else Ok(Read(Answer(frame), next))
  }

  function NextEvent(input: seq<byte>, position: nat): (r: Result<Option<Read<Event>>>)
    ensures r.Ok? && r.value.Some? ==> position < |input| && position < r.value.value.next
  {
    match ParseFrame(input, position)
    case Err(e) => Err(e)
    case Ok(None) => Ok(None)
    case Ok(Some(read)) =>
      match FrameEvent(input, read.value, read.next)
      case Err(e) => Err(e)
      case Ok(event) => Ok(Some(event))
  }

  method ReadContinuations(stream: TcpStream, id: nat, block: seq<byte>) returns (r: Result<seq<byte>>)
    requires stream.Valid()
    modifies stream`position
    ensures stream.Valid()
    ensures match Continuations(stream.input, old(stream.position), id, block)
            case Err(e) => r == Err(e)
            case Ok(read) => r == Ok(read.value) && stream.position == read.next
  {
    var result := block;
    ghost var goal := Continuations(stream.input, stream.position, id, block);
    while true
      invariant stream.Valid() && goal == Continuations(stream.input, stream.position, id, result)
      decreases |stream.input| - stream.position
    {
      var frame := ReadFrame(stream);
      if frame.Err? { return Err(frame.error); }
      if frame.value.None? { return Err(HeaderBlockTruncated); }
      var f := frame.value.value;
      if f.frameType != CONTINUATION || f.streamId != id {
        return Err(ContinuationExpected);
      }
      result := result + f.payload;
      if Has(f, END_HEADERS) {
        return Ok(result);
      }
    }
  }

  // ----- Events to requests

  /** How the server answers the n-th request: the octets it writes, or a failure that ends
      the connection. */
  type Handler = (nat, Message) -> Option<seq<byte>>

  datatype State = State(table: DynamicTable, streams: Streams, output: seq<byte>, requests: seq<Message>)

  datatype Outcome = Outcome(state: State, error: Option<Error>)

  function Dispatch(handler: Handler, state: State, item: Item): Outcome {
    var (streams, requests) := Take(state.streams, item);
    if requests == [] then Outcome(state.(streams := streams), None)
    else
      var next := state.(streams := streams, requests := state.requests + requests);
      match handler(|state.requests|, requests[0])
      case None => Outcome(next, Some(HandlerFailed))
      case Some(bytes) => Outcome(next.(output := next.output + bytes), None)
  }

  ghost function React(codec: Codec, handler: Handler, state: State, event: Event): Outcome
    requires |codec.staticTable| == 61
  {
    match event
    case HeaderBlock(id, block, last) =>
      (match DecodeFrom(codec, block, 0, state.table)
       case Err(e) => Outcome(state, Some(e))
       case Ok(d) => Dispatch(handler, state.(table := d.table), Fields(id, d.fields, last)))
    case DataPart(id, data, last) => Dispatch(handler, state, Chunk(id, data, last))
    case Reply(frame) => Outcome(state.(output := state.output + FrameBytes(frame)), None)
    case Ignored => Outcome(state, None)
    case Goodbye => Outcome(state, None)
  }

  ghost function Serve(codec: Codec, handler: Handler, input: seq<byte>, position: nat, state: State): Outcome
    requires |codec.staticTable| == 61
    decreases |input| - position
  {
    match NextEvent(input, position)
    case Err(e) => Outcome(state, Some(e))
    case Ok(None) => Outcome(state, None)
    case Ok(Some(read)) =>
      if read.value == Goodbye then Outcome(state, None)
      else
        var step := React(codec, handler, state, read.value);
        if step.error.Some? then step
        else Serve(codec, handler, input, read.next, step.state)
  }

  const PREFACE: seq<byte> := [
    80, 82, 73, 32, 42, 32, 72, 84, 84, 80, 47, 50, 46, 48, 13, 10, 13, 10, 83, 77, 13, 10, 13, 10
  ]

  /** The whole connection: the preface, the server's SETTINGS, then the loop. */
  ghost function Connect(codec: Codec, handler: Handler, input: seq<byte>): Outcome
    requires |codec.staticTable| == 61
  {
    var start := State(DynamicTable([], 4096), map[], [], []);
    if |input| < 24 then Outcome(start, Some(ConnectionClosed))
    else if Octets(input, 0, 24) != PREFACE then Outcome(start, Some(InvalidPreface))
    else Serve(codec, handler, input, 24, start.(output := FrameBytes(Frame(SETTINGS, 0, 0, []))))
  }

  method ReadEvent(stream: TcpStream) returns (r: Result<Option<Event>>)
    requires stream.Valid()
    modifies stream`position
    ensures stream.Valid()
    ensures match NextEvent(stream.input, old(stream.position))
            case Err(e) => r == Err(e)
            case Ok(None) => r == Ok(None)
            case Ok(Some(read)) => r == Ok(Some(read.value)) && stream.position == read.next
  {
    var frame := ReadFrame(stream);
    if frame.Err? { return Err(frame.error); }
    if frame.value.None? { return Ok(None); }
    var f := frame.value.value;
    if f.frameType == HEADERS {
      var payload := HeadersPayload(f);
      if payload.Err? { return Err(payload.error); }
      var block := payload.value;
      if !Has(f, END_HEADERS) {
        var rest := ReadContinuations(stream, f.streamId, block);
        if rest.Err? { return Err(rest.error); }
        block := rest.value;
      }
      return Ok(Some(HeaderBlock(f.streamId, block, Has(f, END_STREAM))));
    } else if f.frameType == DATA {
      var payload := DataPayload(f);
      if payload.Err? { return Err(payload.error); }
      return Ok(Some(DataPart(f.streamId, payload.value, Has(f, END_STREAM))));
    } else {
      return Ok(Some(Answer(f)));
    }
  }

  class Server {
    const codec: Codec
    const handler: Handler
    const stream: TcpStream
    const hpack: HpackDecoder
    var streams: Streams
    var requests: seq<Message>

    ghost predicate Valid()
      reads this, stream, hpack
    {
      codec.Valid() && hpack.codec == codec && stream.Valid() && hpack.Valid()
    }

    ghost function View(): State
      reads this, stream, hpack
    {
      State(hpack.View(), streams, stream.output, requests)
    }

    constructor (codec: Codec, handler: Handler, stream: TcpStream)
      requires codec.Valid() && stream.Valid()
      ensures Valid() && fresh(hpack)
      ensures this.codec == codec && this.handler == handler && this.stream == stream
      ensures View() == State(DynamicTable([], 4096), map[], stream.output, [])
    {
      this.codec, this.handler, this.stream := codec, handler, stream;
      hpack := new HpackDecoder(codec);
      streams, requests := map[], [];
    }

    /** One item for a stream, and at END_STREAM the request it completes. */
    method Accept(item: Item) returns (error: Option<Error>)
      requires Valid()
      modifies this, stream`output
      ensures Valid()
      ensures Outcome(View(), error) == Dispatch(handler, old(View()), item)
    {
      var entry := Extend(Get(streams, item.id), item);
      streams := streams[item.id := entry];
      if item.last {
        assert streams - {item.id} == old(streams) - {item.id};
        streams := streams - {item.id};
        var request := Message(item.id, entry.fields, entry.body);
        var n := |requests|;
        requests := requests + [request];
        var answer := handler(n, request);
        if answer.None? {
          return Some(HandlerFailed);
        }
        stream.WriteAll(answer.value);
      }
      return None;
    }

    method Handle(event: Event) returns (error: Option<Error>)
      requires Valid()
      modifies this, stream`output, hpack
      ensures Valid()
      ensures var outcome := React(codec, handler, old(View()), event);
              && error == outcome.error && View().requests == outcome.state.requests
              && stream.output == outcome.state.output
              && (error.None? ==> View() == outcome.state)
    {
      match event
      case HeaderBlock(id, block, last) =>
        var fields := hpack.Decode(block);
        if fields.Err? { return Some(fields.error); }
        error := Accept(Fields(id, fields.value, last));
      case DataPart(id, data, last) =>
        error := Accept(Chunk(id, data, last));
      case Reply(frame) =>
        stream.WriteAll(FrameBytes(frame));
        return None;
      case _ =>
        return None;
    }

    /** The frames of the connection, up to its end, a GOAWAY or the first error. */
    method Loop() returns (error: Option<Error>)
      requires Valid()
      modifies this, stream, hpack
      ensures EndsAs(Serve(codec, handler, stream.input, old(stream.position), old(View())),
                   requests, stream.output, error)
    {
      ghost var goal := Serve(codec, handler, stream.input, stream.position, View());
      while true
        invariant Valid() && goal == Serve(codec, handler, stream.input, stream.position, View())
        decreases |stream.input| - stream.position
      {
        var event := ReadEvent(stream);
        if event.Err? { return Some(event.error); }
        if event.value.None? || event.value.value == Goodbye { return None; }
        error := Handle(event.value.value);
        if error.Some? { return; }
      }
    }
  }

  /** The requests dispatched, the octets written and the error a connection ends with. */
  predicate EndsAs(outcome: Outcome, requests: seq<Message>, output: seq<byte>, error: Option<Error>) {
    outcome.state.requests == requests && outcome.state.output == output && outcome.error == error
  }

  /** The client's preface, and the server's SETTINGS in answer to it. */
  method Greet(stream: TcpStream) returns (error: Option<Error>)
    requires stream.Valid() && stream.position == 0 && stream.output == []
    modifies stream
    ensures stream.Valid()
    ensures if |stream.input| < 24 then error == Some(ConnectionClosed) && stream.output == []
            else if Octets(stream.input, 0, 24) != PREFACE then error == Some(InvalidPreface) && stream.output == []
            else error == None && stream.position == 24 && stream.output == FrameBytes(Frame(SETTINGS, 0, 0, []))
  {
    var preface := stream.ReadExact(24);
    if preface.None? { return Some(ConnectionClosed); }
    if preface.value != PREFACE { return Some(InvalidPreface); }
    stream.WriteAll(FrameBytes(Frame(SETTINGS, 0, 0, [])));
    Nothing(FrameBytes(Frame(SETTINGS, 0, 0, [])));
    return None;
  }

  /** handle_h2_connection_group */
  method ServeConnection(codec: Codec, handler: Handler, stream: TcpStream)
    returns (requests: seq<Message>, error: Option<Error>)
    requires codec.Valid() && stream.Valid() && stream.position == 0 && stream.output == []
    modifies stream
    ensures EndsAs(Connect(codec, handler, stream.input), requests, stream.output, error)
  {
    var server := new Server(codec, handler, stream);
    error := Greet(stream);
    if error.Some? { return [], error; }
    error := server.Loop();
    requests := server.requests;
  }
}
