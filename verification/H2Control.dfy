/** What a server writes besides its responses: its SETTINGS, and one acknowledgement for every frame
    of the client that asks for one. */
module H2Control {
  import opened Prelude
  import opened Text
  import opened Sequences
  import opened Bits
  import opened Buffers
  import opened HpackDecoding
  import HpackHistory
  import opened H2Frame
  import opened H2Connection
  import opened H2Wire
  import opened H2Response
  import opened H2RoundTrip

  /** The frames that begin between `position` and `end`. */
  function FramesIn(input: seq<byte>, position: nat, end: nat): seq<Frame>
    decreases |input| - position
  {
    if position >= end then []
    else match ParseFrame(input, position)
      case Err(_) => []
      case Ok(None) => []
      case Ok(Some(read)) => [read.value] + FramesIn(input, read.next, end)
  }

  /** Sections 6.5.3 and 6.7 of RFC 7540: what SETTINGS and PING without ACK are answered with. */
  function Owed(frame: Frame): seq<Frame> {
    if frame.frameType == 4 && frame.flags % 2 == 0 then [Frame(4, 1, 0, [])]
    else if frame.frameType == 6 && frame.flags % 2 == 0 && |frame.payload| == 8 then [Frame(6, 1, 0, frame.payload)]
    else []
  }

  function AllOwed(frames: seq<Frame>): seq<Frame> {
    if frames == [] then [] else Owed(frames[0]) + AllOwed(frames[1..])
  }

  /** The frames that are no part of a response, whose frames are HEADERS and DATA. */
  function Control(frames: seq<Frame>): seq<Frame> {
    if frames == [] then []
    else (if frames[0].frameType in {0, 1} then [] else [frames[0]]) + Control(frames[1..])
  }

  lemma {:induction false} OwedConcat(a: seq<Frame>, b: seq<Frame>)
    ensures AllOwed(a + b) == AllOwed(a) + AllOwed(b)
    decreases |a|
  {
    if a == [] {
      Nothing(b);
      Nothing(AllOwed(b));
    } else {
      DropConcat(a, b);
      OwedConcat(a[1..], b);
      Assoc(Owed(a[0]), AllOwed(a[1..]), AllOwed(b));
    }
  }

  lemma {:induction false} ControlConcat(a: seq<Frame>, b: seq<Frame>)
    ensures Control(a + b) == Control(a) + Control(b)
    decreases |a|
  {
    if a == [] {
      Nothing(b);
      Nothing(Control(b));
    } else {
      DropConcat(a, b);
      ControlConcat(a[1..], b);
      Assoc(if a[0].frameType in {0, 1} then [] else [a[0]], Control(a[1..]), Control(b));
    }
  }

  // ----- The frames the server writes

  /** A header block in one frame. */
  predicate Single(act: Act) {
    Sendable(act) && (act.SendHeaders? ==> |act.fragments| == 1)
  }

  predicate AllSingle(acts: seq<Act>) {
    acts == [] || (Single(acts[0]) && AllSingle(acts[1..]))
  }

  function FrameOf(act: Act): Frame
    requires Single(act)
  {
    match act
    case SendHeaders(id, wrapping, fragments, last) => HeadersFrame(id, wrapping, fragments, last)
    case SendData(id, wrapping, data, last) => Frame(DATA, FlagByte(last, false, wrapping), id, wrapping.Wrap(data))
    case SendOther(frame) => frame
  }

  function FramesOf(acts: seq<Act>): seq<Frame>
    requires AllSingle(acts)
  {
    if acts == [] then [] else [FrameOf(acts[0])] + FramesOf(acts[1..])
  }

  lemma SingleBytes(act: Act)
    requires Single(act)
    ensures ActBytes(act) == FrameBytes(FrameOf(act))
    ensures |FrameOf(act).payload| <= 0xff_ffff && FrameOf(act).streamId < 0x8000_0000
  {
    if act.SendHeaders? {
      assert act.fragments[1..] == [];
      Nothing(FrameBytes(FrameOf(act)));
    }
  }

  lemma {:induction false} OneWritten(output: seq<byte>, position: nat, act: Act, next: nat)
    requires Single(act) && Holds(output, position, ActBytes(act)) && next == position + |ActBytes(act)| <= |output|
    ensures FramesIn(output, position, |output|) == [FrameOf(act)] + FramesIn(output, next, |output|)
  {
    SingleBytes(act);
    FrameRoundTrip(output, position, FrameOf(act));
    FirstFrame(output, position, Read(FrameOf(act), next), |output|);
  }

  lemma {:induction false} WrittenFrames(output: seq<byte>, position: nat, acts: seq<Act>)
    requires AllSingle(acts) && AllSendable(acts) && Holds(output, position, ActsBytes(acts))
    requires position + |ActsBytes(acts)| == |output|
    ensures FramesIn(output, position, |output|) == FramesOf(acts)
    decreases |acts|
  {
    if acts != [] {
      var next := HoldsFirst(output, position, ActBytes(acts[0]), ActsBytes(acts[1..]));
      OneWritten(output, position, acts[0], next);
      WrittenFrames(output, next, acts[1..]);
    }
  }

  lemma {:induction false} SingleConcat(a: seq<Act>, b: seq<Act>)
    requires AllSingle(a) && AllSingle(b)
    ensures AllSingle(a + b) && FramesOf(a + b) == FramesOf(a) + FramesOf(b)
    decreases |a|
  {
    if a == [] {
      Nothing(b);
      Nothing(FramesOf(b));
    } else {
      DropConcat(a, b);
      SingleConcat(a[1..], b);
      Assoc([FrameOf(a[0])], FramesOf(a[1..]), FramesOf(b));
    }
  }

  lemma {:induction false} DataIsNoControl(id: nat, body: seq<byte>)
    requires AllSendable(DataActs(id, body))
    ensures AllSingle(DataActs(id, body)) && Control(FramesOf(DataActs(id, body))) == []
    decreases |body|
  {
    var acts := DataActs(id, body);
    if |body| <= MAX_FRAME_SIZE {
      assert acts[1..] == [];
    } else {
      assert acts[1..] == DataActs(id, body[MAX_FRAME_SIZE..]);
      DataIsNoControl(id, body[MAX_FRAME_SIZE..]);
    }
  }

  lemma {:induction false} ResponseIsNoControl(codec: Codec, id: nat, response: Response)
    requires |codec.staticTable| == 61 && AllSendable(ResponseActs(codec, id, response))
    ensures AllSingle(ResponseActs(codec, id, response))
    ensures Control(FramesOf(ResponseActs(codec, id, response))) == []
  {
    var acts := ResponseActs(codec, id, response);
    if response.body == [] {
      assert acts[1..] == [];
    } else {
      assert acts[1..] == DataActs(id, response.body);
      DataIsNoControl(id, response.body);
    }
  }

  // ----- The frames the server reads

  /** Where the loop stops: at the end of the connection, at a GOAWAY, or at the frame it fails on. */
  ghost function Stop(codec: Codec, handler: Handler, input: seq<byte>, position: nat, state: State): (stop: nat)
    requires |codec.staticTable| == 61
    ensures stop >= position
    decreases |input| - position
  {
    match NextEvent(input, position)
    case Err(_) => position
    case Ok(None) => position
    case Ok(Some(read)) =>
      if read.value == Goodbye then position
      else
        var step := React(codec, handler, state, read.value);
        if step.error.Some? then position else Stop(codec, handler, input, read.next, step.state)
  }

  /** GOAWAY has type 7. */
  predicate NoGoaway(frames: seq<Frame>) {
    frames == [] || (frames[0].frameType != 7 && NoGoaway(frames[1..]))
  }

  /** The frames from `position` on up to `end` owe `owed` and then what those from `next` on do. */
  predicate TurnOwes(input: seq<byte>, position: nat, next: nat, end: nat, owed: seq<Frame>) {
    var frames, rest := FramesIn(input, position, end), FramesIn(input, next, end);
    AllOwed(frames) == owed + AllOwed(rest) && (NoGoaway(frames) <==> NoGoaway(rest))
  }

  lemma {:induction false} FrameOwes(input: seq<byte>, position: nat, end: nat, read: Read<Frame>)
    requires ParseFrame(input, position) == Ok(Some(read)) && position < end && read.value.frameType != 7
    ensures TurnOwes(input, position, read.next, end, Owed(read.value))
  {}

  lemma TurnThenTurn(input: seq<byte>, position: nat, middle: nat, next: nat, end: nat)
    requires TurnOwes(input, position, middle, end, []) && TurnOwes(input, middle, next, end, [])
    ensures TurnOwes(input, position, next, end, [])
  {
    Nothing(AllOwed(FramesIn(input, middle, end)));
  }

  lemma {:induction false} ContinuationsOwe(input: seq<byte>, position: nat, id: nat, block: seq<byte>, next: nat,
                                            end: nat)
    requires Continuations(input, position, id, block).Ok?
    requires next == Continuations(input, position, id, block).value.next && next <= end
    ensures TurnOwes(input, position, next, end, [])
    decreases |input| - position
  {
    var read := ParseFrame(input, position).value.value;
    FrameOwes(input, position, end, read);
    if !Has(read.value, END_HEADERS) {
      ContinuationsOwe(input, read.next, id, block + read.value.payload, next, end);
      TurnThenTurn(input, position, read.next, next, end);
    }
  }

  /** What a frame outside a header block is answered with is what it is owed. */
  lemma AnswerIsOwed(frame: Frame)
    requires frame.frameType !in {0, 1}
    ensures Answer(frame) == Goodbye <==> frame.frameType == 7
    ensures Answer(frame).Reply? ==> Owed(frame) == [Answer(frame).frame]
    ensures !Answer(frame).Reply? ==> Owed(frame) == []
    ensures Answer(frame).Reply? || Answer(frame).Ignored? || Answer(frame).Goodbye?
  {}

  function OwedFor(event: Event): seq<Frame> {
    if event.Reply? then [event.frame] else []
  }

  lemma {:induction false} TurnReads(input: seq<byte>, position: nat, read: Read<Event>, end: nat)
    requires NextEvent(input, position) == Ok(Some(read)) && read.value != Goodbye && read.next <= end
    ensures position < end && TurnOwes(input, position, read.next, end, OwedFor(read.value))
  {
    var first := ParseFrame(input, position).value.value;
    if first.value.frameType !in {0, 1} {
      AnswerIsOwed(first.value);
      FrameOwes(input, position, end, first);
    } else {
      FrameOwes(input, position, end, first);
      if first.value.frameType == 1 && !Has(first.value, END_HEADERS) {
        ContinuationsOwe(input, first.next, first.value.streamId, HeadersPayload(first.value).value, read.next, end);
        TurnThenTurn(input, position, first.next, read.next, end);
      }
    }
  }

  // ----- What the frames of an event are

  /** CONTINUATION frames of one stream and nothing between them; END_HEADERS, bit 2, is on the last. */
  predicate EndsBlock(frames: seq<Frame>, id: nat) {
    && frames != [] && frames[0].frameType == 9 && frames[0].streamId == id
    && (if frames[0].flags / 4 % 2 == 1 then |frames| == 1 else EndsBlock(frames[1..], id))
  }

  function Payloads(frames: seq<Frame>): seq<byte> {
    if frames == [] then [] else frames[0].payload + Payloads(frames[1..])
  }

  lemma FlagsAre(frame: Frame)
    ensures Has(frame, END_STREAM) == (frame.flags % 2 == 1) && Has(frame, END_HEADERS) == (frame.flags / 4 % 2 == 1)
  {
    BitHigher(frame.flags, 2);
    BitHigher(frame.flags / 2, 1);
  }

  lemma {:induction false} ContinuationsAre(input: seq<byte>, position: nat, id: nat, block: seq<byte>,
                                            whole: seq<byte>, next: nat)
    requires ContinuesTo(input, position, id, block, whole, next)
    ensures EndsBlock(FramesIn(input, position, next), id)
    ensures whole == block + Payloads(FramesIn(input, position, next))
    decreases |input| - position
  {
    var read := ParseFrame(input, position).value.value;
    FlagsAre(read.value);
    if Has(read.value, END_HEADERS) {
      LastFrame(input, position, read);
      Nothing(read.value.payload);
    } else {
      ContinuationsAre(input, read.next, id, block + read.value.payload, whole, next);
      FirstFrame(input, position, read, next);
      Assoc(block, read.value.payload, Payloads(FramesIn(input, read.next, next)));
    }
  }

  lemma {:induction false} LastFrame(input: seq<byte>, position: nat, read: Read<Frame>)
    requires ParseFrame(input, position) == Ok(Some(read))
    ensures FramesIn(input, position, read.next) == [read.value]
  {
    assert FramesIn(input, read.next, read.next) == [];
  }

  lemma {:induction false} FirstFrame(input: seq<byte>, position: nat, read: Read<Frame>, end: nat)
    requires ParseFrame(input, position) == Ok(Some(read)) && position < end
    ensures FramesIn(input, position, end) == [read.value] + FramesIn(input, read.next, end)
    ensures FramesIn(input, position, end)[1..] == FramesIn(input, read.next, end)
  {}

  /** A header block is the payload of a HEADERS frame without its wrapping and, unless END_HEADERS is
      set there, of the CONTINUATION frames behind it; data is the payload of a DATA frame. */
  ghost predicate IsOf(input: seq<byte>, frame: Frame, next: nat, event: Event, end: nat) {
    match event
    case HeaderBlock(id, block, last) =>
      && frame.frameType == 1 && id == frame.streamId && last == (frame.flags % 2 == 1)
      && (exists wrapping: Wrapping, fragment ::
            && wrapping.Marks(frame) && Unwraps(frame, wrapping, fragment)
            && if frame.flags / 4 % 2 == 1 then end == next && block == fragment
               else
                 && EndsBlock(FramesIn(input, next, end), id)
                 && block == fragment + Payloads(FramesIn(input, next, end)))
    case DataPart(id, data, last) =>
      && frame.frameType == 0 && id == frame.streamId && last == (frame.flags % 2 == 1) && end == next
      && exists wrapping: Wrapping :: wrapping.priority.None? && Unwraps(frame, wrapping, data)
    case _ => frame.frameType !in {0, 1} && end == next
  }

  lemma BlockIsOf(input: seq<byte>, frame: Frame, next: nat, read: Read<Event>)
    requires HeadersEvent(input, frame, next) == Ok(read) && frame.frameType == 1
    ensures IsOf(input, frame, next, read.value, read.next)
  {
    FlagsAre(frame);
    var fragment := HeadersPayload(frame).value;
    HeadersAreWrapped(frame, fragment);
    if !Has(frame, END_HEADERS) {
      ContinuationsAre(input, next, frame.streamId, fragment, read.value.block, read.next);
    }
  }

  /** What the server takes in at a frame is what that frame and its continuations carry. */
  lemma EventsAreOfFrames(input: seq<byte>, position: nat, read: Read<Event>)
    requires NextEvent(input, position) == Ok(Some(read))
    ensures var first := ParseFrame(input, position);
            first.Ok? && first.value.Some? &&
            IsOf(input, first.value.value.value, first.value.value.next, read.value, read.next)
  {
    var first := ParseFrame(input, position).value.value;
    if first.value.frameType == 1 {
      BlockIsOf(input, first.value, first.next, read);
    } else if first.value.frameType == 0 {
      FlagsAre(first.value);
      DataAreWrapped(first.value, DataPayload(first.value).value);
    }
  }

  // ----- One loop

  lemma {:induction false} ActsForOwe(codec: Codec, respond: Program, state: State, event: Event)
    requires |codec.staticTable| == 61 && Answerable(event)
    ensures var acts := ActsFor(codec, respond, state, event);
            AllSingle(acts) && Control(FramesOf(acts)) == OwedFor(event)
  {
    var acts := ActsFor(codec, respond, state, event);
    ReactWrites(codec, respond, state, event);
    if event.Reply? {
      assert acts[1..] == [];
    } else if acts != [] {
      var request := React(codec, Responder(codec, respond), state, event).state.requests[|state.requests|];
      ResponseIsNoControl(codec, request.id, respond(|state.requests|, request).value);
    }
  }

  /** The acts of the server from here on are responses and what the frames it reads are owed. */
  predicate Pays(acts: seq<Act>, input: seq<byte>, position: nat, stop: nat) {
    var frames := FramesIn(input, position, stop);
    AllSingle(acts) && Control(FramesOf(acts)) == AllOwed(frames) && NoGoaway(frames)
  }

  lemma {:induction false} ServerPays(codec: Codec, respond: Program, input: seq<byte>, position: nat, state: State)
    requires |codec.staticTable| == 61
    ensures Pays(ServerActs(codec, respond, input, position, state), input, position,
                 Stop(codec, Responder(codec, respond), input, position, state))
    decreases |input| - position
  {
    var next := NextEvent(input, position);
    if next.Ok? && next.value.Some? && next.value.value.value != Goodbye {
      var read := next.value.value;
      EventsAreAnswerable(input, position);
      ActsForOwe(codec, respond, state, read.value);
      var step := React(codec, Responder(codec, respond), state, read.value);
      if step.error.None? {
        ServerPays(codec, respond, input, read.next, step.state);
        TurnPays(ActsFor(codec, respond, state, read.value), ServerActs(codec, respond, input, read.next, step.state),
                 input, position, read,
                 Stop(codec, Responder(codec, respond), input, read.next, step.state));
      }
    }
  }

  lemma {:induction false} TurnPays(a: seq<Act>, b: seq<Act>, input: seq<byte>, position: nat, read: Read<Event>,
                                    stop: nat)
    requires NextEvent(input, position) == Ok(Some(read)) && read.value != Goodbye && read.next <= stop
    requires AllSingle(a) && Control(FramesOf(a)) == OwedFor(read.value) && Pays(b, input, read.next, stop)
    ensures Pays(a + b, input, position, stop)
  {
    TurnReads(input, position, read, stop);
    PaysMore(a, b, OwedFor(read.value), AllOwed(FramesIn(input, read.next, stop)));
  }

  lemma PaysMore(a: seq<Act>, b: seq<Act>, owed: seq<Frame>, rest: seq<Frame>)
    requires AllSingle(a) && AllSingle(b) && Control(FramesOf(a)) == owed && Control(FramesOf(b)) == rest
    ensures AllSingle(a + b) && Control(FramesOf(a + b)) == owed + rest
  {
    SingleConcat(a, b);
    ControlConcat(FramesOf(a), FramesOf(b));
  }

  /** Where a connection without an error ends there are no more frames, or a GOAWAY; where one fails
      there is half a frame, or a HEADERS or DATA frame. */
  predicate EndsWith(input: seq<byte>, stop: nat, error: Option<Error>) {
    match ParseFrame(input, stop)
    case Err(_) => error.Some?
    case Ok(None) => error.None?
    case Ok(Some(read)) => if error.None? then read.value.frameType == 7 else read.value.frameType in {0, 1}
  }

  lemma {:induction false} LoopEnds(codec: Codec, handler: Handler, input: seq<byte>, position: nat, state: State)
    requires |codec.staticTable| == 61
    ensures EndsWith(input, Stop(codec, handler, input, position, state),
                     Serve(codec, handler, input, position, state).error)
    decreases |input| - position
  {
    match NextEvent(input, position)
    case Err(_) =>
      var first := ParseFrame(input, position);
      if first.Ok? {
        assert first.value.value.value.frameType in {0, 1};
      }
    case Ok(None) =>
    case Ok(Some(read)) =>
      var first := ParseFrame(input, position).value.value;
      if first.value.frameType !in {0, 1} {
        AnswerIsOwed(first.value);
      }
      if read.value != Goodbye {
        var step := React(codec, handler, state, read.value);
        if step.error.None? {
          LoopEnds(codec, handler, input, read.next, step.state);
        }
      }
  }

  // ----- A whole connection

  /** The control frames of the octets written are the opening SETTINGS and the acknowledgements that
      the frames read are owed, one each and in their order. */
  ghost predicate Acknowledges(input: seq<byte>, stop: nat, output: seq<byte>) {
    var frames := FramesIn(input, 24, stop);
    && Control(FramesIn(output, 0, |output|)) == [Frame(4, 0, 0, [])] + AllOwed(frames)
    && NoGoaway(frames)
  }

  /** The dynamic table of a connection has nothing in it at first, and the limit of section 6.5.2. */
  lemma TableIsEmpty()
    ensures HpackHistory.Remembers([], Opening().table)
  {
    HpackHistory.NothingYet();
  }

  lemma HelloIsControl()
    ensures AllSingle(Hello()) && Control(FramesOf(Hello())) == [Frame(4, 0, 0, [])]
  {
    assert Hello()[1..] == [];
  }

  /** Every SETTINGS and every PING of eight octets, unless it is itself an acknowledgement, gets one
      that says the same; no other frame gets one, and nothing is answered behind a GOAWAY or an
      error, or without the preface. */
  lemma ControlFrames(codec: Codec, respond: Program, input: seq<byte>) returns (stop: nat)
    requires |codec.staticTable| == 61
    ensures var outcome := Connect(codec, Responder(codec, respond), input);
            if |input| >= 24 && Octets(input, 0, 24) == Ascii("PRI * HTTP/2.0\r\n\r\nSM\r\n\r\n") then
              Acknowledges(input, stop, outcome.state.output) && EndsWith(input, stop, outcome.error)
            else outcome.state.output == [] && outcome.error.Some?
  {
    PrefaceText();
    if |input| >= 24 && Octets(input, 0, 24) == PREFACE {
      stop := ServedControl(codec, respond, input);
    } else {
      stop := 0;
    }
  }

  lemma PrefaceText()
    ensures PREFACE == Ascii("PRI * HTTP/2.0\r\n\r\nSM\r\n\r\n")
  {}

  lemma ServedControl(codec: Codec, respond: Program, input: seq<byte>) returns (stop: nat)
    requires |codec.staticTable| == 61
    ensures var outcome := Serve(codec, Responder(codec, respond), input, 24, Opening());
            Acknowledges(input, stop, outcome.state.output) && EndsWith(input, stop, outcome.error)
  {
    var handler := Responder(codec, respond);
    stop := Stop(codec, handler, input, 24, Opening());
    var acts := ServerActs(codec, respond, input, 24, Opening());
    ServerPays(codec, respond, input, 24, Opening());
    LoopEnds(codec, handler, input, 24, Opening());
    ServerWrites(codec, respond, input, 24, Opening());
    HelloBytes();
    BytesConcat(Hello(), acts);
    HelloIsControl();
    PaysMore(Hello(), acts, [Frame(4, 0, 0, [])], AllOwed(FramesIn(input, 24, stop)));
    var output := Serve(codec, handler, input, 24, Opening()).state.output;
    HoldsWhole(output);
    WrittenFrames(output, 0, Hello() + acts);
  }
}
