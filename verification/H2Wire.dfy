/** What a peer sends and what the connection makes of it: how header blocks are split, how
    payloads are padded and how streams interleave does not matter. */
module H2Wire {
  import opened Prelude
  import opened Bits
  import opened Buffers
  import opened Sequences
  import opened HpackTable
  import opened HpackDecoding
  import opened H2Frame
  import opened H2Streams
  import opened H2Connection

  /** One thing a peer does: a header block in any number of frames, a DATA frame, or another. The
      types of its frames are those of section 6 of RFC 7540. */
  datatype Act =
    | SendHeaders(id: nat, wrapping: Wrapping, fragments: seq<seq<byte>>, last: bool)
    | SendData(id: nat, wrapping: Wrapping, data: seq<byte>, last: bool)
    | SendOther(frame: Frame)

  function FlagByte(endStream: bool, endHeaders: bool, wrapping: Wrapping): byte {
    (if endStream then 1 else 0) + (if endHeaders then 4 else 0) +
    (if wrapping.padding.Some? then 8 else 0) + (if wrapping.priority.Some? then 32 else 0)
  }

  lemma FlagsRead(endStream: bool, endHeaders: bool, wrapping: Wrapping)
    ensures var flags := FlagByte(endStream, endHeaders, wrapping);
            && BitOf(flags, END_STREAM) == endStream && BitOf(flags, END_HEADERS) == endHeaders
            && BitOf(flags, PADDED) == wrapping.padding.Some?
            && BitOf(flags, PRIORITY) == wrapping.priority.Some?
  {
    var flags := FlagByte(endStream, endHeaders, wrapping);
    BitHigher(flags, 2);
    BitHigher(flags / 2, 1);
    BitHigher(flags, 3);
    BitHigher(flags / 2, 2);
    BitHigher(flags / 2 / 2, 1);
    BitHigher(flags, 5);
    BitHigher(flags / 2, 4);
    BitHigher(flags / 2 / 2, 3);
    BitHigher(flags / 2 / 2 / 2, 2);
    BitHigher(flags / 2 / 2 / 2 / 2, 1);
  }

  function ContinuationBytes(id: nat, fragments: seq<seq<byte>>): seq<byte> {
    if fragments == [] then []
    else
      FrameBytes(Frame(9, if |fragments| == 1 then 4 else 0, id, fragments[0])) +
      ContinuationBytes(id, fragments[1..])
  }

  function HeadersFrame(id: nat, wrapping: Wrapping, fragments: seq<seq<byte>>, last: bool): Frame
    requires wrapping.Valid() && fragments != []
  {
    Frame(1, FlagByte(last, |fragments| == 1, wrapping), id, wrapping.Wrap(fragments[0]))
  }

  function ActBytes(act: Act): seq<byte>
    requires Sendable(act)
  {
    match act
    case SendHeaders(id, wrapping, fragments, last) =>
      FrameBytes(HeadersFrame(id, wrapping, fragments, last)) + ContinuationBytes(id, fragments[1..])
    case SendData(id, wrapping, data, last) =>
      FrameBytes(Frame(0, FlagByte(last, false, wrapping), id, wrapping.Wrap(data)))
    case SendOther(frame) => FrameBytes(frame)
  }

  /** Frames within the 24-bit length, streams within 31 bits, padding within an octet. */
  predicate Sendable(act: Act) {
    match act
    case SendHeaders(id, wrapping, fragments, _) =>
      && id < 0x8000_0000 && wrapping.Valid() && fragments != []
      && |wrapping.Wrap(fragments[0])| <= 0xff_ffff
      && AllShort(fragments[1..])
    case SendData(id, wrapping, data, _) =>
      && id < 0x8000_0000 && wrapping.Valid() && wrapping.priority.None?
      && |wrapping.Wrap(data)| <= 0xff_ffff
    case SendOther(frame) =>
      && frame.streamId < 0x8000_0000 && |frame.payload| <= 0xff_ffff
      && frame.frameType != HEADERS && frame.frameType != DATA
  }

  predicate AllShort(fragments: seq<seq<byte>>) {
    fragments == [] || (|fragments[0]| <= 0xff_ffff && AllShort(fragments[1..]))
  }

  /** What an act means: the fragments and the wrapping are gone. */
  function EventOf(act: Act): Event {
    match act
    case SendHeaders(id, _, fragments, last) => HeaderBlock(id, Join(fragments), last)
    case SendData(id, _, data, last) => DataPart(id, data, last)
    case SendOther(frame) => Answer(frame)
  }

  // ----- Frames back to events

  lemma {:induction false} JoinFront(first: seq<byte>, rest: seq<seq<byte>>)
    ensures Join([first] + rest) == first + Join(rest)
    decreases |rest|
  {
    if rest == [] {
      assert ([first] + rest)[..0] == [];
    } else {
      FrontConcat([first], rest);
      JoinFront(first, rest[..|rest| - 1]);
      Assoc(first, Join(rest[..|rest| - 1]), rest[|rest| - 1]);
    }
  }

  lemma ContinuationMeans(input: seq<byte>, position: nat, id: nat, fragment: seq<byte>, end: bool,
                          block: seq<byte>)
    requires |fragment| <= 0xff_ffff && id < 0x8000_0000
    requires Buffers.Holds(input, position, FrameBytes(Frame(CONTINUATION, if end then 4 else 0, id, fragment)))
    ensures var next := position + 9 + |fragment|;
            Continuations(input, position, id, block) ==
            if end then Ok(Read(block + fragment, next)) else Continuations(input, next, id, block + fragment)
  {
    FrameRoundTrip(input, position, Frame(CONTINUATION, if end then 4 else 0, id, fragment));
    FlagsRead(false, end, Wrapping(None, None));
  }

  /** The block that begins with `block` is `whole`, and ends at `end`. */
  predicate ContinuesTo(input: seq<byte>, position: nat, id: nat, block: seq<byte>, whole: seq<byte>, end: nat) {
    Continuations(input, position, id, block) == Ok(Read(whole, end))
  }

  lemma FirstContinuation(input: seq<byte>, position: nat, id: nat, first: seq<byte>, rest: seq<seq<byte>>,
                          block: seq<byte>, whole: seq<byte>, end: nat)
    returns (next: nat)
    requires |first| <= 0xff_ffff && id < 0x8000_0000
    requires Buffers.Holds(input, position, ContinuationBytes(id, [first] + rest))
    requires end == position + |ContinuationBytes(id, [first] + rest)|
    ensures Buffers.Holds(input, next, ContinuationBytes(id, rest))
    ensures end == next + |ContinuationBytes(id, rest)|
    ensures ContinuesTo(input, position, id, block, whole, end) <==>
            if rest == [] then whole == block + first else ContinuesTo(input, next, id, block + first, whole, end)
  {
    next := position + 9 + |first|;
    var frame := Frame(CONTINUATION, if rest == [] then 4 else 0, id, first);
    assert ([first] + rest)[1..] == rest;
    HoldsConcat(input, position, FrameBytes(frame), ContinuationBytes(id, rest));
    ContinuationMeans(input, position, id, first, rest == [], block);
  }

  lemma JoinBehind(block: seq<byte>, first: seq<byte>, rest: seq<seq<byte>>)
    ensures block + Join([first] + rest) == block + first + Join(rest)
    ensures rest == [] ==> block + Join([first] + rest) == block + first
  {
    JoinFront(first, rest);
    Assoc(block, first, Join(rest));
  }

  lemma {:induction false} ContinuationsRead(
      input: seq<byte>, position: nat, id: nat, fragments: seq<seq<byte>>, block: seq<byte>, whole: seq<byte>,
      end: nat)
    requires fragments != [] && AllShort(fragments) && id < 0x8000_0000
    requires Buffers.Holds(input, position, ContinuationBytes(id, fragments))
    requires whole == block + Join(fragments) && end == position + |ContinuationBytes(id, fragments)|
    ensures ContinuesTo(input, position, id, block, whole, end)
    decreases |fragments|
  {
    var first, rest := fragments[0], fragments[1..];
    HeadAndTail(fragments);
    var next := FirstContinuation(input, position, id, first, rest, block, whole, end);
    JoinBehind(block, first, rest);
    if rest != [] {
      ContinuationsRead(input, next, id, rest, block + first, whole, end);
    }
  }

  lemma HeadersFrameMeans(id: nat, wrapping: Wrapping, fragments: seq<seq<byte>>, last: bool)
    requires wrapping.Valid() && fragments != []
    ensures var frame := HeadersFrame(id, wrapping, fragments, last);
            && Has(frame, END_STREAM) == last && Has(frame, END_HEADERS) == (|fragments| == 1)
            && HeadersPayload(frame) == Ok(fragments[0])
  {
    FlagsRead(last, |fragments| == 1, wrapping);
    HeadersUnwrap(HeadersFrame(id, wrapping, fragments, last), wrapping, fragments[0]);
  }

  /** A header block read from its first frame and the continuations behind it. */
  lemma BlockEvent(input: seq<byte>, frame: Frame, next: nat, fragments: seq<seq<byte>>)
    requires fragments != [] && AllShort(fragments[1..]) && frame.streamId < 0x8000_0000
    requires HeadersPayload(frame) == Ok(fragments[0])
    requires Has(frame, END_HEADERS) == (|fragments| == 1)
    requires Buffers.Holds(input, next, ContinuationBytes(frame.streamId, fragments[1..]))
    ensures HeadersEvent(input, frame, next) ==
            Ok(Read(HeaderBlock(frame.streamId, Join(fragments), Has(frame, END_STREAM)),
                    next + |ContinuationBytes(frame.streamId, fragments[1..])|))
  {
    HeadAndTail(fragments);
    JoinFront(fragments[0], fragments[1..]);
    if |fragments| == 1 {
      assert fragments[0] + [] == fragments[0];
    } else {
      ContinuationsRead(input, next, frame.streamId, fragments[1..], fragments[0], Join(fragments),
                        next + |ContinuationBytes(frame.streamId, fragments[1..])|);
    }
  }

  /** The connection goes on with `event`, and behind it at `next`. */
  predicate EventAt(input: seq<byte>, position: nat, event: Event, next: nat) {
    NextEvent(input, position) == Ok(Some(Read(event, next)))
  }

  lemma {:induction false} HeadersNext(input: seq<byte>, position: nat, frame: Frame, next: nat,
                                       event: Event, after: nat)
    requires ParseFrame(input, position) == Ok(Some(Read(frame, next))) && frame.frameType == HEADERS
    requires HeadersEvent(input, frame, next) == Ok(Read(event, after))
    ensures EventAt(input, position, event, after)
  {}

  lemma {:induction false} FrameThenBlock(input: seq<byte>, position: nat, frame: Frame, fragments: seq<seq<byte>>,
                                          rest: seq<byte>, end: nat)
    requires frame.frameType == HEADERS && |frame.payload| <= 0xff_ffff && frame.streamId < 0x8000_0000
    requires fragments != [] && AllShort(fragments[1..])
    requires HeadersPayload(frame) == Ok(fragments[0])
    requires Has(frame, END_HEADERS) == (|fragments| == 1)
    requires rest == ContinuationBytes(frame.streamId, fragments[1..])
    requires Buffers.Holds(input, position, FrameBytes(frame) + rest)
    requires end == position + 9 + |frame.payload| + |rest|
    ensures EventAt(input, position, HeaderBlock(frame.streamId, Join(fragments), Has(frame, END_STREAM)), end)
  {
    var next := position + 9 + |frame.payload|;
    HoldsConcat(input, position, FrameBytes(frame), rest);
    FrameRoundTrip(input, position, frame);
    BlockEvent(input, frame, next, fragments);
    HeadersNext(input, position, frame, next,
                HeaderBlock(frame.streamId, Join(fragments), Has(frame, END_STREAM)), end);
  }

  lemma {:induction false} FrameOfHeaders(act: Act) returns (frame: Frame)
    requires act.SendHeaders? && Sendable(act)
    ensures frame.frameType == HEADERS && frame.streamId == act.id && |frame.payload| <= 0xff_ffff
    ensures HeadersPayload(frame) == Ok(act.fragments[0])
    ensures Has(frame, END_HEADERS) == (|act.fragments| == 1)
    ensures EventOf(act) == HeaderBlock(frame.streamId, Join(act.fragments), Has(frame, END_STREAM))
    ensures ActBytes(act) == FrameBytes(frame) + ContinuationBytes(frame.streamId, act.fragments[1..])
    ensures |ActBytes(act)| == 9 + |frame.payload| + |ContinuationBytes(frame.streamId, act.fragments[1..])|
  {
    frame := HeadersFrame(act.id, act.wrapping, act.fragments, act.last);
    HeadersFrameMeans(act.id, act.wrapping, act.fragments, act.last);
  }

  lemma {:induction false} HeadersAct(input: seq<byte>, position: nat, act: Act, end: nat)
    requires act.SendHeaders? && Sendable(act)
    requires Buffers.Holds(input, position, ActBytes(act)) && end == position + |ActBytes(act)|
    ensures EventAt(input, position, EventOf(act), end)
  {
    var frame := FrameOfHeaders(act);
    FrameThenBlock(input, position, frame, act.fragments, ContinuationBytes(frame.streamId, act.fragments[1..]),
                   end);
  }

  /** A frame that is no part of a header block. */
  lemma {:induction false} OneFrame(input: seq<byte>, position: nat, frame: Frame, event: Event, end: nat)
    requires |frame.payload| <= 0xff_ffff && frame.streamId < 0x8000_0000
    requires Buffers.Holds(input, position, FrameBytes(frame)) && end == position + 9 + |frame.payload|
    requires FrameEvent(input, frame, end) == Ok(Read(event, end))
    ensures EventAt(input, position, event, end)
  {
    FrameRoundTrip(input, position, frame);
  }

  lemma {:induction false} OtherAct(input: seq<byte>, position: nat, act: Act, end: nat)
    requires Sendable(act) && !act.SendHeaders?
    requires Buffers.Holds(input, position, ActBytes(act)) && end == position + |ActBytes(act)|
    ensures EventAt(input, position, EventOf(act), end)
  {
    match act
    case SendData(id, wrapping, data, last) =>
      var frame := Frame(DATA, FlagByte(last, false, wrapping), id, wrapping.Wrap(data));
      FlagsRead(last, false, wrapping);
      DataUnwrap(frame, wrapping, data);
      OneFrame(input, position, frame, EventOf(act), end);
    case SendOther(frame) =>
      OneFrame(input, position, frame, EventOf(act), end);
  }

  /** An act is read as its event, however it was put into frames. */
  lemma {:induction false} ActReads(input: seq<byte>, position: nat, act: Act, end: nat)
    requires Sendable(act) && Buffers.Holds(input, position, ActBytes(act)) && end == position + |ActBytes(act)|
    ensures EventAt(input, position, EventOf(act), end)
  {
    if act.SendHeaders? {
      HeadersAct(input, position, act, end);
    } else {
      OtherAct(input, position, act, end);
    }
  }

  // ----- A run of acts

  predicate AllSendable(acts: seq<Act>) {
    acts == [] || (Sendable(acts[0]) && AllSendable(acts[1..]))
  }

  function ActsBytes(acts: seq<Act>): seq<byte>
    requires AllSendable(acts)
  {
    if acts == [] then [] else ActBytes(acts[0]) + ActsBytes(acts[1..])
  }

  function EventsOf(acts: seq<Act>): seq<Event> {
    if acts == [] then [] else [EventOf(acts[0])] + EventsOf(acts[1..])
  }

  /** The connection loop on events. */
  ghost function ServeEvents(codec: Codec, handler: Handler, events: seq<Event>, state: State): Outcome
    requires |codec.staticTable| == 61
    decreases |events|
  {
    if events == [] || events[0] == Goodbye then Outcome(state, None)
    else
      var step := React(codec, handler, state, events[0]);
      if step.error.Some? then step else ServeEvents(codec, handler, events[1..], step.state)
  }

  /** The loop takes `event` and goes on at `next`. */
  ghost predicate ServesEvent(codec: Codec, handler: Handler, input: seq<byte>, position: nat, state: State,
                              event: Event, next: nat)
    requires |codec.staticTable| == 61 && position <= next
  {
    Serve(codec, handler, input, position, state) ==
    if event == Goodbye then Outcome(state, None)
    else
      var step := React(codec, handler, state, event);
      if step.error.Some? then step else Serve(codec, handler, input, next, step.state)
  }

  lemma {:induction false} ServeStep(codec: Codec, handler: Handler, input: seq<byte>, position: nat, state: State,
                                     event: Event, next: nat)
    requires |codec.staticTable| == 61 && EventAt(input, position, event, next)
    ensures position <= next && ServesEvent(codec, handler, input, position, state, event, next)
  {}

  lemma {:induction false} ServeAct(codec: Codec, handler: Handler, input: seq<byte>, position: nat, state: State,
                                    act: Act, next: nat)
    requires |codec.staticTable| == 61 && Sendable(act)
    requires Buffers.Holds(input, position, ActBytes(act)) && next == position + |ActBytes(act)|
    ensures ServesEvent(codec, handler, input, position, state, EventOf(act), next)
  {
    ActReads(input, position, act, next);
    ServeStep(codec, handler, input, position, state, EventOf(act), next);
  }

  lemma {:induction false} ServeReads(
      codec: Codec, handler: Handler, input: seq<byte>, position: nat, acts: seq<Act>, state: State)
    requires |codec.staticTable| == 61 && AllSendable(acts)
    requires Buffers.Holds(input, position, ActsBytes(acts))
    requires position + |ActsBytes(acts)| == |input|
    ensures Serve(codec, handler, input, position, state) ==
            ServeEvents(codec, handler, EventsOf(acts), state)
    decreases |acts|
  {
    if acts == [] {
      assert ParseFrame(input, position) == Ok(None);
    } else {
      var next := HoldsFirst(input, position, ActBytes(acts[0]), ActsBytes(acts[1..]));
      var event := EventOf(acts[0]);
      ServeAct(codec, handler, input, position, state, acts[0], next);
      assert EventsOf(acts)[1..] == EventsOf(acts[1..]);
      if event != Goodbye {
        var step := React(codec, handler, state, event);
        if step.error.None? {
          ServeReads(codec, handler, input, next, acts[1..], step.state);
        }
      }
    }
  }

  function Opening(): State {
    State(DynamicTable([], 4096), map[], FrameBytes(Frame(SETTINGS, 0, 0, [])), [])
  }

  lemma ConnectReads(codec: Codec, handler: Handler, acts: seq<Act>)
    requires |codec.staticTable| == 61 && AllSendable(acts)
    ensures Connect(codec, handler, PREFACE + ActsBytes(acts)) ==
            ServeEvents(codec, handler, EventsOf(acts), Opening())
  {
    var input := PREFACE + ActsBytes(acts);
    HoldsWhole(input);
    HoldsConcat(input, 0, PREFACE, ActsBytes(acts));
    OctetsAre(input, 0, PREFACE);
    ServeReads(codec, handler, input, 24, acts, Opening());
  }

  // ----- The requests dispatched

  /** The items of a run, up to a header block that does not decode. */
  ghost function ItemsOf(codec: Codec, table: DynamicTable, events: seq<Event>): seq<Item>
    requires |codec.staticTable| == 61
    decreases |events|
  {
    if events == [] then []
    else match events[0]
      case HeaderBlock(id, block, last) =>
        (match DecodeFrom(codec, block, 0, table)
         case Err(_) => []
         case Ok(d) => [Fields(id, d.fields, last)] + ItemsOf(codec, d.table, events[1..]))
      case DataPart(id, data, last) => [Chunk(id, data, last)] + ItemsOf(codec, table, events[1..])
      case Reply(_) => ItemsOf(codec, table, events[1..])
      case Ignored => ItemsOf(codec, table, events[1..])
      case Goodbye => []
  }

  /** `outcome` has the requests that were there and those the items complete, or fewer
      after a failure of the handler. */
  ghost predicate Answers(outcome: Outcome, requests: seq<Message>, streams: Streams, items: seq<Item>) {
    var all := requests + Dispatched(streams, items);
    && outcome.state.requests <= all
    && (outcome.error != Some(HandlerFailed) ==> outcome.state.requests == all)
  }

  lemma AnswersOneItem(handler: Handler, state: State, item: Item, rest: seq<Item>, outcome: Outcome)
    requires var step := Dispatch(handler, state, item);
             if step.error.Some? then outcome == step
             else Answers(outcome, step.state.requests, step.state.streams, rest)
    ensures Answers(outcome, state.requests, state.streams, [item] + rest)
  {
    assert ([item] + rest)[1..] == rest;
    var (next, requests) := Take(state.streams, item);
    assert state.requests + (requests + Dispatched(next, rest)) ==
           state.requests + requests + Dispatched(next, rest);
    if requests == [] {
      assert state.requests + requests == state.requests;
    }
  }

  lemma NoItems(outcome: Outcome, state: State)
    requires outcome.state.requests == state.requests
    ensures Answers(outcome, state.requests, state.streams, [])
  {
    assert state.requests + [] == state.requests;
  }

  /** The requests of a run are those its items complete, in order; a handler that fails
      cuts the list short behind its own request. */
  lemma {:induction false} RequestsAreDispatched(codec: Codec, handler: Handler, events: seq<Event>, state: State)
    requires |codec.staticTable| == 61
    ensures Answers(ServeEvents(codec, handler, events, state), state.requests, state.streams,
                    ItemsOf(codec, state.table, events))
    decreases |events|, 0
  {
    var outcome := ServeEvents(codec, handler, events, state);
    if events == [] {
      NoItems(outcome, state);
    } else {
      match events[0]
      case HeaderBlock(id, block, last) =>
        var decoded := DecodeFrom(codec, block, 0, state.table);
        if decoded.Err? {
          NoItems(outcome, state);
        } else {
          ItemAnswers(codec, handler, events[1..], state.(table := decoded.value.table),
                      Fields(id, decoded.value.fields, last));
        }
      case DataPart(id, data, last) =>
        ItemAnswers(codec, handler, events[1..], state, Chunk(id, data, last));
      case Reply(frame) =>
        RequestsAreDispatched(codec, handler, events[1..],
                              state.(output := state.output + FrameBytes(frame)));
      case Ignored =>
        RequestsAreDispatched(codec, handler, events[1..], state);
      case Goodbye =>
        NoItems(outcome, state);
    }
  }

  lemma {:induction false} ItemAnswers(
      codec: Codec, handler: Handler, events: seq<Event>, state: State, item: Item)
    requires |codec.staticTable| == 61
    ensures var step := Dispatch(handler, state, item);
            var outcome := if step.error.Some? then step else ServeEvents(codec, handler, events, step.state);
            Answers(outcome, state.requests, state.streams, [item] + ItemsOf(codec, state.table, events))
    decreases |events|, 1
  {
    var step := Dispatch(handler, state, item);
    var rest := ItemsOf(codec, state.table, events);
    if step.error.Some? {
      AnswersOneItem(handler, state, item, rest, step);
    } else {
      RequestsAreDispatched(codec, handler, events, step.state);
      AnswersOneItem(handler, state, item, rest, ServeEvents(codec, handler, events, step.state));
    }
  }
}
