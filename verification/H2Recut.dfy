/** Connections on which the same is sent in other frames. */
module H2Recut {
  import opened Prelude
  import opened Sequences
  import opened HpackDecoding
  import opened H2Streams
  import opened H2Connection
  import opened H2Wire

  /** Data behind which more data of its stream comes. */
  predicate Meets(first: Event, second: Event) {
    first.DataPart? && second.DataPart? && !first.last && first.id == second.id
  }

  function Together(first: Event, second: Event): (both: Event)
    requires Meets(first, second)
  {
    DataPart(first.id, first.data + second.data, second.last)
  }

  /** The events, with adjoining data of a stream put together. */
  function Merged(events: seq<Event>): seq<Event>
    decreases |events|
  {
    if |events| < 2 then events
    else if Meets(events[0], events[1]) then Merged([Together(events[0], events[1])] + events[2..])
    else [events[0]] + Merged(events[1..])
  }

  // ----- Merging changes nothing

  lemma {:induction false} TogetherReacts(codec: Codec, handler: Handler, state: State, first: Event, second: Event)
    requires |codec.staticTable| == 61 && Meets(first, second)
    ensures React(codec, handler, state, first).error.None?
    ensures React(codec, handler, React(codec, handler, state, first).state, second) ==
            React(codec, handler, state, Together(first, second))
  {
    TwoChunks(state.streams, first.id, first.data, second.data, second.last);
  }

  lemma {:induction false} ServeFirst(codec: Codec, handler: Handler, first: Event, rest: seq<Event>, state: State)
    requires |codec.staticTable| == 61 && first != Goodbye
    ensures ServeEvents(codec, handler, [first] + rest, state) ==
            var step := React(codec, handler, state, first);
            if step.error.Some? then step else ServeEvents(codec, handler, rest, step.state)
  {
    HeadOf(first, rest);
  }

  lemma HeadOf<T>(first: T, rest: seq<T>)
    ensures ([first] + rest)[0] == first && ([first] + rest)[1..] == rest
  {}

  lemma FirstTwo<T>(s: seq<T>)
    requires |s| >= 2
    ensures s == [s[0]] + ([s[1]] + s[2..])
  {}

  lemma {:induction false} MergedServes(codec: Codec, handler: Handler, events: seq<Event>, state: State)
    requires |codec.staticTable| == 61
    ensures ServeEvents(codec, handler, Merged(events), state) == ServeEvents(codec, handler, events, state)
    decreases |events|
  {
    if |events| >= 2 {
      var first, second, rest := events[0], events[1], events[2..];
      if Meets(first, second) {
        var both := Together(first, second);
        MergedServes(codec, handler, [both] + rest, state);
        ServeFirst(codec, handler, both, rest, state);
        FirstTwo(events);
        ServeFirst(codec, handler, first, [second] + rest, state);
        ServeFirst(codec, handler, second, rest, React(codec, handler, state, first).state);
        TogetherReacts(codec, handler, state, first, second);
      } else if first != Goodbye {
        ServeFirst(codec, handler, first, Merged(events[1..]), state);
        var step := React(codec, handler, state, first);
        if step.error.None? {
          MergedServes(codec, handler, events[1..], step.state);
        }
      }
    }
  }

  /** Header blocks may be split over CONTINUATION frames, payloads padded and data cut into
      frames at will: two peers whose acts mean the same get the same answers, and the same
      requests are dispatched, whatever the error that ends the connection. */
  lemma LayoutIsIrrelevant(codec: Codec, handler: Handler, acts: seq<Act>, others: seq<Act>)
    requires |codec.staticTable| == 61 && AllSendable(acts) && AllSendable(others)
    requires Merged(EventsOf(acts)) == Merged(EventsOf(others))
    ensures Connect(codec, handler, PREFACE + ActsBytes(acts)) ==
            Connect(codec, handler, PREFACE + ActsBytes(others))
  {
    ConnectReads(codec, handler, acts);
    ConnectReads(codec, handler, others);
    MergedServes(codec, handler, EventsOf(acts), Opening());
    MergedServes(codec, handler, EventsOf(others), Opening());
  }

  // ----- Every cut merges

  lemma {:induction false} MergedPair(first: Event, second: Event, rest: seq<Event>)
    ensures Merged([first] + ([second] + rest)) ==
            if Meets(first, second) then Merged([Together(first, second)] + rest)
            else [first] + Merged([second] + rest)
  {
    var all := [first] + ([second] + rest);
    assert all[0] == first && all[1] == second && all[2..] == rest && all[1..] == [second] + rest;
  }

  lemma TogetherAssoc(a: Event, b: Event, c: Event)
    requires Meets(a, b) && Meets(b, c)
    ensures Meets(Together(a, b), c) && Meets(a, Together(b, c))
    ensures Together(Together(a, b), c) == Together(a, Together(b, c))
  {
    Assoc(a.data, b.data, c.data);
  }

  /** Merging the rest first makes no difference. */
  lemma {:induction false} MergedRest(first: Event, rest: seq<Event>)
    ensures Merged([first] + rest) == Merged([first] + Merged(rest))
    decreases |rest|
  {
    if |rest| >= 2 {
      var x, y, more := rest[0], rest[1], rest[2..];
      FirstTwo(rest);
      MergedPair(x, y, more);
      MergedPair(first, x, [y] + more);
      if Meets(x, y) {
        MergedRest(first, [Together(x, y)] + more);
        MergedPair(first, Together(x, y), more);
        if Meets(first, x) {
          MergedPair(Together(first, x), y, more);
          TogetherAssoc(first, x, y);
        }
      } else {
        MergedPair(first, x, Merged([y] + more));
        MergedRest(if Meets(first, x) then Together(first, x) else x, [y] + more);
      }
    }
  }

  lemma {:induction false} MergedBehind(before: seq<Event>, rest: seq<Event>, other: seq<Event>)
    requires Merged(rest) == Merged(other)
    ensures Merged(before + rest) == Merged(before + other)
    decreases |before|
  {
    if before == [] {
      Nothing(rest);
      Nothing(other);
    } else {
      var first, more := before[0], before[1..];
      HeadAndTail(before);
      Assoc([first], more, rest);
      Assoc([first], more, other);
      MergedBehind(more, rest, other);
      MergedRest(first, more + rest);
      MergedRest(first, more + other);
    }
  }

  /** Data in pieces; END_STREAM, if at all, on the last of them. */
  function Parts(id: nat, pieces: seq<seq<byte>>, last: bool): seq<Event>
    requires pieces != []
    decreases |pieces|
  {
    if |pieces| == 1 then [DataPart(id, pieces[0], last)]
    else [DataPart(id, pieces[0], false)] + Parts(id, pieces[1..], last)
  }

  lemma {:induction false} PartsMerge(id: nat, pieces: seq<seq<byte>>, last: bool, rest: seq<Event>)
    requires pieces != []
    ensures Merged(Parts(id, pieces, last) + rest) == Merged([DataPart(id, Join(pieces), last)] + rest)
    decreases |pieces|
  {
    var first := DataPart(id, pieces[0], false);
    if |pieces| == 1 {
      JoinOne(pieces);
    } else {
      PartsMerge(id, pieces[1..], last, rest);
      var whole := DataPart(id, Join(pieces[1..]), last);
      Assoc([first], Parts(id, pieces[1..], last), rest);
      MergedBehind([first], Parts(id, pieces[1..], last) + rest, [whole] + rest);
      MergedPair(first, whole, rest);
      HeadAndTail(pieces);
      JoinFront(pieces[0], pieces[1..]);
    }
  }

  lemma JoinOne(pieces: seq<seq<byte>>)
    requires |pieces| == 1
    ensures Join(pieces) == pieces[0]
  {
    assert pieces[..0] == [];
  }

  /** Wherever data is cut, into however many pieces, it merges to the whole. */
  lemma RecutMerges(before: seq<Event>, id: nat, pieces: seq<seq<byte>>, others: seq<seq<byte>>, last: bool,
                    after: seq<Event>)
    requires pieces != [] && others != [] && Join(pieces) == Join(others)
    ensures Merged(before + (Parts(id, pieces, last) + after)) == Merged(before + (Parts(id, others, last) + after))
  {
    PartsMerge(id, pieces, last, after);
    PartsMerge(id, others, last, after);
    MergedBehind(before, Parts(id, pieces, last) + after, Parts(id, others, last) + after);
  }
}
