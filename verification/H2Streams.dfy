/** Assembling requests from the items of interleaved HTTP/2 streams. */
module H2Streams {
  import opened Prelude
  import opened Text
  import opened Sequences

  /** Decoded header fields or data for one stream; `last` is END_STREAM. */
  datatype Item =
    | Fields(id: nat, fields: seq<Header>, last: bool)
    | Chunk(id: nat, data: seq<byte>, last: bool)

  datatype Stream = Stream(fields: seq<Header>, body: seq<byte>)

  /** What a stream carried up to END_STREAM: a request, or a response on its way back. */
  datatype Message = Message(id: nat, fields: seq<Header>, body: seq<byte>)

  /** The stream map of a connection; a stream without an entry is empty. */
  type Streams = map<nat, Stream>

  const EMPTY := Stream([], [])

  function Get(streams: Streams, id: nat): Stream {
    if id in streams then streams[id] else EMPTY
  }

  function Extend(stream: Stream, item: Item): Stream {
    match item
    case Fields(_, fields, _) => stream.(fields := fields)
    case Chunk(_, data, _) => stream.(body := stream.body + data)
  }

  /** One frame: the stream grows, and leaves the map with its request at END_STREAM. */
  function Take(streams: Streams, item: Item): (Streams, seq<Message>) {
    var stream := Extend(Get(streams, item.id), item);
    if item.last then (streams - {item.id}, [Message(item.id, stream.fields, stream.body)])
    else (streams[item.id := stream], [])
  }

  function After(streams: Streams, items: seq<Item>): Streams
    decreases |items|
  {
    if items == [] then streams else After(Take(streams, items[0]).0, items[1..])
  }

  /** The requests dispatched, in order. */
  function Dispatched(streams: Streams, items: seq<Item>): seq<Message>
    decreases |items|
  {
    if items == [] then []
    else
      var (next, requests) := Take(streams, items[0]);
      requests + Dispatched(next, items[1..])
  }

  // ----- What each stream should see

  function OfStream(items: seq<Item>, id: nat): seq<Item> {
    if items == [] then []
    else (if items[0].id == id then [items[0]] else []) + OfStream(items[1..], id)
  }

  function MessagesOf(requests: seq<Message>, id: nat): seq<Message> {
    if requests == [] then []
    else (if requests[0].id == id then [requests[0]] else []) + MessagesOf(requests[1..], id)
  }

  /** The position of the first END_STREAM. */
  function FirstLast(items: seq<Item>): (n: nat)
    ensures n <= |items|
    ensures n < |items| ==> items[n].last
  {
    if items == [] || items[0].last then 0 else 1 + FirstLast(items[1..])
  }

  /** The data of the items, in order. */
  function Body(items: seq<Item>): seq<byte> {
    if items == [] then []
    else
      var item := items[|items| - 1];
      Body(items[..|items| - 1]) + if item.Chunk? then item.data else []
  }

  /** The last header fields, which replace any before them. */
  function LastFields(items: seq<Item>): seq<Header> {
    if items == [] then []
    else
      var item := items[|items| - 1];
      if item.Fields? then item.fields else LastFields(items[..|items| - 1])
  }

  /** A stream's items cut behind each END_STREAM: one request for each complete part. */
  function Messages(id: nat, items: seq<Item>): seq<Message>
    decreases |items|
  {
    var n := FirstLast(items);
    if n == |items| then []
    else [Message(id, LastFields(items[..n + 1]), Body(items[..n + 1]))] + Messages(id, items[n + 1..])
  }

  predicate Open(items: seq<Item>) {
    forall i | 0 <= i < |items| :: !items[i].last
  }

  /** The map holds for `id` what the items seen since its last request make. */
  predicate Holds(streams: Streams, id: nat, seen: seq<Item>) {
    Get(streams, id) == Stream(LastFields(seen), Body(seen))
  }

  lemma ExtendSeen(seen: seq<Item>, item: Item)
    ensures Extend(Stream(LastFields(seen), Body(seen)), item) ==
            Stream(LastFields(seen + [item]), Body(seen + [item]))
  {
    assert (seen + [item])[..|seen|] == seen;
    assert Body(seen) + [] == Body(seen);
  }

  lemma {:induction false} FirstLastAfterOpen(seen: seq<Item>, item: Item, rest: seq<Item>)
    requires Open(seen)
    ensures item.last ==> FirstLast(seen + [item] + rest) == |seen|
    ensures rest == [] && !item.last ==> FirstLast(seen + [item] + rest) == |seen| + 1
    decreases |seen|
  {
    var all := seen + [item] + rest;
    if seen != [] {
      assert all[1..] == seen[1..] + [item] + rest;
      FirstLastAfterOpen(seen[1..], item, rest);
    } else if rest == [] {
      assert all[1..] == [];
    }
  }

  lemma {:induction false} FirstLastOfOpen(items: seq<Item>)
    requires Open(items)
    ensures FirstLast(items) == |items|
  {
    if items != [] {
      FirstLastOfOpen(items[1..]);
    }
  }

  lemma MessageEnds(id: nat, seen: seq<Item>, item: Item, rest: seq<Item>)
    requires Open(seen) && item.last
    ensures Messages(id, seen + [item] + rest) ==
            [Message(id, LastFields(seen + [item]), Body(seen + [item]))] + Messages(id, rest)
  {
    var all := seen + [item] + rest;
    FirstLastAfterOpen(seen, item, rest);
    assert all[..|seen| + 1] == seen + [item];
    assert all[|seen| + 1..] == rest;
  }

  lemma {:induction false} MessagesOfConcat(a: seq<Message>, b: seq<Message>, id: nat)
    ensures MessagesOf(a + b, id) == MessagesOf(a, id) + MessagesOf(b, id)
  {
    if a == [] {
      Nothing(b);
      Nothing(MessagesOf(b, id));
    } else {
      DropConcat(a, b);
      MessagesOfConcat(a[1..], b, id);
      Assoc(if a[0].id == id then [a[0]] else [], MessagesOf(a[1..], id), MessagesOf(b, id));
    }
  }

  lemma {:induction false} OtherStream(streams: Streams, item: Item, id: nat, seen: seq<Item>)
    requires item.id != id && Holds(streams, id, seen)
    ensures Holds(Take(streams, item).0, id, seen)
    ensures MessagesOf(Take(streams, item).1, id) == []
  {}

  lemma {:induction false} OwnStream(streams: Streams, item: Item, seen: seq<Item>)
    requires Holds(streams, item.id, seen)
    ensures Holds(Take(streams, item).0, item.id, if item.last then [] else seen + [item])
    ensures MessagesOf(Take(streams, item).1, item.id) ==
            if item.last then [Message(item.id, LastFields(seen + [item]), Body(seen + [item]))] else []
  {
    ExtendSeen(seen, item);
  }

  /** Each stream's requests depend on its own items alone: header fields and data of a
      request are those of the stream since its last request, whatever is in between. */
  lemma {:induction false} StreamsAreSeparate(streams: Streams, items: seq<Item>, id: nat, seen: seq<Item>)
    requires Open(seen) && Holds(streams, id, seen)
    ensures MessagesOf(Dispatched(streams, items), id) == Messages(id, seen + OfStream(items, id))
    decreases |items|
  {
    if items == [] {
      assert seen + [] == seen;
      FirstLastOfOpen(seen);
    } else {
      var item, rest := items[0], OfStream(items[1..], id);
      var (next, requests) := Take(streams, item);
      MessagesOfConcat(requests, Dispatched(next, items[1..]), id);
      if item.id != id {
        OtherStream(streams, item, id, seen);
        StreamsAreSeparate(next, items[1..], id, seen);
        assert OfStream(items, id) == rest;
      } else {
        OwnStream(streams, item, seen);
        assert seen + ([item] + rest) == seen + [item] + rest;
        if item.last {
          MessageEnds(id, seen, item, rest);
          StreamsAreSeparate(next, items[1..], id, []);
          assert [] + rest == rest;
        } else {
          StreamsAreSeparate(next, items[1..], id, seen + [item]);
        }
      }
    }
  }

  // ----- Cutting data differently

  lemma {:induction false} DispatchedConcat(streams: Streams, a: seq<Item>, b: seq<Item>)
    ensures After(streams, a + b) == After(After(streams, a), b)
    ensures Dispatched(streams, a + b) == Dispatched(streams, a) + Dispatched(After(streams, a), b)
    decreases |a|
  {
    if a == [] {
      assert a + b == b;
    } else {
      assert (a + b)[1..] == a[1..] + b;
      DispatchedConcat(Take(streams, a[0]).0, a[1..], b);
    }
  }

  function Join(pieces: seq<seq<byte>>): seq<byte> {
    if pieces == [] then [] else Join(pieces[..|pieces| - 1]) + pieces[|pieces| - 1]
  }

  /** Data sent in pieces; END_STREAM, if at all, on the last of them. */
  function Cut(id: nat, pieces: seq<seq<byte>>, last: bool): seq<Item>
    requires pieces != []
  {
    if |pieces| == 1 then [Chunk(id, pieces[0], last)]
    else Cut(id, pieces[..|pieces| - 1], false) + [Chunk(id, pieces[|pieces| - 1], last)]
  }

  lemma OneItem(streams: Streams, item: Item)
    ensures After(streams, [item]) == Take(streams, item).0
    ensures Dispatched(streams, [item]) == Take(streams, item).1
  {
    assert [item][1..] == [];
  }

  lemma TwoChunks(streams: Streams, id: nat, a: seq<byte>, b: seq<byte>, last: bool)
    ensures Take(Take(streams, Chunk(id, a, false)).0, Chunk(id, b, last)) ==
            Take(streams, Chunk(id, a + b, last))
  {
    var stream := Get(streams, id);
    assert stream.body + a + b == stream.body + (a + b);
    var first := stream.(body := stream.body + a);
    var second := stream.(body := stream.body + (a + b));
    assert streams[id := first] - {id} == streams - {id};
    assert streams[id := first][id := second] == streams[id := second];
  }

  /** Pieces leave what the whole would have left. */
  lemma {:induction false} CutIsWhole(streams: Streams, id: nat, pieces: seq<seq<byte>>, last: bool)
    requires pieces != []
    ensures After(streams, Cut(id, pieces, last)) == Take(streams, Chunk(id, Join(pieces), last)).0
    ensures Dispatched(streams, Cut(id, pieces, last)) == Take(streams, Chunk(id, Join(pieces), last)).1
  {
    var n := |pieces| - 1;
    var end := Chunk(id, pieces[n], last);
    if n == 0 {
      assert Join(pieces) == pieces[0];
      OneItem(streams, end);
    } else {
      CutIsWhole(streams, id, pieces[..n], false);
      DispatchedConcat(streams, Cut(id, pieces[..n], false), [end]);
      OneItem(After(streams, Cut(id, pieces[..n], false)), end);
      TwoChunks(streams, id, Join(pieces[..n]), pieces[n], last);
    }
  }

  /** Cutting a DATA payload into more frames changes nothing that is dispatched. */
  lemma RecutData(streams: Streams, before: seq<Item>, id: nat, pieces: seq<seq<byte>>, last: bool,
                  after: seq<Item>)
    requires pieces != []
    ensures Dispatched(streams, before + Cut(id, pieces, last) + after) ==
            Dispatched(streams, before + [Chunk(id, Join(pieces), last)] + after)
  {
    var cut, whole := Cut(id, pieces, last), [Chunk(id, Join(pieces), last)];
    var middle := After(streams, before);
    DispatchedConcat(streams, before + cut, after);
    DispatchedConcat(streams, before + whole, after);
    DispatchedConcat(streams, before, cut);
    DispatchedConcat(streams, before, whole);
    CutIsWhole(middle, id, pieces, last);
    OneItem(middle, whole[0]);
  }
}
