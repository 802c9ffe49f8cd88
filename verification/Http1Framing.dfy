/** Which body a request has: what its fields say about it, and what is read of it. */
module Http1Framing {
  import opened Prelude
  import opened Text
  import opened Sequences
  import opened Buffers
  import opened ChunkedBody
  import opened Http1
  import opened Http1Clean
  import opened Http1Proxy
  import opened Http1Reread
  import opened Http1Relay

  /** Some Transfer-Encoding has "chunked" in it, in any letter case. */
  predicate AnyChunked(values: seq<Str>) {
    exists i | 0 <= i < |values| :: Contains(Lower(values[i]), Ascii("chunked"))
  }

  /** The last Content-Length counts, and none is a length of 0. */
  predicate Declares(values: seq<Str>, n: nat) {
    if values == [] then n == 0 else SaysDecimal(values[|values| - 1], n)
  }

  lemma {:induction false} LengthIsLast(headers: seq<Header>)
    ensures var values := Values(headers, "content-length");
            LengthOf(headers) == if values == [] then None else Some(ParseLength(values[|values| - 1]))
  {
    if headers != [] {
      LengthIsLast(headers[..|headers| - 1]);
    }
  }

  lemma {:induction false} AnyChunkedLast(values: seq<Str>, value: Str)
    ensures AnyChunked(values + [value]) <==> AnyChunked(values) || Contains(Lower(value), Ascii("chunked"))
  {
    var all := values + [value];
    if AnyChunked(values) {
      var i :| 0 <= i < |values| && Contains(Lower(values[i]), Ascii("chunked"));
      assert all[i] == values[i];
    }
    assert all[|values|] == value;
  }

  lemma {:induction false} ChunkedIsSaid(headers: seq<Header>)
    ensures ChunkedOf(headers) <==> AnyChunked(Values(headers, "transfer-encoding"))
  {
    if headers != [] {
      var front, last := headers[..|headers| - 1], headers[|headers| - 1];
      ChunkedIsSaid(front);
      AnyChunkedLast(Values(front, "transfer-encoding"), last.value);
      Nothing(Values(front, "transfer-encoding"));
    }
  }

  lemma LengthDeclared(headers: seq<Header>, n: nat)
    requires Declares(Values(headers, "content-length"), n) && n < USIZE
    ensures DeclaredLength(headers) == n
  {
    LengthIsLast(headers);
  }

  /** `input` begins with the head and goes on behind it. */
  lemma Behind(bytes: seq<byte>, more: seq<byte>)
    ensures Holds(bytes + more, 0, bytes) && Rest(bytes + more, |bytes|) == more
  {
    HoldsWhole(bytes + more);
    HoldsConcat(bytes + more, 0, bytes, more);
    OctetsAre(bytes + more, |bytes|, more);
  }

  /** A reader finds the request with that head and that body, or the body's error. */
  predicate DecidedBy(input: seq<byte>, max: nat, head: Head, body: Result<seq<byte>>) {
    Request(input, max) == match body
    case Err(e) => Err(e)
    case Ok(body) => Ok(Whole(head, body))
  }

  lemma {:induction false} BodyDecides(input: seq<byte>, end: nat, start: nat, head: Head, max: nat,
                                       body: Result<seq<byte>>)
    requires HeaderEnd(input, 0) == Some(end) && ParseHead(Octets(input, 0, end)) == Ok(head)
    requires start == end + 4 && BodyOf(input, start, head.headers, max) == body
    ensures DecidedBy(input, max, head, body)
  {}

  lemma {:induction false} HeadDecides(input: seq<byte>, head: Head, bytes: seq<byte>, max: nat,
                                       body: Result<seq<byte>>)
    requires CleanHead(head) && bytes == HeadBytes(head) && Holds(input, 0, bytes)
    requires |bytes| <= |input| && BodyOf(input, |bytes|, head.headers, max) == body
    ensures DecidedBy(input, max, head, body)
  {
    var end := HeadEnds(input, head, bytes);
    BodyDecides(input, end, |bytes|, head, max, body);
  }

  lemma {:induction false} HeadEnds(input: seq<byte>, head: Head, bytes: seq<byte>) returns (end: nat)
    requires CleanHead(head) && bytes == HeadBytes(head) && Holds(input, 0, bytes)
    ensures |bytes| == end + 4 && HeaderEnd(input, 0) == Some(end) && ParseHead(Octets(input, 0, end)) == Ok(head)
  {
    HeadReadsBack(input, head, bytes);
    end := |bytes| - 4;
  }

  lemma SizedBody(input: seq<byte>, start: nat, headers: seq<Header>, body: seq<byte>, max: nat)
    requires !AnyChunked(Values(headers, "transfer-encoding")) && |body| < USIZE
    requires Declares(Values(headers, "content-length"), |body|) && Holds(input, start, body)
    ensures BodyOf(input, start, headers, max) == if |body| <= max then Ok(body) else Err(BodyTooLarge)
  {
    ChunkedIsSaid(headers);
    LengthDeclared(headers, |body|);
    OctetsAre(input, start, body);
  }

  /** A request with its length in its last Content-Length is read with exactly so much of a body, or
      refused when that exceeds the limit. */
  lemma SizedIsRead(head: Head, body: seq<byte>, rest: seq<byte>, max: nat)
    requires CleanHead(head) && |body| < USIZE && !AnyChunked(Values(head.headers, "transfer-encoding"))
    requires Declares(Values(head.headers, "content-length"), |body|)
    ensures DecidedBy(HeadBytes(head) + body + rest, max, head, if |body| <= max then Ok(body) else Err(BodyTooLarge))
  {
    var bytes := HeadBytes(head);
    ConcatHolds(bytes, body, rest);
    SizedBody(bytes + body + rest, |bytes|, head.headers, body, max);
    HeadDecides(bytes + body + rest, head, bytes, max, if |body| <= max then Ok(body) else Err(BodyTooLarge));
  }

  /** One that says chunked is read with the data of the chunks, whatever lengths it says, or refused
      when they exceed the limit. */
  lemma ChunkedIsRead(head: Head, e: Encoding, rest: seq<byte>, max: nat)
    requires CleanHead(head) && AnyChunked(Values(head.headers, "transfer-encoding")) && WellFormed(CHUNK_SIZE, e)
    ensures DecidedBy(HeadBytes(head) + (Encoded(e) + rest), max, head,
                      if Saturate(|Data(e.chunks)|) <= max then Ok(Data(e.chunks)) else Err(BodyTooLarge))
  {
    var bytes := HeadBytes(head);
    Behind(bytes, Encoded(e) + rest);
    ChunkedIsSaid(head.headers);
    ChunkedRoundTrip(CHUNK_SIZE, e, rest, max);
    HeadDecides(bytes + (Encoded(e) + rest), head, bytes, max,
                if Saturate(|Data(e.chunks)|) <= max then Ok(Data(e.chunks)) else Err(BodyTooLarge));
  }
}
