/** A connection: the octets the peer will send, cut into reads of any size, and those written. */
module Network {
  import opened Prelude
  import opened Buffers

  class TcpStream {
    const input: seq<byte>
    var position: nat
    var output: seq<byte>

    ghost predicate Valid()
      reads this
    {
      position <= |input|
    }

    constructor (input: seq<byte>)
      ensures Valid() && this.input == input && position == 0 && output == []
    {
      this.input := input;
      position, output := 0, [];
    }

    /** One read: some of what is left, and nothing only at the end of the stream. */
    method Read(limit: nat) returns (chunk: seq<byte>)
      requires Valid() && limit > 0
      modifies this`position
      ensures Valid() && |chunk| <= limit && position == old(position) + |chunk|
      ensures chunk == Octets(input, old(position), |chunk|)
      ensures chunk == [] <==> old(position) == |input|
    {
      if position == |input| {
        return [];
      }
      var n: nat :| 0 < n <= limit && position + n <= |input|;
      chunk := Octets(input, position, n);
      position := position + n;
    }

    /** read_exact, over as many reads as it takes; None at a premature end. */
    method ReadExact(n: nat) returns (r: Option<seq<byte>>)
      requires Valid()
      modifies this`position
      ensures Valid()
      ensures if old(position) + n <= |input|
              then r == Some(Octets(input, old(position), n)) && position == old(position) + n
              else r == None && position == |input|
    {
      var buffer: seq<byte> := [];
      while |buffer| < n
        invariant Valid() && |buffer| <= n && position == old(position) + |buffer|
        invariant buffer == Octets(input, old(position), |buffer|)
        decreases n - |buffer|
      {
        var chunk := Read(n - |buffer|);
        if chunk == [] {
          return None;
        }
        OctetsJoin(input, old(position), |buffer|, |chunk|);
        buffer := buffer + chunk;
      }
      return Some(buffer);
    }

    method WriteAll(bytes: seq<byte>)
      modifies this`output
      ensures output == old(output) + bytes
    {
      output := output + bytes;
    }
  }

  /** What is buffered and what the connection still holds make up `whole`. */
  ghost predicate Feeds(stream: TcpStream, buffer: seq<byte>, whole: seq<byte>)
    reads stream
  {
    && stream.Valid()
    && whole == buffer + Octets(stream.input, stream.position, |stream.input| - stream.position)
  }

  /** One read appended to a buffer, which stays the same only at the end of the stream. */
  method Refill(stream: TcpStream, buffer: seq<byte>, limit: nat, ghost whole: seq<byte>)
    returns (filled: seq<byte>)
    requires Feeds(stream, buffer, whole) && limit > 0
    modifies stream`position
    ensures Feeds(stream, filled, whole) && buffer <= filled && |filled| <= |buffer| + limit
    ensures stream.position - old(stream.position) == |filled| - |buffer|
    ensures if buffer == whole then filled == buffer else |buffer| < |filled|
  {
    var chunk := stream.Read(limit);
    OctetsJoin(stream.input, stream.position - |chunk|, |chunk|, |stream.input| - stream.position);
    ghost var rest := Octets(stream.input, stream.position, |stream.input| - stream.position);
    assert buffer + (chunk + rest) == buffer + chunk + rest;
    filled := buffer + chunk;
  }
}
