/** send_h2_response, and what the client reads back. */
module H2Response {
  import opened Prelude
  import opened Text
  import opened HpackDecoding
  import opened HpackEncoder
  import opened Network
  import opened H2Frame
  import opened H2Wire

  const MAX_FRAME_SIZE: nat := 16384

  datatype Response = Response(status: nat, contentType: Str, headers: seq<Header>, body: seq<byte>)

  /** Its strings are strings. */
  predicate Proper(response: Response) {
    Utf8(response.contentType) && AllValid(response.headers)
  }

  /** The fields that belong to an HTTP/1 connection, and the length, which is written afresh. */
  predicate Dropped(name: Str) {
    || SameIgnoringCase(name, Ascii("connection"))
    || SameIgnoringCase(name, Ascii("transfer-encoding"))
    || SameIgnoringCase(name, Ascii("keep-alive"))
    || SameIgnoringCase(name, Ascii("proxy-connection"))
    || SameIgnoringCase(name, Ascii("upgrade"))
    || SameIgnoringCase(name, Ascii("content-length"))
  }

  function Kept(headers: seq<Header>): seq<Header> {
    if headers == [] then []
    else (if Dropped(headers[0].name) then [] else [LowerName(headers[0])]) + Kept(headers[1..])
  }

  function ResponseFields(response: Response): seq<Header> {
    [Header(Ascii(":status"), Decimal(response.status)),
     Header(Ascii("content-type"), response.contentType),
     Header(Ascii("content-length"), Decimal(|response.body|))] + Kept(response.headers)
  }

  // ----- Writing

  const PLAIN := Wrapping(None, None)

  function DataBytes(id: nat, body: seq<byte>): seq<byte>
    decreases |body|
  {
    if |body| <= MAX_FRAME_SIZE then FrameBytes(Frame(DATA, 1, id, body))
    else FrameBytes(Frame(DATA, 0, id, body[..MAX_FRAME_SIZE])) + DataBytes(id, body[MAX_FRAME_SIZE..])
  }

  function ResponseBytes(codec: Codec, id: nat, response: Response): seq<byte>
    requires |codec.staticTable| == 61
  {
    FrameBytes(Frame(HEADERS, if response.body == [] then 5 else 4, id,
                     HeadersBytes(codec, ResponseFields(response)))) +
    if response.body == [] then [] else DataBytes(id, response.body)
  }

  /** The header block fits a frame. */
  predicate Sends(codec: Codec, response: Response)
    requires |codec.staticTable| == 61
  {
    |HeadersBytes(codec, ResponseFields(response))| <= 0xff_ffff
  }

  method CollectFields(response: Response) returns (fields: seq<Header>)
    ensures fields == ResponseFields(response)
  {
    fields := [Header(Ascii(":status"), Decimal(response.status)),
               Header(Ascii("content-type"), response.contentType),
               Header(Ascii("content-length"), Decimal(|response.body|))];
    var headers := response.headers;
    assert headers[0..] == headers;
    for i := 0 to |headers|
      invariant fields + Kept(headers[i..]) == ResponseFields(response)
    {
      NextKept(fields, headers, i);
      if !Dropped(headers[i].name) {
        fields := fields + [Header(Lower(headers[i].name), headers[i].value)];
      }
    }
    assert headers[|headers|..] == [];
    assert fields + [] == fields;
  }

  lemma NextKept(fields: seq<Header>, headers: seq<Header>, i: nat)
    requires i < |headers|
    ensures fields + Kept(headers[i..]) ==
            (fields + if Dropped(headers[i].name) then [] else [LowerName(headers[i])]) + Kept(headers[i + 1..])
  {
    assert headers[i..][1..] == headers[i + 1..];
  }

  lemma Append(a: seq<byte>, b: seq<byte>, c: seq<byte>)
    ensures a + b + c == a + (b + c)
    ensures a + b + [] == a + b
  {}

  method WriteBody(stream: TcpStream, id: nat, body: seq<byte>) returns (r: Result<()>)
    modifies stream`output
    ensures r == Ok(()) && stream.output == old(stream.output) + DataBytes(id, body)
  {
    var remaining := body;
    while |remaining| > MAX_FRAME_SIZE
      invariant stream.output + DataBytes(id, remaining) == old(stream.output) + DataBytes(id, body)
      decreases |remaining|
    {
      var chunk := remaining[..MAX_FRAME_SIZE];
      ghost var before, frame := stream.output, FrameBytes(Frame(DATA, 0, id, chunk));
      var written := WriteFrame(stream, Frame(DATA, 0, id, chunk));
      Append(before, frame, DataBytes(id, remaining[MAX_FRAME_SIZE..]));
      remaining := remaining[MAX_FRAME_SIZE..];
    }
    r := WriteFrame(stream, Frame(DATA, 1, id, remaining));
  }

  /** send_h2_response: all of it, or nothing when the header block is too large. */
  method SendResponse(codec: Codec, stream: TcpStream, id: nat, response: Response) returns (r: Result<()>)
    requires |codec.staticTable| == 61
    modifies stream`output
    ensures !Sends(codec, response) ==> r == Err(PayloadTooLarge) && stream.output == old(stream.output)
    ensures Sends(codec, response) ==>
              r == Ok(()) && stream.output == old(stream.output) + ResponseBytes(codec, id, response)
  {
    var fields := CollectFields(response);
    var block := HpackEncodeHeaders(codec, fields);
    var flags := if response.body == [] then 5 else 4;
    ghost var before, head := stream.output, FrameBytes(Frame(HEADERS, flags, id, block));
    r := WriteFrame(stream, Frame(HEADERS, flags, id, block));
    if r.Err? {
      return r;
    }
    if response.body != [] {
      r := WriteBody(stream, id, response.body);
      Append(before, head, DataBytes(id, response.body));
    } else {
      Append(before, head, []);
    }
  }

  // ----- As acts of a peer

  function DataActs(id: nat, body: seq<byte>): seq<Act>
    decreases |body|
  {
    if |body| <= MAX_FRAME_SIZE then [SendData(id, PLAIN, body, true)]
    else [SendData(id, PLAIN, body[..MAX_FRAME_SIZE], false)] + DataActs(id, body[MAX_FRAME_SIZE..])
  }

  function ResponseActs(codec: Codec, id: nat, response: Response): seq<Act>
    requires |codec.staticTable| == 61
  {
    [SendHeaders(id, PLAIN, [HeadersBytes(codec, ResponseFields(response))], response.body == [])] +
    if response.body == [] then [] else DataActs(id, response.body)
  }

  lemma PlainWrap(payload: seq<byte>)
    ensures PLAIN.Wrap(payload) == payload
  {}

  lemma {:induction false} DataActsBytes(id: nat, body: seq<byte>)
    requires id < 0x8000_0000
    ensures AllSendable(DataActs(id, body)) && ActsBytes(DataActs(id, body)) == DataBytes(id, body)
    decreases |body|
  {
    var acts := DataActs(id, body);
    if |body| <= MAX_FRAME_SIZE {
      PlainWrap(body);
      assert acts[1..] == [];
      assert ActBytes(acts[0]) + [] == ActBytes(acts[0]);
    } else {
      PlainWrap(body[..MAX_FRAME_SIZE]);
      assert acts[1..] == DataActs(id, body[MAX_FRAME_SIZE..]);
      DataActsBytes(id, body[MAX_FRAME_SIZE..]);
    }
  }

  lemma ResponseActsBytes(codec: Codec, id: nat, response: Response)
    requires |codec.staticTable| == 61 && id < 0x8000_0000 && Sends(codec, response)
    ensures AllSendable(ResponseActs(codec, id, response))
    ensures ActsBytes(ResponseActs(codec, id, response)) == ResponseBytes(codec, id, response)
  {
    var acts := ResponseActs(codec, id, response);
    var block := HeadersBytes(codec, ResponseFields(response));
    PlainWrap(block);
    assert ActBytes(acts[0]) == FrameBytes(Frame(HEADERS, if response.body == [] then 5 else 4, id, block));
    if response.body == [] {
      assert acts[1..] == [];
    } else {
      assert acts[1..] == DataActs(id, response.body);
      DataActsBytes(id, response.body);
    }
  }

  /** Header fields first; no DATA frame above the default size; END_STREAM on the last frame only. */
  lemma {:induction false} FrameLimits(codec: Codec, id: nat, response: Response, i: nat)
    requires |codec.staticTable| == 61 && i < |ResponseActs(codec, id, response)|
    ensures var acts := ResponseActs(codec, id, response);
            && acts[i].SendHeaders? == (i == 0)
            && (i > 0 ==> acts[i].SendData? && 0 < |acts[i].data| <= 16384)
            && !acts[i].SendOther? && (acts[i].last <==> i == |acts| - 1)
  {
    if i > 0 {
      DataLimits(id, response.body, i - 1);
    }
  }

  lemma {:induction false} DataLimits(id: nat, body: seq<byte>, i: nat)
    requires body != [] && i < |DataActs(id, body)|
    ensures var acts := DataActs(id, body);
            && acts[i].SendData? && 0 < |acts[i].data| <= 16384
            && (acts[i].last <==> i == |acts| - 1)
    decreases |body|
  {
    if |body| > MAX_FRAME_SIZE && i > 0 {
      DataLimits(id, body[MAX_FRAME_SIZE..], i - 1);
    }
  }
}
