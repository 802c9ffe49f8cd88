/** HTTP/2 frames, RFC 7540 section 4.1, and the padding of HEADERS and DATA. */
module H2Frame {
  import opened Prelude
  import opened Sequences
  import opened Bits
  import opened Buffers
  import opened Network

  const DATA: byte := 0
  const HEADERS: byte := 1
  const SETTINGS: byte := 4
  const PING: byte := 6
  const GOAWAY: byte := 7
  const CONTINUATION: byte := 9

  /** Flags, by the number of their bit. */
  const ACK: nat := 0
  const END_STREAM: nat := 0
  const END_HEADERS: nat := 2
  const PADDED: nat := 3
  const PRIORITY: nat := 5

  datatype Frame = Frame(frameType: byte, flags: byte, streamId: nat, payload: seq<byte>)

  predicate Has(frame: Frame, flag: nat) {
    BitOf(frame.flags, flag)
  }

  // ----- Frames as octets

  /** `n`, most significant octet first, in `width` octets. */
  function BigEndian(n: nat, width: nat): (bytes: seq<byte>)
    ensures |bytes| == width
  {
    if width == 0 then [] else BigEndian(n / 256, width - 1) + [n % 256]
  }

  function FromBigEndian(bytes: seq<byte>): nat {
    if bytes == [] then 0
    else 256 * FromBigEndian(bytes[..|bytes| - 1]) + bytes[|bytes| - 1]
  }

  lemma {:induction false} BigEndianRoundTrip(n: nat, width: nat)
    requires n < Pow2(8 * width)
    ensures FromBigEndian(BigEndian(n, width)) == n
  {
    if width > 0 {
      Quarter(n, width);
      BigEndianRoundTrip(n / 256, width - 1);
      assert BigEndian(n, width)[..width - 1] == BigEndian(n / 256, width - 1);
    }
  }

  lemma Quarter(n: nat, width: nat)
    requires width > 0 && n < Pow2(8 * width)
    ensures n / 256 < Pow2(8 * (width - 1))
  {
    ScaleSum(1, 8 * (width - 1), 8);
    ScaleEight(Pow2(8 * (width - 1)));
  }

  lemma ScaleEight(x: nat)
    ensures Scale(x, 8) == 256 * x
  {
    ScaleSeven(x);
  }

  function FrameBytes(frame: Frame): seq<byte> {
    BigEndian(|frame.payload|, 3) + [frame.frameType, frame.flags] +
    BigEndian(frame.streamId % 0x8000_0000, 4) + frame.payload
  }

  lemma ThreeOctets(n: nat)
    ensures BigEndian(n, 3) == [n / 256 / 256 % 256, n / 256 % 256, n % 256]
  {
    assert BigEndian(n / 256 / 256 / 256, 0) == [];
    assert BigEndian(n / 256 / 256, 1) == [n / 256 / 256 % 256];
    assert BigEndian(n / 256, 2) == [n / 256 / 256 % 256, n / 256 % 256];
  }

  lemma FourOctets(n: nat)
    ensures BigEndian(n, 4) == [n / 256 / 256 / 256 % 256, n / 256 / 256 % 256, n / 256 % 256, n % 256]
  {
    var high := n / 256;
    ThreeOctets(high);
    assert BigEndian(n, 4) == BigEndian(high, 3) + [n % 256];
  }

  lemma TwoThenMore(a: seq<byte>, x: byte, y: byte, b: seq<byte>, c: seq<byte>)
    requires |a| == 3
    ensures a + [x, y] + b + c == [a[0], a[1], a[2], x, y] + b + c
  {}

  /** The layout of section 4.1 of RFC 7540: length, type, flags, a clear bit with the stream, and the
      payload. */
  lemma FrameLayout(frame: Frame)
    requires |frame.payload| <= 0xff_ffff && frame.streamId < 0x8000_0000
    ensures var n, id := |frame.payload|, frame.streamId;
            FrameBytes(frame) ==
            [n / 256 / 256 % 256, n / 256 % 256, n % 256, frame.frameType, frame.flags] +
            [id / 256 / 256 / 256 % 256, id / 256 / 256 % 256, id / 256 % 256, id % 256] + frame.payload
  {
    ThreeOctets(|frame.payload|);
    FourOctets(frame.streamId);
    TwoThenMore(BigEndian(|frame.payload|, 3), frame.frameType, frame.flags, BigEndian(frame.streamId, 4),
                frame.payload);
  }

  /** read_h2_frame: no frame when the connection ends within a header. */
  function ParseFrame(input: seq<byte>, position: nat): (r: Result<Option<Read<Frame>>>)
    ensures r.Ok? && r.value.Some? ==> position < r.value.value.next <= |input|
  {
    if position + 9 > |input| then Ok(None)
    else
      var length := FromBigEndian(Octets(input, position, 3));
      var id := FromBigEndian(Octets(input, position + 5, 4)) % 0x8000_0000;
      if position + 9 + length > |input| then Err(FrameTruncated)
      else Ok(Some(Read(
        Frame(input[position + 3], input[position + 4], id, Octets(input, position + 9, length)),
        position + 9 + length)))
  }

  lemma {:induction false} FromBigEndianBound(bytes: seq<byte>)
    ensures FromBigEndian(bytes) < Pow2(8 * |bytes|)
  {
    if bytes != [] {
      FromBigEndianBound(bytes[..|bytes| - 1]);
      ScaleSum(1, 8 * (|bytes| - 1), 8);
      ScaleEight(Pow2(8 * (|bytes| - 1)));
    }
  }

  /** read_h2_frame; the length check never fires, since a length has three octets. */
  method ReadFrame(stream: TcpStream) returns (r: Result<Option<Frame>>)
    requires stream.Valid()
    modifies stream`position
    ensures stream.Valid()
    ensures match ParseFrame(stream.input, old(stream.position))
            case Err(e) => r == Err(e)
            case Ok(None) => r == Ok(None)
            case Ok(Some(read)) => r == Ok(Some(read.value)) && stream.position == read.next
  {
    ghost var start := stream.position;
    var header := stream.ReadExact(9);
    if header.None? {
      return Ok(None);
    }
    HeaderParts(stream.input, start);
    var h := header.value;
    var length := FromBigEndian(h[..3]);
    FromBigEndianBound(h[..3]);
    WidePowers();
    if length > 16 * 1024 * 1024 {
      assert false;
    }
    var payload := stream.ReadExact(length);
    if payload.None? {
      return Err(FrameTruncated);
    }
    var id := FromBigEndian(h[5..9]) % 0x8000_0000;
    return Ok(Some(Frame(h[3], h[4], id, payload.value)));
  }

  lemma HeaderParts(input: seq<byte>, start: nat)
    requires start + 9 <= |input|
    ensures var h := Octets(input, start, 9);
            && h[..3] == Octets(input, start, 3) && h[5..9] == Octets(input, start + 5, 4)
            && h[3] == input[start + 3] && h[4] == input[start + 4]
  {
    OctetsJoin(input, start, 3, 6);
    OctetsJoin(input, start, 5, 4);
    OctetsJoin(input, start, 3, 1);
    OctetsJoin(input, start, 4, 1);
    OctetsJoin(input, start, 4, 5);
  }

  /** write_h2_frame */
  method WriteFrame(stream: TcpStream, frame: Frame) returns (r: Result<()>)
    modifies stream`output
    ensures |frame.payload| > 0xff_ffff ==> r == Err(PayloadTooLarge) && stream.output == old(stream.output)
    ensures |frame.payload| <= 0xff_ffff ==>
              r == Ok(()) && stream.output == old(stream.output) + FrameBytes(frame)
  {
    if |frame.payload| > 0xff_ffff {
      return Err(PayloadTooLarge);
    }
    var header := BigEndian(|frame.payload|, 3) + [frame.frameType, frame.flags] +
                  BigEndian(frame.streamId % 0x8000_0000, 4);
    stream.WriteAll(header);
    stream.WriteAll(frame.payload);
    assert old(stream.output) + header + frame.payload == old(stream.output) + FrameBytes(frame);
    return Ok(());
  }

  lemma PartsHeld(input: seq<byte>, position: nat, a: seq<byte>, b: seq<byte>, c: seq<byte>, d: seq<byte>)
    requires Holds(input, position, a + b + c + d)
    ensures position + |a| + |b| + |c| + |d| <= |input|
    ensures Octets(input, position, |a|) == a && Holds(input, position + |a|, b)
    ensures Octets(input, position + |a| + |b|, |c|) == c && Octets(input, position + |a| + |b| + |c|, |d|) == d
  {
    HoldsConcat(input, position, a + b + c, d);
    HoldsConcat(input, position, a + b, c);
    HoldsConcat(input, position, a, b);
    OctetsAre(input, position, a);
    OctetsAre(input, position + |a| + |b|, c);
    OctetsAre(input, position + |a| + |b| + |c|, d);
  }

  /** The parts of a written frame, where they stand. */
  lemma FrameHeld(input: seq<byte>, position: nat, frame: Frame)
    requires |frame.payload| <= 0xff_ffff && frame.streamId < 0x8000_0000
    requires Holds(input, position, FrameBytes(frame))
    ensures position + 9 + |frame.payload| <= |input|
    ensures Octets(input, position, 3) == BigEndian(|frame.payload|, 3)
    ensures input[position + 3] == frame.frameType && input[position + 4] == frame.flags
    ensures Octets(input, position + 5, 4) == BigEndian(frame.streamId, 4)
    ensures Octets(input, position + 9, |frame.payload|) == frame.payload
  {
    var len, kind := BigEndian(|frame.payload|, 3), [frame.frameType, frame.flags];
    var id := BigEndian(frame.streamId, 4);
    PartsHeld(input, position, len, kind, id, frame.payload);
    HeldAt(input, position + 3, kind, 0);
    HeldAt(input, position + 3, kind, 1);
  }

  /** Reading a written frame gives it back, in any surroundings. */
  lemma FrameRoundTrip(input: seq<byte>, position: nat, frame: Frame)
    requires |frame.payload| <= 0xff_ffff && frame.streamId < 0x8000_0000
    requires Holds(input, position, FrameBytes(frame))
    ensures ParseFrame(input, position) == Ok(Some(Read(frame, position + 9 + |frame.payload|)))
  {
    FrameHeld(input, position, frame);
    NumbersBack(|frame.payload|, frame.streamId);
    ParsedAs(input, position, frame, |frame.payload|);
  }

  lemma ParsedAs(input: seq<byte>, position: nat, frame: Frame, length: nat)
    requires position + 9 + length <= |input|
    requires FromBigEndian(Octets(input, position, 3)) == length
    requires FromBigEndian(Octets(input, position + 5, 4)) == frame.streamId < 0x8000_0000
    requires input[position + 3] == frame.frameType && input[position + 4] == frame.flags
    requires Octets(input, position + 9, length) == frame.payload
    ensures ParseFrame(input, position) == Ok(Some(Read(frame, position + 9 + length)))
  {}

  lemma NumbersBack(length: nat, id: nat)
    requires length <= 0xff_ffff && id < 0x8000_0000
    ensures FromBigEndian(BigEndian(length, 3)) == length
    ensures FromBigEndian(BigEndian(id, 4)) == id
  {
    WidePowers();
    BigEndianRoundTrip(length, 3);
    BigEndianRoundTrip(id, 4);
  }

  lemma DivBack(n: nat, octet: byte)
    ensures (256 * n + octet) / 256 == n && (256 * n + octet) % 256 == octet
  {}

  lemma {:induction false} ToBigEndian(bytes: seq<byte>)
    ensures BigEndian(FromBigEndian(bytes), |bytes|) == bytes
  {
    if bytes != [] {
      var front, last := bytes[..|bytes| - 1], bytes[|bytes| - 1];
      ToBigEndian(front);
      DivBack(FromBigEndian(front), last);
      FrontAndLast(bytes);
    }
  }

  lemma ReservedBitClear(bytes: seq<byte>)
    requires |bytes| == 4 && bytes[0] < 128
    ensures FromBigEndian(bytes) < 0x8000_0000
  {
    var a: nat, b: nat, c: nat := bytes[0], bytes[1], bytes[2];
    assert bytes[..3][..2][..1] == [a];
    assert FromBigEndian(bytes[..3][..2][..1]) == a;
    assert FromBigEndian(bytes[..3][..2]) == 256 * a + b;
    assert FromBigEndian(bytes[..3]) == 256 * (256 * a + b) + c;
  }

  lemma IdSpelled(id: seq<byte>)
    requires |id| == 4 && id[0] < 128
    ensures BigEndian(FromBigEndian(id) % 0x8000_0000, 4) == id
  {
    ToBigEndian(id);
    ReservedBitClear(id);
  }

  /** `bytes` are the `n` octets at `position`. */
  predicate Spells(input: seq<byte>, position: nat, n: nat, bytes: seq<byte>) {
    position + n <= |input| && Octets(input, position, n) == bytes
  }

  lemma SpellsMore(input: seq<byte>, position: nat, m: nat, a: seq<byte>, n: nat, b: seq<byte>)
    requires Spells(input, position, m, a) && Spells(input, position + m, n, b)
    ensures Spells(input, position, m + n, a + b)
  {
    OctetsJoin(input, position, m, n);
  }

  lemma TwoOctets(input: seq<byte>, position: nat)
    requires position + 2 <= |input|
    ensures Spells(input, position, 2, [input[position], input[position + 1]])
  {
    assert Octets(input, position, 1) == [input[position]];
  }

  /** The octets of a frame are its parts. */
  lemma FrameParts(input: seq<byte>, position: nat, length: seq<byte>, kind: seq<byte>, id: seq<byte>, n: nat,
                   payload: seq<byte>)
    requires Spells(input, position, 3, length) && Spells(input, position + 3, 2, kind)
    requires Spells(input, position + 5, 4, id) && Spells(input, position + 9, n, payload)
    ensures Spells(input, position, 9 + n, length + kind + id + payload)
  {
    SpellsMore(input, position, 3, length, 2, kind);
    SpellsMore(input, position, 5, length + kind, 4, id);
    SpellsMore(input, position, 9, length + kind + id, n, payload);
  }

  /** A frame read with its reserved bit clear is written back octet for octet. */
  lemma ReadThenWrite(input: seq<byte>, position: nat)
    requires ParseFrame(input, position).Ok? && ParseFrame(input, position).value.Some?
    requires input[position + 5] < 128
    ensures var read := ParseFrame(input, position).value.value;
            Octets(input, position, read.next - position) == FrameBytes(read.value)
  {
    var length, id := Octets(input, position, 3), Octets(input, position + 5, 4);
    var n := FromBigEndian(length);
    ToBigEndian(length);
    OctetAt(input, position + 5, 4, 0);
    IdSpelled(id);
    TwoOctets(input, position + 3);
    FrameParts(input, position, length, [input[position + 3], input[position + 4]], id, n,
               Octets(input, position + 9, n));
  }

  lemma WidePowers()
    ensures Pow2(24) == 0x100_0000 && Pow2(32) == 0x1_0000_0000
  {
    BigPowers();
    ScaleSum(1, 8, 8);
    ScaleSum(1, 16, 8);
    ScaleSum(1, 24, 8);
    ScaleEight(256);
    ScaleEight(0x1_0000);
    ScaleEight(0x100_0000);
  }

  // ----- Padding and priority

  /** h2_headers_payload */
  function HeadersPayload(frame: Frame): Result<seq<byte>> {
    if Has(frame, PADDED) && frame.payload == [] then Err(InvalidPadding)
    else
      var start := if Has(frame, PADDED) then 1 else 0;
      var pad := if Has(frame, PADDED) then frame.payload[0] else 0;
      var end := |frame.payload| - pad;
      var skip := start + if Has(frame, PRIORITY) then 5 else 0;
      if start > end then Err(InvalidPadding)
      else if skip > end then Err(InvalidPayload)
      else Ok(Octets(frame.payload, skip, end - skip))
  }

  /** h2_data_payload */
  function DataPayload(frame: Frame): Result<seq<byte>> {
    if Has(frame, PADDED) && frame.payload == [] then Err(InvalidPadding)
    else
      var start := if Has(frame, PADDED) then 1 else 0;
      var pad := if Has(frame, PADDED) then frame.payload[0] else 0;
      var end := |frame.payload| - pad;
      if start > end then Err(InvalidPadding)
      else Ok(Octets(frame.payload, start, end - start))
  }

  /** How a sender wraps a payload: the padding it adds, if any, and a priority, if any. */
  datatype Wrapping = Wrapping(padding: Option<seq<byte>>, priority: Option<seq<byte>>) {
    predicate Valid() {
      && (padding.Some? ==> |padding.value| < 256)
      && (priority.Some? ==> |priority.value| == 5)
    }

    predicate Marks(frame: Frame) {
      Has(frame, PADDED) == padding.Some? && Has(frame, PRIORITY) == priority.Some?
    }

    function Wrap(payload: seq<byte>): seq<byte>
      requires Valid()
    {
      (if padding.Some? then [|padding.value|] else []) +
      (if priority.Some? then priority.value else []) +
      payload +
      (if padding.Some? then padding.value else [])
    }
  }

  lemma OctetsOfMiddle(before: seq<byte>, middle: seq<byte>, after: seq<byte>)
    ensures Octets(before + middle + after, |before|, |middle|) == middle
  {
    HoldsWhole(before + middle + after);
    HoldsConcat(before + middle + after, 0, before + middle, after);
    HoldsConcat(before + middle + after, 0, before, middle);
    OctetsAre(before + middle + after, |before|, middle);
  }

  lemma HeadersUnwrap(frame: Frame, wrapping: Wrapping, payload: seq<byte>)
    requires wrapping.Valid() && wrapping.Marks(frame) && frame.payload == wrapping.Wrap(payload)
    ensures HeadersPayload(frame) == Ok(payload)
  {
    var size := if wrapping.padding.Some? then [|wrapping.padding.value|] else [];
    var priority := if wrapping.priority.Some? then wrapping.priority.value else [];
    var tail := if wrapping.padding.Some? then wrapping.padding.value else [];
    OctetsOfMiddle(size + priority, payload, tail);
  }

  lemma DataUnwrap(frame: Frame, wrapping: Wrapping, payload: seq<byte>)
    requires wrapping.Valid() && wrapping.priority.None?
    requires Has(frame, PADDED) == wrapping.padding.Some? && frame.payload == wrapping.Wrap(payload)
    ensures DataPayload(frame) == Ok(payload)
  {
    var size := if wrapping.padding.Some? then [|wrapping.padding.value|] else [];
    var tail := if wrapping.padding.Some? then wrapping.padding.value else [];
    assert size + [] == size;
    OctetsOfMiddle(size, payload, tail);
  }

  // ----- Every payload that is read was wrapped

  predicate Unwraps(frame: Frame, wrapping: Wrapping, payload: seq<byte>) {
    && wrapping.Valid() && frame.payload == wrapping.Wrap(payload)
    && Has(frame, PADDED) == wrapping.padding.Some?
  }

  lemma Pieces(s: seq<byte>, a: nat, b: nat, c: nat)
    requires a <= b <= c <= |s|
    ensures s == s[..a] + s[a..b] + s[b..c] + s[c..]
  {}

  /** The payload of a HEADERS frame is read exactly when padding and priority can be taken off, and is
      what they were put around. */
  lemma HeadersAreWrapped(frame: Frame, payload: seq<byte>)
    ensures HeadersPayload(frame) == Ok(payload) <==>
            exists wrapping: Wrapping :: wrapping.Marks(frame) && Unwraps(frame, wrapping, payload)
  {
    if HeadersPayload(frame) == Ok(payload) {
      var wrapping := HeadersWrapping(frame);
      assert wrapping.Marks(frame) && Unwraps(frame, wrapping, payload);
    }
    forall wrapping: Wrapping | wrapping.Marks(frame) && Unwraps(frame, wrapping, payload)
      ensures HeadersPayload(frame) == Ok(payload)
    {
      HeadersUnwrap(frame, wrapping, payload);
    }
  }

  /** A payload with `start` octets for the padding's length, a priority up to `skip`, and padding
      from `end` on. */
  lemma WrappedIs(s: seq<byte>, start: nat, skip: nat, end: nat, wrapping: Wrapping)
    requires start <= skip <= end <= |s| && wrapping.Valid()
    requires if wrapping.padding.Some? then start == 1 && s[0] == |s| - end && wrapping.padding.value == s[end..]
             else start == 0 && end == |s|
    requires if wrapping.priority.Some? then wrapping.priority.value == s[start..skip] else skip == start
    ensures s == wrapping.Wrap(s[skip..end])
  {
    Pieces(s, start, skip, end);
  }

  /** Where the parts of the payload of a HEADERS frame are. */
  lemma HeadersCut(frame: Frame) returns (start: nat, skip: nat, end: nat)
    requires HeadersPayload(frame).Ok?
    ensures start <= skip <= end <= |frame.payload|
    ensures start == if Has(frame, PADDED) then 1 else 0
    ensures skip == start + if Has(frame, PRIORITY) then 5 else 0
    ensures Has(frame, PADDED) ==> frame.payload != [] && end == |frame.payload| - frame.payload[0]
    ensures !Has(frame, PADDED) ==> end == |frame.payload|
    ensures HeadersPayload(frame).value == frame.payload[skip..end]
  {
    start := if Has(frame, PADDED) then 1 else 0;
    end := |frame.payload| - if Has(frame, PADDED) then frame.payload[0] else 0;
    skip := start + if Has(frame, PRIORITY) then 5 else 0;
    OctetsSlice(frame.payload, skip, end - skip);
  }

  lemma HeadersWrapping(frame: Frame) returns (wrapping: Wrapping)
    requires HeadersPayload(frame).Ok?
    ensures wrapping.Marks(frame) && Unwraps(frame, wrapping, HeadersPayload(frame).value)
  {
    var s := frame.payload;
    var start, skip, end := HeadersCut(frame);
    wrapping := Wrapping(if Has(frame, PADDED) then Some(s[end..]) else None,
                         if Has(frame, PRIORITY) then Some(s[start..skip]) else None);
    WrappedIs(s, start, skip, end, wrapping);
  }

  lemma DataAreWrapped(frame: Frame, payload: seq<byte>)
    ensures DataPayload(frame) == Ok(payload) <==>
            exists wrapping: Wrapping :: wrapping.priority.None? && Unwraps(frame, wrapping, payload)
  {
    if DataPayload(frame) == Ok(payload) {
      var wrapping := DataWrapping(frame);
      assert wrapping.priority.None? && Unwraps(frame, wrapping, payload);
    }
    forall wrapping: Wrapping | wrapping.priority.None? && Unwraps(frame, wrapping, payload)
      ensures DataPayload(frame) == Ok(payload)
    {
      DataUnwrap(frame, wrapping, payload);
    }
  }

  lemma DataWrapping(frame: Frame) returns (wrapping: Wrapping)
    requires DataPayload(frame).Ok?
    ensures wrapping.priority.None? && Unwraps(frame, wrapping, DataPayload(frame).value)
  {
    var s := frame.payload;
    var start := if Has(frame, PADDED) then 1 else 0;
    var end := |s| - if Has(frame, PADDED) then s[0] else 0;
    wrapping := Wrapping(if Has(frame, PADDED) then Some(s[end..]) else None, None);
    OctetsSlice(s, start, end - start);
    WrappedIs(s, start, start, end, wrapping);
  }
}
