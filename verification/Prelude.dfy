/** Bytes, machine-word bounds and result types shared by every module. */
module Prelude {
  type byte = x: int | 0 <= x < 256

  /** The number of values of a 32-bit word, and of the 64-bit `usize`. */
  const U32: nat := 0x1_0000_0000
  const USIZE: nat := 0x1_0000_0000_0000_0000

  /** A 64-bit word, `usize`. */
  type word = x: nat | x < USIZE

  /** What a 32-bit word keeps of a number. */
  function Wrap32(x: nat): (r: nat)
    ensures r < U32
    ensures x < U32 ==> r == x
  {
    if x < U32 then x else Wrap32(x - U32)
  }

  datatype Option<+T> = None | Some(value: T)

  datatype Result<+T> = Ok(value: T) | Err(error: Error)

  /** The distinct failures the modelled code reports. */
  datatype Error =
    | MissingInteger | TruncatedInteger | IntegerOverflow
    | MissingString | TruncatedString | InvalidUtf8
    | InvalidHuffmanCode | InvalidHuffmanPadding
    | InvalidIndex | InvalidDynamicIndex
    | FrameTruncated | PayloadTooLarge | InvalidPadding | InvalidPayload
    | ContinuationExpected | HeaderBlockTruncated | InvalidPreface | ConnectionClosed
    | HandlerFailed
    | MissingMethod | MissingTarget | MissingVersion
    | InvalidChunkSize | MissingChunkEnd | BodyTooLarge | HeadersTooLarge
}
