/** Bytes, and streams of them cut into chunks. */
module Bytes {

  newtype Byte = b: int | 0 <= b < 256

  type Bytes = seq<Byte>

  /** What a stream carried, whatever reads it arrived in. */
  function Flatten(chunks: seq<Bytes>): Bytes {
    if chunks == [] then [] else chunks[0] + Flatten(chunks[1..])
  }
}
