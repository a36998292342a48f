/** Octets, shared by the log store and the WebSocket code. */
module Bytes {
  newtype byte = x: int | 0 <= x < 256
  type Bytes = seq<byte>

  /** The first `n` octets, or all if there are fewer. */
  function First(s: Bytes, n: nat): Bytes {
    if n < |s| then s[..n] else s
  }
}
