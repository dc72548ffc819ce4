/** Small shared vocabulary: optional values, bytes and byte-sequence helpers. */
module Base {

  datatype Option<T> = None | Some(value: T)

  /** An octet, as Go's `byte`. */
  newtype byte = b: int | 0 <= b < 256

  /** The concatenation of a sequence of chunks, in order. */
  function Concat(chunks: seq<seq<byte>>): (r: seq<byte>)
    ensures |r| == TotalLen(chunks)
  {
    if chunks == [] then [] else chunks[0] + Concat(chunks[1..])
  }

  /** The number of bytes in a sequence of chunks. */
  function TotalLen(chunks: seq<seq<byte>>): nat
  {
    if chunks == [] then 0 else |chunks[0]| + TotalLen(chunks[1..])
  }

  /** `n` zero bytes: what Go's `make([]byte, n)` holds. */
  function Zeros(n: nat): (r: seq<byte>)
    ensures |r| == n && forall i :: 0 <= i < n ==> r[i] == 0
  {
    seq(n, _ => 0)
  }

  function Min(a: int, b: int): int
  {
    if a <= b then a else b
  }
}
