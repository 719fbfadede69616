/** Byte strings: Python `bytes` as sequences of octets. */
module Bytes {

  newtype byte = x: int | 0 <= x < 256

  /** The in-order concatenation of a sequence of chunks, as `bytearray.extend` builds it. */
  function Flatten(chunks: seq<seq<byte>>): (r: seq<byte>)
    decreases |chunks|
  {
    if chunks == [] then [] else Flatten(chunks[..|chunks| - 1]) + chunks[|chunks| - 1]
  }

  /** Python's `data[i:j]` for non-negative bounds: both ends are clamped to the length. */
  function Slice(data: seq<byte>, i: nat, j: nat): (r: seq<byte>)
    ensures |r| == if i < j then Min(j, |data|) - Min(i, |data|) else 0
    ensures forall k :: 0 <= k < |r| ==> r[k] == data[i + k]
  {
    if i < j then data[Min(i, |data|)..Min(j, |data|)] else []
  }

  function Min(a: int, b: int): int {
    if a <= b then a else b
  }

  /** Flattening distributes over concatenation of chunk sequences. */
  lemma {:induction false} FlattenAppend(a: seq<seq<byte>>, b: seq<seq<byte>>)
    ensures Flatten(a + b) == Flatten(a) + Flatten(b)
    decreases |b|
  {
    if b == [] {
      assert a + b == a;
    } else {
      var b' := b[..|b| - 1];
      assert (a + b)[..|a + b| - 1] == a + b';
      FlattenAppend(a, b');
      assert Flatten(b) == Flatten(b') + b[|b| - 1];
    }
  }

  /** The length of the concatenation of the first `k` chunks grows with `k`. */
  lemma {:induction false} FlattenPrefixGrows(chunks: seq<seq<byte>>, j: nat, k: nat)
    requires j <= k <= |chunks|
    ensures |Flatten(chunks[..j])| <= |Flatten(chunks[..k])|
    decreases k - j
  {
    if j < k {
      FlattenPrefixGrows(chunks, j + 1, k);
      assert chunks[..j + 1][..j] == chunks[..j];
    }
  }
}
