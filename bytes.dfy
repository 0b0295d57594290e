/** Byte strings and the prefix slice `s[:k]` as Python evaluates it. */
module Bytes {

  /** One element of a Python `bytes` object. */
  type byte = x: int | 0 <= x < 256

  /** Length of Python's `s[:k]` on a sequence of length `n`: a negative `k` counts from the end. */
  function TakeLength(n: nat, k: int): (len: nat)
    ensures len <= n
    ensures 0 <= k ==> len == if k <= n then k else n
    ensures k < 0 ==> len == if n + k >= 0 then n + k else 0
  {
    if k >= 0 then (if k <= n then k else n) else (if n + k >= 0 then n + k else 0)
  }

  /** Python's `s[:k]`: always a prefix of `s`, of length `TakeLength(|s|, k)`. */
  function Take<T>(s: seq<T>, k: int): (r: seq<T>)
    ensures |r| == TakeLength(|s|, k)
    ensures r == s[..|r|]
  {
    s[..TakeLength(|s|, k)]
  }

  /** The parts one after another: what a hash has been fed after one `update` per part. */
  function Concat(parts: seq<seq<byte>>): (r: seq<byte>)
  {
    if parts == [] then [] else Concat(parts[..|parts| - 1]) + parts[|parts| - 1]
  }

  lemma Concat3(a: seq<byte>, b: seq<byte>, c: seq<byte>)
    ensures Concat([a, b, c]) == a + b + c
  {
    assert [a][..0] == [];
    assert Concat([a]) == a;
    assert [a, b][..1] == [a];
    assert Concat([a, b]) == a + b;
    assert [a, b, c][..2] == [a, b];
  }
}
