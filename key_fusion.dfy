/** Fusion of the quantum and the post-quantum key into one hybrid key. */
module KeyFusion {
  import opened Wrappers
  import opened Bytes
  import opened Primitives

  /** An argument as Python sees it: `bytes`, `bytearray`, or any other object. */
  datatype Arg = PyBytes(bytes: seq<byte>) | PyByteArray(bytes: seq<byte>) | OtherObject

  datatype FusionError = TypeError

  /** The default `length_bytes`. */
  const DefaultLength: int := 64

  predicate IsBytesLike(a: Arg) {
    a.PyBytes? || a.PyByteArray?
  }

  /** `derive_hybrid_key(k_qkd, k_pqc, length_bytes)`: `SHA3-512(k_qkd + k_pqc)[:length_bytes]`. */
  function DeriveHybridKey(sha: Sha3_512, kQkd: Arg, kPqc: Arg, lengthBytes: int): (r: Result<seq<byte>, FusionError>)
    ensures r.Err? <==> !IsBytesLike(kQkd) || !IsBytesLike(kPqc)
    ensures r.Ok? ==> |r.value| == TakeLength(64, lengthBytes)
    ensures r.Ok? ==> r.value == sha(kQkd.bytes + kPqc.bytes)[..|r.value|]
  {
    if !IsBytesLike(kQkd) || !IsBytesLike(kPqc) then Err(TypeError)
    else
      var digest := sha(kQkd.bytes + kPqc.bytes);
      Ok(Take(digest, lengthBytes))
  }

  /** For a non-negative length the key is `min(length_bytes, 64)` bytes long. */
  lemma FusionLength(sha: Sha3_512, a: seq<byte>, b: seq<byte>, lengthBytes: int)
    requires 0 <= lengthBytes
    ensures |DeriveHybridKey(sha, PyBytes(a), PyBytes(b), lengthBytes).value|
            == if lengthBytes < 64 then lengthBytes else 64
  {
  }

  /** The default length yields the whole 64-byte digest. */
  lemma DefaultIsFullDigest(sha: Sha3_512, a: Arg, b: Arg)
    requires IsBytesLike(a) && IsBytesLike(b)
    ensures DeriveHybridKey(sha, a, b, DefaultLength) == Ok(sha(a.bytes + b.bytes))
  {
    var digest := sha(a.bytes + b.bytes);
    assert |digest| == 64;
    assert digest[..64] == digest;
  }

  /** Only the concatenation matters: where the input is split between the two keys does not. */
  lemma OnlyConcatenationMatters(sha: Sha3_512, a: Arg, b: Arg, c: Arg, d: Arg, lengthBytes: int)
    requires IsBytesLike(a) && IsBytesLike(b) && IsBytesLike(c) && IsBytesLike(d)
    requires a.bytes + b.bytes == c.bytes + d.bytes
    ensures DeriveHybridKey(sha, a, b, lengthBytes) == DeriveHybridKey(sha, c, d, lengthBytes)
  {
  }

  /** Swapping two different keys need not change the result: `[1]` then `[1, 1]` fuses like `[1, 1]` then `[1]`. */
  lemma SwapCanCommute(sha: Sha3_512, lengthBytes: int)
    ensures PyBytes([1]) != PyBytes([1, 1])
    ensures DeriveHybridKey(sha, PyBytes([1]), PyBytes([1, 1]), lengthBytes)
            == DeriveHybridKey(sha, PyBytes([1, 1]), PyBytes([1]), lengthBytes)
  {
    var one: seq<byte>, two: seq<byte> := [1], [1, 1];
    assert one + two == two + one;
  }
}
