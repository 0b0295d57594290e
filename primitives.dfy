/**
 * The primitives the core calls but does not define: SHA3, JSON serialisation and the
 * post-quantum signature. Each is a function-typed parameter of the operations that use it;
 * the subset types below carry the only facts the model assumes about them.
 */
module Primitives {
  import opened Bytes
  import opened Json

  function Zeros(n: nat): (z: seq<byte>)
    ensures |z| == n
  {
    seq(n, i => 0)
  }

  /** `hashlib.sha3_512(m).digest()`: always 64 bytes. */
  type Sha3_512 = h: seq<byte> -> seq<byte> | forall m :: |h(m)| == 64
    witness (m: seq<byte>) => Zeros(64)

  /** `hashlib.sha3_256(m).hexdigest()`: always 64 characters. */
  type Sha3_256Hex = h: seq<byte> -> string | forall m :: |h(m)| == 64
    witness (m: seq<byte>) => seq(64, i => '0')

  /** `json.dumps(d, sort_keys=True).encode(...)`: a function of the dictionary alone. */
  type SortedDumps = Dict -> seq<byte>

  /** `json.dumps(d).encode("utf-8")`, one line of the audit log file (without its newline). */
  type LineDumps = Dict -> seq<byte>

  /**
   * `sign_message(msg, sk)` and `verify_signature(msg, sig, pk)`, with `keyPair(sk, pk)` saying
   * that `pk` is the public key belonging to `sk`.
   */
  datatype SignatureScheme = SignatureScheme(
    sign: (seq<byte>, seq<byte>) -> seq<byte>,
    verify: (seq<byte>, seq<byte>, seq<byte>) -> bool,
    keyPair: (seq<byte>, seq<byte>) -> bool)

  /** Correctness of the scheme: a signature made with `sk` verifies under its public key. */
  ghost predicate Sound(s: SignatureScheme) {
    forall m, sk, pk :: s.keyPair(sk, pk) ==> s.verify(m, s.sign(m, sk), pk)
  }
}
