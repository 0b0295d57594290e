/**
 * The hash-based stand-in for a Kyber KEM: keys are random bytes, the ciphertext and both
 * shared secrets are truncated SHA3-512 digests. Randomness is an input.
 */
module KyberSimulator {
  import opened Wrappers
  import opened Bytes
  import opened Primitives

  const PkLength: nat := 768
  const SkLength: nat := 1568
  const SeedLength: nat := 32
  /** The ciphertext length asked of `hash_kdf`, more than SHA3-512 can give. */
  const CtRequested: int := 768
  const SharedSecretLength: int := 32

  /** `hash_kdf(*parts, length=length)`: the digest of the parts fed in order, cut to `length`. */
  function HashKdf(sha: Sha3_512, parts: seq<seq<byte>>, length: int): (r: seq<byte>)
    ensures |r| == TakeLength(64, length)
    ensures r == sha(Concat(parts))[..|r|]
  {
    Take(sha(Concat(parts)), length)
  }

  /** `hash_kdf` step by step: one `h.update(p)` per part, then `digest()[:length]`. */
  method HashKdfStreaming(sha: Sha3_512, parts: seq<seq<byte>>, length: int) returns (r: seq<byte>)
    ensures r == HashKdf(sha, parts, length)
  {
    var fed: seq<byte> := [];
    for i := 0 to |parts|
      invariant fed == Concat(parts[..i])
    {
      assert parts[..i + 1][..i] == parts[..i];
      fed := fed + parts[i];
    }
    assert parts[..|parts|] == parts;
    r := Take(sha(fed), length);
  }

  /** The three `random_bytes` draws of one run: public key, secret key, encapsulation seed. */
  datatype Coins = Coins(pkDraw: seq<byte>, skDraw: seq<byte>, seed: seq<byte>)

  /** `secrets.token_bytes(n)` returns `n` bytes. */
  predicate WellSized(coins: Coins) {
    |coins.pkDraw| == PkLength && |coins.skDraw| == SkLength && |coins.seed| == SeedLength
  }

  datatype KeyPair = KeyPair(pk: seq<byte>, sk: seq<byte>)

  /** `kem_keygen()`. */
  function KemKeygen(coins: Coins): (keys: KeyPair)
    ensures WellSized(coins) ==> |keys.pk| == 768 && |keys.sk| == 1568
  {
    KeyPair(coins.pkDraw, coins.skDraw)
  }

  datatype Encapsulation = Encapsulation(ct: seq<byte>, ssA: seq<byte>)

  /** `kem_encapsulate(pk)` with seed `r`. */
  function KemEncapsulate(sha: Sha3_512, pk: seq<byte>, r: seq<byte>): (e: Encapsulation)
    ensures |e.ct| == 64 && |e.ssA| == 32
  {
    var ct := HashKdf(sha, [pk, r], CtRequested);
    var ssA := HashKdf(sha, [r, pk, ct], SharedSecretLength);
    Encapsulation(ct, ssA)
  }

  /** `kem_decapsulate(ct, sk, pk)`. */
  function KemDecapsulate(sha: Sha3_512, ct: seq<byte>, sk: seq<byte>, pk: seq<byte>): (ssB: seq<byte>)
    ensures |ssB| == 32
  {
    HashKdf(sha, [ct, sk, pk], SharedSecretLength)
  }

  /** The ciphertext is 64 bytes, not the 768 asked for. */
  lemma CiphertextIs64(sha: Sha3_512, pk: seq<byte>, r: seq<byte>)
    ensures |KemEncapsulate(sha, pk, r).ct| == 64 != CtRequested
  {
  }

  datatype KemError = KemMismatch

  datatype PqcSecret = PqcSecret(kPqc: seq<byte>, pk: seq<byte>, ct: seq<byte>)

  /** `generate_pqc_shared_secret(key_length_bytes)` as written: the procedure over the simulator's KEM. */
  function GeneratePqcSharedSecret(sha: Sha3_512, coins: Coins, keyLength: int): (r: Result<PqcSecret, KemError>)
    ensures r.Ok? ==> r.value.pk == KemKeygen(coins).pk
    ensures r.Ok? ==> r.value.ct == KemEncapsulate(sha, KemKeygen(coins).pk, coins.seed).ct
  {
    GenerateWithKem(sha, SimulatorKem(sha), coins, keyLength)
  }

  /**
   * The three branches of `generate_pqc_shared_secret`: equal raw secrets give their prefix
   * (at most 32 bytes); different ones are normalised, and the sender's normalised value is
   * returned when both agree, KemMismatch otherwise.
   */
  lemma {:induction false} PqcBranches(sha: Sha3_512, coins: Coins, keyLength: int)
    ensures var keys := KemKeygen(coins);
            var enc := KemEncapsulate(sha, keys.pk, coins.seed);
            var ssB := KemDecapsulate(sha, enc.ct, keys.sk, keys.pk);
            var r := GeneratePqcSharedSecret(sha, coins, keyLength);
            && (enc.ssA == ssB ==>
                  && r == Ok(PqcSecret(enc.ssA[..TakeLength(32, keyLength)], keys.pk, enc.ct))
                  && |r.value.kPqc| == TakeLength(32, keyLength))
            && (enc.ssA != ssB ==>
                  var n1 := HashKdf(sha, [enc.ssA, enc.ct, keys.pk], keyLength);
                  var n2 := HashKdf(sha, [ssB, enc.ct, keys.pk], keyLength);
                  && (r.Ok? <==> n1 == n2)
                  && (r.Ok? ==> r.value.kPqc == n1 && |r.value.kPqc| == TakeLength(64, keyLength)))
  {
  }

  /**
   * As written, different raw secrets end in KemMismatch unless SHA3-512 maps the two distinct
   * normalisation inputs `ssA + ct + pk` and `ssB + ct + pk` to digests that agree on the first
   * `key_length_bytes` bytes: a success there exhibits a truncated-digest collision.
   */
  lemma {:induction false} SuccessNeedsCollision(sha: Sha3_512, coins: Coins, keyLength: int)
    requires var keys := KemKeygen(coins);
             var enc := KemEncapsulate(sha, keys.pk, coins.seed);
             enc.ssA != KemDecapsulate(sha, enc.ct, keys.sk, keys.pk)
    requires GeneratePqcSharedSecret(sha, coins, keyLength).Ok?
    ensures var keys := KemKeygen(coins);
            var enc := KemEncapsulate(sha, keys.pk, coins.seed);
            var m1 := enc.ssA + enc.ct + keys.pk;
            var m2 := KemDecapsulate(sha, enc.ct, keys.sk, keys.pk) + enc.ct + keys.pk;
            && m1 != m2
            && sha(m1)[..TakeLength(64, keyLength)] == sha(m2)[..TakeLength(64, keyLength)]
  {
    var keys := KemKeygen(coins);
    var enc := KemEncapsulate(sha, keys.pk, coins.seed);
    var ssB := KemDecapsulate(sha, enc.ct, keys.sk, keys.pk);
    var m1 := enc.ssA + enc.ct + keys.pk;
    var m2 := ssB + enc.ct + keys.pk;
    PqcBranches(sha, coins, keyLength);
    Concat3(enc.ssA, enc.ct, keys.pk);
    Concat3(ssB, enc.ct, keys.pk);
    assert m1[..32] == enc.ssA;
    assert m2[..32] == ssB;
  }

  /**
   * A KEM as `generate_pqc_shared_secret` uses it: key generation from the random draws,
   * encapsulation under a public key with a seed, and decapsulation with the key pair.
   */
  datatype Kem = Kem(
    keygen: Coins -> KeyPair,
    encapsulate: (seq<byte>, seq<byte>) -> Encapsulation,
    decapsulate: (seq<byte>, seq<byte>, seq<byte>) -> seq<byte>)

  /**
   * The behaviour the simulator is meant to have: for every key pair the KEM's own key
   * generation produces, decapsulating with its secret key recovers the sender's secret.
   */
  ghost predicate Consistent(kem: Kem) {
    forall coins, r ::
      var keys := kem.keygen(coins);
      var enc := kem.encapsulate(keys.pk, r);
      kem.decapsulate(enc.ct, keys.sk, keys.pk) == enc.ssA
  }

  /**
   * `generate_pqc_shared_secret` over any KEM: keygen, encapsulation, decapsulation, then the
   * three branches (equal secrets are cut to `key_length_bytes`, different ones are normalised
   * with `hash_kdf(ss, ct, pk)` and must agree).
   */
  function GenerateWithKem(sha: Sha3_512, kem: Kem, coins: Coins, keyLength: int): (r: Result<PqcSecret, KemError>)
    ensures r.Ok? ==> r.value.pk == kem.keygen(coins).pk
    ensures r.Ok? ==> r.value.ct == kem.encapsulate(kem.keygen(coins).pk, coins.seed).ct
  {
    var keys := kem.keygen(coins);
    var enc := kem.encapsulate(keys.pk, coins.seed);
    var ssReceiver := kem.decapsulate(enc.ct, keys.sk, keys.pk);
    if enc.ssA != ssReceiver then
      var finalSender := HashKdf(sha, [enc.ssA, enc.ct, keys.pk], keyLength);
      var finalReceiver := HashKdf(sha, [ssReceiver, enc.ct, keys.pk], keyLength);
      if finalSender != finalReceiver then Err(KemMismatch)
      else Ok(PqcSecret(finalSender, keys.pk, enc.ct))
    else
      Ok(PqcSecret(Take(enc.ssA, keyLength), keys.pk, enc.ct))
  }

  /** The simulator's `kem_keygen`, `kem_encapsulate` and `kem_decapsulate` as a KEM. */
  function SimulatorKem(sha: Sha3_512): (kem: Kem)
    ensures forall coins :: kem.keygen(coins) == KemKeygen(coins)
    ensures forall pk, r :: kem.encapsulate(pk, r) == KemEncapsulate(sha, pk, r)
    ensures forall ct, sk, pk :: kem.decapsulate(ct, sk, pk) == KemDecapsulate(sha, ct, sk, pk)
  {
    Kem((coins: Coins) => KemKeygen(coins), (pk, r) => KemEncapsulate(sha, pk, r), (ct, sk, pk) => KemDecapsulate(sha, ct, sk, pk))
  }

  /** With a consistent KEM the mismatch error cannot happen: K_PQC is the sender secret's prefix. */
  lemma ConsistentKemNeverMismatches(sha: Sha3_512, kem: Kem, coins: Coins, keyLength: int)
    requires Consistent(kem)
    ensures var keys := kem.keygen(coins);
            var enc := kem.encapsulate(keys.pk, coins.seed);
            GenerateWithKem(sha, kem, coins, keyLength) == Ok(PqcSecret(Take(enc.ssA, keyLength), keys.pk, enc.ct))
  {
  }

  /** The public key of a secret key in `HashKem`: its SHA3-512 digest. */
  function PublicOf(sha: Sha3_512, sk: seq<byte>): (pk: seq<byte>)
    ensures |pk| == 64
  {
    HashKdf(sha, [sk], 64)
  }

  /**
   * A hash-based KEM that is consistent, built from the same primitives: the public key is
   * derived from the secret key, the ciphertext carries the seed, and both sides hash the public
   * key with the seed. It hides nothing; it shows that `Consistent` is met by a KEM whose
   * decapsulation uses its secret key and whose keygen pairs the keys.
   */
  function HashKem(sha: Sha3_512): (kem: Kem)
    ensures forall coins :: kem.keygen(coins).pk == PublicOf(sha, kem.keygen(coins).sk)
    ensures forall ct, sk, pk :: kem.decapsulate(ct, sk, pk) == HashKdf(sha, [PublicOf(sha, sk), ct], SharedSecretLength)
  {
    Kem(
      (coins: Coins) => KeyPair(PublicOf(sha, coins.skDraw), coins.skDraw),
      (pk, r) => Encapsulation(r, HashKdf(sha, [pk, r], SharedSecretLength)),
      (ct, sk, pk) => HashKdf(sha, [PublicOf(sha, sk), ct], SharedSecretLength))
  }

  /** `HashKem` is consistent, so the corrected procedure has an instance. */
  lemma {:induction false} HashKemConsistent(sha: Sha3_512)
    ensures Consistent(HashKem(sha))
  {
    var kem := HashKem(sha);
    forall coins, r
      ensures var keys := kem.keygen(coins);
              var enc := kem.encapsulate(keys.pk, r);
              kem.decapsulate(enc.ct, keys.sk, keys.pk) == enc.ssA
    {
      var keys := kem.keygen(coins);
      assert keys.pk == PublicOf(sha, keys.sk);
    }
  }
}
