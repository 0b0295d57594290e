/**
 * Post-quantum signatures on audit entries: signing adds the hex-encoded signature and public
 * key to the entry; verifying strips exactly those two keys again and checks the rest.
 */
module AuditSigner {
  import opened Wrappers
  import opened Bytes
  import opened Hex
  import opened Json
  import opened Primitives

  const SignatureKey: string := "signature"
  const PublicKeyKey: string := "public_key"

  /** The ways `verify_log_entry` raises instead of returning a verdict. */
  datatype VerifyError =
    | MissingKey(key: string)      // KeyError
    | NotAString(key: string)      // TypeError from bytes.fromhex
    | BadHex(key: string)          // ValueError from bytes.fromhex

  /** The caller's entry after `sign_log_entry(entry, sk, pk)`. */
  function SignedFields(scheme: SignatureScheme, dumps: SortedDumps, entry: Dict, sk: seq<byte>, pk: seq<byte>)
    : (signed: Dict)
    ensures signed.Keys == entry.Keys + {SignatureKey, PublicKeyKey}
    ensures forall key :: key in entry && key != SignatureKey && key != PublicKeyKey ==> signed[key] == entry[key]
  {
    entry[SignatureKey := JString(ToHex(scheme.sign(dumps(entry), sk)))][PublicKeyKey := JString(ToHex(pk))]
  }

  /** `sign_log_entry(entry, sk, pk)`: updates `entry` in place and returns it. */
  method SignLogEntry(scheme: SignatureScheme, dumps: SortedDumps, entry: DictObject, sk: seq<byte>, pk: seq<byte>)
    returns (same: DictObject)
    modifies entry
    ensures same == entry
    ensures entry.fields == SignedFields(scheme, dumps, old(entry.fields), sk, pk)
  {
    var entryBytes := dumps(entry.fields);
    var sig := scheme.sign(entryBytes, sk);
    entry.fields := entry.fields[SignatureKey := JString(ToHex(sig))];
    entry.fields := entry.fields[PublicKeyKey := JString(ToHex(pk))];
    return entry;
  }

  /** `bytes.fromhex(entry[key])`. */
  function HexField(entry: Dict, key: string): (r: Result<seq<byte>, VerifyError>)
    ensures r.Ok? <==> key in entry && entry[key].JString? && FromHex(entry[key].s).Some?
    ensures r.Ok? ==> Some(r.value) == FromHex(entry[key].s)
  {
    if key !in entry then Err(MissingKey(key))
    else if !entry[key].JString? then Err(NotAString(key))
    else match FromHex(entry[key].s)
      case None => Err(BadHex(key))
      case Some(b) => Ok(b)
  }

  /** `verify_log_entry(entry)`: the entry itself is a value and is never changed. */
  function VerifyLogEntry(scheme: SignatureScheme, dumps: SortedDumps, entry: Dict): (r: Result<bool, VerifyError>)
    ensures r.Ok? <==> HexField(entry, SignatureKey).Ok? && HexField(entry, PublicKeyKey).Ok?
    ensures r.Ok? ==> r.value == scheme.verify(dumps(entry - {SignatureKey, PublicKeyKey}),
                                               HexField(entry, SignatureKey).value,
                                               HexField(entry, PublicKeyKey).value)
  {
    match HexField(entry, SignatureKey)
    case Err(e) => Err(e)
    case Ok(sig) =>
      match HexField(entry, PublicKeyKey)
      case Err(e) => Err(e)
      case Ok(pk) =>
        var copy := entry - {SignatureKey, PublicKeyKey};
        Ok(scheme.verify(dumps(copy), sig, pk))
  }

  /** Stripping the two keys from a signed entry gives back exactly the entry that was signed. */
  lemma StripUndoesSign(scheme: SignatureScheme, dumps: SortedDumps, entry: Dict, sk: seq<byte>, pk: seq<byte>)
    requires SignatureKey !in entry && PublicKeyKey !in entry
    ensures SignedFields(scheme, dumps, entry, sk, pk) - {SignatureKey, PublicKeyKey} == entry
  {
    var stripped := SignedFields(scheme, dumps, entry, sk, pk) - {SignatureKey, PublicKeyKey};
    assert stripped.Keys == entry.Keys;
  }

  /** The stored signature and public key decode to the bytes that were encoded. */
  lemma SignedFieldsDecode(scheme: SignatureScheme, dumps: SortedDumps, entry: Dict, sk: seq<byte>, pk: seq<byte>)
    ensures HexField(SignedFields(scheme, dumps, entry, sk, pk), SignatureKey) == Ok(scheme.sign(dumps(entry), sk))
    ensures HexField(SignedFields(scheme, dumps, entry, sk, pk), PublicKeyKey) == Ok(pk)
  {
    FromHexToHex(scheme.sign(dumps(entry), sk));
    FromHexToHex(pk);
  }

  /**
   * Verify after sign: for an entry without the two keys, verification recomputes exactly the
   * signed bytes, so a sound scheme with a matching key pair accepts it.
   */
  lemma VerifyAfterSign(scheme: SignatureScheme, dumps: SortedDumps, entry: Dict, sk: seq<byte>, pk: seq<byte>)
    requires Sound(scheme) && scheme.keyPair(sk, pk)
    requires SignatureKey !in entry && PublicKeyKey !in entry
    ensures VerifyLogEntry(scheme, dumps, SignedFields(scheme, dumps, entry, sk, pk)) == Ok(true)
  {
    SignedFieldsDecode(scheme, dumps, entry, sk, pk);
    StripUndoesSign(scheme, dumps, entry, sk, pk);
  }
}
