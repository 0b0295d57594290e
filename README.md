# QuantaCrypt core in Dafny

A Dafny model of the key-management core of QuantaCrypt, a hybrid QKD + post-quantum file
protection tool. It covers:

- the dual-channel share wrapper around Shamir secret sharing (`ShareManager`);
- the dashboard's channel-eligibility and threshold decision (`Dashboard`);
- the hash-chained audit log (`AuditLog`);
- the post-quantum signatures on log entries with their hex encoding (`AuditSigner`, `Hex`);
- blockchain anchoring of the log digest and its verification (`PychainAnchor`);
- hybrid key fusion (`KeyFusion`);
- the hash-based KEM simulator (`KyberSimulator`).

The cryptographic primitives are not defined here. SHA3-512, SHA3-256, JSON serialisation,
the Dilithium signature and the Shamir split and reconstruction become function-typed
parameters. Their subset types (`Primitives.Sha3_512`, `Primitives.Sha3_256Hex`,
`ShareManager.ShamirSplit`) hold the only facts assumed of them: a 64-byte digest, a
64-character hex digest, and `n` shares returned for `n >= 0`. Signature correctness is the
predicate `Primitives.Sound`, required only by the lemma that uses it.

The same goes for randomness, the clock, the network and the two files. Random bytes, the
current time, the latest block and the chain's height-to-id map are inputs. The log file is
the `AuditLog.AuditLogFile` class: whether the file exists, and the entries of its lines. The
anchor file is the `PychainAnchor.AnchorFile` class holding an optional record. Python's
`s[:k]` is modelled exactly, negative `k` included (`Bytes.Take`). Python dictionaries are
`map<string, Json>`. A map has no key order, which is exactly what `sort_keys=True` gives.

Fusion is not order-sensitive for every pair of different keys. The code hashes the
concatenation `a + b`, so swapping the keys gives the same result whenever `a + b == b + a`,
for example `a = [1]` and `b = [1, 1]` (`KeyFusion.SwapCanCommute`).

## Model

| member | source | states |
|---|---|---|
| `Bytes.Take` | hybrid_key/key_fusion.py:21 | Python's `s[:k]` is always a prefix of `s`, of length `min(k, len(s))` for non-negative `k` and `max(len(s) + k, 0)` for negative `k`; the same slice is used at hybrid_key/share_manager.py:78, pqc/kyber_simulator.py:18 and 108, and app.py:162 |
| `ShareManager.DistributeShares` | hybrid_key/share_manager.py:33-57 | odd `n` is rejected (for any split); otherwise one record per raw share, in order, index `i+1`, `x`/`data` copied, positions `< n/2` on the QKD channel and the rest on PQC |
| `ShareManager.OddCountTest` | tests/test_hybrid_manager.py:28-29 | the test's call with `n=5, k=3` is rejected |
| `ShareManager.FilterChannel` | app.py:130-131 | the channel filter keeps every record of that channel, yields only records of that channel taken from the input, and never more records than given |
| `ShareManager.FilterAppend` | app.py:130-131 | filtering a concatenation is the concatenation of the filtered parts, so the original order is kept |
| `ShareManager.FilterSingle` | app.py:130-131 | a single record is kept exactly when it is on the channel |
| `ShareManager.FilterPartitionLength` | app.py:130-131 | the QKD and PQC filters together account for every record |
| `ShareManager.FilterSplitsAt` | app.py:130-131 | when the first `m` records are QKD and the rest PQC, the QKD filter is exactly the prefix and the PQC filter exactly the suffix |
| `ShareManager.ChannelPartition` | hybrid_key/share_manager.py:39-46 | a distribution of `n` shares puts exactly the first `n/2` records on QKD and the last `n/2` on PQC |
| `ShareManager.Pairs` | hybrid_key/share_manager.py:81-83 | the pairs sent to Shamir are `(x, data)` of each record, in order |
| `ShareManager.ReconstructFromRecords` | hybrid_key/share_manager.py:71-75 | fails with InsufficientShares(k, received) exactly when fewer than `k` records are given |
| `ShareManager.ReconstructForwardsPrefix` | hybrid_key/share_manager.py:78-89 | with at least `k` records, the Shamir primitive gets exactly the first `k` pairs in order, with `k` and `out_length` unchanged |
| `ShareManager.ReconstructIgnoresTail` | hybrid_key/share_manager.py:78 | records after position `k` cannot change the result |
| `Dashboard.CompromiseBoundary` | app.py:63 | QBER 0.11 is not compromised, 0.1101 is |
| `Dashboard.QkdCompromised` | app.py:63 | the QKD channel counts as compromised when the measured QBER is strictly above 0.11; `CompromiseBoundary` pins the boundary |
| `Dashboard.EligibleRecords` | app.py:155-159 | a record is eligible exactly when it is in the session and its channel is not disabled (QKD compromised, or PQC attacked), and there are never more eligible records than records |
| `Dashboard.Session.ValidateShares` | app.py:130-170 | the eligible records are the QKD records unless compromised, then the PQC records unless attacked; total valid equals their number; a key is stored iff at least 7 are eligible, reconstructed from the first 7, else None |
| `Dashboard.EligibleFromDistribution` | app.py:155-159 | of a 12-share distribution each live channel contributes 6 records, and with both live all records are eligible in their original order |
| `Dashboard.OneChannelDownNoKey` | app.py:138-170 | with exactly one channel down only 6 shares are eligible, fewer than the threshold 7; with both up all 12 are |
| `Hex.ToHex` | audit/audit_signer.py:21-22 | `hex()` gives two lower-case hex digits per byte |
| `Hex.FromHex` | audit/audit_signer.py:31-32 | `fromhex` gives at most one byte per two characters, or fails |
| `Hex.DigitValue` | audit/audit_signer.py:31-32 | a character is a hex digit in either case exactly when it has a value, which is below 16 |
| `Hex.FromHexToHex` | audit/audit_signer.py:21-32 | `fromhex(hex(b)) == b` |
| `AuditSigner.SignedFields` | audit/audit_signer.py:17-22 | signing adds exactly the keys `signature` and `public_key` and leaves every other key unchanged |
| `AuditSigner.SignLogEntry` | audit/audit_signer.py:16-24 | the caller's dictionary is updated in place, with the signature over its sorted-key serialisation from before the two keys were added, and the same object is returned |
| `AuditSigner.HexField` | audit/audit_signer.py:31-32 | a field decodes iff it is present, a string and valid hex |
| `AuditSigner.VerifyLogEntry` | audit/audit_signer.py:30-40 | fails iff either field does not decode; otherwise checks the serialisation of the entry minus exactly those two keys |
| `AuditSigner.StripUndoesSign` | audit/audit_signer.py:34-36 | stripping the two keys from a signed entry gives back the entry that was signed |
| `AuditSigner.SignedFieldsDecode` | audit/audit_signer.py:21-32 | the stored hex fields decode to the signature and the public key |
| `AuditSigner.VerifyAfterSign` | audit/audit_signer.py:17-40 | under a sound scheme and a matching key pair, verifying an entry signed from a signature-free entry returns true |
| `AuditLog.HashEntry` | audit/audit_log.py:19-21 | the entry hash is a 64-character SHA3-256 hex digest of the sorted-key serialisation |
| `AuditLog.LastLogHash` | audit/audit_log.py:27-38 | on a missing or empty log the previous hash is 64 `'0'`s; otherwise it is the last entry's `entry_hash`, and a KeyError if it has none |
| `AuditLog.CreateLogEntry` | audit/audit_log.py:44-52 | a new entry has exactly five keys, its `prev_hash` is the log's last hash, and its `entry_hash` is the hash of the entry without `entry_hash` |
| `AuditLog.CreatedFollows` | audit/audit_log.py:49 | a created entry links to the log it was created from |
| `AuditLog.ChainExtends` | audit/audit_log.py:63-64 | appending an entry that links to the log keeps the whole chain intact |
| `AuditLog.SignedFollows` | audit/audit_log.py:59-60 | signing keeps the chain fields, so a signed entry still links |
| `AuditLog.EntryHashAfterSigning` | audit/audit_log.py:45-60 | `entry_hash` covers exactly the four fields `timestamp`, `event_type`, `details` and `prev_hash`, not itself and not the signature fields |
| `AuditLog.TwoCreatesFork` | audit/audit_log.py:44-52 | two entries created before either is appended have the same `prev_hash`, and appending both keeps the chain only if the first's hash equals its own `prev_hash` |
| `AuditLog.AppendExtendsFile` | audit/audit_log.py:63-64 | appending writes one more line and leaves the earlier file content as it was |
| `AuditLog.FileBytes` | audit/audit_log.py:63-64 | the file holds at least one byte per entry and a non-empty file ends in a newline |
| `AuditLog.AuditLogFile.Content` | audit/pychain_anchor.py:21-26 | there is no log content exactly when the file does not exist |
| `AuditLog.AuditLogFile.AppendLog` | audit/audit_log.py:58-67 | the caller's entry is signed iff both keys are truthy; exactly one entry is appended at the end with the earlier ones unchanged; the anchor step sees the file including the new line; an entry that links to the log keeps the chain intact |
| `PychainAnchor.ComputeAuditHash` | audit/pychain_anchor.py:21-28 | the digest is absent iff the log file is absent, and otherwise is the 64-character hash of its content |
| `PychainAnchor.AnchorFor` | audit/pychain_anchor.py:46-72 | no record without a log digest or a fetched block; otherwise the record binds the current digest to the block's height, id, transaction count and time |
| `PychainAnchor.AnchorFile.AnchorToBlockchain` | audit/pychain_anchor.py:46-72 | the anchor file is overwritten with that record when there is one, and left as it was otherwise |
| `PychainAnchor.VerifyAnchor` | audit/pychain_anchor.py:78-111 | NO_ANCHOR iff no record; TAMPERED iff the digest differs, with expected and actual; CHAIN_MISMATCH iff the digest matches but the chain reports another id at the height; otherwise VALID echoing the record |
| `PychainAnchor.BlockIdAt` | audit/pychain_anchor.py:95-96 | the block id the chain reports at a height, none for a height it does not know |
| `PychainAnchor.TamperedIgnoresChain` | audit/pychain_anchor.py:85-96 | a TAMPERED verdict is the same whatever the chain says |
| `PychainAnchor.AnchorThenVerifyValid` | audit/pychain_anchor.py:57-111 | anchoring and then verifying with the log and the chain unchanged gives VALID |
| `PychainAnchor.ChangedLogTampered` | audit/pychain_anchor.py:85-92 | a log whose digest changed since anchoring gives TAMPERED with both digests |
| `PychainAnchor.DeletedLogTampered` | audit/pychain_anchor.py:85-92 | a log deleted since anchoring gives TAMPERED with no actual digest |
| `PychainAnchor.ReorganisedChainMismatch` | audit/pychain_anchor.py:95-103 | with the log unchanged, another id at the anchored height gives CHAIN_MISMATCH |
| `KeyFusion.DeriveHybridKey` | hybrid_key/key_fusion.py:17-21 | a TypeError iff an argument is not bytes or bytearray; otherwise a prefix of SHA3-512 of the concatenation, as long as Python's `[:length_bytes]` makes it |
| `KeyFusion.FusionLength` | hybrid_key/key_fusion.py:20-21 | for non-negative `length_bytes` the key has `min(length_bytes, 64)` bytes |
| `KeyFusion.DefaultIsFullDigest` | hybrid_key/key_fusion.py:4 | the default length 64 gives the whole digest |
| `KeyFusion.OnlyConcatenationMatters` | hybrid_key/key_fusion.py:20 | if `a + b == c + d` the two fused keys are equal |
| `KeyFusion.SwapCanCommute` | hybrid_key/key_fusion.py:20 | two different keys fuse to the same key in both orders when their concatenations agree |
| `KyberSimulator.HashKdf` | pqc/kyber_simulator.py:13-18 | the result is a prefix of the digest of the concatenated parts, with `min(length, 64)` bytes for non-negative length |
| `KyberSimulator.HashKdfStreaming` | pqc/kyber_simulator.py:13-18 | feeding the parts one `update` at a time gives the digest of their concatenation |
| `KyberSimulator.KemKeygen` | pqc/kyber_simulator.py:25-33 | with random draws of the requested lengths, `pk` has 768 bytes and `sk` 1568 |
| `KyberSimulator.KemEncapsulate` | pqc/kyber_simulator.py:40-57 | the ciphertext has 64 bytes and the sender secret 32 |
| `KyberSimulator.KemDecapsulate` | pqc/kyber_simulator.py:64-74 | the receiver secret has 32 bytes |
| `KyberSimulator.CiphertextIs64` | pqc/kyber_simulator.py:52 | the ciphertext is 64 bytes, not the 768 requested |
| `KyberSimulator.GeneratePqcSharedSecret` | pqc/kyber_simulator.py:89-110 | the returned `pk` and `ct` are the ones this call's keygen and encapsulation produced |
| `KyberSimulator.PqcBranches` | pqc/kyber_simulator.py:96-108 | equal raw secrets give `ss_sender[:key_length_bytes]`, of length `min(key_length_bytes, 32)`; otherwise success iff the normalised values agree, returning the sender's, and KemMismatch otherwise |
| `KyberSimulator.SuccessNeedsCollision` | pqc/kyber_simulator.py:96-105 | as written, a success with different raw secrets exhibits two distinct inputs whose SHA3-512 digests agree on the first `key_length_bytes` bytes |
| `KyberSimulator.GenerateWithKem` | pqc/kyber_simulator.py:89-110 | the three-branch procedure over any KEM returns that KEM's keygen `pk` and its encapsulation's `ct` |
| `KyberSimulator.SimulatorKem` | pqc/kyber_simulator.py:25-74 | the simulator's `kem_keygen`, `kem_encapsulate` and `kem_decapsulate` are one instance of that KEM |
| `KyberSimulator.ConsistentKemNeverMismatches` | pqc/kyber_simulator.py:93-108 | with a KEM whose decapsulation recovers the sender secret for every key pair its own keygen produces, the mismatch error never occurs and `K_PQC` is the sender secret's prefix |
| `KyberSimulator.PublicOf` | pqc/kyber_simulator.py:25-33 | the public key `HashKem` derives from a secret key has 64 bytes |
| `KyberSimulator.HashKem` | pqc/kyber_simulator.py:93-94 | a hash-based KEM whose public key is derived from its secret key and whose decapsulation hashes that derived key with the ciphertext |
| `KyberSimulator.HashKemConsistent` | pqc/kyber_simulator.py:93-94 | that KEM is consistent, so the corrected procedure's hypothesis can be met by a decapsulation that uses its secret key |

## Left out

- Shamir field arithmetic (`hybrid_key/secret_sharing`) is not part of this model. Split and reconstruction are parameters.
- `ShareManager.ReconstructFromRecords`: nothing is assumed of the Shamir reconstruction. So the model does not show that any `k` valid shares give back the original key.
- SHA3-256/512, `json.dumps`/`json.loads` and the Dilithium `sign_message`/`verify_signature` are not part of this model. They are parameters.
- `AuditSigner.SignLogEntry`: uses one sorted-key serialiser for signing and for hashing. The `ENCODING` constant of `utils/constants.py` is not part of this model and is taken to be UTF-8.
- `AuditLog.FileBytes`: `json.dumps(entry)` without `sort_keys` follows dictionary insertion order. The model makes the line a function of the dictionary alone, so insertion order is not modelled.
- `AuditLog.LastLogHash`: assumes `json.loads` of a written line gives back the entry that was written. The ledger keeps the entries themselves, not the text of the file.
- `PychainAnchor.ChangedLogTampered`: requires the digest to change, not just the content. An abstract hash cannot be assumed injective, so "any change to the log gives TAMPERED" holds only up to SHA3-256 collisions.
- `get_latest_block` is a network call. It is the `latest: Option<Block>` input, and its swallowed exceptions become `None`. A fetched block that lacks `height`, `id`, `tx_count` or `timestamp` makes `anchor_to_blockchain` raise `KeyError` (audit/pychain_anchor.py:60-63, outside the `try` of lines 36-40), and that error then leaves `append_log` after the line is already written (audit/audit_log.py:63-67). The model's `Block` always has the four fields, so this error path is dropped and `AppendLog` always succeeds.
- `verify_anchor` makes an unguarded `requests.get`. A network failure would raise out of it, and that is not modelled. A height the chain does not know is reported as CHAIN_MISMATCH with no actual id. Ids are taken to be already stripped.
- Reading a malformed or hand-edited anchor file is not modelled. The anchor file holds only records written by `anchor_to_blockchain`.
- `time.time()` and `secrets.token_bytes` are inputs. All `print` output is omitted.
- Text-mode newline translation of the log file is not modelled. Lines end in byte 10.
- Concurrent appends are out of scope. `AuditLog.TwoCreatesFork` states what the create/append gap allows.
- From `app.py`, the model covers lines 19-20, 63 and 130-170. The Streamlit UI, file upload, encryption and decryption are out of scope, as is the session setup of lines 104-126. `Dashboard.Session` starts from given records, and the lemmas assume they come from a distribution.
- `qkd.qkd_simulator.generate_qkd_key` is not part of this model. `qber` and the QKD key are inputs.
- `Dashboard.QkdCompromised`: `qber` is the measured error ratio as an exact real, compared with exactly 0.11. Python compares a float with the double nearest 0.11, which lies slightly above 0.11; floating-point rounding is not modelled.
- `KyberSimulator.HashKem`: a consistent KEM built only to show that `Consistent` can be met; it carries the seed in the clear and claims no security.
- `hybrid_key.key_rotation`, `pqc/kyber_module.py`, `key_exchange/*` and `cli/*` are out of scope: wrappers over external libraries, a duplicate of fusion, or argparse and file I/O.
- Exceptions raised inside the abstract primitives are not modelled, for example a Shamir split refusing `k > n`.
- There is no whole-ledger `verify()` in the code. `AuditLog.Chained` is a specification predicate only.

## Findings

| source | as written | input that shows it | evidently intended | confidence | as-written member | corrected member |
|---|---|---|---|---|---|---|
| pqc/kyber_simulator.py:96-105 | the sender secret is `H(r‖pk‖ct)[:32]` and the receiver secret `H(ct‖sk‖pk)[:32]`; when they differ, both are normalised with `hash_kdf(ss, ct, pk)`, and the two normalised values can agree only through a SHA3-512 prefix collision, so the function raises `ValueError` | `key_length_bytes=32`, the call `app.py` makes, with any draws where the two 32-byte secrets differ, which is all but a negligible fraction of them | decapsulation with the secret key that keygen paired with `pk` recovers the sender's secret, so `K_PQC` is returned and the mismatch error is unreachable; `HashKemConsistent` shows such a KEM exists | high; not executed | `KyberSimulator.SuccessNeedsCollision` | `KyberSimulator.ConsistentKemNeverMismatches` |
