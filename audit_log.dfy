/**
 * The tamper-evident audit log: each entry carries the hash of its predecessor and a hash of
 * its own four content fields; appending optionally signs the entry, writes it as one more line
 * of the log file and then anchors the file's digest.
 */
module AuditLog {
  import opened Wrappers
  import opened Bytes
  import opened Json
  import opened Primitives
  import opened AuditSigner
  import opened PychainAnchor

  const TimestampKey: string := "timestamp"
  const EventTypeKey: string := "event_type"
  const DetailsKey: string := "details"
  const PrevHashKey: string := "prev_hash"
  const EntryHashKey: string := "entry_hash"

  /** The previous hash of the first entry: 64 `'0'` characters. */
  const Genesis: string := "0000000000000000000000000000000000000000000000000000000000000000"

  /** The byte `json.dumps` lines are terminated with. */
  const Newline: byte := 10

  /** `last["entry_hash"]` raises KeyError when the last entry has no such key. */
  datatype LogError = MissingEntryHash

  /** `hash_entry(entry)`: the SHA3-256 hex digest of the sorted-key serialisation. */
  function HashEntry(sha: Sha3_256Hex, dumps: SortedDumps, entry: Dict): (h: string)
    ensures |h| == 64
  {
    sha(dumps(entry))
  }

  /** `get_last_log_hash()` over the entries of the log file (a missing file has none). */
  function LastLogHash(entries: seq<Dict>): (r: Result<Json, LogError>)
    ensures entries == [] ==> r == Ok(JString(Genesis))
    ensures entries != [] ==> (r.Ok? <==> EntryHashKey in entries[|entries| - 1])
    ensures entries != [] && r.Ok? ==> r.value == entries[|entries| - 1][EntryHashKey]
  {
    if entries == [] then Ok(JString(Genesis))
    else
      var last := entries[|entries| - 1];
      if EntryHashKey in last then Ok(last[EntryHashKey]) else Err(MissingEntryHash)
  }

  /** `create_log_entry(event_type, details)` at time `timestamp` on a log holding `entries`. */
  function CreateLogEntry(sha: Sha3_256Hex, dumps: SortedDumps, entries: seq<Dict>, eventType: string,
                          details: Dict, timestamp: real): (r: Result<Dict, LogError>)
    ensures r.Err? <==> LastLogHash(entries).Err?
    ensures r.Ok? ==>
              && r.value.Keys == {TimestampKey, EventTypeKey, DetailsKey, PrevHashKey, EntryHashKey}
              && r.value[TimestampKey] == JNumber(timestamp)
              && r.value[EventTypeKey] == JString(eventType)
              && r.value[DetailsKey] == JObject(details)
              && r.value[PrevHashKey] == LastLogHash(entries).value
              && r.value[EntryHashKey] == JString(HashEntry(sha, dumps, r.value - {EntryHashKey}))
  {
    match LastLogHash(entries)
    case Err(e) => Err(e)
    case Ok(prev) =>
      var entry := map[TimestampKey := JNumber(timestamp), EventTypeKey := JString(eventType),
                       DetailsKey := JObject(details), PrevHashKey := prev];
      var created := entry[EntryHashKey := JString(HashEntry(sha, dumps, entry))];
      assert created - {EntryHashKey} == entry;
      Ok(created)
  }

  /** `entry` was made from a log holding `entries`: it links to that log's last hash. */
  ghost predicate Follows(entry: Dict, entries: seq<Dict>) {
    && PrevHashKey in entry && EntryHashKey in entry
    && LastLogHash(entries) == Ok(entry[PrevHashKey])
  }

  /** Two entries are linked when the second's `prev_hash` is the first's `entry_hash`. */
  ghost predicate Linked(earlier: Dict, later: Dict) {
    EntryHashKey in earlier && PrevHashKey in later && later[PrevHashKey] == earlier[EntryHashKey]
  }

  /** The hash chain: the first entry starts from the genesis value, every later one links to its predecessor. */
  ghost predicate Chained(entries: seq<Dict>) {
    && (entries != [] ==> PrevHashKey in entries[0] && entries[0][PrevHashKey] == JString(Genesis))
    && forall i :: 0 < i < |entries| ==> Linked(entries[i - 1], entries[i])
  }

  /** The content of the log file: one `json.dumps(entry)` line per entry, in order. */
  function FileBytes(lineDumps: LineDumps, entries: seq<Dict>): (content: seq<byte>)
    ensures |content| >= |entries|
    ensures entries != [] ==> content[|content| - 1] == Newline
  {
    if entries == [] then []
    else FileBytes(lineDumps, entries[..|entries| - 1]) + lineDumps(entries[|entries| - 1]) + [Newline]
  }

  /** Writing an entry in append mode leaves the earlier content as it was and adds one line. */
  lemma AppendExtendsFile(lineDumps: LineDumps, entries: seq<Dict>, entry: Dict)
    ensures FileBytes(lineDumps, entries + [entry]) == FileBytes(lineDumps, entries) + lineDumps(entry) + [Newline]
  {
    assert (entries + [entry])[..|entries|] == entries;
  }

  /** An entry made from the current log is one that follows it. */
  lemma CreatedFollows(sha: Sha3_256Hex, dumps: SortedDumps, entries: seq<Dict>, eventType: string, details: Dict,
                       timestamp: real)
    requires CreateLogEntry(sha, dumps, entries, eventType, details, timestamp).Ok?
    ensures Follows(CreateLogEntry(sha, dumps, entries, eventType, details, timestamp).value, entries)
  {
  }

  /** Appending an entry that follows the log keeps the chain intact. */
  lemma {:induction false} ChainExtends(entries: seq<Dict>, entry: Dict)
    requires Chained(entries) && Follows(entry, entries)
    ensures Chained(entries + [entry])
  {
    var extended := entries + [entry];
    forall i | 0 < i < |extended|
      ensures Linked(extended[i - 1], extended[i])
    {
      if i < |entries| {
        assert Linked(entries[i - 1], entries[i]);
      } else {
        assert extended[i - 1] == entries[|entries| - 1];
      }
    }
  }

  /** Signing keeps the two chain fields, so a signed entry still follows the log it was made from. */
  lemma SignedFollows(scheme: SignatureScheme, dumps: SortedDumps, entry: Dict, entries: seq<Dict>,
                      sk: seq<byte>, pk: seq<byte>)
    requires Follows(entry, entries)
    ensures Follows(SignedFields(scheme, dumps, entry, sk, pk), entries)
  {
  }

  /**
   * A created entry's `entry_hash` covers exactly `timestamp`, `event_type`, `details` and
   * `prev_hash`: not itself, and not the signature fields that signing adds later.
   */
  lemma {:induction false} EntryHashAfterSigning(sha: Sha3_256Hex, dumps: SortedDumps, entries: seq<Dict>,
                                                 eventType: string, details: Dict, timestamp: real,
                                                 scheme: SignatureScheme, sk: seq<byte>, pk: seq<byte>)
    requires CreateLogEntry(sha, dumps, entries, eventType, details, timestamp).Ok?
    ensures var created := CreateLogEntry(sha, dumps, entries, eventType, details, timestamp).value;
            var signed := SignedFields(scheme, dumps, created, sk, pk);
            signed[EntryHashKey] == JString(HashEntry(sha, dumps, signed - {EntryHashKey, SignatureKey, PublicKeyKey}))
  {
    var created := CreateLogEntry(sha, dumps, entries, eventType, details, timestamp).value;
    var signed := SignedFields(scheme, dumps, created, sk, pk);
    assert signed - {EntryHashKey, SignatureKey, PublicKeyKey} == created - {EntryHashKey};
  }

  /**
   * Two entries created before either is appended carry the same `prev_hash`; appending both
   * keeps the chain only if the first one's hash equals its own `prev_hash`.
   */
  lemma {:induction false} TwoCreatesFork(sha: Sha3_256Hex, dumps: SortedDumps, entries: seq<Dict>,
                                          type1: string, details1: Dict, t1: real,
                                          type2: string, details2: Dict, t2: real)
    requires CreateLogEntry(sha, dumps, entries, type1, details1, t1).Ok?
    ensures var e1 := CreateLogEntry(sha, dumps, entries, type1, details1, t1).value;
            var e2 := CreateLogEntry(sha, dumps, entries, type2, details2, t2).value;
            && e1[PrevHashKey] == e2[PrevHashKey]
            && (Chained(entries + [e1, e2]) ==> e1[EntryHashKey] == e1[PrevHashKey])
  {
    var e1 := CreateLogEntry(sha, dumps, entries, type1, details1, t1).value;
    var e2 := CreateLogEntry(sha, dumps, entries, type2, details2, t2).value;
    var both := entries + [e1, e2];
    if Chained(both) {
      assert Linked(both[|entries|], both[|entries| + 1]);
    }
  }

  /** Truthiness of an optional key: present and non-empty. */
  predicate Truthy(key: Option<seq<byte>>) {
    key.Some? && |key.value| > 0
  }

  /** The log file `AUDIT_LOG_FILE`: whether it exists, and the entries of its lines. */
  class AuditLogFile {
    var present: bool
    var entries: seq<Dict>

    ghost predicate Valid()
      reads this
    {
      !present ==> entries == []
    }

    constructor (present: bool, entries: seq<Dict>)
      requires !present ==> entries == []
      ensures Valid() && this.present == present && this.entries == entries
    {
      this.present := present;
      this.entries := entries;
    }

    /** What `compute_audit_hash` reads: no content when the file does not exist. */
    function Content(lineDumps: LineDumps): (c: Option<seq<byte>>)
      reads this
      requires Valid()
      ensures c.None? <==> !present
    {
      if present then Some(FileBytes(lineDumps, entries)) else None
    }

    /**
     * `append_log(entry, sk, pk)`: sign the caller's entry when both keys are truthy, append it
     * as one line, then anchor the log as it stands after the write.
     */
    method AppendLog(entry: DictObject, sk: Option<seq<byte>>, pk: Option<seq<byte>>, scheme: SignatureScheme,
                     dumps: SortedDumps, lineDumps: LineDumps, sha: Sha3_256Hex, anchor: AnchorFile,
                     latest: Option<Block>, now: real)
      requires Valid()
      modifies this, entry, anchor
      ensures Valid() && present
      ensures entry.fields == if Truthy(sk) && Truthy(pk)
                              then SignedFields(scheme, dumps, old(entry.fields), sk.value, pk.value)
                              else old(entry.fields)
      ensures entries == old(entries) + [entry.fields]
      ensures Content(lineDumps) == Some(old(FileBytes(lineDumps, entries)) + lineDumps(entry.fields) + [Newline])
      ensures anchor.record == if AnchorFor(sha, Content(lineDumps), latest, now).Some?
                               then AnchorFor(sha, Content(lineDumps), latest, now)
                               else old(anchor.record)
      ensures old(Chained(entries)) && old(Follows(entry.fields, entries)) ==> Chained(entries)
    {
      ghost var before := entries;
      ghost var original := entry.fields;
      if Truthy(sk) && Truthy(pk) {
        var _ := SignLogEntry(scheme, dumps, entry, sk.value, pk.value);
        if Follows(original, before) {
          SignedFollows(scheme, dumps, original, before, sk.value, pk.value);
        }
      }
      present := true;
      entries := entries + [entry.fields];
      AppendExtendsFile(lineDumps, before, entry.fields);
      if Chained(before) && Follows(entry.fields, before) {
        ChainExtends(before, entry.fields);
      }
      var _ := anchor.AnchorToBlockchain(sha, Some(FileBytes(lineDumps, entries)), latest, now);
    }
  }
}
