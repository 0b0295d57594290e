/**
 * The share-validation step of the dashboard: which channels still contribute shares, how many
 * shares are valid, and whether the hybrid key is reconstructed from them.
 */
module Dashboard {
  import opened Wrappers
  import opened Bytes
  import opened ShareManager

  const NShares: int := 12
  const TThreshold: int := 7

  /** The QBER above which the quantum channel is treated as eavesdropped. */
  const QberBound: real := 0.11

  /** `qber > 0.11`. */
  predicate QkdCompromised(qber: real) {
    qber > QberBound
  }

  lemma CompromiseBoundary()
    ensures !QkdCompromised(0.11)
    ensures QkdCompromised(0.1101)
  {
  }

  /** The shares still eligible: the QKD ones unless that channel is compromised, then the PQC ones unless attacked. */
  function EligibleRecords(records: seq<ShareRecord>, qkdCompromised: bool, pqcAttack: bool): (valid: seq<ShareRecord>)
    ensures forall x :: x in valid <==>
              x in records && (if x.channel == QkdChannel then !qkdCompromised else !pqcAttack)
    ensures |valid| <= |records|
  {
    FilterPartitionLength(records);
    (if qkdCompromised then [] else FilterChannel(records, QkdChannel))
    + (if pqcAttack then [] else FilterChannel(records, PqcChannel))
  }

  /** The dashboard session state this step reads and writes. */
  class Session {
    var hybridKey: seq<byte>
    var records: seq<ShareRecord>
    var reconstructedKey: Option<seq<byte>>

    constructor (hybridKey: seq<byte>, records: seq<ShareRecord>)
      ensures this.hybridKey == hybridKey && this.records == records && reconstructedKey == None
    {
      this.hybridKey := hybridKey;
      this.records := records;
      reconstructedKey := None;
    }

    /**
     * Count the valid shares of each channel, collect the eligible records and reconstruct the
     * key from the first seven of them when there are at least seven.
     */
    method ValidateShares(combine: ShamirCombine, qber: real, pqcAttack: bool)
      returns (totalValid: int, validRecords: seq<ShareRecord>)
      modifies this`reconstructedKey
      ensures validRecords == EligibleRecords(records, QkdCompromised(qber), pqcAttack)
      ensures totalValid == |validRecords|
      ensures reconstructedKey.Some? <==> totalValid >= TThreshold
      ensures reconstructedKey.Some? ==>
                ReconstructFromRecords(combine, validRecords[..TThreshold], TThreshold, |hybridKey|)
                == Ok(reconstructedKey.value)
    {
      var qkdRecords := FilterChannel(records, QkdChannel);
      var pqcRecords := FilterChannel(records, PqcChannel);
      var qkdCompromised := qber > 0.11;
      var qkdValid := if qkdCompromised then 0 else |qkdRecords|;
      var pqcValid := if pqcAttack then 0 else |pqcRecords|;
      totalValid := qkdValid + pqcValid;

      validRecords := [];
      if !qkdCompromised {
        validRecords := validRecords + qkdRecords;
      }
      if !pqcAttack {
        validRecords := validRecords + pqcRecords;
      }

      if totalValid >= TThreshold {
        var selected := Take(validRecords, TThreshold);
        var result := ReconstructFromRecords(combine, selected, TThreshold, |hybridKey|);
        reconstructedKey := Some(result.value);
      } else {
        reconstructedKey := None;
      }
    }
  }

  /** Shares of a 12-share distribution that survive the given compromise flags. */
  lemma EligibleFromDistribution(records: seq<ShareRecord>, raw: seq<RawShare>, qkdCompromised: bool,
                                 pqcAttack: bool)
    requires |raw| == NShares && IsDistribution(records, raw, NShares)
    ensures |EligibleRecords(records, qkdCompromised, pqcAttack)|
            == (if qkdCompromised then 0 else 6) + (if pqcAttack then 0 else 6)
    ensures !qkdCompromised && !pqcAttack ==> EligibleRecords(records, qkdCompromised, pqcAttack) == records
  {
    ChannelPartition(records, raw, NShares);
    assert records[..6] + records[6..] == records;
  }

  /**
   * End to end: twelve shares, threshold seven. With exactly one channel down only six shares are
   * eligible, fewer than the threshold, so no key is reconstructed; with both up all twelve are.
   */
  lemma OneChannelDownNoKey(records: seq<ShareRecord>, raw: seq<RawShare>, qber: real, pqcAttack: bool)
    requires |raw| == NShares && IsDistribution(records, raw, NShares)
    ensures QkdCompromised(qber) != pqcAttack ==>
              |EligibleRecords(records, QkdCompromised(qber), pqcAttack)| == 6 < TThreshold
    ensures !QkdCompromised(qber) && !pqcAttack ==>
              |EligibleRecords(records, QkdCompromised(qber), pqcAttack)| == NShares >= TThreshold
  {
    EligibleFromDistribution(records, raw, QkdCompromised(qber), pqcAttack);
  }
}
