/**
 * Anchoring the audit log to an external block chain: the digest of the log file is bound to
 * the latest block, and later checked against the log and the chain again.
 */
module PychainAnchor {
  import opened Wrappers
  import opened Bytes
  import opened Primitives

  /** The fields of the latest block that the anchor keeps. */
  datatype Block = Block(height: int, id: string, txCount: int, timestamp: int)

  /** The content of the anchor file. */
  datatype AnchorRecord = AnchorRecord(
    timestamp: real,
    auditLogHash: string,
    blockHeight: int,
    blockHash: string,
    txCount: int,
    time: int)

  /** The `status` of `verify_anchor` with the fields reported beside it. */
  datatype AnchorStatus =
    | NoAnchor
    | Tampered(expected: string, actual: Option<string>)
    | ChainMismatch(expected: string, actual: Option<string>)
    | Valid(blockHeight: int, blockHash: string, auditHash: string, timestamp: real)

  /** `compute_audit_hash()`: no digest exactly when the log file does not exist. */
  function ComputeAuditHash(sha: Sha3_256Hex, log: Option<seq<byte>>): (d: Option<string>)
    ensures d.None? <==> log.None?
    ensures d.Some? ==> d.value == sha(log.value) && |d.value| == 64
  {
    match log
    case None => None
    case Some(content) => Some(sha(content))
  }

  /** The id the chain reports at `height`; None where it knows no such block. */
  function BlockIdAt(chain: map<int, string>, height: int): Option<string> {
    if height in chain then Some(chain[height]) else None
  }

  /**
   * The record `anchor_to_blockchain()` writes: none without a log or without a block, otherwise
   * the current digest bound to the fetched block's height and id.
   */
  function AnchorFor(sha: Sha3_256Hex, log: Option<seq<byte>>, latest: Option<Block>, now: real)
    : (a: Option<AnchorRecord>)
    ensures a.Some? <==> log.Some? && latest.Some?
    ensures a.Some? ==>
              && Some(a.value.auditLogHash) == ComputeAuditHash(sha, log)
              && a.value.blockHeight == latest.value.height
              && a.value.blockHash == latest.value.id
              && a.value.txCount == latest.value.txCount
              && a.value.time == latest.value.timestamp
              && a.value.timestamp == now
  {
    match ComputeAuditHash(sha, log)
    case None => None
    case Some(logHash) =>
      match latest
      case None => None
      case Some(blk) => Some(AnchorRecord(now, logHash, blk.height, blk.id, blk.txCount, blk.timestamp))
  }

  /** The anchor file: absent until the first successful anchoring, overwritten by each later one. */
  class AnchorFile {
    var record: Option<AnchorRecord>

    constructor ()
      ensures record == None
    {
      record := None;
    }

    /** `anchor_to_blockchain()`, with the log content, the fetched block and the clock as inputs. */
    method AnchorToBlockchain(sha: Sha3_256Hex, log: Option<seq<byte>>, latest: Option<Block>, now: real)
      returns (written: Option<AnchorRecord>)
      modifies this
      ensures written == AnchorFor(sha, log, latest, now)
      ensures record == if written.Some? then written else old(record)
    {
      var logHash := ComputeAuditHash(sha, log);
      if logHash.None? {
        return None;
      }
      if latest.None? {
        return None;
      }
      var blk := latest.value;
      var anchorData := AnchorRecord(now, logHash.value, blk.height, blk.id, blk.txCount, blk.timestamp);
      record := Some(anchorData);
      return Some(anchorData);
    }
  }

  /** `verify_anchor()`, with the anchor file, the log content and the chain as inputs. */
  function VerifyAnchor(sha: Sha3_256Hex, anchor: Option<AnchorRecord>, log: Option<seq<byte>>,
                        chain: map<int, string>): (status: AnchorStatus)
    ensures status.NoAnchor? <==> anchor.None?
    ensures status.Tampered? <==> anchor.Some? && ComputeAuditHash(sha, log) != Some(anchor.value.auditLogHash)
    ensures status.Tampered? ==>
              status == Tampered(anchor.value.auditLogHash, ComputeAuditHash(sha, log))
    ensures status.ChainMismatch? <==>
              && anchor.Some? && ComputeAuditHash(sha, log) == Some(anchor.value.auditLogHash)
              && BlockIdAt(chain, anchor.value.blockHeight) != Some(anchor.value.blockHash)
    ensures status.ChainMismatch? ==>
              status == ChainMismatch(anchor.value.blockHash, BlockIdAt(chain, anchor.value.blockHeight))
    ensures status.Valid? ==>
              status == Valid(anchor.value.blockHeight, anchor.value.blockHash, anchor.value.auditLogHash,
                              anchor.value.timestamp)
  {
    match anchor
    case None => NoAnchor
    case Some(a) =>
      var currentHash := ComputeAuditHash(sha, log);
      if currentHash != Some(a.auditLogHash) then
        Tampered(a.auditLogHash, currentHash)
      else
        var blkHashNow := BlockIdAt(chain, a.blockHeight);
        if blkHashNow != Some(a.blockHash) then
          ChainMismatch(a.blockHash, blkHashNow)
        else
          Valid(a.blockHeight, a.blockHash, a.auditLogHash, a.timestamp)
  }

  /** A tampering verdict is reached before the chain is consulted: it is the same for every chain. */
  lemma TamperedIgnoresChain(sha: Sha3_256Hex, anchor: Option<AnchorRecord>, log: Option<seq<byte>>,
                             c1: map<int, string>, c2: map<int, string>)
    requires VerifyAnchor(sha, anchor, log, c1).Tampered?
    ensures VerifyAnchor(sha, anchor, log, c2) == VerifyAnchor(sha, anchor, log, c1)
  {
  }

  /** Anchoring, then verifying with the log and the chain unchanged, gives VALID. */
  lemma AnchorThenVerifyValid(sha: Sha3_256Hex, content: seq<byte>, blk: Block, now: real, chain: map<int, string>)
    requires BlockIdAt(chain, blk.height) == Some(blk.id)
    ensures VerifyAnchor(sha, AnchorFor(sha, Some(content), Some(blk), now), Some(content), chain)
            == Valid(blk.height, blk.id, sha(content), now)
  {
  }

  /** A log whose digest changed since anchoring is reported TAMPERED, whatever the chain says. */
  lemma ChangedLogTampered(sha: Sha3_256Hex, content: seq<byte>, changed: seq<byte>, blk: Block, now: real,
                           chain: map<int, string>)
    requires sha(changed) != sha(content)
    ensures VerifyAnchor(sha, AnchorFor(sha, Some(content), Some(blk), now), Some(changed), chain)
            == Tampered(sha(content), Some(sha(changed)))
  {
  }

  /** A log deleted since anchoring is reported TAMPERED with no actual digest. */
  lemma DeletedLogTampered(sha: Sha3_256Hex, content: seq<byte>, blk: Block, now: real, chain: map<int, string>)
    ensures VerifyAnchor(sha, AnchorFor(sha, Some(content), Some(blk), now), None, chain)
            == Tampered(sha(content), None)
  {
  }

  /** With the log untouched, a chain that reports another id at the anchored height gives CHAIN_MISMATCH. */
  lemma ReorganisedChainMismatch(sha: Sha3_256Hex, content: seq<byte>, blk: Block, now: real,
                                 chain: map<int, string>)
    requires BlockIdAt(chain, blk.height) != Some(blk.id)
    ensures VerifyAnchor(sha, AnchorFor(sha, Some(content), Some(blk), now), Some(content), chain)
            == ChainMismatch(blk.id, BlockIdAt(chain, blk.height))
  {
  }
}
