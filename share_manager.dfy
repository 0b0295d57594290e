/**
 * Dual-channel wrapper around Shamir secret sharing: the raw shares are numbered 1..n and the
 * first half is assigned to the quantum (QKD) channel, the second half to the classical (PQC)
 * channel. The Shamir field arithmetic itself is abstract.
 */
module ShareManager {
  import opened Wrappers
  import opened Bytes

  datatype Channel = QkdChannel | PqcChannel

  /** One `(x, y)` pair as the Shamir primitives exchange it. */
  datatype RawShare = RawShare(x: int, y: seq<byte>)

  /** A share with its position `index` (1..n) and the channel it travels on. */
  datatype ShareRecord = ShareRecord(index: int, x: int, data: seq<byte>, channel: Channel)

  /** The two `ValueError`s the manager raises. */
  datatype ShareError =
    | OddShareCount(n: int)
    | InsufficientShares(needed: int, received: nat)

  /** `make_shamir_shares(secret, n=n, k=k)`: assumed to return exactly `n` shares. */
  type ShamirSplit = f: (seq<byte>, int, int) -> seq<RawShare> | forall s, n, k :: 0 <= n ==> |f(s, n, k)| == n
    witness (s: seq<byte>, n: int, k: int) => seq(if n < 0 then 0 else n, i => RawShare(i + 1, s))

  /** `reconstruct_shamir_secret(shares, k=k, out_length=out_length)`: nothing is assumed of it. */
  type ShamirCombine = (seq<RawShare>, int, int) -> seq<byte>

  /** The channel of the share at 0-based position `idx` when `half` shares go to QKD. */
  function ChannelAt(idx: int, half: int): Channel {
    if idx < half then QkdChannel else PqcChannel
  }

  /**
   * `records` is what `distribute_shares` makes of `raw` with `n` shares: one record per raw
   * share, in order, numbered from 1, `x` and `data` copied, the first `n / 2` on QKD.
   */
  ghost predicate IsDistribution(records: seq<ShareRecord>, raw: seq<RawShare>, n: int) {
    && |records| == |raw|
    && forall i :: 0 <= i < |records| ==>
         records[i] == ShareRecord(i + 1, raw[i].x, raw[i].y, ChannelAt(i, n / 2))
  }

  /** `distribute_shares(hybrid_key, n, k)`. */
  method DistributeShares(split: ShamirSplit, hybridKey: seq<byte>, n: int, k: int)
    returns (r: Result<seq<ShareRecord>, ShareError>)
    ensures r.Err? <==> n % 2 != 0
    ensures r.Err? ==> r.error == OddShareCount(n)
    ensures r.Ok? ==> IsDistribution(r.value, split(hybridKey, n, k), n)
  {
    if n % 2 != 0 {
      return Err(OddShareCount(n));
    }
    var raw := split(hybridKey, n, k);
    var half := n / 2;
    var records: seq<ShareRecord> := [];
    for idx := 0 to |raw|
      invariant |records| == idx
      invariant forall i :: 0 <= i < idx ==>
                  records[i] == ShareRecord(i + 1, raw[i].x, raw[i].y, ChannelAt(i, half))
    {
      var channel := if idx < half then QkdChannel else PqcChannel;
      records := records + [ShareRecord(idx + 1, raw[idx].x, raw[idx].y, channel)];
    }
    return Ok(records);
  }

  /** `[r for r in records if r.channel == c]`. */
  function FilterChannel(records: seq<ShareRecord>, c: Channel): (r: seq<ShareRecord>)
    ensures |r| <= |records|
    ensures forall i :: 0 <= i < |r| ==> r[i].channel == c
    ensures forall i :: 0 <= i < |records| && records[i].channel == c ==> records[i] in r
    ensures forall x :: x in r ==> x in records
  {
    if records == [] then []
    else (if records[0].channel == c then [records[0]] else []) + FilterChannel(records[1..], c)
  }

  /** The filter keeps the original order: filtering a concatenation concatenates the filtered parts. */
  lemma {:induction false} FilterAppend(a: seq<ShareRecord>, b: seq<ShareRecord>, c: Channel)
    ensures FilterChannel(a + b, c) == FilterChannel(a, c) + FilterChannel(b, c)
  {
    if a != [] {
      assert (a + b)[1..] == a[1..] + b;
      FilterAppend(a[1..], b, c);
    } else {
      assert a + b == b;
    }
  }

  /** The two channel filters partition the records: their lengths add up to the whole. */
  lemma {:induction false} FilterPartitionLength(records: seq<ShareRecord>)
    ensures |FilterChannel(records, QkdChannel)| + |FilterChannel(records, PqcChannel)| == |records|
  {
    if records != [] {
      FilterPartitionLength(records[1..]);
    }
  }

  /** A single record is kept exactly when it is on channel `c`. */
  lemma FilterSingle(x: ShareRecord, c: Channel)
    ensures FilterChannel([x], c) == if x.channel == c then [x] else []
  {
    assert [x][1..] == [];
  }

  /** A sequence whose first `m` records are QKD and the rest PQC splits at `m` under both filters. */
  lemma {:induction false} FilterSplitsAt(records: seq<ShareRecord>, m: nat)
    requires m <= |records|
    requires forall i :: 0 <= i < m ==> records[i].channel == QkdChannel
    requires forall i :: m <= i < |records| ==> records[i].channel == PqcChannel
    ensures FilterChannel(records, QkdChannel) == records[..m]
    ensures FilterChannel(records, PqcChannel) == records[m..]
  {
    if records != [] {
      var m' := if m == 0 then 0 else m - 1;
      FilterSplitsAt(records[1..], m');
      if m == 0 {
        assert records[m..] == [records[0]] + records[1..][m'..];
      } else {
        assert records[..m] == [records[0]] + records[1..][..m'];
        assert records[m..] == records[1..][m'..];
      }
    }
  }

  /**
   * With `n` raw shares (n even), the QKD records are exactly the first `n / 2` records and the
   * PQC records exactly the rest: `n / 2` per channel.
   */
  lemma ChannelPartition(records: seq<ShareRecord>, raw: seq<RawShare>, n: int)
    requires n % 2 == 0 && |raw| == n
    requires IsDistribution(records, raw, n)
    ensures FilterChannel(records, QkdChannel) == records[..n / 2]
    ensures FilterChannel(records, PqcChannel) == records[n / 2..]
    ensures |FilterChannel(records, QkdChannel)| == n / 2
    ensures |FilterChannel(records, PqcChannel)| == n / 2
  {
    assert forall i :: 0 <= i < n / 2 ==> records[i].channel == QkdChannel;
    assert forall i :: n / 2 <= i < |records| ==> records[i].channel == PqcChannel;
    FilterSplitsAt(records, n / 2);
  }

  /** The `(x, data)` pairs handed to the Shamir reconstruction. */
  function Pairs(records: seq<ShareRecord>): (shares: seq<RawShare>)
    ensures |shares| == |records|
    ensures forall i :: 0 <= i < |records| ==> shares[i] == RawShare(records[i].x, records[i].data)
  {
    seq(|records|, i requires 0 <= i < |records| => RawShare(records[i].x, records[i].data))
  }

  /** `reconstruct_from_records(records, k, out_length)`. */
  function ReconstructFromRecords(combine: ShamirCombine, records: seq<ShareRecord>, k: int, outLength: int)
    : (r: Result<seq<byte>, ShareError>)
    ensures r.Err? <==> |records| < k
    ensures r.Err? ==> r.error == InsufficientShares(k, |records|)
  {
    if |records| < k then Err(InsufficientShares(k, |records|))
    else Ok(combine(Pairs(Take(records, k)), k, outLength))
  }

  /**
   * With at least `k` records, the Shamir primitive receives exactly the first `k` pairs
   * `(x, data)`, in order, together with `k` and `out_length` unchanged.
   */
  lemma ReconstructForwardsPrefix(combine: ShamirCombine, records: seq<ShareRecord>, k: int, outLength: int,
                                  shares: seq<RawShare>)
    requires 0 <= k <= |records|
    requires |shares| == k
    requires forall i :: 0 <= i < k ==> shares[i] == RawShare(records[i].x, records[i].data)
    ensures ReconstructFromRecords(combine, records, k, outLength) == Ok(combine(shares, k, outLength))
  {
    assert Pairs(Take(records, k)) == shares;
  }

  /** Records after position `k` cannot affect the reconstructed key. */
  lemma ReconstructIgnoresTail(combine: ShamirCombine, r1: seq<ShareRecord>, r2: seq<ShareRecord>, k: int,
                               outLength: int)
    requires 0 <= k <= |r1| && k <= |r2|
    requires r1[..k] == r2[..k]
    ensures ReconstructFromRecords(combine, r1, k, outLength) == ReconstructFromRecords(combine, r2, k, outLength)
  {
    assert Take(r1, k) == r1[..k];
    assert Take(r2, k) == r2[..k];
  }

  /** The call in tests/test_hybrid_manager.py, `distribute_shares(key, n=5, k=3)`, is rejected. */
  method OddCountTest(split: ShamirSplit, hybridKey: seq<byte>) returns (r: Result<seq<ShareRecord>, ShareError>)
    ensures r == Err(OddShareCount(5))
  {
    r := DistributeShares(split, hybridKey, 5, 3);
  }
}
