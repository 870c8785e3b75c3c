/**
 * Wallet reconciliation: drift, running-balance breaks and sequence gaps, over
 * whatever rows the ledger table happens to hold, and the batch sweep over all
 * wallets.
 */
module Reconciliation {
  import opened Common
  import opened Ledger

  /**
   * The stored rows of one wallet, by sequence number. Uniqueness of the number
   * is the index `wallet_entries_wallet_seq_unique`.
   */
  type Rows = map<nat, Entry>

  /** The check constraint `wallet_entries_seq_positive`. */
  predicate PositiveSeqs(rows: Rows) {
    0 !in rows
  }

  /** The window sum: every amount numbered at most `k`. */
  function Running(rows: Rows, k: nat): int {
    if k == 0 then 0
    else Running(rows, k - 1) + if k in rows then rows[k].amountMinor else 0
  }

  lemma MaxExists(keys: set<nat>)
    requires keys != {}
    ensures exists m :: m in keys && forall k :: k in keys ==> k <= m
  {
    var k :| k in keys;
    var rest := keys - {k};
    if rest == {} {
      assert keys == {k};
    } else {
      MaxExists(rest);
      var m :| m in rest && forall j :: j in rest ==> j <= m;
      var top := if m < k then k else m;
      assert top in keys && forall j :: j in keys ==> j in rest || j == k;
    }
  }

  /** `MAX(seq)`, zero for an empty ledger. */
  function MaxSeq(keys: set<nat>): (m: nat)
    ensures keys == {} ==> m == 0
    ensures keys != {} ==> m in keys
    ensures forall k :: k in keys ==> k <= m
  {
    if keys == {} then 0
    else
      MaxExists(keys);
      var m :| m in keys && forall k :: k in keys ==> k <= m;
      m
  }

  datatype Report = Report(drift: int, breaks: nat, gaps: int) {
    predicate Consistent() {
      drift == 0 && breaks == 0 && gaps == 0
    }
  }

  function Reconcile(rows: Rows, cachedTotal: int): Report {
    var top := MaxSeq(rows.Keys);
    Report(
      Running(rows, top) - cachedTotal,
      |set k | k in rows && rows[k].balanceAfter != Running(rows, k)|,
      top - |rows|)
  }

  // -------------------------------------------------------------------------
  // A clean report is exactly a gap-free, correctly replayed ledger
  // -------------------------------------------------------------------------

  function UpTo(n: nat): (r: set<nat>)
    ensures forall k :: k in r <==> 1 <= k <= n
    ensures |r| == n
  {
    if n == 0 then {} else UpTo(n - 1) + {n}
  }

  lemma SameSizeSubset(a: set<nat>, b: set<nat>)
    requires a <= b && |a| == |b|
    ensures a == b
  {
    assert |b - a| == |b| - |a|;
  }

  /** As many numbers as the largest of them: nothing can be missing. */
  lemma PigeonholeSeqs(keys: set<nat>)
    requires 0 !in keys
    ensures MaxSeq(keys) == |keys| <==> keys == UpTo(|keys|)
    ensures MaxSeq(keys) >= |keys|
  {
    var m := MaxSeq(keys);
    assert keys <= UpTo(m);
    assert |UpTo(m) - keys| == |UpTo(m)| - |keys|;
    if m == |keys| {
      SameSizeSubset(keys, UpTo(m));
    }
    if keys == UpTo(|keys|) && keys != {} {
      assert |keys| in UpTo(|keys|);
    }
  }

  predicate ExactLedger(rows: Rows, cachedTotal: int) {
    && rows.Keys == UpTo(|rows|)
    && (forall k :: k in rows ==> rows[k].balanceAfter == Running(rows, k))
    && cachedTotal == Running(rows, |rows|)
  }

  lemma ConsistentIsExact(rows: Rows, cachedTotal: int)
    requires PositiveSeqs(rows)
    ensures Reconcile(rows, cachedTotal).Consistent() <==> ExactLedger(rows, cachedTotal)
  {
    PigeonholeSeqs(rows.Keys);
    assert |rows.Keys| == |rows|;
    var broken := set k | k in rows && rows[k].balanceAfter != Running(rows, k);
    assert |broken| == 0 <==> broken == {};
    assert broken == {} <==> forall k :: k in rows ==> rows[k].balanceAfter == Running(rows, k) by {
      if broken == {} {
        forall k | k in rows ensures rows[k].balanceAfter == Running(rows, k) {
          assert k !in broken;
        }
      }
    }
  }

  // -------------------------------------------------------------------------
  // The ledger the service writes, and what tampering with it shows
  // -------------------------------------------------------------------------

  function RowsOf(entries: seq<Entry>): Rows {
    map k | k in UpTo(|entries|) :: entries[k - 1]
  }

  lemma RowsOfKeys(entries: seq<Entry>)
    ensures RowsOf(entries).Keys == UpTo(|entries|)
    ensures |RowsOf(entries)| == |entries|
  {
    assert RowsOf(entries).Keys == UpTo(|entries|);
    assert |RowsOf(entries)| == |RowsOf(entries).Keys|;
  }

  lemma RunningIsPrefixTotal(rows: Rows, entries: seq<Entry>, k: nat)
    requires k <= |entries|
    requires forall j :: 1 <= j <= k ==> j in rows && rows[j] == entries[j - 1]
    ensures Running(rows, k) == Total(entries[..k])
  {
    if k > 0 {
      RunningIsPrefixTotal(rows, entries, k - 1);
      assert entries[..k][..k - 1] == entries[..k - 1];
    }
  }

  predicate IsTail(deleted: set<nat>, kept: nat, size: nat) {
    kept <= size && deleted == UpTo(size) - UpTo(kept)
  }

  /** What is left below a cut is exact when the cache holds the original prefix total. */
  lemma ExactBelow(acc: Account, left: Rows, kept: nat, cached: int)
    requires Sound(acc) && kept <= |acc.entries|
    requires left.Keys == UpTo(kept) && |left| == kept
    requires forall k :: k in left ==> left[k] == acc.entries[k - 1]
    ensures ExactLedger(left, cached) <==> cached == Total(acc.entries[..kept])
  {
    hide Running, Total, KeysUnique, SignsFollowTypes, UpTo;
    RunningIsPrefixTotal(left, acc.entries, kept);
    forall k | k in left
      ensures left[k].balanceAfter == Running(left, k)
    {
      RunningIsPrefixTotal(left, acc.entries, k);
      assert acc.entries[k - 1].balanceAfter == Total(acc.entries[..k]);
    }
  }

  /** What is left is 1..kept exactly when what went is the tail above `kept`. */
  lemma TailIsPrefixKept(deleted: set<nat>, left: set<nat>, kept: nat, size: nat)
    requires deleted <= UpTo(size) && left == UpTo(size) - deleted
    ensures IsTail(deleted, kept, size) <==> kept <= size && left == UpTo(kept)
    ensures IsTail(deleted, kept, size) ==> |left| == kept
    ensures |left| <= size
  {
    if kept <= size && left == UpTo(kept) {
      assert deleted == UpTo(size) - left;
    }
    if IsTail(deleted, kept, size) {
      assert forall k :: k in left <==> k in UpTo(kept);
    }
    assert |UpTo(size) - left| == |UpTo(size)| - |left|;
  }

  /** A tail of the ledger and the balance it produced, removed together. */
  predicate TailAndBalance(acc: Account, deleted: set<nat>, cached: int, kept: nat) {
    && IsTail(deleted, kept, |acc.entries|)
    && cached == Total(acc.entries[..kept])
  }

  lemma OnlyTheTail(acc: Account, deleted: set<nat>, cached: int, left: Rows)
    requires Sound(acc) && deleted <= UpTo(|acc.entries|)
    requires left.Keys == UpTo(|acc.entries|) - deleted && |left| == |left.Keys|
    requires forall k :: k in left ==> left[k] == acc.entries[k - 1]
    ensures ExactLedger(left, cached) <==> exists kept: nat :: TailAndBalance(acc, deleted, cached, kept)
  {
    var kept := |left|;
    TailIsPrefixKept(deleted, left.Keys, kept, |acc.entries|);
    if left.Keys == UpTo(kept) {
      ExactBelow(acc, left, kept, cached);
      assert ExactLedger(left, cached) ==> TailAndBalance(acc, deleted, cached, kept);
    }
    forall other: nat | TailAndBalance(acc, deleted, cached, other)
      ensures other == kept && left.Keys == UpTo(kept)
    {
      TailIsPrefixKept(deleted, left.Keys, other, |acc.entries|);
    }
  }

  /**
   * Remove any entries and rewrite the cached balance to anything: the report
   * comes out clean in exactly one way, namely a tail removed together with the
   * balance it produced. Every other deletion is reported.
   */
  lemma DeletionDetected(acc: Account, deleted: set<nat>, cached: int)
    requires Sound(acc)
    requires deleted <= UpTo(|acc.entries|)
    ensures Reconcile(RowsOf(acc.entries) - deleted, cached).Consistent()
       <==> exists kept: nat :: TailAndBalance(acc, deleted, cached, kept)
  {
    var left := RowsOf(acc.entries) - deleted;
    RemainingKeys(acc.entries, deleted);
    OnlyTheTail(acc, deleted, cached, left);
    assert Reconcile(left, cached).Consistent() <==> ExactLedger(left, cached) by {
      ConsistentIsExact(left, cached);
    }
  }

  lemma RemainingKeys(entries: seq<Entry>, deleted: set<nat>)
    requires deleted <= UpTo(|entries|)
    ensures var left := RowsOf(entries) - deleted;
      && left.Keys == UpTo(|entries|) - deleted
      && |left| == |left.Keys|
      && PositiveSeqs(left)
      && forall k :: k in left ==> left[k] == entries[k - 1]
  {
    RowsOfKeys(entries);
    var left := RowsOf(entries) - deleted;
    assert left.Keys == UpTo(|entries|) - deleted;
    assert |left| == |left.Keys|;
  }

  /** Every account the service can produce reconciles. */
  lemma SoundReconciles(acc: Account)
    requires Sound(acc)
    ensures Reconcile(RowsOf(acc.entries), acc.available).Consistent()
  {
    hide Reconcile, Running, Replays, KeysUnique, SignsFollowTypes;
    RowsOfKeys(acc.entries);
    ConsistentIsExact(RowsOf(acc.entries), acc.available);
    ExactBelow(acc, RowsOf(acc.entries), |acc.entries|, acc.available);
    assert acc.entries[..|acc.entries|] == acc.entries;
  }

  /** On a sound ledger only a wrong cache can be reported: by how much the entries exceed it, signed. */
  lemma DriftIsTheDifference(acc: Account, cached: int)
    requires Sound(acc)
    ensures Reconcile(RowsOf(acc.entries), cached) == Report(acc.available - cached, 0, 0)
  {
    SoundReconciles(acc);
    hide Running, Sound, RowsOf, MaxSeq;
  }

  /** Over any rows at all, the gaps reported are the numbers below the highest that no row carries. */
  lemma GapsAreMissingNumbers(rows: Rows, cached: int)
    requires PositiveSeqs(rows)
    ensures Reconcile(rows, cached).gaps == |UpTo(MaxSeq(rows.Keys)) - rows.Keys|
  {
    var top := MaxSeq(rows.Keys);
    assert rows.Keys <= UpTo(top);
    assert |UpTo(top) - rows.Keys| == |UpTo(top)| - |rows.Keys|;
    assert |rows| == |rows.Keys|;
  }

  // -------------------------------------------------------------------------
  // The nightly sweep over every wallet
  // -------------------------------------------------------------------------

  /** The wallet table's identifiers in primary-key order. */
  predicate InIdOrder(ids: seq<nat>) {
    forall i, j :: 0 <= i < j < |ids| ==> ids[i] < ids[j]
  }

  /** The wallets whose own check fails, in order. */
  function Inconsistent(ids: seq<nat>, consistent: nat -> bool): seq<nat> {
    if ids == [] then []
    else
      var last := ids[|ids| - 1];
      Inconsistent(ids[..|ids| - 1], consistent) + if consistent(last) then [] else [last]
  }

  /** `WHERE id > after ORDER BY id LIMIT limit`: skip the prefix, take a page. */
  method ListWalletIds(ids: seq<nat>, limit: nat, afterId: Option<nat>)
    returns (ghost from: nat, page: seq<nat>)
    requires InIdOrder(ids)
    ensures from <= |ids|
    ensures forall i :: 0 <= i < from ==> afterId.Some? && ids[i] <= afterId.value
    ensures forall i :: from <= i < |ids| ==> (afterId.Some? ==> afterId.value < ids[i])
    ensures |page| == if |ids| - from < limit then |ids| - from else limit
    ensures page == ids[from..from + |page|]
  {
    var i := 0;
    while i < |ids| && afterId.Some? && ids[i] <= afterId.value
      invariant i <= |ids|
      invariant forall j :: 0 <= j < i ==> afterId.Some? && ids[j] <= afterId.value
    {
      i := i + 1;
    }
    from := i;
    page := [];
    while i < |ids| && |page| < limit
      invariant from <= i <= |ids| && page == ids[from..i] && |page| <= limit
    {
      page := page + [ids[i]];
      i := i + 1;
    }
  }

  /**
   * Check every wallet in id order, a batch at a time; `consistent` is the
   * verdict of each wallet's own snapshot. Every wallet is checked exactly
   * once, the inconsistent ones are reported in order, and the walk ends.
   */
  method ReconcileAllWallets(allIds: seq<nat>, consistent: nat -> bool, batchSize: nat)
    returns (walletsChecked: nat, inconsistent: seq<nat>)
    requires InIdOrder(allIds) && batchSize > 0
    ensures walletsChecked == |allIds|
    ensures inconsistent == Inconsistent(allIds, consistent)
  {
    walletsChecked, inconsistent := 0, [];
    var afterId: Option<nat> := None;
    while true
      invariant walletsChecked <= |allIds|
      invariant inconsistent == Inconsistent(allIds[..walletsChecked], consistent)
      invariant afterId == if walletsChecked == 0 then None else Some(allIds[walletsChecked - 1])
      decreases |allIds| - walletsChecked
    {
      assert 0 < walletsChecked < |allIds| ==> allIds[walletsChecked - 1] < allIds[walletsChecked];
      var from, ids := ListWalletIds(allIds, batchSize, afterId);
      assert from == walletsChecked;
      if |ids| == 0 {
        break;
      }
      for i := 0 to |ids|
        invariant walletsChecked == from + i
        invariant inconsistent == Inconsistent(allIds[..walletsChecked], consistent)
      {
        assert allIds[..walletsChecked + 1][..walletsChecked] == allIds[..walletsChecked];
        if !consistent(ids[i]) {
          inconsistent := inconsistent + [ids[i]];
        }
        walletsChecked := walletsChecked + 1;
      }
      afterId := Some(ids[|ids| - 1]);
      if |ids| < batchSize {
        break;
      }
    }
    assert allIds[..|allIds|] == allIds;
  }
}
