/** Wallet history, newest first, walked page by page while the ledger keeps growing. */
module History {
  import opened Common
  import opened Ledger

  /** Entries are numbered from one, in order: what every sound ledger satisfies. */
  predicate Numbered(entries: seq<Entry>) {
    forall i :: 0 <= i < |entries| ==> entries[i].seqNo == i + 1
  }

  /** `WHERE seq < before ORDER BY seq DESC LIMIT limit`. */
  function ListEntries(entries: seq<Entry>, limit: nat, before: Option<int>): seq<Entry>
    decreases |entries|
  {
    if entries == [] || limit == 0 then []
    else
      var front, last := entries[..|entries| - 1], entries[|entries| - 1];
      if before.Some? && last.seqNo >= before.value then ListEntries(front, limit, before)
      else [last] + ListEntries(front, limit - 1, before)
  }

  datatype Page = Page(entries: seq<Entry>, nextSeq: Option<int>)

  /** One page: a row too many is asked for, to tell whether another page follows. */
  function GetTransactions(entries: seq<Entry>, limit: nat, beforeSeq: Option<int>): Page {
    var rows := ListEntries(entries, limit + 1, beforeSeq);
    var page := if |rows| > limit then rows[..limit] else rows;
    Page(page, if |rows| > limit && page != [] then Some(page[|page| - 1].seqNo) else None)
  }

  function NewestFirst(entries: seq<Entry>): seq<Entry> {
    if entries == [] then [] else [entries[|entries| - 1]] + NewestFirst(entries[..|entries| - 1])
  }

  lemma {:induction false} NewestFirstAt(entries: seq<Entry>)
    ensures |NewestFirst(entries)| == |entries|
    ensures forall i :: 0 <= i < |entries| ==> NewestFirst(entries)[i] == entries[|entries| - 1 - i]
    decreases |entries|
  {
    if entries != [] {
      NewestFirstAt(entries[..|entries| - 1]);
    }
  }

  lemma Regroup<T>(a: seq<T>, b: seq<T>, c: seq<T>)
    ensures a + (b + c) == a + b + c
  {
  }

  lemma DropLastOfSum<T>(a: seq<T>, b: seq<T>)
    requires b != []
    ensures (a + b)[|a + b| - 1] == b[|b| - 1]
    ensures (a + b)[..|a + b| - 1] == a + b[..|b| - 1]
  {
  }

  lemma Rejoin<T>(s: seq<T>, k: nat)
    requires k <= |s|
    ensures s[..k] + s[k..] == s
  {
  }

  lemma {:induction false} NewestFirstConcat(older: seq<Entry>, newer: seq<Entry>)
    ensures NewestFirst(older + newer) == NewestFirst(newer) + NewestFirst(older)
    decreases |newer|
  {
    if newer == [] {
      assert older + newer == older;
    } else {
      var front, last := newer[..|newer| - 1], newer[|newer| - 1];
      NewestFirstConcat(older, front);
      DropLastOfSum(older, newer);
      assert NewestFirst(newer) == [last] + NewestFirst(front);
      assert NewestFirst(older + newer) == [last] + NewestFirst(older + front);
      hide NewestFirst;
      Regroup([last], NewestFirst(front), NewestFirst(older));
    }
  }

  lemma NewestFirstSplit(entries: seq<Entry>, lo: nat)
    requires lo <= |entries|
    ensures NewestFirst(entries) == NewestFirst(entries[lo..]) + NewestFirst(entries[..lo])
  {
    hide NewestFirst;
    NewestFirstConcat(entries[..lo], entries[lo..]);
    Rejoin(entries, lo);
  }

  /** How many of the entries numbered below `before` precede the last `limit` of them. */
  function From(below: nat, limit: nat): nat {
    if below <= limit then 0 else below - limit
  }

  lemma SliceOfPrefix<T>(s: seq<T>, n: nat, lo: nat, hi: nat)
    requires lo <= hi <= n <= |s|
    ensures s[..n][lo..hi] == s[lo..hi]
  {
  }

  lemma DropLastOfSlice<T>(s: seq<T>, lo: nat, n: nat)
    requires lo <= n < |s|
    ensures s[lo..n + 1][..n - lo] == s[lo..n]
  {
  }

  lemma RunStep(entries: seq<Entry>, lo: nat, n: nat)
    requires lo <= n < |entries|
    ensures NewestFirst(entries[lo..n + 1]) == [entries[n]] + NewestFirst(entries[..n][lo..n])
  {
    var run := entries[lo..n + 1];
    assert run[|run| - 1] == entries[n];
    SliceOfPrefix(entries, n, lo, n);
    DropLastOfSlice(entries, lo, n);
  }

  lemma {:induction false} ListIs(entries: seq<Entry>, limit: nat, before: Option<int>, below: nat)
    requires Numbered(entries) && below <= |entries|
    requires before.None? || before.value >= below + 1
    requires below < |entries| ==> before == Some(below + 1)
    ensures ListEntries(entries, limit, before) == NewestFirst(entries[From(below, limit)..below])
    decreases |entries|, limit
  {
    hide NewestFirst;
    if entries == [] || limit == 0 {
      assert entries[From(below, limit)..below] == [];
      NewestFirstAt(entries[From(below, limit)..below]);
    } else {
      var n := |entries| - 1;
      if below <= n {
        ListIs(entries[..n], limit, before, below);
        SliceOfPrefix(entries, n, From(below, limit), below);
      } else {
        ListIs(entries[..n], limit - 1, before, n);
        assert From(n, limit - 1) == From(below, limit);
        RunStep(entries, From(below, limit), n);
      }
    }
  }

  /** A page below a cursor is the run of entries just below it, and its cursor marks where it stopped. */
  lemma PageIs(entries: seq<Entry>, limit: nat, before: Option<int>, below: nat)
    requires Numbered(entries) && below <= |entries| && limit >= 1
    requires if before.None? then below == |entries| else before.value == below + 1
    ensures var lo := From(below, limit);
      GetTransactions(entries, limit, before)
      == Page(NewestFirst(entries[lo..below]), if lo == 0 then None else Some(lo + 1))
  {
    var lo, lower := From(below, limit), From(below, limit + 1);
    ListIs(entries, limit + 1, before, below);
    var rows := NewestFirst(entries[lower..below]);
    NewestFirstAt(entries[lower..below]);
    NewestFirstAt(entries[lo..below]);
    if below > limit {
      assert lower == lo - 1;
      assert rows[..limit] == NewestFirst(entries[lo..below]);
    }
  }

  /** The ledger as each successive request finds it: it only ever grows at the head. */
  ghost predicate OnlyGrows(at: nat -> seq<Entry>) {
    && (forall k :: Numbered(at(k)))
    && (forall j, k :: j <= k ==> at(j) <= at(k))
  }

  /** Follow the cursors from page `k` until there is none. */
  ghost function Walk(at: nat -> seq<Entry>, k: nat, limit: nat, before: Option<int>, below: nat): seq<Entry>
    requires OnlyGrows(at) && limit >= 1 && below <= |at(k)|
    requires if before.None? then below == |at(k)| else before.value == below + 1
    decreases below
  {
    PageIs(at(k), limit, before, below);
    var page := GetTransactions(at(k), limit, before);
    if page.nextSeq.None? then page.entries
    else
      assert at(k) <= at(k + 1);
      page.entries + Walk(at, k + 1, limit, page.nextSeq, page.nextSeq.value - 1)
  }

  lemma {:induction false} WalkFrom(at: nat -> seq<Entry>, k: nat, limit: nat, before: Option<int>, below: nat)
    requires OnlyGrows(at) && limit >= 1 && below <= |at(0)|
    requires if before.None? then below == |at(k)| else before.value == below + 1
    requires below <= |at(k)|
    ensures Walk(at, k, limit, before, below) == NewestFirst(at(0)[..below])
    decreases below
  {
    PageIs(at(k), limit, before, below);
    var lo := From(below, limit);
    assert at(0) <= at(k) && at(0) <= at(k + 1) && at(k) <= at(k + 1);
    assert at(k)[lo..below] == at(0)[lo..below];
    NewestFirstSplit(at(0)[..below], lo);
    assert at(0)[..below][lo..] == at(0)[lo..below];
    if lo == 0 {
      assert at(0)[..below][..0] == [];
    } else {
      WalkFrom(at, k + 1, limit, Some(lo + 1), lo);
      assert at(0)[..below][..lo] == at(0)[..lo];
    }
  }

  /**
   * Whatever is booked between the pages, the walk returns the ledger as it stood
   * at the first request: every entry once, newest first.
   */
  lemma WalkIsTheLedger(at: nat -> seq<Entry>, limit: nat)
    requires OnlyGrows(at) && limit >= 1
    ensures Walk(at, 0, limit, None, |at(0)|) == NewestFirst(at(0))
    ensures forall e :: e in Walk(at, 0, limit, None, |at(0)|) <==> e in at(0)
    ensures var walked := Walk(at, 0, limit, None, |at(0)|);
      && |walked| == |at(0)|
      && forall i, j :: 0 <= i < j < |walked| ==> walked[i].seqNo > walked[j].seqNo
  {
    WalkFrom(at, 0, limit, None, |at(0)|);
    assert at(0)[..|at(0)|] == at(0);
    NewestFirstAt(at(0));
    var all := NewestFirst(at(0));
    forall e ensures e in all <==> e in at(0) {
      if e in at(0) {
        var i :| 0 <= i < |at(0)| && at(0)[i] == e;
        assert all[|at(0)| - 1 - i] == e;
      }
    }
    assert Numbered(at(0));
  }
}
