/** The read side of the sweeper and the refund pass: ordered, limited listings. */
module Queries {
  import opened Common
  import opened Platform
  import opened Settlement
  import opened Sweep

  /** Rows in `ORDER BY` order of their instants. */
  predicate InOrder(ids: seq<AuctionId>, at: map<AuctionId, int>) {
    && (forall i :: 0 <= i < |ids| ==> ids[i] in at)
    && (forall i, j :: 0 <= i < j < |ids| ==> at[ids[i]] <= at[ids[j]])
  }

  function InsertBy(a: AuctionId, ids: seq<AuctionId>, at: map<AuctionId, int>): seq<AuctionId>
    requires a in at && forall i :: 0 <= i < |ids| ==> ids[i] in at
  {
    if ids == [] || at[a] <= at[ids[0]] then [a] + ids else [ids[0]] + InsertBy(a, ids[1..], at)
  }

  lemma {:induction false} InsertByKeeps(a: AuctionId, ids: seq<AuctionId>, at: map<AuctionId, int>)
    requires a in at && InOrder(ids, at)
    ensures InOrder(InsertBy(a, ids, at), at)
    ensures |InsertBy(a, ids, at)| == |ids| + 1
    ensures forall b :: b in InsertBy(a, ids, at) <==> b == a || b in ids
    ensures a !in ids && Distinct(ids) ==> Distinct(InsertBy(a, ids, at))
    decreases |ids|
  {
    if ids != [] && at[a] > at[ids[0]] {
      InsertByKeeps(a, ids[1..], at);
      assert ids == [ids[0]] + ids[1..];
      var rest := InsertBy(a, ids[1..], at);
      forall i | 0 <= i < |rest|
        ensures rest[i] in at && at[ids[0]] <= at[rest[i]]
        ensures a !in ids && Distinct(ids) ==> rest[i] != ids[0]
      {
        assert rest[i] in rest;
        assert rest[i] in ids[1..] ==> exists j :: 1 <= j < |ids| && ids[j] == rest[i];
      }
    }
  }

  predicate Distinct(ids: seq<AuctionId>) {
    forall i, j :: 0 <= i < j < |ids| ==> ids[i] != ids[j]
  }

  /** `ORDER BY at LIMIT limit` over the eligible rows: nothing left out comes before anything listed. */
  method Earliest(due: set<AuctionId>, at: map<AuctionId, int>, limit: nat) returns (ids: seq<AuctionId>)
    requires forall a :: a in due ==> a in at
    ensures Listed(ids, due, limit)
    ensures InOrder(ids, at)
    ensures forall a, i :: a in due && a !in ids && 0 <= i < |ids| ==> at[ids[i]] <= at[a]
  {
    var rest := due;
    var sorted: seq<AuctionId> := [];
    while rest != {}
      invariant rest <= due
      invariant forall a :: a in due <==> a in rest || a in sorted
      invariant forall a :: a in sorted ==> a !in rest
      invariant Distinct(sorted) && InOrder(sorted, at)
      invariant |sorted| + |rest| == |due|
    {
      var a :| a in rest;
      InsertByKeeps(a, sorted, at);
      sorted := InsertBy(a, sorted, at);
      rest := rest - {a};
    }
    ids := if |sorted| < limit then sorted else sorted[..limit];
    forall i | 0 <= i < |ids|
      ensures ids[i] in due
    {
      assert ids[i] in sorted;
    }
    forall a, i | a in due && a !in ids && 0 <= i < |ids|
      ensures at[ids[i]] <= at[a]
    {
      assert a in sorted;
      var j :| 0 <= j < |sorted| && sorted[j] == a;
      assert j >= |ids|;
    }
  }

  /** `listFeePayers`, smallest user id first. */
  method ListFeePayers(s: State, a: AuctionId) returns (payers: seq<UserId>)
    ensures ListsPayers(payers, s, a)
    ensures payers == PayersOf(s, a)
  {
    var paid := set seat | seat in s.participants && seat.auction == a && s.participants[seat].totalFees > 0;
    var rest := paid;
    payers := [];
    while rest != {}
      invariant rest <= paid
      invariant Ascending(payers)
      invariant forall u :: u in payers <==> Seat(a, u) in paid - rest
    {
      var seat :| seat in rest;
      assert seat == Seat(a, seat.user);
      InsertUserKeeps(seat.user, payers);
      payers := InsertUser(seat.user, payers);
      rest := rest - {seat};
    }
    AscendingIsUnique(payers, PayersOf(s, a));
  }
}
