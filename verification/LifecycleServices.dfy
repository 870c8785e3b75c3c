/** The lifecycle services over the running tables. */
module LifecycleServices {
  import opened Common
  import opened Auctions
  import opened Catalog
  import opened Platform
  import Lifecycle
  import opened Services

  /** Lock the row and consult the table. */
  method Begin(e: Engine, a: AuctionId, action: Action) returns (begun: Lifecycle.Begun)
    ensures begun == Lifecycle.BeginTransition(e.auctions, a, action)
  {
    if a !in e.auctions {
      return Lifecycle.Refused(NotFound);
    }
    var auction := e.auctions[a];
    if auction.status == TargetOf(action) {
      return Lifecycle.AlreadyDone;
    }
    if !CanTransition(action, auction.status) {
      return Lifecycle.Refused(Error.InvalidTransition);
    }
    return Lifecycle.Proceed(auction);
  }

  /** `UPDATE auctions ... WHERE id = $1 AND status = $2`. */
  method ApplyTransition(e: Engine, a: AuctionId, expected: Status, next: Auction) returns (updated: bool)
    modifies e`auctions
    ensures updated == (a in old(e.auctions) && old(e.auctions)[a].status == expected)
    ensures e.auctions == if updated then old(e.auctions)[a := next] else old(e.auctions)
  {
    updated := a in e.auctions && e.auctions[a].status == expected;
    if updated {
      e.auctions := e.auctions[a := next];
    }
  }

  /** A row replaced by one of another status makes a different database. */
  lemma StatusTells(s: State, a: AuctionId, row: Auction)
    requires a in s.auctions && row.status != s.auctions[a].status
    ensures forall s': State :: s'.auctions == s.auctions[a := row] ==> s' != s
  {
    forall s': State | s'.auctions == s.auctions[a := row]
      ensures s' != s
    {
      assert s'.auctions[a] != s.auctions[a];
    }
  }

  /** Submit, approve, reject and complete: only the status changes. */
  method Transition(e: Engine, a: AuctionId, action: Action) returns (r: Result<bool>)
    modifies e`auctions
    ensures Effect(old(e.Rows()), Lifecycle.PlainTransition(old(e.Rows()), a, action), e.Rows(), r)
  {
    var begun := Begin(e, a, action);
    match begun
    case Refused(error) => return Err(error);
    case AlreadyDone => return Ok(false);
    case Proceed(auction) =>
      StatusTells(e.Rows(), a, auction.(status := TargetOf(action)));
      var updated := ApplyTransition(e, a, auction.status, auction.(status := TargetOf(action)));
      return Ok(updated);
  }

  /** Lock, check the clock, reserve the unit, go live; or cancel when no unit is free. */
  method Open(e: Engine, a: AuctionId) returns (r: Result<bool>)
    modifies e`auctions, e.inventory
    ensures Effect(old(e.Rows()), Lifecycle.OpenAuction(old(e.Rows()), a), e.Rows(), r)
  {
    hide Reserve, Lifecycle.BeginTransition;
    var begun := Begin(e, a, Action.Open);
    match begun
    case Refused(error) => return Err(error);
    case AlreadyDone => return Ok(false);
    case Proceed(auction) =>
      BegunRow(e.auctions, a, Action.Open);
      if e.now < auction.terms.startsAt {
        return Err(NotDue);
      }
      StatusTells(e.Rows(), a, auction.(status := Live));
      StatusTells(e.Rows(), a, auction.(status := Cancelled));
      var reserved := e.inventory.ReserveUnit(auction.product, a, 1);
      if reserved.Err? {
        if reserved.error != InsufficientInventory {
          return Err(reserved.error);
        }
        var cancelled := ApplyTransition(e, a, auction.status, auction.(status := Cancelled));
        return Ok(cancelled);
      }
      var updated := ApplyTransition(e, a, auction.status, auction.(status := Live));
      return Ok(updated);
  }

  lemma BegunRow(auctions: map<AuctionId, Auction>, a: AuctionId, action: Action)
    requires Lifecycle.BeginTransition(auctions, a, action).Proceed?
    ensures a in auctions && Lifecycle.BeginTransition(auctions, a, action) == Lifecycle.Proceed(auctions[a])
    ensures auctions[a].status in AllowedFrom(action) && auctions[a].status != TargetOf(action)
  {
  }

  /** Stop the bidding once the deadline has passed. */
  method Close(e: Engine, a: AuctionId) returns (r: Result<bool>)
    modifies e`auctions
    ensures Effect(old(e.Rows()), Lifecycle.CloseBidding(old(e.Rows()), a), e.Rows(), r)
  {
    if a !in e.auctions {
      return Err(NotFound);
    }
    if e.auctions[a].status in {Calculating, Completed} {
      return Ok(false);
    }
    var begun := Begin(e, a, Action.Close);
    match begun
    case Refused(error) => return Err(error);
    case AlreadyDone => return Ok(false);
    case Proceed(auction) =>
      if e.now < auction.terms.endsAt {
        return Err(NotDue);
      }
      StatusTells(e.Rows(), a, auction.(status := Closing, closingAt := Some(e.now)));
      var updated := ApplyTransition(e, a, auction.status, auction.(status := Closing, closingAt := Some(e.now)));
      return Ok(updated);
  }

  /** Suspend, remembering what was interrupted; the reserved unit stays reserved. */
  method Suspend(e: Engine, a: AuctionId) returns (r: Result<bool>)
    modifies e`auctions
    ensures Effect(old(e.Rows()), Lifecycle.SuspendAuction(old(e.Rows()), a), e.Rows(), r)
  {
    var begun := Begin(e, a, Action.Suspend);
    match begun
    case Refused(error) => return Err(error);
    case AlreadyDone => return Ok(false);
    case Proceed(auction) =>
      var next := auction.(status := Suspended, suspendedFrom := Some(auction.status));
      StatusTells(e.Rows(), a, next);
      var updated := ApplyTransition(e, a, auction.status, next);
      return Ok(updated);
  }

  /**
   * Restore the interrupted status. On a row no suspension wrote, one that
   * recorded `suspended` itself, the restored row can be the one it replaces.
   */
  method Resume(e: Engine, a: AuctionId) returns (r: Result<bool>)
    modifies e`auctions
    ensures match Lifecycle.ResumeAuction(old(e.Rows()), a)
      case Err(error) => r == Err(error) && e.Rows() == old(e.Rows())
      case Ok(s') => e.Rows() == s' && r == Ok(true)
  {
    if a !in e.auctions {
      return Err(NotFound);
    }
    var auction := e.auctions[a];
    if auction.status != Suspended {
      return Err(Error.InvalidTransition);
    }
    var restored := if auction.suspendedFrom.Some? then auction.suspendedFrom.value else Scheduled;
    var updated := ApplyTransition(e, a, Suspended, auction.(status := restored, suspendedFrom := None));
    return Ok(updated);
  }

  /** Give back the unit, then the status, in one transaction. */
  method Cancel(e: Engine, a: AuctionId) returns (r: Result<bool>)
    modifies e`auctions, e.inventory
    ensures Effect(old(e.Rows()), Lifecycle.CancelAuction(old(e.Rows()), a), e.Rows(), r)
  {
    hide Release, Lifecycle.BeginTransition;
    var begun := Begin(e, a, Action.Cancel);
    match begun
    case Refused(error) => return Err(error);
    case AlreadyDone => return Ok(false);
    case Proceed(auction) =>
      BegunRow(e.auctions, a, Action.Cancel);
      StatusTells(e.Rows(), a, auction.(status := Cancelled));
      if HoldsInventory(auction.status) {
        var released := e.inventory.ReleaseUnit(a);
        if released.Err? {
          return Err(released.error);
        }
      }
      var updated := ApplyTransition(e, a, auction.status, auction.(status := Cancelled));
      return Ok(updated);
  }

  /** Edit the terms while they are not locked. */
  method UpdateAuction(e: Engine, a: AuctionId, terms: Terms) returns (r: Result<Auction>)
    modifies e`auctions
    ensures match Lifecycle.UpdateTerms(old(e.Rows()), a, terms)
      case Err(error) => r == Err(error) && e.Rows() == old(e.Rows())
      case Ok(s') => e.Rows() == s' && a in s'.auctions && r == Ok(s'.auctions[a])
  {
    if a !in e.auctions {
      return Err(NotFound);
    }
    if e.auctions[a].status in TERMS_LOCKED {
      return Err(TermsImmutable);
    }
    if !ValidConfig(terms) {
      return Err(InvalidConfig);
    }
    e.auctions := e.auctions[a := e.auctions[a].(terms := terms)];
    return Ok(e.auctions[a]);
  }
}
