/** The status changes of an auction, each one transaction under its row lock. */
module Lifecycle {
  import opened Common
  import opened Auctions
  import opened Catalog
  import opened Platform

  /** Lock the auction and consult the table: already there, refused, or free to proceed. */
  datatype Begun = AlreadyDone | Proceed(auction: Auction) | Refused(error: Error)

  function BeginTransition(auctions: map<AuctionId, Auction>, a: AuctionId, action: Action): Begun {
    if a !in auctions then Refused(NotFound)
    else if auctions[a].status == TargetOf(action) then AlreadyDone
    else if !CanTransition(action, auctions[a].status) then Refused(Error.InvalidTransition)
    else Proceed(auctions[a])
  }

  /** A transition that changes the status and nothing else. */
  function PlainTransition(s: State, a: AuctionId, action: Action): Result<State> {
    match BeginTransition(s.auctions, a, action)
    case Refused(e) => Err(e)
    case AlreadyDone => Ok(s)
    case Proceed(row) => Ok(SetAuction(s, a, row.(status := TargetOf(action))))
  }

  function CommittedAuctions(auctions: map<AuctionId, Auction>, p: ProductId): set<AuctionId> {
    set a | a in auctions && auctions[a].product == p && auctions[a].status in UNFINISHED
  }

  /** A new draft, against a product with stock not yet promised to unfinished auctions. */
  function CreateAuction(s: State, a: AuctionId, p: ProductId, currency: Currency, terms: Terms): Result<State> {
    if !ValidConfig(terms) then Err(InvalidConfig)
    else if a in s.auctions || p !in s.stock.products then Err(NotFound)
    else if s.stock.products[p].stock < 1
         || |CommittedAuctions(s.auctions, p)| >= Available(s.stock.products[p]) then Err(InvalidConfig)
    else Ok(SetAuction(s, a, Auction(p, currency, terms, Draft, None, None, None, 0, 0)))
  }

  /** Edit the terms of an auction whose terms are not yet locked. */
  function UpdateTerms(s: State, a: AuctionId, terms: Terms): Result<State> {
    if a !in s.auctions then Err(NotFound)
    else if s.auctions[a].status in TERMS_LOCKED then Err(TermsImmutable)
    else if !ValidConfig(terms) then Err(InvalidConfig)
    else Ok(SetAuction(s, a, s.auctions[a].(terms := terms)))
  }

  /** Open when due, reserving one unit; with no unit free the auction is cancelled instead. */
  function OpenAuction(s: State, a: AuctionId): Result<State> {
    match BeginTransition(s.auctions, a, Open)
    case Refused(e) => Err(e)
    case AlreadyDone => Ok(s)
    case Proceed(row) =>
      if s.now < row.terms.startsAt then Err(NotDue)
      else
        match Reserve(s.stock, row.product, a, 1)
        case Err(InsufficientInventory) => Ok(SetAuction(s, a, row.(status := Cancelled)))
        case Err(e) => Err(e)
        case Ok(stock) => Ok(SetAuction(s, a, row.(status := Live)).(stock := stock))
  }

  /** Stop accepting bids once the deadline has passed; past closing is more than done. */
  function CloseBidding(s: State, a: AuctionId): Result<State> {
    if a !in s.auctions then Err(NotFound)
    else if s.auctions[a].status in {Calculating, Completed} then Ok(s)
    else
      match BeginTransition(s.auctions, a, Close)
      case Refused(e) => Err(e)
      case AlreadyDone => Ok(s)
      case Proceed(row) =>
        if s.now < row.terms.endsAt then Err(NotDue)
        else Ok(SetAuction(s, a, row.(status := Closing, closingAt := Some(s.now))))
  }

  /** Suspend, recording the interrupted status; a reserved unit is kept. */
  function SuspendAuction(s: State, a: AuctionId): Result<State> {
    match BeginTransition(s.auctions, a, Suspend)
    case Refused(e) => Err(e)
    case AlreadyDone => Ok(s)
    case Proceed(row) => Ok(SetAuction(s, a, row.(status := Suspended, suspendedFrom := Some(row.status))))
  }

  /** Restore the interrupted status. */
  function ResumeAuction(s: State, a: AuctionId): Result<State> {
    if a !in s.auctions then Err(NotFound)
    else if s.auctions[a].status != Suspended then Err(Error.InvalidTransition)
    else
      var row := s.auctions[a];
      var restored := if row.suspendedFrom.Some? then row.suspendedFrom.value else Scheduled;
      Ok(SetAuction(s, a, row.(status := restored, suspendedFrom := None)))
  }

  /** Cancel, giving back whatever unit the auction held. */
  function CancelAuction(s: State, a: AuctionId): Result<State> {
    match BeginTransition(s.auctions, a, Cancel)
    case Refused(e) => Err(e)
    case AlreadyDone => Ok(s)
    case Proceed(row) =>
      var cancelled := SetAuction(s, a, row.(status := Cancelled));
      if !HoldsInventory(row.status) then Ok(cancelled)
      else
        match Release(s.stock, a)
        case Err(e) => Err(e)
        case Ok(stock) => Ok(cancelled.(stock := stock))
  }
}
