/**
 * An auction's terms, its status, and the one table that says which status may
 * follow which.
 */
module Auctions {
  import opened Common

  datatype Status =
    | Draft | PendingApproval | Scheduled | Live | Closing | Calculating | Completed | Cancelled | Suspended

  datatype Action = Submit | Approve | Reject | Open | Close | BeginCalculating | Complete | Suspend | Cancel

  function TargetOf(action: Action): Status {
    match action
    case Submit => PendingApproval
    case Approve => Scheduled
    case Reject => Draft
    case Open => Live
    case Close => Closing
    case BeginCalculating => Calculating
    case Complete => Completed
    case Suspend => Suspended
    case Cancel => Cancelled
  }

  function AllowedFrom(action: Action): set<Status> {
    match action
    case Submit => {Draft}
    case Approve => {PendingApproval}
    case Reject => {PendingApproval}
    case Open => {Scheduled}
    case Close => {Live}
    case BeginCalculating => {Closing}
    case Complete => {Calculating}
    case Suspend => RESUMABLE
    case Cancel => {Draft, PendingApproval, Scheduled, Live, Closing, Suspended}
  }

  const RESUMABLE := {PendingApproval, Scheduled, Live}
  const TERMS_LOCKED := {Live, Closing, Calculating, Completed, Cancelled, Suspended}
  const PUBLICLY_VISIBLE := {Scheduled, Live, Closing, Calculating, Completed}
  const UNFINISHED := {Draft, PendingApproval, Scheduled, Live, Closing, Calculating, Suspended}
  const CLOSABLE := {Closing, Calculating, Completed, Cancelled}

  predicate CanTransition(action: Action, from: Status) {
    from in AllowedFrom(action)
  }

  /** The statuses from which a cancel looks for a unit to give back. */
  predicate HoldsInventory(status: Status) {
    status in {Live, Closing, Suspended}
  }

  /** Nothing leaves a terminal status, and no edge returns an auction to bidding once it has closed. */
  lemma TableShape(action: Action, from: Status)
    requires CanTransition(action, from)
    ensures from !in {Completed, Cancelled}
    ensures from in {Closing, Calculating} ==> TargetOf(action) in {Calculating, Completed, Cancelled}
    ensures TargetOf(action) == Live <==> action == Open
    ensures TargetOf(action) != from
  {
  }

  datatype Terms = Terms(
    minBid: int,
    maxBid: int,
    increment: int,
    maxBidsPerUser: int,
    bidFee: int,
    paymentHours: int,
    startsAt: int,
    endsAt: int)

  /** Every rule of `validateAuctionConfig`. */
  predicate ValidConfig(t: Terms) {
    && t.startsAt < t.endsAt
    && t.minBid > 0
    && t.increment > 0
    && t.minBid <= t.maxBid
    && (t.maxBid - t.minBid) % t.increment == 0
    && t.bidFee >= 0
    && t.maxBidsPerUser >= 1
    && t.paymentHours >= 1
  }

  datatype Auction = Auction(
    product: ProductId,
    currency: Currency,
    terms: Terms,
    status: Status,
    suspendedFrom: Option<Status>,
    closingAt: Option<int>,
    closedAt: Option<int>,
    totalBids: int,
    totalParticipants: int)

  /** The status, or the one a suspension interrupted. */
  function Underlying(a: Auction): Status {
    if a.status == Suspended && a.suspendedFrom.Some? then a.suspendedFrom.value else a.status
  }
}
