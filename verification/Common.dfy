/** Vocabulary shared by every module: identifiers, currencies, refusals and results. */
module Common {

  // Row identifiers are uuids in the database. Only their equality and their
  // order are ever used, so naturals stand for them.
  type UserId = nat
  type ProductId = nat
  type AuctionId = nat
  type BidId = nat

  datatype Currency = USD | EUR | ETB

  datatype Option<+T> = None | Some(value: T)

  /** The coded refusals the services throw. */
  datatype Error =
    | NotFound
    | InvalidTransition
    | NotDue
    | TermsImmutable
    | InvalidConfig
    | InsufficientInventory
    | EmptyBatch
    | TooManyAmounts
    | AmountInvalid
    | AmountOutOfRange
    | AmountNotAligned
    | DuplicateAmount
    | BidderNotEligible
    | AuctionNotLive
    | AuctionNotStarted
    | AuctionEnded
    | BidLimitExceeded
    | IdempotencyConflict
    | IdempotencyInProgress
    | InvalidAmount
    | CurrencyMismatch
    | WalletFrozen
    | InsufficientFunds
    | AuctionNotClosed
    | ResultNotFound
    | ResultInconsistent
    | Unauthenticated

  datatype Result<+T> = Ok(value: T) | Err(error: Error)
}
