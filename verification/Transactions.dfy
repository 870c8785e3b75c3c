/** The transaction wrapper every service runs in: commit whole, or leave nothing, retrying only what is safe. */
module Transactions {
  import opened Common

  /** SQLSTATE of a failure: the two conflicts that committed nothing, or anything else. */
  datatype Failure = SerializationFailure | DeadlockDetected | Other(error: Error)

  predicate IsRetryable(f: Failure) {
    f.SerializationFailure? || f.DeadlockDetected?
  }

  /**
   * What one invocation of the callback does to the rows it is given: it throws
   * part way, or returns and then commits or is refused at the commit.
   */
  datatype Attempt<S, T> =
    | Throws(dirty: S, failure: Failure)
    | Returns(dirty: S, value: T, refused: Option<Failure>)

  function Failed<S, T>(a: Attempt<S, T>): Option<Failure> {
    if a.Throws? then Some(a.failure) else a.refused
  }

  datatype Answer<T> = Done(value: T) | Thrown(failure: Failure)

  /** The rows and the answer after the attempts from number `k` on. */
  function Outcome<S, T>(body: (nat, S) -> Attempt<S, T>, rows: S, k: nat, maxRetries: nat): (S, Answer<T>)
    requires k <= maxRetries
    decreases maxRetries - k
  {
    var a := body(k, rows);
    var failure := Failed(a);
    if failure.None? then (a.dirty, Done(a.value))
    else if k < maxRetries && IsRetryable(failure.value) then Outcome(body, rows, k + 1, maxRetries)
    else (rows, Thrown(failure.value))
  }

  class Database<S(==)> {
    var rows: S

    constructor (initial: S)
      ensures rows == initial
    {
      rows := initial;
    }

    method WithTransaction<T>(body: (nat, S) -> Attempt<S, T>, maxRetries: nat) returns (answer: Answer<T>, attempts: nat)
      modifies this
      ensures (rows, answer) == Outcome(body, old(rows), 0, maxRetries)
      ensures 1 <= attempts <= maxRetries + 1
      ensures OnlyConflicts(body, old(rows), 0, attempts - 1)
    {
      attempts := 0;
      while true
        invariant attempts <= maxRetries
        invariant rows == old(rows)
        invariant Outcome(body, rows, 0, maxRetries) == Outcome(body, rows, attempts, maxRetries)
        invariant OnlyConflicts(body, old(rows), 0, attempts)
        decreases maxRetries - attempts
      {
        var begun := rows;
        var attempt := body(attempts, rows);
        rows := attempt.dirty;
        var failure := Failed(attempt);
        if failure.None? {
          return Done(attempt.value), attempts + 1;
        }
        rows := begun;
        if attempts < maxRetries && IsRetryable(failure.value) {
          attempts := attempts + 1;
          continue;
        }
        return Thrown(failure.value), attempts + 1;
      }
    }
  }

  /** Every attempt from `k` up to `n` failed with a conflict that committed nothing. */
  predicate OnlyConflicts<S, T>(body: (nat, S) -> Attempt<S, T>, rows: S, k: nat, n: nat) {
    forall i :: k <= i < n ==> Failed(body(i, rows)).Some? && IsRetryable(Failed(body(i, rows)).value)
  }

  /**
   * Success is the effect of one attempt on the rows as they were, after retryable
   * failures only; an error leaves the rows exactly as they were.
   */
  lemma {:induction false} CommitsOnceOrNotAtAll<S, T>(body: (nat, S) -> Attempt<S, T>, rows: S, k: nat, maxRetries: nat)
    requires k <= maxRetries
    ensures var (after, answer) := Outcome(body, rows, k, maxRetries);
      match answer
      case Done(value) =>
        exists n: nat :: k <= n <= maxRetries && OnlyConflicts(body, rows, k, n)
          && Failed(body(n, rows)).None? && body(n, rows).dirty == after && body(n, rows).value == value
      case Thrown(failure) =>
        after == rows
        && exists n: nat :: k <= n <= maxRetries && OnlyConflicts(body, rows, k, n)
             && Failed(body(n, rows)) == Some(failure) && (IsRetryable(failure) ==> n == maxRetries)
    decreases maxRetries - k
  {
    var failure := Failed(body(k, rows));
    if failure.Some? && k < maxRetries && IsRetryable(failure.value) {
      CommitsOnceOrNotAtAll(body, rows, k + 1, maxRetries);
    }
  }

  /** Attempts lost to a conflict cost nothing while retries are left: the first that goes through is the answer. */
  lemma {:induction false} ConflictsAreRiddenOut<S, T>(
      body: (nat, S) -> Attempt<S, T>, rows: S, k: nat, n: nat, maxRetries: nat)
    requires k <= n <= maxRetries
    requires forall i :: k <= i < n ==>
      Failed(body(i, rows)) == Some(SerializationFailure) || Failed(body(i, rows)) == Some(DeadlockDetected)
    requires body(n, rows).Returns? && body(n, rows).refused.None?
    ensures Outcome(body, rows, k, maxRetries) == (body(n, rows).dirty, Done(body(n, rows).value))
    decreases n - k
  {
    if k < n {
      ConflictsAreRiddenOut(body, rows, k + 1, n, maxRetries);
    }
  }

  /** A failure that might have been applied is never retried. */
  lemma OtherFailuresAreNotRetried<S, T>(body: (nat, S) -> Attempt<S, T>, rows: S, maxRetries: nat, error: Error)
    requires Failed(body(0, rows)) == Some(Other(error))
    ensures Outcome(body, rows, 0, maxRetries) == (rows, Thrown(Other(error)))
  {
  }
}
