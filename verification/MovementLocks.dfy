/**
 * Concurrent movements and freezes, statement by statement. Each transaction
 * locks its wallet row, reads it, looks up the key, writes the cached balance,
 * appends the entry and commits, or is rolled back anywhere on the way. Any
 * interleaving is the same as running the committed ones in lock order.
 */
module MovementLocks {
  import opened Common
  import opened Ledger

  type Tid = nat

  datatype Op =
    | Post(wallet: WalletId, movement: Movement)
    | SetFreeze(wallet: WalletId, frozen: bool)

  /** What the operation does when nothing else runs. */
  function Alone(acc: Account, op: Op): Result<(Account, Option<Receipt>)> {
    match op
    case Post(w, m) =>
      (match Apply(acc, w, m)
       case Err(e) => Err(e)
       case Ok((acc', receipt)) => Ok((acc', Some(receipt))))
    case SetFreeze(_, frozen) => Ok((acc.(frozen := frozen), None))
  }

  /** How far a transaction has got; `row` is what it read under its lock, `answer` what it will report. */
  datatype Phase =
    | Queued
    | Locked(row: Account)
    | Checked(row: Account, answer: Option<Receipt>)
    | CacheWritten(row: Account, answer: Option<Receipt>)
    | Written(row: Account, answer: Option<Receipt>)
    | Committed(answer: Option<Receipt>)
    | RolledBack

  datatype System = System(
    rows: map<WalletId, Account>,
    ops: seq<Op>,
    phases: seq<Phase>,
    holder: map<WalletId, Tid>,
    order: seq<Tid>)

  datatype Action =
    | Lock(t: Tid) | Check(t: Tid) | WriteCache(t: Tid) | Append(t: Tid) | Commit(t: Tid) | Rollback(t: Tid)

  function Start(rows: map<WalletId, Account>, ops: seq<Op>): System {
    System(rows, ops, seq(|ops|, _ => Queued), map[], [])
  }

  /** Whether the operation changes the row it read. */
  predicate Writes(row: Account, op: Op) {
    Alone(row, op).Ok? && (op.SetFreeze? || !Alone(row, op).value.1.value.replayed)
  }

  function Set(s: System, t: Tid, phase: Phase): System
    requires t < |s.phases|
  {
    s.(phases := s.phases[t := phase])
  }

  function SetRow(s: System, w: WalletId, row: Account): System {
    s.(rows := s.rows[w := row])
  }

  /** One statement of one transaction; nothing happens when it cannot run yet. */
  function Take(s: System, action: Action): System {
    var t := action.t;
    if t >= |s.ops| || t >= |s.phases| || s.ops[t].wallet !in s.rows then s
    else
      var op, phase := s.ops[t], s.phases[t];
      var w := op.wallet;
      match action
      case Lock(_) =>
        if phase.Queued? && w !in s.holder then
          Set(s, t, Locked(s.rows[w])).(holder := s.holder[w := t], order := s.order + [t])
        else s
      case Check(_) =>
        if phase.Locked? && Alone(phase.row, op).Ok? then Set(s, t, Checked(phase.row, Alone(phase.row, op).value.1)) else s
      case WriteCache(_) =>
        if phase.Checked? && Writes(phase.row, op) then
          Set(SetRow(s, w, CacheOnly(s.rows[w], phase.row, op)), t, CacheWritten(phase.row, phase.answer))
        else s
      case Append(_) =>
        if phase.CacheWritten? then
          Set(SetRow(s, w, EntryToo(s.rows[w], phase.row, op)), t, Written(phase.row, phase.answer))
        else s
      case Commit(_) =>
        if phase.Written? || (phase.Checked? && !Writes(phase.row, op)) then
          Set(s, t, Committed(phase.answer)).(holder := s.holder - {w})
        else s
      case Rollback(_) =>
        if phase.Locked? || phase.Checked? || phase.CacheWritten? || phase.Written? then
          Set(SetRow(s, w, phase.row), t, RolledBack).(holder := s.holder - {w})
        else s
  }

  /** `UPDATE wallets SET available_minor = ..., version = version + 1`, or the freeze column. */
  function CacheOnly(now: Account, read: Account, op: Op): Account {
    match op
    case Post(_, m) => now.(available := read.available + Signed(m), version := now.version + 1)
    case SetFreeze(_, frozen) => now.(frozen := frozen)
  }

  /** `INSERT INTO wallet_entries`, numbered and totalled from what was read under the lock. */
  function EntryToo(now: Account, read: Account, op: Op): Account {
    match op
    case Post(_, m) => now.(entries := now.entries + [Booking(read, m)])
    case SetFreeze(_, _) => now
  }

  function Perform(s: System, actions: seq<Action>): System
    decreases |actions|
  {
    if actions == [] then s else Perform(Take(s, actions[0]), actions[1..])
  }

  // -------------------------------------------------------------------------
  // The serial execution
  // -------------------------------------------------------------------------

  function After(acc: Account, op: Op): Account {
    if Alone(acc, op).Ok? then Alone(acc, op).value.0 else acc
  }

  /** One wallet after running the operations of `done` one at a time, in order. */
  function Serial(acc: Account, w: WalletId, ops: seq<Op>, order: seq<Tid>, done: set<Tid>): Account {
    if order == [] then acc
    else
      var before := Serial(acc, w, ops, order[..|order| - 1], done);
      var t := order[|order| - 1];
      if t in done && t < |ops| && ops[t].wallet == w then After(before, ops[t]) else before
  }

  function Done(s: System): set<Tid> {
    set t: Tid | t < |s.phases| && s.phases[t].Committed?
  }

  lemma {:induction false} OthersDoNotMatter(acc: Account, w: WalletId, ops: seq<Op>, order: seq<Tid>, done: set<Tid>, t: Tid)
    requires t !in order || t >= |ops| || ops[t].wallet != w
    ensures Serial(acc, w, ops, order, done + {t}) == Serial(acc, w, ops, order, done)
    decreases |order|
  {
    if order != [] {
      assert forall x :: x in order[..|order| - 1] ==> x in order;
      OthersDoNotMatter(acc, w, ops, order[..|order| - 1], done, t);
    }
  }

  predicate NoneLaterOn(ops: seq<Op>, order: seq<Tid>, p: nat, w: WalletId) {
    forall q :: p < q < |order| ==> order[q] < |ops| && ops[order[q]].wallet != w
  }

  lemma {:induction false} TailIsElsewhere(acc: Account, w: WalletId, ops: seq<Op>, order: seq<Tid>, done: set<Tid>, p: nat)
    requires p < |order| && NoneLaterOn(ops, order, p, w)
    ensures Serial(acc, w, ops, order, done) == Serial(acc, w, ops, order[..p + 1], done)
    decreases |order|
  {
    if p + 1 < |order| {
      var n := |order| - 1;
      assert order[..n][..p + 1] == order[..p + 1];
      TailIsElsewhere(acc, w, ops, order[..n], done, p);
    } else {
      assert order[..p + 1] == order;
    }
  }

  predicate Distinct(order: seq<Tid>) {
    forall i, j :: 0 <= i < j < |order| ==> order[i] != order[j]
  }

  /** Committing the last transaction to have locked a wallet runs it at the end of that wallet's history. */
  lemma CommitRunsLast(acc: Account, w: WalletId, ops: seq<Op>, order: seq<Tid>, done: set<Tid>, p: nat)
    requires Distinct(order) && p < |order| && order[p] < |ops| && ops[order[p]].wallet == w
    requires order[p] !in done && NoneLaterOn(ops, order, p, w)
    ensures Serial(acc, w, ops, order[..p], done) == Serial(acc, w, ops, order, done)
    ensures Serial(acc, w, ops, order, done + {order[p]}) == After(Serial(acc, w, ops, order, done), ops[order[p]])
  {
    var t := order[p];
    TailIsElsewhere(acc, w, ops, order, done, p);
    TailIsElsewhere(acc, w, ops, order, done + {t}, p);
    assert order[..p + 1][..p] == order[..p];
    assert t !in order[..p];
    OthersDoNotMatter(acc, w, ops, order[..p], done, t);
  }

  // -------------------------------------------------------------------------
  // What every interleaving keeps
  // -------------------------------------------------------------------------

  predicate Active(phase: Phase) {
    phase.Locked? || phase.Checked? || phase.CacheWritten? || phase.Written?
  }

  /** The row of a locked wallet, given what its holder read and how far it has got. */
  predicate RowMatches(row: Account, phase: Phase, op: Op)
    requires Active(phase)
  {
    && (phase.Locked? || phase.Checked? ==> row == phase.row)
    && (phase.CacheWritten? ==> Writes(phase.row, op) && row == CacheOnly(phase.row, phase.row, op))
    && (phase.Written? ==> Writes(phase.row, op) && row == EntryToo(CacheOnly(phase.row, phase.row, op), phase.row, op))
    && (!phase.Locked? ==> Alone(phase.row, op).Ok? && phase.answer == Alone(phase.row, op).value.1)
  }

  ghost predicate Shape(rows: map<WalletId, Account>, ops: seq<Op>, s: System) {
    && s.ops == ops && |s.phases| == |ops| && s.rows.Keys == rows.Keys
    && Distinct(s.order)
    && (forall i :: 0 <= i < |s.order| ==> s.order[i] < |ops|)
    && (forall t: Tid :: t < |ops| ==> (t in s.order <==> !s.phases[t].Queued?))
    && (forall t: Tid :: t < |ops| && Active(s.phases[t]) ==> ops[t].wallet in s.holder && s.holder[ops[t].wallet] == t)
    && (forall w :: w in s.holder ==>
          && w in s.rows && s.holder[w] < |ops| && ops[s.holder[w]].wallet == w && Active(s.phases[s.holder[w]]))
  }

  /** The holder of a wallet is the last transaction to have locked it. */
  ghost predicate HoldersAreLast(s: System) {
    forall w, p :: w in s.holder && 0 <= p < |s.order| && s.order[p] == s.holder[w] ==> NoneLaterOn(s.ops, s.order, p, w)
  }

  ghost predicate RowsAreSerial(rows: map<WalletId, Account>, s: System)
    requires s.rows.Keys == rows.Keys
  {
    forall w :: w in s.rows ==>
      var serial := Serial(rows[w], w, s.ops, s.order, Done(s));
      if w !in s.holder then s.rows[w] == serial
      else
        var t := s.holder[w];
        && t < |s.phases| && t < |s.ops| && Active(s.phases[t])
        && s.phases[t].row == serial
        && RowMatches(s.rows[w], s.phases[t], s.ops[t])
  }

  /** Every committed transaction reported what it would have reported at its place in the order. */
  ghost predicate AnswersAreSerial(rows: map<WalletId, Account>, s: System) {
    forall p :: 0 <= p < |s.order| && s.order[p] < |s.phases| && s.order[p] < |s.ops|
                && s.phases[s.order[p]].Committed? && s.ops[s.order[p]].wallet in rows ==>
      var t := s.order[p];
      var before := Serial(rows[s.ops[t].wallet], s.ops[t].wallet, s.ops, s.order[..p], Done(s));
      Alone(before, s.ops[t]).Ok? && Alone(before, s.ops[t]).value.1 == s.phases[t].answer
  }

  ghost predicate Good(rows: map<WalletId, Account>, ops: seq<Op>, s: System) {
    && Shape(rows, ops, s)
    && HoldersAreLast(s)
    && RowsAreSerial(rows, s)
    && AnswersAreSerial(rows, s)
  }

  lemma StartIsGood(rows: map<WalletId, Account>, ops: seq<Op>)
    ensures Good(rows, ops, Start(rows, ops))
  {
  }

  function Locking(s: System, t: Tid, w: WalletId): System
    requires t < |s.phases| && w in s.rows
  {
    Set(s, t, Locked(s.rows[w])).(holder := s.holder[w := t], order := s.order + [t])
  }

  predicate CanLock(s: System, t: Tid, w: WalletId) {
    && t < |s.ops| && t < |s.phases| && s.ops[t].wallet == w && w in s.rows
    && s.phases[t].Queued? && w !in s.holder
  }

  lemma LockShape(rows: map<WalletId, Account>, ops: seq<Op>, s: System, t: Tid, w: WalletId)
    requires Shape(rows, ops, s) && CanLock(s, t, w)
    ensures Shape(rows, ops, Locking(s, t, w)) && t !in s.order
  {
    var s' := Locking(s, t, w);
    forall u: Tid | u < |ops|
      ensures u in s'.order <==> !s'.phases[u].Queued?
    {
      assert u in s'.order <==> u in s.order || u == t;
    }
  }

  lemma LockLast(rows: map<WalletId, Account>, ops: seq<Op>, s: System, t: Tid, w: WalletId)
    requires Shape(rows, ops, s) && HoldersAreLast(s) && CanLock(s, t, w) && t !in s.order
    ensures HoldersAreLast(Locking(s, t, w))
  {
    var s' := Locking(s, t, w);
    forall v, p | v in s'.holder && 0 <= p < |s'.order| && s'.order[p] == s'.holder[v]
      ensures NoneLaterOn(s'.ops, s'.order, p, v)
    {
      if v != w {
        assert p < |s.order| && s.order[p] == s.holder[v];
        assert NoneLaterOn(s.ops, s.order, p, v);
      } else {
        assert p == |s.order|;
      }
    }
  }

  lemma QueuedDoesNotMatter(acc: Account, w: WalletId, ops: seq<Op>, order: seq<Tid>, done: set<Tid>, t: Tid)
    requires t !in done
    ensures Serial(acc, w, ops, order + [t], done) == Serial(acc, w, ops, order, done)
  {
    assert (order + [t])[..|order|] == order;
  }

  lemma LockRows(rows: map<WalletId, Account>, ops: seq<Op>, s: System, t: Tid, w: WalletId)
    requires Shape(rows, ops, s) && RowsAreSerial(rows, s) && AnswersAreSerial(rows, s) && CanLock(s, t, w)
    ensures Shape(rows, ops, Locking(s, t, w)) ==> RowsAreSerial(rows, Locking(s, t, w))
    ensures AnswersAreSerial(rows, Locking(s, t, w))
  {
    hide Alone, RowMatches, NoneLaterOn, Serial;
    var s' := Locking(s, t, w);
    assert Done(s') == Done(s);
    JustLocked(s.rows[w], ops[t]);
    forall v | v in s.rows
      ensures Serial(rows[v], v, s.ops, s'.order, Done(s)) == Serial(rows[v], v, s.ops, s.order, Done(s))
    {
      QueuedDoesNotMatter(rows[v], v, s.ops, s.order, Done(s), t);
    }
    forall p | 0 <= p < |s.order|
      ensures s'.order[..p] == s.order[..p]
    {
    }
  }

  lemma LockKeeps(rows: map<WalletId, Account>, ops: seq<Op>, s: System, t: Tid)
    requires Good(rows, ops, s)
    ensures Good(rows, ops, Take(s, Lock(t)))
  {
    hide Alone, RowMatches, Shape, HoldersAreLast, RowsAreSerial, AnswersAreSerial;
    if t < |s.ops| && t < |s.phases| && CanLock(s, t, s.ops[t].wallet) {
      var w := s.ops[t].wallet;
      LockShape(rows, ops, s, t, w);
      LockLast(rows, ops, s, t, w);
      LockRows(rows, ops, s, t, w);
    }
  }

  lemma JustLocked(row: Account, op: Op)
    ensures RowMatches(row, Locked(row), op)
  {
  }

  /** A statement of a transaction holding its lock, other than its last. */
  lemma CheckMatches(row: Account, phase: Phase, op: Op)
    requires phase.Locked? && RowMatches(row, phase, op) && Alone(phase.row, op).Ok?
    ensures RowMatches(row, Checked(phase.row, Alone(phase.row, op).value.1), op)
  {
  }

  lemma CacheMatches(row: Account, phase: Phase, op: Op)
    requires phase.Checked? && RowMatches(row, phase, op) && Writes(phase.row, op)
    ensures RowMatches(CacheOnly(row, phase.row, op), CacheWritten(phase.row, phase.answer), op)
  {
  }

  lemma EntryMatches(row: Account, phase: Phase, op: Op)
    requires phase.CacheWritten? && RowMatches(row, phase, op)
    ensures RowMatches(EntryToo(row, phase.row, op), Written(phase.row, phase.answer), op)
  {
  }

  /** A transaction gone from one statement to the next, under its lock. */
  function Working(s: System, t: Tid, phase: Phase, row: Account): System
    requires t < |s.phases| && t < |s.ops|
  {
    Set(SetRow(s, s.ops[t].wallet, row), t, phase)
  }

  lemma TakeWorks(s: System, t: Tid)
    requires t < |s.ops| == |s.phases| && s.ops[t].wallet in s.rows
    ensures var op, phase, row := s.ops[t], s.phases[t], s.rows[s.ops[t].wallet];
      && Take(s, Check(t)) == (
           if phase.Locked? && Alone(phase.row, op).Ok?
           then Working(s, t, Checked(phase.row, Alone(phase.row, op).value.1), row) else s)
      && Take(s, WriteCache(t)) == (
           if phase.Checked? && Writes(phase.row, op)
           then Working(s, t, CacheWritten(phase.row, phase.answer), CacheOnly(row, phase.row, op)) else s)
      && Take(s, Append(t)) == (
           if phase.CacheWritten?
           then Working(s, t, Written(phase.row, phase.answer), EntryToo(row, phase.row, op)) else s)
  {
    hide Alone, Writes, CacheOnly, EntryToo;
    assert s.rows[s.ops[t].wallet := s.rows[s.ops[t].wallet]] == s.rows;
  }

  lemma WorkKeeps(rows: map<WalletId, Account>, ops: seq<Op>, s: System, action: Action)
    requires Good(rows, ops, s) && (action.Check? || action.WriteCache? || action.Append?)
    requires action.t < |s.ops| == |s.phases| && s.ops[action.t].wallet in s.rows
    ensures Good(rows, ops, Take(s, action))
  {
    ShapeBasics(rows, ops, s);
    var t := action.t;
    TakeWorks(s, t);
    hide Good, Alone, RowMatches, CacheOnly, EntryToo, Writes, Take, Working;
    if Active(s.phases[t]) {
      var _ := PlaceOf(rows, ops, s, t);
      var phase, row := s.phases[t], s.rows[ops[t].wallet];
      match action
      case Check(_) =>
        if phase.Locked? && Alone(phase.row, ops[t]).Ok? {
          CheckMatches(row, phase, ops[t]);
          SameStory(rows, ops, s, t, Checked(phase.row, Alone(phase.row, ops[t]).value.1), row);
        }
      case WriteCache(_) =>
        if phase.Checked? && Writes(phase.row, ops[t]) {
          CacheMatches(row, phase, ops[t]);
          SameStory(rows, ops, s, t, CacheWritten(phase.row, phase.answer), CacheOnly(row, phase.row, ops[t]));
        }
      case Append(_) =>
        if phase.CacheWritten? {
          EntryMatches(row, phase, ops[t]);
          SameStory(rows, ops, s, t, Written(phase.row, phase.answer), EntryToo(row, phase.row, ops[t]));
        }
    }
  }

  /** One active transaction moved on, touching only its own row. */
  lemma SameStory(rows: map<WalletId, Account>, ops: seq<Op>, s: System, t: Tid, phase: Phase, row: Account)
    requires Good(rows, ops, s) && t < |ops| && Active(s.phases[t]) && ops[t].wallet in s.rows
    requires Active(phase) && phase.row == s.phases[t].row && RowMatches(row, phase, ops[t])
    ensures Good(rows, ops, Working(s, t, phase, row))
  {
    hide Alone, RowMatches, Serial, NoneLaterOn;
    assert Done(Working(s, t, phase, row)) == Done(s);
  }

  /** The lock let go, with this row left behind and this phase reached. */
  function Releasing(s: System, t: Tid, w: WalletId, phase: Phase, row: Account): System
    requires t < |s.phases|
  {
    Set(SetRow(s, w, row), t, phase).(holder := s.holder - {w})
  }

  lemma ReleaseShape(rows: map<WalletId, Account>, ops: seq<Op>, s: System, t: Tid, w: WalletId, phase: Phase, row: Account)
    requires Shape(rows, ops, s) && HoldersAreLast(s)
    requires t < |ops| && ops[t].wallet == w && w in s.rows && Active(s.phases[t])
    requires phase.Committed? || phase.RolledBack?
    ensures var s' := Releasing(s, t, w, phase, row); Shape(rows, ops, s') && HoldersAreLast(s')
  {
    hide NoneLaterOn;
    var s' := Releasing(s, t, w, phase, row);
    assert s.holder[w] == t;
    forall v | v in s'.holder
      ensures s'.holder[v] < |ops| && ops[s'.holder[v]].wallet == v && Active(s'.phases[s'.holder[v]])
    {
      assert v in s.holder && v != w;
    }
  }

  lemma RollbackRows(rows: map<WalletId, Account>, ops: seq<Op>, s: System, t: Tid, w: WalletId)
    requires Shape(rows, ops, s) && RowsAreSerial(rows, s) && AnswersAreSerial(rows, s)
    requires t < |ops| && ops[t].wallet == w && w in s.rows && Active(s.phases[t])
    requires var s' := Releasing(s, t, w, RolledBack, s.phases[t].row); Shape(rows, ops, s')
    ensures var s' := Releasing(s, t, w, RolledBack, s.phases[t].row);
      RowsAreSerial(rows, s') && AnswersAreSerial(rows, s')
  {
    hide Alone, RowMatches, NoneLaterOn;
    var s' := Releasing(s, t, w, RolledBack, s.phases[t].row);
    assert s.holder[w] == t;
    assert Done(s') == Done(s);
  }

  /** What letting go does, either way. */
  lemma TakeReleases(s: System, t: Tid)
    requires t < |s.ops| == |s.phases| && s.ops[t].wallet in s.rows
    ensures Take(s, Rollback(t)) == if Active(s.phases[t])
      then Releasing(s, t, s.ops[t].wallet, RolledBack, s.phases[t].row) else s
    ensures Take(s, Commit(t)) == if CanCommit(s, t)
      then Releasing(s, t, s.ops[t].wallet, Committed(s.phases[t].answer), s.rows[s.ops[t].wallet]) else s
  {
    hide Writes;
    assert s.rows[s.ops[t].wallet := s.rows[s.ops[t].wallet]] == s.rows;
  }

  lemma RollbackKeeps(rows: map<WalletId, Account>, ops: seq<Op>, s: System, t: Tid)
    requires Good(rows, ops, s)
    requires t < |s.ops| == |s.phases| && s.ops[t].wallet in s.rows
    ensures Good(rows, ops, Take(s, Rollback(t)))
  {
    ShapeBasics(rows, ops, s);
    TakeReleases(s, t);
    hide Alone, RowMatches, Shape, HoldersAreLast, RowsAreSerial, AnswersAreSerial, Take, Releasing;
    if Active(s.phases[t]) {
      var w := s.ops[t].wallet;
      ReleaseShape(rows, ops, s, t, w, RolledBack, s.phases[t].row);
      RollbackRows(rows, ops, s, t, w);
    }
  }

  lemma ShapeBasics(rows: map<WalletId, Account>, ops: seq<Op>, s: System)
    requires Shape(rows, ops, s)
    ensures s.ops == ops && |s.phases| == |ops| && s.rows.Keys == rows.Keys
  {
  }

  /** What the holder has written by the time it may commit is the operation run alone. */
  lemma WrittenIsAfter(row: Account, phase: Phase, op: Op)
    requires phase.Written? || (phase.Checked? && !Writes(phase.row, op))
    requires RowMatches(row, phase, op)
    ensures row == After(phase.row, op)
    ensures Alone(phase.row, op).Ok? && Alone(phase.row, op).value.1 == phase.answer
  {
  }

  predicate CanCommit(s: System, t: Tid)
    requires t < |s.phases| && t < |s.ops|
  {
    s.phases[t].Written? || (s.phases[t].Checked? && !Writes(s.phases[t].row, s.ops[t]))
  }

  lemma CommitRows(rows: map<WalletId, Account>, ops: seq<Op>, s: System, t: Tid, p: nat)
    requires Good(rows, ops, s) && t < |ops| && ops[t].wallet in s.rows && CanCommit(s, t)
    requires p < |s.order| && s.order[p] == t && NoneLaterOn(ops, s.order, p, ops[t].wallet)
    requires Alone(s.phases[t].row, ops[t]).Ok? && Alone(s.phases[t].row, ops[t]).value.1 == s.phases[t].answer
    requires s.rows[ops[t].wallet] == After(s.phases[t].row, ops[t])
    requires Shape(rows, ops, Releasing(s, t, ops[t].wallet, Committed(s.phases[t].answer), s.rows[ops[t].wallet]))
    ensures RowsAreSerial(rows, Releasing(s, t, ops[t].wallet, Committed(s.phases[t].answer), s.rows[ops[t].wallet]))
  {
    hide Alone, RowMatches, After, Writes, NoneLaterOn, AnswersAreSerial;
    var w := ops[t].wallet;
    var s' := Releasing(s, t, w, Committed(s.phases[t].answer), s.rows[w]);
    assert s.holder[w] == t;
    assert Done(s') == Done(s) + {t};
    CommitRunsLast(rows[w], w, ops, s.order, Done(s), p);
    forall v | v in s'.rows && v != w
      ensures Serial(rows[v], v, ops, s.order, Done(s')) == Serial(rows[v], v, ops, s.order, Done(s))
    {
      OthersDoNotMatter(rows[v], v, ops, s.order, Done(s), t);
    }
  }

  lemma PlaceOf(rows: map<WalletId, Account>, ops: seq<Op>, s: System, t: Tid) returns (p: nat)
    requires Good(rows, ops, s) && t < |ops| && Active(s.phases[t])
    ensures p < |s.order| && s.order[p] == t && NoneLaterOn(ops, s.order, p, ops[t].wallet)
    ensures ops[t].wallet in s.rows && RowMatches(s.rows[ops[t].wallet], s.phases[t], ops[t])
  {
    hide NoneLaterOn, RowMatches, AnswersAreSerial, Serial;
    assert t in s.order;
    p :| 0 <= p < |s.order| && s.order[p] == t;
  }

  lemma CommitKeeps(rows: map<WalletId, Account>, ops: seq<Op>, s: System, t: Tid)
    requires Good(rows, ops, s)
    requires t < |s.ops| == |s.phases| && s.ops[t].wallet in s.rows
    ensures Good(rows, ops, Take(s, Commit(t)))
  {
    ShapeBasics(rows, ops, s);
    TakeReleases(s, t);
    hide Alone, RowMatches, After, Writes, Shape, HoldersAreLast, RowsAreSerial, AnswersAreSerial, NoneLaterOn, Take,
         Releasing;
    if CanCommit(s, t) {
      var w := ops[t].wallet;
      var p := PlaceOf(rows, ops, s, t);
      WrittenIsAfter(s.rows[w], s.phases[t], ops[t]);
      ReleaseShape(rows, ops, s, t, w, Committed(s.phases[t].answer), s.rows[w]);
      CommitRows(rows, ops, s, t, p);
      AnswersAfterCommit(rows, ops, s, t, p);
    }
  }

  lemma AnswersAfterCommit(rows: map<WalletId, Account>, ops: seq<Op>, s: System, t: Tid, p: nat)
    requires Good(rows, ops, s) && t < |ops| && Active(s.phases[t]) && !s.phases[t].Locked?
    requires p < |s.order| && s.order[p] == t && NoneLaterOn(ops, s.order, p, ops[t].wallet)
    requires Alone(s.phases[t].row, ops[t]).Ok? && Alone(s.phases[t].row, ops[t]).value.1 == s.phases[t].answer
    requires ops[t].wallet in s.rows
    ensures AnswersAreSerial(rows, Releasing(s, t, ops[t].wallet, Committed(s.phases[t].answer), s.rows[ops[t].wallet]))
  {
    hide Alone, RowMatches;
    var s' := Releasing(s, t, ops[t].wallet, Committed(s.phases[t].answer), s.rows[ops[t].wallet]);
    assert Done(s') == Done(s) + {t};
    forall q | 0 <= q < |s.order| && s'.phases[s.order[q]].Committed? && ops[s.order[q]].wallet in rows
      ensures var u := s.order[q];
        var before := Serial(rows[ops[u].wallet], ops[u].wallet, ops, s.order[..q], Done(s'));
        Alone(before, ops[u]).Ok? && Alone(before, ops[u]).value.1 == s'.phases[u].answer
    {
      var u := s.order[q];
      var w := ops[u].wallet;
      if q <= p {
        assert t !in s.order[..q];
      }
      OthersDoNotMatter(rows[w], w, ops, s.order[..q], Done(s), t);
      if q == p {
        assert s.holder[w] == t;
        CommitRunsLast(rows[w], w, ops, s.order, Done(s), p);
      }
    }
  }

  lemma IdleTake(s: System, action: Action)
    ensures action.t >= |s.ops| || action.t >= |s.phases| || s.ops[action.t].wallet !in s.rows ==> Take(s, action) == s
  {
  }

  lemma TakeKeeps(rows: map<WalletId, Account>, ops: seq<Op>, s: System, action: Action)
    requires Good(rows, ops, s)
    ensures Good(rows, ops, Take(s, action))
  {
    ShapeBasics(rows, ops, s);
    IdleTake(s, action);
    hide Good, Take;
    if action.t < |ops| && ops[action.t].wallet in s.rows {
      match action
      case Lock(t) => LockKeeps(rows, ops, s, t);
      case Commit(t) => CommitKeeps(rows, ops, s, t);
      case Rollback(t) => RollbackKeeps(rows, ops, s, t);
      case _ => WorkKeeps(rows, ops, s, action);
    }
  }

  lemma {:induction false} PerformKeeps(rows: map<WalletId, Account>, ops: seq<Op>, s: System, actions: seq<Action>)
    requires Good(rows, ops, s)
    ensures Good(rows, ops, Perform(s, actions))
    decreases |actions|
  {
    hide Good, Take;
    if actions != [] {
      TakeKeeps(rows, ops, s, actions[0]);
      PerformKeeps(rows, ops, Take(s, actions[0]), actions[1..]);
    }
  }

  // -------------------------------------------------------------------------
  // Any interleaving is a serial run
  // -------------------------------------------------------------------------

  /**
   * However the statements of any number of movements and freezes interleave,
   * an unlocked wallet holds exactly what its committed transactions produce
   * one at a time in the order they took its lock, and each of them reported
   * what it would have reported then.
   */
  lemma InterleavingIsSerial(rows: map<WalletId, Account>, ops: seq<Op>, actions: seq<Action>, w: WalletId)
    requires w in rows
    ensures var s := Perform(Start(rows, ops), actions);
      && w in s.rows
      && (w !in s.holder ==> s.rows[w] == Serial(rows[w], w, ops, s.order, Done(s)))
      && (forall p :: 0 <= p < |s.order| && s.order[p] < |ops| && s.order[p] in Done(s) && ops[s.order[p]].wallet == w ==>
            var before := Serial(rows[w], w, ops, s.order[..p], Done(s));
            && Alone(before, ops[s.order[p]]).Ok?
            && s.phases[s.order[p]].answer == Alone(before, ops[s.order[p]]).value.1)
  {
    hide Alone, RowMatches, Take;
    StartIsGood(rows, ops);
    PerformKeeps(rows, ops, Start(rows, ops), actions);
  }

  lemma AloneKeepsSound(acc: Account, op: Op)
    requires Sound(acc)
    ensures Sound(After(acc, op))
  {
    if op.Post? && Alone(acc, op).Ok? {
      ApplyKeepsSound(acc, op.wallet, op.movement);
    }
  }

  lemma {:induction false} SerialKeepsSound(acc: Account, w: WalletId, ops: seq<Op>, order: seq<Tid>, done: set<Tid>)
    requires Sound(acc)
    ensures Sound(Serial(acc, w, ops, order, done))
    decreases |order|
  {
    hide Sound, After;
    if order != [] {
      var n := |order| - 1;
      SerialKeepsSound(acc, w, ops, order[..n], done);
      if order[n] < |ops| {
        AloneKeepsSound(Serial(acc, w, ops, order[..n], done), ops[order[n]]);
      }
    }
  }

  /**
   * So no interleaving drives a balance below zero, leaves a gap in the
   * numbering, or parts the version from the number of entries.
   */
  lemma InterleavingKeepsLedgersSound(rows: map<WalletId, Account>, ops: seq<Op>, actions: seq<Action>, w: WalletId)
    requires w in rows && Sound(rows[w])
    ensures var s := Perform(Start(rows, ops), actions);
      && w in s.rows
      && (w !in s.holder ==>
            && Sound(s.rows[w])
            && s.rows[w].available >= 0
            && s.rows[w].version == |s.rows[w].entries|
            && forall i :: 0 <= i < |s.rows[w].entries| ==> s.rows[w].entries[i].seqNo == i + 1)
  {
    var s := Perform(Start(rows, ops), actions);
    InterleavingIsSerial(rows, ops, actions, w);
    SerialKeepsSound(rows[w], w, ops, s.order, Done(s));
  }

  /** A debit ordered after a freeze, with no thaw between, moved no money: at most it replayed. */
  lemma FrozenDebitsOnlyReplay(rows: map<WalletId, Account>, ops: seq<Op>, actions: seq<Action>, w: WalletId, p: nat)
    requires w in rows && Sound(rows[w])
    requires var s := Perform(Start(rows, ops), actions);
      && p < |s.order| && s.order[p] < |ops| && s.order[p] in Done(s)
      && ops[s.order[p]].Post? && ops[s.order[p]].wallet == w
      && Direction(ops[s.order[p]].movement.kind) == -1
      && Serial(rows[w], w, ops, s.order[..p], Done(s)).frozen
    ensures var s := Perform(Start(rows, ops), actions);
      && s.phases[s.order[p]].answer.Some? && s.phases[s.order[p]].answer.value.replayed
      && Serial(rows[w], w, ops, s.order[..p + 1], Done(s)) == Serial(rows[w], w, ops, s.order[..p], Done(s))
  {
    var s := Perform(Start(rows, ops), actions);
    InterleavingIsSerial(rows, ops, actions, w);
    hide Sound, Perform, Serial;
    assert s.order[..p + 1][..p] == s.order[..p];
    SerialStep(rows[w], w, ops, s.order[..p + 1], Done(s));
  }

  lemma SerialStep(acc: Account, w: WalletId, ops: seq<Op>, order: seq<Tid>, done: set<Tid>)
    requires order != [] && order[|order| - 1] in done && order[|order| - 1] < |ops|
    requires ops[order[|order| - 1]].wallet == w
    ensures Serial(acc, w, ops, order, done)
         == After(Serial(acc, w, ops, order[..|order| - 1], done), ops[order[|order| - 1]])
  {
  }
}
