/**
 * The wallet ledger: one account per user and currency, an append-only list of
 * entries, and a cached balance maintained beside it.
 */
module Ledger {
  import opened Common

  /** One wallet per user and currency (unique index `wallets_user_currency_key`). */
  datatype WalletId = WalletId(user: UserId, currency: Currency)

  datatype EntryType =
    | Deposit | BidFeeRefund | PaymentRefund | AdminCredit | PrizePayout
    | Withdrawal | BidFee | AuctionPayment | AdminDebit | SellerPayout
    | Hold | HoldRelease

  /**
   * An idempotency key in a wallet's key space. The rendered text is in module
   * WalletKeys, which also proves that the three families cannot collide.
   */
  datatype EntryKey =
    | BidFeeKey(request: string)
    | RefundKey(auction: AuctionId, user: UserId)
    | ClientKey(text: string)

  datatype Entry = Entry(
    seqNo: int,
    kind: EntryType,
    amountMinor: int,
    balanceAfter: int,
    reference: Option<AuctionId>,
    key: Option<EntryKey>)

  /** A wallet row together with its ledger. */
  datatype Account = Account(available: int, version: int, frozen: bool, entries: seq<Entry>)

  const EmptyAccount := Account(0, 0, false, [])

  datatype Movement = Movement(
    amountMinor: int,
    currency: Option<Currency>,
    kind: EntryType,
    reference: Option<AuctionId>,
    key: Option<EntryKey>)

  datatype Receipt = Receipt(seqNo: int, amountMinor: int, balanceAfter: int, replayed: bool)

  const CREDIT_TYPES := {Deposit, BidFeeRefund, PaymentRefund, AdminCredit, PrizePayout}

  function Direction(kind: EntryType): int {
    if kind in CREDIT_TYPES then 1 else -1
  }

  function Signed(m: Movement): int {
    if m.kind in CREDIT_TYPES then m.amountMinor else -m.amountMinor
  }

  // -------------------------------------------------------------------------
  // What one movement does
  // -------------------------------------------------------------------------

  /** The position of the entry carrying `key`, if the ledger has one. */
  function FindKey(entries: seq<Entry>, key: EntryKey): (r: Option<nat>)
    ensures r.Some? ==> r.value < |entries| && entries[r.value].key == Some(key)
    ensures r.None? ==> forall i :: 0 <= i < |entries| ==> entries[i].key != Some(key)
  {
    if entries == [] then None
    else if entries[|entries| - 1].key == Some(key) then Some(|entries| - 1)
    else FindKey(entries[..|entries| - 1], key)
  }

  predicate SameMovement(e: Entry, m: Movement) {
    e.kind == m.kind && e.amountMinor == Signed(m)
  }

  function Booking(acc: Account, m: Movement): Entry {
    Entry(acc.version + 1, m.kind, Signed(m), acc.available + Signed(m), m.reference, m.key)
  }

  function Booked(acc: Account, m: Movement): Account {
    Account(acc.available + Signed(m), acc.version + 1, acc.frozen, acc.entries + [Booking(acc, m)])
  }

  /** The movement as one atomic step on the account it addresses. */
  function Apply(acc: Account, wallet: WalletId, m: Movement): Result<(Account, Receipt)> {
    if m.kind in {Hold, HoldRelease} || m.amountMinor <= 0 then Err(InvalidAmount)
    else if m.currency.Some? && m.currency.value != wallet.currency then Err(CurrencyMismatch)
    else
      var found := if m.key.Some? then FindKey(acc.entries, m.key.value) else None;
      if found.Some? then
        var e := acc.entries[found.value];
        if SameMovement(e, m) then Ok((acc, Receipt(e.seqNo, e.amountMinor, e.balanceAfter, true)))
        else Err(IdempotencyConflict)
      else if Direction(m.kind) == -1 && acc.frozen then Err(WalletFrozen)
      else if acc.available + Signed(m) < 0 then Err(InsufficientFunds)
      else
        var e := Booking(acc, m);
        Ok((Booked(acc, m), Receipt(e.seqNo, e.amountMinor, e.balanceAfter, false)))
  }

  // -------------------------------------------------------------------------
  // What every ledger keeps
  // -------------------------------------------------------------------------

  /** The sum of the signed amounts: the authoritative balance. */
  function Total(entries: seq<Entry>): int {
    if entries == [] then 0 else Total(entries[..|entries| - 1]) + entries[|entries| - 1].amountMinor
  }

  /** Gap-free numbers, recorded balances equal to the replayed ones and never negative. */
  predicate Replays(entries: seq<Entry>) {
    forall i :: 0 <= i < |entries| ==>
      && entries[i].seqNo == i + 1
      && entries[i].balanceAfter == Total(entries[..i + 1])
      && entries[i].balanceAfter >= 0
  }

  predicate KeysUnique(entries: seq<Entry>) {
    forall i, j :: 0 <= i < j < |entries| && entries[i].key.Some? ==> entries[i].key != entries[j].key
  }

  /** No entry books nothing, and the sign always follows the type. */
  predicate SignsFollowTypes(entries: seq<Entry>) {
    forall i :: 0 <= i < |entries| ==>
      entries[i].amountMinor != 0 && (entries[i].amountMinor > 0 <==> entries[i].kind in CREDIT_TYPES)
  }

  predicate Sound(acc: Account) {
    && acc.version == |acc.entries|
    && acc.available == Total(acc.entries)
    && acc.available >= 0
    && Replays(acc.entries)
    && KeysUnique(acc.entries)
    && SignsFollowTypes(acc.entries)
  }

  lemma ReplaysAppend(entries: seq<Entry>, e: Entry)
    requires Replays(entries)
    requires e.seqNo == |entries| + 1 && e.balanceAfter == Total(entries) + e.amountMinor >= 0
    ensures Total(entries + [e]) == Total(entries) + e.amountMinor
    ensures Replays(entries + [e])
  {
    var all := entries + [e];
    assert all[..|entries|] == entries;
    forall i | 0 <= i < |all|
      ensures all[i].seqNo == i + 1 && all[i].balanceAfter == Total(all[..i + 1]) >= 0
    {
      if i < |entries| {
        assert all[..i + 1] == entries[..i + 1];
      } else {
        assert all[..i + 1] == all;
      }
    }
  }

  lemma KeysStayUnique(entries: seq<Entry>, e: Entry)
    requires KeysUnique(entries)
    requires e.key.Some? ==> FindKey(entries, e.key.value).None?
    ensures KeysUnique(entries + [e])
  {
  }

  /** Keys are unique, so a lookup finds the one entry that carries the key. */
  lemma KeyFoundAt(entries: seq<Entry>, key: EntryKey, p: nat)
    requires KeysUnique(entries) && p < |entries| && entries[p].key == Some(key)
    ensures FindKey(entries, key) == Some(p)
  {
    assert entries[p].key.Some?;
  }

  /** A well-formed movement whose key is already booked, for the same movement, replays. */
  lemma HitIsReplay(acc: Account, wallet: WalletId, m: Movement, p: nat)
    requires m.kind !in {Hold, HoldRelease} && m.amountMinor > 0
    requires m.currency.Some? ==> m.currency.value == wallet.currency
    requires m.key.Some? && FindKey(acc.entries, m.key.value) == Some(p)
    requires p < |acc.entries| && SameMovement(acc.entries[p], m)
    ensures Apply(acc, wallet, m)
         == Ok((acc, Receipt(acc.entries[p].seqNo, Signed(m), acc.entries[p].balanceAfter, true)))
  {
  }

  /**
   * A movement that succeeds keeps the ledger sound; it appends at most one
   * entry, and none at all when it is a replay; it never touches the freeze.
   */
  lemma ApplyKeepsSound(acc: Account, wallet: WalletId, m: Movement)
    requires Sound(acc)
    requires Apply(acc, wallet, m).Ok?
    ensures var (acc', receipt) := Apply(acc, wallet, m).value;
      && Sound(acc')
      && acc'.frozen == acc.frozen
      && (receipt.replayed ==> acc' == acc)
      && (!receipt.replayed ==> acc'.entries == acc.entries + [Booking(acc, m)])
      && 1 <= receipt.seqNo <= |acc'.entries|
      && acc'.entries[receipt.seqNo - 1].amountMinor == receipt.amountMinor == Signed(m)
      && acc'.entries[receipt.seqNo - 1].balanceAfter == receipt.balanceAfter
      && acc'.entries[receipt.seqNo - 1].kind == m.kind
      && (m.key.Some? ==> acc'.entries[receipt.seqNo - 1].key == m.key)
  {
    var (acc', receipt) := Apply(acc, wallet, m).value;
    if !receipt.replayed {
      ReplaysAppend(acc.entries, Booking(acc, m));
      KeysStayUnique(acc.entries, Booking(acc, m));
    }
  }

  /** No entry yet carries the movement's key. */
  predicate IsFresh(entries: seq<Entry>, m: Movement) {
    m.key.Some? ==> forall i :: 0 <= i < |entries| ==> entries[i].key != m.key
  }

  /** Money coming in raises the balance by its amount, frozen or not. */
  lemma CreditsRaise(acc: Account, wallet: WalletId, m: Movement)
    requires m.kind in {Deposit, BidFeeRefund, PaymentRefund, AdminCredit, PrizePayout}
    requires IsFresh(acc.entries, m) && acc.available >= 0
    ensures var r := Apply(acc, wallet, m);
      if m.amountMinor <= 0 then r == Err(InvalidAmount)
      else if m.currency.Some? && m.currency.value != wallet.currency then r == Err(CurrencyMismatch)
      else
        && r.Ok? && !r.value.1.replayed
        && r.value.0.available == acc.available + m.amountMinor
        && r.value.1.amountMinor == m.amountMinor
        && r.value.1.balanceAfter == acc.available + m.amountMinor
        && r.value.0.version == acc.version + 1 && r.value.0.frozen == acc.frozen
  {
  }

  /** Money going out lowers the balance by its amount, never from a frozen wallet and never below zero. */
  lemma DebitsLower(acc: Account, wallet: WalletId, m: Movement)
    requires m.kind in {Withdrawal, BidFee, AuctionPayment, AdminDebit, SellerPayout}
    requires IsFresh(acc.entries, m)
    ensures var r := Apply(acc, wallet, m);
      if m.amountMinor <= 0 then r == Err(InvalidAmount)
      else if m.currency.Some? && m.currency.value != wallet.currency then r == Err(CurrencyMismatch)
      else if acc.frozen then r == Err(WalletFrozen)
      else if acc.available < m.amountMinor then r == Err(InsufficientFunds)
      else
        && r.Ok? && !r.value.1.replayed
        && r.value.0.available == acc.available - m.amountMinor
        && r.value.1.amountMinor == -m.amountMinor
        && r.value.1.balanceAfter == acc.available - m.amountMinor
        && r.value.0.version == acc.version + 1 && !r.value.0.frozen
  {
  }

  /** Moving money between available and reserved is not a movement this ledger books. */
  lemma HoldsAreRefused(acc: Account, wallet: WalletId, m: Movement)
    requires m.kind in {Hold, HoldRelease}
    ensures Apply(acc, wallet, m) == Err(InvalidAmount)
  {
  }

  /** What a movement that booked something did to the balance, by the kind of its entry. */
  predicate MovesMoney(before: Account, after: Account, m: Movement) {
    match m.kind
    case Deposit => after.available == before.available + m.amountMinor
    case BidFeeRefund => after.available == before.available + m.amountMinor
    case PaymentRefund => after.available == before.available + m.amountMinor
    case AdminCredit => after.available == before.available + m.amountMinor
    case PrizePayout => after.available == before.available + m.amountMinor
    case Withdrawal => after.available == before.available - m.amountMinor && !before.frozen
    case BidFee => after.available == before.available - m.amountMinor && !before.frozen
    case AuctionPayment => after.available == before.available - m.amountMinor && !before.frozen
    case AdminDebit => after.available == before.available - m.amountMinor && !before.frozen
    case SellerPayout => after.available == before.available - m.amountMinor && !before.frozen
    case Hold => false
    case HoldRelease => false
  }

  /** A frozen wallet loses no money: whatever succeeds on it is a credit or a replay. */
  lemma FrozenNeverLoses(acc: Account, wallet: WalletId, m: Movement)
    requires Sound(acc) && acc.frozen
    requires Apply(acc, wallet, m).Ok?
    ensures Apply(acc, wallet, m).value.0.available >= acc.available
    ensures Apply(acc, wallet, m).value.0.available == acc.available <==> Apply(acc, wallet, m).value.1.replayed
  {
  }

  /**
   * Repeating a keyed movement after any later movements, frozen or not, books
   * nothing and reports the original entry.
   */
  lemma RepeatIsReplay(acc: Account, wallet: WalletId, m: Movement, later: Account)
    requires Sound(acc) && Sound(later)
    requires m.key.Some? && Apply(acc, wallet, m).Ok?
    requires Apply(acc, wallet, m).value.0.entries <= later.entries
    ensures Apply(later, wallet, m).Ok?
    ensures Apply(later, wallet, m).value.0 == later
    ensures Apply(later, wallet, m).value.1 == Apply(acc, wallet, m).value.1.(replayed := true)
  {
    ApplyKeepsSound(acc, wallet, m);
    var (acc', receipt) := Apply(acc, wallet, m).value;
    var p := receipt.seqNo - 1;
    assert later.entries[p] == acc'.entries[p];
    KeyFoundAt(later.entries, m.key.value, p);
    HitIsReplay(later, wallet, m, p);
    assert acc'.entries[p].seqNo == p + 1;
  }

  // -------------------------------------------------------------------------
  // The wallet module's tables and its two writers
  // -------------------------------------------------------------------------

  function Get(accounts: map<WalletId, Account>, w: WalletId): Account {
    if w in accounts then accounts[w] else EmptyAccount
  }

  function Ensured(accounts: map<WalletId, Account>, w: WalletId): map<WalletId, Account> {
    accounts[w := Get(accounts, w)]
  }

  /**
   * One movement in a transaction of its own. The wallet row is created first,
   * in its own statement, so it survives a refused movement.
   */
  function Posted(accounts: map<WalletId, Account>, w: WalletId, m: Movement)
    : (map<WalletId, Account>, Result<Receipt>)
  {
    match Apply(Get(accounts, w), w, m)
    case Err(e) => (Ensured(accounts, w), Err(e))
    case Ok((acc, receipt)) => (accounts[w := acc], Ok(receipt))
  }

  class Wallets {
    var accounts: map<WalletId, Account>

    constructor ()
      ensures accounts == map[]
    {
      accounts := map[];
    }

    /** Insert the wallet unless the user already has one in this currency. */
    method EnsureWallet(w: WalletId) returns (created: bool)
      modifies this
      ensures created == (w !in old(accounts))
      ensures accounts == Ensured(old(accounts), w)
      ensures accounts == if created then old(accounts)[w := Account(0, 0, false, [])] else old(accounts)
    {
      created := w !in accounts;
      if created {
        accounts := accounts[w := EmptyAccount];
      }
    }

    /** Lock, replay, check, write the cache, append the entry. */
    method ApplyMovement(w: WalletId, m: Movement) returns (r: Result<Receipt>)
      modifies this
      ensures w !in old(accounts) ==>
        r == Err(if m.kind in {Hold, HoldRelease} || m.amountMinor <= 0 then InvalidAmount else NotFound)
      ensures w in old(accounts) ==>
        match Apply(old(accounts)[w], w, m)
        case Err(e) => r == Err(e) && accounts == old(accounts)
        case Ok((acc, receipt)) => r == Ok(receipt) && accounts == old(accounts)[w := acc]
      ensures r.Err? ==> accounts == old(accounts)
      ensures r.Ok? ==> w in old(accounts) && w in accounts
      ensures r.Ok? && !r.value.replayed ==> MovesMoney(old(accounts)[w], accounts[w], m)
      ensures r.Ok? && r.value.replayed ==> accounts == old(accounts)
    {
      if m.kind in {Hold, HoldRelease} || m.amountMinor <= 0 {
        return Err(InvalidAmount);
      }
      if w !in accounts {
        return Err(NotFound);
      }
      var wallet := accounts[w];
      if m.currency.Some? && m.currency.value != w.currency {
        return Err(CurrencyMismatch);
      }
      var direction := Direction(m.kind);
      var signedMinor := direction * m.amountMinor;
      assert signedMinor == Signed(m);
      if m.key.Some? {
        var existing := FindKey(wallet.entries, m.key.value);
        if existing.Some? {
          var e := wallet.entries[existing.value];
          if !SameMovement(e, m) {
            return Err(IdempotencyConflict);
          }
          assert accounts == accounts[w := wallet];
          return Ok(Receipt(e.seqNo, e.amountMinor, e.balanceAfter, true));
        }
      }
      if direction == -1 && wallet.frozen {
        return Err(WalletFrozen);
      }
      var balanceAfter := wallet.available + signedMinor;
      if balanceAfter < 0 {
        return Err(InsufficientFunds);
      }
      // The cached balance first, with the version bump ...
      accounts := accounts[w := accounts[w].(available := balanceAfter, version := wallet.version + 1)];
      // ... then the entry, numbered by the version read under the lock.
      var entry := Entry(wallet.version + 1, m.kind, signedMinor, balanceAfter, m.reference, m.key);
      accounts := accounts[w := accounts[w].(entries := accounts[w].entries + [entry])];
      r := Ok(Receipt(entry.seqNo, signedMinor, balanceAfter, false));
    }

    /** Resolve the wallet, then post the movement in its own transaction. */
    method Move(w: WalletId, m: Movement) returns (r: Result<Receipt>)
      modifies this
      ensures (accounts, r) == Posted(old(accounts), w, m)
      ensures r.Ok? && !r.value.replayed ==> w in accounts && MovesMoney(Get(old(accounts), w), accounts[w], m)
      ensures r.Ok? && r.value.replayed ==> w in accounts && accounts[w] == Get(old(accounts), w)
    {
      var _ := EnsureWallet(w);
      r := ApplyMovement(w, m);
      assert accounts == old(accounts)[w := accounts[w]];
    }

    /** Freezing is idempotent and moves no money. */
    method SetFrozen(w: WalletId, frozen: bool) returns (r: Result<bool>)
      modifies this
      ensures w !in old(accounts) ==> r == Err(NotFound) && accounts == old(accounts)
      ensures w in old(accounts) ==>
        && r == Ok(old(accounts)[w].frozen != frozen)
        && accounts == old(accounts)[w := old(accounts)[w].(frozen := frozen)]
    {
      if w !in accounts {
        return Err(NotFound);
      }
      if accounts[w].frozen == frozen {
        assert accounts == accounts[w := accounts[w].(frozen := frozen)];
        return Ok(false);
      }
      accounts := accounts[w := accounts[w].(frozen := frozen)];
      return Ok(true);
    }
  }
}
