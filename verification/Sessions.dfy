/**
 * Refresh-token families: each rotation replaces the newest session of its
 * family, and presenting a token that has been replaced ends the whole family.
 */
module Sessions {
  import opened Common

  type SessionId = nat
  type FamilyId = nat

  /** A session row; its identifier is its position. The token hash is injective, so the token stands for it. */
  datatype Session = Session(
    user: UserId,
    family: FamilyId,
    token: string,
    expiresAt: int,
    revoked: bool,
    reason: string,
    reuseDetected: bool,
    replacedBy: Option<SessionId>)

  // -------------------------------------------------------------------------
  // What each operation does to the rows
  // -------------------------------------------------------------------------

  /** The session a token belongs to (unique index `sessions_refresh_token_hash_key`). */
  function FindByToken(rows: seq<Session>, token: string): (r: Option<SessionId>)
    ensures r.Some? ==> r.value < |rows| && rows[r.value].token == token
    ensures r.None? ==> forall i :: 0 <= i < |rows| ==> rows[i].token != token
  {
    if rows == [] then None
    else if rows[|rows| - 1].token == token then Some(|rows| - 1)
    else FindByToken(rows[..|rows| - 1], token)
  }

  const REUSE := "refresh_reuse"

  function EndOne(row: Session, reason: string): Session {
    row.(revoked := true, reason := reason, reuseDetected := row.reuseDetected || reason == REUSE)
  }

  /** Every unrevoked session of the family, revoked. */
  function FamilyEnded(rows: seq<Session>, family: FamilyId, reason: string): (r: seq<Session>)
    ensures |r| == |rows|
    ensures forall i :: 0 <= i < |rows| ==>
      r[i] == if rows[i].family == family && !rows[i].revoked then EndOne(rows[i], reason) else rows[i]
  {
    seq(|rows|, i requires 0 <= i < |rows| =>
      if rows[i].family == family && !rows[i].revoked then EndOne(rows[i], reason) else rows[i])
  }

  /** Every unrevoked session of the user, revoked. */
  function UserEnded(rows: seq<Session>, user: UserId, reason: string): (r: seq<Session>)
    ensures |r| == |rows|
    ensures forall i :: 0 <= i < |rows| ==>
      r[i] == if rows[i].user == user && !rows[i].revoked then rows[i].(revoked := true, reason := reason) else rows[i]
  {
    seq(|rows|, i requires 0 <= i < |rows| =>
      if rows[i].user == user && !rows[i].revoked then rows[i].(revoked := true, reason := reason) else rows[i])
  }

  /** A first session, in a family of its own. */
  function Issued(rows: seq<Session>, user: UserId, token: string, expiresAt: int): seq<Session> {
    if FindByToken(rows, token).Some? then rows
    else rows + [Session(user, |rows|, token, expiresAt, false, "", false, None)]
  }

  function Replaced(row: Session, successor: SessionId): Session {
    row.(revoked := true, reason := "rotated", replacedBy := Some(successor))
  }

  /**
   * One rotation: the reused token ends its family, durably, although the
   * caller is refused; the newest one is replaced by a new session.
   */
  function Rotated(rows: seq<Session>, token: string, next: string, now: int, expiresAt: int, active: bool)
    : (seq<Session>, Result<SessionId>)
  {
    var at := FindByToken(rows, token);
    if at.None? then (rows, Err(Unauthenticated))
    else
      var row := rows[at.value];
      if row.revoked then (FamilyEnded(rows, row.family, REUSE), Err(Unauthenticated))
      else if row.expiresAt <= now || !active || FindByToken(rows, next).Some? then (rows, Err(Unauthenticated))
      else
        (rows[at.value := Replaced(row, |rows|)] + [Session(row.user, row.family, next, expiresAt, false, "", false, None)],
         Ok(|rows|))
  }

  function LoggedOut(rows: seq<Session>, token: string): seq<Session> {
    var at := FindByToken(rows, token);
    if at.None? then rows else FamilyEnded(rows, rows[at.value].family, "logout")
  }

  // -------------------------------------------------------------------------
  // Families are chains
  // -------------------------------------------------------------------------

  /** The first session of the family at or after position `k`. */
  function NextFrom(rows: seq<Session>, family: FamilyId, k: nat): (r: Option<SessionId>)
    ensures r.Some? ==> k <= r.value < |rows| && rows[r.value].family == family
    ensures r.Some? ==> forall i :: k <= i < r.value ==> rows[i].family != family
    ensures r.None? ==> forall i :: k <= i < |rows| ==> rows[i].family != family
    decreases |rows| - k
  {
    if k >= |rows| then None
    else if rows[k].family == family then Some(k)
    else NextFrom(rows, family, k + 1)
  }

  /** A session is replaced by the next one of its family and by no other, and a replaced session is revoked. */
  ghost predicate Linked(rows: seq<Session>, i: SessionId)
    requires i < |rows|
  {
    && rows[i].replacedBy == NextFrom(rows, rows[i].family, i + 1)
    && (rows[i].replacedBy.Some? ==> rows[i].revoked)
  }

  predicate TokensUnique(rows: seq<Session>) {
    forall i, j :: 0 <= i < j < |rows| ==> rows[i].token != rows[j].token
  }

  /** A family's identifier was new when its first session was issued. */
  predicate FamiliesOlder(rows: seq<Session>) {
    forall i :: 0 <= i < |rows| ==> rows[i].family <= i
  }

  ghost predicate Chained(rows: seq<Session>) {
    TokensUnique(rows) && FamiliesOlder(rows) && forall i :: 0 <= i < |rows| ==> Linked(rows, i)
  }

  /** Only the newest session of a family can still be unrevoked. */
  lemma OnlyTheNewestLives(rows: seq<Session>, i: SessionId, j: SessionId)
    requires Chained(rows) && i < j < |rows| && rows[i].family == rows[j].family
    ensures rows[i].revoked
  {
    assert Linked(rows, i);
    assert NextFrom(rows, rows[i].family, i + 1).Some?;
  }

  lemma {:induction false} SameFamilies(rows: seq<Session>, rows': seq<Session>, family: FamilyId, k: nat)
    requires |rows'| == |rows| && forall i :: 0 <= i < |rows| ==> rows'[i].family == rows[i].family
    ensures NextFrom(rows', family, k) == NextFrom(rows, family, k)
    decreases |rows| - k
  {
    if k < |rows| {
      SameFamilies(rows, rows', family, k + 1);
    }
  }

  lemma {:induction false} NextAppended(rows: seq<Session>, row: Session, family: FamilyId, k: nat)
    requires k <= |rows|
    ensures NextFrom(rows + [row], family, k)
         == if NextFrom(rows, family, k).Some? then NextFrom(rows, family, k)
            else if row.family == family then Some(|rows|) else None
    decreases |rows| - k
  {
    if k < |rows| {
      NextAppended(rows, row, family, k + 1);
    }
  }

  /** Revoking more sessions breaks no chain. */
  lemma EndingKeepsChains(rows: seq<Session>, rows': seq<Session>)
    requires Chained(rows) && |rows'| == |rows|
    requires forall i :: 0 <= i < |rows| ==>
      && rows'[i].family == rows[i].family && rows'[i].token == rows[i].token
      && rows'[i].replacedBy == rows[i].replacedBy && (rows[i].revoked ==> rows'[i].revoked)
    ensures Chained(rows')
  {
    forall i | 0 <= i < |rows|
      ensures Linked(rows', i)
    {
      assert Linked(rows, i);
      SameFamilies(rows, rows', rows[i].family, i + 1);
    }
  }

  lemma IssuedKeeps(rows: seq<Session>, user: UserId, token: string, expiresAt: int)
    requires Chained(rows)
    ensures Chained(Issued(rows, user, token, expiresAt))
  {
    if FindByToken(rows, token).None? {
      var row := Session(user, |rows|, token, expiresAt, false, "", false, None);
      forall i | 0 <= i < |rows|
        ensures Linked(rows + [row], i)
      {
        assert Linked(rows, i);
        NextAppended(rows, row, rows[i].family, i + 1);
      }
      assert Linked(rows + [row], |rows|);
    }
  }

  /** The positions of a family's sessions, oldest first. */
  function MembersOf(rows: seq<Session>, family: FamilyId): seq<SessionId> {
    if rows == [] then []
    else
      var n := |rows| - 1;
      MembersOf(rows[..n], family) + if rows[n].family == family then [n] else []
  }

  lemma {:induction false} MembersSame(rows: seq<Session>, rows': seq<Session>, family: FamilyId)
    requires |rows'| == |rows| && forall i :: 0 <= i < |rows| ==> rows'[i].family == rows[i].family
    ensures MembersOf(rows', family) == MembersOf(rows, family)
    decreases |rows|
  {
    if rows != [] {
      MembersSame(rows[..|rows| - 1], rows'[..|rows| - 1], family);
    }
  }

  predicate Rotates(rows: seq<Session>, token: string, next: string, now: int, expiresAt: int, active: bool) {
    Rotated(rows, token, next, now, expiresAt, active).1.Ok?
  }

  /** The rows after replacing the session at `at`. */
  function Extended(rows: seq<Session>, at: SessionId, next: string, expiresAt: int): seq<Session>
    requires at < |rows|
  {
    rows[at := Replaced(rows[at], |rows|)]
    + [Session(rows[at].user, rows[at].family, next, expiresAt, false, "", false, None)]
  }

  lemma RotationIs(rows: seq<Session>, token: string, next: string, now: int, expiresAt: int, active: bool)
    requires Rotates(rows, token, next, now, expiresAt, active)
    ensures var at := FindByToken(rows, token);
      && at.Some? && !rows[at.value].revoked && FindByToken(rows, next).None?
      && Rotated(rows, token, next, now, expiresAt, active) == (Extended(rows, at.value, next, expiresAt), Ok(|rows|))
  {
  }

  /** A session that is still live is the newest of its family. */
  lemma LiveIsNewest(rows: seq<Session>, at: SessionId)
    requires Chained(rows) && at < |rows| && !rows[at].revoked
    ensures forall i :: at < i < |rows| ==> rows[i].family != rows[at].family
  {
    forall i | at < i < |rows|
      ensures rows[i].family != rows[at].family
    {
      if rows[i].family == rows[at].family {
        OnlyTheNewestLives(rows, at, i);
      }
    }
  }

  lemma ExtendedLinked(rows: seq<Session>, at: SessionId, next: string, expiresAt: int, i: SessionId)
    requires Chained(rows) && at < |rows| && !rows[at].revoked && i <= |rows|
    ensures Linked(Extended(rows, at, next, expiresAt), i)
  {
    hide TokensUnique, FamiliesOlder;
    var rows' := Extended(rows, at, next, expiresAt);
    var middle := rows[at := Replaced(rows[at], |rows|)];
    LiveIsNewest(rows, at);
    if i < |rows| {
      assert Linked(rows, i);
      SameFamilies(rows, middle, rows[i].family, i + 1);
      NextAppended(middle, rows'[|rows|], rows[i].family, i + 1);
      if i != at && rows[i].family == rows[at].family {
        assert i < at && NextFrom(rows, rows[i].family, i + 1).Some?;
      }
    }
  }

  lemma ExtendedIsChained(rows: seq<Session>, at: SessionId, next: string, expiresAt: int)
    requires Chained(rows) && at < |rows| && !rows[at].revoked && FindByToken(rows, next).None?
    ensures Chained(Extended(rows, at, next, expiresAt))
  {
    hide Linked;
    var rows' := Extended(rows, at, next, expiresAt);
    forall i | 0 <= i < |rows'| ensures Linked(rows', i) {
      ExtendedLinked(rows, at, next, expiresAt, i);
    }
  }

  /** A rotation adds one session at the end of its family's chain, linked from the one it replaces. */
  lemma RotationExtendsTheChain(rows: seq<Session>, token: string, next: string, now: int, expiresAt: int, active: bool)
    requires Chained(rows) && Rotates(rows, token, next, now, expiresAt, active)
    ensures var (rows', r) := Rotated(rows, token, next, now, expiresAt, active);
      var replaced := FindByToken(rows, token).value;
      var family := rows[replaced].family;
      && Chained(rows')
      && r.value < |rows'| && rows'[r.value].token == next && !rows'[r.value].revoked
      && rows'[r.value].user == rows[replaced].user && rows'[r.value].expiresAt == expiresAt
      && MembersOf(rows', family) == MembersOf(rows, family) + [r.value]
      && rows'[replaced].replacedBy == Some(r.value)
      && (forall f :: f != family ==> MembersOf(rows', f) == MembersOf(rows, f))
  {
    hide Chained, Rotated;
    RotationIs(rows, token, next, now, expiresAt, active);
    var at := FindByToken(rows, token).value;
    var middle := rows[at := Replaced(rows[at], |rows|)];
    var rows' := Extended(rows, at, next, expiresAt);
    ExtendedIsChained(rows, at, next, expiresAt);
    assert rows'[..|rows|] == middle;
    forall f
      ensures MembersOf(rows', f) == MembersOf(rows, f) + if f == rows[at].family then [|rows|] else []
    {
      MembersSame(rows, middle, f);
    }
  }

  /**
   * A rotation succeeds exactly when some live session carries the token and has
   * not expired, its user is active, and the next token is not in use.
   */
  lemma RotatesExactlyWhen(rows: seq<Session>, token: string, next: string, now: int, expiresAt: int, active: bool)
    requires Chained(rows)
    ensures Rotated(rows, token, next, now, expiresAt, active).1.Ok? <==>
      && (exists i :: 0 <= i < |rows| && rows[i].token == token && !rows[i].revoked && now < rows[i].expiresAt)
      && active
      && (forall j :: 0 <= j < |rows| ==> rows[j].token != next)
  {
    hide Chained;
    if i :| 0 <= i < |rows| && rows[i].token == token {
      TokenFindsItsSession(rows, i);
      forall j | 0 <= j < |rows| && rows[j].token == token
        ensures j == i
      {
        TokenFindsItsSession(rows, j);
      }
    }
  }

  /** A live token that cannot be rotated is refused and nothing is written; an unknown one likewise. */
  lemma RefusalWritesNothing(rows: seq<Session>, token: string, next: string, now: int, expiresAt: int, active: bool)
    requires Chained(rows)
    requires forall i :: 0 <= i < |rows| && rows[i].token == token ==>
      && !rows[i].revoked
      && (rows[i].expiresAt <= now || !active || exists j :: 0 <= j < |rows| && rows[j].token == next)
    ensures Rotated(rows, token, next, now, expiresAt, active) == (rows, Err(Unauthenticated))
  {
    hide Chained;
  }

  /** Logging out ends the family of a known token for good, and touches no other; an unknown one does nothing. */
  lemma LogOutEndsTheFamily(rows: seq<Session>, i: SessionId, token: string)
    requires Chained(rows)
    ensures i < |rows| && rows[i].token == token ==>
      && Dead(LoggedOut(rows, token), rows[i].family)
      && |LoggedOut(rows, token)| == |rows|
      && (forall j :: 0 <= j < |rows| && rows[j].family != rows[i].family ==> LoggedOut(rows, token)[j] == rows[j])
    ensures (forall j :: 0 <= j < |rows| ==> rows[j].token != token) ==> LoggedOut(rows, token) == rows
  {
    if i < |rows| && rows[i].token == token {
      TokenFindsItsSession(rows, i);
    }
  }

  lemma RotationKeeps(rows: seq<Session>, token: string, next: string, now: int, expiresAt: int, active: bool)
    requires Chained(rows)
    ensures Chained(Rotated(rows, token, next, now, expiresAt, active).0)
  {
    hide Chained;
    var at := FindByToken(rows, token);
    if Rotates(rows, token, next, now, expiresAt, active) {
      RotationExtendsTheChain(rows, token, next, now, expiresAt, active);
    } else if at.Some? && rows[at.value].revoked {
      EndingKeepsChains(rows, FamilyEnded(rows, rows[at.value].family, REUSE));
    }
  }

  // -------------------------------------------------------------------------
  // Runs
  // -------------------------------------------------------------------------

  datatype Event =
    | Issue(user: UserId, token: string, expiresAt: int)
    | Rotate(token: string, next: string, now: int, expiresAt: int, active: bool)
    | LogOut(token: string)
    | RevokeAll(user: UserId, reason: string)

  function React(rows: seq<Session>, event: Event): seq<Session> {
    match event
    case Issue(user, token, expiresAt) => Issued(rows, user, token, expiresAt)
    case Rotate(token, next, now, expiresAt, active) => Rotated(rows, token, next, now, expiresAt, active).0
    case LogOut(token) => LoggedOut(rows, token)
    case RevokeAll(user, reason) => UserEnded(rows, user, reason)
  }

  function ReactAll(rows: seq<Session>, events: seq<Event>): seq<Session>
    decreases |events|
  {
    if events == [] then rows else ReactAll(React(rows, events[0]), events[1..])
  }

  lemma ReactKeeps(rows: seq<Session>, event: Event)
    requires Chained(rows)
    ensures Chained(React(rows, event))
  {
    hide Chained, Rotated, Issued;
    match event
    case Issue(user, token, expiresAt) => IssuedKeeps(rows, user, token, expiresAt);
    case Rotate(token, next, now, expiresAt, active) => RotationKeeps(rows, token, next, now, expiresAt, active);
    case LogOut(token) => EndingKeepsChains(rows, LoggedOut(rows, token));
    case RevokeAll(user, reason) => EndingKeepsChains(rows, UserEnded(rows, user, reason));
  }

  /** No session of the family can be used any more. */
  ghost predicate Dead(rows: seq<Session>, family: FamilyId) {
    family < |rows| && forall i :: 0 <= i < |rows| && rows[i].family == family ==> rows[i].revoked
  }

  /** The same sessions, none of them revived. */
  ghost predicate OnlyEnded(rows: seq<Session>, rows': seq<Session>) {
    |rows'| == |rows|
    && forall i :: 0 <= i < |rows| ==> rows'[i].family == rows[i].family && (rows[i].revoked ==> rows'[i].revoked)
  }

  lemma EndedStaysDead(rows: seq<Session>, rows': seq<Session>, family: FamilyId)
    requires Dead(rows, family) && OnlyEnded(rows, rows')
    ensures Dead(rows', family) && MembersOf(rows', family) == MembersOf(rows, family)
  {
    MembersSame(rows, rows', family);
  }

  lemma GrownStaysDead(rows: seq<Session>, middle: seq<Session>, row: Session, family: FamilyId)
    requires Dead(rows, family) && OnlyEnded(rows, middle) && row.family != family
    ensures Dead(middle + [row], family) && MembersOf(middle + [row], family) == MembersOf(rows, family)
  {
    assert (middle + [row])[..|middle|] == middle;
    MembersSame(rows, middle, family);
  }

  lemma DeadStaysDead(rows: seq<Session>, event: Event, family: FamilyId)
    requires Dead(rows, family)
    ensures Dead(React(rows, event), family)
    ensures MembersOf(React(rows, event), family) == MembersOf(rows, family)
  {
    hide MembersOf;
    match event
    case Issue(user, token, expiresAt) =>
      if FindByToken(rows, token).None? {
        GrownStaysDead(rows, rows, Session(user, |rows|, token, expiresAt, false, "", false, None), family);
      }
    case Rotate(token, next, now, expiresAt, active) =>
      var at := FindByToken(rows, token);
      if Rotates(rows, token, next, now, expiresAt, active) {
        RotationIs(rows, token, next, now, expiresAt, active);
        GrownStaysDead(rows, rows[at.value := Replaced(rows[at.value], |rows|)],
          Session(rows[at.value].user, rows[at.value].family, next, expiresAt, false, "", false, None), family);
      } else if at.Some? && rows[at.value].revoked {
        EndedStaysDead(rows, FamilyEnded(rows, rows[at.value].family, REUSE), family);
      }
    case LogOut(token) => EndedStaysDead(rows, LoggedOut(rows, token), family);
    case RevokeAll(user, reason) => EndedStaysDead(rows, UserEnded(rows, user, reason), family);
  }

  /**
   * After any run of logins, rotations, logouts and revocations every family is
   * a chain in which at most the newest session lives, and a family with no
   * living session never gets one again.
   */
  lemma {:induction false} FamiliesStaySound(rows: seq<Session>, events: seq<Event>, family: FamilyId)
    requires Chained(rows)
    ensures var rows' := ReactAll(rows, events);
      && Chained(rows')
      && (Dead(rows, family) ==> Dead(rows', family) && MembersOf(rows', family) == MembersOf(rows, family))
    decreases |events|
  {
    hide Chained, React, Dead;
    if events != [] {
      ReactKeeps(rows, events[0]);
      if Dead(rows, family) {
        DeadStaysDead(rows, events[0], family);
      }
      FamiliesStaySound(React(rows, events[0]), events[1..], family);
    }
  }

  /**
   * Presenting any token of a family but its newest refuses the caller and ends
   * the family for good: in no later state does any of its tokens rotate.
   */
  lemma ReuseEndsTheFamily(rows: seq<Session>, token: string, next: string, now: int, expiresAt: int, active: bool,
                           events: seq<Event>, late: Event, i: SessionId, j: SessionId)
    requires Chained(rows) && i < j < |rows| && rows[i].family == rows[j].family && rows[i].token == token
    ensures var (after, r) := Rotated(rows, token, next, now, expiresAt, active);
      && r == Err(Unauthenticated)
      && Dead(after, rows[i].family)
      && Dead(ReactAll(after, events), rows[i].family)
      && (late.Rotate? && FindByToken(ReactAll(after, events), late.token).Some?
          && ReactAll(after, events)[FindByToken(ReactAll(after, events), late.token).value].family == rows[i].family
          ==> Rotated(ReactAll(after, events), late.token, late.next, late.now, late.expiresAt, late.active).1.Err?)
  {
    TokenFindsItsSession(rows, i);
    OnlyTheNewestLives(rows, i, j);
    hide Chained, FamilyEnded, ReactAll;
    var after := Rotated(rows, token, next, now, expiresAt, active).0;
    RotationKeeps(rows, token, next, now, expiresAt, active);
    assert after == FamilyEnded(rows, rows[i].family, REUSE);
    FamiliesStaySound(after, events, rows[i].family);
    if late.Rotate? {
      DeadTokensAreRefused(ReactAll(after, events), rows[i].family, late);
    }
  }

  lemma TokenFindsItsSession(rows: seq<Session>, i: SessionId)
    requires Chained(rows) && i < |rows|
    ensures FindByToken(rows, rows[i].token) == Some(i)
    ensures rows[i].family <= i
  {
    hide Linked;
  }

  lemma DeadTokensAreRefused(rows: seq<Session>, family: FamilyId, late: Event)
    requires Dead(rows, family) && late.Rotate?
    ensures var at := FindByToken(rows, late.token);
      at.Some? && rows[at.value].family == family ==>
        Rotated(rows, late.token, late.next, late.now, late.expiresAt, late.active).1.Err?
  {
  }

  // -------------------------------------------------------------------------
  // The services
  // -------------------------------------------------------------------------

  class SessionStore {
    var rows: seq<Session>

    constructor ()
      ensures rows == []
    {
      rows := [];
    }

    method CreateSession(user: UserId, family: Option<FamilyId>, token: string, expiresAt: int) returns (r: Result<SessionId>)
      modifies this
      ensures FindByToken(old(rows), token).Some? ==> r.Err? && rows == old(rows)
      ensures FindByToken(old(rows), token).None? ==>
        && r == Ok(|old(rows)|)
        && rows == old(rows) + [Session(user, if family.Some? then family.value else |old(rows)|,
                                        token, expiresAt, false, "", false, None)]
    {
      if FindByToken(rows, token).Some? {
        return Err(Unauthenticated);
      }
      var id := |rows|;
      rows := rows + [Session(user, if family.Some? then family.value else id, token, expiresAt, false, "", false, None)];
      return Ok(id);
    }

    method RevokeSession(id: SessionId, reason: string)
      requires id < |rows|
      modifies this
      ensures rows == old(rows)[id := old(rows)[id].(revoked := true, reason := reason)]
    {
      rows := rows[id := rows[id].(revoked := true, reason := reason)];
    }

    method LinkRotatedSession(previous: SessionId, next: SessionId)
      requires previous < |rows|
      modifies this
      ensures rows == old(rows)[previous := old(rows)[previous].(replacedBy := Some(next))]
    {
      rows := rows[previous := rows[previous].(replacedBy := Some(next))];
    }

    /** Row by row, counting those that were still live. */
    method RevokeSessionFamily(family: FamilyId, reason: string) returns (revoked: nat)
      modifies this
      ensures rows == FamilyEnded(old(rows), family, reason)
      ensures revoked == |set i: nat | i < |old(rows)| && old(rows)[i].family == family && !old(rows)[i].revoked|
    {
      revoked := 0;
      ghost var ended: set<nat> := {};
      for k := 0 to |rows|
        invariant |rows| == |old(rows)|
        invariant forall i :: k <= i < |rows| ==> rows[i] == old(rows)[i]
        invariant forall i :: 0 <= i < k ==> rows[i] == FamilyEnded(old(rows), family, reason)[i]
        invariant revoked == |ended|
        invariant forall i: nat :: i in ended <==> i < k && old(rows)[i].family == family && !old(rows)[i].revoked
      {
        if rows[k].family == family && !rows[k].revoked {
          rows := rows[k := EndOne(rows[k], reason)];
          revoked := revoked + 1;
          ended := ended + {k};
        }
      }
      assert ended == set i: nat | i < |old(rows)| && old(rows)[i].family == family && !old(rows)[i].revoked;
    }

    method IssueSession(user: UserId, token: string, expiresAt: int) returns (r: Result<SessionId>)
      modifies this
      ensures rows == Issued(old(rows), user, token, expiresAt)
    {
      r := CreateSession(user, None, token, expiresAt);
    }

    /** The rotation transaction; a reused token is handled after it has been rolled back. */
    method RotateSession(token: string, next: string, now: int, expiresAt: int, active: bool) returns (r: Result<SessionId>)
      modifies this
      ensures (rows, r) == Rotated(old(rows), token, next, now, expiresAt, active)
      ensures r.Ok? ==>
        exists i ::
          && 0 <= i < |old(rows)| && old(rows)[i].token == token
          && !old(rows)[i].revoked && now < old(rows)[i].expiresAt
      ensures r.Ok? ==> active && r.value < |rows| && rows[r.value].token == next && !rows[r.value].revoked
    {
      var found := FindByToken(rows, token);
      if found.None? {
        return Err(Unauthenticated);
      }
      var id := found.value;
      var session := rows[id];
      if session.revoked {
        var _ := RevokeSessionFamily(session.family, REUSE);
        return Err(Unauthenticated);
      }
      if session.expiresAt <= now {
        return Err(Unauthenticated);
      }
      if !active {
        return Err(Unauthenticated);
      }
      var created := CreateSession(session.user, Some(session.family), next, expiresAt);
      if created.Err? {
        return Err(Unauthenticated);
      }
      RevokeSession(id, "rotated");
      LinkRotatedSession(id, created.value);
      assert rows == Extended(old(rows), id, next, expiresAt);
      return created;
    }

    /** Logging out with an unknown token does nothing, quietly. */
    method RevokeByRefreshToken(token: string)
      modifies this
      ensures rows == LoggedOut(old(rows), token)
    {
      var found := FindByToken(rows, token);
      if found.Some? {
        var _ := RevokeSessionFamily(rows[found.value].family, "logout");
      }
    }
  }
}
