/**
 Refresh-token rotation over whole runs. A refresh reads the session, decides, and
 later runs the rotate script; anything may happen to the store in between. Every
 issued token hash is new; clocks are arbitrary except where a theorem says so.
 */
module SessionProtocol {
  import opened Prelude
  import opened Sessions

  const SECONDS_PER_DAY := 86400

  datatype Mode = Sliding | Absolute

  datatype Policy = Policy(mode: Mode, ttlDays: nat, absoluteMaxDays: nat)

  /** What settings validation guarantees. */
  predicate ValidPolicy(p: Policy) {
    p.ttlDays > 0 && p.absoluteMaxDays > 0 && (p.mode == Sliding ==> p.absoluteMaxDays >= p.ttlDays)
  }

  function Ttl(p: Policy): nat {
    p.ttlDays * SECONDS_PER_DAY
  }

  /** calculate_initial_session_expiration: the absolute bound of a session created now. */
  function AbsoluteBound(p: Policy, createdAt: int): int {
    createdAt + if p.mode == Sliding then p.absoluteMaxDays * SECONDS_PER_DAY else Ttl(p)
  }

  /** calculate_rotated_session_expiration */
  function RotatedExpiry(p: Policy, at: int, currentExpiresAt: int, absoluteExpiresAt: int): int {
    if p.mode == Absolute then currentExpiresAt
    else if at + Ttl(p) < absoluteExpiresAt then at + Ttl(p) else absoluteExpiresAt
  }

  function NewSession(p: Policy, user: UserId, hash: TokenHash, now: int): Session {
    Session(user, hash, now, now, now + Ttl(p), AbsoluteBound(p, now))
  }

  // ---- The service calls -----------------------------------------------------------------

  datatype RefreshResult = Refreshed(ttl: int) | InvalidToken | InactiveUser

  /** The session still has time: an absolute one until it expires, a sliding one until its bound. */
  ghost predicate InTime(p: Policy, session: Session, now: int) {
    match p.mode
    case Absolute => now < session.expiresAt
    case Sliding => now < session.absoluteExpiresAt && p.ttlDays > 0
  }

  /** Everything refresh checks before it looks at the token: owner, account and remaining time. */
  ghost predicate Eligible(p: Policy, s: Store, active: Option<bool>, id: SessionId, claimed: UserId, now: int) {
    id in s.hashes && s.hashes[id].user == claimed && active == Some(true) && InTime(p, s.hashes[id], now)
  }

  /** AuthService.refresh after the token's signature was checked; `active` is the user's row, if any. */
  method Refresh(repo: SessionRepository, p: Policy, active: Option<bool>, id: SessionId, claimed: UserId,
                 presented: TokenHash, next: TokenHash, now: int)
    returns (r: RefreshResult)
    requires IndexAgrees(repo.store)
    modifies repo
    ensures IndexAgrees(repo.store)
    ensures r.Refreshed? <==> Eligible(p, old(repo.store), active, id, claimed, now) && Accepts(old(repo.store), id, presented)
    ensures active != Some(true) ==> repo.store == old(repo.store)
    ensures r == InactiveUser <==> id in old(repo.store).hashes && old(repo.store).hashes[id].user == claimed && active == Some(false)
    ensures r.Refreshed? ==>
      && id in old(repo.store).hashes && old(repo.store).hashes[id].user == claimed && old(repo.store).hashes[id].hash == presented
      && active == Some(true) && r.ttl > 0
    ensures r.Refreshed? ==>
      var before := old(repo.store).hashes[id];
      var expiresAt := RotatedExpiry(p, now, before.expiresAt, before.absoluteExpiresAt);
      && r.ttl == expiresAt - now
      && repo.store.hashes == old(repo.store).hashes[id := before.(hash := next, lastUsedAt := now, expiresAt := expiresAt)]
    ensures !r.Refreshed? && Eligible(p, old(repo.store), active, id, claimed, now) ==>
      old(repo.store).hashes[id].hash != presented && EndsOne(old(repo.store), repo.store, id, claimed)
    ensures !Eligible(p, old(repo.store), active, id, claimed, now) ==> repo.store == old(repo.store)
  {
    if id !in repo.store.hashes {
      return InvalidToken;
    }
    var session := repo.store.hashes[id];
    if session.user != claimed || active.None? {
      return InvalidToken;
    }
    if !active.value {
      return InactiveUser;
    }
    var expiresAt := RotatedExpiry(p, now, session.expiresAt, session.absoluteExpiresAt);
    if expiresAt - now <= 0 {
      return InvalidToken;
    }
    RotatedKeeps(repo.store, id, claimed, presented, next, now, expiresAt);
    var result := repo.Rotate(id, claimed, presented, next, now, expiresAt);
    return if result == Success then Refreshed(expiresAt - now) else InvalidToken;
  }

  // ---- Runs ----------------------------------------------------------------------------------

  datatype Issue = Issue(id: SessionId, hash: TokenHash)
  datatype Sighting = Sighting(id: SessionId, session: Session)

  /** The store, and what has happened so far: the tokens issued, the newest of each session, the records ever readable. */
  datatype World = World(store: Store, ghost newest: map<SessionId, TokenHash>, ghost issued: set<Issue>, ghost seen: set<Sighting>)

  datatype Action =
    | Login(id: SessionId, user: UserId, hash: TokenHash, now: int)
    | Rotate(id: SessionId, read: Session, presented: TokenHash, next: TokenHash, now: int)
    | Logout(id: SessionId, user: UserId, presented: TokenHash)
    | Revoke(id: SessionId, user: UserId)
    | RevokeAll(id: SessionId, user: UserId)
    | List(user: UserId)
    | TimeOut(id: SessionId)

  function StoreAfter(p: Policy, s: Store, a: Action): Store {
    match a
    case Login(id, user, hash, now) => Added(s, id, NewSession(p, user, hash, now))
    case Rotate(id, read, presented, next, now) =>
      Rotated(s, id, read.user, presented, next, now, RotatedExpiry(p, now, read.expiresAt, read.absoluteExpiresAt))
    case Logout(id, user, presented) => DeletedIfMatching(s, id, user, presented)
    case Revoke(id, user) => Revoked(s, id, user)
    case RevokeAll(id, user) => RevokedAll(s, id, user)
    case List(user) => WithoutStale(s, user)
    case TimeOut(id) => TimedOut(s, id)
  }

  predicate Succeeds(s: Store, a: Action) {
    a.Rotate? && Accepts(s, a.id, a.presented)
  }

  ghost predicate MayHappen(w: World, a: Action) {
    match a
    case Login(id, _, _, _) => id !in w.newest
    case Rotate(id, read, presented, next, now) =>
      && Sighting(id, read) in w.seen
      && Issue(id, next) !in w.issued
    case _ => true
  }

  ghost function Do(p: Policy, w: World, a: Action): World {
    var store := StoreAfter(p, w.store, a);
    var issuedNow := if a.Login? then map[a.id := a.hash] else if Succeeds(w.store, a) then map[a.id := a.next] else map[];
    World(store, w.newest + issuedNow, w.issued + (set id | id in issuedNow :: Issue(id, issuedNow[id])),
          w.seen + (set id | id in store.hashes :: Sighting(id, store.hashes[id])))
  }

  ghost const START := World(Store(map[], map[]), map[], {}, {})

  ghost predicate Step(p: Policy, w: World, a: Action, w': World) {
    MayHappen(w, a) && w' == Do(p, w, a)
  }

  /** `w[i]` is the world before action `i` of the run. */
  ghost predicate Run(p: Policy, w: seq<World>, run: seq<Action>) {
    && |w| == |run| + 1 && w[0] == START
    && (forall i {:trigger Step(p, w[i], run[i], w[i + 1])} :: 0 <= i < |run| ==> Step(p, w[i], run[i], w[i + 1]))
  }

  lemma StepAt(p: Policy, w: seq<World>, run: seq<Action>, i: nat)
    requires Run(p, w, run) && i < |run|
    ensures MayHappen(w[i], run[i]) && w[i + 1] == Do(p, w[i], run[i])
  {
    assert Step(p, w[i], run[i], w[i + 1]);
  }

  // ---- The invariant -----------------------------------------------------------------------------

  /** Nothing of a session ever changes but its token, its last use and its expiry. */
  ghost predicate SameSession(p: Policy, a: Session, b: Session) {
    && a.user == b.user && a.createdAt == b.createdAt && a.absoluteExpiresAt == b.absoluteExpiresAt
    && (p.mode == Absolute ==> a.expiresAt == b.expiresAt)
  }

  ghost predicate SeenAgree(p: Policy, w: World) {
    && (forall sighting :: sighting in w.seen ==> sighting.id in w.newest)
    && (forall sighting :: sighting in w.seen && sighting.id in w.store.hashes ==>
          SameSession(p, sighting.session, w.store.hashes[sighting.id]))
  }

  ghost predicate TokensAgree(w: World) {
    && (forall id :: id in w.store.hashes ==> id in w.newest && w.store.hashes[id].hash == w.newest[id])
    && (forall id :: id in w.newest ==> Issue(id, w.newest[id]) in w.issued)
    && (forall issue :: issue in w.issued ==> issue.id in w.newest)
    && (forall entry :: entry in w.store.index ==> entry.id in w.newest)
  }

  /** The expiry a live session has: by its last use when sliding, fixed when absolute. */
  ghost predicate Dated(p: Policy, s: Session) {
    && s.absoluteExpiresAt == AbsoluteBound(p, s.createdAt)
    && s.expiresAt == RotatedExpiry(p, s.lastUsedAt, AbsoluteBound(p, s.createdAt), AbsoluteBound(p, s.createdAt))
  }

  ghost predicate AllDated(p: Policy, s: Store) {
    forall id :: id in s.hashes ==> Dated(p, s.hashes[id])
  }

  ghost predicate Inv(p: Policy, w: World) {
    IndexAgrees(w.store) && TokensAgree(w) && SeenAgree(p, w)
  }

  // ---- Every step keeps it ------------------------------------------------------------------------

  lemma StepKeepsIndex(p: Policy, w: World, a: Action)
    requires Inv(p, w) && MayHappen(w, a)
    ensures IndexAgrees(StoreAfter(p, w.store, a))
  {
    match a
    case Login(id, user, hash, now) => AddedKeeps(w.store, id, NewSession(p, user, hash, now));
    case Rotate(id, read, presented, next, now) =>
      assert Sighting(id, read) in w.seen;
      RotatedKeeps(w.store, id, read.user, presented, next, now, RotatedExpiry(p, now, read.expiresAt, read.absoluteExpiresAt));
    case Logout(id, user, _) => RemovedKeeps(w.store, id, user);
    case Revoke(id, user) => RemovedKeeps(w.store, id, user);
    case RevokeAll(id, user) => RevokedAllKeeps(w.store, id, user);
    case List(user) => WithoutStaleKeeps(w.store, user);
    case TimeOut(_) =>
  }

  /** A step adds at most the session it logs in, and changes at most the one it rotates. */
  lemma StepChanges(p: Policy, s: Store, a: Action, id: SessionId)
    requires id in StoreAfter(p, s, a).hashes
    ensures (a.Login? && a.id == id) || id in s.hashes
    ensures (a.Login? && a.id == id) || (Succeeds(s, a) && a.id == id) || StoreAfter(p, s, a).hashes[id] == s.hashes[id]
  {}

  lemma StepIndexIds(p: Policy, s: Store, a: Action, entry: Entry)
    requires entry in StoreAfter(p, s, a).index
    ensures entry in s.index || (a.Login? && a.id == entry.id) || (Succeeds(s, a) && a.id == entry.id)
  {}

  lemma StepKeepsTokens(p: Policy, w: World, a: Action)
    requires Inv(p, w) && MayHappen(w, a)
    ensures TokensAgree(Do(p, w, a))
  {
    var w' := Do(p, w, a);
    forall id | id in w'.store.hashes ensures id in w'.newest && w'.store.hashes[id].hash == w'.newest[id] {
      StepChanges(p, w.store, a, id);
    }
    forall entry | entry in w'.store.index ensures entry.id in w'.newest {
      StepIndexIds(p, w.store, a, entry);
    }
  }

  lemma StepKeepsSeen(p: Policy, w: World, a: Action)
    requires Inv(p, w) && MayHappen(w, a)
    ensures SeenAgree(p, Do(p, w, a))
  {
    var w' := Do(p, w, a);
    forall sighting | sighting in w'.seen
      ensures sighting.id in w'.newest
      ensures sighting.id in w'.store.hashes ==> SameSession(p, sighting.session, w'.store.hashes[sighting.id])
    {
      var id := sighting.id;
      if id in w'.store.hashes {
        StepChanges(p, w.store, a, id);
        if Succeeds(w.store, a) && a.id == id {
          assert Sighting(id, a.read) in w.seen;
        }
      }
    }
  }

  lemma StepKeepsInv(p: Policy, w: World, a: Action)
    requires Inv(p, w) && MayHappen(w, a)
    ensures Inv(p, Do(p, w, a))
  {
    StepKeepsIndex(p, w, a);
    StepKeepsTokens(p, w, a);
    StepKeepsSeen(p, w, a);
  }

  lemma {:induction false} RunKeepsInv(p: Policy, w: seq<World>, run: seq<Action>, n: nat)
    requires Run(p, w, run) && n <= |run|
    ensures Inv(p, w[n])
  {
    if n == 0 {
    } else {
      RunKeepsInv(p, w, run, n - 1);
      StepAt(p, w, run, n - 1);
      StepKeepsInv(p, w[n - 1], run[n - 1]);
    }
  }

  // ---- Tokens ----------------------------------------------------------------------------------------

  /** At any time a session accepts its newest token only, and only while it lives. */
  lemma OnlyTheNewestIsAccepted(p: Policy, w: seq<World>, run: seq<Action>, n: nat, id: SessionId, hash: TokenHash)
    requires Run(p, w, run) && n <= |run|
    ensures Accepts(w[n].store, id, hash) <==> id in w[n].store.hashes && id in w[n].newest && w[n].newest[id] == hash
  {
    RunKeepsInv(p, w, run, n);
  }

  /** The token was issued for the session and has been replaced. */
  ghost predicate Retired(w: World, id: SessionId, hash: TokenHash) {
    Issue(id, hash) in w.issued && id in w.newest && w.newest[id] != hash
  }

  ghost predicate Gone(w: World, id: SessionId) {
    id in w.newest && id !in w.store.hashes
  }

  lemma {:induction false} RetiredStays(p: Policy, w: seq<World>, run: seq<Action>, i: nat, j: nat, id: SessionId, hash: TokenHash)
    requires Run(p, w, run) && i <= j <= |run| && Retired(w[i], id, hash)
    ensures Retired(w[j], id, hash)
  {
    if i == j {
    } else {
      RetiredStays(p, w, run, i, j - 1, id, hash);
      StepAt(p, w, run, j - 1);
      RetiredOneStep(p, w[j - 1], run[j - 1], id, hash);
    }
  }

  lemma RetiredOneStep(p: Policy, w: World, a: Action, id: SessionId, hash: TokenHash)
    requires MayHappen(w, a) && Retired(w, id, hash)
    ensures Retired(Do(p, w, a), id, hash)
  {}

  lemma GoneOneStep(p: Policy, w: World, a: Action, id: SessionId)
    requires MayHappen(w, a) && Gone(w, id)
    ensures Gone(Do(p, w, a), id)
  {}

  lemma {:induction false} GoneStays(p: Policy, w: seq<World>, run: seq<Action>, i: nat, j: nat, id: SessionId)
    requires Run(p, w, run) && i <= j <= |run| && Gone(w[i], id)
    ensures Gone(w[j], id)
  {
    if i == j {
    } else {
      GoneStays(p, w, run, i, j - 1, id);
      StepAt(p, w, run, j - 1);
      GoneOneStep(p, w[j - 1], run[j - 1], id);
    }
  }

  ghost predicate SucceedsAt(w: seq<World>, run: seq<Action>, i: nat) {
    i < |run| && i < |w| && Succeeds(w[i].store, run[i])
  }

  lemma SuccessRetiresItsToken(p: Policy, w: seq<World>, run: seq<Action>, i: nat)
    requires Run(p, w, run) && SucceedsAt(w, run, i)
    ensures Retired(w[i + 1], run[i].id, run[i].presented)
  {
    RunKeepsInv(p, w, run, i);
    StepAt(p, w, run, i);
  }

  /** In any run each issued token is rotated successfully at most once. */
  lemma EachTokenRotatesAtMostOnce(p: Policy, w: seq<World>, run: seq<Action>, i: nat, j: nat)
    requires Run(p, w, run) && i < j < |run|
    requires SucceedsAt(w, run, i) && SucceedsAt(w, run, j) && run[i].id == run[j].id
    ensures run[i].presented != run[j].presented
  {
    SuccessRetiresItsToken(p, w, run, i);
    RetiredStays(p, w, run, i + 1, j, run[i].id, run[i].presented);
    RunKeepsInv(p, w, run, j);
  }

  lemma ReplayDeletes(p: Policy, w: World, a: Action)
    requires Inv(p, w) && a.Rotate? && a.id in w.store.hashes && !Succeeds(w.store, a)
    ensures Gone(Do(p, w, a), a.id)
  {}

  /** Presenting a token the live session no longer accepts ends the session: from then on it accepts nothing. */
  lemma ReplayEndsTheSession(p: Policy, w: seq<World>, run: seq<Action>, i: nat, j: nat)
    requires Run(p, w, run) && i < j <= |run|
    requires run[i].Rotate? && run[i].id in w[i].store.hashes && !SucceedsAt(w, run, i)
    ensures run[i].id !in w[j].store.hashes
    ensures SucceedsAt(w, run, j) ==> run[j].id != run[i].id
  {
    RunKeepsInv(p, w, run, i);
    StepAt(p, w, run, i);
    ReplayDeletes(p, w[i], run[i]);
    GoneStays(p, w, run, i + 1, j, run[i].id);
  }

  // ---- How a session ends -----------------------------------------------------------------------------

  /** The action ends this live session: its key times out, a replay of it, its owner's logout with the current token, or a revocation by its owner. */
  ghost predicate Ends(s: Store, a: Action, id: SessionId)
    requires id in s.hashes
  {
    var session := s.hashes[id];
    match a
    case Login(_, _, _, _) => false
    case Rotate(of, _, presented, _, _) => of == id && presented != session.hash
    case Logout(of, user, presented) => of == id && user == session.user && presented == session.hash
    case Revoke(of, user) => of == id && user == session.user
    case RevokeAll(current, user) => user == session.user && current in s.hashes && s.hashes[current].user == user
    case List(_) => false
    case TimeOut(of) => of == id
  }

  lemma EndsExactly(p: Policy, w: World, a: Action, id: SessionId)
    requires Inv(p, w) && MayHappen(w, a) && id in w.store.hashes
    ensures id !in StoreAfter(p, w.store, a).hashes <==> Ends(w.store, a, id)
  {
    if a.RevokeAll? {
      RevokedAllEndsJust(w.store, a.id, a.user);
      assert Indexed(w.store, id);
    }
  }

  /**
   In any run a live session ends exactly by one of these, its owner's logout with the newest token among them,
   and then it is gone for good: no token of it is accepted again. Nobody else's action ends it.
   */
  lemma SessionEndsExactly(p: Policy, w: seq<World>, run: seq<Action>, i: nat, j: nat, id: SessionId)
    requires Run(p, w, run) && i < j <= |run| && id in w[i].store.hashes
    ensures id !in w[i + 1].store.hashes <==> Ends(w[i].store, run[i], id)
    ensures Ends(w[i].store, run[i], id) ==> Gone(w[j], id) && !SucceedsFor(w, run, j, id)
  {
    RunKeepsInv(p, w, run, i);
    StepAt(p, w, run, i);
    EndsExactly(p, w[i], run[i], id);
    if Ends(w[i].store, run[i], id) {
      GoneStays(p, w, run, i + 1, j, id);
    }
  }

  ghost predicate SucceedsFor(w: seq<World>, run: seq<Action>, j: nat, id: SessionId) {
    SucceedsAt(w, run, j) && run[j].id == id
  }

  /** Every device of the user is logged out by one bulk revocation, and no one else's is. */
  lemma RevokeAllLogsOutEveryDevice(p: Policy, w: seq<World>, run: seq<Action>, i: nat, id: SessionId)
    requires Run(p, w, run) && i < |run| && run[i].RevokeAll? && OwnedBy(w[i].store, run[i].id, run[i].user)
    requires id in w[i].store.hashes
    ensures id !in w[i + 1].store.hashes <==> w[i].store.hashes[id].user == run[i].user
  {
    SessionEndsExactly(p, w, run, i, i + 1, id);
  }

  // ---- Expiry ------------------------------------------------------------------------------------------

  lemma LoginIsDated(p: Policy, user: UserId, hash: TokenHash, now: int)
    requires ValidPolicy(p)
    ensures Dated(p, NewSession(p, user, hash, now))
  {}

  lemma StepKeepsDates(p: Policy, w: World, a: Action)
    requires ValidPolicy(p) && Inv(p, w) && AllDated(p, w.store) && MayHappen(w, a)
    ensures AllDated(p, StoreAfter(p, w.store, a))
  {
    forall id | id in StoreAfter(p, w.store, a).hashes ensures Dated(p, StoreAfter(p, w.store, a).hashes[id]) {
      StepChanges(p, w.store, a, id);
      if a.Login? && a.id == id {
        LoginIsDated(p, a.user, a.hash, a.now);
      } else if Succeeds(w.store, a) && a.id == id {
        assert Sighting(id, a.read) in w.seen;
      }
    }
  }

  /** Whatever the clock does, every live session keeps the expiry its policy gives it. */
  lemma {:induction false} RunKeepsDates(p: Policy, w: seq<World>, run: seq<Action>, n: nat)
    requires ValidPolicy(p) && Run(p, w, run) && n <= |run|
    ensures AllDated(p, w[n].store)
  {
    if n == 0 {
    } else {
      RunKeepsDates(p, w, run, n - 1);
      RunKeepsInv(p, w, run, n - 1);
      StepAt(p, w, run, n - 1);
      StepKeepsDates(p, w[n - 1], run[n - 1]);
    }
  }

  /** In any run, with any clock: when each live session expires, and its absolute bound, in days of 24 hours. */
  lemma ExpiryIsGoverned(p: Policy, w: seq<World>, run: seq<Action>, n: nat, id: SessionId)
    requires ValidPolicy(p) && Run(p, w, run) && n <= |run| && id in w[n].store.hashes
    ensures var s := w[n].store.hashes[id];
            var idle, latest := s.lastUsedAt + p.ttlDays * (24 * 60 * 60), s.createdAt + p.absoluteMaxDays * (24 * 60 * 60);
            match p.mode
            case Absolute => s.expiresAt == s.absoluteExpiresAt == s.createdAt + p.ttlDays * (24 * 60 * 60)
            case Sliding => s.absoluteExpiresAt == latest && s.expiresAt == if idle < latest then idle else latest
  {
    RunKeepsDates(p, w, run, n);
  }

  /** The bound never moves and is never passed, with any clock. */
  lemma BoundedByAbsolute(p: Policy, s: Session)
    requires ValidPolicy(p) && Dated(p, s)
    ensures s.expiresAt <= s.absoluteExpiresAt
    ensures s.absoluteExpiresAt <= s.createdAt + (if p.mode == Sliding then p.absoluteMaxDays else p.ttlDays) * SECONDS_PER_DAY
  {}

  /** An accepted rotation shrinks the expiry exactly when the clock stepped back and the bound did not decide. */
  lemma ShrinksExactlyWhenTheClockStepsBack(p: Policy, w: World, a: Action)
    requires ValidPolicy(p) && Inv(p, w) && AllDated(p, w.store) && MayHappen(w, a) && Succeeds(w.store, a)
    ensures a.id in StoreAfter(p, w.store, a).hashes
    ensures var before, after := w.store.hashes[a.id], StoreAfter(p, w.store, a).hashes[a.id];
            after.expiresAt < before.expiresAt <==>
              p.mode == Sliding && a.now < before.lastUsedAt && a.now + Ttl(p) < before.absoluteExpiresAt
  {
    assert Sighting(a.id, a.read) in w.seen;
  }

  /** At each accepted rotation of the session the clock is not behind its last use. */
  ghost predicate ClockKeepsUp(w: seq<World>, run: seq<Action>, id: SessionId) {
    forall i: nat {:trigger SucceedsAt(w, run, i)} :: SucceedsAt(w, run, i) && run[i].id == id ==> w[i].store.hashes[id].lastUsedAt <= run[i].now
  }

  lemma StepNeverShrinksExpiry(p: Policy, w: World, a: Action, id: SessionId)
    requires ValidPolicy(p) && Inv(p, w) && AllDated(p, w.store) && MayHappen(w, a)
    requires id in w.store.hashes && id in StoreAfter(p, w.store, a).hashes
    requires Succeeds(w.store, a) && a.id == id ==> w.store.hashes[id].lastUsedAt <= a.now
    ensures w.store.hashes[id].expiresAt <= StoreAfter(p, w.store, a).hashes[id].expiresAt
  {
    StepChanges(p, w.store, a, id);
    assert a.Login? ==> a.id != id;
    if Succeeds(w.store, a) && a.id == id {
      ShrinksExactlyWhenTheClockStepsBack(p, w, a);
    }
  }

  lemma StepKeepsBound(p: Policy, w: World, a: Action, id: SessionId)
    requires Inv(p, w) && MayHappen(w, a) && id in w.store.hashes && id in StoreAfter(p, w.store, a).hashes
    ensures w.store.hashes[id].absoluteExpiresAt == StoreAfter(p, w.store, a).hashes[id].absoluteExpiresAt
  {
    StepChanges(p, w.store, a, id);
    assert a.Login? ==> a.id != id;
  }

  /** A session that lives at two moments lived in between: ids are never used again. */
  lemma LivedBetween(p: Policy, w: seq<World>, run: seq<Action>, i: nat, k: nat, j: nat, id: SessionId)
    requires Run(p, w, run) && i <= k <= j <= |run|
    requires id in w[i].store.hashes && id in w[j].store.hashes
    ensures id in w[k].store.hashes
  {
    RunKeepsInv(p, w, run, i);
    NewestStays(p, w, run, i, k, id);
    if id !in w[k].store.hashes {
      GoneStays(p, w, run, k, j, id);
    }
  }

  lemma NewestOneStep(p: Policy, w: World, a: Action, id: SessionId)
    requires id in w.newest
    ensures id in Do(p, w, a).newest
  {}

  lemma {:induction false} NewestStays(p: Policy, w: seq<World>, run: seq<Action>, i: nat, j: nat, id: SessionId)
    requires Run(p, w, run) && i <= j <= |run| && id in w[i].newest
    ensures id in w[j].newest
  {
    if i == j {
    } else {
      NewestStays(p, w, run, i, j - 1, id);
      StepAt(p, w, run, j - 1);
      NewestOneStep(p, w[j - 1], run[j - 1], id);
    }
  }

  lemma NeverPastTheBound(p: Policy, w: seq<World>, run: seq<Action>, n: nat, id: SessionId)
    requires ValidPolicy(p) && Run(p, w, run) && n <= |run| && id in w[n].store.hashes
    ensures w[n].store.hashes[id].expiresAt <= w[n].store.hashes[id].absoluteExpiresAt
  {
    RunKeepsDates(p, w, run, n);
    BoundedByAbsolute(p, w[n].store.hashes[id]);
  }

  /** While a session lives its absolute bound never moves. */
  lemma {:induction false} BoundNeverMoves(p: Policy, w: seq<World>, run: seq<Action>, i: nat, j: nat, id: SessionId)
    requires Run(p, w, run) && i <= j <= |run|
    requires id in w[i].store.hashes && id in w[j].store.hashes
    ensures w[i].store.hashes[id].absoluteExpiresAt == w[j].store.hashes[id].absoluteExpiresAt
  {
    if i == j {
    } else {
      LivedBetween(p, w, run, i, j - 1, j, id);
      BoundNeverMoves(p, w, run, i, j - 1, id);
      RunKeepsInv(p, w, run, j - 1);
      StepAt(p, w, run, j - 1);
      StepKeepsBound(p, w[j - 1], run[j - 1], id);
    }
  }

  lemma OneStepNeverShrinksExpiry(p: Policy, w: seq<World>, run: seq<Action>, n: nat, id: SessionId)
    requires ValidPolicy(p) && Run(p, w, run) && ClockKeepsUp(w, run, id) && n < |run|
    requires id in w[n].store.hashes && id in w[n + 1].store.hashes
    ensures w[n].store.hashes[id].expiresAt <= w[n + 1].store.hashes[id].expiresAt
  {
    RunKeepsInv(p, w, run, n);
    RunKeepsDates(p, w, run, n);
    StepAt(p, w, run, n);
    assert SucceedsAt(w, run, n) ==> Succeeds(w[n].store, run[n]);
    StepNeverShrinksExpiry(p, w[n], run[n], id);
  }

  /** While a session lives, and the clock keeps up with its uses, its expiry never shrinks; its fixed bound is never passed. */
  lemma {:induction false} ExpiryGrowsWithinItsBound(p: Policy, w: seq<World>, run: seq<Action>, i: nat, j: nat, id: SessionId)
    requires ValidPolicy(p) && Run(p, w, run) && ClockKeepsUp(w, run, id) && i <= j <= |run|
    requires id in w[i].store.hashes && id in w[j].store.hashes
    ensures var s, s' := w[i].store.hashes[id], w[j].store.hashes[id];
            s.expiresAt <= s'.expiresAt <= s'.absoluteExpiresAt == s.absoluteExpiresAt
  {
    NeverPastTheBound(p, w, run, j, id);
    BoundNeverMoves(p, w, run, i, j, id);
    if i == j {
    } else {
      LivedBetween(p, w, run, i, j - 1, j, id);
      ExpiryGrowsWithinItsBound(p, w, run, i, j - 1, id);
      OneStepNeverShrinksExpiry(p, w, run, j - 1, id);
    }
  }

  /** A run in which a rotation with the clock a day back shortens a session that slides by the week. */
  lemma ClockStepsBack() returns (p: Policy, w: seq<World>, run: seq<Action>)
    ensures ValidPolicy(p) && Run(p, w, run) && |run| == 2 && SucceedsAt(w, run, 1)
    ensures 1 in w[1].store.hashes && 1 in w[2].store.hashes
    ensures w[2].store.hashes[1].expiresAt < w[1].store.hashes[1].expiresAt
  {
    p := Policy(Sliding, 7, 30);
    var session := NewSession(p, 1, 1, SECONDS_PER_DAY);
    run := [Login(1, 1, 1, SECONDS_PER_DAY), Rotate(1, session, 1, 2, 0)];
    var w1 := Do(p, START, run[0]);
    w := [START, w1, Do(p, w1, run[1])];
    assert Sighting(1, session) in w1.seen;
    assert Step(p, w[0], run[0], w[1]) && Step(p, w[1], run[1], w[2]);
  }
}
