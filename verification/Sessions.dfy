/**
 The session store: one hash per session and one sorted set of session ids per
 user, scored by last use. A Lua script runs as one step; inside it the commands
 take effect one after another. A key's expiry removes the hash and leaves the
 sorted-set entry behind.
 */
module Sessions {
  import opened Prelude

  type SessionId = nat
  type TokenHash = nat

  datatype Session = Session(user: UserId, hash: TokenHash, createdAt: int, lastUsedAt: int, expiresAt: int, absoluteExpiresAt: int)

  datatype Entry = Entry(user: UserId, id: SessionId)

  datatype Store = Store(hashes: map<SessionId, Session>, index: map<Entry, int>)

  // ---- What each script does to the store -------------------------------------------

  function Added(s: Store, id: SessionId, session: Session): Store {
    Store(s.hashes[id := session], s.index[Entry(session.user, id) := session.lastUsedAt])
  }

  function Removed(s: Store, id: SessionId, user: UserId): Store {
    Store(s.hashes - {id}, s.index - {Entry(user, id)})
  }

  function Refreshed(s: Store, id: SessionId, user: UserId, hash: TokenHash, at: int, expiresAt: int): Store
    requires id in s.hashes
  {
    Store(s.hashes[id := s.hashes[id].(hash := hash, lastUsedAt := at, expiresAt := expiresAt)], s.index[Entry(user, id) := at])
  }

  predicate Accepts(s: Store, id: SessionId, hash: TokenHash) {
    id in s.hashes && s.hashes[id].hash == hash
  }

  function Rotated(s: Store, id: SessionId, user: UserId, expected: TokenHash, next: TokenHash, at: int, expiresAt: int): Store {
    if id !in s.hashes then s
    else if s.hashes[id].hash != expected then Removed(s, id, user)
    else Refreshed(s, id, user, next, at, expiresAt)
  }

  predicate OwnedBy(s: Store, id: SessionId, user: UserId) {
    id in s.hashes && s.hashes[id].user == user
  }

  function DeletedIfMatching(s: Store, id: SessionId, user: UserId, expected: TokenHash): Store {
    if OwnedBy(s, id, user) && Accepts(s, id, expected) then Removed(s, id, user) else s
  }

  function Revoked(s: Store, id: SessionId, user: UserId): Store {
    if OwnedBy(s, id, user) then Removed(s, id, user) else s
  }

  ghost function LiveOf(s: Store, user: UserId): set<SessionId> {
    set id | id in s.hashes && s.hashes[id].user == user
  }

  ghost function MembersOf(s: Store, user: UserId): set<SessionId> {
    set entry | entry in s.index && entry.user == user :: entry.id
  }

  /** The user's sessions that bulk revocation finds: those in the sorted set, and the current one. */
  function Revocable(s: Store, current: SessionId, user: UserId): set<SessionId> {
    set id | id in s.hashes && s.hashes[id].user == user && (id == current || Entry(user, id) in s.index)
  }

  function WithoutIndex(s: Store, user: UserId): map<Entry, int> {
    map entry | entry in s.index && entry.user != user :: s.index[entry]
  }

  function RevokedAll(s: Store, current: SessionId, user: UserId): Store {
    if OwnedBy(s, current, user) then Store(s.hashes - Revocable(s, current, user), WithoutIndex(s, user)) else s
  }

  /** Entries of sessions that no longer exist are dropped from the user's set. */
  function WithoutStale(s: Store, user: UserId): Store {
    s.(index := map entry | entry in s.index && (entry.user == user ==> entry.id in s.hashes) :: s.index[entry])
  }

  function TimedOut(s: Store, id: SessionId): Store {
    s.(hashes := s.hashes - {id})
  }

  // ---- The invariant ------------------------------------------------------------------

  /** A live session is in its owner's sorted set with its last use as score, and in no other user's. */
  ghost predicate Indexed(s: Store, id: SessionId)
    requires id in s.hashes
  {
    var owner := s.hashes[id].user;
    && Entry(owner, id) in s.index && s.index[Entry(owner, id)] == s.hashes[id].lastUsedAt
    && forall entry :: entry in s.index && entry.id == id ==> entry.user == owner
  }

  ghost predicate IndexAgrees(s: Store) {
    forall id :: id in s.hashes ==> Indexed(s, id)
  }

  /** An id no key or sorted set mentions. */
  ghost predicate Unused(s: Store, id: SessionId) {
    id !in s.hashes && forall entry :: entry in s.index ==> entry.id != id
  }

  lemma AddedKeeps(s: Store, id: SessionId, session: Session)
    requires IndexAgrees(s) && Unused(s, id)
    ensures IndexAgrees(Added(s, id, session))
  {}

  lemma RemovedKeeps(s: Store, id: SessionId, user: UserId)
    requires IndexAgrees(s)
    ensures IndexAgrees(Removed(s, id, user))
  {}

  /** The rotate script does not look at the owner: it keeps the index right exactly if a successful caller names the owner. */
  lemma RotatedKeeps(s: Store, id: SessionId, user: UserId, expected: TokenHash, next: TokenHash, at: int, expiresAt: int)
    requires IndexAgrees(s)
    ensures IndexAgrees(Rotated(s, id, user, expected, next, at, expiresAt)) <==>
            (Accepts(s, id, expected) ==> s.hashes[id].user == user)
  {
    var after := Rotated(s, id, user, expected, next, at, expiresAt);
    if Accepts(s, id, expected) && s.hashes[id].user != user {
      assert Entry(user, id) in after.index;
      assert !Indexed(after, id);
    } else {
      forall k | k in after.hashes ensures Indexed(after, k) {
        assert Indexed(s, k);
      }
    }
  }

  lemma RevokedAllKeeps(s: Store, current: SessionId, user: UserId)
    requires IndexAgrees(s)
    ensures IndexAgrees(RevokedAll(s, current, user))
  {
    var after := RevokedAll(s, current, user);
    forall id | id in after.hashes ensures Indexed(after, id) {
      assert Indexed(s, id);
    }
  }

  lemma WithoutStaleKeeps(s: Store, user: UserId)
    requires IndexAgrees(s)
    ensures IndexAgrees(WithoutStale(s, user))
    ensures MembersOf(WithoutStale(s, user), user) == LiveOf(s, user)
  {}

  // ---- What a caller may rely on ----------------------------------------------------------

  /** Exactly the sessions `ended` are gone; every other session is as it was. */
  ghost predicate EndsJust(before: Store, after: Store, ended: set<SessionId>) {
    && (forall id :: id in before.hashes && id !in ended ==> id in after.hashes && after.hashes[id] == before.hashes[id])
    && (forall id :: id in after.hashes ==> id in before.hashes && id !in ended)
  }

  /** Entries for which `dropped` holds are gone; every other entry keeps its score, and none is new. */
  ghost predicate DropsJust(before: Store, after: Store, dropped: Entry -> bool) {
    && (forall entry :: entry in before.index && !dropped(entry) ==> entry in after.index && after.index[entry] == before.index[entry])
    && (forall entry :: entry in after.index ==> entry in before.index && !dropped(entry))
  }

  /** One session ends, with its entry in the sorted set of the user named. */
  ghost predicate EndsOne(before: Store, after: Store, id: SessionId, user: UserId) {
    EndsJust(before, after, {id}) && DropsJust(before, after, entry => entry == Entry(user, id))
  }

  /** No session but `id` and no entry but that of `id` for `user` differs. */
  ghost predicate ChangesOne(before: Store, after: Store, id: SessionId, user: UserId) {
    && (forall other :: other != id ==> (other in before.hashes <==> other in after.hashes))
    && (forall other :: other != id && other in before.hashes ==> after.hashes[other] == before.hashes[other])
    && (forall entry :: entry != Entry(user, id) ==> (entry in before.index <==> entry in after.index))
    && (forall entry :: entry != Entry(user, id) && entry in before.index ==> after.index[entry] == before.index[entry])
  }

  /** Bulk revocation ends the user's listed sessions and the current one, and empties the user's sorted set; without a current session of the user it does nothing. */
  lemma RevokedAllEndsJust(s: Store, current: SessionId, user: UserId)
    ensures forall id :: id in Revocable(s, current, user) <==>
              id in s.hashes && s.hashes[id].user == user && (id == current || Entry(user, id) in s.index)
    ensures if current in s.hashes && s.hashes[current].user == user then
              && EndsJust(s, RevokedAll(s, current, user), Revocable(s, current, user))
              && DropsJust(s, RevokedAll(s, current, user), (entry: Entry) => entry.user == user)
            else
              RevokedAll(s, current, user) == s
  {}

  /** With the index right those are all the user's live sessions, and no one else's. */
  lemma RevokedAllTakesEverySession(s: Store, current: SessionId, user: UserId)
    requires IndexAgrees(s) && OwnedBy(s, current, user)
    ensures EndsJust(s, RevokedAll(s, current, user), LiveOf(s, user))
    ensures DropsJust(s, RevokedAll(s, current, user), (entry: Entry) => entry.user == user)
  {
    forall id | id in LiveOf(s, user) ensures id in Revocable(s, current, user) {
      assert Indexed(s, id);
    }
  }

  // ---- The repository ---------------------------------------------------------------------

  datatype RotationResult = Success | SessionNotFound | TokenMismatch
  datatype DeletionResult = Deleted | DeletionNotFound | DeletionMismatch

  /** `ids` lists the user's sorted set by rising score, equal scores by rising id. */
  ghost predicate RangeOf(s: Store, user: UserId, ids: seq<SessionId>) {
    && (forall id :: id in ids <==> Entry(user, id) in s.index)
    && (forall i, j :: 0 <= i < j < |ids| ==> Before(s, user, ids[i], ids[j]))
  }

  predicate Before(s: Store, user: UserId, a: SessionId, b: SessionId) {
    && Entry(user, a) in s.index && Entry(user, b) in s.index
    && (s.index[Entry(user, a)] < s.index[Entry(user, b)] || (s.index[Entry(user, a)] == s.index[Entry(user, b)] && a < b))
  }

  class SessionRepository {
    var store: Store

    constructor ()
      ensures store == Store(map[], map[])
    {
      store := Store(map[], map[]);
    }

    // ---- Single commands ----

    method Del(id: SessionId) returns (count: nat)
      modifies this
      ensures store == old(store).(hashes := old(store).hashes - {id})
      ensures count == if id in old(store).hashes then 1 else 0
    {
      count := if id in store.hashes then 1 else 0;
      store := store.(hashes := store.hashes - {id});
    }

    method ZRem(user: UserId, id: SessionId)
      modifies this
      ensures store == old(store).(index := old(store).index - {Entry(user, id)})
    {
      store := store.(index := store.index - {Entry(user, id)});
    }

    method ZAdd(user: UserId, id: SessionId, score: int)
      modifies this
      ensures store == old(store).(index := old(store).index[Entry(user, id) := score])
    {
      store := store.(index := store.index[Entry(user, id) := score]);
    }

    method DelIndex(user: UserId)
      modifies this
      ensures store.hashes == old(store).hashes
      ensures store.index == map entry | entry in old(store).index && entry.user != user :: old(store).index[entry]
    {
      store := store.(index := map entry | entry in store.index && entry.user != user :: store.index[entry]);
    }

    /** ZRANGE key 0 -1: the least remaining entry, again and again. */
    method ZRange(user: UserId) returns (ids: seq<SessionId>)
      ensures RangeOf(store, user, ids)
    {
      ids := [];
      var left := set entry | entry in store.index && entry.user == user;
      while left != {}
        invariant forall entry :: entry in left ==> entry in store.index && entry.user == user
        invariant forall id :: id in ids ==> Entry(user, id) in store.index && Entry(user, id) !in left
        invariant forall entry :: entry in store.index && entry.user == user ==> entry in left || entry.id in ids
        invariant forall i, j :: 0 <= i < j < |ids| ==> Before(store, user, ids[i], ids[j])
        invariant forall i, entry :: 0 <= i < |ids| && entry in left ==> Before(store, user, ids[i], entry.id)
        decreases |left|
      {
        var least := LeastOf(left, user);
        ids := ids + [least.id];
        left := left - {least};
      }
    }

    method LeastOf(entries: set<Entry>, user: UserId) returns (least: Entry)
      requires entries != {} && forall entry :: entry in entries ==> entry in store.index && entry.user == user
      ensures least in entries
      ensures forall entry :: entry in entries && entry != least ==> Before(store, user, least.id, entry.id)
    {
      least :| least in entries;
      var rest := entries - {least};
      while rest != {}
        invariant rest <= entries && least in entries
        invariant forall entry :: entry in entries - rest && entry != least ==> Before(store, user, least.id, entry.id)
        decreases |rest|
      {
        var entry :| entry in rest;
        if Before(store, user, entry.id, least.id) {
          least := entry;
        }
        rest := rest - {entry};
      }
    }

    // ---- Scripts ----

    method Create(id: SessionId, session: Session)
      modifies this
      ensures store == Added(old(store), id, session)
      ensures ChangesOne(old(store), store, id, session.user)
      ensures id in store.hashes && store.hashes[id] == session
      ensures Entry(session.user, id) in store.index && store.index[Entry(session.user, id)] == session.lastUsedAt
    {
      store := store.(hashes := store.hashes[id := session]);
      ZAdd(session.user, id, session.lastUsedAt);
    }

    method Rotate(id: SessionId, user: UserId, expected: TokenHash, next: TokenHash, at: int, expiresAt: int)
      returns (result: RotationResult)
      modifies this
      ensures store == Rotated(old(store), id, user, expected, next, at, expiresAt)
      ensures result == Success <==> Accepts(old(store), id, expected)
      ensures result == SessionNotFound <==> id !in old(store).hashes
      ensures result == SessionNotFound ==> store == old(store)
      ensures result == TokenMismatch ==> EndsOne(old(store), store, id, user)
      ensures result == Success ==>
        && ChangesOne(old(store), store, id, user)
        && id in store.hashes && store.hashes[id].hash == next && store.hashes[id].lastUsedAt == at && store.hashes[id].expiresAt == expiresAt
        && store.hashes[id].user == old(store).hashes[id].user && store.hashes[id].createdAt == old(store).hashes[id].createdAt
        && store.hashes[id].absoluteExpiresAt == old(store).hashes[id].absoluteExpiresAt
        && Entry(user, id) in store.index && store.index[Entry(user, id)] == at
    {
      if id !in store.hashes {
        return SessionNotFound;
      }
      if store.hashes[id].hash != expected {
        var deleted := Del(id);
        ZRem(user, id);
        return TokenMismatch;
      }
      store := store.(hashes := store.hashes[id := store.hashes[id].(hash := next, lastUsedAt := at, expiresAt := expiresAt)]);
      ZAdd(user, id, at);
      return Success;
    }

    method DeleteIfMatches(id: SessionId, user: UserId, expected: TokenHash) returns (result: DeletionResult)
      modifies this
      ensures store == DeletedIfMatching(old(store), id, user, expected)
      ensures result == DeletionNotFound <==> id !in old(store).hashes
      ensures result == Deleted <==>
        id in old(store).hashes && old(store).hashes[id].user == user && old(store).hashes[id].hash == expected
      ensures result == Deleted ==> EndsOne(old(store), store, id, user)
      ensures result != Deleted ==> store == old(store)
    {
      if id !in store.hashes {
        return DeletionNotFound;
      }
      if store.hashes[id].user != user || store.hashes[id].hash != expected {
        return DeletionMismatch;
      }
      var deleted := Del(id);
      ZRem(user, id);
      return Deleted;
    }

    method Revoke(id: SessionId, user: UserId) returns (found: bool)
      modifies this
      ensures store == Revoked(old(store), id, user)
      ensures found <==> id in old(store).hashes && old(store).hashes[id].user == user
      ensures found ==> EndsOne(old(store), store, id, user)
      ensures !found ==> store == old(store)
    {
      if id !in store.hashes || store.hashes[id].user != user {
        return false;
      }
      var deleted := Del(id);
      ZRem(user, id);
      return true;
    }

    /** Everything the script finds goes at once, and the count is exact: at least one, the current session. */
    method RevokeAll(current: SessionId, user: UserId) returns (revoked: Option<nat>)
      modifies this
      ensures store == RevokedAll(old(store), current, user)
      ensures revoked.Some? <==> current in old(store).hashes && old(store).hashes[current].user == user
      ensures revoked.None? ==> store == old(store)
      ensures revoked.Some? ==> revoked.value == |Revocable(old(store), current, user)| >= 1
    {
      if current !in store.hashes || store.hashes[current].user != user {
        return None;
      }
      ghost var before := store;
      var ids := ZRange(user);
      var count := RevokeListed(ids, user);
      var last := Del(current);
      count := count + last;
      DelIndex(user);
      assert Revocable(before, current, user) == OwnedIn(before, ids, user) + {current};
      return Some(count);
    }

    /** The script's loop: each listed session of the user is deleted and counted. */
    method RevokeListed(ids: seq<SessionId>, user: UserId) returns (count: nat)
      requires RangeOf(store, user, ids)
      modifies this
      ensures store == old(store).(hashes := old(store).hashes - OwnedIn(old(store), ids, user))
      ensures count == |OwnedIn(old(store), ids, user)|
    {
      ghost var before := store;
      count := 0;
      for i := 0 to |ids|
        invariant store == before.(hashes := before.hashes - OwnedIn(before, ids[..i], user))
        invariant count == |OwnedIn(before, ids[..i], user)|
      {
        var id := ids[i];
        DistinctUpTo(before, user, ids, i);
        NextOwned(before, ids, user, i);
        if id in store.hashes && store.hashes[id].user == user {
          var deleted := Del(id);
          count := count + deleted;
        }
      }
      assert ids[..|ids|] == ids;
    }

    /** The sessions in the user's sorted set, highest score first; entries without a session are dropped on the way. */
    method ListForUser(user: UserId) returns (ids: seq<SessionId>)
      modifies this
      ensures store == WithoutStale(old(store), user)
      ensures store.hashes == old(store).hashes
      ensures DropsJust(old(store), store, (entry: Entry) => entry.user == user && entry.id !in old(store).hashes)
      ensures ListingOf(old(store), user, ids)
    {
      var members := ZRange(user);
      ids := [];
      var stale: set<SessionId> := {};
      var i := |members|;
      while i > 0
        invariant 0 <= i <= |members|
        invariant forall id :: id in ids <==> id in members[i..] && id in store.hashes
        invariant forall id :: id in stale <==> id in members[i..] && id !in store.hashes
        invariant forall a, b :: 0 <= a < b < |ids| ==> Before(store, user, ids[b], ids[a])
        invariant forall a, b :: 0 <= a < |ids| && 0 <= b < i ==> Before(store, user, members[b], ids[a])
      {
        i := i - 1;
        var id := members[i];
        if id !in store.hashes {
          stale := stale + {id};
        } else {
          ids := ids + [id];
        }
      }
      ghost var before := store;
      store := store.(index := map entry | entry in store.index && !(entry.user == user && entry.id in stale) :: store.index[entry]);
      assert store.index == WithoutStale(before, user).index;
    }
  }

  /** The sorted set's members that still exist, by falling score. */
  ghost predicate ListingOf(s: Store, user: UserId, ids: seq<SessionId>) {
    && (forall id :: id in ids <==> Entry(user, id) in s.index && id in s.hashes)
    && (forall i, j :: 0 <= i < j < |ids| ==> Before(s, user, ids[j], ids[i]))
  }

  ghost predicate MoreRecent(at: int, id: SessionId, at': int, id': SessionId) {
    at > at' || (at == at' && id > id')
  }

  /** With the index right, a listing is exactly the user's live sessions, most recently used first. */
  lemma ListingIsExact(s: Store, user: UserId, ids: seq<SessionId>)
    requires IndexAgrees(s) && ListingOf(s, user, ids)
    ensures forall id :: id in ids <==> id in LiveOf(s, user)
    ensures forall i, j :: 0 <= i < j < |ids| ==>
      && ids[i] in s.hashes && ids[j] in s.hashes
      && MoreRecent(s.hashes[ids[i]].lastUsedAt, ids[i], s.hashes[ids[j]].lastUsedAt, ids[j])
  {
    forall id | id in ids || id in LiveOf(s, user)
      ensures id in ids && id in LiveOf(s, user) && s.index[Entry(user, id)] == s.hashes[id].lastUsedAt
    {
      assert Indexed(s, id);
    }
  }

  /** The listed sessions that exist and belong to the user. */
  ghost function OwnedIn(s: Store, ids: seq<SessionId>, user: UserId): set<SessionId> {
    set id | id in ids && OwnedBy(s, id, user)
  }

  lemma NextOwned(s: Store, ids: seq<SessionId>, user: UserId, i: nat)
    requires i < |ids|
    ensures OwnedIn(s, ids[..i + 1], user) == OwnedIn(s, ids[..i], user) + if OwnedBy(s, ids[i], user) then {ids[i]} else {}
  {}

  lemma DistinctUpTo(s: Store, user: UserId, ids: seq<SessionId>, i: nat)
    requires RangeOf(s, user, ids) && i < |ids|
    ensures ids[i] !in ids[..i]
  {}
}
