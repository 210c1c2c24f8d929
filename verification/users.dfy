/** The `/users` route handlers: lookup, creation, the deletion cascade,
    the follow / unfollow endpoints and the partial update. */
module UsersRoute {
  import opened Base
  import opened Store
  import opened Entities
  import opened Subscriptions
  import opened Crud

  /** GET /users/:id. A non-UUID id and an unknown id both answer `null`
      with NOT_FOUND; the store is only read. */
  function GetUser(st: State, id: Id): (r: Reply<User>)
    ensures r.state == st
    ensures r.body.Some? <==> ValidUuid(id) && HasKey(st.users, UserKey, id)
    ensures r.body.Some? ==> r.body.value in st.users && r.body.value.id == id && r.status == Ok
    ensures r.body.None? ==> r.status == NotFound
  {
    var t := GetById(st.users, UserKey, id);
    Reply(st.(users := t.table), t.body, t.status)
  }

  /** POST /users: the body is stored as-is under a fresh id, following
      nobody; the other kinds are untouched. */
  function CreateUser(st: State, dto: CreateUserDto, freshId: Id): (r: Reply<User>)
    requires FreshId(st.users, UserKey, freshId)
    ensures r.body.Some? && r.status == Ok
    ensures r.body.value.id == freshId && r.body.value.subscribedToUserIds == []
    ensures r.body.value.firstName == dto.firstName && r.body.value.lastName == dto.lastName
    ensures r.body.value.email == dto.email
    ensures r.state.users == st.users + [r.body.value]
    ensures r.state.posts == st.posts && r.state.profiles == st.profiles
    ensures r.state.memberTypes == st.memberTypes
  {
    var u := NewUser(dto, freshId);
    Reply(st.(users := Create(st.users, u)), Some(u), Ok)
  }

  // ---------------------------------------------------------------------
  // DELETE /users/:id and its cascade
  // ---------------------------------------------------------------------

  /** Step 1's rewrite of one selected user: `filter(_id => _id !== target)`. */
  function WithoutTarget(u: User, target: Id): User {
    u.(subscribedToUserIds := RemoveAll(u.subscribedToUserIds, target))
  }

  /** `selected.forEach(userok => change(userok.id, userok'))`, run in order,
      where `userok'` is `userok` with the target filtered out. Only
      subscription lists are rewritten: the number of users and the id
      column are unchanged. */
  function RewriteEach(users: seq<User>, selected: seq<User>, target: Id): (r: seq<User>)
    ensures |r| == |users|
    ensures Keys(r, UserKey) == Keys(users, UserKey)
    decreases |selected|
  {
    if |selected| == 0 then users
    else
      var x := selected[0];
      var patch := WholeUserPatch(WithoutTarget(x, target));
      ChangeKeepsKeys(users, UserKey, x.id, patch, ApplyUserPatch);
      RewriteEach(Change(users, UserKey, x.id, patch, ApplyUserPatch).0, selected[1..], target)
  }

  /** The record-by-record meaning of step 1: each user selected by `p` has
      the target filtered out of its list, every other user is unchanged,
      and the order is kept. */
  function RewriteWhere(users: seq<User>, p: User -> bool, target: Id): (r: seq<User>)
    ensures |r| == |users|
    ensures forall i :: 0 <= i < |users| ==>
              r[i] == if p(users[i]) then WithoutTarget(users[i], target) else users[i]
    ensures Keys(r, UserKey) == Keys(users, UserKey)
    decreases |users|
  {
    if |users| == 0 then []
    else
      [if p(users[0]) then WithoutTarget(users[0], target) else users[0]]
      + RewriteWhere(users[1..], p, target)
  }

  /** DELETE /users/:id. With a UUID id the four steps run in this order and
      unconditionally: (1) every user whose `subscribedToUserIds` EQUALS
      `[id]` (the store's exact equality, not membership) is rewritten
      without `id`; (2) the user's posts are deleted one by one; (3) so are
      its profiles; (4) the user record is deleted and returned, or `null`
      when there is none. A non-UUID id answers `null` with BAD_REQUEST. */
  function DeleteUser(st: State, id: Id): (r: Reply<User>)
    ensures !ValidUuid(id) ==> r.state == st && r.body.None? && r.status == BadRequest
    ensures ValidUuid(id) ==> r.status == Ok && r.state.memberTypes == st.memberTypes
    ensures ValidUuid(id) ==> (r.body.Some? <==> HasKey(st.users, UserKey, id))
    ensures r.body.Some? ==> r.body.value.id == id
  {
    if ValidUuid(id) then
      var selected := FindMany(st.users, SubscriptionList, [id]);
      var users := RewriteEach(st.users, selected, id);
      SameKeysSameHasKey(users, st.users, UserKey, id);
      var posts := DeleteEach(st.posts, PostKey, FindMany(st.posts, PostOwner, id));
      var profiles := DeleteEach(st.profiles, ProfileKey, FindMany(st.profiles, ProfileOwner, id));
      var (remaining, removed) := Delete(users, UserKey, id);
      Reply(State(remaining, profiles, posts, st.memberTypes), removed, Ok)
    else Reply(st, None, BadRequest)
  }

  lemma {:induction false} RewriteEachCons(h: User, t: seq<User>, selected: seq<User>, target: Id)
    requires forall x :: x in selected ==> x.id != h.id
    ensures RewriteEach([h] + t, selected, target) == [h] + RewriteEach(t, selected, target)
    decreases |selected|
  {
    if |selected| > 0 {
      var x := selected[0];
      ChangeCons(h, t, UserKey, x.id, WholeUserPatch(WithoutTarget(x, target)), ApplyUserPatch);
      assert forall y :: y in selected[1..] ==> y in selected;
      RewriteEachCons(h, Change(t, UserKey, x.id, WholeUserPatch(WithoutTarget(x, target)), ApplyUserPatch).0,
                      selected[1..], target);
    }
  }

  /** Rewriting, one `change` at a time, the users a filter selected is the
      record-by-record rewrite of exactly those users (ids being unique). */
  lemma {:induction false} RewriteEachOfSelection(users: seq<User>, p: User -> bool, target: Id)
    requires UniqueKeys(users, UserKey)
    ensures RewriteEach(users, Filter(users, p), target) == RewriteWhere(users, p, target)
    decreases |users|
  {
    if |users| > 0 {
      UniqueKeysTail(users, UserKey);
      var h := users[0];
      var t := users[1..];
      assert users == [h] + t;
      RewriteEachOfSelection(t, p, target);
      var sel := Filter(t, p);
      assert forall x :: x in sel ==> x.id != h.id;
      if p(h) {
        assert Filter(users, p) == [h] + sel;
        RewriteHead(h, t, target);
        RewriteEachCons(WithoutTarget(h, target), t, sel, target);
      } else {
        assert Filter(users, p) == sel;
        RewriteEachCons(h, t, sel, target);
      }
    }
  }

  /** The `change` that rewrites the head of the store touches only the head. */
  lemma RewriteHead(h: User, t: seq<User>, target: Id)
    ensures Change([h] + t, UserKey, h.id, WholeUserPatch(WithoutTarget(h, target)), ApplyUserPatch).0
            == [WithoutTarget(h, target)] + t
  {
    WholeUserPatchStoresRecord(h, WithoutTarget(h, target));
    FirstIndexIs([h] + t, UserKey, h.id, 0);
  }

  /** Filtering a one-element list `[x]` by `!== x` empties it. */
  lemma RemoveAllSole(x: Id)
    ensures RemoveAll([x], x) == []
  {
    assert [x][1..] == [];
  }

  /** Steps 1 and 4 together, whatever selection step 1 uses: the survivors
      are the rewritten users minus `id`, and the reply is the rewritten
      record of `id` (ids being unique). */
  lemma RewriteThenDelete(users: seq<User>, p: User -> bool, id: Id)
    requires UniqueKeys(users, UserKey)
    ensures var d := Delete(RewriteEach(users, Filter(users, p), id), UserKey, id);
            var rw := RewriteWhere(users, p, id);
            && d.0 == Reject(rw, UserKey, id)
            && d.1 == FindOne(rw, UserKey, id)
            && UniqueKeys(rw, UserKey)
  {
    RewriteEachOfSelection(users, p, id);
    var rw := RewriteWhere(users, p, id);
    UniqueKeysFromKeys(rw, users, UserKey);
    DeleteUnique(rw, UserKey, id);
  }

  /** The whole effect of DELETE /users/:id on a store with unique ids:
      posts and profiles owned by `id` are gone and the others keep their
      order; users whose list was exactly `[id]` now follow nobody; the user
      record itself is removed and returned as step 1 left it; member types
      are untouched. */
  lemma DeleteUserCascade(st: State, id: Id)
    requires WellFormed(st) && ValidUuid(id)
    ensures var r := DeleteUser(st, id);
            var rw := RewriteWhere(st.users, KeyIs(SubscriptionList, [id]), id);
            && r.state.posts == Reject(st.posts, PostOwner, id)
            && r.state.profiles == Reject(st.profiles, ProfileOwner, id)
            && r.state.users == Reject(rw, UserKey, id)
            && r.state.memberTypes == st.memberTypes
            && r.body == FindOne(rw, UserKey, id)
  {
    DeleteEachOfSelection(st.posts, PostKey, PostOwner, id);
    DeleteEachOfSelection(st.profiles, ProfileKey, ProfileOwner, id);
    RewriteThenDelete(st.users, KeyIs(SubscriptionList, [id]), id);
  }

  /** After the cascade no post and no profile is owned by `id`, the posts
      and profiles of every other user are exactly as before, in order, and
      GET /users/:id no longer finds the user. */
  lemma DeleteUserLeavesNoDependants(st: State, id: Id, other: Id)
    requires WellFormed(st) && ValidUuid(id)
    requires other != id
    ensures var r := DeleteUser(st, id);
            && FindMany(r.state.posts, PostOwner, id) == []
            && FindMany(r.state.profiles, ProfileOwner, id) == []
            && FindMany(r.state.posts, PostOwner, other) == FindMany(st.posts, PostOwner, other)
            && FindMany(r.state.profiles, ProfileOwner, other) == FindMany(st.profiles, ProfileOwner, other)
            && GetUser(r.state, id).body.None?
  {
    DeleteUserCascade(st, id);
    var r := DeleteUser(st, id);
    FilterNone(r.state.posts, KeyIs(PostOwner, id));
    FilterNone(r.state.profiles, KeyIs(ProfileOwner, id));
    FilterOfFilter(st.posts, KeyIsNot(PostOwner, id), KeyIs(PostOwner, other));
    FilterOfFilter(st.profiles, KeyIsNot(ProfileOwner, id), KeyIs(ProfileOwner, other));
    assert !HasKey(r.state.users, UserKey, id) by {
      forall i | 0 <= i < |r.state.users|
        ensures r.state.users[i].id != id
      {
        assert r.state.users[i] in r.state.users;
      }
    }
  }

  /** Step 1 compares whole lists: a user whose list is exactly `[id]`
      ends with an empty list, and every other user other than `id` keeps
      its record unchanged, even when its list mentions `id`. */
  lemma DeleteUserStepOneIsExactMatch(st: State, id: Id, i: nat)
    requires WellFormed(st) && ValidUuid(id)
    requires i < |st.users| && st.users[i].id != id
    ensures var r := DeleteUser(st, id);
            var u := st.users[i];
            && (u.subscribedToUserIds == [id] ==> u.(subscribedToUserIds := []) in r.state.users)
            && (u.subscribedToUserIds != [id] ==> u in r.state.users)
  {
    DeleteUserCascade(st, id);
    var rw := RewriteWhere(st.users, KeyIs(SubscriptionList, [id]), id);
    assert rw[i] in rw;
    RemoveAllSole(id);
  }

  /** The counterexample to "no remaining user follows the deleted one":
      a user following `id` and someone else keeps `id` in its list. */
  lemma DeleteUserLeavesDanglingEdge(st: State, id: Id, i: nat)
    requires WellFormed(st) && ValidUuid(id)
    requires i < |st.users| && st.users[i].id != id
    requires id in st.users[i].subscribedToUserIds && st.users[i].subscribedToUserIds != [id]
    ensures exists u :: u in DeleteUser(st, id).state.users && id in u.subscribedToUserIds
  {
    DeleteUserStepOneIsExactMatch(st, id, i);
  }

  /** The cascade with the selection the rest of the handler evidently
      intends: every user whose list CONTAINS `id`. */
  function DeleteUserIntended(st: State, id: Id): (r: Reply<User>)
    ensures !ValidUuid(id) ==> r.state == st && r.body.None? && r.status == BadRequest
    ensures ValidUuid(id) ==> r.status == Ok && r.state.memberTypes == st.memberTypes
  {
    if ValidUuid(id) then
      var selected := Followers(st.users, id);
      var users := RewriteEach(st.users, selected, id);
      var posts := DeleteEach(st.posts, PostKey, FindMany(st.posts, PostOwner, id));
      var profiles := DeleteEach(st.profiles, ProfileKey, FindMany(st.profiles, ProfileOwner, id));
      var (remaining, removed) := Delete(users, UserKey, id);
      Reply(State(remaining, profiles, posts, st.memberTypes), removed, Ok)
    else Reply(st, None, BadRequest)
  }

  /** With membership selection, no remaining user follows the deleted
      one, the other edges are kept in order, and dependants are gone. */
  lemma DeleteUserIntendedRemovesAllEdges(st: State, id: Id)
    requires WellFormed(st) && ValidUuid(id)
    ensures var r := DeleteUserIntended(st, id);
            && (forall u :: u in r.state.users ==> id !in u.subscribedToUserIds)
            && r.state.users == Reject(RewriteWhere(st.users, FollowsId(id), id), UserKey, id)
            && r.state.posts == Reject(st.posts, PostOwner, id)
            && r.state.profiles == Reject(st.profiles, ProfileOwner, id)
  {
    DeleteEachOfSelection(st.posts, PostKey, PostOwner, id);
    DeleteEachOfSelection(st.profiles, ProfileKey, ProfileOwner, id);
    RewriteThenDelete(st.users, FollowsId(id), id);
    NoEdgeAfterRewrite(st.users, id);
  }

  /** Rewriting every user whose list contains `id` leaves no list with `id`. */
  lemma NoEdgeAfterRewrite(users: seq<User>, id: Id)
    ensures forall u :: u in Reject(RewriteWhere(users, FollowsId(id), id), UserKey, id) ==>
              id !in u.subscribedToUserIds
  {
    var rw := RewriteWhere(users, FollowsId(id), id);
    forall u | u in Reject(rw, UserKey, id)
      ensures id !in u.subscribedToUserIds
    {
      assert u in rw;
      var i :| 0 <= i < |rw| && rw[i] == u;
      if id in users[i].subscribedToUserIds {
        assert u == WithoutTarget(users[i], id);
      } else {
        assert u == users[i];
      }
    }
  }

  /** The cascade keeps ids unique. */
  lemma DeleteUserKeepsWellFormed(st: State, id: Id)
    requires WellFormed(st)
    ensures WellFormed(DeleteUser(st, id).state)
  {
    if ValidUuid(id) {
      DeleteUserCascade(st, id);
      var rw := RewriteWhere(st.users, KeyIs(SubscriptionList, [id]), id);
      RewriteThenDelete(st.users, KeyIs(SubscriptionList, [id]), id);
      FilterKeepsUniqueKeys(rw, KeyIsNot(UserKey, id), UserKey);
      FilterKeepsUniqueKeys(st.posts, KeyIsNot(PostOwner, id), PostKey);
      FilterKeepsUniqueKeys(st.profiles, KeyIsNot(ProfileOwner, id), ProfileKey);
    }
  }

  // ---------------------------------------------------------------------
  // Follow edges and partial update
  // ---------------------------------------------------------------------

  /** POST /users/:id/subscribeTo: the follower is `body.userId`, the
      target is `params.id`. A missing follower answers `null` with
      BAD_REQUEST and changes nothing; otherwise the target is appended. */
  function SubscribeTo(st: State, paramsId: Id, bodyUserId: Id): (r: Reply<User>)
    ensures r.body.None? <==> !HasKey(st.users, UserKey, bodyUserId)
    ensures r.body.None? ==> r.state == st && r.status == BadRequest
    ensures r.body.Some? ==>
              && r.status == Ok
              && r.body.value.id == bodyUserId
              && r.body.value.subscribedToUserIds
                 == FindOne(st.users, UserKey, bodyUserId).value.subscribedToUserIds + [paramsId]
              && r.body.value in r.state.users
              && r.state.posts == st.posts && r.state.profiles == st.profiles
    ensures r.body.Some? ==>
              var i := FirstIndex(st.users, UserKey, bodyUserId).value;
              && r.body.value == st.users[i].(subscribedToUserIds := st.users[i].subscribedToUserIds + [paramsId])
              && r.state == st.(users := st.users[i := r.body.value])
  {
    var s := Follow(st, bodyUserId, paramsId);
    assert s.value.Some? ==> s.state.users[FirstIndex(st.users, UserKey, bodyUserId).value] == s.value.value;
    Reply(s.state, s.value, if s.value.Some? then Ok else BadRequest)
  }

  /** POST /users/:id/unsubscribeFrom: both ids must be UUIDs, the follower
      (`body.userId`) must exist and already follow `params.id`; then every
      occurrence of `params.id` is removed. Otherwise `null`, BAD_REQUEST,
      and no change. */
  function UnsubscribeFrom(st: State, paramsId: Id, bodyUserId: Id): (r: Reply<User>)
    ensures r.body.Some? <==>
              && ValidUuid(bodyUserId) && ValidUuid(paramsId)
              && HasKey(st.users, UserKey, bodyUserId)
              && paramsId in FindOne(st.users, UserKey, bodyUserId).value.subscribedToUserIds
    ensures r.body.None? ==> r.state == st && r.status == BadRequest
    ensures r.body.Some? ==>
              && r.status == Ok
              && r.body.value.id == bodyUserId
              && paramsId !in r.body.value.subscribedToUserIds
              && Subseq(r.body.value.subscribedToUserIds, FindOne(st.users, UserKey, bodyUserId).value.subscribedToUserIds)
              && r.body.value in r.state.users
    ensures r.body.Some? ==>
              var i := FirstIndex(st.users, UserKey, bodyUserId).value;
              && r.body.value == st.users[i].(subscribedToUserIds := RemoveAll(st.users[i].subscribedToUserIds, paramsId))
              && r.state == st.(users := st.users[i := r.body.value])
  {
    var s := Unfollow(st, bodyUserId, paramsId);
    assert s.value.Some? ==> s.state.users[FirstIndex(st.users, UserKey, bodyUserId).value] == s.value.value;
    Reply(s.state, s.value, if s.value.Some? then Ok else BadRequest)
  }

  /** Calling unsubscribeFrom twice: the second call is refused and
      changes nothing. */
  lemma UnsubscribeFromTwice(st: State, paramsId: Id, bodyUserId: Id)
    requires UnsubscribeFrom(st, paramsId, bodyUserId).body.Some?
    ensures var r1 := UnsubscribeFrom(st, paramsId, bodyUserId);
            var r2 := UnsubscribeFrom(r1.state, paramsId, bodyUserId);
            r2.body.None? && r2.state == r1.state && r2.status == BadRequest
  {
    UnfollowTwiceIsNoop(st, bodyUserId, paramsId);
  }

  /** PATCH /users/:id: a non-UUID id answers BAD_REQUEST, an unknown id
      NOT_FOUND, both `null` with no change; otherwise the patch is merged
      into that record and only that record changes. */
  function PatchUser(st: State, id: Id, patch: UserPatch): (r: Reply<User>)
    ensures !ValidUuid(id) ==> r.state == st && r.body.None? && r.status == BadRequest
    ensures ValidUuid(id) && !HasKey(st.users, UserKey, id) ==>
              r.state == st && r.body.None? && r.status == NotFound
    ensures ValidUuid(id) && HasKey(st.users, UserKey, id) ==>
              var i := FirstIndex(st.users, UserKey, id).value;
              && r.status == Ok
              && r.body == Some(ApplyUserPatch(st.users[i], patch))
              && r.state == st.(users := st.users[i := r.body.value])
  {
    var t := PatchById(st.users, UserKey, id, patch, ApplyUserPatch);
    Reply(st.(users := t.table), t.body, t.status)
  }

  /** Creating a user and then reading it back by its id returns it, and
      ids stay unique. */
  lemma CreateThenGetUser(st: State, dto: CreateUserDto, freshId: Id)
    requires FreshId(st.users, UserKey, freshId)
    ensures var r := CreateUser(st, dto, freshId);
            && GetUser(r.state, freshId).body == r.body
            && (WellFormed(st) ==> WellFormed(r.state))
  {
    GetAfterCreate(st.users, UserKey, NewUser(dto, freshId));
  }

  /** A patched user reads back as the merge of the patch into it, and
      ids stay unique. */
  lemma PatchThenGetUser(st: State, id: Id, patch: UserPatch)
    requires PatchUser(st, id, patch).body.Some?
    ensures var r := PatchUser(st, id, patch);
            && GetUser(r.state, id).body == r.body
            && (WellFormed(st) ==> WellFormed(r.state))
  {
    GetAfterPatch(st.users, UserKey, id, patch, ApplyUserPatch);
    var r := PatchUser(st, id, patch);
    if WellFormed(st) {
      UniqueKeysFromKeys(r.state.users, st.users, UserKey);
    }
  }
}
