/** The "follows" relation: an edge A -> B is B's id inside
    A.subscribedToUserIds. Following appends to that list, unfollowing
    filters it, and the reverse direction ("who follows B") is always
    computed by scanning every user. The route handlers, the resolver
    service and the GraphQL mutations all perform these same edits. */
module Subscriptions {
  import opened Base
  import opened Store
  import opened Entities

  /** The callback of `ids.filter(_id => _id !== x)`. */
  function Differs(x: Id): Id -> bool {
    y => y != x
  }

  /** `ids.filter(_id => _id !== x)`: every occurrence of `x` goes, the
      other entries stay, as often as before and in their order. */
  function RemoveAll(ids: seq<Id>, x: Id): (r: seq<Id>)
    ensures x !in r
    ensures Subseq(r, ids)
    ensures forall y :: y != x ==> multiset(r)[y] == multiset(ids)[y]
  {
    Filter(ids, Differs(x))
  }

  /** The callback of `users.filter(_user => _user.subscribedToUserIds.includes(id))`. */
  function FollowsId(id: Id): User -> bool {
    (u: User) => id in u.subscribedToUserIds
  }

  /** The reverse-edge scan: the users whose list contains `id`, in store order. */
  function Followers(users: seq<User>, id: Id): (r: seq<User>)
    ensures IsSelection(r, users, FollowsId(id))
    ensures forall u :: u in r <==> u in users && id in u.subscribedToUserIds
  {
    Filter(users, FollowsId(id))
  }

  /** `subscribeTo`: look the follower up, append the target to its list and
      `change` the record. There is no UUID check, no check that the target
      exists, no self-follow check and no duplicate check. */
  function Follow(st: State, followerId: Id, targetId: Id): (r: Step<User>)
    ensures r.value.None? <==> !HasKey(st.users, UserKey, followerId)
    ensures r.value.None? ==> r.state == st
    ensures r.value.Some? ==>
              var i := FirstIndex(st.users, UserKey, followerId).value;
              && r.value.value == st.users[i].(subscribedToUserIds := st.users[i].subscribedToUserIds + [targetId])
              && r.state == st.(users := st.users[i := r.value.value])
  {
    match FindOne(st.users, UserKey, followerId)
    case None => Step(st, None)
    case Some(main) =>
      var updated := main.(subscribedToUserIds := main.subscribedToUserIds + [targetId]);
      WholeUserPatchStoresRecord(main, updated);
      var (users, changed) := Change(st.users, UserKey, followerId, WholeUserPatch(updated), ApplyUserPatch);
      Step(st.(users := users), changed)
  }

  /** `unSubscribeTo` / `unsubscribeFrom`: both ids must be UUIDs, the
      follower must exist and its list must contain the target; then every
      occurrence of the target is filtered out and the record is changed. */
  function Unfollow(st: State, followerId: Id, targetId: Id): (r: Step<User>)
    ensures r.value.Some? <==>
              && ValidUuid(followerId) && ValidUuid(targetId)
              && HasKey(st.users, UserKey, followerId)
              && targetId in st.users[FirstIndex(st.users, UserKey, followerId).value].subscribedToUserIds
    ensures r.value.None? ==> r.state == st
    ensures r.value.Some? ==>
              var i := FirstIndex(st.users, UserKey, followerId).value;
              && r.value.value == st.users[i].(subscribedToUserIds := RemoveAll(st.users[i].subscribedToUserIds, targetId))
              && r.state == st.(users := st.users[i := r.value.value])
  {
    if ValidUuid(followerId) && ValidUuid(targetId) then
      match FindOne(st.users, UserKey, followerId)
      case None => Step(st, None)
      case Some(main) =>
        if targetId in main.subscribedToUserIds then
          var updated := main.(subscribedToUserIds := RemoveAll(main.subscribedToUserIds, targetId));
          WholeUserPatchStoresRecord(main, updated);
          var (users, changed) := Change(st.users, UserKey, followerId, WholeUserPatch(updated), ApplyUserPatch);
          Step(st.(users := users), changed)
        else Step(st, None)
    else Step(st, None)
  }

  // ---------------------------------------------------------------------
  // Properties of the edge edits
  // ---------------------------------------------------------------------

  /** A successful follow grows the follower's list by exactly one entry,
      the target, at the end; nothing else in the store changes. */
  lemma FollowAppendsOne(st: State, followerId: Id, targetId: Id)
    requires HasKey(st.users, UserKey, followerId)
    ensures var r := Follow(st, followerId, targetId);
            && r.value.Some?
            && r.value.value.id == followerId
            && |r.value.value.subscribedToUserIds| == |FindOne(st.users, UserKey, followerId).value.subscribedToUserIds| + 1
            && r.value.value.subscribedToUserIds[|r.value.value.subscribedToUserIds| - 1] == targetId
            && r.state.posts == st.posts && r.state.profiles == st.profiles
            && r.state.memberTypes == st.memberTypes && |r.state.users| == |st.users|
  {
  }

  /** Following oneself and following twice are both accepted: the list
      then holds the follower's own id, or the target one more time. */
  lemma FollowHasNoGuards(st: State, followerId: Id, targetId: Id)
    requires HasKey(st.users, UserKey, followerId)
    ensures var before := FindOne(st.users, UserKey, followerId).value;
            var r := Follow(st, followerId, targetId);
            && r.value.Some?
            && multiset(r.value.value.subscribedToUserIds)[targetId] == multiset(before.subscribedToUserIds)[targetId] + 1
            && (targetId == followerId ==> followerId in r.value.value.subscribedToUserIds)
  {
    var before := FindOne(st.users, UserKey, followerId).value;
    var r := Follow(st, followerId, targetId);
    assert r.value.value.subscribedToUserIds == before.subscribedToUserIds + [targetId];
  }

  /** After A follows B, the reverse scan for B includes A's stored record. */
  lemma FollowThenFollowersInclude(st: State, a: Id, b: Id)
    requires HasKey(st.users, UserKey, a)
    ensures var r := Follow(st, a, b);
            r.value.Some? && r.value.value in Followers(r.state.users, b)
  {
    var r := Follow(st, a, b);
    var i := FirstIndex(st.users, UserKey, a).value;
    assert r.state.users[i] == r.value.value;
    assert b in r.value.value.subscribedToUserIds;
  }

  /** After A follows B and then unfollows B, no user with id A is among
      B's followers (ids being unique). */
  lemma FollowThenUnfollow(st: State, a: Id, b: Id)
    requires WellFormed(st)
    requires HasKey(st.users, UserKey, a)
    requires ValidUuid(a) && ValidUuid(b)
    ensures var r1 := Follow(st, a, b);
            var r2 := Unfollow(r1.state, a, b);
            && r2.value.Some?
            && forall u :: u in Followers(r2.state.users, b) ==> u.id != a
  {
    var r1 := Follow(st, a, b);
    var i := FirstIndex(st.users, UserKey, a).value;
    FirstIndexIs(r1.state.users, UserKey, a, i);
    var r2 := Unfollow(r1.state, a, b);
    assert r2.value.Some?;
    forall u | u in Followers(r2.state.users, b)
      ensures u.id != a
    {
      var j :| 0 <= j < |r2.state.users| && r2.state.users[j] == u;
      if j != i {
        assert u == st.users[j];
        assert st.users[i].id == a;
      }
    }
  }

  /** A second identical unfollow finds no edge: it returns `null` and
      changes nothing. */
  lemma UnfollowTwiceIsNoop(st: State, followerId: Id, targetId: Id)
    requires Unfollow(st, followerId, targetId).value.Some?
    ensures var r1 := Unfollow(st, followerId, targetId);
            var r2 := Unfollow(r1.state, followerId, targetId);
            r2.value.None? && r2.state == r1.state
  {
    var r1 := Unfollow(st, followerId, targetId);
    var i := FirstIndex(st.users, UserKey, followerId).value;
    FirstIndexIs(r1.state.users, UserKey, followerId, i);
  }

  /** Following and unfollowing keep ids unique. */
  lemma EdgeEditsKeepWellFormed(st: State, followerId: Id, targetId: Id)
    requires WellFormed(st)
    ensures WellFormed(Follow(st, followerId, targetId).state)
    ensures WellFormed(Unfollow(st, followerId, targetId).state)
  {
    var r1 := Follow(st, followerId, targetId);
    if r1.value.Some? {
      assert Keys(r1.state.users, UserKey) == Keys(st.users, UserKey);
      UniqueKeysFromKeys(r1.state.users, st.users, UserKey);
    }
    var r2 := Unfollow(st, followerId, targetId);
    if r2.value.Some? {
      assert Keys(r2.state.users, UserKey) == Keys(st.users, UserKey);
      UniqueKeysFromKeys(r2.state.users, st.users, UserKey);
    }
  }
}
