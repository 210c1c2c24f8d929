/** The GraphQL resolver service: per-user aggregates, the follower views,
    the two-pass "users with subscriptions" view, and the update resolvers
    with their `new || fallback` merges. The GraphQL schema file repeats
    the same resolvers inline; both are modelled by the definitions here. */
module Resolvers {
  import opened Base
  import opened Store
  import opened Entities
  import opened Subscriptions

  // ---------------------------------------------------------------------
  // Per-user aggregate
  // ---------------------------------------------------------------------

  /** `{ ...user, posts, profiles, memberTypes }`: `user` is `None` when the
      spread user was `null`, so the aggregate has no base user fields. */
  datatype FullUser = FullUser(
    user: Option<User>,
    posts: seq<Post>,
    profiles: seq<Profile>,
    memberTypes: seq<seq<MemberType>>)

  /** `profiles.map(p => memberTypes.findMany({key: 'id', equals: p.memberTypeId}))`:
      one entry per profile, holding the member types that profile names. */
  function MemberTypesOf(st: State, profiles: seq<Profile>): (r: seq<seq<MemberType>>)
    ensures |r| == |profiles|
    ensures forall i :: 0 <= i < |profiles| ==>
              IsSelection(r[i], st.memberTypes, KeyIs(MemberTypeKey, profiles[i].memberTypeId))
  {
    seq(|profiles|, i requires 0 <= i < |profiles| => FindMany(st.memberTypes, MemberTypeKey, profiles[i].memberTypeId))
  }

  /** The aggregate for a user `u` found by the store. */
  function FullUserOf(st: State, u: User): FullUser {
    var profiles := FindMany(st.profiles, ProfileOwner, u.id);
    FullUser(Some(u), FindMany(st.posts, PostOwner, u.id), profiles, MemberTypesOf(st, profiles))
  }

  /** `getFullUserById` (and the `fullUser` query): posts and profiles are
      exactly the records owned by `userId`, in store order, with one
      member-type list per profile; an unknown id yields the lists without
      the user and does not fail. */
  function GetFullUserById(st: State, userId: Id): (r: FullUser)
    ensures r.user.Some? <==> HasKey(st.users, UserKey, userId)
    ensures r.user.Some? ==> r.user.value in st.users && r.user.value.id == userId
    ensures IsSelection(r.posts, st.posts, KeyIs(PostOwner, userId))
    ensures IsSelection(r.profiles, st.profiles, KeyIs(ProfileOwner, userId))
    ensures |r.memberTypes| == |r.profiles|
    ensures forall i, m :: 0 <= i < |r.profiles| ==>
              (m in r.memberTypes[i] <==> m in st.memberTypes && m.id == r.profiles[i].memberTypeId)
  {
    var profiles := FindMany(st.profiles, ProfileOwner, userId);
    FullUser(FindOne(st.users, UserKey, userId), FindMany(st.posts, PostOwner, userId),
             profiles, MemberTypesOf(st, profiles))
  }

  /** `getFullUsers` (and the `fullUsers` query): one aggregate per user, in
      store order. */
  function GetFullUsers(st: State): (r: seq<FullUser>)
    ensures |r| == |st.users|
    ensures forall i :: 0 <= i < |st.users| ==>
              && r[i].user == Some(st.users[i])
              && IsSelection(r[i].posts, st.posts, KeyIs(PostOwner, st.users[i].id))
              && IsSelection(r[i].profiles, st.profiles, KeyIs(ProfileOwner, st.users[i].id))
              && |r[i].memberTypes| == |r[i].profiles|
  {
    seq(|st.users|, i requires 0 <= i < |st.users| => FullUserOf(st, st.users[i]))
  }

  /** With unique ids, the list query and the by-id query agree on every
      stored user. */
  lemma FullUsersAgreeWithById(st: State, i: nat)
    requires WellFormed(st) && i < |st.users|
    ensures GetFullUsers(st)[i] == GetFullUserById(st, st.users[i].id)
  {
    FindOneUnique(st.users, UserKey, i);
  }

  /** With unique member-type ids, each profile's member-type list has at
      most one entry, and exactly one when the profile's member type is
      stored. */
  lemma FullUserMemberTypesAtMostOne(st: State, userId: Id, i: nat)
    requires WellFormed(st)
    requires i < |GetFullUserById(st, userId).profiles|
    ensures var r := GetFullUserById(st, userId);
            && |r.memberTypes[i]| <= 1
            && (|r.memberTypes[i]| == 1 <==> HasKey(st.memberTypes, MemberTypeKey, r.profiles[i].memberTypeId))
  {
    var r := GetFullUserById(st, userId);
    FindManyUniqueAtMostOne(st.memberTypes, MemberTypeKey, r.profiles[i].memberTypeId);
  }

  // ---------------------------------------------------------------------
  // Follower views
  // ---------------------------------------------------------------------

  /** `{ ...user, userSubscribedToProfiles }`. */
  datatype WithFollowerProfiles = WithFollowerProfiles(user: User, userSubscribedToProfiles: seq<seq<Profile>>)

  /** `getUsersWithSubscribeTo` (and `usersWithSubscribedTo`): for each
      user, in store order, the profiles of each of its followers, the
      followers taken in store order. */
  function GetUsersWithSubscribeTo(st: State): (r: seq<WithFollowerProfiles>)
    ensures |r| == |st.users|
    ensures forall i :: 0 <= i < |st.users| ==>
              && r[i].user == st.users[i]
              && |r[i].userSubscribedToProfiles| == |Followers(st.users, st.users[i].id)|
  {
    seq(|st.users|, i requires 0 <= i < |st.users| =>
      var followers := Followers(st.users, st.users[i].id);
      WithFollowerProfiles(st.users[i],
        seq(|followers|, j requires 0 <= j < |followers| => FindMany(st.profiles, ProfileOwner, followers[j].id))))
  }

  /** Every profile listed for a user belongs to a stored user that follows
      it, and the j-th list is exactly the j-th follower's profiles. */
  lemma FollowerProfilesAreFollowers(st: State, i: nat, j: nat)
    requires i < |st.users|
    requires j < |GetUsersWithSubscribeTo(st)[i].userSubscribedToProfiles|
    ensures var f := Followers(st.users, st.users[i].id)[j];
            var ps := GetUsersWithSubscribeTo(st)[i].userSubscribedToProfiles[j];
            && f in st.users && st.users[i].id in f.subscribedToUserIds
            && IsSelection(ps, st.profiles, KeyIs(ProfileOwner, f.id))
  {
    var followers := Followers(st.users, st.users[i].id);
    assert followers[j] in followers;
  }

  /** `{ ...user, posts, profiles, subscribedToPosts }`: `subscribedToPosts`
      is `None` when the user is unknown (`user?.…` short-circuits). */
  datatype WithSubscribedPosts = WithSubscribedPosts(
    user: Option<User>,
    posts: seq<Post>,
    profiles: seq<Profile>,
    subscribedToPosts: Option<seq<seq<Post>>>)

  /** One followee id's entry: its posts when `findOne` finds a user whose
      id is truthy, `[]` otherwise. */
  function FolloweePosts(st: State, followeeId: Id): (r: seq<Post>)
    ensures HasKey(st.users, UserKey, followeeId) && followeeId != "" ==>
              IsSelection(r, st.posts, KeyIs(PostOwner, followeeId))
    ensures !HasKey(st.users, UserKey, followeeId) || followeeId == "" ==> r == []
  {
    match FindOne(st.users, UserKey, followeeId)
    case Some(f) => if f.id != "" then FindMany(st.posts, PostOwner, f.id) else []
    case None => []
  }

  /** `getUserWithSubscribeToById` (and `userWithHisSubscribedTo`). */
  function GetUserWithSubscribeToById(st: State, userId: Id): (r: WithSubscribedPosts)
    ensures r.user == FindOne(st.users, UserKey, userId)
    ensures r.user.Some? <==> HasKey(st.users, UserKey, userId)
    ensures r.user.Some? ==> r.user.value in st.users && r.user.value.id == userId
    ensures r.subscribedToPosts.Some? <==> r.user.Some?
    ensures IsSelection(r.posts, st.posts, KeyIs(PostOwner, userId))
    ensures IsSelection(r.profiles, st.profiles, KeyIs(ProfileOwner, userId))
    ensures r.user.Some? ==>
              var ids := r.user.value.subscribedToUserIds;
              && |r.subscribedToPosts.value| == |ids|
              && forall j :: 0 <= j < |ids| ==>
                   if HasKey(st.users, UserKey, ids[j]) && ids[j] != ""
                   then IsSelection(r.subscribedToPosts.value[j], st.posts, KeyIs(PostOwner, ids[j]))
                   else r.subscribedToPosts.value[j] == []
  {
    var user := FindOne(st.users, UserKey, userId);
    var posts := FindMany(st.posts, PostOwner, userId);
    var profiles := FindMany(st.profiles, ProfileOwner, userId);
    match user
    case None => WithSubscribedPosts(None, posts, profiles, None)
    case Some(u) =>
      var ids := u.subscribedToUserIds;
      WithSubscribedPosts(user, posts, profiles,
        Some(seq(|ids|, j requires 0 <= j < |ids| => FolloweePosts(st, ids[j]))))
  }

  /** Every post listed under a followee id was written by that stored
      user; an id that resolves to no user contributes nothing. */
  lemma SubscribedPostsAreFolloweePosts(st: State, userId: Id, j: nat, p: Post)
    requires GetUserWithSubscribeToById(st, userId).user.Some?
    requires j < |GetUserWithSubscribeToById(st, userId).user.value.subscribedToUserIds|
    requires p in GetUserWithSubscribeToById(st, userId).subscribedToPosts.value[j]
    ensures var followee := GetUserWithSubscribeToById(st, userId).user.value.subscribedToUserIds[j];
            && p in st.posts && p.userId == followee
            && HasKey(st.users, UserKey, followee)
  {
  }

  // ---------------------------------------------------------------------
  // The two-pass "users with subscriptions" view
  // ---------------------------------------------------------------------

  /** First-pass record: `{ ...user, userSubscribedToUsers, subscribedToUserUsers }`. */
  datatype Shell = Shell(user: User, userSubscribedToUsers: seq<User>, subscribedToUserUsers: seq<Option<User>>)

  /** Second-pass record: the shell with both edge lists replaced by first-pass shells. */
  datatype TwoHop = TwoHop(shell: Shell, userSubscribedToUsers: seq<Option<Shell>>, subscribedToUserUsers: seq<Option<Shell>>)

  /** `ids.map(id => users.findOne({key: 'id', equals: id}))`: one entry per id. */
  function ResolveEach(users: seq<User>, ids: seq<Id>): (r: seq<Option<User>>)
    ensures |r| == |ids|
    ensures forall j :: 0 <= j < |ids| ==>
              && (r[j].Some? <==> HasKey(users, UserKey, ids[j]))
              && (r[j].Some? ==> r[j].value in users && r[j].value.id == ids[j])
  {
    seq(|ids|, j requires 0 <= j < |ids| => FindOne(users, UserKey, ids[j]))
  }

  /** First pass for one user: its followees resolved one by one, and its
      followers by the reverse scan. */
  function ShellOf(users: seq<User>, u: User): (r: Shell)
    ensures r.user == u
    ensures |r.subscribedToUserUsers| == |u.subscribedToUserIds|
    ensures forall j :: 0 <= j < |u.subscribedToUserIds| ==>
              && (r.subscribedToUserUsers[j].Some? <==> HasKey(users, UserKey, u.subscribedToUserIds[j]))
              && (r.subscribedToUserUsers[j].Some? ==>
                    r.subscribedToUserUsers[j].value in users
                    && r.subscribedToUserUsers[j].value.id == u.subscribedToUserIds[j])
    ensures IsSelection(r.userSubscribedToUsers, users, FollowsId(u.id))
  {
    Shell(u, Followers(users, u.id), ResolveEach(users, u.subscribedToUserIds))
  }

  function FirstPass(users: seq<User>): (r: seq<Shell>)
    ensures |r| == |users|
    ensures forall i :: 0 <= i < |users| ==> r[i].user == users[i]
  {
    seq(|users|, i requires 0 <= i < |users| => ShellOf(users, users[i]))
  }

  /** `fullUsers.find(cb)`: the first element the callback accepts. */
  function ArrayFind<T>(s: seq<T>, accepts: T -> bool): (r: Option<T>)
    ensures r.Some? <==> exists i :: 0 <= i < |s| && accepts(s[i])
    ensures r.Some? ==> r.value in s && accepts(r.value)
    ensures r.Some? ==>
              exists i :: 0 <= i < |s| && s[i] == r.value && accepts(s[i])
                          && forall j :: 0 <= j < i ==> !accepts(s[j])
  {
    var first := FirstIndex(s, accepts, true);
    assert first.Some? ==> s[first.value] == FindOne(s, accepts, true).value;
    FindOne(s, accepts, true)
  }

  /** The callback handed to `find` for an edge whose far end has id
      `target` (`None` when the edge's user is `null`). As written it is an
      `async` function: it returns a promise, which is truthy whatever it
      resolves to. */
  function AsyncCallback(target: Option<Id>): (r: Shell -> bool)
    ensures forall sh :: r(sh)
  {
    (sh: Shell) => true
  }

  /** The comparison the callback evidently means: the shell's id equals
      the edge's id (`undefined` for a `null` edge matches nothing). */
  function IdCallback(target: Option<Id>): (r: Shell -> bool)
    ensures target.None? ==> forall sh :: !r(sh)
    ensures target.Some? ==> forall sh :: r(sh) <==> sh.user.id == target.value
  {
    (sh: Shell) => target == Some(sh.user.id)
  }

  /** The id at the far end of a forward edge, `undefined` for `null`. */
  function EdgeId(u: Option<User>): Option<Id> {
    if u.Some? then Some(u.value.id) else None
  }

  /** Second pass for one shell: every edge replaced by what `find` returns. */
  function Expand(shells: seq<Shell>, sh: Shell, callback: Option<Id> -> (Shell -> bool)): (r: TwoHop)
    ensures r.shell == sh
    ensures |r.userSubscribedToUsers| == |sh.userSubscribedToUsers|
    ensures |r.subscribedToUserUsers| == |sh.subscribedToUserUsers|
    ensures forall j :: 0 <= j < |r.userSubscribedToUsers| && r.userSubscribedToUsers[j].Some? ==>
              r.userSubscribedToUsers[j].value in shells
    ensures forall j :: 0 <= j < |r.subscribedToUserUsers| && r.subscribedToUserUsers[j].Some? ==>
              r.subscribedToUserUsers[j].value in shells
  {
    var back := sh.userSubscribedToUsers;
    var fwd := sh.subscribedToUserUsers;
    var b := seq(|back|, j requires 0 <= j < |back| => ArrayFind(shells, callback(Some(back[j].id))));
    var f := seq(|fwd|, j requires 0 <= j < |fwd| => ArrayFind(shells, callback(EdgeId(fwd[j]))));
    assert forall j :: 0 <= j < |b| && b[j].Some? ==> b[j].value in shells by {
      forall j | 0 <= j < |b| && b[j].Some? ensures b[j].value in shells {
        assert b[j] == ArrayFind(shells, callback(Some(back[j].id)));
      }
    }
    assert forall j :: 0 <= j < |f| && f[j].Some? ==> f[j].value in shells by {
      forall j | 0 <= j < |f| && f[j].Some? ensures f[j].value in shells {
        assert f[j] == ArrayFind(shells, callback(EdgeId(fwd[j])));
      }
    }
    TwoHop(sh, b, f)
  }

  function SecondPass(shells: seq<Shell>, callback: Option<Id> -> (Shell -> bool)): (r: seq<TwoHop>)
    ensures |r| == |shells|
    ensures forall i :: 0 <= i < |shells| ==> r[i].shell == shells[i]
  {
    seq(|shells|, i requires 0 <= i < |shells| => Expand(shells, shells[i], callback))
  }

  /** `getUsersWithSubscriptions` (and `usersWithSubscriptions`), as written. */
  function GetUsersWithSubscriptions(st: State): (r: seq<TwoHop>)
    ensures |r| == |st.users|
    ensures forall i :: 0 <= i < |st.users| ==> r[i].shell.user == st.users[i]
  {
    SecondPass(FirstPass(st.users), AsyncCallback)
  }

  /** The view is two hops deep and no more: each edge list keeps its
      length, and every entry is a first-pass shell, never expanded again. */
  lemma UsersWithSubscriptionsIsTwoHop(st: State, i: nat, j: nat)
    requires i < |st.users|
    ensures var r := GetUsersWithSubscriptions(st)[i];
            var sh := FirstPass(st.users)[i];
            && |r.userSubscribedToUsers| == |Followers(st.users, st.users[i].id)|
            && |r.subscribedToUserUsers| == |st.users[i].subscribedToUserIds|
            && (j < |r.subscribedToUserUsers| && r.subscribedToUserUsers[j].Some? ==>
                  r.subscribedToUserUsers[j].value in FirstPass(st.users))
            && (j < |r.userSubscribedToUsers| && r.userSubscribedToUsers[j].Some? ==>
                  r.userSubscribedToUsers[j].value in FirstPass(st.users))
  {
  }

  /** A callback that accepts everything makes `find` return the head. */
  lemma AcceptAllFindsHead<T>(s: seq<T>, accepts: T -> bool)
    requires |s| > 0
    requires forall x :: accepts(x)
    ensures ArrayFind(s, accepts) == Some(s[0])
  {
    FirstIndexIs(s, accepts, true, 0);
  }

  /** As written, every edge of every user, in both directions, is the
      first user's shell. */
  lemma UsersWithSubscriptionsAllFirst(st: State, i: nat, j: nat)
    requires i < |st.users|
    ensures var r := GetUsersWithSubscriptions(st)[i];
            var head := FirstPass(st.users)[0];
            && (j < |r.userSubscribedToUsers| ==> r.userSubscribedToUsers[j] == Some(head))
            && (j < |r.subscribedToUserUsers| ==> r.subscribedToUserUsers[j] == Some(head))
  {
    var shells := FirstPass(st.users);
    var sh := shells[i];
    if j < |sh.userSubscribedToUsers| {
      AcceptAllFindsHead(shells, AsyncCallback(Some(sh.userSubscribedToUsers[j].id)));
    }
    if j < |sh.subscribedToUserUsers| {
      AcceptAllFindsHead(shells, AsyncCallback(EdgeId(sh.subscribedToUserUsers[j])));
    }
  }

  /** The counterexample: user `i` follows user `k`, whose id differs from
      the first user's, yet the expanded edge is the first user's shell. */
  lemma UsersWithSubscriptionsMisresolves(st: State, i: nat, j: nat, k: nat)
    requires i < |st.users| && k < |st.users|
    requires j < |st.users[i].subscribedToUserIds|
    requires st.users[i].subscribedToUserIds[j] == st.users[k].id
    requires st.users[k].id != st.users[0].id
    ensures var e := GetUsersWithSubscriptions(st)[i].subscribedToUserUsers[j];
            e.Some? && e.value.user.id != st.users[i].subscribedToUserIds[j]
  {
    UsersWithSubscriptionsAllFirst(st, i, j);
  }

  /** The view with the comparison the callback evidently means. */
  function UsersWithSubscriptionsIntended(st: State): (r: seq<TwoHop>)
    ensures |r| == |st.users|
    ensures forall i :: 0 <= i < |st.users| ==> r[i].shell.user == st.users[i]
  {
    SecondPass(FirstPass(st.users), IdCallback)
  }

  /** With the id comparison and unique ids, `find` returns the shell of
      exactly the user with the edge's id, and nothing for an id no user
      has. */
  lemma IdCallbackResolves(users: seq<User>, target: Option<Id>)
    requires UniqueKeys(users, UserKey)
    ensures var f := ArrayFind(FirstPass(users), IdCallback(target));
            && (f.Some? <==> target.Some? && HasKey(users, UserKey, target.value))
            && (f.Some? ==> Some(f.value.user) == FindOne(users, UserKey, target.value))
  {
    var shells := FirstPass(users);
    var f := ArrayFind(shells, IdCallback(target));
    if target.Some? && HasKey(users, UserKey, target.value) {
      var k :| 0 <= k < |users| && users[k].id == target.value;
      assert IdCallback(target)(shells[k]);
    }
    if f.Some? {
      var k :| 0 <= k < |shells| && shells[k] == f.value;
      FindOneUnique(users, UserKey, k);
    }
  }

  /** Corrected view: every forward edge is the shell of the user it
      names (`None` when the id names no user) and every reverse edge is
      the shell of that follower. */
  lemma UsersWithSubscriptionsIntendedResolves(st: State, i: nat, j: nat)
    requires WellFormed(st) && i < |st.users|
    ensures var r := UsersWithSubscriptionsIntended(st)[i];
            var sh := FirstPass(st.users)[i];
            && (j < |r.subscribedToUserUsers| ==>
                  && (r.subscribedToUserUsers[j].Some? <==> sh.subscribedToUserUsers[j].Some?)
                  && (r.subscribedToUserUsers[j].Some? ==>
                        r.subscribedToUserUsers[j].value.user == sh.subscribedToUserUsers[j].value))
            && (j < |r.userSubscribedToUsers| ==>
                  && r.userSubscribedToUsers[j].Some?
                  && r.userSubscribedToUsers[j].value.user == sh.userSubscribedToUsers[j])
  {
    var shells := FirstPass(st.users);
    var sh := shells[i];
    if j < |sh.subscribedToUserUsers| {
      var e := sh.subscribedToUserUsers[j];
      IdCallbackResolves(st.users, EdgeId(e));
    }
    if j < |sh.userSubscribedToUsers| {
      var f := sh.userSubscribedToUsers[j];
      assert f in sh.userSubscribedToUsers;
      var k :| 0 <= k < |st.users| && st.users[k] == f;
      IdCallbackResolves(st.users, Some(f.id));
      FindOneUnique(st.users, UserKey, k);
    }
  }

  // ---------------------------------------------------------------------
  // Update resolvers
  // ---------------------------------------------------------------------

  datatype UpdateUserDto = UpdateUserDto(id: Id, firstName: Option<string>, lastName: Option<string>, email: Option<string>)

  datatype UpdatePostDto = UpdatePostDto(id: Id, title: Option<string>, content: Option<string>)

  datatype UpdateProfileDto = UpdateProfileDto(
    id: Id,
    avatar: Option<string>,
    sex: Option<string>,
    birthday: Option<int>,
    country: Option<string>,
    street: Option<string>,
    city: Option<string>,
    memberTypeId: Option<Id>)

  datatype UpdateMemberTypeDto = UpdateMemberTypeDto(id: Id, discount: Option<int>, monthPostsLimit: Option<int>)

  /** `updateUser`: with a UUID id of a stored user, each name field and the
      email become the new value when it is truthy and keep the stored one
      otherwise (so `""` keeps the old value); the subscriptions are kept.
      Otherwise the result is empty and nothing changes. */
  function UpdateUser(st: State, dto: UpdateUserDto): (r: Step<User>)
    ensures r.value.Some? <==> ValidUuid(dto.id) && HasKey(st.users, UserKey, dto.id)
    ensures r.value.None? ==> r.state == st
    ensures r.value.Some? ==>
              var i := FirstIndex(st.users, UserKey, dto.id).value;
              var before := st.users[i];
              var after := r.value.value;
              && after.id == dto.id
              && (TruthyString(dto.firstName) ==> after.firstName == dto.firstName.value)
              && (!TruthyString(dto.firstName) ==> after.firstName == before.firstName)
              && (TruthyString(dto.lastName) ==> after.lastName == dto.lastName.value)
              && (!TruthyString(dto.lastName) ==> after.lastName == before.lastName)
              && (TruthyString(dto.email) ==> after.email == dto.email.value)
              && (!TruthyString(dto.email) ==> after.email == before.email)
              && after.subscribedToUserIds == before.subscribedToUserIds
              && r.state == st.(users := st.users[i := after])
  {
    if ValidUuid(dto.id) then
      match FindOne(st.users, UserKey, dto.id)
      case None => Step(st, None)
      case Some(u) =>
        var patch := UserPatch(Some(OrString(dto.firstName, u.firstName)), Some(OrString(dto.lastName, u.lastName)),
                               Some(OrString(dto.email, u.email)), None);
        var (users, changed) := Change(st.users, UserKey, dto.id, patch, ApplyUserPatch);
        Step(st.(users := users), changed)
    else Step(st, None)
  }

  /** `updatePost`: the same merge over title and content. */
  function UpdatePost(st: State, dto: UpdatePostDto): (r: Step<Post>)
    ensures r.value.Some? <==> ValidUuid(dto.id) && HasKey(st.posts, PostKey, dto.id)
    ensures r.value.None? ==> r.state == st
    ensures r.value.Some? ==>
              var i := FirstIndex(st.posts, PostKey, dto.id).value;
              var before := st.posts[i];
              var after := r.value.value;
              && after.id == dto.id && after.userId == before.userId
              && (TruthyString(dto.title) ==> after.title == dto.title.value)
              && (!TruthyString(dto.title) ==> after.title == before.title)
              && (TruthyString(dto.content) ==> after.content == dto.content.value)
              && (!TruthyString(dto.content) ==> after.content == before.content)
              && r.state == st.(posts := st.posts[i := after])
  {
    if ValidUuid(dto.id) then
      match FindOne(st.posts, PostKey, dto.id)
      case None => Step(st, None)
      case Some(p) =>
        var patch := PostPatch(Some(OrString(dto.title, p.title)), Some(OrString(dto.content, p.content)));
        var (posts, changed) := Change(st.posts, PostKey, dto.id, patch, ApplyPostPatch);
        Step(st.(posts := posts), changed)
    else Step(st, None)
  }

  /** The fields an update DTO carries, passed through unchanged. */
  function ProfileDtoFields(dto: UpdateProfileDto): ProfilePatch {
    ProfilePatch(dto.avatar, dto.sex, dto.birthday, dto.country, dto.street, dto.city, dto.memberTypeId)
  }

  function MemberTypeDtoFields(dto: UpdateMemberTypeDto): MemberTypePatch {
    MemberTypePatch(dto.discount, dto.monthPostsLimit)
  }

  /** `updateProfile`: the fallback of every `x || _x` is read from the DTO
      itself, so the patch is the DTO's own fields: a falsy value (`""`,
      `0`) overwrites the stored one, an absent field keeps it. */
  function UpdateProfile(st: State, dto: UpdateProfileDto): (r: Step<Profile>)
    ensures r.value.Some? <==> ValidUuid(dto.id) && HasKey(st.profiles, ProfileKey, dto.id)
    ensures r.value.None? ==> r.state == st
    ensures r.value.Some? ==>
              var i := FirstIndex(st.profiles, ProfileKey, dto.id).value;
              && r.value.value == ApplyProfilePatch(st.profiles[i], ProfileDtoFields(dto))
              && r.state == st.(profiles := st.profiles[i := r.value.value])
  {
    if ValidUuid(dto.id) then
      match FindOne(st.profiles, ProfileKey, dto.id)
      case None => Step(st, None)
      case Some(_) =>
        var patch := ProfilePatch(OrOptString(dto.avatar, dto.avatar), OrOptString(dto.sex, dto.sex),
                                  OrOptInt(dto.birthday, dto.birthday), OrOptString(dto.country, dto.country),
                                  OrOptString(dto.street, dto.street), OrOptString(dto.city, dto.city),
                                  OrOptString(dto.memberTypeId, dto.memberTypeId));
        OrSelfIsIdentity(dto.avatar, dto.birthday);
        OrSelfIsIdentity(dto.sex, None);
        OrSelfIsIdentity(dto.country, None);
        OrSelfIsIdentity(dto.street, None);
        OrSelfIsIdentity(dto.city, None);
        OrSelfIsIdentity(dto.memberTypeId, None);
        var (profiles, changed) := Change(st.profiles, ProfileKey, dto.id, patch, ApplyProfilePatch);
        Step(st.(profiles := profiles), changed)
    else Step(st, None)
  }

  /** `updateMemberType`: no UUID check, and the same self-fallback, so the
      patch is the DTO's own fields. */
  function UpdateMemberType(st: State, dto: UpdateMemberTypeDto): (r: Step<MemberType>)
    ensures r.value.Some? <==> HasKey(st.memberTypes, MemberTypeKey, dto.id)
    ensures r.value.None? ==> r.state == st
    ensures r.value.Some? ==>
              var i := FirstIndex(st.memberTypes, MemberTypeKey, dto.id).value;
              && r.value.value == ApplyMemberTypePatch(st.memberTypes[i], MemberTypeDtoFields(dto))
              && r.state == st.(memberTypes := st.memberTypes[i := r.value.value])
  {
    match FindOne(st.memberTypes, MemberTypeKey, dto.id)
    case None => Step(st, None)
    case Some(_) =>
      var patch := MemberTypePatch(OrOptInt(dto.discount, dto.discount), OrOptInt(dto.monthPostsLimit, dto.monthPostsLimit));
      OrSelfIsIdentity(None, dto.discount);
      OrSelfIsIdentity(None, dto.monthPostsLimit);
      var (memberTypes, changed) := Change(st.memberTypes, MemberTypeKey, dto.id, patch, ApplyMemberTypePatch);
      Step(st.(memberTypes := memberTypes), changed)
  }

  /** Repeating `updateUser` is the same as doing it once. */
  lemma UpdateUserIsIdempotent(st: State, u: UpdateUserDto)
    ensures UpdateUser(UpdateUser(st, u).state, u).state == UpdateUser(st, u).state
  {
    if UpdateUser(st, u).value.Some? {
      var i := FirstIndex(st.users, UserKey, u.id).value;
      FirstIndexIs(UpdateUser(st, u).state.users, UserKey, u.id, i);
    }
  }

  /** Repeating `updatePost` is the same as doing it once. */
  lemma UpdatePostIsIdempotent(st: State, p: UpdatePostDto)
    ensures UpdatePost(UpdatePost(st, p).state, p).state == UpdatePost(st, p).state
  {
    if UpdatePost(st, p).value.Some? {
      var i := FirstIndex(st.posts, PostKey, p.id).value;
      FirstIndexIs(UpdatePost(st, p).state.posts, PostKey, p.id, i);
    }
  }

  /** Repeating `updateProfile` is the same as doing it once. */
  lemma UpdateProfileIsIdempotent(st: State, f: UpdateProfileDto)
    ensures UpdateProfile(UpdateProfile(st, f).state, f).state == UpdateProfile(st, f).state
  {
    if UpdateProfile(st, f).value.Some? {
      var i := FirstIndex(st.profiles, ProfileKey, f.id).value;
      FirstIndexIs(UpdateProfile(st, f).state.profiles, ProfileKey, f.id, i);
    }
  }

  /** Repeating `updateMemberType` is the same as doing it once. */
  lemma UpdateMemberTypeIsIdempotent(st: State, m: UpdateMemberTypeDto)
    ensures UpdateMemberType(UpdateMemberType(st, m).state, m).state == UpdateMemberType(st, m).state
  {
    if UpdateMemberType(st, m).value.Some? {
      var i := FirstIndex(st.memberTypes, MemberTypeKey, m.id).value;
      FirstIndexIs(UpdateMemberType(st, m).state.memberTypes, MemberTypeKey, m.id, i);
    }
  }

  /** The two merges part ways on falsy values: an empty first name keeps
      the stored user's, an empty avatar erases the stored profile's, and a
      zero discount overwrites the stored member type's. */
  lemma FalsyValuesDiverge(st: State, u: UpdateUserDto, f: UpdateProfileDto, m: UpdateMemberTypeDto)
    requires u.firstName == Some("") && f.avatar == Some("") && m.discount == Some(0)
    ensures var r := UpdateUser(st, u);
            r.value.Some? ==> r.value.value.firstName == FindOne(st.users, UserKey, u.id).value.firstName
    ensures var r := UpdateProfile(st, f);
            r.value.Some? ==> r.value.value.avatar == ""
    ensures var r := UpdateMemberType(st, m);
            r.value.Some? ==> r.value.value.discount == 0
  {
  }

  /** The updates keep ids unique. */
  lemma UpdatesKeepWellFormed(st: State, u: UpdateUserDto, p: UpdatePostDto, f: UpdateProfileDto, m: UpdateMemberTypeDto)
    requires WellFormed(st)
    ensures WellFormed(UpdateUser(st, u).state)
    ensures WellFormed(UpdatePost(st, p).state)
    ensures WellFormed(UpdateProfile(st, f).state)
    ensures WellFormed(UpdateMemberType(st, m).state)
  {
    var ru := UpdateUser(st, u);
    if ru.value.Some? {
      UpdateAtKeepsUniqueKeys(st.users, UserKey, FirstIndex(st.users, UserKey, u.id).value, ru.value.value);
    }
    var rp := UpdatePost(st, p);
    if rp.value.Some? {
      UpdateAtKeepsUniqueKeys(st.posts, PostKey, FirstIndex(st.posts, PostKey, p.id).value, rp.value.value);
    }
    var rf := UpdateProfile(st, f);
    if rf.value.Some? {
      UpdateAtKeepsUniqueKeys(st.profiles, ProfileKey, FirstIndex(st.profiles, ProfileKey, f.id).value, rf.value.value);
    }
    var rm := UpdateMemberType(st, m);
    if rm.value.Some? {
      UpdateAtKeepsUniqueKeys(st.memberTypes, MemberTypeKey, FirstIndex(st.memberTypes, MemberTypeKey, m.id).value, rm.value.value);
    }
  }
}
