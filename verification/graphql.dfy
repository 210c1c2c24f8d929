/** The places where the GraphQL schema's inline resolvers differ from the
    resolver service: the `profile` query, the unguarded `createProfile`
    mutation, and the subscribe / unsubscribe mutations, which read an
    argument the schema never declares. Each as-written resolver comes with
    the one its surroundings evidently intend. */
module GraphQL {
  import opened Base
  import opened Store
  import opened Entities
  import opened Subscriptions
  import ProfilesRoute

  // ---------------------------------------------------------------------
  // The `profile(id)` query
  // ---------------------------------------------------------------------

  /** As written: the query declared to return a profile looks the id up
      among the member types. */
  function ProfileQuery(st: State, id: Id): (r: Option<MemberType>)
    ensures r.Some? <==> HasKey(st.memberTypes, MemberTypeKey, id)
    ensures r.Some? ==> r.value in st.memberTypes && r.value.id == id
  {
    FindOne(st.memberTypes, MemberTypeKey, id)
  }

  /** The counterexample: a stored profile whose id no member type shares
      is not found by the `profile` query. */
  lemma ProfileQueryMissesProfiles(st: State, id: Id)
    requires HasKey(st.profiles, ProfileKey, id)
    requires !HasKey(st.memberTypes, MemberTypeKey, id)
    ensures ProfileQuery(st, id).None?
  {
  }

  /** The evident intent: look the id up among the profiles. */
  function ProfileQueryIntended(st: State, id: Id): (r: Option<Profile>)
    ensures r.Some? <==> HasKey(st.profiles, ProfileKey, id)
    ensures r.Some? ==> r.value in st.profiles && r.value.id == id
  {
    FindOne(st.profiles, ProfileKey, id)
  }

  /** With unique ids, the corrected query returns exactly the profile that
      carries the id, and agrees with GET /profiles/:id on UUID ids. */
  lemma ProfileQueryIntendedFinds(st: State, i: nat)
    requires WellFormed(st) && i < |st.profiles|
    ensures ProfileQueryIntended(st, st.profiles[i].id) == Some(st.profiles[i])
    ensures ValidUuid(st.profiles[i].id) ==>
              ProfilesRoute.GetProfile(st, st.profiles[i].id).body == ProfileQueryIntended(st, st.profiles[i].id)
  {
    FindOneUnique(st.profiles, ProfileKey, i);
  }

  // ---------------------------------------------------------------------
  // The `createProfile` mutation
  // ---------------------------------------------------------------------

  /** `createProfile`: the DTO goes straight to the store, with none of the
      REST route's checks. Ids stay unique, since the new id is fresh. */
  function CreateProfileMutation(st: State, dto: CreateProfileDto, freshId: Id): (r: Step<Profile>)
    requires FreshId(st.profiles, ProfileKey, freshId)
    ensures r.value.Some? && r.value.value.id == freshId && r.value.value.userId == dto.userId
    ensures r.value.value.memberTypeId == dto.memberTypeId
    ensures r.value.value.avatar == dto.avatar && r.value.value.sex == dto.sex
    ensures r.value.value.birthday == dto.birthday && r.value.value.country == dto.country
    ensures r.value.value.street == dto.street && r.value.value.city == dto.city
    ensures r.state == st.(profiles := st.profiles + [r.value.value])
    ensures WellFormed(st) ==> WellFormed(r.state)
  {
    var p := NewProfile(dto, freshId);
    assert WellFormed(st) ==> UniqueKeys(Create(st.profiles, p), ProfileKey) by {
      if WellFormed(st) {
        CreateKeepsUniqueKeys(st.profiles, ProfileKey, p);
      }
    }
    Step(st.(profiles := Create(st.profiles, p)), Some(p))
  }

  /** The mutation creates a second profile for a user who already has one,
      where the REST route refuses: the owner column loses uniqueness. */
  lemma CreateProfileMutationAllowsSecondProfile(st: State, dto: CreateProfileDto, freshId: Id)
    requires FreshId(st.profiles, ProfileKey, freshId)
    requires HasKey(st.profiles, ProfileOwner, dto.userId)
    ensures var r := CreateProfileMutation(st, dto, freshId);
            && |FindMany(r.state.profiles, ProfileOwner, dto.userId)| >= 2
            && !UniqueKeys(r.state.profiles, ProfileOwner)
    ensures ProfilesRoute.CreateProfile(st, dto, freshId).body.None?
  {
    var r := CreateProfileMutation(st, dto, freshId);
    var p := r.value.value;
    var ps := r.state.profiles;
    var n := |st.profiles|;
    var k :| 0 <= k < n && st.profiles[k].userId == dto.userId;
    assert ps[k] == st.profiles[k] && ps[n] == p;
    assert ProfileOwner(ps[k]) == ProfileOwner(ps[n]);
    var sel := FindMany(st.profiles, ProfileOwner, dto.userId);
    assert |sel| >= 1 by {
      assert st.profiles[k] in sel;
    }
    FilterAppend(st.profiles, [p], KeyIs(ProfileOwner, dto.userId));
    FilterAll([p], KeyIs(ProfileOwner, dto.userId));
    assert FindMany(ps, ProfileOwner, dto.userId) == sel + [p];
  }

  // ---------------------------------------------------------------------
  // The subscribe / unsubscribe mutations
  // ---------------------------------------------------------------------

  /** The `{ userId, paramsId }` input object. */
  datatype IdsDto = IdsDto(userId: Id, paramsId: Id)

  /** A resolver either returns (a store and a value) or throws, leaving the
      store as it was. */
  datatype Outcome<T> = Returned(step: Step<T>) | Thrown(state: State)

  /** The only argument name each mutation declares. */
  const SubscribeArg: string := "subscribeToTypeDTO"
  const UnsubscribeArg: string := "usSubscribeToTypeDTO"

  /** The argument name both resolvers destructure. */
  const ReadArg: string := "memberTypeDTO"

  /** Destructuring `{ userId, paramsId }` out of an argument: a missing
      argument is `undefined`, and destructuring it throws. */
  function WithArg<T>(st: State, args: map<string, IdsDto>, name: string, body: IdsDto -> Step<T>): Outcome<T> {
    if name in args then Returned(body(args[name])) else Thrown(st)
  }

  /** As written: `subscribeToInputType` reads `memberTypeDTO`. */
  function SubscribeMutation(st: State, args: map<string, IdsDto>): (r: Outcome<User>)
    ensures ReadArg !in args ==> r == Thrown(st)
  {
    WithArg(st, args, ReadArg, (ids: IdsDto) => Follow(st, ids.userId, ids.paramsId))
  }

  /** As written: `unSubscribeToInputType` reads `memberTypeDTO`. */
  function UnsubscribeMutation(st: State, args: map<string, IdsDto>): (r: Outcome<User>)
    ensures ReadArg !in args ==> r == Thrown(st)
  {
    WithArg(st, args, ReadArg, (ids: IdsDto) => Unfollow(st, ids.userId, ids.paramsId))
  }

  /** GraphQL only hands a resolver the arguments its field declares, so
      both mutations always throw and never change the store. */
  lemma EdgeMutationsAlwaysThrow(st: State, args: map<string, IdsDto>, args2: map<string, IdsDto>)
    requires args.Keys <= {SubscribeArg}
    requires args2.Keys <= {UnsubscribeArg}
    ensures SubscribeMutation(st, args) == Thrown(st)
    ensures UnsubscribeMutation(st, args2) == Thrown(st)
  {
    assert ReadArg !in args;
    assert ReadArg !in args2;
  }

  /** The evident intent: read the declared argument. */
  function SubscribeMutationIntended(st: State, args: map<string, IdsDto>): (r: Outcome<User>)
    ensures SubscribeArg !in args ==> r == Thrown(st)
    ensures SubscribeArg in args ==>
              r == Returned(Follow(st, args[SubscribeArg].userId, args[SubscribeArg].paramsId))
  {
    WithArg(st, args, SubscribeArg, (ids: IdsDto) => Follow(st, ids.userId, ids.paramsId))
  }

  function UnsubscribeMutationIntended(st: State, args: map<string, IdsDto>): (r: Outcome<User>)
    ensures UnsubscribeArg !in args ==> r == Thrown(st)
    ensures UnsubscribeArg in args ==>
              r == Returned(Unfollow(st, args[UnsubscribeArg].userId, args[UnsubscribeArg].paramsId))
  {
    WithArg(st, args, UnsubscribeArg, (ids: IdsDto) => Unfollow(st, ids.userId, ids.paramsId))
  }

  /** With the declared argument supplied, the corrected subscribe mutation
      appends the target for an existing follower, and a following
      corrected unsubscribe removes the edge again. */
  lemma EdgeMutationsIntendedWork(st: State, ids: IdsDto)
    requires WellFormed(st)
    requires HasKey(st.users, UserKey, ids.userId)
    requires ValidUuid(ids.userId) && ValidUuid(ids.paramsId)
    ensures var s := SubscribeMutationIntended(st, map[SubscribeArg := ids]);
            && s.Returned? && s.step.value.Some?
            && ids.paramsId in s.step.value.value.subscribedToUserIds
            && var u := UnsubscribeMutationIntended(s.step.state, map[UnsubscribeArg := ids]);
               && u.Returned? && u.step.value.Some?
               && forall f :: f in Followers(u.step.state.users, ids.paramsId) ==> f.id != ids.userId
  {
    FollowThenUnfollow(st, ids.userId, ids.paramsId);
    FollowHasNoGuards(st, ids.userId, ids.paramsId);
  }
}
