/** The `/profiles` route handlers. Creation is the only guarded insert of
    the service: it demands a UUID owner, an existing member type and no
    other profile for the same owner. */
module ProfilesRoute {
  import opened Base
  import opened Store
  import opened Entities
  import opened Crud

  /** A table-level reply placed back into the store. */
  function WithProfiles(st: State, t: TableReply<Profile>): Reply<Profile> {
    Reply(st.(profiles := t.table), t.body, t.status)
  }

  /** GET /profiles/:id: `null` with NOT_FOUND unless the id is a UUID of
      a stored profile; nothing changes. */
  function GetProfile(st: State, id: Id): (r: Reply<Profile>)
    ensures r.state == st
    ensures r.body.Some? <==> ValidUuid(id) && HasKey(st.profiles, ProfileKey, id)
    ensures r.body.Some? ==> r.body.value in st.profiles && r.body.value.id == id && r.status == Ok
    ensures r.body.None? ==> r.status == NotFound
  {
    WithProfiles(st, GetById(st.profiles, ProfileKey, id))
  }

  /** The acceptance condition of POST /profiles: the owner id is a UUID,
      the member type id is non-empty and names a stored member type, and
      the owner has no profile yet. The owner itself is not looked up. */
  predicate AcceptsProfile(st: State, dto: CreateProfileDto): (r: bool)
    ensures r <==>
              && ValidUuid(dto.userId) && dto.memberTypeId != ""
              && FindOne(st.memberTypes, MemberTypeKey, dto.memberTypeId).Some?
              && FindMany(st.profiles, ProfileOwner, dto.userId) == []
  {
    var owned := FindMany(st.profiles, ProfileOwner, dto.userId);
    assert HasKey(st.profiles, ProfileOwner, dto.userId) ==> owned != [] by {
      if HasKey(st.profiles, ProfileOwner, dto.userId) {
        var i :| 0 <= i < |st.profiles| && st.profiles[i].userId == dto.userId;
        assert st.profiles[i] in owned;
      }
    }
    assert owned != [] ==> HasKey(st.profiles, ProfileOwner, dto.userId) by {
      if owned != [] {
        assert owned[0] in st.profiles;
      }
    }
    && ValidUuid(dto.userId)
    && dto.memberTypeId != ""
    && HasKey(st.memberTypes, MemberTypeKey, dto.memberTypeId)
    && !HasKey(st.profiles, ProfileOwner, dto.userId)
  }

  /** POST /profiles. */
  function CreateProfile(st: State, dto: CreateProfileDto, freshId: Id): (r: Reply<Profile>)
    requires FreshId(st.profiles, ProfileKey, freshId)
    ensures r.body.Some? <==> AcceptsProfile(st, dto)
    ensures r.body.None? ==> r.state == st && r.status == BadRequest
    ensures r.body.Some? ==>
              && r.status == Ok
              && r.body.value.id == freshId
              && r.body.value.userId == dto.userId
              && r.body.value.memberTypeId == dto.memberTypeId
              && r.body.value.avatar == dto.avatar && r.body.value.sex == dto.sex
              && r.body.value.birthday == dto.birthday && r.body.value.country == dto.country
              && r.body.value.street == dto.street && r.body.value.city == dto.city
              && r.state == st.(profiles := st.profiles + [r.body.value])
  {
    if ValidUuid(dto.userId) && dto.memberTypeId != "" then
      var member := FindOne(st.memberTypes, MemberTypeKey, dto.memberTypeId);
      var existing := FindOne(st.profiles, ProfileOwner, dto.userId);
      if member.None? || (existing.Some? && existing.value.userId == dto.userId) then
        Reply(st, None, BadRequest)
      else
        var p := NewProfile(dto, freshId);
        Reply(st.(profiles := Create(st.profiles, p)), Some(p), Ok)
    else Reply(st, None, BadRequest)
  }

  /** DELETE /profiles/:id: BAD_REQUEST for a non-UUID id, NOT_FOUND for an
      unknown one, otherwise the profile is removed and returned. */
  function DeleteProfile(st: State, id: Id): (r: Reply<Profile>)
    ensures !ValidUuid(id) ==> r == Reply(st, None, BadRequest)
    ensures ValidUuid(id) && !HasKey(st.profiles, ProfileKey, id) ==> r == Reply(st, None, NotFound)
    ensures ValidUuid(id) && HasKey(st.profiles, ProfileKey, id) ==>
              && r.status == Ok && r.body.Some? && r.body.value.id == id
              && r.state == st.(profiles := r.state.profiles)
              && |r.state.profiles| == |st.profiles| - 1
  {
    WithProfiles(st, DeleteById(st.profiles, ProfileKey, id))
  }

  /** PATCH /profiles/:id: BAD_REQUEST for a non-UUID id, NOT_FOUND for an
      unknown one, otherwise the patch is merged into that profile. */
  function PatchProfile(st: State, id: Id, patch: ProfilePatch): (r: Reply<Profile>)
    ensures !ValidUuid(id) ==> r == Reply(st, None, BadRequest)
    ensures ValidUuid(id) && !HasKey(st.profiles, ProfileKey, id) ==> r == Reply(st, None, NotFound)
    ensures ValidUuid(id) && HasKey(st.profiles, ProfileKey, id) ==>
              var i := FirstIndex(st.profiles, ProfileKey, id).value;
              && r.status == Ok
              && r.body == Some(ApplyProfilePatch(st.profiles[i], patch))
              && r.state == st.(profiles := st.profiles[i := r.body.value])
  {
    WithProfiles(st, PatchById(st.profiles, ProfileKey, id, patch, ApplyProfilePatch))
  }

  // ---------------------------------------------------------------------
  // Properties
  // ---------------------------------------------------------------------

  /** The creation guard keeps "one profile per user": if no two profiles
      share an owner before, none do after, and ids stay unique. */
  lemma CreateProfileKeepsOnePerUser(st: State, dto: CreateProfileDto, freshId: Id)
    requires FreshId(st.profiles, ProfileKey, freshId)
    requires UniqueKeys(st.profiles, ProfileOwner)
    ensures var r := CreateProfile(st, dto, freshId);
            && UniqueKeys(r.state.profiles, ProfileOwner)
            && (WellFormed(st) ==> WellFormed(r.state))
  {
    var r := CreateProfile(st, dto, freshId);
    if r.body.Some? {
      var p := NewProfile(dto, freshId);
      CreateKeepsUniqueKeys(st.profiles, ProfileOwner, p);
      if WellFormed(st) {
        CreateKeepsUniqueKeys(st.profiles, ProfileKey, p);
      }
    }
  }

  /** Creation keeps profile ids unique whatever the owners are: the new
      id is fresh. */
  lemma CreateProfileKeepsUniqueIds(st: State, dto: CreateProfileDto, freshId: Id)
    requires FreshId(st.profiles, ProfileKey, freshId)
    requires UniqueKeys(st.profiles, ProfileKey)
    ensures UniqueKeys(CreateProfile(st, dto, freshId).state.profiles, ProfileKey)
  {
    if CreateProfile(st, dto, freshId).body.Some? {
      CreateKeepsUniqueKeys(st.profiles, ProfileKey, NewProfile(dto, freshId));
    }
  }

  /** A second creation for the same owner is refused, whatever the rest
      of the body says, and the profile created first is still the one GET
      returns for its id. */
  lemma CreateProfileTwiceIsRefused(st: State, dto: CreateProfileDto, dto2: CreateProfileDto, id1: Id, id2: Id)
    requires FreshId(st.profiles, ProfileKey, id1)
    requires CreateProfile(st, dto, id1).body.Some?
    requires dto2.userId == dto.userId
    requires FreshId(CreateProfile(st, dto, id1).state.profiles, ProfileKey, id2)
    ensures var r1 := CreateProfile(st, dto, id1);
            var r2 := CreateProfile(r1.state, dto2, id2);
            && r2.body.None? && r2.status == BadRequest && r2.state == r1.state
            && GetProfile(r2.state, id1).body == r1.body
  {
    var r1 := CreateProfile(st, dto, id1);
    var p := NewProfile(dto, id1);
    assert r1.state.profiles[|st.profiles|] == p;
    GetAfterCreate(st.profiles, ProfileKey, p);
  }

  /** The owner of a new profile need not be a stored user. */
  lemma CreateProfileDoesNotCheckOwner(st: State, dto: CreateProfileDto, freshId: Id)
    requires FreshId(st.profiles, ProfileKey, freshId)
    requires AcceptsProfile(st, dto)
    requires !HasKey(st.users, UserKey, dto.userId)
    ensures CreateProfile(st, dto, freshId).body.Some?
  {
  }

  /** DELETE then GET of the same profile id finds nothing; only that
      profile is gone, and the other kinds are untouched. */
  lemma DeleteProfileThenGet(st: State, id: Id)
    requires WellFormed(st) && ValidUuid(id)
    ensures var r := DeleteProfile(st, id);
            && GetProfile(r.state, id).body.None?
            && r.state.profiles == Reject(st.profiles, ProfileKey, id)
            && WellFormed(r.state)
  {
    GetAfterDelete(st.profiles, ProfileKey, id);
    DeleteByIdIsReject(st.profiles, ProfileKey, id);
  }

  /** A patched profile reads back as the merge of the patch into it, and
      it keeps its owner. */
  lemma PatchProfileThenGet(st: State, id: Id, patch: ProfilePatch)
    requires PatchProfile(st, id, patch).body.Some?
    ensures var r := PatchProfile(st, id, patch);
            && GetProfile(r.state, id).body == r.body
            && r.body.value.userId == FindOne(st.profiles, ProfileKey, id).value.userId
            && (WellFormed(st) ==> WellFormed(r.state))
  {
    GetAfterPatch(st.profiles, ProfileKey, id, patch, ApplyProfilePatch);
    var r := PatchProfile(st, id, patch);
    if WellFormed(st) {
      UniqueKeysFromKeys(r.state.profiles, st.profiles, ProfileKey);
    }
  }
}
