/** The `/member-types` route handlers. Member types are seeded by the
    store and only read and patched: there is no create or delete, and the
    id is not checked to be a UUID. */
module MemberTypesRoute {
  import opened Base
  import opened Store
  import opened Entities

  /** GET /member-types/:id: the stored member type, or `null` with
      NOT_FOUND; nothing changes. */
  function GetMemberType(st: State, id: Id): (r: Reply<MemberType>)
    ensures r.state == st
    ensures r.body.Some? <==> HasKey(st.memberTypes, MemberTypeKey, id)
    ensures r.body.Some? ==> r.body.value in st.memberTypes && r.body.value.id == id && r.status == Ok
    ensures r.body.None? ==> r.status == NotFound
  {
    match FindOne(st.memberTypes, MemberTypeKey, id)
    case None => Reply(st, None, NotFound)
    case Some(m) => Reply(st, Some(m), Ok)
  }

  /** PATCH /member-types/:id: an unknown id answers `null` with
      BAD_REQUEST (not NOT_FOUND) and changes nothing; otherwise the patch
      is merged into that member type. */
  function PatchMemberType(st: State, id: Id, patch: MemberTypePatch): (r: Reply<MemberType>)
    ensures !HasKey(st.memberTypes, MemberTypeKey, id) ==> r == Reply(st, None, BadRequest)
    ensures HasKey(st.memberTypes, MemberTypeKey, id) ==>
              var i := FirstIndex(st.memberTypes, MemberTypeKey, id).value;
              && r.status == Ok
              && r.body == Some(ApplyMemberTypePatch(st.memberTypes[i], patch))
              && r.state == st.(memberTypes := st.memberTypes[i := r.body.value])
  {
    match FindOne(st.memberTypes, MemberTypeKey, id)
    case None => Reply(st, None, BadRequest)
    case Some(_) =>
      var (changed, patched) := Change(st.memberTypes, MemberTypeKey, id, patch, ApplyMemberTypePatch);
      Reply(st.(memberTypes := changed), patched, Ok)
  }

  /** Patching never adds, removes or renames a member type, so the set of
      member type ids (and so every profile's reference) is unchanged, and
      the patched member type reads back as the merge. */
  lemma PatchMemberTypeKeepsIds(st: State, id: Id, patch: MemberTypePatch)
    ensures var r := PatchMemberType(st, id, patch);
            && Keys(r.state.memberTypes, MemberTypeKey) == Keys(st.memberTypes, MemberTypeKey)
            && (r.body.Some? ==> GetMemberType(r.state, id).body == r.body)
            && (WellFormed(st) ==> WellFormed(r.state))
  {
    var r := PatchMemberType(st, id, patch);
    if r.body.Some? {
      var i := FirstIndex(st.memberTypes, MemberTypeKey, id).value;
      FirstIndexIs(r.state.memberTypes, MemberTypeKey, id, i);
    }
    if WellFormed(st) {
      UniqueKeysFromKeys(r.state.memberTypes, st.memberTypes, MemberTypeKey);
    }
  }
}
