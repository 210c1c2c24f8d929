/** The four record kinds of the service, the in-memory state that holds
    them, the partial-update patches `change` merges in, and the creation
    DTOs. Field names follow the records the handlers read and write. */
module Entities {
  import opened Base
  import opened Store

  datatype User = User(
    id: Id,
    firstName: string,
    lastName: string,
    email: string,
    subscribedToUserIds: seq<Id>)

  datatype Profile = Profile(
    id: Id,
    avatar: string,
    sex: string,
    birthday: int,
    country: string,
    street: string,
    city: string,
    memberTypeId: Id,
    userId: Id)

  datatype Post = Post(id: Id, title: string, content: string, userId: Id)

  datatype MemberType = MemberType(id: Id, discount: int, monthPostsLimit: int)

  /** `fastify.db`: one ordered sequence per record kind, in insertion order. */
  datatype State = State(
    users: seq<User>,
    profiles: seq<Profile>,
    posts: seq<Post>,
    memberTypes: seq<MemberType>)

  /** What a route handler produces: the store after the request, the reply
      body (`null` is `None`) and the status left on the reply. */
  datatype Reply<T> = Reply(state: State, body: Option<T>, status: Status)

  /** What a resolver produces: the store after the call and its value. */
  datatype Step<T> = Step(state: State, value: Option<T>)

  // Field lookups, the `key` of a store predicate.

  function UserKey(u: User): Id { u.id }
  function SubscriptionList(u: User): seq<Id> { u.subscribedToUserIds }
  function ProfileKey(p: Profile): Id { p.id }
  function ProfileOwner(p: Profile): Id { p.userId }
  function PostKey(p: Post): Id { p.id }
  function PostOwner(p: Post): Id { p.userId }
  function MemberTypeKey(m: MemberType): Id { m.id }

  /** Ids are unique within each kind, as the store's generator makes them. */
  predicate WellFormed(st: State) {
    && UniqueKeys(st.users, UserKey)
    && UniqueKeys(st.profiles, ProfileKey)
    && UniqueKeys(st.posts, PostKey)
    && UniqueKeys(st.memberTypes, MemberTypeKey)
  }

  /** An id the store's generator may hand out next: UUID-shaped and unused. */
  predicate FreshId<T>(s: seq<T>, key: T -> Id, id: Id) {
    ValidUuid(id) && !HasKey(s, key, id)
  }

  // ---------------------------------------------------------------------
  // Patches: `change(id, patch)` overwrites exactly the fields present.
  // ---------------------------------------------------------------------

  /** The stored value unless the patch carries the field. */
  function Merge<T>(field: Option<T>, stored: T): T {
    if field.Some? then field.value else stored
  }

  datatype UserPatch = UserPatch(
    firstName: Option<string>,
    lastName: Option<string>,
    email: Option<string>,
    subscribedToUserIds: Option<seq<Id>>)

  datatype ProfilePatch = ProfilePatch(
    avatar: Option<string>,
    sex: Option<string>,
    birthday: Option<int>,
    country: Option<string>,
    street: Option<string>,
    city: Option<string>,
    memberTypeId: Option<Id>)

  datatype PostPatch = PostPatch(title: Option<string>, content: Option<string>)

  datatype MemberTypePatch = MemberTypePatch(discount: Option<int>, monthPostsLimit: Option<int>)

  function ApplyUserPatch(u: User, p: UserPatch): User {
    User(u.id, Merge(p.firstName, u.firstName), Merge(p.lastName, u.lastName),
         Merge(p.email, u.email), Merge(p.subscribedToUserIds, u.subscribedToUserIds))
  }

  function ApplyProfilePatch(r: Profile, p: ProfilePatch): Profile {
    Profile(r.id, Merge(p.avatar, r.avatar), Merge(p.sex, r.sex), Merge(p.birthday, r.birthday),
            Merge(p.country, r.country), Merge(p.street, r.street), Merge(p.city, r.city),
            Merge(p.memberTypeId, r.memberTypeId), r.userId)
  }

  function ApplyPostPatch(r: Post, p: PostPatch): Post {
    Post(r.id, Merge(p.title, r.title), Merge(p.content, r.content), r.userId)
  }

  function ApplyMemberTypePatch(r: MemberType, p: MemberTypePatch): MemberType {
    MemberType(r.id, Merge(p.discount, r.discount), Merge(p.monthPostsLimit, r.monthPostsLimit))
  }

  /** A whole user record passed as the patch, as in `change(id, mainUser)`. */
  function WholeUserPatch(u: User): UserPatch {
    UserPatch(Some(u.firstName), Some(u.lastName), Some(u.email), Some(u.subscribedToUserIds))
  }

  /** Passing a whole record with the same id as the patch stores that record. */
  lemma WholeUserPatchStoresRecord(stored: User, u: User)
    requires stored.id == u.id
    ensures ApplyUserPatch(stored, WholeUserPatch(u)) == u
  {
  }

  /** `change` is a merge: each field the patch carries overwrites the
      stored one, each field it leaves out keeps its stored value, the id and
      the owner are never changed, and applying the same patch twice is
      applying it once. */
  lemma PatchesMerge(u: User, up: UserPatch, r: Profile, rp: ProfilePatch, o: Post, op: PostPatch,
                     m: MemberType, mp: MemberTypePatch)
    ensures ApplyUserPatch(u, up).id == u.id
    ensures ApplyUserPatch(u, up).firstName == (if up.firstName.Some? then up.firstName.value else u.firstName)
    ensures ApplyUserPatch(u, up).lastName == (if up.lastName.Some? then up.lastName.value else u.lastName)
    ensures ApplyUserPatch(u, up).email == (if up.email.Some? then up.email.value else u.email)
    ensures ApplyUserPatch(u, up).subscribedToUserIds == (if up.subscribedToUserIds.Some? then up.subscribedToUserIds.value else u.subscribedToUserIds)
    ensures ApplyUserPatch(ApplyUserPatch(u, up), up) == ApplyUserPatch(u, up)
    ensures ApplyProfilePatch(r, rp).id == r.id && ApplyProfilePatch(r, rp).userId == r.userId
    ensures ApplyProfilePatch(r, rp).avatar == (if rp.avatar.Some? then rp.avatar.value else r.avatar)
    ensures ApplyProfilePatch(r, rp).sex == (if rp.sex.Some? then rp.sex.value else r.sex)
    ensures ApplyProfilePatch(r, rp).birthday == (if rp.birthday.Some? then rp.birthday.value else r.birthday)
    ensures ApplyProfilePatch(r, rp).country == (if rp.country.Some? then rp.country.value else r.country)
    ensures ApplyProfilePatch(r, rp).street == (if rp.street.Some? then rp.street.value else r.street)
    ensures ApplyProfilePatch(r, rp).city == (if rp.city.Some? then rp.city.value else r.city)
    ensures ApplyProfilePatch(r, rp).memberTypeId == (if rp.memberTypeId.Some? then rp.memberTypeId.value else r.memberTypeId)
    ensures ApplyProfilePatch(ApplyProfilePatch(r, rp), rp) == ApplyProfilePatch(r, rp)
    ensures ApplyPostPatch(o, op).id == o.id && ApplyPostPatch(o, op).userId == o.userId
    ensures ApplyPostPatch(o, op).title == (if op.title.Some? then op.title.value else o.title)
    ensures ApplyPostPatch(o, op).content == (if op.content.Some? then op.content.value else o.content)
    ensures ApplyPostPatch(ApplyPostPatch(o, op), op) == ApplyPostPatch(o, op)
    ensures ApplyMemberTypePatch(m, mp).id == m.id
    ensures ApplyMemberTypePatch(m, mp).discount == (if mp.discount.Some? then mp.discount.value else m.discount)
    ensures ApplyMemberTypePatch(m, mp).monthPostsLimit == (if mp.monthPostsLimit.Some? then mp.monthPostsLimit.value else m.monthPostsLimit)
    ensures ApplyMemberTypePatch(ApplyMemberTypePatch(m, mp), mp) == ApplyMemberTypePatch(m, mp)
  {
  }

  // ---------------------------------------------------------------------
  // Creation
  // ---------------------------------------------------------------------

  datatype CreateUserDto = CreateUserDto(firstName: string, lastName: string, email: string)

  datatype CreateProfileDto = CreateProfileDto(
    avatar: string,
    sex: string,
    birthday: int,
    country: string,
    street: string,
    city: string,
    memberTypeId: Id,
    userId: Id)

  datatype CreatePostDto = CreatePostDto(title: string, content: string, userId: Id)

  /** A new user follows nobody. */
  function NewUser(dto: CreateUserDto, id: Id): User {
    User(id, dto.firstName, dto.lastName, dto.email, [])
  }

  function NewProfile(dto: CreateProfileDto, id: Id): Profile {
    Profile(id, dto.avatar, dto.sex, dto.birthday, dto.country, dto.street, dto.city,
            dto.memberTypeId, dto.userId)
  }

  function NewPost(dto: CreatePostDto, id: Id): Post {
    Post(id, dto.title, dto.content, dto.userId)
  }
}
