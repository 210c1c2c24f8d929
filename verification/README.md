# rsschool GraphQL service: store, routes and resolvers in Dafny

This project models the in-memory relational store behind a small social
content service, and the handlers built on it. The store has four record
kinds: users, profiles, posts and member types. Users follow each other
through `subscribedToUserIds`. The model covers:

- the REST route handlers for `/users`, `/profiles`, `/posts` and
  `/member-types`, with their UUID and existence guards, the one-profile-per-user
  creation guard and the user deletion cascade;
- the GraphQL resolver service: per-user aggregates, the follower views, the
  depth-bounded two-hop "users with subscriptions" view, the update resolvers
  with their `new || fallback` merges, and following / unfollowing;
- the places where the GraphQL schema's inline resolvers diverge from that
  service.

The schema's `fullUsers`, `fullUser`, `usersWithSubscribedTo`,
`userWithHisSubscribedTo` and `usersWithSubscriptions` queries and its
`updateUser`, `updateProfile`, `updatePost` and `updateMemberType` mutations
(src/routes/graphql/index.ts:264-380 and 419-522) repeat the service's code
inline. The `Resolvers` members model both copies.

Everything is a pure function over an immutable `State` of four sequences.
A route handler returns a `Reply` (the new state, the body with `null` as
`None`, and the status left on the reply). A resolver returns a `Step` (the
new state and its value).

Modules, one per file:

| file | module | what it holds |
|---|---|---|
| `base.dfy` | `Base` | `Option`, ids, statuses, `ValidUuid`, JavaScript truthiness and `\|\|` |
| `store.dfy` | `Store` | the store contract over `seq<T>`: `findMany`, `findOne`, `create`, `change`, `delete` |
| `entities.dfy` | `Entities` | the record kinds, `State`, patches and creation DTOs |
| `subscriptions.dfy` | `Subscriptions` | follow / unfollow edits and the reverse "followers" scan |
| `crud.dfy` | `Crud` | the GET / DELETE / PATCH `/:id` handler shape every route repeats |
| `users.dfy`, `profiles.dfy`, `posts.dfy`, `member_types.dfy` | `UsersRoute`, `ProfilesRoute`, `PostsRoute`, `MemberTypesRoute` | the REST routes |
| `resolvers.dfy` | `Resolvers` | the resolver service, shared with the schema's inline copies |
| `graphql.dfy` | `GraphQL` | the schema's divergent resolvers, as written and as intended |

The store implementation is not part of this model. Its contract is stated
as definitions:

- `findMany({key, equals})` is an order-preserving filter by exact equality
  of the field (`Store.FindMany`).
- `findOne` returns the first match or `null` (`Store.FindOne`).
- `create` appends under a fresh id, which is a parameter not yet in use
  (`Store.Create`, `Entities.FreshId`).
- `change(id, patch)` overwrites, in place, the fields the patch carries
  (`Store.Change`).
- `delete(id)` removes the first record with that id and returns it, or
  `null` when there is none (`Store.Delete`).

`uuid.validate` is `Base.ValidUuid`: the 8-4-4-4-12 hexadecimal text form of
section 3 of RFC 4122.

Some behaviour of the code that a reader might not expect:

- `subscribeTo` has no self-follow, duplicate or target-existence check
  (`Subscriptions.FollowHasNoGuards`).
- Post creation and the GraphQL `createProfile` mutation check nothing, and
  REST profile creation does not check that the owner exists
  (`ProfilesRoute.CreateProfileDoesNotCheckOwner`).
- The four steps of the user deletion cascade always run, even for an
  unknown user.

## Model

| member | source | states |
|---|---|---|
| Base.OrSelfIsIdentity | src/routes/graphql/resolveService/ResolveService.ts:189-197 | `x \|\| x` is `x` for optional strings and numbers, so a fallback read from the same DTO changes nothing |
| Store.FindMany | src/routes/graphql/resolveService/ResolveService.ts:50-51 | `findMany({key, equals})` returns exactly the records whose field equals the value, in store order, each as often as stored |
| Store.SelectionIsFilter | src/routes/graphql/resolveService/ResolveService.ts:50-51 | any order-preserving subsequence holding exactly the matching records, with their multiplicities, is the filter: the selection is determined uniquely |
| Store.FindOne | src/routes/graphql/resolveService/ResolveService.ts:30-32 | `findOne` yields a record iff one has the key, and that record is stored and carries the key |
| Store.FirstIndex | src/routes/users/index.ts:169 | the record `findOne` picks is the first with the key; there is none iff no record has it |
| Store.FindOneIsHeadOfFindMany | src/routes/graphql/resolveService/ResolveService.ts:64-65 | `findOne` by a key is the head of `findMany` by the same key, or `null` when that is empty |
| Store.FindManyUniqueAtMostOne | src/routes/graphql/resolveService/ResolveService.ts:67-69 | with unique keys, `findMany` by key has at most one element, and exactly one iff the key is stored |
| Store.Create | src/routes/posts/index.ts:48-50 | `create` appends: the old records keep their places and the new one is last |
| Store.Change | src/routes/users/index.ts:176 | `change` keeps the length, patches the first record with the id in place and returns it; an absent id gives `null` and no change |
| Store.Delete | src/routes/users/index.ts:97 | `delete` removes the first record with the id and returns it; an absent id gives `null` and no change |
| Store.DeleteUnique | src/routes/posts/index.ts:71 | with unique ids, deleting by id leaves exactly the records with other ids, in order |
| Store.DeleteEach | src/routes/users/index.ts:79-95 | the `forEach` of deletes removes at most one record per victim and only records: every record whose id no victim carries survives |
| Store.DeleteEachOfSelection | src/routes/users/index.ts:79-86 | deleting one by one the records `findMany` selected by a field leaves exactly the records whose field differs, in order |
| Store.FilterKeepsUniqueKeys | src/routes/posts/index.ts:71 | removing records never breaks id uniqueness |
| Store.ChangeKeepsKeys | src/routes/users/index.ts:176 | a patch that does not touch the id leaves the id column unchanged |
| Entities.WholeUserPatchStoresRecord | src/routes/graphql/resolveService/ResolveService.ts:245-247 | passing a whole record with the same id as the patch stores exactly that record |
| Entities.PatchesMerge | src/routes/profiles/index.ts:114 | `change` is a merge: every field the patch carries overwrites the stored one, every field it leaves out keeps its stored value, the id and the owner are never changed, and applying a patch twice is applying it once |
| Subscriptions.RemoveAll | src/routes/graphql/resolveService/ResolveService.ts:260 | `filter(_id => _id !== x)` removes every `x` and keeps every other id, as often as before and in order |
| Subscriptions.Followers | src/routes/graphql/resolveService/ResolveService.ts:77-79 | the reverse scan yields exactly the users whose list contains the id, in store order |
| Subscriptions.Follow | src/routes/graphql/resolveService/ResolveService.ts:239-251 | `subscribeTo`: a missing follower gives `null` and no change; otherwise only the follower's record changes, and its list gains the target at the end |
| Subscriptions.Unfollow | src/routes/graphql/resolveService/ResolveService.ts:253-269 | `unSubscribeTo` succeeds iff both ids are UUIDs, the follower exists and follows the target; then every occurrence of the target is removed; otherwise nothing changes |
| Subscriptions.FollowAppendsOne | src/routes/graphql/resolveService/ResolveService.ts:244-247 | a successful follow grows the list by exactly one entry, the target, and leaves the other kinds and the user count unchanged |
| Subscriptions.FollowHasNoGuards | src/routes/graphql/resolveService/ResolveService.ts:242-247 | following oneself or following twice is accepted: the target's count in the list grows by one |
| Subscriptions.FollowThenFollowersInclude | src/routes/graphql/resolveService/ResolveService.ts:239-251 | after A follows B, B's reverse scan includes A |
| Subscriptions.FollowThenUnfollow | src/routes/graphql/resolveService/ResolveService.ts:239-269 | follow then unfollow of the same edge succeeds and leaves A out of B's followers |
| Subscriptions.UnfollowTwiceIsNoop | src/routes/graphql/resolveService/ResolveService.ts:256-268 | a repeated unfollow returns `null` and changes nothing |
| Subscriptions.EdgeEditsKeepWellFormed | src/routes/graphql/resolveService/ResolveService.ts:247 | follow and unfollow keep ids unique in every kind |
| Crud.GetById | src/routes/posts/index.ts:22-38 | GET `/:id` returns a stored record with that id iff the id is a UUID that is stored, else `null` with NOT_FOUND; the table is unchanged |
| Crud.DeleteById | src/routes/posts/index.ts:60-76 | DELETE `/:id`: BAD_REQUEST for a non-UUID, NOT_FOUND for an unknown id, both with no change; otherwise one record with that id is removed and returned |
| Crud.PatchById | src/routes/posts/index.ts:87-103 | PATCH `/:id`: the same guards; otherwise exactly the record with that id becomes the merge of the patch into it |
| Crud.GetAfterCreate | src/routes/posts/index.ts:48-50 | a record created under a fresh UUID is what GET returns for it, and ids stay unique |
| Crud.DeleteByIdIsReject | src/routes/profiles/index.ts:79-91 | with unique ids, DELETE of a UUID leaves exactly the records with other ids, in order |
| Crud.GetAfterDelete | src/routes/posts/index.ts:63-75 | after DELETE, GET of the same id gives `null`, and ids stay unique |
| Crud.GetAfterPatch | src/routes/profiles/index.ts:106-118 | after PATCH, GET of the same id returns the patched record, and the id column is unchanged |
| UsersRoute.GetUser | src/routes/users/index.ts:26-42 | GET `/users/:id` returns the stored user iff the id is a UUID that is stored, else `null` with NOT_FOUND; nothing changes |
| UsersRoute.CreateUser | src/routes/users/index.ts:52-54 | POST `/users` appends one user with the body's fields, following nobody, under a fresh id; the other kinds are untouched |
| UsersRoute.CreateThenGetUser | src/routes/users/index.ts:26-54 | a created user reads back by its id, and ids stay unique |
| UsersRoute.DeleteUser | src/routes/users/index.ts:64-102 | DELETE with a non-UUID gives `null`, BAD_REQUEST and no change; with a UUID the status is OK, member types are untouched, and the reply is the user iff it existed |
| UsersRoute.RewriteEach | src/routes/users/index.ts:70-76 | cascade step 1, one `change` per selected user in order: the user count and the id column are unchanged |
| UsersRoute.RewriteEachOfSelection | src/routes/users/index.ts:68-77 | rewriting the selected users one `change` at a time equals rewriting, in place, exactly the users the selection accepts |
| UsersRoute.RewriteThenDelete | src/routes/users/index.ts:68-97 | steps 1 and 4 leave the rewritten users minus the deleted id, and reply with the deleted user's rewritten record |
| UsersRoute.DeleteUserCascade | src/routes/users/index.ts:64-97 | the whole cascade: posts and profiles owned by the user are gone and the rest keep their order; users whose list was exactly `[id]` are rewritten; the user is removed; member types are untouched |
| UsersRoute.DeleteUserLeavesNoDependants | src/routes/users/index.ts:79-97 | after DELETE no post or profile belongs to the user, every other user's posts and profiles are as before, and GET of the user gives `null` |
| UsersRoute.DeleteUserStepOneIsExactMatch | src/routes/users/index.ts:68-77 | a user whose list is exactly `[id]` survives with an empty list; every other surviving user is unchanged, even when its list mentions `id` |
| UsersRoute.DeleteUserLeavesDanglingEdge | src/routes/users/index.ts:68 | a user following the deleted user and someone else still lists the deleted id afterwards |
| UsersRoute.DeleteUserIntended | src/routes/users/index.ts:64-102 | the cascade selecting followers by membership: same guards and statuses as the route |
| UsersRoute.NoEdgeAfterRewrite | src/routes/users/index.ts:73 | rewriting every user whose list contains the id leaves no list containing it |
| UsersRoute.DeleteUserIntendedRemovesAllEdges | src/routes/users/index.ts:68-97 | with membership selection no remaining user follows the deleted user, and the posts and profiles are removed as in the route |
| UsersRoute.DeleteUserKeepsWellFormed | src/routes/users/index.ts:64-97 | the cascade keeps ids unique in every kind |
| UsersRoute.SubscribeTo | src/routes/users/index.ts:113-125 | `subscribeTo`: the follower is `body.userId`; a missing follower gives `null`, BAD_REQUEST and no change; otherwise only the follower's record changes, to itself with `params.id` appended to its list |
| UsersRoute.UnsubscribeFrom | src/routes/users/index.ts:136-154 | `unsubscribeFrom` succeeds iff both ids are UUIDs and the follower exists and follows the target; then only the follower's record changes, to itself with every occurrence of the target filtered out of its list; otherwise BAD_REQUEST and no change |
| UsersRoute.UnsubscribeFromTwice | src/routes/users/index.ts:139-153 | a repeated `unsubscribeFrom` is refused with BAD_REQUEST and changes nothing |
| UsersRoute.PatchUser | src/routes/users/index.ts:165-181 | PATCH `/users/:id`: BAD_REQUEST for a non-UUID, NOT_FOUND for an unknown id, both with no change; otherwise only that user changes, to the merge of the body |
| UsersRoute.PatchThenGetUser | src/routes/users/index.ts:165-181 | a patched user reads back as the merge, and ids stay unique |
| ProfilesRoute.GetProfile | src/routes/profiles/index.ts:22-37 | GET returns the stored profile iff the id is a UUID that is stored, else `null` with NOT_FOUND; nothing changes |
| ProfilesRoute.AcceptsProfile | src/routes/profiles/index.ts:50-57 | the creation guard holds iff the owner id is a UUID, the member type id is non-empty, `findOne` finds the member type and `findMany` by owner finds no profile |
| ProfilesRoute.CreateProfile | src/routes/profiles/index.ts:47-66 | POST is accepted iff the owner id is a UUID, the member type id is non-empty and stored, and the owner has no profile; a refusal is BAD_REQUEST with no change; acceptance appends one profile carrying every field of the body under the fresh id |
| ProfilesRoute.CreateProfileKeepsOnePerUser | src/routes/profiles/index.ts:50-60 | if no two profiles share an owner before a creation, none do after, and ids stay unique |
| ProfilesRoute.CreateProfileKeepsUniqueIds | src/routes/profiles/index.ts:59 | creating a profile keeps profile ids unique, whatever the owners: the new id is fresh |
| ProfilesRoute.CreateProfileTwiceIsRefused | src/routes/profiles/index.ts:52-57 | a second creation for the same owner is refused, changes nothing, and the first profile still reads back |
| ProfilesRoute.CreateProfileDoesNotCheckOwner | src/routes/profiles/index.ts:48-60 | a profile is created for an owner id that no stored user has |
| ProfilesRoute.DeleteProfile | src/routes/profiles/index.ts:76-92 | DELETE: BAD_REQUEST for a non-UUID, NOT_FOUND for an unknown id, both with no change; otherwise that profile is removed and returned and only the profiles change |
| ProfilesRoute.DeleteProfileThenGet | src/routes/profiles/index.ts:79-91 | after DELETE exactly that profile is gone, the others keep their order, and GET gives `null` |
| ProfilesRoute.PatchProfile | src/routes/profiles/index.ts:103-119 | PATCH: the same guards; otherwise only that profile changes, to the merge of the body |
| ProfilesRoute.PatchProfileThenGet | src/routes/profiles/index.ts:106-118 | a patched profile reads back as the merge and keeps its owner |
| PostsRoute.GetPost | src/routes/posts/index.ts:22-38 | GET returns the stored post iff the id is a UUID that is stored, else `null` with NOT_FOUND; nothing changes |
| PostsRoute.CreatePost | src/routes/posts/index.ts:48-50 | POST always appends one post with the body's fields under a fresh id |
| PostsRoute.CreatePostThenGet | src/routes/posts/index.ts:48-50 | a created post reads back by id, the author's post count grows by one whether or not the author exists, and ids stay unique |
| PostsRoute.DeletePost | src/routes/posts/index.ts:60-76 | DELETE: BAD_REQUEST for a non-UUID, NOT_FOUND for an unknown id, both with no change; otherwise that post is removed and returned |
| PostsRoute.DeletePostThenGet | src/routes/posts/index.ts:63-75 | after DELETE exactly that post is gone and GET gives `null` |
| PostsRoute.PatchPost | src/routes/posts/index.ts:87-103 | PATCH: the same guards; otherwise only that post changes, to the merge of the body |
| PostsRoute.PatchPostThenGet | src/routes/posts/index.ts:90-102 | a patched post reads back as the merge and keeps its author |
| MemberTypesRoute.GetMemberType | src/routes/member-types/index.ts:23-41 | GET accepts any id string: a stored id returns its member type, an unknown one `null` with NOT_FOUND |
| MemberTypesRoute.PatchMemberType | src/routes/member-types/index.ts:52-70 | PATCH of an unknown id gives `null` with BAD_REQUEST and no change; otherwise only that member type changes, to the merge of the body |
| MemberTypesRoute.PatchMemberTypeKeepsIds | src/routes/member-types/index.ts:10-71 | the member-type ids never change through the plugin, and a patched member type reads back as the merge |
| Resolvers.MemberTypesOf | src/routes/graphql/resolveService/ResolveService.ts:53-56 | one member-type list per profile, holding exactly the member types with the profile's `memberTypeId` |
| Resolvers.GetFullUserById | src/routes/graphql/resolveService/ResolveService.ts:63-72 | the aggregate has the user iff it is stored; its posts and profiles are exactly the records the id owns, in store order; one member-type list per profile; an unknown id still gets the lists |
| Resolvers.GetFullUsers | src/routes/graphql/resolveService/ResolveService.ts:46-61 | one aggregate per user, in store order, each with that user's posts and profiles |
| Resolvers.FullUsersAgreeWithById | src/routes/graphql/resolveService/ResolveService.ts:46-72 | with unique ids, the list aggregate of each user equals the by-id aggregate |
| Resolvers.FullUserMemberTypesAtMostOne | src/routes/graphql/resolveService/ResolveService.ts:67-69 | with unique ids, each profile's member-type list has at most one entry, and one iff its member type is stored |
| Resolvers.GetUsersWithSubscribeTo | src/routes/graphql/resolveService/ResolveService.ts:74-89 | one entry per user, in store order, with one profile list per follower |
| Resolvers.FollowerProfilesAreFollowers | src/routes/graphql/resolveService/ResolveService.ts:77-83 | the j-th list is exactly the profiles of the j-th follower, a stored user whose list contains the user's id |
| Resolvers.GetUserWithSubscribeToById | src/routes/graphql/resolveService/ResolveService.ts:91-107 | the user is the one `findOne` gives for the id, stored and carrying it; for that user, one entry per followee id: that user's posts when the id resolves, `[]` otherwise; an unknown user has no entries but still gets its posts and profiles |
| Resolvers.FolloweePosts | src/routes/graphql/resolveService/ResolveService.ts:96-104 | for a followee id that is stored and non-empty, exactly that user's posts in store order; otherwise `[]` |
| Resolvers.SubscribedPostsAreFolloweePosts | src/routes/graphql/resolveService/ResolveService.ts:96-104 | every post listed under a followee id is a stored post by that id, and the id names a stored user |
| Resolvers.ResolveEach | src/routes/graphql/resolveService/ResolveService.ts:113-117 | one `findOne` per followee id: present iff the id is stored |
| Resolvers.ShellOf | src/routes/graphql/resolveService/ResolveService.ts:112-124 | the first-pass shell keeps the user, resolves one entry per followee id (the stored user with that id, or `null` exactly when none is stored), and lists exactly its followers in store order |
| Resolvers.FirstPass | src/routes/graphql/resolveService/ResolveService.ts:112-124 | one shell per user, in store order |
| Resolvers.ArrayFind | src/routes/graphql/resolveService/ResolveService.ts:130 | `find` returns an element iff one is accepted, and then the first accepted element in order |
| Resolvers.AsyncCallback | src/routes/graphql/resolveService/ResolveService.ts:130 | as written the callback is `async`, so every shell is accepted whatever the edge |
| Resolvers.IdCallback | src/routes/graphql/resolveService/ResolveService.ts:130 | the intended callback accepts exactly the shells whose user has the edge's id, and none for a `null` edge |
| Resolvers.Expand | src/routes/graphql/resolveService/ResolveService.ts:126-138 | the second pass keeps the shell and both edge-list lengths, and every entry is a first-pass shell |
| Resolvers.SecondPass | src/routes/graphql/resolveService/ResolveService.ts:126-138 | one expanded record per shell, in order |
| Resolvers.GetUsersWithSubscriptions | src/routes/graphql/resolveService/ResolveService.ts:109-141 | one two-hop record per user, in store order |
| Resolvers.UsersWithSubscriptionsIsTwoHop | src/routes/graphql/resolveService/ResolveService.ts:126-138 | the edge lists keep their first-pass lengths and hold only first-pass shells, so the view stops at depth two |
| Resolvers.AcceptAllFindsHead | src/routes/graphql/resolveService/ResolveService.ts:130 | a callback that accepts everything makes `find` return the first element |
| Resolvers.UsersWithSubscriptionsAllFirst | src/routes/graphql/resolveService/ResolveService.ts:129-135 | as written, every edge in both directions is the first user's shell |
| Resolvers.UsersWithSubscriptionsMisresolves | src/routes/graphql/resolveService/ResolveService.ts:134 | an edge to a user other than the first resolves to the first user's shell |
| Resolvers.UsersWithSubscriptionsIntended | src/routes/graphql/resolveService/ResolveService.ts:109-141 | the view with the id comparison: one record per user, in store order |
| Resolvers.IdCallbackResolves | src/routes/graphql/resolveService/ResolveService.ts:130 | with unique ids, comparing ids makes `find` return the shell of exactly the user with the edge's id, and nothing for an unknown id |
| Resolvers.UsersWithSubscriptionsIntendedResolves | src/routes/graphql/resolveService/ResolveService.ts:126-138 | with the id comparison, each forward edge is the shell of the user it names (absent iff the id is unknown) and each reverse edge the shell of that follower |
| Resolvers.UpdateUser | src/routes/graphql/resolveService/ResolveService.ts:155-170 | `updateUser` succeeds iff the id is a UUID that is stored, else nothing changes; a truthy field replaces the stored one, a falsy or absent one keeps it; subscriptions and other users are untouched |
| Resolvers.UpdatePost | src/routes/graphql/resolveService/ResolveService.ts:204-218 | `updatePost`: the same guards and merge over title and content; the author is kept |
| Resolvers.UpdateProfile | src/routes/graphql/resolveService/ResolveService.ts:172-202 | `updateProfile` succeeds iff the id is a UUID that is stored; the patch is the DTO's own fields, so `""` and `0` overwrite and absent fields keep their values |
| Resolvers.UpdateMemberType | src/routes/graphql/resolveService/ResolveService.ts:220-237 | `updateMemberType` has no UUID check and succeeds iff the id is stored; the patch is the DTO's own fields |
| Resolvers.UpdateUserIsIdempotent | src/routes/graphql/resolveService/ResolveService.ts:155-170 | repeating `updateUser` leaves the store as one call does |
| Resolvers.UpdatePostIsIdempotent | src/routes/graphql/resolveService/ResolveService.ts:204-218 | repeating `updatePost` leaves the store as one call does |
| Resolvers.UpdateProfileIsIdempotent | src/routes/graphql/resolveService/ResolveService.ts:172-202 | repeating `updateProfile` leaves the store as one call does |
| Resolvers.UpdateMemberTypeIsIdempotent | src/routes/graphql/resolveService/ResolveService.ts:220-237 | repeating `updateMemberType` leaves the store as one call does |
| Resolvers.FalsyValuesDiverge | src/routes/graphql/resolveService/ResolveService.ts:155-237 | the merges diverge on falsy values: an empty first name keeps the stored one, while an empty avatar and a zero discount overwrite the stored values |
| Resolvers.UpdatesKeepWellFormed | src/routes/graphql/resolveService/ResolveService.ts:155-237 | the four updates keep ids unique |
| GraphQL.ProfileQuery | src/routes/graphql/index.ts:233-241 | as written, `profile(id)` returns a stored member type with that id, and nothing when no member type has it |
| GraphQL.ProfileQueryMissesProfiles | src/routes/graphql/index.ts:239 | a stored profile whose id no member type shares is not found |
| GraphQL.ProfileQueryIntended | src/routes/graphql/index.ts:233-241 | reading the profiles, the query finds a profile iff one has the id |
| GraphQL.ProfileQueryIntendedFinds | src/routes/graphql/index.ts:233-241 | with unique ids, the corrected query returns the profile with that id and agrees with GET `/profiles/:id` on UUIDs |
| GraphQL.CreateProfileMutation | src/routes/graphql/index.ts:397-407 | `createProfile` appends a profile carrying every field of the DTO under a fresh id, with no check; ids stay unique |
| GraphQL.CreateProfileMutationAllowsSecondProfile | src/routes/graphql/index.ts:402-405 | for an owner that already has a profile, the mutation adds a second one, where the REST route refuses |
| GraphQL.SubscribeMutation | src/routes/graphql/index.ts:523-541 | as written, the subscribe mutation throws whenever `memberTypeDTO` is absent |
| GraphQL.UnsubscribeMutation | src/routes/graphql/index.ts:542-565 | as written, the unsubscribe mutation throws whenever `memberTypeDTO` is absent |
| GraphQL.EdgeMutationsAlwaysThrow | src/routes/graphql/index.ts:523-565 | given only their declared arguments, both mutations always throw and never change the store |
| GraphQL.SubscribeMutationIntended | src/routes/graphql/index.ts:523-541 | reading the declared `subscribeToTypeDTO` argument: throws with no change iff it is absent, and otherwise is `subscribeTo` on its ids |
| GraphQL.UnsubscribeMutationIntended | src/routes/graphql/index.ts:542-565 | reading the declared `usSubscribeToTypeDTO` argument: throws with no change iff it is absent, and otherwise is `unSubscribeTo` on its ids |
| GraphQL.EdgeMutationsIntendedWork | src/routes/graphql/index.ts:523-565 | the corrected mutations add the edge and then remove it again |

## Left out

- Fastify plugin wiring, request and reply objects, and JSON-schema body
  validation. The schemas are assumed to hold, so ids are strings and
  bodies have the declared fields. Statuses are kept as a three-value enum.
- The list handlers (`GET /` of every route, and the `users`, `profiles`,
  `posts` and `memberTypes` queries). They return the whole table unchanged.
- The single-record queries `user`, `post` and `memberType` are plain
  `findOne` calls, modelled by `Store.FindOne`. The `createUser` and
  `createPost` mutations and resolvers append like `UsersRoute.CreateUser`
  and `PostsRoute.CreatePost`.
- GraphQL schema construction and execution, and the declarative input and
  output types. Only the argument names the subscribe / unsubscribe mutations
  declare are modelled.
- Promises and async behaviour. The un-awaited `forEach` callbacks of the
  cascade are modelled as running to completion in order, before the user
  record is deleted. Interleavings are concurrency and out of scope.
- The store implementation, random id generation and the version / variant
  restriction of the `uuid` library: the store is a stated contract, fresh
  ids are parameters, and `ValidUuid` checks only the textual shape.
- `Store.Delete`: a delete of an absent id is modelled as returning `null`.
  The store file, which might throw instead, is not part of this model.
- `Resolvers.UpdateProfile`: a field absent from the DTO reaches `change` as
  a present key with value `undefined`. The update input type
  (src/routes/graphql/index.ts:131-143) also lets a client send an explicit
  `null` for every field but `id`, and `null || null` passes that `null` on.
  How the store merges either value is not part of this model. The model
  treats both as absent, so the stored value is kept, where the code may
  store `undefined` or `null`.
- `Resolvers.UpdateMemberType`: an absent `discount` or `monthPostsLimit`
  reaches `change` as a present key with value `undefined`, and an explicit
  `null` (allowed by src/routes/graphql/index.ts:154-161) reaches it as
  `null`, as in `updateProfile`. The model treats both as absent, so the
  stored value is kept.
- `Resolvers.UpdateUser`: an invalid UUID makes the resolver return
  `undefined` rather than `null`. Both are `None` here.

## Findings

| source | as written | input that shows it | evidently intended | confidence | as-written member | corrected member |
|---|---|---|---|---|---|---|
| src/routes/users/index.ts:68 | step 1 of the cascade selects users with `equals: [userId]`, which under exact equality matches only a list that is exactly `[userId]` | user W follows U and V (list `[U, V]`); DELETE U leaves W still following U | every user whose list contains U has U removed | high, not executed | UsersRoute.DeleteUserLeavesDanglingEdge | UsersRoute.DeleteUserIntended |
| src/routes/graphql/resolveService/ResolveService.ts:130-134 | `fullUsers.find` is given an `async` callback, whose promise is always truthy | stored users A (first), B and C, where C follows B: C's expanded edge to B is A's shell | `find` compares the shell's id with the edge's id | high, not executed | Resolvers.UsersWithSubscriptionsMisresolves | Resolvers.UsersWithSubscriptionsIntended |
| src/routes/graphql/index.ts:239 | the `profile(id)` query looks the id up in the member-type store | a stored profile P, with no member type whose id is P's id: the query finds nothing | look the id up among the profiles | high, not executed | GraphQL.ProfileQueryMissesProfiles | GraphQL.ProfileQueryIntended |
| src/routes/graphql/index.ts:526-529 | the subscribe mutation declares `subscribeToTypeDTO` but destructures `memberTypeDTO` | any call with `subscribeToTypeDTO` supplied throws, and no edge is added | destructure the declared argument | high, not executed | GraphQL.EdgeMutationsAlwaysThrow | GraphQL.SubscribeMutationIntended |
| src/routes/graphql/index.ts:545-548 | the unsubscribe mutation declares `usSubscribeToTypeDTO` but destructures `memberTypeDTO` | any call with `usSubscribeToTypeDTO` supplied throws, and no edge is removed | destructure the declared argument | high, not executed | GraphQL.EdgeMutationsAlwaysThrow | GraphQL.UnsubscribeMutationIntended |

The corrected members carry the intended property as proved lemmas:
`UsersRoute.DeleteUserIntendedRemovesAllEdges`,
`Resolvers.UsersWithSubscriptionsIntendedResolves`,
`GraphQL.ProfileQueryIntendedFinds` and `GraphQL.EdgeMutationsIntendedWork`.
