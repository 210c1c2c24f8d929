/** The `/posts` route handlers. Creation stores the body as-is: neither
    the author nor anything else is checked. */
module PostsRoute {
  import opened Base
  import opened Store
  import opened Entities
  import opened Crud

  /** A table-level reply placed back into the store. */
  function WithPosts(st: State, t: TableReply<Post>): Reply<Post> {
    Reply(st.(posts := t.table), t.body, t.status)
  }

  /** GET /posts/:id: `null` with NOT_FOUND unless the id is a UUID of a
      stored post; nothing changes. */
  function GetPost(st: State, id: Id): (r: Reply<Post>)
    ensures r.state == st
    ensures r.body.Some? <==> ValidUuid(id) && HasKey(st.posts, PostKey, id)
    ensures r.body.Some? ==> r.body.value in st.posts && r.body.value.id == id && r.status == Ok
    ensures r.body.None? ==> r.status == NotFound
  {
    WithPosts(st, GetById(st.posts, PostKey, id))
  }

  /** POST /posts: always accepted, appended under a fresh id. */
  function CreatePost(st: State, dto: CreatePostDto, freshId: Id): (r: Reply<Post>)
    requires FreshId(st.posts, PostKey, freshId)
    ensures r.status == Ok && r.body.Some?
    ensures r.body.value.id == freshId && r.body.value.userId == dto.userId
    ensures r.body.value.title == dto.title && r.body.value.content == dto.content
    ensures r.state == st.(posts := st.posts + [r.body.value])
  {
    var p := NewPost(dto, freshId);
    Reply(st.(posts := Create(st.posts, p)), Some(p), Ok)
  }

  /** DELETE /posts/:id: BAD_REQUEST for a non-UUID id, NOT_FOUND for an
      unknown one, otherwise the post is removed and returned. */
  function DeletePost(st: State, id: Id): (r: Reply<Post>)
    ensures !ValidUuid(id) ==> r == Reply(st, None, BadRequest)
    ensures ValidUuid(id) && !HasKey(st.posts, PostKey, id) ==> r == Reply(st, None, NotFound)
    ensures ValidUuid(id) && HasKey(st.posts, PostKey, id) ==>
              && r.status == Ok && r.body.Some? && r.body.value.id == id
              && r.state == st.(posts := r.state.posts)
              && |r.state.posts| == |st.posts| - 1
  {
    WithPosts(st, DeleteById(st.posts, PostKey, id))
  }

  /** PATCH /posts/:id: BAD_REQUEST for a non-UUID id, NOT_FOUND for an
      unknown one, otherwise the patch is merged into that post. */
  function PatchPost(st: State, id: Id, patch: PostPatch): (r: Reply<Post>)
    ensures !ValidUuid(id) ==> r == Reply(st, None, BadRequest)
    ensures ValidUuid(id) && !HasKey(st.posts, PostKey, id) ==> r == Reply(st, None, NotFound)
    ensures ValidUuid(id) && HasKey(st.posts, PostKey, id) ==>
              var i := FirstIndex(st.posts, PostKey, id).value;
              && r.status == Ok
              && r.body == Some(ApplyPostPatch(st.posts[i], patch))
              && r.state == st.(posts := st.posts[i := r.body.value])
  {
    WithPosts(st, PatchById(st.posts, PostKey, id, patch, ApplyPostPatch))
  }

  // ---------------------------------------------------------------------
  // Properties
  // ---------------------------------------------------------------------

  /** A created post is what GET returns for its id; a second post by the
      same author is accepted too, and ids stay unique. */
  lemma CreatePostThenGet(st: State, dto: CreatePostDto, freshId: Id)
    requires FreshId(st.posts, PostKey, freshId)
    ensures var r := CreatePost(st, dto, freshId);
            && GetPost(r.state, freshId).body == r.body
            && |FindMany(r.state.posts, PostOwner, dto.userId)| == |FindMany(st.posts, PostOwner, dto.userId)| + 1
            && (WellFormed(st) ==> WellFormed(r.state))
  {
    var p := NewPost(dto, freshId);
    GetAfterCreate(st.posts, PostKey, p);
    FilterAppend(st.posts, [p], KeyIs(PostOwner, dto.userId));
  }

  /** DELETE then GET of the same post id finds nothing; only that post is
      gone. */
  lemma DeletePostThenGet(st: State, id: Id)
    requires WellFormed(st) && ValidUuid(id)
    ensures var r := DeletePost(st, id);
            && GetPost(r.state, id).body.None?
            && r.state.posts == Reject(st.posts, PostKey, id)
            && WellFormed(r.state)
  {
    GetAfterDelete(st.posts, PostKey, id);
    DeleteByIdIsReject(st.posts, PostKey, id);
  }

  /** A patched post reads back as the merge of the patch into it, and it
      keeps its author. */
  lemma PatchPostThenGet(st: State, id: Id, patch: PostPatch)
    requires PatchPost(st, id, patch).body.Some?
    ensures var r := PatchPost(st, id, patch);
            && GetPost(r.state, id).body == r.body
            && r.body.value.userId == FindOne(st.posts, PostKey, id).value.userId
            && (WellFormed(st) ==> WellFormed(r.state))
  {
    GetAfterPatch(st.posts, PostKey, id, patch, ApplyPostPatch);
    var r := PatchPost(st, id, patch);
    if WellFormed(st) {
      UniqueKeysFromKeys(r.state.posts, st.posts, PostKey);
    }
  }
}
