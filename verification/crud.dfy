/** The by-id handlers every REST route repeats over its own table: GET,
    DELETE and PATCH of `/:id`. Each guards the id with the UUID check,
    looks the record up with `findOne({key: 'id', equals: id})`, and only
    then reads, deletes or changes it. */
module Crud {
  import opened Base
  import opened Store

  /** A handler's effect on one table: the table afterwards, the reply body
      (`null` is `None`) and the status left on the reply. */
  datatype TableReply<T> = TableReply(table: seq<T>, body: Option<T>, status: Status)

  /** GET /:id. A non-UUID id and an unknown id both answer `null` with
      NOT_FOUND; the table is only read. */
  function GetById<T>(s: seq<T>, key: T -> Id, id: Id): (r: TableReply<T>)
    ensures r.table == s
    ensures r.body.Some? <==> ValidUuid(id) && HasKey(s, key, id)
    ensures r.body.Some? ==> r.body.value in s && key(r.body.value) == id && r.status == Ok
    ensures r.body.None? ==> r.status == NotFound
  {
    if ValidUuid(id) then
      match FindOne(s, key, id)
      case None => TableReply(s, None, NotFound)
      case Some(x) => TableReply(s, Some(x), Ok)
    else TableReply(s, None, NotFound)
  }

  /** DELETE /:id. A non-UUID id answers BAD_REQUEST and an unknown id
      NOT_FOUND, both `null` with no change; otherwise the first record with
      that id is removed and returned. */
  function DeleteById<T(!new)>(s: seq<T>, key: T -> Id, id: Id): (r: TableReply<T>)
    ensures !ValidUuid(id) ==> r == TableReply(s, None, BadRequest)
    ensures ValidUuid(id) && !HasKey(s, key, id) ==> r == TableReply(s, None, NotFound)
    ensures ValidUuid(id) && HasKey(s, key, id) ==>
              && r.status == Ok && r.body.Some?
              && r.body.value in s && key(r.body.value) == id
              && |r.table| == |s| - 1
  {
    if ValidUuid(id) then
      match FindOne(s, key, id)
      case None => TableReply(s, None, NotFound)
      case Some(_) =>
        var (rest, removed) := Delete(s, key, id);
        TableReply(rest, removed, Ok)
    else TableReply(s, None, BadRequest)
  }

  /** PATCH /:id. A non-UUID id answers BAD_REQUEST and an unknown id
      NOT_FOUND, both `null` with no change; otherwise the patch is merged
      into that record, which is returned, and only that record changes. */
  function PatchById<T, P>(s: seq<T>, key: T -> Id, id: Id, patch: P, apply: (T, P) -> T): (r: TableReply<T>)
    ensures !ValidUuid(id) ==> r == TableReply(s, None, BadRequest)
    ensures ValidUuid(id) && !HasKey(s, key, id) ==> r == TableReply(s, None, NotFound)
    ensures ValidUuid(id) && HasKey(s, key, id) ==>
              var i := FirstIndex(s, key, id).value;
              && r.status == Ok
              && r.body == Some(apply(s[i], patch))
              && r.table == s[i := apply(s[i], patch)]
  {
    if ValidUuid(id) then
      match FindOne(s, key, id)
      case None => TableReply(s, None, NotFound)
      case Some(_) =>
        var (changed, patched) := Change(s, key, id, patch, apply);
        TableReply(changed, patched, Ok)
    else TableReply(s, None, BadRequest)
  }

  // ---------------------------------------------------------------------
  // Round trips between the handlers
  // ---------------------------------------------------------------------

  /** A record created under a fresh UUID is what GET returns for it. */
  lemma GetAfterCreate<T>(s: seq<T>, key: T -> Id, x: T)
    requires ValidUuid(key(x)) && !HasKey(s, key, key(x))
    ensures GetById(Create(s, x), key, key(x)).body == Some(x)
    ensures UniqueKeys(s, key) ==> UniqueKeys(Create(s, x), key)
  {
    var r := Create(s, x);
    assert key(r[|s|]) == key(x);
    assert forall j :: 0 <= j < |s| ==> r[j] == s[j] && key(s[j]) != key(x);
    FirstIndexIs(r, key, key(x), |s|);
    if UniqueKeys(s, key) {
      CreateKeepsUniqueKeys(s, key, x);
    }
  }

  /** With unique ids, DELETE of a UUID removes exactly the records with
      that id: the table is the rejection of that id. */
  lemma DeleteByIdIsReject<T(!new)>(s: seq<T>, key: T -> Id, id: Id)
    requires UniqueKeys(s, key) && ValidUuid(id)
    ensures DeleteById(s, key, id).table == Reject(s, key, id)
  {
    DeleteUnique(s, key, id);
    if !HasKey(s, key, id) {
      FilterAll(s, KeyIsNot(key, id));
    }
  }

  /** After a successful DELETE, GET of the same id finds nothing, and the
      table keeps unique ids. */
  lemma GetAfterDelete<T(!new)>(s: seq<T>, key: T -> Id, id: Id)
    requires UniqueKeys(s, key)
    ensures var d := DeleteById(s, key, id);
            && GetById(d.table, key, id).body.None?
            && UniqueKeys(d.table, key)
  {
    var d := DeleteById(s, key, id);
    if ValidUuid(id) {
      DeleteByIdIsReject(s, key, id);
      FilterKeepsUniqueKeys(s, KeyIsNot(key, id), key);
      assert forall i :: 0 <= i < |d.table| ==> key(d.table[i]) != id by {
        assert forall i :: 0 <= i < |d.table| ==> d.table[i] in d.table;
      }
    }
  }

  /** After a successful PATCH by a patch that keeps ids, GET of the same id
      returns the patched record, and the id column is unchanged. */
  lemma GetAfterPatch<T, P>(s: seq<T>, key: T -> Id, id: Id, patch: P, apply: (T, P) -> T)
    requires forall x :: key(apply(x, patch)) == key(x)
    ensures var p := PatchById(s, key, id, patch, apply);
            && Keys(p.table, key) == Keys(s, key)
            && (p.body.Some? ==> GetById(p.table, key, id).body == p.body)
  {
    var p := PatchById(s, key, id, patch, apply);
    if p.body.Some? {
      var i := FirstIndex(s, key, id).value;
      FirstIndexIs(p.table, key, id, i);
    }
  }
}
