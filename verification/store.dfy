/** The record store each handler reaches through `fastify.db.<kind>`.
    The store itself is not part of this model; what the handlers rely on is
    its contract, stated here over an ordered sequence of records:
    - `findMany({key, equals})` keeps, in store order, the records whose
      field `key` equals `equals` exactly; with no predicate it is the whole
      sequence;
    - `findOne({key, equals})` is the first such record, or `null`;
    - `create` appends a record whose id is fresh;
    - `change(id, patch)` patches the first record with that id in place;
    - `delete(id)` removes the first record with that id and returns it.
    A field lookup `key` is a function from records to field values. */
module Store {
  import opened Base

  // ---------------------------------------------------------------------
  // Order-preserving selection
  // ---------------------------------------------------------------------

  /** `a` is `b` with some elements dropped and the rest in their order. */
  predicate Subseq<T(==)>(a: seq<T>, b: seq<T>)
    decreases |b|
  {
    if |a| == 0 then true
    else if |b| == 0 then false
    else if a[0] == b[0] then Subseq(a[1..], b[1..])
    else Subseq(a, b[1..])
  }

  /** `r` holds exactly the elements of `s` on which `p` holds, each as many
      times as in `s`, in the order of `s`. */
  ghost predicate IsSelection<T(!new)>(r: seq<T>, s: seq<T>, p: T -> bool) {
    && Subseq(r, s)
    && (forall x :: x in r ==> p(x))
    && (forall x :: p(x) ==> multiset(r)[x] == multiset(s)[x])
  }

  /** `Array.prototype.filter`, and the store's `findMany` underneath. */
  function Filter<T(!new)>(s: seq<T>, p: T -> bool): (r: seq<T>)
    ensures Subseq(r, s)
    ensures forall x :: x in r <==> x in s && p(x)
    ensures forall x :: p(x) ==> multiset(r)[x] == multiset(s)[x]
    ensures |r| <= |s|
    decreases |s|
  {
    if |s| == 0 then []
    else
      assert s == [s[0]] + s[1..];
      if p(s[0]) then [s[0]] + Filter(s[1..], p)
      else Filter(s[1..], p)
  }

  lemma {:induction false} SubseqMembership<T>(a: seq<T>, b: seq<T>)
    requires Subseq(a, b)
    ensures forall x :: x in a ==> x in b
    decreases |b|
  {
    if |a| == 0 {
    } else if a[0] == b[0] {
      SubseqMembership(a[1..], b[1..]);
      assert a == [a[0]] + a[1..];
    } else {
      SubseqMembership(a, b[1..]);
    }
  }

  lemma {:induction false} SubseqMultiset<T>(a: seq<T>, b: seq<T>)
    requires Subseq(a, b)
    ensures multiset(a) <= multiset(b)
    decreases |b|
  {
    if |a| == 0 {
    } else if a[0] == b[0] {
      SubseqMultiset(a[1..], b[1..]);
      assert a == [a[0]] + a[1..];
      assert b == [b[0]] + b[1..];
    } else {
      SubseqMultiset(a, b[1..]);
      assert b == [b[0]] + b[1..];
    }
  }

  /** Every selection of `s` by `p` is `Filter(s, p)`: the independent,
      order-and-multiplicity characterisation pins the filter down. */
  lemma {:induction false} SelectionIsFilter<T(!new)>(r: seq<T>, s: seq<T>, p: T -> bool)
    requires IsSelection(r, s, p)
    ensures r == Filter(s, p)
    decreases |s|
  {
    if |s| == 0 {
      assert |r| == 0;
    } else {
      assert s == [s[0]] + s[1..];
      if |r| == 0 {
        NoneSelected(s, p);
        FilterNone(s, p);
      } else if r[0] == s[0] {
        assert r == [r[0]] + r[1..];
        forall x | p(x)
          ensures multiset(r[1..])[x] == multiset(s[1..])[x]
        {
          assert multiset(r)[x] == multiset([r[0]])[x] + multiset(r[1..])[x];
          assert multiset(s)[x] == multiset([s[0]])[x] + multiset(s[1..])[x];
        }
        assert forall x :: x in r[1..] ==> x in r;
        SelectionIsFilter(r[1..], s[1..], p);
      } else {
        assert Subseq(r, s[1..]);
        SubseqMultiset(r, s[1..]);
        assert !p(s[0]);
        forall x | p(x)
          ensures multiset(r)[x] == multiset(s[1..])[x]
        {
          assert x != s[0];
          assert multiset(s)[x] == multiset([s[0]])[x] + multiset(s[1..])[x];
        }
        SelectionIsFilter(r, s[1..], p);
      }
    }
  }

  lemma NoneSelected<T(!new)>(s: seq<T>, p: T -> bool)
    requires forall x :: p(x) ==> multiset(s)[x] == 0
    ensures forall x :: x in s ==> !p(x)
  {
  }

  /** The filter of the whole sequence is the filter of its parts, glued. */
  lemma {:induction false} FilterAppend<T(!new)>(a: seq<T>, b: seq<T>, p: T -> bool)
    ensures Filter(a + b, p) == Filter(a, p) + Filter(b, p)
    decreases |a|
  {
    if |a| == 0 {
      assert a + b == b;
    } else {
      assert (a + b)[1..] == a[1..] + b;
      assert (a + b)[0] == a[0];
      FilterAppend(a[1..], b, p);
    }
  }

  lemma {:induction false} FilterAll<T(!new)>(s: seq<T>, p: T -> bool)
    requires forall x :: x in s ==> p(x)
    ensures Filter(s, p) == s
    decreases |s|
  {
    if |s| > 0 {
      assert s[0] in s;
      assert forall x :: x in s[1..] ==> x in s;
      FilterAll(s[1..], p);
      assert s == [s[0]] + s[1..];
    }
  }

  lemma {:induction false} FilterNone<T(!new)>(s: seq<T>, p: T -> bool)
    requires forall x :: x in s ==> !p(x)
    ensures Filter(s, p) == []
    decreases |s|
  {
    if |s| > 0 {
      assert s[0] in s;
      assert forall x :: x in s[1..] ==> x in s;
      FilterNone(s[1..], p);
    }
  }

  /** Filtering a filtered sequence by a stricter predicate is the same as
      filtering the original by it. */
  lemma {:induction false} FilterOfFilter<T(!new)>(s: seq<T>, p: T -> bool, q: T -> bool)
    requires forall x :: q(x) ==> p(x)
    ensures Filter(Filter(s, p), q) == Filter(s, q)
    decreases |s|
  {
    if |s| > 0 {
      FilterOfFilter(s[1..], p, q);
      if p(s[0]) {
        assert Filter(s, p) == [s[0]] + Filter(s[1..], p);
        assert ([s[0]] + Filter(s[1..], p))[1..] == Filter(s[1..], p);
      }
    }
  }

  // ---------------------------------------------------------------------
  // The store's single-field predicate
  // ---------------------------------------------------------------------

  /** The store predicate `{key, equals: k}`: exact equality of one field. */
  function KeyIs<T, K(==)>(key: T -> K, k: K): T -> bool {
    x => key(x) == k
  }

  /** The complement of `{key, equals: k}`. */
  function KeyIsNot<T, K(==)>(key: T -> K, k: K): T -> bool {
    x => key(x) != k
  }

  /** Some record of `s` carries `k` in field `key`. */
  predicate HasKey<T, K(==)>(s: seq<T>, key: T -> K, k: K) {
    exists i :: 0 <= i < |s| && key(s[i]) == k
  }

  /** No two records of `s` share a value of field `key`. */
  predicate UniqueKeys<T, K(==)>(s: seq<T>, key: T -> K) {
    forall i, j :: 0 <= i < j < |s| ==> key(s[i]) != key(s[j])
  }

  /** The column of `key` values, in store order. */
  function Keys<T, K>(s: seq<T>, key: T -> K): (r: seq<K>)
    ensures |r| == |s|
    ensures forall i :: 0 <= i < |s| ==> r[i] == key(s[i])
  {
    seq(|s|, i requires 0 <= i < |s| => key(s[i]))
  }

  /** `findMany({key, equals: k})`. */
  function FindMany<T(!new), K(==)>(s: seq<T>, key: T -> K, k: K): (r: seq<T>)
    ensures IsSelection(r, s, KeyIs(key, k))
    ensures forall x :: x in r <==> x in s && key(x) == k
  {
    Filter(s, KeyIs(key, k))
  }

  /** The records `findMany({key, equals: k})` leaves out, in store order. */
  function Reject<T(!new), K(==)>(s: seq<T>, key: T -> K, k: K): (r: seq<T>)
    ensures IsSelection(r, s, KeyIsNot(key, k))
    ensures forall x :: x in r <==> x in s && key(x) != k
  {
    Filter(s, KeyIsNot(key, k))
  }

  /** Index of the first record whose field `key` is `k`. */
  function FirstIndex<T, K(==)>(s: seq<T>, key: T -> K, k: K): (r: Option<nat>)
    ensures r.Some? ==> r.value < |s| && key(s[r.value]) == k
    ensures r.Some? ==> forall j :: 0 <= j < r.value ==> key(s[j]) != k
    ensures r.None? <==> !HasKey(s, key, k)
    decreases |s|
  {
    if |s| == 0 then None
    else if key(s[0]) == k then Some(0)
    else
      match FirstIndex(s[1..], key, k)
      case None =>
        assert forall j :: 1 <= j < |s| ==> s[j] == s[1..][j - 1];
        None
      case Some(i) => Some(i + 1)
  }

  /** The first index is the one before which no record carries the key. */
  lemma FirstIndexIs<T, K>(s: seq<T>, key: T -> K, k: K, i: nat)
    requires i < |s| && key(s[i]) == k
    requires forall j :: 0 <= j < i ==> key(s[j]) != k
    ensures FirstIndex(s, key, k) == Some(i)
  {
    assert HasKey(s, key, k);
    var m := FirstIndex(s, key, k).value;
    assert !(m < i) && !(i < m);
  }

  /** `findOne({key, equals: k})`: the first matching record, or `null`. */
  function FindOne<T, K(==)>(s: seq<T>, key: T -> K, k: K): (r: Option<T>)
    ensures r.Some? <==> HasKey(s, key, k)
    ensures r.Some? ==> r.value in s && key(r.value) == k
  {
    match FirstIndex(s, key, k)
    case None => None
    case Some(i) => Some(s[i])
  }

  /** `findOne` is the head of `findMany` for the same predicate. */
  lemma {:induction false} FindOneIsHeadOfFindMany<T(!new), K>(s: seq<T>, key: T -> K, k: K)
    ensures FindOne(s, key, k) == if FindMany(s, key, k) == [] then None else Some(FindMany(s, key, k)[0])
    decreases |s|
  {
    if |s| > 0 {
      FindOneIsHeadOfFindMany(s[1..], key, k);
      if key(s[0]) != k {
        assert FindMany(s, key, k) == FindMany(s[1..], key, k);
      }
    }
  }

  /** With unique keys, `findOne` by key finds the record that carries it. */
  lemma FindOneUnique<T, K>(s: seq<T>, key: T -> K, i: nat)
    requires UniqueKeys(s, key)
    requires i < |s|
    ensures FindOne(s, key, key(s[i])) == Some(s[i])
  {
    var j := FirstIndex(s, key, key(s[i])).value;
    assert !(j < i) && !(i < j);
  }

  /** `create`: the record is appended at the end. */
  function Create<T>(s: seq<T>, x: T): (r: seq<T>)
    ensures |r| == |s| + 1 && r[|s|] == x && r[..|s|] == s
  {
    s + [x]
  }

  /** `change(k, patch)`: the first record with key `k` is patched in place;
      the result is the patched record, or `null` when there is none. */
  function Change<T, K(==), P>(s: seq<T>, key: T -> K, k: K, patch: P, apply: (T, P) -> T)
    : (r: (seq<T>, Option<T>))
    ensures |r.0| == |s|
    ensures r.1.None? <==> !HasKey(s, key, k)
    ensures r.1.None? ==> r.0 == s
    ensures FirstIndex(s, key, k).Some? ==>
              var i := FirstIndex(s, key, k).value;
              r.1 == Some(apply(s[i], patch)) && r.0 == s[i := apply(s[i], patch)]
  {
    match FirstIndex(s, key, k)
    case None => (s, None)
    case Some(i) => (s[i := apply(s[i], patch)], Some(apply(s[i], patch)))
  }

  /** `delete(k)`: the first record with key `k` is removed and returned. */
  function Delete<T, K(==)>(s: seq<T>, key: T -> K, k: K): (r: (seq<T>, Option<T>))
    ensures r.1.None? <==> !HasKey(s, key, k)
    ensures r.1.None? ==> r.0 == s
    ensures FirstIndex(s, key, k).Some? ==>
              var i := FirstIndex(s, key, k).value;
              r.1 == Some(s[i]) && r.0 == s[..i] + s[i + 1..]
  {
    match FirstIndex(s, key, k)
    case None => (s, None)
    case Some(i) => (s[..i] + s[i + 1..], Some(s[i]))
  }

  /** The `forEach(x => delete(key(x)))` loop of a cascade: one store
      deletion per selected record, in order. */
  function DeleteEach<T, K(==)>(s: seq<T>, key: T -> K, victims: seq<T>): (r: seq<T>)
    ensures multiset(r) <= multiset(s)
    ensures |s| - |victims| <= |r| <= |s|
    ensures forall x :: x in s && !HasKey(victims, key, key(x)) ==> x in r
    decreases |victims|
  {
    if |victims| == 0 then s
    else
      var k := key(victims[0]);
      DeleteRemovesOnlyKey(s, key, k);
      var rest := DeleteEach(Delete(s, key, k).0, key, victims[1..]);
      HasKeyTail(victims, key);
      rest
  }

  /** A key no victim carries is carried neither by the first victim nor by
      the rest. */
  lemma HasKeyTail<T, K>(victims: seq<T>, key: T -> K)
    requires |victims| > 0
    ensures forall k :: !HasKey(victims, key, k) ==> k != key(victims[0]) && !HasKey(victims[1..], key, k)
  {
  }

  /** One `delete` removes at most one record, only one carrying the key,
      and keeps every record with another key. */
  lemma DeleteRemovesOnlyKey<T, K>(s: seq<T>, key: T -> K, k: K)
    ensures multiset(Delete(s, key, k).0) <= multiset(s)
    ensures |s| - 1 <= |Delete(s, key, k).0| <= |s|
    ensures forall x :: x in s && key(x) != k ==> x in Delete(s, key, k).0
  {
    if FirstIndex(s, key, k).Some? {
      var i := FirstIndex(s, key, k).value;
      assert s == s[..i] + [s[i]] + s[i + 1..];
      forall x | x in s && key(x) != k
        ensures x in Delete(s, key, k).0
      {
        var j :| 0 <= j < |s| && s[j] == x;
        if j < i {
          assert s[..i][j] == x;
        } else {
          assert j != i;
          assert s[i + 1..][j - i - 1] == x;
        }
      }
    }
  }

  // ---------------------------------------------------------------------
  // Facts about the store operations
  // ---------------------------------------------------------------------

  lemma UniqueKeysTail<T, K>(s: seq<T>, key: T -> K)
    requires |s| > 0 && UniqueKeys(s, key)
    ensures UniqueKeys(s[1..], key)
    ensures forall x :: x in s[1..] ==> key(x) != key(s[0])
  {
    forall x | x in s[1..]
      ensures key(x) != key(s[0])
    {
      var j :| 0 <= j < |s[1..]| && s[1..][j] == x;
      assert s[j + 1] == x;
    }
  }

  lemma ChangeCons<T, K, P>(h: T, t: seq<T>, key: T -> K, k: K, patch: P, apply: (T, P) -> T)
    requires key(h) != k
    ensures Change([h] + t, key, k, patch, apply).0 == [h] + Change(t, key, k, patch, apply).0
  {
    assert ([h] + t)[1..] == t;
  }

  lemma DeleteCons<T, K>(h: T, t: seq<T>, key: T -> K, k: K)
    requires key(h) != k
    ensures Delete([h] + t, key, k).0 == [h] + Delete(t, key, k).0
  {
    assert ([h] + t)[1..] == t;
    match FirstIndex(t, key, k)
    case None =>
    case Some(i) =>
      assert ([h] + t)[..i + 1] == [h] + t[..i];
      assert ([h] + t)[i + 2..] == t[i + 1..];
  }

  lemma {:induction false} DeleteEachCons<T, K>(h: T, t: seq<T>, key: T -> K, victims: seq<T>)
    requires forall x :: x in victims ==> key(x) != key(h)
    ensures DeleteEach([h] + t, key, victims) == [h] + DeleteEach(t, key, victims)
    decreases |victims|
  {
    if |victims| > 0 {
      DeleteCons(h, t, key, key(victims[0]));
      assert forall x :: x in victims[1..] ==> x in victims;
      DeleteEachCons(h, Delete(t, key, key(victims[0])).0, key, victims[1..]);
    }
  }

  /** With unique keys, deleting by key removes exactly the records that
      carry it (at most one), and the others keep their order. */
  lemma {:induction false} DeleteUnique<T(!new), K>(s: seq<T>, key: T -> K, k: K)
    requires UniqueKeys(s, key)
    ensures Delete(s, key, k).0 == Reject(s, key, k)
    decreases |s|
  {
    if |s| > 0 {
      UniqueKeysTail(s, key);
      assert s == [s[0]] + s[1..];
      if key(s[0]) == k {
        FilterAll(s[1..], KeyIsNot(key, k));
      } else {
        DeleteCons(s[0], s[1..], key, k);
        DeleteUnique(s[1..], key, k);
      }
    }
  }

  /** The cascade's "find the dependants, delete each by its own key" loop
      leaves exactly the records that were not selected, in order. */
  lemma {:induction false} DeleteEachOfSelection<T(!new), K, V>(
    s: seq<T>, key: T -> K, field: T -> V, v: V)
    requires UniqueKeys(s, key)
    ensures DeleteEach(s, key, FindMany(s, field, v)) == Reject(s, field, v)
    decreases |s|
  {
    if |s| > 0 {
      UniqueKeysTail(s, key);
      var t := s[1..];
      assert s == [s[0]] + t;
      DeleteEachOfSelection(t, key, field, v);
      if field(s[0]) == v {
        assert FindMany(s, field, v) == [s[0]] + FindMany(t, field, v);
        assert Delete(s, key, key(s[0])).0 == t;
      } else {
        assert FindMany(s, field, v) == FindMany(t, field, v);
        DeleteEachCons(s[0], t, key, FindMany(t, field, v));
      }
    }
  }

  /** A filter keeps keys unique. */
  lemma {:induction false} FilterKeepsUniqueKeys<T(!new), K>(s: seq<T>, p: T -> bool, key: T -> K)
    requires UniqueKeys(s, key)
    ensures UniqueKeys(Filter(s, p), key)
    decreases |s|
  {
    if |s| > 0 {
      UniqueKeysTail(s, key);
      FilterKeepsUniqueKeys(s[1..], p, key);
      if p(s[0]) {
        UniqueKeysCons(s[0], Filter(s[1..], p), key);
      }
    }
  }

  lemma UniqueKeysCons<T, K>(h: T, t: seq<T>, key: T -> K)
    requires UniqueKeys(t, key)
    requires forall x :: x in t ==> key(x) != key(h)
    ensures UniqueKeys([h] + t, key)
  {
    var r := [h] + t;
    forall i, j | 0 <= i < j < |r|
      ensures key(r[i]) != key(r[j])
    {
      assert r[j] == t[j - 1];
      if i > 0 {
        assert r[i] == t[i - 1];
      }
    }
  }

  /** Appending a record whose key is new keeps keys unique. */
  lemma CreateKeepsUniqueKeys<T, K>(s: seq<T>, key: T -> K, x: T)
    requires UniqueKeys(s, key)
    requires !HasKey(s, key, key(x))
    ensures UniqueKeys(Create(s, x), key)
  {
    var r := Create(s, x);
    forall i, j | 0 <= i < j < |r|
      ensures key(r[i]) != key(r[j])
    {
      if j == |s| {
        assert r[i] == s[i];
      } else {
        assert r[i] == s[i] && r[j] == s[j];
      }
    }
  }

  /** A patch that does not touch the key leaves the key column as it was. */
  lemma ChangeKeepsKeys<T, K, P>(s: seq<T>, key: T -> K, k: K, patch: P, apply: (T, P) -> T)
    requires forall x :: key(apply(x, patch)) == key(x)
    ensures Keys(Change(s, key, k, patch, apply).0, key) == Keys(s, key)
  {
  }

  /** Overwriting one record with one that keeps its key keeps keys unique. */
  lemma UpdateAtKeepsUniqueKeys<T, K>(s: seq<T>, key: T -> K, i: nat, x: T)
    requires UniqueKeys(s, key)
    requires i < |s| && key(x) == key(s[i])
    ensures UniqueKeys(s[i := x], key)
  {
    var r := s[i := x];
    forall a, b | 0 <= a < b < |r|
      ensures key(r[a]) != key(r[b])
    {
      assert key(r[a]) == key(s[a]) && key(r[b]) == key(s[b]);
    }
  }

  lemma UniqueKeysFromKeys<T, K>(a: seq<T>, b: seq<T>, key: T -> K)
    requires Keys(a, key) == Keys(b, key)
    requires UniqueKeys(b, key)
    ensures UniqueKeys(a, key)
  {
    forall i, j | 0 <= i < j < |a|
      ensures key(a[i]) != key(a[j])
    {
      assert Keys(a, key)[i] == Keys(b, key)[i];
      assert Keys(a, key)[j] == Keys(b, key)[j];
    }
  }

  /** Two stores with the same key column hold the same keys. */
  lemma SameKeysSameHasKey<T, K>(a: seq<T>, b: seq<T>, key: T -> K, k: K)
    requires Keys(a, key) == Keys(b, key)
    ensures HasKey(a, key, k) <==> HasKey(b, key, k)
  {
    assert forall i :: 0 <= i < |a| ==> key(a[i]) == Keys(a, key)[i] == key(b[i]);
  }

  /** With unique keys, at most one record matches a key. */
  lemma {:induction false} FindManyUniqueAtMostOne<T(!new), K>(s: seq<T>, key: T -> K, k: K)
    requires UniqueKeys(s, key)
    ensures |FindMany(s, key, k)| <= 1
    ensures |FindMany(s, key, k)| == 1 <==> HasKey(s, key, k)
    decreases |s|
  {
    if |s| > 0 {
      UniqueKeysTail(s, key);
      FindManyUniqueAtMostOne(s[1..], key, k);
      if key(s[0]) == k {
        FilterNone(s[1..], KeyIs(key, k));
      } else {
        assert HasKey(s, key, k) ==> HasKey(s[1..], key, k) by {
          if HasKey(s, key, k) {
            var i :| 0 <= i < |s| && key(s[i]) == k;
            assert s[1..][i - 1] == s[i];
          }
        }
      }
    }
  }
}
