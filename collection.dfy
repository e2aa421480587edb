/**
 * The document store as the handlers see it: a collection is a sequence of
 * documents in natural (insertion) order, and the MongoDB operations the
 * server calls (findOne, find, updateOne, updateMany, deleteOne, deleteMany)
 * are functions over that sequence.
 */
module Collection {

  datatype Option<T> = None | Some(value: T)

  /** An opaque document identifier, standing for a MongoDB ObjectId. */
  type Id = nat

  /** A stored document: the identifier given to it on insert and the fields the client sent. */
  datatype Doc<T> = Doc(id: Id, body: T)

  function IdOf<T>(d: Doc<T>): Id { d.id }

  /** No two elements of `s` share a key. */
  predicate Distinct<T, K(==)>(s: seq<T>, key: T -> K) {
    forall i, j :: 0 <= i < j < |s| ==> key(s[i]) != key(s[j])
  }

  /** The identifiers of `s` are pairwise distinct and all below `next`, the next identifier to hand out. */
  predicate Keyed<T>(s: seq<Doc<T>>, next: Id) {
    Distinct(s, IdOf) && forall i :: 0 <= i < |s| ==> s[i].id < next
  }

  /** The index of the first element that satisfies `f`: the document findOne and updateOne pick. */
  function Find<T>(s: seq<T>, f: T -> bool): (r: Option<nat>)
    ensures r.Some? ==> r.value < |s| && f(s[r.value]) && forall j :: 0 <= j < r.value ==> !f(s[j])
    ensures r.None? ==> forall j :: 0 <= j < |s| ==> !f(s[j])
  {
    if s == [] then None
    else if f(s[0]) then Some(0)
    else match Find(s[1..], f)
      case None => None
      case Some(k) => Some(k + 1)
  }

  /** findOne: the first matching document, or null. */
  function FindOne<T>(s: seq<T>, f: T -> bool): (r: Option<T>)
    ensures r.Some? <==> exists x :: x in s && f(x)
    ensures r.Some? ==> r.value in s && f(r.value)
    ensures r.Some? ==> exists i :: 0 <= i < |s| && r.value == s[i] && f(s[i]) && forall j :: 0 <= j < i ==> !f(s[j])
  {
    match Find(s, f)
    case None => None
    case Some(i) => Some(s[i])
  }

  /** findOne({_id: id}). */
  function FindById<T>(s: seq<Doc<T>>, id: Id): (r: Option<Doc<T>>)
    ensures r.Some? <==> exists i :: 0 <= i < |s| && s[i].id == id
    ensures r.Some? ==> r.value in s && r.value.id == id
  {
    FindOne(s, (d: Doc<T>) => d.id == id)
  }

  /** find(query).toArray(): the matching documents, in natural order. */
  function Filter<T(!new)>(s: seq<T>, f: T -> bool): (r: seq<T>)
    ensures |r| <= |s|
    ensures forall x :: x in r <==> x in s && f(x)
    ensures forall x :: multiset(r)[x] == if f(x) then multiset(s)[x] else 0
  {
    if s == [] then []
    else
      var rest := Filter(s[1..], f);
      assert s == [s[0]] + s[1..];
      if f(s[0]) then [s[0]] + rest else rest
  }

  /** updateOne: `g` rewrites the first document that satisfies `f`; every other document is kept. */
  function UpdateOne<T>(s: seq<T>, f: T -> bool, g: T -> T): (r: seq<T>)
    ensures |r| == |s|
    ensures forall i :: 0 <= i < |s| && f(s[i]) && (forall j :: 0 <= j < i ==> !f(s[j])) ==> r[i] == g(s[i])
    ensures forall i :: 0 <= i < |s| && (!f(s[i]) || exists j :: 0 <= j < i && f(s[j])) ==> r[i] == s[i]
  {
    match Find(s, f)
    case None => s
    case Some(i) => s[i := g(s[i])]
  }

  /** updateMany: `g` rewrites every document that satisfies `f`. */
  function UpdateMany<T>(s: seq<T>, f: T -> bool, g: T -> T): (r: seq<T>)
    ensures |r| == |s|
    ensures forall i :: 0 <= i < |s| ==> r[i] == if f(s[i]) then g(s[i]) else s[i]
  {
    seq(|s|, i requires 0 <= i < |s| => if f(s[i]) then g(s[i]) else s[i])
  }

  /** deleteOne: removes the first document that satisfies `f`, if there is one. */
  function DeleteOne<T>(s: seq<T>, f: T -> bool): (r: seq<T>)
    ensures |r| == if exists x :: x in s && f(x) then |s| - 1 else |s|
    ensures multiset(r) <= multiset(s)
    ensures forall x :: x in s && !f(x) ==> multiset(r)[x] == multiset(s)[x]
    ensures (forall x :: x in s ==> !f(x)) ==> r == s
    ensures (exists x :: x in s && f(x)) ==>
      exists i :: 0 <= i < |s| && f(s[i]) && (forall j :: 0 <= j < i ==> !f(s[j])) && r == s[..i] + s[i + 1..]
  {
    match Find(s, f)
    case None => s
    case Some(i) =>
      assert s == s[..i] + [s[i]] + s[i + 1..];
      s[..i] + s[i + 1..]
  }

  /** The negation of a filter. */
  function Not<T>(f: T -> bool): T -> bool {
    x => !f(x)
  }

  /** deleteMany: removes every document that satisfies `f`. */
  function DeleteMany<T(!new)>(s: seq<T>, f: T -> bool): (r: seq<T>)
    ensures forall x :: x in r <==> x in s && !f(x)
    ensures forall x :: !f(x) ==> multiset(r)[x] == multiset(s)[x]
  {
    Filter(s, Not(f))
  }

  /** The counters of an update's reply: documents matched and documents whose value actually changed. */
  datatype UpdateResult = UpdateResult(matchedCount: nat, modifiedCount: nat)

  function UpdateOneResult<T(==)>(s: seq<T>, f: T -> bool, g: T -> T): (r: UpdateResult)
    ensures r.matchedCount == (if exists x :: x in s && f(x) then 1 else 0)
    ensures r.modifiedCount <= r.matchedCount
    ensures r.modifiedCount == 1 <==> UpdateOne(s, f, g) != s
  {
    match Find(s, f)
    case None => UpdateResult(0, 0)
    case Some(i) =>
      if g(s[i]) == s[i] then
        assert s[i := g(s[i])] == s;
        UpdateResult(1, 0)
      else
        assert UpdateOne(s, f, g)[i] != s[i];
        UpdateResult(1, 1)
  }

  /** updateMany's reply: every matching document is counted as matched, and those the update changes as modified. */
  function UpdateManyResult<T(==,!new)>(s: seq<T>, f: T -> bool, g: T -> T): (r: UpdateResult)
    ensures r.matchedCount == |Positions(s, f, 0)|
    ensures r.modifiedCount == |Positions(s, x => f(x) && g(x) != x, 0)|
    ensures r.modifiedCount <= r.matchedCount <= |s|
    ensures r.matchedCount == 0 <==> forall x :: x in s ==> !f(x)
    ensures r.modifiedCount == 0 <==> forall x :: x in s && f(x) ==> g(x) == x
  {
    UpdateManyCounts(s, f, g);
    assert s[0..] == s;
    FilterCount(s, f, 0);
    FilterCount(s, x => f(x) && g(x) != x, 0);
    UpdateResult(|Filter(s, f)|, |Filter(s, x => f(x) && g(x) != x)|)
  }

  lemma UpdateManyCounts<T(!new)>(s: seq<T>, f: T -> bool, g: T -> T)
    ensures |Filter(s, x => f(x) && g(x) != x)| <= |Filter(s, f)| <= |s|
    ensures |Filter(s, f)| == 0 <==> forall x :: x in s ==> !f(x)
    ensures |Filter(s, x => f(x) && g(x) != x)| == 0 <==> forall x :: x in s && f(x) ==> g(x) == x
  {
    var changed := x => f(x) && g(x) != x;
    FilterLengthMonotone(s, changed, f);
    assert |Filter(s, f)| != 0 ==> Filter(s, f)[0] in Filter(s, f);
    if |Filter(s, changed)| != 0 {
      assert Filter(s, changed)[0] in Filter(s, changed);
    }
  }

  /** updateMany reports no modification exactly when it leaves the collection as it was. */
  lemma UpdateManyUnchanged<T(!new)>(s: seq<T>, f: T -> bool, g: T -> T)
    ensures UpdateManyResult(s, f, g).modifiedCount == 0 <==> UpdateMany(s, f, g) == s
  {
    if UpdateManyResult(s, f, g).modifiedCount == 0 {
      assert forall i :: 0 <= i < |s| ==> UpdateMany(s, f, g)[i] == s[i] by {
        forall i | 0 <= i < |s| ensures UpdateMany(s, f, g)[i] == s[i] {
          assert s[i] in s;
        }
      }
    } else {
      var x :| x in s && f(x) && g(x) != x;
      var i :| 0 <= i < |s| && s[i] == x;
      assert UpdateMany(s, f, g)[i] != s[i];
    }
  }

  /** The positions from `lo` on whose documents satisfy `f`. */
  function Positions<T>(s: seq<T>, f: T -> bool, lo: nat): (ps: set<nat>)
    ensures forall i :: i in ps <==> lo <= i < |s| && f(s[i])
  {
    set i: nat | lo <= i < |s| && f(s[i])
  }

  /** find on a suffix returns as many documents as there are matching positions in it. */
  lemma {:induction false} FilterCount<T(!new)>(s: seq<T>, f: T -> bool, lo: nat)
    requires lo <= |s|
    ensures |Filter(s[lo..], f)| == |Positions(s, f, lo)|
    decreases |s| - lo
  {
    if lo == |s| {
      assert Positions(s, f, lo) == {};
    } else {
      FilterCount(s, f, lo + 1);
      PositionsStep(s, f, lo);
      FilterStep(s, f, lo);
    }
  }

  lemma PositionsStep<T>(s: seq<T>, f: T -> bool, lo: nat)
    requires lo < |s|
    ensures |Positions(s, f, lo)| == |Positions(s, f, lo + 1)| + if f(s[lo]) then 1 else 0
  {
    var later := Positions(s, f, lo + 1);
    assert lo !in later;
    if f(s[lo]) {
      assert Positions(s, f, lo) == later + {lo};
    } else {
      assert Positions(s, f, lo) == later;
    }
  }

  lemma FilterStep<T(!new)>(s: seq<T>, f: T -> bool, lo: nat)
    requires lo < |s|
    ensures |Filter(s[lo..], f)| == |Filter(s[lo + 1..], f)| + if f(s[lo]) then 1 else 0
  {
    var t := s[lo..];
    assert t[0] == s[lo] && t[1..] == s[lo + 1..];
  }

  /** A stricter filter finds no more documents. */
  lemma {:induction false} FilterLengthMonotone<T(!new)>(s: seq<T>, h: T -> bool, f: T -> bool)
    requires forall x :: h(x) ==> f(x)
    ensures |Filter(s, h)| <= |Filter(s, f)|
  {
    if s != [] {
      FilterLengthMonotone(s[1..], h, f);
    }
  }

  // ----- identifiers and keys under the operations -----

  lemma {:induction false} FilterDistinct<T(!new), K>(s: seq<T>, f: T -> bool, key: T -> K)
    requires Distinct(s, key)
    ensures Distinct(Filter(s, f), key)
    ensures forall x :: x in Filter(s, f) ==> x in s
  {
    if s != [] {
      FilterDistinct(s[1..], f, key);
      var rest := Filter(s[1..], f);
      if f(s[0]) {
        var r := [s[0]] + rest;
        forall i, j | 0 <= i < j < |r| ensures key(r[i]) != key(r[j]) {
          if i == 0 {
            assert r[j] in s[1..];
            var k :| 0 <= k < |s[1..]| && s[1..][k] == r[j];
            assert s[k + 1] == r[j];
          } else {
            assert r[i] == rest[i - 1] && r[j] == rest[j - 1];
          }
        }
      }
    }
  }

  /** A document whose key is not yet in a keyed sequence can be appended. */
  lemma AppendDistinct<T, K>(s: seq<T>, x: T, key: T -> K)
    requires Distinct(s, key)
    requires forall y :: y in s ==> key(y) != key(x)
    ensures Distinct(s + [x], key)
  {
    var r := s + [x];
    forall i, j | 0 <= i < j < |r| ensures key(r[i]) != key(r[j]) {
      if j == |s| {
        assert r[i] in s;
      } else {
        assert r[i] == s[i] && r[j] == s[j];
      }
    }
  }

  lemma UpdateOneDistinct<T, K>(s: seq<T>, f: T -> bool, g: T -> T, key: T -> K)
    requires Distinct(s, key)
    requires forall x :: key(g(x)) == key(x)
    ensures Distinct(UpdateOne(s, f, g), key)
    ensures forall i :: 0 <= i < |s| ==> key(UpdateOne(s, f, g)[i]) == key(s[i])
  {
    var r := UpdateOne(s, f, g);
    forall i | 0 <= i < |s| ensures key(r[i]) == key(s[i]) {
      if f(s[i]) && forall j :: 0 <= j < i ==> !f(s[j]) {
      } else {
        assert r[i] == s[i];
      }
    }
  }

  lemma DeleteOneDistinct<T, K>(s: seq<T>, f: T -> bool, key: T -> K)
    requires Distinct(s, key)
    ensures Distinct(DeleteOne(s, f), key)
  {
    match Find(s, f)
    case None =>
    case Some(i) =>
      var r := s[..i] + s[i + 1..];
      forall a, b | 0 <= a < b < |r| ensures key(r[a]) != key(r[b]) {
        var a' := if a < i then a else a + 1;
        var b' := if b < i then b else b + 1;
        assert r[a] == s[a'] && r[b] == s[b'];
      }
  }

  lemma {:induction false} KeyedInsert<T>(s: seq<Doc<T>>, next: Id, body: T)
    requires Keyed(s, next)
    ensures Keyed(s + [Doc(next, body)], next + 1)
  {
    AppendDistinct(s, Doc(next, body), IdOf);
  }

  /** Handing out a later identifier keeps a collection keyed. */
  lemma KeyedGrow<T>(s: seq<Doc<T>>, next: Id, later: Id)
    requires Keyed(s, next) && next <= later
    ensures Keyed(s, later)
  {
  }

  lemma KeyedFilter<T(!new)>(s: seq<Doc<T>>, next: Id, f: Doc<T> -> bool)
    requires Keyed(s, next)
    ensures Keyed(Filter(s, f), next)
  {
    FilterDistinct(s, f, IdOf);
    var r := Filter(s, f);
    forall i | 0 <= i < |r| ensures r[i].id < next {
      assert r[i] in s;
      var j :| 0 <= j < |s| && s[j] == r[i];
    }
  }

  lemma KeyedDeleteMany<T(!new)>(s: seq<Doc<T>>, next: Id, f: Doc<T> -> bool)
    requires Keyed(s, next)
    ensures Keyed(DeleteMany(s, f), next)
  {
    KeyedFilter(s, next, Not(f));
  }

  lemma KeyedDeleteOne<T>(s: seq<Doc<T>>, next: Id, f: Doc<T> -> bool)
    requires Keyed(s, next)
    ensures Keyed(DeleteOne(s, f), next)
  {
    DeleteOneDistinct(s, f, IdOf);
  }

  lemma KeyedUpdateOne<T>(s: seq<Doc<T>>, next: Id, f: Doc<T> -> bool, g: Doc<T> -> Doc<T>)
    requires Keyed(s, next)
    requires forall d :: g(d).id == d.id
    ensures Keyed(UpdateOne(s, f, g), next)
  {
    UpdateOneDistinct(s, f, g, IdOf);
    var r := UpdateOne(s, f, g);
    forall d | d in r ensures d.id < next {
      var i :| 0 <= i < |r| && r[i] == d;
      assert IdOf(r[i]) == IdOf(s[i]);
    }
  }

  lemma KeyedUpdateMany<T>(s: seq<Doc<T>>, next: Id, f: Doc<T> -> bool, g: Doc<T> -> Doc<T>)
    requires Keyed(s, next)
    requires forall d :: g(d).id == d.id
    ensures Keyed(UpdateMany(s, f, g), next)
  {
    var r := UpdateMany(s, f, g);
    assert forall i :: 0 <= i < |s| ==> r[i].id == s[i].id;
    forall i, j | 0 <= i < j < |r| ensures IdOf(r[i]) != IdOf(r[j]) {
      assert IdOf(s[i]) != IdOf(s[j]);
    }
    forall d | d in r ensures d.id < next {
      var i :| 0 <= i < |r| && r[i] == d;
      assert s[i] in s;
    }
  }

  // ----- the by-key forms the handlers use -----

  /** With distinct keys, updateOne on a key rewrites exactly the documents carrying that key. */
  lemma UpdateOneByKey<T, K>(s: seq<T>, f: T -> bool, key: T -> K, k: K, g: T -> T)
    requires Distinct(s, key)
    requires forall x :: f(x) <==> key(x) == k
    ensures var r := UpdateOne(s, f, g);
      |r| == |s| && forall i :: 0 <= i < |s| ==> r[i] == if key(s[i]) == k then g(s[i]) else s[i]
  {
    var r := UpdateOne(s, f, g);
    forall i | 0 <= i < |s| ensures r[i] == if key(s[i]) == k then g(s[i]) else s[i] {
      if key(s[i]) == k {
        forall j | 0 <= j < i ensures !f(s[j]) {
          assert key(s[j]) != key(s[i]);
        }
      }
    }
  }

  /** With distinct keys, deleteOne on a key removes the document carrying it and nothing else. */
  lemma DeleteOneByKey<T, K>(s: seq<T>, f: T -> bool, key: T -> K, k: K)
    requires Distinct(s, key)
    requires forall x :: f(x) <==> key(x) == k
    ensures forall x :: x in DeleteOne(s, f) <==> x in s && key(x) != k
  {
    match Find(s, f)
    case None =>
    case Some(i) =>
      assert DeleteOne(s, f) == s[..i] + s[i + 1..];
      RemoveAtByKey(s, key, i);
  }

  /** With distinct keys, removing the document at `i` keeps exactly the documents with other keys. */
  lemma RemoveAtByKey<T, K>(s: seq<T>, key: T -> K, i: nat)
    requires Distinct(s, key)
    requires i < |s|
    ensures forall x :: x in s[..i] + s[i + 1..] <==> x in s && key(x) != key(s[i])
  {
    var a, b := s[..i], s[i + 1..];
    assert s == a + [s[i]] + b;
    forall x | x in a + b ensures key(x) != key(s[i]) {
      if x in a {
        var j :| 0 <= j < |a| && a[j] == x;
        assert s[j] == x && key(s[j]) != key(s[i]);
      } else {
        var j :| 0 <= j < |b| && b[j] == x;
        assert s[i + 1 + j] == x && key(s[i]) != key(s[i + 1 + j]);
      }
    }
    forall x | x in s && key(x) != key(s[i]) ensures x in a + b {
      assert x != s[i];
      assert x in a || x in b;
    }
  }

  /** updateOne({_id: id}, {$set: ...}): `g` rewrites the body of the document with that identifier. */
  function UpdateById<T>(s: seq<Doc<T>>, id: Id, g: T -> T): seq<Doc<T>> {
    UpdateOne(s, (d: Doc<T>) => d.id == id, (d: Doc<T>) => Doc(d.id, g(d.body)))
  }

  /** With distinct identifiers, updateOne by identifier rewrites that document and keeps all others. */
  lemma UpdateByIdAt<T>(s: seq<Doc<T>>, id: Id, g: T -> T)
    requires Distinct(s, IdOf)
    ensures var r := UpdateById(s, id, g);
      && |r| == |s|
      && forall i :: 0 <= i < |s| ==> r[i] == if s[i].id == id then Doc(id, g(s[i].body)) else s[i]
  {
    UpdateOneByKey(s, (d: Doc<T>) => d.id == id, IdOf, id, (d: Doc<T>) => Doc(d.id, g(d.body)));
  }

  lemma KeyedUpdateById<T>(s: seq<Doc<T>>, next: Id, id: Id, g: T -> T)
    requires Keyed(s, next)
    ensures Keyed(UpdateById(s, id, g), next)
  {
    KeyedUpdateOne(s, next, (d: Doc<T>) => d.id == id, (d: Doc<T>) => Doc(d.id, g(d.body)));
  }

  /** The reply of updateOne({_id: id}, ...). */
  function UpdateByIdResult<T(==)>(s: seq<Doc<T>>, id: Id, g: T -> T): (r: UpdateResult)
    ensures r.matchedCount == if exists i :: 0 <= i < |s| && s[i].id == id then 1 else 0
    ensures r.modifiedCount <= r.matchedCount
    ensures r.modifiedCount == 1 <==> UpdateById(s, id, g) != s
  {
    UpdateOneResult(s, (d: Doc<T>) => d.id == id, (d: Doc<T>) => Doc(d.id, g(d.body)))
  }

  /** An update by identifier that keeps a key keeps that key distinct. */
  lemma UpdateByIdDistinct<T, K>(s: seq<Doc<T>>, id: Id, g: T -> T, key: Doc<T> -> K)
    requires Distinct(s, key)
    requires forall d: Doc<T> :: key(Doc(d.id, g(d.body))) == key(d)
    ensures Distinct(UpdateById(s, id, g), key)
  {
    UpdateOneDistinct(s, (d: Doc<T>) => d.id == id, (d: Doc<T>) => Doc(d.id, g(d.body)), key);
  }

  /** deleteOne({_id: id}). */
  function DeleteById<T>(s: seq<Doc<T>>, id: Id): seq<Doc<T>> {
    DeleteOne(s, (d: Doc<T>) => d.id == id)
  }

  /** With distinct identifiers, deleteOne by identifier removes exactly the document with that identifier. */
  lemma DeleteByIdContents<T>(s: seq<Doc<T>>, id: Id)
    requires Distinct(s, IdOf)
    ensures forall d :: d in DeleteById(s, id) <==> d in s && d.id != id
  {
    DeleteOneByKey(s, (d: Doc<T>) => d.id == id, IdOf, id);
  }

  lemma DeleteByIdDistinct<T, K>(s: seq<Doc<T>>, id: Id, key: Doc<T> -> K)
    requires Distinct(s, key)
    ensures Distinct(DeleteById(s, id), key)
  {
    DeleteOneDistinct(s, (d: Doc<T>) => d.id == id, key);
  }

  lemma KeyedDeleteById<T>(s: seq<Doc<T>>, next: Id, id: Id)
    requires Keyed(s, next)
    ensures Keyed(DeleteById(s, id), next)
  {
    KeyedDeleteOne(s, next, (d: Doc<T>) => d.id == id);
  }

  /** With distinct keys, a query selecting one key value finds at most one document. */
  lemma {:induction false} FilterByKeyAtMostOne<T(!new), K>(s: seq<T>, f: T -> bool, key: T -> K, k: K)
    requires Distinct(s, key)
    requires forall x :: f(x) <==> key(x) == k
    ensures |Filter(s, f)| <= 1
  {
    if s != [] {
      if key(s[0]) == k {
        forall x | x in s[1..] ensures !f(x) {
          var j :| 0 <= j < |s[1..]| && s[1..][j] == x;
          assert key(s[0]) != key(s[j + 1]);
        }
      } else {
        FilterByKeyAtMostOne(s[1..], f, key, k);
      }
    }
  }
}
