/**
 * Maps from bundle identifiers as the standard container keeps them: ordered by identifier, so that two which
 * the order does not tell apart have one entry. An entry keeps the identifier it was made with.
 */
module BundleTables {
  import opened BundleOrder
  import opened ByteStrings
  import opened OrderedSets

  datatype Entry<V> = Entry(id: BundleId, value: V)

  type Table<V> = seq<Entry<V>>

  predicate Alike(a: BundleId, b: BundleId) {
    Equivalent(IdLess, a, b)
  }

  function Find<V>(t: Table<V>, id: BundleId): Option<V> {
    if t == [] then None else if Alike(t[0].id, id) then Some(t[0].value) else Find(t[1..], id)
  }

  function Put<V>(t: Table<V>, id: BundleId, v: V): Table<V> {
    if t == [] then [Entry(id, v)]
    else if Alike(t[0].id, id) then [Entry(t[0].id, v)] + t[1..]
    else [t[0]] + Put(t[1..], id, v)
  }

  function Drop<V>(t: Table<V>, id: BundleId): Table<V> {
    if t == [] then [] else if Alike(t[0].id, id) then t[1..] else [t[0]] + Drop(t[1..], id)
  }

  ghost predicate KeysFrom<V>(ids: iset<BundleId>, t: Table<V>) {
    forall i :: 0 <= i < |t| ==> t[i].id in ids
  }

  /** No two entries are taken for one. */
  ghost predicate Apart<V>(t: Table<V>) {
    forall i, j :: 0 <= i < j < |t| ==> !Alike(t[i].id, t[j].id)
  }

  /** Being taken for one is an equivalence on these identifiers. */
  ghost predicate AlikeIsTransitive(ids: iset<BundleId>) {
    forall a, b, c :: a in ids && b in ids && c in ids && Alike(a, b) && Alike(b, c) ==> Alike(a, c)
  }

  lemma {:induction false} FindAfterPut<V>(ids: iset<BundleId>, t: Table<V>, x: BundleId, v: V, y: BundleId)
    requires AlikeIsTransitive(ids) && KeysFrom(ids, t) && x in ids && y in ids
    ensures Find(Put(t, x, v), y) == if Alike(x, y) then Some(v) else Find(t, y)
  {
    if t != [] {
      var k := t[0].id;
      assert Alike(k, x) && Alike(k, y) ==> Alike(x, y);
      assert Alike(k, x) && Alike(x, y) ==> Alike(k, y);
      assert Alike(k, y) && Alike(y, x) ==> Alike(k, x);
      FindAfterPut(ids, t[1..], x, v, y);
    }
  }

  lemma {:induction false} PutKeepsKeys<V>(ids: iset<BundleId>, t: Table<V>, x: BundleId, v: V)
    requires KeysFrom(ids, t) && x in ids
    ensures KeysFrom(ids, Put(t, x, v))
  {
    if t != [] { PutKeepsKeys(ids, t[1..], x, v); }
  }

  lemma {:induction false} DropKeepsKeys<V>(ids: iset<BundleId>, t: Table<V>, x: BundleId)
    requires KeysFrom(ids, t)
    ensures KeysFrom(ids, Drop(t, x))
  {
    if t != [] { DropKeepsKeys(ids, t[1..], x); }
  }

  lemma {:induction false} FindAfterDrop<V>(ids: iset<BundleId>, t: Table<V>, x: BundleId, y: BundleId)
    requires AlikeIsTransitive(ids) && KeysFrom(ids, t) && x in ids && y in ids && !Alike(x, y)
    ensures Find(Drop(t, x), y) == Find(t, y)
  {
    if t != [] {
      var k := t[0].id;
      assert Alike(x, k) && Alike(k, y) ==> Alike(x, y);
      FindAfterDrop(ids, t[1..], x, y);
    }
  }

  lemma {:induction false} FoundIsEntry<V>(t: Table<V>, id: BundleId) returns (i: nat)
    requires Find(t, id).Some?
    ensures i < |t| && Alike(t[i].id, id) && t[i].value == Find(t, id).value
  {
    if Alike(t[0].id, id) {
      i := 0;
    } else {
      i := FoundIsEntry(t[1..], id);
      i := i + 1;
    }
  }

  lemma {:induction false} EntryIsFound<V>(t: Table<V>, i: nat)
    requires i < |t| && Apart(t) && Alike(t[i].id, t[i].id)
    ensures Find(t, t[i].id) == Some(t[i].value)
  {
    if i > 0 {
      assert !Alike(t[0].id, t[i].id);
      EntryIsFound(t[1..], i - 1);
    }
  }

  lemma {:induction false} DroppedIsGone<V>(ids: iset<BundleId>, t: Table<V>, x: BundleId)
    requires AlikeIsTransitive(ids) && KeysFrom(ids, t) && x in ids && Apart(t)
    ensures Find(Drop(t, x), x) == None
  {
    if t != [] {
      if Alike(t[0].id, x) {
        NoOther(ids, t, x);
      } else {
        DroppedIsGone(ids, t[1..], x);
      }
    }
  }

  lemma NoOther<V>(ids: iset<BundleId>, t: Table<V>, x: BundleId)
    requires AlikeIsTransitive(ids) && KeysFrom(ids, t) && x in ids && Apart(t) && t != [] && Alike(t[0].id, x)
    ensures Find(t[1..], x) == None
  {
    if Find(t[1..], x).Some? {
      var i := FoundIsEntry(t[1..], x);
      assert t[1..][i] == t[i + 1];
      assert !Alike(t[0].id, t[i + 1].id);
      assert Alike(t[0].id, x) && Alike(x, t[i + 1].id);
    }
  }

  /** Changing values and leaving out entries keeps the entries apart. */
  lemma {:induction false} PutKeepsApart<V>(ids: iset<BundleId>, t: Table<V>, x: BundleId, v: V)
    requires AlikeIsTransitive(ids) && KeysFrom(ids, t) && x in ids && Apart(t)
    ensures Apart(Put(t, x, v))
    ensures forall i :: 0 <= i < |Put(t, x, v)| ==> Put(t, x, v)[i].id == x || exists j :: 0 <= j < |t| && t[j].id == Put(t, x, v)[i].id
  {
    if t != [] && !Alike(t[0].id, x) {
      PutKeepsApart(ids, t[1..], x, v);
      var rest, r := Put(t[1..], x, v), Put(t, x, v);
      forall i | 0 <= i < |rest|
        ensures !Alike(t[0].id, rest[i].id)
        ensures rest[i].id == x || exists j :: 0 <= j < |t| && t[j].id == rest[i].id
      {
        if rest[i].id != x {
          var j :| 0 <= j < |t[1..]| && t[1..][j].id == rest[i].id;
          assert t[j + 1].id == rest[i].id;
        }
      }
    }
  }

  lemma {:induction false} DropKeepsApart<V>(t: Table<V>, x: BundleId)
    requires Apart(t)
    ensures Apart(Drop(t, x))
    ensures forall e :: e in Drop(t, x) ==> e in t
  {
    if t != [] && !Alike(t[0].id, x) {
      DropKeepsApart(t[1..], x);
      var rest := Drop(t[1..], x);
      forall i | 0 <= i < |rest|
        ensures !Alike(t[0].id, rest[i].id)
      {
        assert rest[i] in t[1..];
        var j :| 0 <= j < |t[1..]| && t[1..][j] == rest[i];
        assert t[j + 1] == rest[i];
      }
    }
  }
}
