/**
 * Over identifiers among which no fragment shares its base with a whole bundle, the file storage behaves like
 * a plain map under every interleaving of callers and writer, and its size counter is exact.
 */
module FileStorageRefinement {
  import opened BundleNames
  import opened BundleOrder
  import opened BundleTables
  import opened ByteStrings
  import opened FileStorage
  import opened HexKeys
  import opened OrderedSets
  import opened Selections
  import opened Sums

  /** Distinct identifiers have distinct files. */
  ghost predicate TellsApart(f: Naming, ids: iset<BundleId>) {
    forall a, b :: a in ids && b in ids && f(a) == f(b) ==> a == b
  }

  /** The assumptions about the identifiers: no mixture, and distinct files. */
  ghost predicate Plain(f: Naming, ids: iset<BundleId>) {
    Unmixed(ids) && TellsApart(f, ids)
  }

  lemma FileNamesTellApart(ids: iset<BundleId>)
    requires AllCanonical(ids)
    ensures TellsApart(FileName, ids)
  {
    forall a, b | a in ids && b in ids && FileName(a) == FileName(b)
      ensures a == b
    {
      FileNameIsInjective(a, b);
    }
  }

  // ---------------------------------------------------------------- unmixed containers

  lemma AlikeIsEqual(ids: iset<BundleId>)
    requires Unmixed(ids)
    ensures forall a, b :: a in ids && b in ids ==> (Alike(a, b) <==> a == b)
    ensures AlikeIsTransitive(ids)
    ensures WeakOrder(IdLess, ids)
  {
    OrderIsTotalIff(ids);
    StrictTotalIsWeak(IdLess, ids);
  }

  lemma SameIsEqual(ids: iset<BundleId>, a: BundleId, b: BundleId)
    requires Unmixed(ids) && a in ids && b in ids
    ensures IdSame(a, b) <==> a == b
  {
    OrdersAgree(a, b);
  }

  /** A search by comparison finds an identifier of the universe exactly if it is there. */
  lemma SearchIsExact(ids: iset<BundleId>, index: seq<BundleId>, id: BundleId)
    requires Unmixed(ids) && id in ids && Within(index, ids)
    ensures FirstOf(index, SameAs(id)) == if id in index then Some(id) else None
    ensures FirstOf(index, EntryIs(id)) == if id in index then Some(id) else None
  {
    forall e | e in index
      ensures (SameAs(id)(e) <==> e == id) && (EntryIs(id)(e) <==> e == id)
    {
      SameIsEqual(ids, id, e);
      SameIsEqual(ids, e, id);
    }
  }

  lemma IndexAfterInsert(ids: iset<BundleId>, index: seq<BundleId>, id: BundleId)
    requires Unmixed(ids) && id in ids && Within(index, ids) && Ascending(IdLess, index)
    ensures Ascending(IdLess, Insert(IdLess, index, id))
    ensures forall e :: e in Insert(IdLess, index, id) <==> e in index || e == id
  {
    AlikeIsEqual(ids);
    InsertKeepsOrder(IdLess, index, id, ids);
    forall e | e in index && Equivalent(IdLess, e, id)
      ensures e == id
    {
      assert Alike(e, id);
    }
  }

  lemma IndexAfterErase(ids: iset<BundleId>, index: seq<BundleId>, id: BundleId)
    requires Unmixed(ids) && id in ids && Within(index, ids) && Ascending(IdLess, index)
    ensures Ascending(IdLess, Erase(IdLess, index, id))
    ensures forall e :: e in Erase(IdLess, index, id) <==> e in index && e != id
  {
    AlikeIsEqual(ids);
    EraseKeepsOrder(IdLess, index, id, ids);
    forall e | e in index
      ensures Equivalent(IdLess, e, id) <==> e == id
    {
      assert Alike(e, id) <==> e == id;
    }
  }

  /** A table over the universe. */
  ghost predicate GoodTable<V>(ids: iset<BundleId>, t: Table<V>) {
    KeysFrom(ids, t) && Apart(t)
  }

  lemma TableAfterPut<V>(ids: iset<BundleId>, t: Table<V>, x: BundleId, v: V, y: BundleId)
    requires Unmixed(ids) && GoodTable(ids, t) && x in ids && y in ids
    ensures Find(Put(t, x, v), y) == if x == y then Some(v) else Find(t, y)
    ensures GoodTable(ids, Put(t, x, v))
  {
    AlikeIsEqual(ids);
    FindAfterPut(ids, t, x, v, y);
    PutKeepsKeys(ids, t, x, v);
    PutKeepsApart(ids, t, x, v);
  }

  lemma TableAfterDrop<V>(ids: iset<BundleId>, t: Table<V>, x: BundleId, y: BundleId)
    requires Unmixed(ids) && GoodTable(ids, t) && x in ids && y in ids
    ensures Find(Drop(t, x), y) == if x == y then None else Find(t, y)
    ensures GoodTable(ids, Drop(t, x))
  {
    AlikeIsEqual(ids);
    if x == y { DroppedIsGone(ids, t, x); } else { FindAfterDrop(ids, t, x, y); }
    DropKeepsKeys(ids, t, x);
    DropKeepsApart(t, x);
  }

  /** Leaving out an entry by its place is dropping its identifier. */
  lemma {:induction false} CutIsDrop<V>(ids: iset<BundleId>, t: Table<V>, at: nat)
    requires Unmixed(ids) && GoodTable(ids, t) && at < |t|
    ensures t[..at] + t[at + 1..] == Drop(t, t[at].id)
  {
    AlikeIsEqual(ids);
    if at > 0 {
      assert !Alike(t[0].id, t[at].id);
      CutIsDrop(ids, t[1..], at - 1);
      assert t[..at] == [t[0]] + t[1..][..at - 1];
      assert t[1..][at..] == t[at + 1..];
    }
  }

  lemma EntryAt<V>(ids: iset<BundleId>, t: Table<V>, at: nat)
    requires Unmixed(ids) && GoodTable(ids, t) && at < |t|
    ensures Find(t, t[at].id) == Some(t[at].value)
  {
    AlikeIsEqual(ids);
    EntryIsFound(t, at);
  }

  lemma FoundEntry<V>(ids: iset<BundleId>, t: Table<V>, id: BundleId) returns (at: nat)
    requires Unmixed(ids) && GoodTable(ids, t) && id in ids && Find(t, id).Some?
    ensures at < |t| && t[at].id == id && t[at].value == Find(t, id).value
  {
    AlikeIsEqual(ids);
    at := FoundIsEntry(t, id);
  }

  // ---------------------------------------------------------------- what is known of one identifier

  predicate HasStore(tasks: seq<Task>, h: Hash) {
    exists i :: 0 <= i < |tasks| && tasks[i].StoreTask? && tasks[i].hash == h
  }

  predicate HasRemove(tasks: seq<Task>, h: Hash) {
    exists i :: 0 <= i < |tasks| && tasks[i].RemoveTask? && tasks[i].hash == h
  }

  /** Two queued tasks for one file are its store and then its removal. */
  predicate TasksOrdered(tasks: seq<Task>) {
    forall i, j :: 0 <= i < j < |tasks| && tasks[i].hash == tasks[j].hash
                   ==> tasks[i].StoreTask? && tasks[j].RemoveTask?
  }

  /** All that the storage knows about one identifier. */
  datatype Slot = Slot(
    pending: Option<Bundle>, file: Option<Bundle>, stored: Option<Hash>, size: Option<nat>,
    visible: bool, toStore: bool, toRemove: bool, wrote: bool, erased: bool)

  const NOTHING := Slot(None, None, None, None, false, false, false, false, false)

  function Lookup<K, V>(m: map<K, V>, k: K): Option<V> {
    if k in m then Some(m[k]) else None
  }

  function SlotAt(s: State, k: BundleId, h: Hash): Slot {
    Slot(Lookup(s.pending, h), Lookup(s.files, h), Find(s.stored, k), Find(s.sizes, k),
         k in s.index, HasStore(s.tasks, h), HasRemove(s.tasks, h), s.busy == Wrote(h), s.busy == Erased(h))
  }

  /** How far a bundle has come: waiting to be written, written, reported, erased, and gone. */
  datatype Stage = Waiting | Written | Filed | Erasing | Gone

  /** The only facts that go together; up to the erasure the bundle is visible or its removal is queued. */
  function LegalSlot(stage: Stage, h: Hash, b: Bundle, visible: bool): Slot {
    match stage
    case Waiting => Slot(Some(b), None, None, Some(b.size), visible, true, !visible, false, false)
    case Written => Slot(Some(b), Some(b), None, Some(b.size), visible, false, !visible, true, false)
    case Filed => Slot(None, Some(b), Some(h), Some(b.size), visible, false, !visible, false, false)
    case Erasing => Slot(None, None, Some(h), Some(b.size), false, false, false, false, true)
    case Gone => NOTHING
  }

  predicate Legal(slot: Slot, h: Hash, b: Bundle) {
    || slot == LegalSlot(Waiting, h, b, slot.visible)
    || slot == LegalSlot(Written, h, b, slot.visible)
    || slot == LegalSlot(Filed, h, b, slot.visible)
    || slot == LegalSlot(Erasing, h, b, slot.visible)
    || slot == LegalSlot(Gone, h, b, slot.visible)
  }

  predicate IdInv(f: Naming, s: State, k: BundleId)
    requires k in s.history
  {
    s.history[k].id == k && Legal(SlotAt(s, k, f(k)), f(k), s.history[k])
  }

  ghost predicate IdsLegal(f: Naming, s: State) {
    forall k :: k in s.history ==> IdInv(f, s, k)
  }

  // ---------------------------------------------------------------- the invariant

  ghost predicate Known(f: Naming, history: map<BundleId, Bundle>, h: Hash) {
    exists k :: k in history && f(k) == h
  }

  predicate TaskFits(f: Naming, history: map<BundleId, Bundle>, t: Task) {
    t.StoreTask? ==> t.bundle.id in history && history[t.bundle.id] == t.bundle && t.hash == f(t.bundle.id)
  }

  ghost predicate TasksKnown(f: Naming, history: map<BundleId, Bundle>, tasks: seq<Task>) {
    forall i :: 0 <= i < |tasks| ==> Known(f, history, tasks[i].hash) && TaskFits(f, history, tasks[i])
  }

  /** Nothing but bundles that were accepted at some time is mentioned in the files and tasks. */
  ghost predicate FilesKnown(f: Naming, s: State) {
    && (forall h :: h in s.pending ==> Known(f, s.history, h))
    && (forall h :: h in s.files ==> Known(f, s.history, h))
    && TasksKnown(f, s.history, s.tasks)
    && (!s.busy.Idle? ==> Known(f, s.history, s.busy.hash))
  }

  /** The identifiers that were accepted, as the containers see them. */
  ghost function Accepted(s: State): iset<BundleId> {
    iset k | k in s.history
  }

  ghost predicate TablesGood(ids: iset<BundleId>, s: State) {
    && (forall k :: k in s.history ==> k in ids)
    && Within(s.index, Accepted(s)) && Ascending(IdLess, s.index)
    && GoodTable(Accepted(s), s.stored) && GoodTable(Accepted(s), s.sizes)
  }

  predicate OnDisk(s: State, h: Hash) {
    h in s.pending || h in s.files || s.busy == Erased(h)
  }

  /** The sizes of the bundles that are pending or on disk. */
  function Occupied(f: Naming, s: State): map<BundleId, nat> {
    map k | k in s.history && OnDisk(s, f(k)) :: s.history[k].size
  }

  /** The plain map holds what is visible. */
  ghost predicate SeenInv(s: State) {
    && (forall k :: k in s.seen <==> k in s.index)
    && (forall k :: k in s.seen ==> k in s.history && s.seen[k] == s.history[k])
  }

  ghost predicate SizeInv(f: Naming, s: State) {
    && s.currentSize == Sum(Occupied(f, s))
    && (s.maxSize == 0 || s.currentSize <= s.maxSize)
  }

  ghost predicate Inv(f: Naming, ids: iset<BundleId>, s: State) {
    && IdsLegal(f, s)
    && TablesGood(ids, s)
    && FilesKnown(f, s)
    && TasksOrdered(s.tasks) && !s.busy.EraseFailed?
    && SeenInv(s)
    && SizeInv(f, s)
  }

  // ---------------------------------------------------------------- the queue of tasks

  lemma TaskAdded(tasks: seq<Task>, t: Task, h: Hash)
    ensures HasStore(tasks + [t], h) <==> HasStore(tasks, h) || (t.StoreTask? && t.hash == h)
    ensures HasRemove(tasks + [t], h) <==> HasRemove(tasks, h) || (t.RemoveTask? && t.hash == h)
  {
    var longer := tasks + [t];
    if HasStore(tasks, h) {
      var i :| 0 <= i < |tasks| && tasks[i].StoreTask? && tasks[i].hash == h;
      assert longer[i] == tasks[i];
    }
    if HasRemove(tasks, h) {
      var i :| 0 <= i < |tasks| && tasks[i].RemoveTask? && tasks[i].hash == h;
      assert longer[i] == tasks[i];
    }
    assert longer[|tasks|] == t;
  }

  lemma TaskTaken(tasks: seq<Task>, h: Hash)
    requires tasks != [] && TasksOrdered(tasks)
    ensures TasksOrdered(tasks[1..])
    ensures HasStore(tasks[1..], h) <==> HasStore(tasks, h) && !(tasks[0].StoreTask? && tasks[0].hash == h)
    ensures HasRemove(tasks[1..], h) <==> HasRemove(tasks, h) && !(tasks[0].RemoveTask? && tasks[0].hash == h)
    ensures tasks[0].hash == h && tasks[0].RemoveTask? ==> !HasStore(tasks, h)
  {
    var rest := tasks[1..];
    if HasStore(tasks, h) {
      var i :| 0 <= i < |tasks| && tasks[i].StoreTask? && tasks[i].hash == h;
      if i > 0 { assert rest[i - 1] == tasks[i]; }
    }
    if HasRemove(tasks, h) {
      var i :| 0 <= i < |tasks| && tasks[i].RemoveTask? && tasks[i].hash == h;
      if i > 0 { assert rest[i - 1] == tasks[i]; }
    }
  }

  lemma OrderedWith(tasks: seq<Task>, t: Task)
    requires TasksOrdered(tasks)
    requires !HasRemove(tasks, t.hash) && (HasStore(tasks, t.hash) ==> t.RemoveTask?)
    ensures TasksOrdered(tasks + [t])
  {}

  // ---------------------------------------------------------------- storing

  /** An identifier seen for the first time has left no trace. */
  lemma Untouched(f: Naming, ids: iset<BundleId>, s: State, k: BundleId)
    requires Plain(f, ids) && TablesGood(ids, s) && FilesKnown(f, s) && k in ids && k !in s.history
    ensures !Known(f, s.history, f(k)) && SlotAt(s, k, f(k)) == NOTHING
  {
    NotInTable(ids, s, s.stored, k);
    NotInTable(ids, s, s.sizes, k);
  }

  lemma NotInTable<V>(ids: iset<BundleId>, s: State, t: Table<V>, k: BundleId)
    requires Unmixed(ids) && (forall x :: x in s.history ==> x in ids) && KeysFrom(Accepted(s), t) && k in ids && k !in s.history
    ensures Find(t, k) == None
  {
    AlikeIsEqual(ids);
    if Find(t, k).Some? {
      var i := FoundIsEntry(t, k);
    }
  }

  lemma StoreKeepsTables(f: Naming, ids: iset<BundleId>, s: State, b: Bundle)
    requires Unmixed(ids) && TablesGood(ids, s) && b.id in ids && Fits(s, b.size)
    ensures TablesGood(ids, Store(f, s, b))
  {
    var s' := Store(f, s, b);
    var all := Accepted(s');
    assert Unmixed(all);
    assert Within(s.index, all) && GoodTable(all, s.sizes);
    IndexAfterInsert(all, s.index, b.id);
    TableAfterPut(all, s.sizes, b.id, b.size, b.id);
  }

  lemma StoreTables(ids: iset<BundleId>, s: State, b: Bundle, k: BundleId)
    requires Unmixed(ids) && TablesGood(ids, s) && b.id in ids && k in ids
    ensures k in Insert(IdLess, s.index, b.id) <==> k in s.index || k == b.id
    ensures Find(Put(s.sizes, b.id, b.size), k) == if k == b.id then Some(b.size) else Find(s.sizes, k)
  {
    assert Within(s.index, ids) && GoodTable(ids, s.sizes);
    IndexAfterInsert(ids, s.index, b.id);
    TableAfterPut(ids, s.sizes, b.id, b.size, k);
  }

  lemma AdmittedSlot(s: State, b: Bundle, own: Hash, k: BundleId, h: Hash)
    requires k == b.id <==> h == own
    requires k in Insert(IdLess, s.index, b.id) <==> k in s.index || k == b.id
    requires Find(Put(s.sizes, b.id, b.size), k) == if k == b.id then Some(b.size) else Find(s.sizes, k)
    ensures k != b.id ==> SlotAt(Admitted(s, b, own), k, h) == SlotAt(s, k, h)
    ensures k == b.id ==> SlotAt(Admitted(s, b, own), k, h)
                          == SlotAt(s, k, h).(pending := Some(b), size := Some(b.size), visible := true, toStore := true)
  {
    TaskAdded(s.tasks, StoreTask(own, b), h);
  }

  lemma StoreSlot(f: Naming, ids: iset<BundleId>, s: State, b: Bundle, k: BundleId)
    requires Plain(f, ids) && TablesGood(ids, s) && b.id in ids && k in ids && Fits(s, b.size)
    ensures k != b.id ==> SlotAt(Store(f, s, b), k, f(k)) == SlotAt(s, k, f(k))
    ensures k == b.id ==> SlotAt(Store(f, s, b), k, f(k))
                          == SlotAt(s, k, f(k)).(pending := Some(b), size := Some(b.size), visible := true, toStore := true)
  {
    StoreTables(ids, s, b, k);
    AdmittedSlot(s, b, f(b.id), k, f(k));
  }

  lemma StoreKeepsIds(f: Naming, ids: iset<BundleId>, s: State, b: Bundle)
    requires Plain(f, ids) && IdsLegal(f, s) && TablesGood(ids, s) && FilesKnown(f, s)
    requires b.id in ids && b.id !in s.history && Fits(s, b.size)
    ensures IdsLegal(f, Store(f, s, b))
  {
    Untouched(f, ids, s, b.id);
    var s' := Store(f, s, b);
    forall k | k in s'.history
      ensures IdInv(f, s', k)
    {
      StoreSlot(f, ids, s, b, k);
      if k != b.id { assert IdInv(f, s, k); }
    }
  }

  lemma KnownGrows(f: Naming, history: map<BundleId, Bundle>, b: Bundle)
    requires b.id !in history
    ensures forall h :: Known(f, history, h) ==> Known(f, history[b.id := b], h)
    ensures Known(f, history[b.id := b], f(b.id))
    ensures forall t :: TaskFits(f, history, t) ==> TaskFits(f, history[b.id := b], t)
  {
    var longer := history[b.id := b];
    forall h | Known(f, history, h)
      ensures Known(f, longer, h)
    {
      var k :| k in history && f(k) == h;
      assert k in longer;
    }
    assert b.id in longer;
  }

  lemma TasksKnownWith(f: Naming, history: map<BundleId, Bundle>, b: Bundle, tasks: seq<Task>)
    requires TasksKnown(f, history, tasks) && b.id !in history
    ensures TasksKnown(f, history[b.id := b], tasks + [StoreTask(f(b.id), b)])
  {
    KnownGrows(f, history, b);
  }

  lemma StoreKeepsFiles(f: Naming, s: State, b: Bundle)
    requires FilesKnown(f, s) && b.id !in s.history
    ensures FilesKnown(f, Store(f, s, b))
  {
    TasksKnownWith(f, s.history, b, s.tasks);
    KnownGrows(f, s.history, b);
  }

  lemma OccupiedAfterStore(f: Naming, s: State, b: Bundle)
    requires b.id !in s.history && Fits(s, b.size) && forall k :: k in s.history ==> f(k) != f(b.id)
    ensures b.id !in Occupied(f, s) && Occupied(f, Store(f, s, b)) == Occupied(f, s)[b.id := b.size]
  {
    var s' := Store(f, s, b);
    assert forall k :: k in s.history ==> (OnDisk(s', f(k)) <==> OnDisk(s, f(k)));
    assert OnDisk(s', f(b.id));
  }

  lemma StoreKeepsSize(f: Naming, ids: iset<BundleId>, s: State, b: Bundle)
    requires TellsApart(f, ids) && (forall k :: k in s.history ==> k in ids) && SizeInv(f, s)
    requires b.id in ids && b.id !in s.history && Fits(s, b.size)
    ensures SizeInv(f, Store(f, s, b))
  {
    OccupiedAfterStore(f, s, b);
    SumWith(Occupied(f, s), b.id, b.size);
  }

  lemma StoreKeepsSeen(f: Naming, ids: iset<BundleId>, s: State, b: Bundle)
    requires Unmixed(ids) && TablesGood(ids, s) && SeenInv(s) && b.id in ids && Fits(s, b.size)
    ensures SeenInv(Store(f, s, b))
  {
    assert Within(s.index, ids);
    IndexAfterInsert(ids, s.index, b.id);
  }

  lemma StoreKeeps(f: Naming, ids: iset<BundleId>, s: State, b: Bundle)
    requires Plain(f, ids) && Inv(f, ids, s) && b.id in ids && b.id !in s.history
    ensures Inv(f, ids, Store(f, s, b))
  {
    if Fits(s, b.size) {
      StoreKeepsIds(f, ids, s, b);
      StoreKeepsTables(f, ids, s, b);
      StoreKeepsFiles(f, s, b);
      StoreKeepsSize(f, ids, s, b);
      StoreKeepsSeen(f, ids, s, b);
      Untouched(f, ids, s, b.id);
      OrderedWith(s.tasks, StoreTask(f(b.id), b));
    }
  }

  // ---------------------------------------------------------------- removing

  /** Over the universe a removal and an expiry are one thing. */
  function Hidden(f: Naming, s: State, id: BundleId): State {
    s.(seen := s.seen - {id}, index := Erase(IdLess, s.index, id), tasks := s.tasks + [RemoveTask(f(id))])
  }

  lemma RemovalHides(f: Naming, ids: iset<BundleId>, s: State, id: BundleId)
    requires Unmixed(ids) && TablesGood(ids, s) && SeenInv(s) && id in ids
    ensures id in s.index ==> Remove(f, s, id) == Hidden(f, s, id) && Expire(f, s, id) == Hidden(f, s, id)
    ensures id !in s.index ==> Remove(f, s, id) == s && Expire(f, s, id) == s
  {
    assert Within(s.index, ids);
    SearchIsExact(ids, s.index, id);
    if id !in s.index {
      assert s.seen - {id} == s.seen;
      ErasedNothing(ids, s.index, id);
    }
  }

  lemma {:induction false} ErasedNothing(ids: iset<BundleId>, index: seq<BundleId>, id: BundleId)
    requires Unmixed(ids) && id in ids && Within(index, ids) && id !in index
    ensures Erase(IdLess, index, id) == index
  {
    if index != [] {
      AlikeIsEqual(ids);
      assert index[0] in index && !Alike(index[0], id);
      ErasedNothing(ids, index[1..], id);
    }
  }

  lemma HideSlot(f: Naming, ids: iset<BundleId>, s: State, gone: BundleId, k: BundleId)
    requires Plain(f, ids) && TablesGood(ids, s) && gone in ids && k in ids
    ensures k != gone ==> SlotAt(Hidden(f, s, gone), k, f(k)) == SlotAt(s, k, f(k))
    ensures k == gone ==> SlotAt(Hidden(f, s, gone), k, f(k)) == SlotAt(s, k, f(k)).(visible := false, toRemove := true)
  {
    TaskAdded(s.tasks, RemoveTask(f(gone)), f(k));
    assert Within(s.index, ids);
    IndexAfterErase(ids, s.index, gone);
    assert f(k) == f(gone) <==> k == gone;
  }

  lemma LegalHidden(slot: Slot, h: Hash, b: Bundle)
    requires Legal(slot, h, b) && slot.visible
    ensures Legal(slot.(visible := false, toRemove := true), h, b)
  {}

  lemma HideKeepsIds(f: Naming, ids: iset<BundleId>, s: State, gone: BundleId)
    requires Plain(f, ids) && IdsLegal(f, s) && TablesGood(ids, s) && gone in s.index
    ensures IdsLegal(f, Hidden(f, s, gone))
  {
    var s' := Hidden(f, s, gone);
    forall k | k in s'.history
      ensures IdInv(f, s', k)
    {
      assert IdInv(f, s, k);
      HideSlot(f, ids, s, gone, k);
      if k == gone { LegalHidden(SlotAt(s, k, f(k)), f(k), s.history[k]); }
    }
  }

  lemma HideKeepsTables(f: Naming, ids: iset<BundleId>, s: State, gone: BundleId)
    requires Unmixed(ids) && TablesGood(ids, s) && SeenInv(s) && gone in s.index
    ensures TablesGood(ids, Hidden(f, s, gone)) && SeenInv(Hidden(f, s, gone))
  {
    assert Within(s.index, ids);
    IndexAfterErase(ids, s.index, gone);
  }

  lemma HideKeepsFiles(f: Naming, s: State, gone: BundleId)
    requires FilesKnown(f, s) && gone in s.history
    ensures FilesKnown(f, Hidden(f, s, gone))
  {
    assert Known(f, s.history, f(gone));
  }

  /** What the stage of an identifier says about the containers. */
  lemma LegalFacts(f: Naming, s: State, k: BundleId)
    requires IdsLegal(f, s) && k in s.history
    ensures var h, b := f(k), s.history[k];
            && b.id == k
            && (k in s.index ==> !HasRemove(s.tasks, h))
            && (s.busy == Wrote(h) ==> h in s.pending && s.pending[h] == b)
            && (s.busy == Erased(h) ==> Find(s.stored, k).Some?)
            && (Find(s.stored, k).Some? ==> Find(s.stored, k) == Some(h) && Find(s.sizes, k) == Some(b.size))
  {
    assert IdInv(f, s, k);
    var slot := SlotAt(s, k, f(k));
    assert slot.stored.Some? ==> slot.stored == Some(f(k)) && slot.size == Some(s.history[k].size);
  }

  lemma HideKeepsSize(f: Naming, s: State, gone: BundleId)
    requires SizeInv(f, s)
    ensures SizeInv(f, Hidden(f, s, gone))
  {
    assert Occupied(f, Hidden(f, s, gone)) == Occupied(f, s);
  }

  lemma HideKeepsOrder(f: Naming, s: State, gone: BundleId)
    requires IdsLegal(f, s) && TasksOrdered(s.tasks) && gone in s.index && gone in s.history
    ensures TasksOrdered(Hidden(f, s, gone).tasks)
  {
    LegalFacts(f, s, gone);
    OrderedWith(s.tasks, RemoveTask(f(gone)));
  }

  lemma HideKeeps(f: Naming, ids: iset<BundleId>, s: State, gone: BundleId)
    requires Plain(f, ids) && Inv(f, ids, s) && gone in s.index
    ensures Inv(f, ids, Hidden(f, s, gone))
  {
    HideKeepsIds(f, ids, s, gone);
    HideKeepsTables(f, ids, s, gone);
    HideKeepsFiles(f, s, gone);
    HideKeepsOrder(f, s, gone);
    HideKeepsSize(f, s, gone);
  }

  // ---------------------------------------------------------------- the writer's tasks

  lemma WorkSparesOthers(s: State, k: BundleId, h: Hash)
    requires Enabled(s, DoTask) && TasksOrdered(s.tasks) && s.tasks[0].hash != h
    ensures SlotAt(Work(s), k, h) == SlotAt(s, k, h)
  {
    TaskTaken(s.tasks, h);
  }

  lemma WorkStoresSlot(s: State, k: BundleId, h: Hash)
    requires Enabled(s, DoTask) && TasksOrdered(s.tasks) && s.tasks[0].hash == h && s.tasks[0].StoreTask?
    ensures SlotAt(s, k, h).toStore
    ensures SlotAt(Work(s), k, h)
            == SlotAt(s, k, h).(toStore := false, file := Some(s.tasks[0].bundle), wrote := true)
  {
    TaskTaken(s.tasks, h);
  }

  lemma WorkErasesSlot(s: State, k: BundleId, h: Hash)
    requires Enabled(s, DoTask) && TasksOrdered(s.tasks) && s.tasks[0].hash == h && s.tasks[0].RemoveTask?
    ensures SlotAt(s, k, h).toRemove && !SlotAt(s, k, h).toStore
    ensures h in s.files
            ==> SlotAt(Work(s), k, h) == SlotAt(s, k, h).(toRemove := false, file := None, erased := true)
  {
    TaskTaken(s.tasks, h);
  }

  /** A removal is worked off only after the file was written and reported. */
  lemma RemovedFileExists(f: Naming, s: State)
    requires IdsLegal(f, s) && TasksOrdered(s.tasks) && Enabled(s, DoTask) && s.tasks[0].RemoveTask?
    requires Known(f, s.history, s.tasks[0].hash)
    ensures s.tasks[0].hash in s.files
  {
    var k :| k in s.history && f(k) == s.tasks[0].hash;
    assert IdInv(f, s, k);
    WorkErasesSlot(s, k, f(k));
  }

  lemma WorkKeepsId(f: Naming, ids: iset<BundleId>, s: State, k: BundleId)
    requires TellsApart(f, ids) && (forall x :: x in s.history ==> x in ids)
    requires k in s.history && IdInv(f, s, k) && TasksOrdered(s.tasks) && Enabled(s, DoTask)
    requires TaskFits(f, s.history, s.tasks[0])
    requires s.tasks[0].RemoveTask? ==> s.tasks[0].hash in s.files
    ensures IdInv(f, Work(s), k)
  {
    var t, h := s.tasks[0], f(k);
    if t.hash != h {
      WorkSparesOthers(s, k, h);
    } else if t.StoreTask? {
      WorkStoresSlot(s, k, h);
      assert k == t.bundle.id;
    } else {
      WorkErasesSlot(s, k, h);
    }
  }

  lemma WorkKeepsFiles(f: Naming, s: State)
    requires FilesKnown(f, s) && TasksOrdered(s.tasks) && Enabled(s, DoTask)
    ensures FilesKnown(f, Work(s)) && TasksOrdered(Work(s).tasks)
  {
    assert Known(f, s.history, s.tasks[0].hash);
    assert forall i :: 0 <= i < |s.tasks| - 1 ==> s.tasks[1..][i] == s.tasks[i + 1];
  }

  lemma OnDiskFromSlot(s: State, k: BundleId, h: Hash)
    ensures OnDisk(s, h) <==> SlotAt(s, k, h).pending.Some? || SlotAt(s, k, h).file.Some? || SlotAt(s, k, h).erased
  {}

  /** What is on disk is what has a size. */
  lemma OnDiskIffSized(f: Naming, s: State, k: BundleId)
    requires k in s.history && IdInv(f, s, k)
    ensures OnDisk(s, f(k)) <==> Find(s.sizes, k).Some?
  {
    OnDiskFromSlot(s, k, f(k));
    var slot := SlotAt(s, k, f(k));
    assert slot.size.Some? <==> slot.pending.Some? || slot.file.Some? || slot.erased;
  }

  lemma SameOccupied(f: Naming, s: State, s': State)
    requires s'.history == s.history && s'.sizes == s.sizes && IdsLegal(f, s) && IdsLegal(f, s')
    ensures Occupied(f, s') == Occupied(f, s)
  {
    forall k | k in s.history
      ensures OnDisk(s', f(k)) <==> OnDisk(s, f(k))
    {
      assert IdInv(f, s, k) && IdInv(f, s', k);
      OnDiskIffSized(f, s, k);
      OnDiskIffSized(f, s', k);
    }
  }

  lemma WorkKeepsIds(f: Naming, ids: iset<BundleId>, s: State)
    requires TellsApart(f, ids) && (forall x :: x in s.history ==> x in ids)
    requires IdsLegal(f, s) && FilesKnown(f, s) && TasksOrdered(s.tasks) && Enabled(s, DoTask)
    ensures IdsLegal(f, Work(s)) && !Work(s).busy.EraseFailed?
  {
    var s', t := Work(s), s.tasks[0];
    assert Known(f, s.history, t.hash) && TaskFits(f, s.history, t);
    if t.RemoveTask? { RemovedFileExists(f, s); }
    forall k | k in s'.history
      ensures IdInv(f, s', k)
    {
      assert IdInv(f, s, k);
      WorkKeepsId(f, ids, s, k);
    }
  }

  lemma WorkFrame(s: State)
    requires Enabled(s, DoTask)
    ensures var s' := Work(s);
            && s'.history == s.history && s'.sizes == s.sizes && s'.stored == s.stored && s'.index == s.index
            && s'.seen == s.seen && s'.currentSize == s.currentSize && s'.maxSize == s.maxSize
  {}

  lemma SameTables(ids: iset<BundleId>, s: State, s': State)
    requires TablesGood(ids, s) && SeenInv(s)
    requires s'.history == s.history && s'.sizes == s.sizes && s'.stored == s.stored && s'.index == s.index && s'.seen == s.seen
    ensures TablesGood(ids, s') && SeenInv(s')
  {
    assert Accepted(s') == Accepted(s);
  }

  lemma WorkKeeps(f: Naming, ids: iset<BundleId>, s: State)
    requires Plain(f, ids) && Inv(f, ids, s) && Enabled(s, DoTask)
    ensures Inv(f, ids, Work(s))
  {
    WorkFrame(s);
    SameTables(ids, s, Work(s));
    WorkKeepsIds(f, ids, s);
    WorkKeepsFiles(f, s);
    SameOccupied(f, s, Work(s));
  }

  // ---------------------------------------------------------------- the writer's reports

  /** The bundle of which the writer reports. */
  lemma ReportOwner(f: Naming, s: State) returns (owner: BundleId)
    requires IdsLegal(f, s) && FilesKnown(f, s) && !s.busy.Idle? && !s.busy.EraseFailed?
    ensures Enabled(s, DoReport)
    ensures owner in s.history && f(owner) == s.busy.hash
    ensures s.busy.Wrote? ==> s.pending[s.busy.hash] == s.history[owner] && s.history[owner].id == owner
    ensures s.busy.Erased? ==>
              Find(s.stored, owner) == Some(s.busy.hash) && Find(s.sizes, owner) == Some(s.history[owner].size)
  {
    owner :| owner in s.history && f(owner) == s.busy.hash;
    LegalFacts(f, s, owner);
  }

  /** A report of a written file, for the bundle it is about. */
  function FiledFor(s: State, owner: BundleId, h: Hash): State {
    s.(busy := Idle, pending := s.pending - {h}, stored := Put(s.stored, owner, h))
  }

  /** A report of an erased file, for the bundle it was about. */
  function Forgotten(s: State, owner: BundleId, size: nat): State {
    s.(busy := Idle, currentSize := s.currentSize - size, sizes := Drop(s.sizes, owner), stored := Drop(s.stored, owner))
  }

  /** The search finds the entry of exactly the bundle whose file was erased. */
  lemma SearchFindsOwner(f: Naming, ids: iset<BundleId>, s: State, owner: BundleId)
    requires Plain(f, ids) && IdsLegal(f, s) && TablesGood(ids, s) && s.busy.Erased? && owner in s.history
    requires f(owner) == s.busy.hash && Find(s.stored, owner) == Some(s.busy.hash)
    ensures Search(s.stored, s.busy.hash).Some? && s.stored[Search(s.stored, s.busy.hash).value].id == owner
  {
    var all := Accepted(s);
    assert Unmixed(all);
    var i := FoundEntry(all, s.stored, owner);
    var at := Search(s.stored, s.busy.hash).value;
    var e := s.stored[at];
    EntryAt(all, s.stored, at);
    LegalFacts(f, s, e.id);
  }

  lemma ErasedReport(f: Naming, ids: iset<BundleId>, s: State, owner: BundleId)
    requires Plain(f, ids) && IdsLegal(f, s) && TablesGood(ids, s) && s.busy.Erased? && owner in s.history
    requires f(owner) == s.busy.hash && Find(s.stored, owner) == Some(s.busy.hash)
    requires Find(s.sizes, owner) == Some(s.history[owner].size)
    ensures Report(s) == Forgotten(s, owner, s.history[owner].size)
  {
    SearchFindsOwner(f, ids, s, owner);
    var all, at := Accepted(s), Search(s.stored, s.busy.hash).value;
    assert Unmixed(all);
    CutIsDrop(all, s.stored, at);
  }

  lemma FiledSlot(f: Naming, ids: iset<BundleId>, s: State, owner: BundleId, k: BundleId)
    requires Plain(f, ids) && TablesGood(ids, s) && owner in s.history && k in s.history && s.busy == Wrote(f(owner))
    ensures var slot, slot' := SlotAt(s, k, f(k)), SlotAt(FiledFor(s, owner, f(owner)), k, f(k));
            && (k != owner ==> slot' == slot)
            && (k == owner ==> slot' == slot.(pending := None, stored := Some(f(k)), wrote := false))
  {
    var all := Accepted(s);
    assert Unmixed(all);
    TableAfterPut(all, s.stored, owner, f(owner), k);
    assert f(k) == f(owner) <==> k == owner;
  }

  lemma ForgottenSlot(f: Naming, ids: iset<BundleId>, s: State, owner: BundleId, size: nat, k: BundleId)
    requires Plain(f, ids) && TablesGood(ids, s) && owner in s.history && k in s.history && s.busy == Erased(f(owner))
    ensures var slot, slot' := SlotAt(s, k, f(k)), SlotAt(Forgotten(s, owner, size), k, f(k));
            && (k != owner ==> slot' == slot)
            && (k == owner ==> slot' == slot.(stored := None, size := None, erased := false))
  {
    var all := Accepted(s);
    assert Unmixed(all);
    TableAfterDrop(all, s.stored, owner, k);
    TableAfterDrop(all, s.sizes, owner, k);
    assert f(k) == f(owner) <==> k == owner;
  }

  lemma FiledKeeps(f: Naming, ids: iset<BundleId>, s: State, owner: BundleId)
    requires Plain(f, ids) && IdsLegal(f, s) && TablesGood(ids, s) && owner in s.history && s.busy == Wrote(f(owner))
    ensures IdsLegal(f, FiledFor(s, owner, f(owner))) && TablesGood(ids, FiledFor(s, owner, f(owner)))
  {
    var s', all := FiledFor(s, owner, f(owner)), Accepted(s);
    forall k | k in s'.history
      ensures IdInv(f, s', k)
    {
      assert IdInv(f, s, k);
      FiledSlot(f, ids, s, owner, k);
    }
    assert Unmixed(all);
    TableAfterPut(all, s.stored, owner, f(owner), owner);
  }

  lemma ForgottenKeeps(f: Naming, ids: iset<BundleId>, s: State, owner: BundleId, size: nat)
    requires Plain(f, ids) && IdsLegal(f, s) && TablesGood(ids, s) && owner in s.history && s.busy == Erased(f(owner))
    ensures IdsLegal(f, Forgotten(s, owner, size)) && TablesGood(ids, Forgotten(s, owner, size))
  {
    var s', all := Forgotten(s, owner, size), Accepted(s);
    forall k | k in s'.history
      ensures IdInv(f, s', k)
    {
      assert IdInv(f, s, k);
      ForgottenSlot(f, ids, s, owner, size, k);
    }
    assert Unmixed(all);
    TableAfterDrop(all, s.stored, owner, owner);
    TableAfterDrop(all, s.sizes, owner, owner);
  }

  lemma OccupiedAfterErasure(f: Naming, s: State, owner: BundleId, size: nat)
    requires owner in s.history && s.busy == Erased(f(owner)) && f(owner) !in s.pending && f(owner) !in s.files
    requires forall k :: k in s.history && f(k) == f(owner) ==> k == owner
    ensures owner in Occupied(f, s) && Occupied(f, Forgotten(s, owner, size)) == Occupied(f, s) - {owner}
  {
    var s' := Forgotten(s, owner, size);
    assert forall k :: k in s.history ==> (OnDisk(s', f(k)) <==> OnDisk(s, f(k)) && k != owner);
  }

  lemma ForgottenKeepsSize(f: Naming, ids: iset<BundleId>, s: State, owner: BundleId)
    requires TellsApart(f, ids) && (forall k :: k in s.history ==> k in ids) && IdsLegal(f, s) && SizeInv(f, s)
    requires owner in s.history && s.busy == Erased(f(owner))
    ensures SizeInv(f, Forgotten(s, owner, s.history[owner].size))
  {
    ErasedIsNowhere(f, s, owner);
    OccupiedAfterErasure(f, s, owner, s.history[owner].size);
    SumWithout(Occupied(f, s), owner);
  }

  lemma ErasedIsNowhere(f: Naming, s: State, owner: BundleId)
    requires IdsLegal(f, s) && owner in s.history && s.busy == Erased(f(owner))
    ensures f(owner) !in s.pending && f(owner) !in s.files
  {
    assert IdInv(f, s, owner);
    var slot := SlotAt(s, owner, f(owner));
    assert slot.erased ==> slot.pending.None? && slot.file.None?;
  }

  lemma ReportKeeps(f: Naming, ids: iset<BundleId>, s: State)
    requires Plain(f, ids) && Inv(f, ids, s) && !s.busy.Idle?
    ensures Enabled(s, DoReport) && Inv(f, ids, Report(s))
  {
    var owner := ReportOwner(f, s);
    if s.busy.Wrote? {
      FiledKeeps(f, ids, s, owner);
      SameOccupied(f, s, Report(s));
    } else {
      ErasedReport(f, ids, s, owner);
      ForgottenKeeps(f, ids, s, owner, s.history[owner].size);
      ForgottenKeepsSize(f, ids, s, owner);
    }
  }

  // ---------------------------------------------------------------- runs

  lemma StepKeeps(f: Naming, ids: iset<BundleId>, s: State, step: Step)
    requires Plain(f, ids) && Inv(f, ids, s) && Concerns(ids, step) && Enabled(s, step)
    ensures Inv(f, ids, Apply(f, s, step))
  {
    match step
    case CallStore(b) => StoreKeeps(f, ids, s, b);
    case CallRemove(id) =>
      RemovalHides(f, ids, s, id);
      if id in s.index { HideKeeps(f, ids, s, id); }
    case Expires(id) =>
      RemovalHides(f, ids, s, id);
      if id in s.index { HideKeeps(f, ids, s, id); }
    case DoTask => WorkKeeps(f, ids, s);
    case DoReport => ReportKeeps(f, ids, s);
  }

  lemma InitialInv(f: Naming, ids: iset<BundleId>, maxSize: nat)
    ensures Inv(f, ids, Initial(maxSize))
  {
    assert Occupied(f, Initial(maxSize)) == map[];
  }

  lemma {:induction false} RunKeeps(
    f: Naming, ids: iset<BundleId>, maxSize: nat, run: seq<State>, steps: seq<Step>, i: nat)
    requires Plain(f, ids) && IsRun(f, ids, maxSize, run, steps) && i < |run|
    ensures Inv(f, ids, run[i])
  {
    if i == 0 {
      InitialInv(f, ids, maxSize);
    } else {
      RunKeeps(f, ids, maxSize, run, steps, i - 1);
      StepKeeps(f, ids, run[i - 1], steps[i - 1]);
    }
  }
}
