/**
 * The file-backed bundle storage: an index and a table of pending bundles that the callers update, and a
 * writer thread that works off a queue of store and remove tasks, one file operation at a time, and reports
 * back after each. Index, stored table and sizes are ordered by identifier.
 */
module FileStorage {
  import opened BundleNames
  import opened BundleOrder
  import opened BundleTables
  import opened ByteStrings
  import opened HexKeys
  import opened OrderedSets
  import opened Selections
  import opened Sums

  datatype Bundle = Bundle(id: BundleId, size: nat, content: Bytes)

  datatype Task = StoreTask(hash: Hash, bundle: Bundle) | RemoveTask(hash: Hash)

  /** What the writer thread has done but not yet reported. */
  datatype Busy = Idle | Wrote(hash: Hash) | Erased(hash: Hash) | EraseFailed(hash: Hash)

  /** The name of the file for an identifier; `FileName` in the daemon. */
  type Naming = BundleId -> Hash

  /** The last two fields are history: all that was accepted, and what a plain map would hold. */
  datatype State = State(
    index: seq<BundleId>,           // what callers can see, ascending
    pending: map<Hash, Bundle>,     // accepted, not yet reported as written
    stored: Table<Hash>,            // reported as written
    sizes: Table<nat>,
    currentSize: int,
    maxSize: nat,                   // 0 is "no limit"
    tasks: seq<Task>,
    files: map<Hash, Bundle>,
    busy: Busy,
    history: map<BundleId, Bundle>,
    seen: map<BundleId, Bundle>)

  function Initial(maxSize: nat): State {
    State([], map[], [], [], 0, maxSize, [], map[], Idle, map[], map[])
  }

  // ---------------------------------------------------------------- callers

  predicate Fits(s: State, size: nat) {
    s.maxSize == 0 || s.currentSize + size <= s.maxSize
  }

  function Admitted(s: State, b: Bundle, h: Hash): State {
    s.(index := Insert(IdLess, s.index, b.id),
       pending := s.pending[h := b],
       sizes := Put(s.sizes, b.id, b.size),
       currentSize := s.currentSize + b.size,
       tasks := s.tasks + [StoreTask(h, b)],
       history := s.history[b.id := b],
       seen := s.seen[b.id := b])
  }

  /** A bundle that does not fit is refused with an exception and changes nothing. */
  function Store(f: Naming, s: State, b: Bundle): State {
    if Fits(s, b.size) then Admitted(s, b, f(b.id)) else s
  }

  /** The bundle is gone at once, its file later. */
  function Remove(f: Naming, s: State, id: BundleId): State {
    var found, s' := FirstOf(s.index, EntryIs(id)), s.(seen := s.seen - {id});
    if found.None? then s'
    else s'.(index := Erase(IdLess, s.index, found.value), tasks := s.tasks + [RemoveTask(f(found.value))])
  }

  /** An expired bundle's file is looked up in the same way, and the bundle itself leaves the index. */
  function Expire(f: Naming, s: State, id: BundleId): State {
    var found, s' := FirstOf(s.index, EntryIs(id)), s.(seen := s.seen - {id}, index := Erase(IdLess, s.index, id));
    if found.None? then s' else s'.(tasks := s.tasks + [RemoveTask(f(found.value))])
  }

  function Get(f: Naming, s: State, id: BundleId): Option<Bundle> {
    var found := FirstOf(s.index, SameAs(id));
    if found.None? then None
    else
      var h := f(found.value);
      if h in s.pending then Some(s.pending[h])
      else if h in s.files then Some(s.files[h])
      else None
  }

  // ---------------------------------------------------------------- the writer thread

  function Work(s: State): State
    requires s.busy.Idle? && s.tasks != []
  {
    var t, s' := s.tasks[0], s.(tasks := s.tasks[1..]);
    match t
    case StoreTask(h, b) => s'.(files := s.files[h := b], busy := Wrote(h))
    case RemoveTask(h) =>
      if h in s.files then s'.(files := s.files - {h}, busy := Erased(h)) else s'.(busy := EraseFailed(h))
  }

  /** The place of the first entry for a file. */
  function Search(stored: Table<Hash>, h: Hash): (r: Option<nat>)
    ensures r.Some? ==> r.value < |stored| && stored[r.value].value == h
    ensures r.None? ==> forall i :: 0 <= i < |stored| ==> stored[i].value != h
  {
    if stored == [] then None
    else if stored[0].value == h then Some(0)
    else
      var r := Search(stored[1..], h);
      assert forall i :: 0 < i < |stored| ==> stored[i] == stored[1..][i - 1];
      if r.None? then None else Some(r.value + 1)
  }

  /** The entry for an erased file is taken out of the books, with the size noted for its identifier. */
  function Settle(s: State, at: nat): State
    requires at < |s.stored|
  {
    var id := s.stored[at].id;
    var size := Find(s.sizes, id);
    s.(busy := Idle,
       currentSize := s.currentSize - (if size.Some? then size.value else 0),
       sizes := Drop(s.sizes, id),
       stored := s.stored[..at] + s.stored[at + 1..])
  }

  function Report(s: State): State
    requires !s.busy.Idle? && (s.busy.Wrote? ==> s.busy.hash in s.pending)
  {
    var h := s.busy.hash;
    match s.busy
    case Wrote(_) => s.(busy := Idle, pending := s.pending - {h}, stored := Put(s.stored, s.pending[h].id, h))
    case Erased(_) =>
      var at := Search(s.stored, h);
      if at.Some? then Settle(s, at.value) else s.(busy := Idle)
    case EraseFailed(_) => s.(busy := Idle)
  }

  // ---------------------------------------------------------------- runs

  datatype Step = CallStore(bundle: Bundle) | CallRemove(id: BundleId) | Expires(id: BundleId) | DoTask | DoReport

  /** Each identifier is stored at most once, and the writer reports only what it has on its hands. */
  predicate Enabled(s: State, step: Step) {
    match step
    case CallStore(b) => b.id !in s.history
    case CallRemove(_) => true
    case Expires(_) => true
    case DoTask => s.busy.Idle? && s.tasks != []
    case DoReport => !s.busy.Idle? && (s.busy.Wrote? ==> s.busy.hash in s.pending)
  }

  function Apply(f: Naming, s: State, step: Step): State
    requires Enabled(s, step)
  {
    match step
    case CallStore(b) => Store(f, s, b)
    case CallRemove(id) => Remove(f, s, id)
    case Expires(id) => Expire(f, s, id)
    case DoTask => Work(s)
    case DoReport => Report(s)
  }

  /** The identifiers of a step are from `ids`. */
  predicate Concerns(ids: iset<BundleId>, step: Step) {
    && (step.CallStore? ==> step.bundle.id in ids)
    && (step.CallRemove? || step.Expires? ==> step.id in ids)
  }

  /** A run over some identifiers, with the steps taken. */
  ghost predicate IsRun(f: Naming, ids: iset<BundleId>, maxSize: nat, run: seq<State>, steps: seq<Step>) {
    && |run| == |steps| + 1 && run[0] == Initial(maxSize)
    && forall i :: 0 <= i < |steps| ==>
         Concerns(ids, steps[i]) && Enabled(run[i], steps[i]) && run[i + 1] == Apply(f, run[i], steps[i])
  }

  // ---------------------------------------------------------------- the storage object

  /** The storage with its writer: the methods that callers use and the steps of the writer thread. */
  class SimpleBundleStorage {
    var index: seq<BundleId>
    var pending: map<Hash, Bundle>
    var stored: Table<Hash>
    var sizes: Table<nat>
    var currentSize: int
    const maxSize: nat
    var tasks: seq<Task>
    var files: map<Hash, Bundle>
    var busy: Busy
    ghost var history: map<BundleId, Bundle>
    ghost var seen: map<BundleId, Bundle>

    ghost function Value(): State
      reads this
    {
      State(index, pending, stored, sizes, currentSize, maxSize, tasks, files, busy, history, seen)
    }

    constructor (limit: nat)
      ensures Value() == Initial(limit)
    {
      index, pending, stored, sizes := [], map[], [], [];
      currentSize, maxSize := 0, limit;
      tasks, files, busy, history, seen := [], map[], Idle, map[], map[];
    }

    method HashFor(id: BundleId) returns (h: Hash)
      ensures h == FileName(id)
    {
      h := ComputeHash(NameOf(id));
    }

    method Admit(b: Bundle, h: Hash)
      modifies this
      ensures Value() == Admitted(old(Value()), b, h)
    {
      pending := pending[h := b];
      sizes := Put(sizes, b.id, b.size);
      currentSize := currentSize + b.size;
      index := Insert(IdLess, index, b.id);
      tasks := tasks + [StoreTask(h, b)];
      history, seen := history[b.id := b], seen[b.id := b];
    }

    method StoreBundle(b: Bundle) returns (accepted: bool)
      modifies this
      ensures Value() == Store(FileName, old(Value()), b)
      ensures accepted <==> maxSize == 0 || old(currentSize) + b.size <= maxSize
      ensures !accepted ==> Value() == old(Value())
      ensures accepted ==> currentSize == old(currentSize) + b.size && tasks == old(tasks) + [StoreTask(FileName(b.id), b)]
    {
      var h := HashFor(b.id);
      if maxSize > 0 && currentSize + b.size > maxSize { return false; }
      Admit(b, h);
      accepted := true;
    }

    /** The loops over the index. */
    method FindFirst(wanted: BundleId -> bool) returns (found: Option<BundleId>)
      ensures found == FirstOf(index, wanted)
    {
      for i := 0 to |index|
        invariant FirstOf(index, wanted) == FirstOf(index[i..], wanted)
      {
        assert index[i..][1..] == index[i + 1..];
        if wanted(index[i]) { return Some(index[i]); }
      }
      return None;
    }

    method RemoveBundle(id: BundleId) returns (found: bool)
      modifies this
      ensures Value() == Remove(FileName, old(Value()), id)
      ensures found <==> exists e :: e in old(index) && IdSame(e, id)
    {
      var entry := FindFirst(EntryIs(id));
      found := entry.Some?;
      seen := seen - {id};
      if found {
        index := Erase(IdLess, index, entry.value);
        var h := HashFor(entry.value);
        tasks := tasks + [RemoveTask(h)];
      }
    }

    method EventBundleExpired(id: BundleId)
      modifies this
      ensures Value() == Expire(FileName, old(Value()), id)
    {
      var entry := FindFirst(EntryIs(id));
      seen := seen - {id};
      if entry.Some? {
        var h := HashFor(entry.value);
        tasks := tasks + [RemoveTask(h)];
      }
      index := Erase(IdLess, index, id);
    }

    method GetBundle(id: BundleId) returns (r: Option<Bundle>)
      ensures r == Get(FileName, Value(), id)
    {
      var entry := FindFirst(SameAs(id));
      if entry.None? { return None; }
      var h := HashFor(entry.value);
      if h in pending { return Some(pending[h]); }
      if h in files { return Some(files[h]); }
      return None;
    }

    method RunTask()
      requires busy.Idle? && tasks != []
      modifies this
      ensures Value() == Work(old(Value()))
    {
      var t := tasks[0];
      tasks := tasks[1..];
      match t
      case StoreTask(h, b) =>
        files := files[h := b];
        busy := Wrote(h);
      case RemoveTask(h) =>
        if h in files {
          files := files - {h};
          busy := Erased(h);
        } else {
          busy := EraseFailed(h);
        }
    }

    method EventStored()
      requires busy.Wrote? && busy.hash in pending
      modifies this
      ensures Value() == Report(old(Value()))
    {
      var h := busy.hash;
      var b := pending[h];
      pending := pending - {h};
      stored := Put(stored, b.id, h);
      busy := Idle;
    }

    /** The loop that looks for the erased file's name among the stored bundles. */
    method SearchStored(h: Hash) returns (at: Option<nat>)
      ensures at == Search(stored, h)
    {
      for i := 0 to |stored|
        invariant Search(stored, h) == if Search(stored[i..], h).None? then None else Some(i + Search(stored[i..], h).value)
      {
        assert stored[i..][1..] == stored[i + 1..];
        if stored[i].value == h { return Some(i); }
      }
      return None;
    }

    method EventRemoved()
      requires busy.Erased?
      modifies this
      ensures Value() == Report(old(Value()))
      ensures forall at, size :: Search(old(stored), old(busy).hash) == Some(at)
                                 && Find(old(sizes), old(stored)[at].id) == size ==>
                currentSize == if size.Some? then old(currentSize) - size.value else old(currentSize)
    {
      var at := SearchStored(busy.hash);
      busy := Idle;
      if at.Some? {
        var id := stored[at.value].id;
        var size := Find(sizes, id);
        currentSize := currentSize - (if size.Some? then size.value else 0);
        sizes := Drop(sizes, id);
        stored := stored[..at.value] + stored[at.value + 1..];
      }
    }
  }
}
