/**
 * What the file storage guarantees, and exactly for which identifiers: lookups answer from a plain map and the
 * size counter is exact in every run, if and only if no fragment shares its base with a whole bundle.
 */
module FileStorageResults {
  import opened BundleNames
  import opened BundleOrder
  import opened BundleTables
  import opened ByteStrings
  import opened FileStorage
  import opened FileStorageRefinement
  import opened HexKeys
  import opened OrderedSets
  import opened Selections
  import opened Sums

  /** A run of the daemon's storage over some identifiers. */
  ghost predicate IsStorageRun(ids: iset<BundleId>, maxSize: nat, run: seq<State>, steps: seq<Step>) {
    IsRun(FileName, ids, maxSize, run, steps)
  }

  lemma StorageRunKeeps(ids: iset<BundleId>, maxSize: nat, run: seq<State>, steps: seq<Step>, i: nat)
    requires Unmixed(ids) && IsStorageRun(ids, maxSize, run, steps) && i < |run|
    ensures Plain(FileName, ids) && Inv(FileName, ids, run[i])
  {
    FileNamesTellApart(ids);
    RunKeeps(FileName, ids, maxSize, run, steps, i);
  }

  // ---------------------------------------------------------------- lookups

  /** Lookups answer from the map of what was accepted and not removed or expired. */
  ghost predicate LooksUp(ids: iset<BundleId>, s: State) {
    forall k :: k in ids ==> Get(FileName, s, k) == Lookup(s.seen, k)
  }

  lemma GetFinds(f: Naming, s: State, k: BundleId)
    requires k in s.history && IdInv(f, s, k) && k in s.index && FirstOf(s.index, SameAs(k)) == Some(k)
    ensures Get(f, s, k) == Some(s.history[k])
  {
    assert SlotAt(s, k, f(k)).visible;
  }

  lemma GetLooksUp(f: Naming, ids: iset<BundleId>, s: State, k: BundleId)
    requires Plain(f, ids) && IdsLegal(f, s) && TablesGood(ids, s) && SeenInv(s) && k in ids
    ensures Get(f, s, k) == Lookup(s.seen, k)
  {
    assert Within(s.index, ids);
    SearchIsExact(ids, s.index, k);
    if k in s.index {
      assert IdInv(f, s, k);
      GetFinds(f, s, k);
    }
  }

  /** In every interleaving over unmixed identifiers lookups answer from the plain map. */
  lemma RefinesMap(ids: iset<BundleId>, maxSize: nat, run: seq<State>, steps: seq<Step>, i: nat)
    requires Unmixed(ids) && IsStorageRun(ids, maxSize, run, steps) && i < |run|
    ensures LooksUp(ids, run[i])
  {
    StorageRunKeeps(ids, maxSize, run, steps, i);
    forall k | k in ids
      ensures Get(FileName, run[i], k) == Lookup(run[i].seen, k)
    {
      GetLooksUp(FileName, ids, run[i], k);
    }
  }

  predicate Removes(step: Step, id: BundleId) {
    (step.CallRemove? || step.Expires?) && step.id == id
  }

  lemma SeenAfter(f: Naming, s: State, step: Step, id: BundleId)
    requires Enabled(s, step) && id in s.history && !Removes(step, id)
    ensures Lookup(Apply(f, s, step).seen, id) == Lookup(s.seen, id)
    ensures id in Apply(f, s, step).history
  {
    match step
    case CallStore(b) =>
    case CallRemove(other) => assert Remove(f, s, other).seen == s.seen - {other};
    case Expires(other) => assert Expire(f, s, other).seen == s.seen - {other};
    case DoTask => WorkFrame(s);
    case DoReport => ReportFrame(s);
  }

  lemma ReportFrame(s: State)
    requires Enabled(s, DoReport)
    ensures Report(s).seen == s.seen && Report(s).history == s.history
  {}

  /** The limit is the same throughout a run. */
  lemma {:induction false} LimitStays(ids: iset<BundleId>, maxSize: nat, run: seq<State>, steps: seq<Step>, i: nat)
    requires IsStorageRun(ids, maxSize, run, steps) && i < |run|
    ensures run[i].maxSize == maxSize
  {
    if i > 0 {
      LimitStays(ids, maxSize, run, steps, i - 1);
      LimitKept(FileName, run[i - 1], steps[i - 1]);
    }
  }

  lemma LimitKept(f: Naming, s: State, step: Step)
    requires Enabled(s, step)
    ensures Apply(f, s, step).maxSize == s.maxSize
  {
    match step
    case CallStore(b) =>
    case CallRemove(id) => assert Remove(f, s, id).maxSize == s.maxSize;
    case Expires(id) => assert Expire(f, s, id).maxSize == s.maxSize;
    case DoTask => WorkFrame(s);
    case DoReport => assert Report(s).maxSize == s.maxSize;
  }

  /** There is room for as many bytes besides everything that is pending or on disk. */
  ghost predicate HasRoom(maxSize: nat, s: State, size: nat) {
    maxSize == 0 || Sum(Occupied(FileName, s)) + size <= maxSize
  }

  /**
   * In every run over unmixed identifiers a new bundle is accepted exactly if no limit is set, or it fits
   * besides the bundles that are pending or on disk; a refused one leaves everything as it was.
   */
  lemma AcceptedIff(ids: iset<BundleId>, maxSize: nat, run: seq<State>, steps: seq<Step>, i: nat, b: Bundle)
    requires Unmixed(ids) && IsStorageRun(ids, maxSize, run, steps) && i < |run|
    requires b.id in ids && b.id !in run[i].history
    ensures var s' := Apply(FileName, run[i], CallStore(b));
            && (b.id in s'.history <==> maxSize == 0 || Sum(Occupied(FileName, run[i])) + b.size <= maxSize)
            && (b.id in s'.history <==> Get(FileName, s', b.id) == Some(b))
            && (b.id !in s'.history ==> s' == run[i])
  {
    LimitStays(ids, maxSize, run, steps, i);
    StorageRunKeeps(ids, maxSize, run, steps, i);
    StepKeeps(FileName, ids, run[i], CallStore(b));
    GetLooksUp(FileName, ids, Apply(FileName, run[i], CallStore(b)), b.id);
  }

  lemma {:induction false} SeenKept(
    ids: iset<BundleId>, maxSize: nat, run: seq<State>, steps: seq<Step>, i: nat, j: nat, b: Bundle)
    requires IsStorageRun(ids, maxSize, run, steps) && i < j < |run|
    requires steps[i] == CallStore(b) && b.id in run[i + 1].history
    requires forall n :: i < n < j ==> !Removes(steps[n], b.id)
    ensures Lookup(run[j].seen, b.id) == Some(b) && b.id in run[j].history
    decreases j
  {
    if j > i + 1 {
      SeenKept(ids, maxSize, run, steps, i, j - 1, b);
      SeenAfter(FileName, run[j - 1], steps[j - 1], b.id);
    } else {
      assert Enabled(run[i], steps[i]) && run[j] == Apply(FileName, run[i], steps[i]);
    }
  }

  /**
   * Whatever callers and writer do in between: from the step that accepts a bundle until the first step that
   * removes it or lets it expire, a lookup returns exactly this bundle.
   */
  lemma StoredUntilRemoved(
    ids: iset<BundleId>, maxSize: nat, run: seq<State>, steps: seq<Step>, i: nat, j: nat, b: Bundle)
    requires Unmixed(ids) && IsStorageRun(ids, maxSize, run, steps) && i < j < |run|
    requires steps[i] == CallStore(b) && HasRoom(maxSize, run[i], b.size)
    requires forall n :: i < n < j ==> !Removes(steps[n], b.id)
    ensures Get(FileName, run[j], b.id) == Some(b)
  {
    assert Concerns(ids, steps[i]);
    AcceptedIff(ids, maxSize, run, steps, i, b);
    SeenKept(ids, maxSize, run, steps, i, j, b);
    RefinesMap(ids, maxSize, run, steps, j);
  }

  lemma UnseenAfter(f: Naming, s: State, step: Step, id: BundleId)
    requires Enabled(s, step) && id in s.history && (id !in s.seen || Removes(step, id))
    ensures id in Apply(f, s, step).history && id !in Apply(f, s, step).seen
  {
    match step
    case CallStore(b) =>
    case CallRemove(other) => assert Remove(f, s, other).seen == s.seen - {other};
    case Expires(other) => assert Expire(f, s, other).seen == s.seen - {other};
    case DoTask => WorkFrame(s);
    case DoReport => ReportFrame(s);
  }

  lemma {:induction false} UnseenKept(
    ids: iset<BundleId>, maxSize: nat, run: seq<State>, steps: seq<Step>, i: nat, j: nat, id: BundleId)
    requires IsStorageRun(ids, maxSize, run, steps) && i < j < |run| && Removes(steps[i], id) && id in run[i].history
    ensures id in run[j].history && id !in run[j].seen
    decreases j
  {
    if j > i + 1 { UnseenKept(ids, maxSize, run, steps, i, j - 1, id); }
    UnseenAfter(FileName, run[j - 1], steps[j - 1], id);
  }

  /** A bundle that was removed or has expired is never seen again. */
  lemma GoneOnceRemoved(
    ids: iset<BundleId>, maxSize: nat, run: seq<State>, steps: seq<Step>, i: nat, j: nat, id: BundleId)
    requires Unmixed(ids) && IsStorageRun(ids, maxSize, run, steps) && i < j < |run|
    requires Removes(steps[i], id) && id in run[i].history
    ensures Get(FileName, run[j], id) == None
  {
    UnseenKept(ids, maxSize, run, steps, i, j, id);
    RefinesMap(ids, maxSize, run, steps, j);
    assert Concerns(ids, steps[i]);
  }

  // ---------------------------------------------------------------- sizes, files and reports

  /** The counter is the total size of exactly the bundles that are pending or on disk. */
  ghost predicate SizeIsExact(s: State) {
    s.currentSize == Sum(Occupied(FileName, s))
  }

  lemma CounterIsExact(ids: iset<BundleId>, maxSize: nat, run: seq<State>, steps: seq<Step>, i: nat)
    requires Unmixed(ids) && IsStorageRun(ids, maxSize, run, steps) && i < |run|
    ensures SizeIsExact(run[i]) && run[i].currentSize >= 0
    ensures run[i].maxSize == 0 || run[i].currentSize <= run[i].maxSize
  {
    StorageRunKeeps(ids, maxSize, run, steps, i);
  }

  lemma LegalOnDisk(f: Naming, s: State, k: BundleId)
    requires k in s.history && IdInv(f, s, k) && OnDisk(s, f(k))
    ensures k in s.index || HasRemove(s.tasks, f(k)) || s.busy == Erased(f(k))
  {
    OnDiskFromSlot(s, k, f(k));
    var slot := SlotAt(s, k, f(k));
    assert slot.visible || slot.toRemove || slot.erased;
  }

  /** No file is left behind: what is not visible any more and not gone has its removal queued or under way. */
  lemma NothingIsForgotten(ids: iset<BundleId>, maxSize: nat, run: seq<State>, steps: seq<Step>, i: nat, k: BundleId)
    requires Unmixed(ids) && IsStorageRun(ids, maxSize, run, steps) && i < |run|
    requires k in run[i].history && OnDisk(run[i], FileName(k))
    ensures k in run[i].index || HasRemove(run[i].tasks, FileName(k)) || run[i].busy == Erased(FileName(k))
  {
    StorageRunKeeps(ids, maxSize, run, steps, i);
    assert IdInv(FileName, run[i], k);
    LegalOnDisk(FileName, run[i], k);
  }

  lemma ReportIsPossible(f: Naming, s: State)
    requires IdsLegal(f, s) && FilesKnown(f, s) && !s.busy.Idle? && !s.busy.EraseFailed?
    ensures Enabled(s, DoReport)
  {
    var owner := ReportOwner(f, s);
  }

  lemma CallsArePossible(s: State, id: BundleId)
    ensures Enabled(s, CallRemove(id)) && Enabled(s, Expires(id))
  {}

  /** The writer can always report, no erasure fails, and callers are never kept waiting. */
  lemma WriterIsNeverStuck(ids: iset<BundleId>, maxSize: nat, run: seq<State>, steps: seq<Step>, i: nat, id: BundleId)
    requires Unmixed(ids) && IsStorageRun(ids, maxSize, run, steps) && i < |run|
    ensures run[i].busy.Idle? || Enabled(run[i], DoReport)
    ensures !run[i].busy.EraseFailed?
    ensures Enabled(run[i], CallRemove(id)) && Enabled(run[i], Expires(id))
  {
    StorageRunKeeps(ids, maxSize, run, steps, i);
    if !run[i].busy.Idle? { ReportIsPossible(FileName, run[i]); }
    CallsArePossible(run[i], id);
  }

  /** A report of an erased file settles exactly the bundle it belonged to, with its own size. */
  lemma ErasureSettlesOwner(ids: iset<BundleId>, maxSize: nat, run: seq<State>, steps: seq<Step>, i: nat) returns (owner: BundleId)
    requires Unmixed(ids) && IsStorageRun(ids, maxSize, run, steps) && i < |run| && run[i].busy.Erased?
    ensures owner in run[i].history && FileName(owner) == run[i].busy.hash
    ensures Report(run[i]) == Forgotten(run[i], owner, run[i].history[owner].size)
  {
    StorageRunKeeps(ids, maxSize, run, steps, i);
    owner := ReportOwner(FileName, run[i]);
    ErasedReport(FileName, ids, run[i], owner);
  }

  // ---------------------------------------------------------------- a fragment and the whole bundle

  /** What a comparison of a whole bundle with a fragment of it comes to. */
  lemma MixedIsAlike(whole: BundleId, part: BundleId)
    requires Canonical(whole) && Mixed(whole, part) && part.fragment
    ensures Alike(whole, part) && Alike(part, whole) && Alike(whole, whole) && IdSame(whole, part) && whole != part
  {
    BaseIsTotal(whole, part);
    BaseIsTotal(whole, whole);
  }

  /** Store both, the whole bundle first. */
  function WholeFirst(whole: BundleId, part: BundleId): seq<Step> {
    [CallStore(Bundle(whole, 1, [])), CallStore(Bundle(part, 2, []))]
  }

  lemma AfterWhole(whole: BundleId, part: BundleId)
    requires Canonical(whole) && Mixed(whole, part) && part.fragment
    ensures var s := Store(FileName, Store(FileName, Initial(0), Bundle(whole, 1, [])), Bundle(part, 2, []));
            && s.index == [whole] && part in s.seen && s.seen[part] == Bundle(part, 2, [])
            && FileName(whole) in s.pending && s.pending[FileName(whole)].id == whole
  {
    MixedIsAlike(whole, part);
    var w, p := Bundle(whole, 1, []), Bundle(part, 2, []);
    assert Insert(IdLess, [], whole) == [whole] && Insert(IdLess, [whole], part) == [whole];
    if FileName(whole) == FileName(part) { FileNameIsInjective(whole, part); }
  }

  /** The fragment is accepted, and a lookup of it finds nothing or the whole bundle. */
  lemma FragmentIsLost(ids: iset<BundleId>, whole: BundleId, part: BundleId) returns (run: seq<State>, steps: seq<Step>)
    requires whole in ids && part in ids && Canonical(whole) && Mixed(whole, part) && part.fragment
    ensures IsStorageRun(ids, 0, run, steps) && !LooksUp(ids, run[|run| - 1])
  {
    steps := WholeFirst(whole, part);
    var s1 := Store(FileName, Initial(0), steps[0].bundle);
    var s2 := Store(FileName, s1, steps[1].bundle);
    run := [Initial(0), s1, s2];
    MixedIsAlike(whole, part);
    TwoStores(ids, steps[0].bundle, steps[1].bundle);
    NotFound(whole, part);
  }

  lemma TwoStores(ids: iset<BundleId>, a: Bundle, b: Bundle)
    requires a.id in ids && b.id in ids && a.id != b.id
    ensures var s1 := Store(FileName, Initial(0), a);
            IsStorageRun(ids, 0, [Initial(0), s1, Store(FileName, s1, b)], [CallStore(a), CallStore(b)])
  {
    assert Store(FileName, Initial(0), a).history == map[a.id := a];
  }

  lemma NotFound(whole: BundleId, part: BundleId)
    requires Canonical(whole) && Mixed(whole, part) && part.fragment
    ensures var s := Store(FileName, Store(FileName, Initial(0), Bundle(whole, 1, [])), Bundle(part, 2, []));
            Get(FileName, s, part) != Lookup(s.seen, part)
  {
    AfterWhole(whole, part);
    var s := Store(FileName, Store(FileName, Initial(0), Bundle(whole, 1, [])), Bundle(part, 2, []));
    assert Get(FileName, s, part) != Some(s.seen[part]);
  }

  /** Stored the other way round, a lookup of the whole bundle returns the fragment. */
  lemma FragmentInsteadOfWhole(whole: BundleId, part: BundleId)
    requires Canonical(whole) && Mixed(whole, part) && part.fragment
    ensures var w, p := Bundle(whole, 1, []), Bundle(part, 2, []);
            Get(FileName, Store(FileName, Store(FileName, Initial(0), p), w), whole) == Some(p)
  {
    MixedIsAlike(whole, part);
    var w, p := Bundle(whole, 1, []), Bundle(part, 2, []);
    assert Insert(IdLess, [], part) == [part] && Insert(IdLess, [part], whole) == [part];
    assert FirstOf([part], SameAs(whole)) == Some(part);
    if FileName(whole) == FileName(part) { FileNameIsInjective(whole, part); }
  }

  /**
   * The whole bundle is stored and removed, and before its file is erased the fragment is stored: it takes
   * over the note of the size, which is given back when the whole bundle's file is erased.
   */
  function Overwriting(whole: BundleId, part: BundleId): seq<Step> {
    [CallStore(Bundle(whole, 1, [])), CallRemove(whole), CallStore(Bundle(part, 2, [])), DoTask, DoReport, DoTask, DoReport]
  }

  /** The states of this run. */
  function Overwritten(whole: BundleId, part: BundleId, i: nat): State {
    var w, p, hw, hp := Bundle(whole, 1, []), Bundle(part, 2, []), FileName(whole), FileName(part);
    OverwrittenAt(w, p, hw, hp, i)
  }

  function OverwrittenAt(w: Bundle, p: Bundle, hw: Hash, hp: Hash, i: nat): State {
    var t1, t2, t3 := StoreTask(hw, w), RemoveTask(hw), StoreTask(hp, p);
    var both, none := map[w.id := w, p.id := p], map[];
    match i
    case 0 => Initial(0)
    case 1 => State([w.id], map[hw := w], [], [Entry(w.id, 1)], 1, 0, [t1], none, Idle, map[w.id := w], map[w.id := w])
    case 2 => State([], map[hw := w], [], [Entry(w.id, 1)], 1, 0, [t1, t2], none, Idle, map[w.id := w], map[])
    case 3 =>
      State([p.id], map[hw := w, hp := p], [], [Entry(w.id, 2)], 3, 0, [t1, t2, t3], none, Idle, both, map[p.id := p])
    case 4 =>
      State([p.id], map[hw := w, hp := p], [], [Entry(w.id, 2)], 3, 0, [t2, t3], map[hw := w], Wrote(hw), both, map[p.id := p])
    case 5 =>
      State([p.id], map[hp := p], [Entry(w.id, hw)], [Entry(w.id, 2)], 3, 0, [t2, t3], map[hw := w], Idle, both, map[p.id := p])
    case 6 =>
      State([p.id], map[hp := p], [Entry(w.id, hw)], [Entry(w.id, 2)], 3, 0, [t3], none, Erased(hw), both, map[p.id := p])
    case _ =>
      State([p.id], map[hp := p], [], [], 1, 0, [t3], none, Idle, both, map[p.id := p])
  }

  /** A whole bundle of one byte and a fragment of it of two. */
  ghost predicate MixedPair(f: Naming, w: Bundle, p: Bundle) {
    && w == Bundle(w.id, 1, []) && p == Bundle(p.id, 2, [])
    && Canonical(w.id) && Mixed(w.id, p.id) && p.id.fragment && f(w.id) != f(p.id)
  }

  lemma CallsOverwrite(f: Naming, w: Bundle, p: Bundle, hw: Hash, hp: Hash)
    requires MixedPair(f, w, p) && hw == f(w.id) && hp == f(p.id)
    ensures Store(f, OverwrittenAt(w, p, hw, hp, 0), w) == OverwrittenAt(w, p, hw, hp, 1)
    ensures Remove(f, OverwrittenAt(w, p, hw, hp, 1), w.id) == OverwrittenAt(w, p, hw, hp, 2)
    ensures Store(f, OverwrittenAt(w, p, hw, hp, 2), p) == OverwrittenAt(w, p, hw, hp, 3)
  {
    MixedIsAlike(w.id, p.id);
    assert IdSame(w.id, w.id);
    assert Insert(IdLess, [], w.id) == [w.id] && Insert(IdLess, [], p.id) == [p.id];
    assert FirstOf([w.id], EntryIs(w.id)) == Some(w.id);
    assert Erase(IdLess, [w.id], w.id) == [];
    assert Put([Entry(w.id, 1)], p.id, 2) == [Entry(w.id, 2)];
    assert map[w.id := w] - {w.id} == map[];
  }

  lemma WriterWrites(f: Naming, w: Bundle, p: Bundle, hw: Hash, hp: Hash)
    requires MixedPair(f, w, p) && hw == f(w.id) && hp == f(p.id)
    ensures Work(OverwrittenAt(w, p, hw, hp, 3)) == OverwrittenAt(w, p, hw, hp, 4)
    ensures Report(OverwrittenAt(w, p, hw, hp, 4)) == OverwrittenAt(w, p, hw, hp, 5)
  {
    var t1, t2, t3 := StoreTask(hw, w), RemoveTask(hw), StoreTask(hp, p);
    assert [t1, t2, t3][1..] == [t2, t3];
    assert map[hw := w, hp := p] - {hw} == map[hp := p];
  }

  lemma WriterErases(f: Naming, w: Bundle, p: Bundle, hw: Hash, hp: Hash)
    requires MixedPair(f, w, p) && hw == f(w.id) && hp == f(p.id)
    ensures Work(OverwrittenAt(w, p, hw, hp, 5)) == OverwrittenAt(w, p, hw, hp, 6)
    ensures Report(OverwrittenAt(w, p, hw, hp, 6)) == OverwrittenAt(w, p, hw, hp, 7)
  {
    MixedIsAlike(w.id, p.id);
    var t2, t3 := RemoveTask(hw), StoreTask(hp, p);
    assert [t2, t3][1..] == [t3];
    assert map[hw := w] - {hw} == map[];
    assert Find([Entry(w.id, 2)], w.id) == Some(2);
    assert Drop([Entry(w.id, 2)], w.id) == [];
    assert [Entry(w.id, hw)][..0] + [Entry(w.id, hw)][1..] == [];
  }

  lemma CallStep(f: Naming, w: Bundle, p: Bundle, i: nat)
    requires MixedPair(f, w, p) && i < 3
    ensures var s, s' := OverwrittenAt(w, p, f(w.id), f(p.id), i), OverwrittenAt(w, p, f(w.id), f(p.id), i + 1);
            var step := Overwriting(w.id, p.id)[i];
            Enabled(s, step) && Apply(f, s, step) == s'
  {
    MixedIsAlike(w.id, p.id);
    CallsOverwrite(f, w, p, f(w.id), f(p.id));
  }

  lemma WriterStep(f: Naming, w: Bundle, p: Bundle, i: nat)
    requires MixedPair(f, w, p) && 3 <= i < 7
    ensures var s, s' := OverwrittenAt(w, p, f(w.id), f(p.id), i), OverwrittenAt(w, p, f(w.id), f(p.id), i + 1);
            var step := Overwriting(w.id, p.id)[i];
            Enabled(s, step) && Apply(f, s, step) == s'
  {
    if i < 5 { WriterWrites(f, w, p, f(w.id), f(p.id)); } else { WriterErases(f, w, p, f(w.id), f(p.id)); }
  }

  lemma OverwrittenIsRun(ids: iset<BundleId>, whole: BundleId, part: BundleId) returns (run: seq<State>, steps: seq<Step>)
    requires whole in ids && part in ids && Canonical(whole) && Mixed(whole, part) && part.fragment
    ensures IsStorageRun(ids, 0, run, steps) && run[|run| - 1] == Overwritten(whole, part, 7)
  {
    steps := Overwriting(whole, part);
    run := seq(8, i requires 0 <= i < 8 => Overwritten(whole, part, i));
    forall i | 0 <= i < |steps|
      ensures Concerns(ids, steps[i]) && Enabled(run[i], steps[i]) && run[i + 1] == Apply(FileName, run[i], steps[i])
    {
      OverwritingStep(ids, whole, part, i);
    }
  }

  lemma OverwritingStep(ids: iset<BundleId>, whole: BundleId, part: BundleId, i: nat)
    requires whole in ids && part in ids && Canonical(whole) && Mixed(whole, part) && part.fragment && i < 7
    ensures var s, step := Overwritten(whole, part, i), Overwriting(whole, part)[i];
            Concerns(ids, step) && Enabled(s, step) && Overwritten(whole, part, i + 1) == Apply(FileName, s, step)
  {
    var w, p := Bundle(whole, 1, []), Bundle(part, 2, []);
    DistinctFiles(whole, part);
    if i < 3 { CallStep(FileName, w, p, i); } else { WriterStep(FileName, w, p, i); }
  }

  lemma DistinctFiles(whole: BundleId, part: BundleId)
    requires Canonical(whole) && Mixed(whole, part) && part.fragment
    ensures FileName(whole) != FileName(part)
  {
    if FileName(whole) == FileName(part) { FileNameIsInjective(whole, part); }
  }

  lemma OneWaits(f: Naming, w: Bundle, p: Bundle)
    requires w.id != p.id && f(w.id) != f(p.id) && p.size == 2
    ensures Occupied(f, OverwrittenAt(w, p, f(w.id), f(p.id), 7)) == map[p.id := 2]
  {
    var s := OverwrittenAt(w, p, f(w.id), f(p.id), 7);
    assert OnDisk(s, f(p.id)) && !OnDisk(s, f(w.id));
  }

  lemma SumOfOne(id: BundleId, size: nat)
    ensures Sum(map[id := size]) == size
  {
    SumWith(map[], id, size);
  }

  lemma LastCount(w: Bundle, p: Bundle, hw: Hash, hp: Hash)
    ensures OverwrittenAt(w, p, hw, hp, 7).currentSize == 1
  {}

  lemma OneCounted(f: Naming, w: Bundle, p: Bundle)
    requires w.id != p.id && f(w.id) != f(p.id) && p.size == 2
    ensures var s := OverwrittenAt(w, p, f(w.id), f(p.id), 7); s.currentSize == 1 && Sum(Occupied(f, s)) == 2
  {
    LastCount(w, p, f(w.id), f(p.id));
    OneWaits(f, w, p);
    SumOfOne(p.id, 2);
  }

  lemma OneIsCounted(whole: BundleId, part: BundleId)
    requires Canonical(whole) && Mixed(whole, part) && part.fragment
    ensures !SizeIsExact(Overwritten(whole, part, 7))
  {
    DistinctFiles(whole, part);
    OneCounted(FileName, Bundle(whole, 1, []), Bundle(part, 2, []));
  }

  /** Two bytes are waiting to be written, and one is counted. */
  lemma CounterFalls(ids: iset<BundleId>, whole: BundleId, part: BundleId) returns (run: seq<State>, steps: seq<Step>)
    requires whole in ids && part in ids && Canonical(whole) && Mixed(whole, part) && part.fragment
    ensures IsStorageRun(ids, 0, run, steps) && !SizeIsExact(run[|run| - 1])
  {
    run, steps := OverwrittenIsRun(ids, whole, part);
    OneIsCounted(whole, part);
  }

  // ---------------------------------------------------------------- the exact condition

  /**
   * For every set of identifiers: lookups answer from the plain map in all runs, if and only if no fragment
   * among them shares its base with a whole bundle; and the size counter is exact under the same condition.
   */
  lemma RefinesMapIff(ids: iset<BundleId>)
    requires AllCanonical(ids)
    ensures (forall maxSize: nat, run, steps, i: nat ::
               IsStorageRun(ids, maxSize, run, steps) && i < |run| ==> LooksUp(ids, run[i]))
            <==> Unmixed(ids)
  {
    if Unmixed(ids) {
      forall maxSize: nat, run, steps, i: nat | IsStorageRun(ids, maxSize, run, steps) && i < |run|
        ensures LooksUp(ids, run[i])
      {
        RefinesMap(ids, maxSize, run, steps, i);
      }
    } else {
      var a, b :| a in ids && b in ids && Mixed(a, b);
      var run, steps := FragmentIsLost(ids, if a.fragment then b else a, if a.fragment then a else b);
      assert IsStorageRun(ids, 0, run, steps) && !LooksUp(ids, run[|run| - 1]);
    }
  }

  lemma CounterIsExactIff(ids: iset<BundleId>)
    requires AllCanonical(ids)
    ensures (forall maxSize: nat, run, steps, i: nat ::
               IsStorageRun(ids, maxSize, run, steps) && i < |run| ==> SizeIsExact(run[i]))
            <==> Unmixed(ids)
  {
    if Unmixed(ids) {
      forall maxSize: nat, run, steps, i: nat | IsStorageRun(ids, maxSize, run, steps) && i < |run|
        ensures SizeIsExact(run[i])
      {
        CounterIsExact(ids, maxSize, run, steps, i);
      }
    } else {
      var a, b :| a in ids && b in ids && Mixed(a, b);
      var run, steps := CounterFalls(ids, if a.fragment then b else a, if a.fragment then a else b);
      assert IsStorageRun(ids, 0, run, steps) && !SizeIsExact(run[|run| - 1]);
    }
  }
}
