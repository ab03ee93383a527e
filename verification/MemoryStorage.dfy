/**
 * The in-memory bundle storage: bundles ordered by identifier, an index ordered by priority, and the bytes
 * they take. A duplicate is charged although it is not kept, and the ways to remove a bundle give back
 * different amounts.
 */
module MemoryStorage {
  import opened ByteStrings
  import opened BundleOrder
  import opened BundleTables
  import opened OrderedSets
  import opened Selections
  import opened Sums

  datatype Bundle = Bundle(id: BundleId, priority: int, length: nat, content: Bytes)

  datatype Meta = Meta(id: BundleId, priority: int)

  function MetaOf(b: Bundle): Meta {
    Meta(b.id, b.priority)
  }

  /** The order of the index: priority descending, then identifier. */
  predicate Before(x: Meta, y: Meta) {
    if x.priority == y.priority then IdGreater(y.id, x.id) else x.priority > y.priority
  }

  /** The length noted for an identifier, or for one that is taken for it. */
  function Noted(lengths: Table<nat>, id: BundleId): nat {
    var found := Find(lengths, id);
    if found.Some? then found.value else 0
  }

  /**
   * The set of bundles is kept as the ascending identifiers and the bundle behind each. The last two fields
   * are history: what was charged for each bundle held, and what was never given back.
   */
  datatype State = State(
    order: seq<BundleId>,
    held: map<BundleId, Bundle>,
    index: seq<Meta>,
    lengths: Table<nat>,
    currentSize: int,
    maxSize: nat,                   // 0 is "no limit"
    charge: map<BundleId, nat>,
    leftover: int)

  function Initial(maxSize: nat): State {
    State([], map[], [], [], 0, maxSize, map[], 0)
  }

  function ChargeOf(charge: map<BundleId, nat>, id: BundleId): nat {
    if id in charge then charge[id] else 0
  }

  // ---------------------------------------------------------------- operations

  predicate Fits(s: State, length: nat) {
    s.maxSize == 0 || s.currentSize + length <= s.maxSize
  }

  function TwinOf(id: BundleId): BundleId -> bool {
    e => Equivalent(PrimaryLess, e, id)
  }

  /** The bundle that is held in place of another one with this identifier. */
  function Twin(order: seq<BundleId>, id: BundleId): Option<BundleId> {
    FirstOf(order, TwinOf(id))
  }

  /** A bundle that has a twin is charged and not inserted. */
  function Inserted(s: State, b: Bundle): State {
    var twin := Twin(s.order, b.id);
    if twin.Some? then
      s.(charge := s.charge[twin.value := ChargeOf(s.charge, twin.value) + b.length])
    else
      s.(order := Insert(PrimaryLess, s.order, b.id), held := s.held[b.id := b],
         index := Insert(Before, s.index, MetaOf(b)), charge := s.charge[b.id := b.length])
  }

  function Store(s: State, b: Bundle): State {
    if !Fits(s, b.length) then s
    else
      var s' := s.(currentSize := s.currentSize + b.length, lengths := Put(s.lengths, b.id, b.length));
      Inserted(s', b)
  }

  function TakeOut(s: State, id: BundleId, amount: nat): State
    requires id in s.held
  {
    s.(order := Erase(PrimaryLess, s.order, id), held := s.held - {id},
       index := Erase(Before, s.index, MetaOf(s.held[id])), currentSize := s.currentSize - amount,
       charge := s.charge - {id}, leftover := s.leftover + ChargeOf(s.charge, id) - amount)
  }

  /** Whether a bundle is found under an identifier. */
  predicate RemovedById(s: State, id: BundleId) {
    var found := FirstOf(s.order, SameAs(id)); found.Some? && found.value in s.held
  }

  /** Removal by identifier gives back the length of the bundle. */
  function RemoveById(s: State, id: BundleId): State {
    var found := FirstOf(s.order, SameAs(id));
    if found.Some? && found.value in s.held then TakeOut(s, found.value, s.held[found.value].length) else s
  }

  /** Removal by filter and expiry give back the length noted last. */
  function RemoveNoted(s: State, wanted: BundleId -> bool): State {
    var found := FirstOf(s.order, wanted);
    if found.Some? && found.value in s.held then
      TakeOut(s, found.value, Noted(s.lengths, found.value)).(lengths := Drop(s.lengths, found.value))
    else s
  }

  function Clear(s: State): State {
    Initial(s.maxSize)
  }

  // ---------------------------------------------------------------- the object

  class MemoryBundleStorage {
    var order: seq<BundleId>
    var held: map<BundleId, Bundle>
    var priorityIndex: seq<Meta>
    var bundleLengths: Table<nat>
    var currentSize: int
    const maxSize: nat
    ghost var charge: map<BundleId, nat>
    ghost var leftover: int

    ghost function Value(): State
      reads this
    {
      State(order, held, priorityIndex, bundleLengths, currentSize, maxSize, charge, leftover)
    }

    constructor (limit: nat)
      ensures Value() == Initial(limit)
    {
      order, held, priorityIndex, bundleLengths := [], map[], [], [];
      currentSize, maxSize, charge, leftover := 0, limit, map[], 0;
    }

    /** The loop over the bundles in their order. */
    method FindFirst(wanted: BundleId -> bool) returns (found: Option<BundleId>)
      ensures found == FirstOf(order, wanted)
    {
      for i := 0 to |order|
        invariant FirstOf(order, wanted) == FirstOf(order[i..], wanted)
      {
        assert order[i..][1..] == order[i + 1..];
        if wanted(order[i]) { return Some(order[i]); }
      }
      return None;
    }

    /** A bundle without a twin enters the set and the index. */
    method InsertNew(b: Bundle)
      modifies this`order, this`held, this`priorityIndex, this`charge
      ensures order == Insert(PrimaryLess, old(order), b.id) && held == old(held)[b.id := b]
      ensures priorityIndex == Insert(Before, old(priorityIndex), MetaOf(b)) && charge == old(charge)[b.id := b.length]
    {
      order := Insert(PrimaryLess, order, b.id);
      held := held[b.id := b];
      priorityIndex := Insert(Before, priorityIndex, MetaOf(b));
      charge := charge[b.id := b.length];
    }

    /** Insertion into the set and, if that succeeds, into the index. */
    method InsertBundle(b: Bundle)
      modifies this`order, this`held, this`priorityIndex, this`charge
      ensures Value() == Inserted(old(Value()), b)
    {
      var twin := FindFirst(TwinOf(b.id));
      if twin.None? {
        InsertNew(b);
      } else {
        charge := charge[twin.value := ChargeOf(charge, twin.value) + b.length];
      }
    }

    method StoreBundle(b: Bundle) returns (stored: bool)
      modifies this
      ensures Value() == Store(old(Value()), b)
      ensures stored <==> maxSize == 0 || old(currentSize) + b.length <= maxSize
      ensures !stored ==> Value() == old(Value())
      ensures stored ==> currentSize == old(currentSize) + b.length
    {
      if maxSize > 0 && currentSize + b.length > maxSize { return false; }
      currentSize := currentSize + b.length;
      bundleLengths := Put(bundleLengths, b.id, b.length);
      InsertBundle(b);
      stored := true;
    }

    /** A bundle leaves the set and the index, and some bytes are given back. */
    method TakeOutBundle(e: BundleId, amount: nat)
      requires e in held
      modifies this`order, this`held, this`priorityIndex, this`currentSize, this`charge, this`leftover
      ensures Value() == TakeOut(old(Value()), e, amount)
    {
      priorityIndex := Erase(Before, priorityIndex, MetaOf(held[e]));
      currentSize := currentSize - amount;
      order := Erase(PrimaryLess, order, e);
      held := held - {e};
      leftover := leftover + ChargeOf(charge, e) - amount;
      charge := charge - {e};
    }

    method RemoveBundle(id: BundleId) returns (removed: bool)
      modifies this
      ensures Value() == RemoveById(old(Value()), id)
      ensures removed <==> RemovedById(old(Value()), id)
      ensures removed ==> exists e :: IdSame(id, e) && e in old(held) && held == old(held) - {e}
                                      && currentSize == old(currentSize) - old(held)[e].length
      ensures !removed ==> Value() == old(Value())
    {
      var found := FindFirst(SameAs(id));
      removed := found.Some? && found.value in held;
      if removed { TakeOutBundle(found.value, held[found.value].length); }
    }

    /** Removal of the first bundle in a filter, and of an expired one. */
    method RemoveFirst(wanted: BundleId -> bool) returns (removed: Option<Bundle>)
      modifies this
      ensures Value() == RemoveNoted(old(Value()), wanted)
      ensures removed.None? ==> Value() == old(Value())
      ensures removed.Some? ==> exists e :: wanted(e) && e in old(held) && removed.value == old(held)[e] && held == old(held) - {e}
                                            && currentSize == old(currentSize) - Noted(old(bundleLengths), e)
    {
      var found := FindFirst(wanted);
      if found.None? || found.value !in held { return None; }
      var e, b := found.value, held[found.value];
      TakeOutBundle(e, Noted(bundleLengths, e));
      bundleLengths := Drop(bundleLengths, e);
      assert wanted(e);
      return Some(b);
    }

    method GetFiltered(limit: nat, shouldAdd: Meta -> bool) returns (result: seq<Meta>)
      ensures result == UpTo(Select(priorityIndex, shouldAdd), limit)
    {
      result := [];
      var i := 0;
      while i < |priorityIndex| && (limit == 0 || |result| < limit)
        invariant 0 <= i <= |priorityIndex|
        invariant result == Select(priorityIndex[..i], shouldAdd)
        invariant limit == 0 || |result| <= limit
      {
        SelectNext(priorityIndex, i, shouldAdd);
        if shouldAdd(priorityIndex[i]) { result := result + [priorityIndex[i]]; }
        i := i + 1;
      }
      EnoughSelected(priorityIndex, i, shouldAdd, limit);
    }
  }

  // ---------------------------------------------------------------- runs

  datatype Step =
    | StoreStep(bundle: Bundle)
    | RemoveStep(id: BundleId)
    | FilterStep(filter: BundleId -> bool)
    | ExpireStep(id: BundleId)
    | ClearStep

  function Apply(s: State, step: Step): State {
    match step
    case StoreStep(b) => Store(s, b)
    case RemoveStep(id) => RemoveById(s, id)
    case FilterStep(filter) => RemoveNoted(s, filter)
    case ExpireStep(id) => RemoveNoted(s, SameAs(id))
    case ClearStep => Clear(s)
  }

  function After(maxSize: nat, steps: seq<Step>): State {
    if steps == [] then Initial(maxSize)
    else var k := |steps| - 1; Apply(After(maxSize, steps[..k]), steps[k])
  }

  /** All bundles stored have identifiers from `ids`; removals may ask for any. */
  ghost predicate Over(ids: iset<BundleId>, steps: seq<Step>) {
    forall i :: 0 <= i < |steps| ==> StoresFrom(ids, steps[i])
  }

  ghost predicate StoresFrom(ids: iset<BundleId>, step: Step) {
    step.StoreStep? ==> step.bundle.id in ids
  }

  // ---------------------------------------------------------------- the orders

  ghost function Metas(ids: iset<BundleId>): iset<Meta> {
    iset m: Meta | m.id in ids
  }

  /** The comparison of the index is what it is meant to be. */
  lemma BeforeMeans(x: Meta, y: Meta)
    requires Canonical(x.id) && Canonical(y.id)
    ensures Before(x, y) <==> x.priority > y.priority || (x.priority == y.priority && KeyLess(x.id, y.id))
  {
    OrdersByKey(x.id, y.id);
  }

  lemma PrimaryMeans(a: BundleId, b: BundleId)
    requires Canonical(a) && Canonical(b)
    ensures Equivalent(PrimaryLess, a, b) <==> SameKey(a, b)
  {
    OrdersByKey(a, b);
    OrdersByKey(b, a);
    KeyIsTotal(a, b);
  }

  lemma EquivalentMetas(x: Meta, y: Meta)
    requires Canonical(x.id) && Canonical(y.id)
    ensures Equivalent(Before, x, y) <==> x.priority == y.priority && SameKey(x.id, y.id)
  {
    BeforeMeans(x, y);
    BeforeMeans(y, x);
    KeyIsTotal(x.id, y.id);
  }

  lemma PrimaryIsWeak(ids: iset<BundleId>)
    requires AllCanonical(ids)
    ensures WeakOrder(PrimaryLess, ids)
  {
    forall x, y | x in ids && y in ids
      ensures PrimaryLess(x, y) == KeyLess(x, y) && !PrimaryLess(x, x)
      ensures Equivalent(PrimaryLess, x, y) <==> SameKey(x, y)
    {
      OrdersByKey(x, y);
      OrdersByKey(x, x);
      KeyIsTotal(x, x);
      PrimaryMeans(x, y);
    }
    forall x, y, z | x in ids && y in ids && z in ids && PrimaryLess(x, y) && PrimaryLess(y, z)
      ensures PrimaryLess(x, z)
    {
      KeyIsTransitive(x, y, z);
    }
  }

  lemma PriorityIsWeak(ids: iset<BundleId>)
    requires AllCanonical(ids)
    ensures WeakOrder(Before, Metas(ids))
  {
    var metas := Metas(ids);
    forall x, y | x in metas && y in metas
      ensures Before(x, y) <==> x.priority > y.priority || (x.priority == y.priority && KeyLess(x.id, y.id))
      ensures Equivalent(Before, x, y) <==> x.priority == y.priority && SameKey(x.id, y.id)
      ensures !Before(x, x)
    {
      BeforeMeans(x, y);
      BeforeMeans(x, x);
      EquivalentMetas(x, y);
      KeyIsTotal(x.id, x.id);
    }
    forall x, y, z | x in metas && y in metas && z in metas && Before(x, y) && Before(y, z)
      ensures Before(x, z)
    {
      if KeyLess(x.id, y.id) && KeyLess(y.id, z.id) { KeyIsTransitive(x.id, y.id, z.id); }
    }
  }

  // ---------------------------------------------------------------- set and index

  ghost predicate HeldInv(ids: iset<BundleId>, s: State) {
    && (forall id :: id in s.held ==> id in ids && s.held[id].id == id)
    && (forall id :: id in s.order <==> id in s.held)
    && Ascending(PrimaryLess, s.order)
  }

  predicate IsHeld(held: map<BundleId, Bundle>, m: Meta) {
    m.id in held && held[m.id].priority == m.priority
  }

  ghost predicate IndexInv(s: State) {
    && (forall m :: m in s.index <==> IsHeld(s.held, m))
    && Ascending(Before, s.index)
  }

  /** Of two identifiers held, or of one held and one without a twin, none is taken for the other. */
  lemma HeldApart(ids: iset<BundleId>, s: State, a: BundleId, b: BundleId)
    requires AllCanonical(ids) && HeldInv(ids, s) && a in s.held && b in s.held && a != b
    ensures !SameKey(a, b)
  {
    var i :| 0 <= i < |s.order| && s.order[i] == a;
    var j :| 0 <= j < |s.order| && s.order[j] == b;
    PrimaryMeans(a, b);
    assert PrimaryLess(s.order[if i < j then i else j], s.order[if i < j then j else i]);
  }

  /** A bundle has a twin exactly if one with the same base and offset is held. */
  lemma TwinIff(ids: iset<BundleId>, s: State, id: BundleId)
    requires AllCanonical(ids) && HeldInv(ids, s) && Canonical(id)
    ensures Twin(s.order, id).Some? <==> exists e :: e in s.held && SameKey(e, id)
    ensures Twin(s.order, id).Some? ==> Twin(s.order, id).value in s.held && SameKey(Twin(s.order, id).value, id)
  {
    forall e | e in s.order
      ensures Equivalent(PrimaryLess, e, id) <==> SameKey(e, id)
    {
      PrimaryMeans(e, id);
    }
  }

  lemma NewInOrder(ids: iset<BundleId>, s: State, b: Bundle)
    requires AllCanonical(ids) && b.id in ids && HeldInv(ids, s) && Twin(s.order, b.id).None?
    ensures b.id !in s.held
    ensures Ascending(PrimaryLess, Insert(PrimaryLess, s.order, b.id))
    ensures forall id :: id in Insert(PrimaryLess, s.order, b.id) <==> id in s.held || id == b.id
  {
    PrimaryIsWeak(ids);
    InsertKeepsOrder(PrimaryLess, s.order, b.id, ids);
    KeyIsTotal(b.id, b.id);
    PrimaryMeans(b.id, b.id);
  }

  lemma NewInIndex(ids: iset<BundleId>, s: State, b: Bundle)
    requires AllCanonical(ids) && b.id in ids && HeldInv(ids, s) && IndexInv(s) && Twin(s.order, b.id).None?
    ensures Ascending(Before, Insert(Before, s.index, MetaOf(b)))
    ensures forall m :: m in Insert(Before, s.index, MetaOf(b)) <==> m in s.index || m == MetaOf(b)
  {
    PriorityIsWeak(ids);
    TwinIff(ids, s, b.id);
    forall m | m in s.index
      ensures !Equivalent(Before, m, MetaOf(b))
    {
      EquivalentMetas(m, MetaOf(b));
    }
    InsertKeepsOrder(Before, s.index, MetaOf(b), Metas(ids));
  }

  lemma StoreKeepsHeld(ids: iset<BundleId>, s: State, b: Bundle)
    requires AllCanonical(ids) && b.id in ids && HeldInv(ids, s) && IndexInv(s)
    ensures HeldInv(ids, Store(s, b)) && IndexInv(Store(s, b))
  {
    if Fits(s, b.length) && Twin(s.order, b.id).None? {
      NewInOrder(ids, s, b);
      NewInIndex(ids, s, b);
    }
  }

  lemma ErasedFromOrder(ids: iset<BundleId>, s: State, id: BundleId)
    requires AllCanonical(ids) && HeldInv(ids, s) && id in s.held
    ensures Ascending(PrimaryLess, Erase(PrimaryLess, s.order, id))
    ensures forall e :: e in Erase(PrimaryLess, s.order, id) <==> e in s.held && e != id
  {
    PrimaryIsWeak(ids);
    EraseKeepsOrder(PrimaryLess, s.order, id, ids);
    forall e | e in s.held
      ensures Equivalent(PrimaryLess, e, id) <==> e == id
    {
      PrimaryMeans(e, id);
      if e != id { HeldApart(ids, s, e, id); }
    }
  }

  lemma ErasedFromIndex(ids: iset<BundleId>, s: State, id: BundleId)
    requires AllCanonical(ids) && HeldInv(ids, s) && IndexInv(s) && id in s.held
    ensures Ascending(Before, Erase(Before, s.index, MetaOf(s.held[id])))
    ensures forall m :: m in Erase(Before, s.index, MetaOf(s.held[id])) <==> m in s.index && m.id != id
  {
    var x := MetaOf(s.held[id]);
    PriorityIsWeak(ids);
    EraseKeepsOrder(Before, s.index, x, Metas(ids));
    forall m | m in s.index
      ensures Equivalent(Before, m, x) <==> m.id == id
    {
      EquivalentMetas(m, x);
      if m.id != id { HeldApart(ids, s, m.id, id); }
    }
  }

  lemma TakeOutKeepsHeld(ids: iset<BundleId>, s: State, id: BundleId, amount: nat)
    requires AllCanonical(ids) && HeldInv(ids, s) && IndexInv(s) && id in s.held
    ensures HeldInv(ids, TakeOut(s, id, amount)) && IndexInv(TakeOut(s, id, amount))
  {
    ErasedFromOrder(ids, s, id);
    ErasedFromIndex(ids, s, id);
  }

  lemma StepKeepsHeld(ids: iset<BundleId>, s: State, step: Step)
    requires AllCanonical(ids) && HeldInv(ids, s) && IndexInv(s) && StoresFrom(ids, step)
    ensures HeldInv(ids, Apply(s, step)) && IndexInv(Apply(s, step))
  {
    match step
    case StoreStep(b) => StoreKeepsHeld(ids, s, b);
    case RemoveStep(id) =>
      var found := FirstOf(s.order, SameAs(id));
      if found.Some? { TakeOutKeepsHeld(ids, s, found.value, s.held[found.value].length); }
    case FilterStep(filter) => RemoveNotedKeepsHeld(ids, s, filter);
    case ExpireStep(id) => RemoveNotedKeepsHeld(ids, s, SameAs(id));
    case ClearStep =>
  }

  lemma RemoveNotedKeepsHeld(ids: iset<BundleId>, s: State, wanted: BundleId -> bool)
    requires AllCanonical(ids) && HeldInv(ids, s) && IndexInv(s)
    ensures HeldInv(ids, RemoveNoted(s, wanted)) && IndexInv(RemoveNoted(s, wanted))
  {
    var found := FirstOf(s.order, wanted);
    if found.Some? { TakeOutKeepsHeld(ids, s, found.value, Noted(s.lengths, found.value)); }
  }

  lemma {:induction false} StepsKeepHeld(ids: iset<BundleId>, maxSize: nat, steps: seq<Step>)
    requires AllCanonical(ids) && Over(ids, steps)
    ensures HeldInv(ids, After(maxSize, steps)) && IndexInv(After(maxSize, steps))
  {
    if steps != [] {
      var k := |steps| - 1;
      StepsKeepHeld(ids, maxSize, steps[..k]);
      StepKeepsHeld(ids, After(maxSize, steps[..k]), steps[k]);
    }
  }

  /** What a removal looks for. */
  function Sought(step: Step): BundleId -> bool
    requires step.RemoveStep? || step.FilterStep? || step.ExpireStep?
  {
    if step.FilterStep? then step.filter else SameAs(step.id)
  }

  /** The identifier is the smallest, by base and offset, of those held that are wanted. */
  ghost predicate IsFirstWanted(s: State, wanted: BundleId -> bool, e: BundleId) {
    && e in s.held && wanted(e)
    && forall other :: other in s.held && wanted(other) && other != e ==> KeyLess(e, other)
  }

  lemma LaterIsGreater(ids: iset<BundleId>, s: State, i: nat, j: nat)
    requires AllCanonical(ids) && HeldInv(ids, s) && i < j < |s.order|
    ensures KeyLess(s.order[i], s.order[j])
  {
    assert s.order[i] in s.order && s.order[j] in s.order;
    OrdersByKey(s.order[i], s.order[j]);
  }

  lemma FirstWanted(ids: iset<BundleId>, s: State, wanted: BundleId -> bool)
    requires AllCanonical(ids) && HeldInv(ids, s)
    ensures FirstOf(s.order, wanted).None? <==> forall e :: e in s.held ==> !wanted(e)
    ensures FirstOf(s.order, wanted).Some? ==> IsFirstWanted(s, wanted, FirstOf(s.order, wanted).value)
  {
    if FirstOf(s.order, wanted).Some? {
      var i := FirstIsFirst(s.order, wanted);
      forall other | other in s.held && wanted(other) && other != s.order[i]
        ensures KeyLess(s.order[i], other)
      {
        var j :| 0 <= j < |s.order| && s.order[j] == other;
        LaterIsGreater(ids, s, i, j);
      }
    }
  }

  /**
   * In every run: a removal takes out exactly the first bundle that is wanted, if there is any. Asked by
   * identifier it gives back the bundle's own length, otherwise the one noted last.
   */
  lemma RemovesFirstWanted(ids: iset<BundleId>, maxSize: nat, steps: seq<Step>, step: Step) returns (first: Option<BundleId>)
    requires AllCanonical(ids) && Over(ids, steps) && (step.RemoveStep? || step.FilterStep? || step.ExpireStep?)
    ensures var s, s' := After(maxSize, steps), After(maxSize, steps + [step]);
            && (first.None? <==> forall e :: e in s.held ==> !Sought(step)(e))
            && (first.None? ==> s' == s)
            && (first.Some? ==>
                 && IsFirstWanted(s, Sought(step), first.value) && s'.held == s.held - {first.value}
                 && s'.currentSize == s.currentSize - if step.RemoveStep? then s.held[first.value].length
                                                      else Noted(s.lengths, first.value))
  {
    var s := After(maxSize, steps);
    assert (steps + [step])[..|steps|] == steps;
    StepsKeepHeld(ids, maxSize, steps);
    FirstWanted(ids, s, Sought(step));
    first := FirstOf(s.order, Sought(step));
  }

  /** The index lists exactly the bundles held, in one order only. */
  lemma IndexIsSorted(ids: iset<BundleId>, maxSize: nat, steps: seq<Step>, sorted: seq<Meta>)
    requires AllCanonical(ids) && Over(ids, steps)
    requires Ascending(Before, sorted) && forall m :: m in sorted <==> IsHeld(After(maxSize, steps).held, m)
    ensures After(maxSize, steps).index == sorted
  {
    StepsKeepHeld(ids, maxSize, steps);
    PriorityIsWeak(ids);
    AscendingIsUnique(Before, After(maxSize, steps).index, sorted, Metas(ids));
  }
}
