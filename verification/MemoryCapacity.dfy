/**
 * The byte counter of the in-memory storage: when it covers what is held, and when it is exact. The lengths
 * are noted in a table ordered by identifier, and that order takes a whole bundle and its fragments for one.
 */
module MemoryCapacity {
  import opened ByteStrings
  import opened BundleOrder
  import opened BundleTables
  import opened MemoryStorage
  import opened OrderedSets
  import opened Selections
  import opened Sums

  /** The total length of the bundles held. */
  ghost function HeldBytes(s: State): nat {
    Sum(Lengths(s))
  }

  function Lengths(s: State): map<BundleId, nat> {
    map id | id in s.held :: s.held[id].length
  }

  // ---------------------------------------------------------------- the table of lengths

  /** Over identifiers that do not clash, entries of the table are shared by base and offset. */
  lemma AlikeMeans(ids: iset<BundleId>)
    requires Unclashing(ids)
    ensures forall a, b :: a in ids && b in ids ==> (Alike(a, b) <==> SameKey(a, b))
    ensures AlikeIsTransitive(ids)
  {
    forall a, b | a in ids && b in ids
      ensures Alike(a, b) <==> SameKey(a, b)
    {
      IdOrderByKeyIff(a, b);
      KeyIsTotal(a, b);
    }
  }

  lemma NotedAfterNote(ids: iset<BundleId>, notes: Table<nat>, x: BundleId, length: nat, y: BundleId)
    requires Unclashing(ids) && KeysFrom(ids, notes) && x in ids && y in ids
    ensures Noted(Put(notes, x, length), y) == if SameKey(x, y) then length else Noted(notes, y)
    ensures KeysFrom(ids, Put(notes, x, length))
  {
    AlikeMeans(ids);
    FindAfterPut(ids, notes, x, length, y);
    PutKeepsKeys(ids, notes, x, length);
  }

  lemma NotedAfterErasure(ids: iset<BundleId>, notes: Table<nat>, x: BundleId, y: BundleId)
    requires Unclashing(ids) && KeysFrom(ids, notes) && x in ids && y in ids && !SameKey(x, y)
    ensures Noted(Drop(notes, x), y) == Noted(notes, y)
  {
    AlikeMeans(ids);
    FindAfterDrop(ids, notes, x, y);
  }

  // ---------------------------------------------------------------- the invariant

  /** A bundle held was charged at least its length, and at least the length noted last. */
  predicate Charged(s: State, id: BundleId)
    requires id in s.held
  {
    id in s.charge && s.held[id].length <= s.charge[id] && Noted(s.lengths, id) <= s.charge[id]
  }

  ghost predicate SizeInv(ids: iset<BundleId>, s: State) {
    && KeysFrom(ids, s.lengths)
    && s.charge.Keys == s.held.Keys
    && (forall id :: id in s.held ==> Charged(s, id))
    && 0 <= s.leftover
    && s.currentSize == Sum(s.charge) + s.leftover
    && (s.maxSize == 0 || s.currentSize <= s.maxSize)
  }

  ghost predicate Inv(ids: iset<BundleId>, s: State) {
    HeldInv(ids, s) && SizeInv(ids, s)
  }

  lemma StoreNotes(ids: iset<BundleId>, s: State, b: Bundle, id: BundleId)
    requires Unclashing(ids) && b.id in ids && Inv(ids, s) && Fits(s, b.length) && id in s.held
    ensures var s' := Store(s, b);
            && id in s'.held && s'.held[id] == s.held[id] && id in s'.charge
            && (Twin(s.order, b.id) == Some(id) ==>
                 s'.charge[id] == s.charge[id] + b.length && Noted(s'.lengths, id) == b.length)
            && (Twin(s.order, b.id) != Some(id) ==>
                 s'.charge[id] == s.charge[id] && Noted(s'.lengths, id) == Noted(s.lengths, id))
  {
    var twin := Twin(s.order, b.id);
    TwinIff(ids, s, b.id);
    assert Charged(s, id);
    NotedAfterNote(ids, s.lengths, b.id, b.length, id);
    if twin.Some? && twin.value != id { HeldApart(ids, s, twin.value, id); }
  }

  lemma NewIsCharged(ids: iset<BundleId>, s: State, b: Bundle)
    requires Unclashing(ids) && b.id in ids && Inv(ids, s) && Fits(s, b.length) && Twin(s.order, b.id).None?
    ensures var s' := Store(s, b);
            && b.id !in s.held && s'.held == s.held[b.id := b] && s'.charge == s.charge[b.id := b.length]
            && Noted(s'.lengths, b.id) == b.length
  {
    TwinIff(ids, s, b.id);
    KeyIsTotal(b.id, b.id);
    NotedAfterNote(ids, s.lengths, b.id, b.length, b.id);
  }

  lemma StoreKeepsSum(s: State, b: Bundle)
    requires s.charge.Keys == s.held.Keys && Fits(s, b.length) && s.currentSize == Sum(s.charge) + s.leftover
    requires Twin(s.order, b.id).None? ==> b.id !in s.held
    requires Twin(s.order, b.id).Some? ==> Twin(s.order, b.id).value in s.held
    ensures Store(s, b).currentSize == Sum(Store(s, b).charge) + Store(s, b).leftover
    ensures Store(s, b).charge.Keys == Store(s, b).held.Keys
  {
    var twin, s' := Twin(s.order, b.id), Store(s, b);
    if twin.Some? {
      SumWithout(s.charge, twin.value);
      SumWithout(s'.charge, twin.value);
      assert s'.charge - {twin.value} == s.charge - {twin.value};
    } else {
      SumWith(s.charge, b.id, b.length);
    }
  }

  lemma StoreKeepsSize(ids: iset<BundleId>, s: State, b: Bundle)
    requires Unclashing(ids) && b.id in ids && Inv(ids, s)
    ensures SizeInv(ids, Store(s, b))
  {
    if Fits(s, b.length) {
      var s' := Store(s, b);
      TwinIff(ids, s, b.id);
      if Twin(s.order, b.id).None? { NewIsCharged(ids, s, b); }
      StoreKeepsSum(s, b);
      NotedAfterNote(ids, s.lengths, b.id, b.length, b.id);
      forall id | id in s'.held
        ensures Charged(s', id)
      {
        if id in s.held {
          StoreNotes(ids, s, b, id);
          assert Charged(s, id);
        }
      }
    }
  }

  /** Taking a bundle out, and its note with it or not, changes nothing for the others. */
  lemma TakeOutNotes(ids: iset<BundleId>, s: State, id: BundleId, amount: nat, other: BundleId)
    requires Unclashing(ids) && Inv(ids, s) && id in s.held && other in s.held && other != id
    ensures var s' := TakeOut(s, id, amount);
            other in s'.held && other in s'.charge && s'.held[other] == s.held[other] && s'.charge[other] == s.charge[other]
    ensures Noted(Drop(s.lengths, id), other) == Noted(s.lengths, other)
  {
    assert Charged(s, other);
    HeldApart(ids, s, id, other);
    NotedAfterErasure(ids, s.lengths, id, other);
  }

  lemma TakeOutKeepsSize(ids: iset<BundleId>, s: State, id: BundleId, amount: nat)
    requires Unclashing(ids) && Inv(ids, s) && id in s.held && amount <= s.charge[id]
    ensures SizeInv(ids, TakeOut(s, id, amount))
    ensures SizeInv(ids, TakeOut(s, id, amount).(lengths := Drop(s.lengths, id)))
  {
    var s' := TakeOut(s, id, amount);
    var s'' := s'.(lengths := Drop(s.lengths, id));
    SumWithout(s.charge, id);
    DropKeepsKeys(ids, s.lengths, id);
    forall other | other in s'.held
      ensures Charged(s', other) && Charged(s'', other)
    {
      assert Charged(s, other);
      TakeOutNotes(ids, s, id, amount, other);
    }
  }

  lemma StepKeepsSize(ids: iset<BundleId>, s: State, step: Step)
    requires Unclashing(ids) && Inv(ids, s) && StoresFrom(ids, step)
    ensures SizeInv(ids, Apply(s, step))
  {
    match step
    case StoreStep(b) => StoreKeepsSize(ids, s, b);
    case RemoveStep(id) =>
      var found := FirstOf(s.order, SameAs(id));
      if found.Some? {
        assert Charged(s, found.value);
        TakeOutKeepsSize(ids, s, found.value, s.held[found.value].length);
      }
    case FilterStep(filter) => RemoveNotedKeepsSize(ids, s, filter);
    case ExpireStep(id) => RemoveNotedKeepsSize(ids, s, SameAs(id));
    case ClearStep =>
  }

  lemma RemoveNotedKeepsSize(ids: iset<BundleId>, s: State, wanted: BundleId -> bool)
    requires Unclashing(ids) && Inv(ids, s)
    ensures SizeInv(ids, RemoveNoted(s, wanted))
  {
    var found := FirstOf(s.order, wanted);
    if found.Some? {
      assert Charged(s, found.value);
      TakeOutKeepsSize(ids, s, found.value, Noted(s.lengths, found.value));
    }
  }

  lemma {:induction false} StepsKeepSize(ids: iset<BundleId>, maxSize: nat, steps: seq<Step>)
    requires Unclashing(ids) && Over(ids, steps)
    ensures Inv(ids, After(maxSize, steps))
  {
    StepsKeepHeld(ids, maxSize, steps);
    if steps != [] {
      var k := |steps| - 1;
      StepsKeepSize(ids, maxSize, steps[..k]);
      StepKeepsSize(ids, After(maxSize, steps[..k]), steps[k]);
    }
  }

  // ---------------------------------------------------------------- what is accepted

  /** All that was charged and not given back. */
  ghost function ChargedBytes(s: State): int {
    Sum(s.charge) + s.leftover
  }

  lemma {:induction false} LimitStays(maxSize: nat, steps: seq<Step>)
    ensures After(maxSize, steps).maxSize == maxSize
  {
    if steps != [] { LimitStays(maxSize, steps[..|steps| - 1]); }
  }

  /** The state after a store, told by a key that is or is not held already. */
  ghost predicate StoredAs(s: State, b: Bundle, s': State) {
    && s'.currentSize == ChargedBytes(s') == ChargedBytes(s) + b.length
    && s'.held == if exists e :: e in s.held && SameKey(e, b.id) then s.held else s.held[b.id := b]
  }

  lemma FittingIsStored(ids: iset<BundleId>, s: State, b: Bundle)
    requires Unclashing(ids) && Inv(ids, s) && b.id in ids && Fits(s, b.length)
    ensures StoredAs(s, b, Store(s, b))
  {
    TwinIff(ids, s, b.id);
    StoreKeepsSize(ids, s, b);
    assert Store(s, b).currentSize == s.currentSize + b.length;
  }

  /**
   * In every run over identifiers that do not clash: a bundle is taken exactly if no limit is set or it fits
   * besides the bytes charged. Then its length is charged, and it is held unless one of its key was before; a
   * bundle that is not taken leaves everything as it was.
   */
  lemma TakenIff(ids: iset<BundleId>, maxSize: nat, steps: seq<Step>, b: Bundle)
    requires Unclashing(ids) && Over(ids, steps) && b.id in ids
    ensures var s, s' := After(maxSize, steps), After(maxSize, steps + [StoreStep(b)]);
            if maxSize == 0 || ChargedBytes(s) + b.length <= maxSize then StoredAs(s, b, s') else s' == s
  {
    var s := After(maxSize, steps);
    AfterNext(maxSize, steps, StoreStep(b));
    LimitStays(maxSize, steps);
    StepsKeepSize(ids, maxSize, steps);
    if Fits(s, b.length) { FittingIsStored(ids, s, b); }
  }

  // ---------------------------------------------------------------- when the counter covers what is held

  /** The counter is at least the bytes held, so it never underflows, and it keeps within the limit. */
  ghost predicate Covered(s: State) {
    HeldBytes(s) <= s.currentSize && (s.maxSize == 0 || s.currentSize <= s.maxSize)
  }

  lemma HeldBytesAreCovered(ids: iset<BundleId>, maxSize: nat, steps: seq<Step>)
    requires Unclashing(ids) && Over(ids, steps)
    ensures Covered(After(maxSize, steps))
  {
    StepsKeepSize(ids, maxSize, steps);
    var s := After(maxSize, steps);
    forall id | id in s.held
      ensures Lengths(s)[id] <= s.charge[id]
    {
      assert Charged(s, id);
    }
    SumIsMonotone(Lengths(s), s.charge);
  }

  /** Store a fragment of one byte and the whole bundle of two, filter the fragment out, remove the bundle. */
  function Mishap(part: BundleId, whole: BundleId): seq<Step> {
    [StoreStep(Bundle(part, 0, 1, [])), StoreStep(Bundle(whole, 0, 2, [])),
     FilterStep((e: BundleId) => e == part), RemoveStep(whole)]
  }

  lemma AfterNext(maxSize: nat, steps: seq<Step>, step: Step)
    ensures After(maxSize, steps + [step]) == Apply(After(maxSize, steps), step)
  {
    assert (steps + [step])[..|steps|] == steps;
  }

  lemma AfterTwo(maxSize: nat, steps: seq<Step>, a: Step, b: Step)
    ensures After(maxSize, (steps + [a]) + [b]) == Apply(Apply(After(maxSize, steps), a), b)
  {
    AfterNext(maxSize, steps, a);
    AfterNext(maxSize, steps + [a], b);
  }

  lemma AfterFour(maxSize: nat, a: Step, b: Step, c: Step, d: Step)
    ensures After(maxSize, [a, b, c, d]) == Apply(Apply(Apply(Apply(Initial(maxSize), a), b), c), d)
  {
    AfterTwo(maxSize, [], a, b);
    AfterTwo(maxSize, ([] + [a]) + [b], c, d);
    assert ((([] + [a]) + [b]) + [c]) + [d] == [a, b, c, d];
  }

  lemma MishapStates(part: BundleId, whole: BundleId)
    requires Canonical(whole) && Clash(part, whole) && part.fragment
    ensures After(0, Mishap(part, whole)).held == map[] && After(0, Mishap(part, whole)).currentSize == -1
  {
    var steps := Mishap(part, whole);
    var a, b, c, d := steps[0], steps[1], steps[2], steps[3];
    AfterFour(0, a, b, c, d);
    assert steps == [a, b, c, d];
    MishapApplied(part, whole, c.filter);
  }

  lemma MishapApplied(part: BundleId, whole: BundleId, filter: BundleId -> bool)
    requires Canonical(whole) && Clash(part, whole) && part.fragment && forall e :: filter(e) <==> e == part
    ensures var f, w := Bundle(part, 0, 1, []), Bundle(whole, 0, 2, []);
            var s := RemoveById(RemoveNoted(Store(Store(Initial(0), f), w), filter), whole);
            s.held == map[] && s.currentSize == -1
  {
    SecondStored(part, whole);
    FilteredOut(part, whole, filter);
  }

  function Both(part: BundleId, whole: BundleId): State {
    var f, w := Bundle(part, 0, 1, []), Bundle(whole, 0, 2, []);
    State([whole, part], map[part := f, whole := w], [MetaOf(w), MetaOf(f)], [Entry(part, 2)], 3, 0,
          map[part := 1, whole := 2], 0)
  }

  lemma FirstStored(part: BundleId, whole: BundleId)
    ensures var f := Bundle(part, 0, 1, []);
            Store(Initial(0), f) == State([part], map[part := f], [MetaOf(f)], [Entry(part, 1)], 1, 0, map[part := 1], 0)
  {}

  lemma SecondStored(part: BundleId, whole: BundleId)
    requires Canonical(whole) && Clash(part, whole) && part.fragment
    ensures var f, w := Bundle(part, 0, 1, []), Bundle(whole, 0, 2, []);
            Store(Store(Initial(0), f), w) == Both(part, whole)
  {
    var f, w := Bundle(part, 0, 1, []), Bundle(whole, 0, 2, []);
    FirstStored(part, whole);
    IdOrderByKeyIff(part, whole);
    OrdersByKey(part, whole);
    OrdersByKey(whole, part);
    KeyIsTotal(part, whole);
    var s := Store(Initial(0), f);
    assert Twin([part], whole) == None;
    assert Insert(PrimaryLess, [part], whole) == [whole, part];
    assert Insert(Before, [MetaOf(f)], MetaOf(w)) == [MetaOf(w), MetaOf(f)];
    assert Put([Entry(part, 1)], whole, 2) == [Entry(part, 2)];
  }

  lemma FilteredOut(part: BundleId, whole: BundleId, filter: BundleId -> bool)
    requires Canonical(whole) && Clash(part, whole) && part.fragment
    requires forall e :: filter(e) <==> e == part
    ensures var s, w := RemoveNoted(Both(part, whole), filter), Bundle(whole, 0, 2, []);
            && s.order == [whole] && s.held == map[whole := w] && s.currentSize == 1 && s.maxSize == 0
            && RemoveById(s, whole).held == map[] && RemoveById(s, whole).currentSize == -1
  {
    var s := Both(part, whole);
    OrdersByKey(part, whole);
    OrdersByKey(whole, part);
    KeyIsTotal(part, whole);
    KeyIsTotal(part, part);
    PrimaryMeans(part, part);
    BaseIsTotal(part, part);
    assert FirstOf([whole, part], filter) == Some(part) by {
      assert [whole, part][1..] == [part];
    }
    assert Noted(s.lengths, part) == 2;
    assert Erase(PrimaryLess, [whole, part], part) == [whole] by {
      assert [whole, part][1..] == [part];
    }
    assert IdSame(whole, whole);
    assert FirstOf([whole], SameAs(whole)) == Some(whole);
  }

  /**
   * For any identifiers: in every run the counter covers what is held, if and only if no fragment can clash
   * with a whole bundle of its base; and equally if and only if it never falls below zero.
   */
  lemma CoveredIff(ids: iset<BundleId>)
    requires AllCanonical(ids)
    ensures (forall maxSize: nat, steps :: Over(ids, steps) ==> Covered(After(maxSize, steps))) <==> Unclashing(ids)
    ensures (forall maxSize: nat, steps :: Over(ids, steps) ==> After(maxSize, steps).currentSize >= 0) <==> Unclashing(ids)
  {
    if Unclashing(ids) {
      forall maxSize: nat, steps | Over(ids, steps)
        ensures Covered(After(maxSize, steps))
      {
        HeldBytesAreCovered(ids, maxSize, steps);
      }
    } else {
      var a, b :| a in ids && b in ids && Clash(a, b);
      var part, whole := if a.fragment then a else b, if a.fragment then b else a;
      var steps := Mishap(part, whole);
      assert Over(ids, steps);
      MishapStates(part, whole);
      assert After(0, steps).currentSize < 0 && !Covered(After(0, steps));
    }
  }

  // ---------------------------------------------------------------- when it is exact

  /** A store that is accepted although the bundle, or one taken for it, is held. */
  ghost predicate Duplicates(s: State, step: Step) {
    step.StoreStep? && Fits(s, step.bundle.length) && exists e :: e in s.held && SameKey(e, step.bundle.id)
  }

  /** No duplicate was accepted since the storage was last cleared. */
  ghost predicate Clean(maxSize: nat, steps: seq<Step>) {
    steps == [] ||
    var k := |steps| - 1;
    steps[k].ClearStep? || (Clean(maxSize, steps[..k]) && !Duplicates(After(maxSize, steps[..k]), steps[k]))
  }

  /** A serialised bundle has at least one byte. */
  ghost predicate NonEmpty(steps: seq<Step>) {
    forall i :: 0 <= i < |steps| && steps[i].StoreStep? ==> steps[i].bundle.length > 0
  }

  predicate ExactlyCharged(s: State, id: BundleId)
    requires id in s.held
  {
    id in s.charge && s.held[id].length == s.charge[id] == Noted(s.lengths, id)
  }

  ghost predicate Exact(s: State) {
    s.leftover == 0 && forall id :: id in s.held ==> ExactlyCharged(s, id)
  }

  predicate Overcharged(s: State, id: BundleId) {
    id in s.held && id in s.charge && s.charge[id] > s.held[id].length && s.charge[id] > Noted(s.lengths, id)
  }

  /** Something was charged that will never be given back, whichever way the bundle goes. */
  ghost predicate Surplus(s: State) {
    s.leftover > 0 || exists id :: Overcharged(s, id)
  }

  lemma StoreKeepsExact(ids: iset<BundleId>, s: State, b: Bundle)
    requires Unclashing(ids) && Inv(ids, s) && b.id in ids && Exact(s) && !Duplicates(s, StoreStep(b))
    ensures Exact(Store(s, b))
  {
    if Fits(s, b.length) {
      var s' := Store(s, b);
      TwinIff(ids, s, b.id);
      NewIsCharged(ids, s, b);
      forall id | id in s'.held
        ensures ExactlyCharged(s', id)
      {
        if id in s.held {
          StoreNotes(ids, s, b, id);
          assert ExactlyCharged(s, id);
        }
      }
    }
  }

  lemma TakeOutKeepsExact(ids: iset<BundleId>, s: State, id: BundleId, amount: nat)
    requires Unclashing(ids) && Inv(ids, s) && Exact(s) && id in s.held && amount == s.charge[id]
    ensures Exact(TakeOut(s, id, amount))
    ensures Exact(TakeOut(s, id, amount).(lengths := Drop(s.lengths, id)))
  {
    var s' := TakeOut(s, id, amount);
    forall other | other in s'.held
      ensures ExactlyCharged(s', other)
      ensures ExactlyCharged(s'.(lengths := Drop(s.lengths, id)), other)
    {
      assert ExactlyCharged(s, other);
      TakeOutNotes(ids, s, id, amount, other);
    }
  }

  lemma StoreKeepsSurplus(ids: iset<BundleId>, s: State, b: Bundle)
    requires Unclashing(ids) && Inv(ids, s) && b.id in ids && Surplus(s)
    ensures Surplus(Store(s, b))
  {
    if Fits(s, b.length) && s.leftover == 0 {
      var id :| Overcharged(s, id);
      StoreNotes(ids, s, b, id);
      assert Overcharged(Store(s, b), id);
    }
  }

  lemma DuplicateGivesSurplus(ids: iset<BundleId>, s: State, b: Bundle)
    requires Unclashing(ids) && Inv(ids, s) && b.id in ids && b.length > 0 && Duplicates(s, StoreStep(b))
    requires NoEmptyHeld(s)
    ensures Surplus(Store(s, b))
  {
    TwinIff(ids, s, b.id);
    var id := Twin(s.order, b.id).value;
    assert Charged(s, id);
    StoreNotes(ids, s, b, id);
    assert Overcharged(Store(s, b), id);
  }

  lemma TakeOutKeepsSurplus(ids: iset<BundleId>, s: State, id: BundleId, amount: nat, s': State)
    requires Unclashing(ids) && Inv(ids, s) && Surplus(s) && id in s.held
    requires amount == s.held[id].length || amount == Noted(s.lengths, id)
    requires s' == TakeOut(s, id, amount) || s' == TakeOut(s, id, amount).(lengths := Drop(s.lengths, id))
    ensures Surplus(s')
  {
    assert Charged(s, id);
    if s.leftover == 0 {
      var other :| Overcharged(s, other);
      if other != id {
        TakeOutNotes(ids, s, id, amount, other);
        assert Overcharged(s', other);
      }
    }
  }

  lemma RemovalKeepsExact(ids: iset<BundleId>, s: State, step: Step)
    requires Unclashing(ids) && Inv(ids, s) && Exact(s) && (step.RemoveStep? || step.FilterStep? || step.ExpireStep?)
    ensures Exact(Apply(s, step))
  {
    var wanted := if step.FilterStep? then step.filter else SameAs(step.id);
    var found := FirstOf(s.order, wanted);
    if found.Some? {
      assert ExactlyCharged(s, found.value);
      TakeOutKeepsExact(ids, s, found.value, s.charge[found.value]);
    }
  }

  lemma RemovalKeepsSurplus(ids: iset<BundleId>, s: State, step: Step)
    requires Unclashing(ids) && Inv(ids, s) && Surplus(s) && (step.RemoveStep? || step.FilterStep? || step.ExpireStep?)
    ensures Surplus(Apply(s, step))
  {
    var wanted := if step.FilterStep? then step.filter else SameAs(step.id);
    var found := FirstOf(s.order, wanted);
    if found.Some? {
      var e := found.value;
      TakeOutKeepsSurplus(ids, s, e, if step.RemoveStep? then s.held[e].length else Noted(s.lengths, e), Apply(s, step));
    }
  }

  ghost predicate NoEmptyHeld(s: State) {
    forall id :: id in s.held ==> s.held[id].length > 0
  }

  lemma StepHoldsNonEmpty(s: State, step: Step)
    requires NoEmptyHeld(s) && (step.StoreStep? ==> step.bundle.length > 0)
    ensures NoEmptyHeld(Apply(s, step))
  {
    match step
    case StoreStep(b) => assert forall id :: id in Store(s, b).held ==> id == b.id || id in s.held;
    case RemoveStep(id) => assert forall e :: e in RemoveById(s, id).held ==> e in s.held;
    case _ =>
  }

  lemma {:induction false} HeldAreNonEmpty(maxSize: nat, steps: seq<Step>)
    requires NonEmpty(steps)
    ensures NoEmptyHeld(After(maxSize, steps))
  {
    if steps != [] {
      var k := |steps| - 1;
      HeldAreNonEmpty(maxSize, steps[..k]);
      StepHoldsNonEmpty(After(maxSize, steps[..k]), steps[k]);
    }
  }

  lemma {:induction false} ExactOrSurplus(ids: iset<BundleId>, maxSize: nat, steps: seq<Step>)
    requires Unclashing(ids) && Over(ids, steps) && NonEmpty(steps)
    ensures Clean(maxSize, steps) ==> Exact(After(maxSize, steps))
    ensures !Clean(maxSize, steps) ==> Surplus(After(maxSize, steps))
  {
    if steps != [] {
      var k := |steps| - 1;
      var s, step := After(maxSize, steps[..k]), steps[k];
      ExactOrSurplus(ids, maxSize, steps[..k]);
      StepsKeepSize(ids, maxSize, steps[..k]);
      HeldAreNonEmpty(maxSize, steps[..k]);
      if step.StoreStep? {
        if !Clean(maxSize, steps[..k]) {
          StoreKeepsSurplus(ids, s, step.bundle);
        } else if Duplicates(s, step) {
          DuplicateGivesSurplus(ids, s, step.bundle);
        } else {
          StoreKeepsExact(ids, s, step.bundle);
        }
      } else if !step.ClearStep? {
        if Clean(maxSize, steps[..k]) { RemovalKeepsExact(ids, s, step); } else { RemovalKeepsSurplus(ids, s, step); }
      }
    }
  }

  lemma ExactMeansEqual(ids: iset<BundleId>, s: State)
    requires SizeInv(ids, s) && Exact(s)
    ensures s.currentSize == HeldBytes(s)
  {
    forall id | id in s.held
      ensures Lengths(s)[id] == s.charge[id]
    {
      assert ExactlyCharged(s, id);
    }
    assert Lengths(s) == s.charge;
  }

  lemma SurplusMeansMore(ids: iset<BundleId>, s: State)
    requires SizeInv(ids, s) && Surplus(s)
    ensures s.currentSize > HeldBytes(s)
  {
    forall id | id in s.held
      ensures Lengths(s)[id] <= s.charge[id]
    {
      assert Charged(s, id);
    }
    SumIsMonotone(Lengths(s), s.charge);
    if s.leftover == 0 {
      var id :| Overcharged(s, id);
      SumIsStrict(Lengths(s), s.charge, id);
    }
  }

  /**
   * In every run over identifiers that do not clash the counter is exactly the bytes held, if and only if no
   * duplicate was accepted since the storage was last cleared.
   */
  lemma SizeIsExactIff(ids: iset<BundleId>, maxSize: nat, steps: seq<Step>)
    requires Unclashing(ids) && Over(ids, steps) && NonEmpty(steps)
    ensures After(maxSize, steps).currentSize == HeldBytes(After(maxSize, steps)) <==> Clean(maxSize, steps)
  {
    StepsKeepSize(ids, maxSize, steps);
    ExactOrSurplus(ids, maxSize, steps);
    if Clean(maxSize, steps) {
      ExactMeansEqual(ids, After(maxSize, steps));
    } else {
      SurplusMeansMore(ids, After(maxSize, steps));
    }
  }

  /** Without duplicates, then, a bundle is taken exactly if it fits besides the bytes held. */
  lemma TakenIffRoom(ids: iset<BundleId>, maxSize: nat, steps: seq<Step>, b: Bundle)
    requires Unclashing(ids) && Over(ids, steps) && b.id in ids
    requires NonEmpty(steps) && b.length > 0 && Clean(maxSize, steps)
    requires forall e :: e in After(maxSize, steps).held ==> !SameKey(e, b.id)
    ensures b.id in After(maxSize, steps + [StoreStep(b)]).held
            <==> maxSize == 0 || HeldBytes(After(maxSize, steps)) + b.length <= maxSize
  {
    var s := After(maxSize, steps);
    TakenIff(ids, maxSize, steps, b);
    StepsKeepSize(ids, maxSize, steps);
    SizeIsExactIff(ids, maxSize, steps);
    KeyIsTotal(b.id, b.id);
  }
}
