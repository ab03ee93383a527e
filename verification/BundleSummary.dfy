/**
 * Which bundles a node knows: an exact list that forgets bundles when they expire, and a Bloom filter over
 * it. A lookup asks the filter first and the list only if the filter says yes. Removing a bundle leaves its
 * bits in the filter; they go when the filter is rebuilt after an expiry.
 */
module BundleSummary {
  import opened BundleOrder
  import opened OrderedSets

  /** The bits that the hash functions of the filter select for an identifier; nothing is assumed of them. */
  type Hashing = BundleId -> set<nat>

  datatype Entry = Entry(expiry: nat, id: BundleId)

  /** The order of the private list: by time of expiry, then identifier. */
  predicate SoonerThan(a: Entry, b: Entry) {
    a.expiry < b.expiry || (a.expiry == b.expiry && IdLess(a.id, b.id))
  }

  datatype Summary = Summary(
    entries: seq<Entry>,          // the private list, soonest first
    listed: set<BundleId>,        // the public list
    ids: set<BundleId>,           // the identifiers in the summary vector
    bits: set<nat>)               // its Bloom filter

  const EMPTY := Summary([], {}, {}, {})

  // ---------------------------------------------------------------- operations

  function Add(h: Hashing, s: Summary, e: Entry): Summary {
    s.(bits := s.bits + h(e.id), ids := s.ids + {e.id},
       entries := Insert(SoonerThan, s.entries, e), listed := s.listed + {e.id})
  }

  function Remove(s: Summary, e: Entry): Summary {
    s.(ids := s.ids - {e.id}, entries := Erase(SoonerThan, s.entries, e), listed := s.listed - {e.id})
  }

  /** The entries up to the first one that has not expired. */
  function Due(entries: seq<Entry>, time: nat): (n: nat)
    ensures n <= |entries|
  {
    if entries != [] && entries[0].expiry < time then 1 + Due(entries[1..], time) else 0
  }

  function IdsOf(entries: seq<Entry>): set<BundleId> {
    set e | e in entries :: e.id
  }

  /** All the bits of a set of identifiers. */
  ghost function BitsOf(h: Hashing, ids: set<BundleId>): set<nat> {
    set id, bit | id in ids && bit in h(id) :: bit
  }

  /** With no idea of time nothing expires; the filter is rebuilt only if something did. */
  ghost function Expire(h: Hashing, s: Summary, time: nat, timeKnown: bool): Summary {
    var n := Due(s.entries, time);
    if !timeKnown || n == 0 then s
    else
      var gone := IdsOf(s.entries[..n]);
      Summary(s.entries[n..], s.listed - gone, s.ids - gone, BitsOf(h, s.ids - gone))
  }

  predicate InVector(h: Hashing, s: Summary, id: BundleId) {
    h(id) <= s.bits
  }

  /** The list is searched with the comparison of identifiers, in which a whole bundle equals its fragments. */
  predicate InList(s: Summary, id: BundleId) {
    exists e :: e in s.listed && IdSame(e, id)
  }

  predicate Contains(h: Hashing, s: Summary, id: BundleId) {
    InVector(h, s, id) && InList(s, id)
  }

  class BundleSummaryList {
    const hashing: Hashing
    var entries: seq<Entry>
    var listed: set<BundleId>
    var ids: set<BundleId>
    var bits: set<nat>

    ghost function Value(): Summary
      reads this
    {
      Summary(entries, listed, ids, bits)
    }

    constructor (h: Hashing)
      ensures hashing == h && Value() == EMPTY
    {
      hashing, entries, listed, ids, bits := h, [], {}, {}, {};
    }

    /** The filter is emptied, and every identifier left is put in again. */
    method Commit()
      modifies this`bits
      ensures bits == BitsOf(hashing, ids)
    {
      bits := {};
      var rest := ids;
      while rest != {}
        invariant rest <= ids
        invariant bits == BitsOf(hashing, ids - rest)
      {
        var id :| id in rest;
        assert ids - (rest - {id}) == (ids - rest) + {id};
        bits := bits + hashing(id);
        rest := rest - {id};
      }
      assert ids - rest == ids;
    }

    method ExpireBundles(time: nat, timeKnown: bool)
      modifies this
      ensures Value() == Expire(hashing, old(Value()), time, timeKnown)
    {
      if !timeKnown { return; }
      var commit := false;
      ghost var n := 0;
      while |entries| > 0
        invariant n <= |old(entries)| && entries == old(entries)[n..]
        invariant Due(old(entries), time) == n + Due(entries, time)
        invariant listed == old(listed) - IdsOf(old(entries)[..n]) && ids == old(ids) - IdsOf(old(entries)[..n])
        invariant bits == old(bits) && commit == (n > 0)
        decreases |entries|
      {
        var e := entries[0];
        if e.expiry >= time { break; }
        IdsOfNext(old(entries), n);
        ids := ids - {e.id};
        listed := listed - {e.id};
        entries := entries[1..];
        commit := true;
        n := n + 1;
      }
      if commit { Commit(); }
    }

    method IsKnown(id: BundleId) returns (known: bool)
      ensures known == Contains(hashing, Value(), id)
    {
      if hashing(id) <= bits {
        known := exists e :: e in listed && IdSame(e, id);
      } else {
        known := false;
      }
    }
  }

  lemma IdsOfNext(entries: seq<Entry>, n: nat)
    requires n < |entries|
    ensures IdsOf(entries[..n + 1]) == IdsOf(entries[..n]) + {entries[n].id}
  {
    assert entries[..n + 1] == entries[..n] + [entries[n]];
  }

  // ---------------------------------------------------------------- what is known, without any filter

  /** The plain meaning: who was added and not removed, and what will expire when. */
  datatype Known = Known(pending: set<Entry>, listed: set<BundleId>)

  datatype Step =
    | AddStep(entry: Entry)
    | RemoveStep(entry: Entry)
    | ExpireStep(time: nat, timeKnown: bool)
    | ClearStep

  ghost function Apply(h: Hashing, s: Summary, step: Step): Summary {
    match step
    case AddStep(e) => Add(h, s, e)
    case RemoveStep(e) => Remove(s, e)
    case ExpireStep(time, timeKnown) => Expire(h, s, time, timeKnown)
    case ClearStep => EMPTY
  }

  ghost function ApplyPlainly(k: Known, step: Step): Known {
    match step
    case AddStep(e) => Known(k.pending + {e}, k.listed + {e.id})
    case RemoveStep(e) => Known(k.pending - {e}, k.listed - {e.id})
    case ExpireStep(time, timeKnown) =>
      if !timeKnown then k
      else
        var gone := set e | e in k.pending && e.expiry < time;
        Known(k.pending - gone, k.listed - set e | e in gone :: e.id)
    case ClearStep => Known({}, {})
  }

  ghost function AfterAll(h: Hashing, steps: seq<Step>): Summary {
    if steps == [] then EMPTY
    else var k := |steps| - 1; Apply(h, AfterAll(h, steps[..k]), steps[k])
  }

  ghost function KnownAfter(steps: seq<Step>): Known {
    if steps == [] then Known({}, {})
    else var k := |steps| - 1; ApplyPlainly(KnownAfter(steps[..k]), steps[k])
  }

  /** All bundles added or removed have identifiers from `universe`. */
  ghost predicate Concerns(universe: iset<BundleId>, steps: seq<Step>) {
    forall i :: 0 <= i < |steps| ==> ConcernsStep(universe, steps[i])
  }

  predicate ConcernsStep(universe: iset<BundleId>, step: Step) {
    step.AddStep? || step.RemoveStep? ==> step.entry.id in universe
  }

  // ---------------------------------------------------------------- the invariant

  ghost function Entries(universe: iset<BundleId>): iset<Entry> {
    iset e: Entry | e.id in universe
  }

  ghost predicate Inv(universe: iset<BundleId>, h: Hashing, s: Summary, k: Known) {
    && Ascending(SoonerThan, s.entries)
    && (forall e :: e in s.entries <==> e in k.pending)
    && (forall e :: e in k.pending ==> e.id in universe)
    && s.listed == k.listed && s.ids == k.listed
    && (forall id :: id in k.listed ==> id in universe && h(id) <= s.bits)
  }

  lemma SoonerIsTotal(universe: iset<BundleId>)
    requires Unmixed(universe)
    ensures StrictTotal(SoonerThan, Entries(universe))
  {
    var domain := Entries(universe);
    OrderIsTotalIff(universe);
    forall a, b | a in domain && b in domain && Equivalent(SoonerThan, a, b)
      ensures a == b
    {
      assert Equivalent(IdLess, a.id, b.id);
    }
  }

  lemma AddKeeps(universe: iset<BundleId>, h: Hashing, s: Summary, k: Known, e: Entry)
    requires Unmixed(universe) && Inv(universe, h, s, k) && e.id in universe
    ensures Inv(universe, h, Add(h, s, e), ApplyPlainly(k, AddStep(e)))
  {
    SoonerIsTotal(universe);
    StrictTotalIsWeak(SoonerThan, Entries(universe));
    InsertKeepsOrder(SoonerThan, s.entries, e, Entries(universe));
  }

  lemma RemoveKeeps(universe: iset<BundleId>, h: Hashing, s: Summary, k: Known, e: Entry)
    requires Unmixed(universe) && Inv(universe, h, s, k) && e.id in universe
    ensures Inv(universe, h, Remove(s, e), ApplyPlainly(k, RemoveStep(e)))
  {
    SoonerIsTotal(universe);
    StrictTotalIsWeak(SoonerThan, Entries(universe));
    EraseKeepsOrder(SoonerThan, s.entries, e, Entries(universe));
  }

  /** Stopping at the first entry that has not expired misses none. */
  lemma {:induction false} DueIsExact(entries: seq<Entry>, time: nat)
    requires Ascending(SoonerThan, entries)
    ensures var n := Due(entries, time);
            && (forall i :: 0 <= i < n ==> entries[i].expiry < time)
            && (forall i :: n <= i < |entries| ==> entries[i].expiry >= time)
  {
    if entries != [] && entries[0].expiry < time {
      DueIsExact(entries[1..], time);
      assert forall i :: 0 < i < |entries| ==> entries[i] == entries[1..][i - 1];
    }
  }

  lemma DueElements(entries: seq<Entry>, time: nat)
    requires Ascending(SoonerThan, entries)
    ensures var n := Due(entries, time);
            && (forall e :: e in entries[..n] <==> e in entries && e.expiry < time)
            && (forall e :: e in entries[n..] <==> e in entries && e.expiry >= time)
            && Ascending(SoonerThan, entries[n..])
  {
    var n := Due(entries, time);
    DueIsExact(entries, time);
    assert entries == entries[..n] + entries[n..];
  }

  /** The identifiers of the entries that expire are the same in both. */
  lemma ExpiredIds(entries: seq<Entry>, pending: set<Entry>, time: nat)
    requires Ascending(SoonerThan, entries) && forall e :: e in entries <==> e in pending
    ensures IdsOf(entries[..Due(entries, time)]) == set e | e in pending && e.expiry < time :: e.id
  {
    DueElements(entries, time);
    assert forall e :: e in entries[..Due(entries, time)] <==> e in pending && e.expiry < time;
  }

  lemma ExpireKeeps(universe: iset<BundleId>, h: Hashing, s: Summary, k: Known, time: nat)
    requires Inv(universe, h, s, k)
    ensures Inv(universe, h, Expire(h, s, time, true), ApplyPlainly(k, ExpireStep(time, true)))
  {
    var k' := ApplyPlainly(k, ExpireStep(time, true));
    DueElements(s.entries, time);
    ExpiredIds(s.entries, k.pending, time);
    var gone := set e | e in k.pending && e.expiry < time;
    assert (set e | e in gone :: e.id) == set e | e in k.pending && e.expiry < time :: e.id;
    if Due(s.entries, time) == 0 {
      assert s.entries[..0] == [] && s.entries[0..] == s.entries;
      assert k'.listed == k.listed;
    }
  }

  lemma StepKeeps(universe: iset<BundleId>, h: Hashing, s: Summary, k: Known, step: Step)
    requires Unmixed(universe) && Inv(universe, h, s, k) && ConcernsStep(universe, step)
    ensures Inv(universe, h, Apply(h, s, step), ApplyPlainly(k, step))
  {
    match step
    case AddStep(e) => AddKeeps(universe, h, s, k, e);
    case RemoveStep(e) => RemoveKeeps(universe, h, s, k, e);
    case ExpireStep(time, timeKnown) => if timeKnown { ExpireKeeps(universe, h, s, k, time); }
    case ClearStep =>
  }

  lemma {:induction false} StepsKeep(universe: iset<BundleId>, h: Hashing, steps: seq<Step>)
    requires Unmixed(universe) && Concerns(universe, steps)
    ensures Inv(universe, h, AfterAll(h, steps), KnownAfter(steps))
  {
    if steps != [] {
      var k := |steps| - 1;
      StepsKeep(universe, h, steps[..k]);
      StepKeeps(universe, h, AfterAll(h, steps[..k]), KnownAfter(steps[..k]), steps[k]);
    }
  }

  // ---------------------------------------------------------------- main results

  lemma ListIsExact(universe: iset<BundleId>, s: Summary, id: BundleId)
    requires Unmixed(universe) && id in universe && forall e :: e in s.listed ==> e in universe
    ensures InList(s, id) <==> id in s.listed
  {
    forall e | e in s.listed
      ensures IdSame(e, id) <==> e == id
    {
      OrdersAgree(e, id);
    }
  }

  /** Whatever the hash functions, the lookup gives the plain answer for every identifier of the universe. */
  lemma LookupIsExact(universe: iset<BundleId>, h: Hashing, steps: seq<Step>, id: BundleId)
    requires Unmixed(universe) && Concerns(universe, steps) && id in universe
    ensures Contains(h, AfterAll(h, steps), id) <==> id in KnownAfter(steps).listed
    ensures InList(AfterAll(h, steps), id) <==> id in KnownAfter(steps).listed
  {
    StepsKeep(universe, h, steps);
    ListIsExact(universe, AfterAll(h, steps), id);
  }

  /** The quick check never changes the answer of the list, in this run and for this identifier. */
  ghost predicate QuickCheckIsExact(h: Hashing, steps: seq<Step>, id: BundleId) {
    Contains(h, AfterAll(h, steps), id) <==> InList(AfterAll(h, steps), id)
  }

  /** Bits that tell one identifier from all others. */
  function Separating(part: BundleId): Hashing {
    (id: BundleId) => if id == part then {1} else {0}
  }

  /** A listed whole bundle is found under the identifier of a fragment, but its bits are not the fragment's. */
  lemma FragmentIsMissed(whole: BundleId, part: BundleId)
    requires Mixed(whole, part) && part.fragment
    ensures !QuickCheckIsExact(Separating(part), [AddStep(Entry(0, whole))], part)
  {
    var h, steps := Separating(part), [AddStep(Entry(0, whole))];
    assert steps[..0] == [] && AfterAll(h, []) == EMPTY;
    var s := AfterAll(h, steps);
    assert s == Apply(h, EMPTY, steps[0]);
    assert whole in s.listed && IdSame(whole, part);
    assert 1 in h(part) && 1 !in s.bits;
  }

  /**
   * For any identifiers: the quick check is exact for all hash functions, histories and lookups, if and only
   * if no fragment shares its base with a whole bundle.
   */
  lemma QuickCheckIsExactIff(universe: iset<BundleId>)
    requires AllCanonical(universe)
    ensures (forall h, steps, id :: Concerns(universe, steps) && id in universe ==> QuickCheckIsExact(h, steps, id))
            <==> Unmixed(universe)
  {
    if Unmixed(universe) {
      forall h, steps, id | Concerns(universe, steps) && id in universe
        ensures QuickCheckIsExact(h, steps, id)
      {
        LookupIsExact(universe, h, steps, id);
      }
    } else {
      var a, b :| a in universe && b in universe && Mixed(a, b);
      var part, whole := if a.fragment then a else b, if a.fragment then b else a;
      FragmentIsMissed(whole, part);
      assert Concerns(universe, [AddStep(Entry(0, whole))]);
    }
  }

  /** Every listed bundle is in the filter that is sent to the neighbours, fragments or not. */
  lemma {:induction false} FilterHasNoFalseNegative(h: Hashing, steps: seq<Step>)
    ensures var s := AfterAll(h, steps); s.listed == s.ids && forall id :: id in s.listed ==> InVector(h, s, id)
  {
    if steps != [] {
      var k := |steps| - 1;
      var s, s' := AfterAll(h, steps[..k]), AfterAll(h, steps);
      FilterHasNoFalseNegative(h, steps[..k]);
      assert forall id :: id in s'.listed ==> h(id) <= s'.bits;
    }
  }

  /** Something expires in this step. */
  ghost predicate Expires(k: Known, step: Step) {
    step.ExpireStep? && step.timeKnown && exists e :: e in k.pending && e.expiry < step.time
  }

  /** Whose bits are in the filter: those listed when something last expired, and all added since. */
  ghost function Remembered(steps: seq<Step>): set<BundleId> {
    if steps == [] then {}
    else
      var k := |steps| - 1;
      if Expires(KnownAfter(steps[..k]), steps[k]) then KnownAfter(steps).listed
      else if steps[k].ClearStep? then {}
      else if steps[k].AddStep? then Remembered(steps[..k]) + {steps[k].entry.id}
      else Remembered(steps[..k])
  }

  lemma BitsOfMore(h: Hashing, ids: set<BundleId>, id: BundleId)
    ensures BitsOf(h, ids + {id}) == BitsOf(h, ids) + h(id)
  {}

  lemma RebuiltIff(universe: iset<BundleId>, h: Hashing, s: Summary, k: Known, step: Step)
    requires Inv(universe, h, s, k) && step.ExpireStep?
    ensures Expires(k, step) <==> step.timeKnown && Due(s.entries, step.time) > 0
    ensures Apply(h, s, step).bits == if Expires(k, step) then BitsOf(h, Apply(h, s, step).ids) else s.bits
  {
    var n := Due(s.entries, step.time);
    DueIsExact(s.entries, step.time);
    if n > 0 { assert s.entries[0] in k.pending && s.entries[0].expiry < step.time; }
  }

  /** In every history the filter has exactly the bits of these identifiers: rebuilding forgets all that are gone. */
  lemma {:induction false} FilterIsExact(universe: iset<BundleId>, h: Hashing, steps: seq<Step>)
    requires Unmixed(universe) && Concerns(universe, steps)
    ensures AfterAll(h, steps).bits == BitsOf(h, Remembered(steps))
  {
    if steps != [] {
      var k := |steps| - 1;
      FilterIsExact(universe, h, steps[..k]);
      StepsKeep(universe, h, steps[..k]);
      StepsKeep(universe, h, steps);
      match steps[k]
      case AddStep(e) => BitsOfMore(h, Remembered(steps[..k]), e.id);
      case ExpireStep(_, _) => RebuiltIff(universe, h, AfterAll(h, steps[..k]), KnownAfter(steps[..k]), steps[k]);
      case _ =>
    }
  }
}
