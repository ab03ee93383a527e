/**
 * The SQLite storage: filtered queries read the table page by page, and a cached time of the next expiry
 * spares the search for expired bundles on most ticks. The table is a list of rows in the order in which a
 * query yields them.
 */
module SqlStorage {
  import opened ByteStrings
  import opened BundleOrder
  import opened OrderedSets
  import opened Selections

  datatype Row = Row(id: BundleId, priority: int, expiry: nat)

  // ---------------------------------------------------------------- paged queries

  const PAGE: nat := 10

  /** The rows a statement yields with a limit of `count` rows from `offset` on. */
  function Page(rows: seq<Row>, offset: nat, count: nat): seq<Row> {
    if offset >= |rows| then []
    else if offset + count >= |rows| then rows[offset..]
    else rows[offset..offset + count]
  }

  /** The deletion list is ordered by identifier, and finds what its order does not tell apart. */
  predicate Listed(deletions: seq<BundleId>, id: BundleId) {
    exists e :: e in deletions && Equivalent(IdLess, e, id)
  }

  /** A mark hides the marked bundle, and fragments and the whole bundle of one base hide each other; nothing else. */
  lemma MarkHidesIff(marked: BundleId, id: BundleId)
    requires Canonical(marked) && Canonical(id)
    ensures Listed([marked], id) <==> marked == id || Mixed(marked, id)
  {
    ComparableIff(marked, id);
    BaseIsTotal(marked, id);
    assert marked in [marked];
  }

  lemma ListedMeans(ids: iset<BundleId>, deletions: seq<BundleId>, id: BundleId)
    requires Unmixed(ids) && id in ids && forall e :: e in deletions ==> e in ids
    ensures Listed(deletions, id) <==> id in deletions
  {
    OrderIsTotalIff(ids);
  }

  function Wanted(deletions: seq<BundleId>, shouldAdd: Row -> bool): Row -> bool {
    (row: Row) => !Listed(deletions, row.id) && shouldAdd(row)
  }

  /** The inner loop: one page, row by row, left early when enough is found. */
  method ReadPage(rows: seq<Row>, offset: nat, page: seq<Row>, wanted: Row -> bool, limit: nat, found: seq<Row>)
    returns (ret: seq<Row>, ghost seen: nat)
    requires page != [] && offset + |page| <= |rows| && page == rows[offset..offset + |page|]
    requires found == Select(rows[..offset], wanted)
    requires limit > 0 ==> |found| < limit
    ensures offset < seen <= offset + |page|
    ensures ret == Select(rows[..seen], wanted)
    ensures seen < offset + |page| ==> limit > 0 && |ret| == limit
    ensures limit > 0 ==> |ret| <= limit
  {
    ret := found;
    var k := 0;
    while true
      invariant 0 <= k < |page|
      invariant ret == Select(rows[..offset + k], wanted)
      invariant limit > 0 ==> |ret| < limit
      decreases |page| - k
    {
      SelectNext(rows, offset + k, wanted);
      assert page[k] == rows[offset + k];
      if wanted(page[k]) { ret := ret + [page[k]]; }
      k := k + 1;
      if k == |page| { break; }
      if limit > 0 && |ret| >= limit { break; }
    }
    seen := offset + k;
  }

  /**
   * The paging loop. A query with its own statement (`optimised`) and without a limit is read in one go;
   * otherwise a page has `limit` rows, or ten.
   */
  method Query(rows: seq<Row>, deletions: seq<BundleId>, shouldAdd: Row -> bool, limit: nat, optimised: bool)
    returns (ret: seq<Row>)
    ensures ret == UpTo(Select(rows, Wanted(deletions, shouldAdd)), limit)
  {
    var wanted := Wanted(deletions, shouldAdd);
    ret := [];
    var offset := 0;
    ghost var seen := 0;
    while true
      invariant seen == (if offset <= |rows| then offset else |rows|)
      invariant ret == Select(rows[..seen], wanted)
      invariant limit > 0 ==> |ret| < limit
      invariant limit == 0 && optimised ==> offset == 0
      decreases |rows| - seen
    {
      var page :=
        if limit > 0 then Page(rows, offset, limit)
        else if !optimised then Page(rows, offset, PAGE)
        else rows;
      if |page| == 0 { break; }
      assert page == rows[offset..offset + |page|];
      ret, seen := ReadPage(rows, offset, page, wanted, limit, ret);
      if limit > 0 {
        offset := offset + limit;
        if |ret| >= limit { break; }
      } else if !optimised {
        offset := offset + PAGE;
      } else {
        break;
      }
    }
    EnoughSelected(rows, seen, wanted, limit);
  }

  /** What that is: visible rows that pass the filter, and all of them unless the limit is reached. */
  lemma QueryMeans(rows: seq<Row>, deletions: seq<BundleId>, shouldAdd: Row -> bool, limit: nat, row: Row)
    ensures var ret := UpTo(Select(rows, Wanted(deletions, shouldAdd)), limit);
            && (row in ret ==> row in rows && !Listed(deletions, row.id) && shouldAdd(row))
            && (limit == 0 || |ret| < limit ==>
                 (row in rows && !Listed(deletions, row.id) && shouldAdd(row) ==> row in ret))
            && (limit > 0 ==> |ret| <= limit)
  {
    SelectedElements(rows, Wanted(deletions, shouldAdd));
  }

  // ---------------------------------------------------------------- the table and the cached expiry time

  /** `raised` is history: the bundles for which an expired event was raised. */
  datatype State = State(rows: seq<Row>, nextExpiration: nat, deletions: seq<BundleId>, raised: seq<BundleId>)

  const EMPTY := State([], 0, [], [])

  predicate Expired(row: Row, time: nat) {
    row.expiry <= time
  }

  function ExpiredRows(rows: seq<Row>, time: nat): seq<Row> {
    Select(rows, (row: Row) => Expired(row, time))
  }

  function Survivors(rows: seq<Row>, time: nat): seq<Row> {
    Select(rows, (row: Row) => !Expired(row, time))
  }

  function OtherRows(rows: seq<Row>, id: BundleId): seq<Row> {
    Select(rows, (row: Row) => row.id != id)
  }

  function Ids(rows: seq<Row>): (r: seq<BundleId>)
    ensures |r| == |rows| && forall i :: 0 <= i < |r| ==> r[i] == rows[i].id
  {
    seq(|rows|, i requires 0 <= i < |rows| => rows[i].id)
  }

  /** The smallest expiry time, or 0 for an empty table. */
  function Earliest(rows: seq<Row>): (r: nat)
    ensures forall i :: 0 <= i < |rows| ==> r <= rows[i].expiry
    ensures rows != [] ==> exists i :: 0 <= i < |rows| && r == rows[i].expiry
    ensures rows == [] ==> r == 0
  {
    if rows == [] then 0
    else if |rows| == 1 then rows[0].expiry
    else
      var rest := Earliest(rows[1..]);
      assert forall i :: 0 < i < |rows| ==> rows[i] == rows[1..][i - 1];
      if rows[0].expiry <= rest then rows[0].expiry else rest
  }

  /** `inserted` is false if the table refuses the row as a duplicate; the expiry time is noted all the same. */
  function Store(s: State, row: Row, inserted: bool): State {
    s.(rows := if inserted then s.rows + [row] else s.rows,
       nextExpiration :=
         if s.nextExpiration == 0 || row.expiry < s.nextExpiration then row.expiry else s.nextExpiration)
  }

  function MarkDeleted(s: State, id: BundleId): State {
    s.(deletions := Insert(IdLess, s.deletions, id))
  }

  function RemoveTask(s: State, id: BundleId): State {
    var rows := OtherRows(s.rows, id);
    s.(rows := rows, nextExpiration := Earliest(rows), deletions := Erase(IdLess, s.deletions, id))
  }

  /** Nothing is looked up unless the cached time has come. */
  function ExpireTask(s: State, time: nat): State {
    if time < s.nextExpiration || s.nextExpiration == 0 then s
    else
      var rows := Survivors(s.rows, time);
      s.(rows := rows, nextExpiration := Earliest(rows), raised := s.raised + Ids(ExpiredRows(s.rows, time)))
  }

  /** What an expire task is for: the table searched on every tick. */
  function ExpireEagerly(s: State, time: nat): State {
    s.(rows := Survivors(s.rows, time), raised := s.raised + Ids(ExpiredRows(s.rows, time)))
  }

  function ClearAll(s: State): State {
    s.(rows := [], nextExpiration := 0)
  }

  class SQLiteBundleStorage {
    var rows: seq<Row>
    var nextExpiration: nat
    var deletionList: seq<BundleId>
    var raised: seq<BundleId>

    ghost function Value(): State
      reads this
    {
      State(rows, nextExpiration, deletionList, raised)
    }

    constructor ()
      ensures Value() == EMPTY
    {
      rows, nextExpiration, deletionList, raised := [], 0, [], [];
    }

    method NewExpireTime(ttl: nat)
      modifies this`nextExpiration
      ensures nextExpiration == 0 <==> ttl == 0
      ensures old(nextExpiration) > 0 ==> nextExpiration <= old(nextExpiration)
      ensures nextExpiration == ttl || (nextExpiration == old(nextExpiration) <= ttl)
    {
      if nextExpiration == 0 || ttl < nextExpiration { nextExpiration := ttl; }
    }

    method StoreRow(row: Row, inserted: bool)
      modifies this
      ensures Value() == Store(old(Value()), row, inserted)
    {
      if inserted { rows := rows + [row]; }
      NewExpireTime(row.expiry);
    }

    method RunTaskExpire(time: nat)
      modifies this
      ensures Value() == ExpireTask(old(Value()), time)
    {
      if time < nextExpiration || nextExpiration == 0 { return; }
      var expired := ExpiredRows(rows, time);
      for i := 0 to |expired|
        invariant rows == old(rows) && deletionList == old(deletionList)
        invariant raised == old(raised) + Ids(expired)[..i]
      {
        raised := raised + [expired[i].id];
      }
      assert Ids(expired)[..|expired|] == Ids(expired);
      rows := Survivors(rows, time);
      nextExpiration := Earliest(rows);
    }
  }

  // ---------------------------------------------------------------- the cached time is sound

  /** With rows in the table the cached time is set, and not after the first expiry. */
  ghost predicate CacheSound(s: State) {
    s.rows != [] ==> 0 < s.nextExpiration <= Earliest(s.rows)
  }

  ghost predicate PositiveExpiry(s: State) {
    forall row :: row in s.rows ==> row.expiry > 0
  }

  /** Storing keeps the cache sound exactly if the expiry time is positive, or nothing is in the table. */
  lemma StoreKeepsCacheIff(s: State, row: Row, inserted: bool)
    requires CacheSound(s)
    ensures CacheSound(Store(s, row, inserted)) <==> row.expiry > 0 || (s.rows == [] && !inserted)
  {
    var s' := Store(s, row, inserted);
    if s'.rows != [] {
      var i :| 0 <= i < |s'.rows| && Earliest(s'.rows) == s'.rows[i].expiry;
      assert i < |s.rows| ==> Earliest(s.rows) <= s.rows[i].expiry;
      if inserted { assert s'.rows[|s.rows|] == row; }
    }
  }

  lemma EarliestIsPositive(rows: seq<Row>)
    requires forall row :: row in rows ==> row.expiry > 0
    ensures rows != [] ==> Earliest(rows) > 0
  {}

  lemma SelectedArePositive(rows: seq<Row>, wanted: Row -> bool)
    requires forall row :: row in rows ==> row.expiry > 0
    ensures forall row :: row in Select(rows, wanted) ==> row.expiry > 0
    ensures Select(rows, wanted) != [] ==> Earliest(Select(rows, wanted)) > 0
  {
    SelectedElements(rows, wanted);
    EarliestIsPositive(Select(rows, wanted));
  }

  lemma {:induction false} NothingExpired(rows: seq<Row>, time: nat)
    requires rows != [] ==> time < Earliest(rows)
    ensures Survivors(rows, time) == rows && ExpiredRows(rows, time) == []
    decreases |rows|
  {
    if rows != [] {
      var k := |rows| - 1;
      if k > 0 {
        var i :| 0 <= i < k && Earliest(rows[..k]) == rows[..k][i].expiry;
        assert Earliest(rows) <= rows[i].expiry;
      }
      NothingExpired(rows[..k], time);
    }
  }

  /** With a sound cache an expire task does all that a search on every tick would do. */
  lemma ExpireTaskIsEager(s: State, time: nat)
    requires CacheSound(s)
    ensures var s', eager := ExpireTask(s, time), ExpireEagerly(s, time);
            s'.rows == eager.rows && s'.raised == eager.raised && s'.deletions == eager.deletions
  {
    if time < s.nextExpiration || s.nextExpiration == 0 {
      NothingExpired(s.rows, time);
      assert s.raised + Ids([]) == s.raised;
    }
  }

  datatype Step =
    | StoreStep(row: Row, inserted: bool)
    | MarkStep(id: BundleId)
    | RemoveStep(id: BundleId)
    | ExpireStep(time: nat)
    | ClearStep

  function Apply(s: State, step: Step): State {
    match step
    case StoreStep(row, inserted) => Store(s, row, inserted)
    case MarkStep(id) => MarkDeleted(s, id)
    case RemoveStep(id) => RemoveTask(s, id)
    case ExpireStep(time) => ExpireTask(s, time)
    case ClearStep => ClearAll(s)
  }

  /** All tasks but the expiry are as they are, and the expiry searches the table every time. */
  function ApplyEagerly(s: State, step: Step): State {
    if step.ExpireStep? then ExpireEagerly(s, step.time) else Apply(s, step)
  }

  function AfterAll(steps: seq<Step>): State {
    if steps == [] then EMPTY
    else var k := |steps| - 1; Apply(AfterAll(steps[..k]), steps[k])
  }

  function AfterAllEagerly(steps: seq<Step>): State {
    if steps == [] then EMPTY
    else var k := |steps| - 1; ApplyEagerly(AfterAllEagerly(steps[..k]), steps[k])
  }

  predicate ExpiryIsPositive(step: Step) {
    step.StoreStep? ==> step.row.expiry > 0
  }

  lemma StepKeepsCache(s: State, step: Step)
    requires CacheSound(s) && PositiveExpiry(s) && ExpiryIsPositive(step)
    ensures CacheSound(Apply(s, step)) && PositiveExpiry(Apply(s, step))
  {
    match step
    case StoreStep(row, inserted) => StoreKeepsCacheIff(s, row, inserted);
    case RemoveStep(id) => SelectedArePositive(s.rows, (row: Row) => row.id != id);
    case ExpireStep(time) => SelectedArePositive(s.rows, (row: Row) => !Expired(row, time));
    case _ =>
  }

  /** The cached time is the first expiry in the table, and unset for an empty one. */
  ghost predicate CacheExact(s: State) {
    if s.rows == [] then s.nextExpiration == 0
    else
      && (forall row :: row in s.rows ==> s.nextExpiration <= row.expiry)
      && exists row :: row in s.rows && row.expiry == s.nextExpiration
  }

  /** Whatever it was before, the cached time is exact after a remove task, a clear, or an expire task that is due. */
  lemma CacheIsRenewed(s: State, step: Step)
    requires step.RemoveStep? || step.ClearStep? || (step.ExpireStep? && 0 < s.nextExpiration <= step.time)
    ensures CacheExact(Apply(s, step))
  {
    var s' := Apply(s, step);
    if s'.rows != [] {
      var i :| 0 <= i < |s'.rows| && Earliest(s'.rows) == s'.rows[i].expiry;
      assert s'.rows[i] in s'.rows;
    }
  }

  /** The same table, deletions and events; only the cached time may differ. */
  ghost predicate SameTable(s: State, eager: State) {
    s.rows == eager.rows && s.deletions == eager.deletions && s.raised == eager.raised
  }

  lemma StepAgrees(s: State, eager: State, step: Step)
    requires CacheSound(s) && SameTable(s, eager)
    ensures SameTable(Apply(s, step), ApplyEagerly(eager, step))
  {
    if step.ExpireStep? { ExpireTaskIsEager(s, step.time); }
  }

  /** In every run the storage with the cached time and the one that searches on every tick hold the same. */
  lemma {:induction false} CacheRefinesEager(steps: seq<Step>)
    requires forall i :: 0 <= i < |steps| ==> ExpiryIsPositive(steps[i])
    ensures CacheSound(AfterAll(steps)) && PositiveExpiry(AfterAll(steps))
    ensures SameTable(AfterAll(steps), AfterAllEagerly(steps))
  {
    if steps != [] {
      var k := |steps| - 1;
      CacheRefinesEager(steps[..k]);
      StepKeepsCache(AfterAll(steps[..k]), steps[k]);
      StepAgrees(AfterAll(steps[..k]), AfterAllEagerly(steps[..k]), steps[k]);
    }
  }

  /**
   * After an expire task at `time` no row with an earlier or equal expiry is left, no other row is gone, and
   * exactly the removed rows have raised an event.
   */
  lemma NoExpiredRowRemains(steps: seq<Step>, time: nat)
    requires forall i :: 0 <= i < |steps| ==> ExpiryIsPositive(steps[i])
    ensures var s, s' := AfterAll(steps), ExpireTask(AfterAll(steps), time);
            && (forall row :: row in s'.rows <==> row in s.rows && row.expiry > time)
            && s'.raised == s.raised + Ids(ExpiredRows(s.rows, time))
            && (forall row :: row in ExpiredRows(s.rows, time) <==> row in s.rows && row !in s'.rows)
  {
    CacheRefinesEager(steps);
    ExpireTaskIsEager(AfterAll(steps), time);
    ExpirySplitsTable(AfterAll(steps).rows, time);
  }

  lemma ExpirySplitsTable(rows: seq<Row>, time: nat)
    ensures forall row :: row in Survivors(rows, time) <==> row in rows && row.expiry > time
    ensures forall row :: row in ExpiredRows(rows, time) <==> row in rows && row.expiry <= time
  {
    SelectedElements(rows, (row: Row) => !Expired(row, time));
    SelectedElements(rows, (row: Row) => Expired(row, time));
  }

  lemma EarliestIsLost(s: State)
    requires s.rows != [] && (s.nextExpiration == 0 || s.nextExpiration > Earliest(s.rows))
    ensures !SameTable(ExpireTask(s, Earliest(s.rows)), ExpireEagerly(s, Earliest(s.rows)))
  {
    var time := Earliest(s.rows);
    var i :| 0 <= i < |s.rows| && time == s.rows[i].expiry;
    ExpirySplitsTable(s.rows, time);
    assert s.rows[i] in s.rows && s.rows[i] !in Survivors(s.rows, time);
  }

  /** Expire tasks do what searching the table would do, at all times, if and only if the cache is sound. */
  lemma ExpireTaskIsEagerIff(s: State)
    ensures (forall time: nat :: SameTable(ExpireTask(s, time), ExpireEagerly(s, time))) <==> CacheSound(s)
  {
    if CacheSound(s) {
      forall time: nat
        ensures SameTable(ExpireTask(s, time), ExpireEagerly(s, time))
      {
        ExpireTaskIsEager(s, time);
      }
    } else {
      EarliestIsLost(s);
    }
  }

  // ---------------------------------------------------------------- what is in the table

  /** How often a row should be in the table: since it was last removed, expired or cleared away. */
  function RowCount(steps: seq<Step>, row: Row): nat {
    if steps == [] then 0
    else
      var k := |steps| - 1;
      var before := RowCount(steps[..k], row);
      match steps[k]
      case StoreStep(stored, inserted) => if inserted && stored == row then before + 1 else before
      case MarkStep(_) => before
      case RemoveStep(id) => if row.id == id then 0 else before
      case ExpireStep(time) => if row.expiry <= time then 0 else before
      case ClearStep => 0
  }

  /** A remove task takes out all rows of its identifier and no other, and its mark. */
  lemma RemoveTaskMeans(s: State, id: BundleId, row: Row)
    ensures multiset(RemoveTask(s, id).rows)[row] == if row.id == id then 0 else multiset(s.rows)[row]
  {
    SelectedCounts(s.rows, (r: Row) => r.id != id, row);
  }

  lemma ExpiryCounts(s: State, time: nat, row: Row)
    requires CacheSound(s)
    ensures multiset(ExpireTask(s, time).rows)[row] == if row.expiry <= time then 0 else multiset(s.rows)[row]
  {
    ExpireTaskIsEager(s, time);
    SelectedCounts(s.rows, (r: Row) => !Expired(r, time), row);
  }

  lemma StoreCounts(s: State, stored: Row, inserted: bool, row: Row)
    ensures multiset(Store(s, stored, inserted).rows)[row]
            == multiset(s.rows)[row] + if inserted && stored == row then 1 else 0
  {}

  /** In every run the table holds exactly the rows that were stored and neither removed nor expired since. */
  lemma {:induction false} TableIsExact(steps: seq<Step>, row: Row)
    requires forall i :: 0 <= i < |steps| ==> ExpiryIsPositive(steps[i])
    ensures multiset(AfterAll(steps).rows)[row] == RowCount(steps, row)
  {
    if steps != [] {
      var k := |steps| - 1;
      var s := AfterAll(steps[..k]);
      TableIsExact(steps[..k], row);
      CacheRefinesEager(steps[..k]);
      match steps[k]
      case StoreStep(stored, inserted) => StoreCounts(s, stored, inserted, row);
      case RemoveStep(id) => RemoveTaskMeans(s, id, row);
      case ExpireStep(time) => ExpiryCounts(s, time, row);
      case _ =>
    }
  }

  /** The last step about this mark set it. */
  function MarkedLast(steps: seq<Step>, id: BundleId): bool {
    steps != [] &&
    var k := |steps| - 1;
    steps[k] == MarkStep(id) || (steps[k] != RemoveStep(id) && MarkedLast(steps[..k], id))
  }

  ghost predicate MarksFrom(ids: iset<BundleId>, steps: seq<Step>) {
    forall i :: 0 <= i < |steps| ==> (steps[i].MarkStep? || steps[i].RemoveStep? ==> steps[i].id in ids)
  }

  ghost predicate MarksInOrder(ids: iset<BundleId>, deletions: seq<BundleId>) {
    Within(deletions, ids) && Ascending(IdLess, deletions)
  }

  lemma MarkAdds(ids: iset<BundleId>, deletions: seq<BundleId>, marked: BundleId)
    requires Unmixed(ids) && MarksInOrder(ids, deletions) && marked in ids
    ensures MarksInOrder(ids, Insert(IdLess, deletions, marked))
    ensures forall id :: id in Insert(IdLess, deletions, marked) <==> id in deletions || id == marked
  {
    OrderIsTotalIff(ids);
    StrictTotalIsWeak(IdLess, ids);
    InsertKeepsOrder(IdLess, deletions, marked, ids);
  }

  lemma RemovalErases(ids: iset<BundleId>, deletions: seq<BundleId>, gone: BundleId)
    requires Unmixed(ids) && MarksInOrder(ids, deletions) && gone in ids
    ensures MarksInOrder(ids, Erase(IdLess, deletions, gone))
    ensures forall id :: id in Erase(IdLess, deletions, gone) <==> id in deletions && id != gone
  {
    OrderIsTotalIff(ids);
    StrictTotalIsWeak(IdLess, ids);
    EraseKeepsOrder(IdLess, deletions, gone, ids);
  }

  lemma {:induction false} MarksAreExact(ids: iset<BundleId>, steps: seq<Step>)
    requires Unmixed(ids) && MarksFrom(ids, steps)
    ensures MarksInOrder(ids, AfterAll(steps).deletions)
    ensures forall id :: id in AfterAll(steps).deletions <==> MarkedLast(steps, id)
  {
    if steps != [] {
      var k := |steps| - 1;
      var deletions := AfterAll(steps[..k]).deletions;
      MarksAreExact(ids, steps[..k]);
      match steps[k]
      case MarkStep(marked) => MarkAdds(ids, deletions, marked);
      case RemoveStep(gone) => RemovalErases(ids, deletions, gone);
      case _ => assert AfterAll(steps).deletions == deletions;
    }
  }

  /** In every run a query hides exactly the bundles marked and not yet removed. */
  lemma HiddenIffMarked(ids: iset<BundleId>, steps: seq<Step>, id: BundleId)
    requires Unmixed(ids) && MarksFrom(ids, steps) && id in ids
    ensures Listed(AfterAll(steps).deletions, id) <==> MarkedLast(steps, id)
  {
    MarksAreExact(ids, steps);
    ListedMeans(ids, AfterAll(steps).deletions, id);
  }
}
