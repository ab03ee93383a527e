/**
 * Bundle identifiers and the orders the containers use. A fragment is told apart by its offset; whole bundles
 * have none, which is stored as offset 0.
 */
module BundleOrder {
  import opened ByteStrings
  import opened OrderedSets

  datatype BundleId = BundleId(source: Chars, timestamp: nat, sequence: nat, fragment: bool, offset: nat)

  /** Characters are compared without their sign. */
  function Unsigned(c: Char): int {
    if c < 0 then c as int + 256 else c as int
  }

  predicate TextLess(a: Chars, b: Chars) {
    if b == [] then false
    else if a == [] then true
    else Unsigned(a[0]) < Unsigned(b[0]) || (a[0] == b[0] && TextLess(a[1..], b[1..]))
  }

  predicate SameBase(a: BundleId, b: BundleId) {
    a.source == b.source && a.timestamp == b.timestamp && a.sequence == b.sequence
  }

  predicate BaseLess(a: BundleId, b: BundleId) {
    || TextLess(a.source, b.source)
    || (a.source == b.source && a.timestamp < b.timestamp)
    || (a.source == b.source && a.timestamp == b.timestamp && a.sequence < b.sequence)
  }

  /** The order of identifiers: the offset counts if the left side is a fragment. */
  predicate IdLess(a: BundleId, b: BundleId) {
    BaseLess(a, b) || (SameBase(a, b) && a.fragment && a.offset < b.offset)
  }

  predicate IdSame(a: BundleId, b: BundleId) {
    SameBase(a, b) && (a.fragment ==> a.offset == b.offset)
  }

  /** The comparisons of a search that asks with the identifier, and of one that asks with the entry. */
  function SameAs(id: BundleId): BundleId -> bool {
    e => IdSame(id, e)
  }

  function EntryIs(id: BundleId): BundleId -> bool {
    e => IdSame(e, id)
  }

  predicate IdGreater(a: BundleId, b: BundleId) {
    !(IdLess(a, b) || IdSame(a, b))
  }

  /** The order of bundles: the offset counts if the right side is a fragment. */
  predicate PrimaryLess(a: BundleId, b: BundleId) {
    BaseLess(a, b) || (SameBase(a, b) && b.fragment && a.offset < b.offset)
  }

  predicate Canonical(a: BundleId) {
    a.fragment || a.offset == 0
  }

  /** A fragment and the whole bundle it was cut from, or seems to be. */
  predicate Mixed(a: BundleId, b: BundleId) {
    SameBase(a, b) && a.fragment != b.fragment
  }

  lemma {:induction false} TextIsIrreflexive(a: Chars)
    ensures !TextLess(a, a)
  {
    if a != [] { TextIsIrreflexive(a[1..]); }
  }

  lemma {:induction false} TextIsTotal(a: Chars, b: Chars)
    ensures TextLess(a, b) || TextLess(b, a) || a == b
    ensures !(TextLess(a, b) && TextLess(b, a))
  {
    if a != [] && b != [] {
      TextIsTotal(a[1..], b[1..]);
      if a[0] == b[0] && a[1..] == b[1..] { assert a == [a[0]] + a[1..] && b == [b[0]] + b[1..]; }
    }
  }

  lemma {:induction false} TextIsTransitive(a: Chars, b: Chars, c: Chars)
    requires TextLess(a, b) && TextLess(b, c)
    ensures TextLess(a, c)
  {
    if a != [] && a[0] == b[0] == c[0] { TextIsTransitive(a[1..], b[1..], c[1..]); }
  }

  /** Characters count as unsigned: those of negative value come behind all others. */
  lemma TextByFirst(a: Char, s: Chars, b: Char, t: Chars)
    requires a != b
    ensures TextLess([a] + s, [b] + t) <==> if (a < 0) == (b < 0) then a < b else b < 0
  {
    assert ([a] + s)[0] == a && ([b] + t)[0] == b;
  }

  lemma BaseIsTotal(a: BundleId, b: BundleId)
    ensures BaseLess(a, b) || BaseLess(b, a) || SameBase(a, b)
    ensures !(BaseLess(a, b) && BaseLess(b, a))
    ensures SameBase(a, b) ==> !BaseLess(a, b) && !BaseLess(b, a)
  {
    TextIsTotal(a.source, b.source);
    TextIsIrreflexive(a.source);
  }

  lemma BaseIsTransitive(a: BundleId, b: BundleId, c: BundleId)
    requires BaseLess(a, b) && BaseLess(b, c)
    ensures BaseLess(a, c)
  {
    if TextLess(a.source, b.source) && TextLess(b.source, c.source) {
      TextIsTransitive(a.source, b.source, c.source);
    }
  }

  /** Two identifiers are told apart by their order exactly unless one is a fragment and the other whole. */
  lemma ComparableIff(a: BundleId, b: BundleId)
    requires Canonical(a) && Canonical(b)
    ensures a == b || IdLess(a, b) || IdLess(b, a) <==> !Mixed(a, b)
  {
    BaseIsTotal(a, b);
  }

  /** Then all the comparisons agree, and equality of identifiers is equality. */
  lemma OrdersAgree(a: BundleId, b: BundleId)
    requires Canonical(a) && Canonical(b) && !Mixed(a, b)
    ensures PrimaryLess(a, b) == IdLess(a, b)
    ensures IdGreater(b, a) == IdLess(a, b)
    ensures IdSame(a, b) <==> a == b
    ensures IdLess(a, b) ==> !IdLess(b, a) && a != b
  {
    BaseIsTotal(a, b);
  }

  // ---------------------------------------------------------------- the order by base and offset

  predicate KeyLess(a: BundleId, b: BundleId) {
    BaseLess(a, b) || (SameBase(a, b) && a.offset < b.offset)
  }

  /** What the order by base and offset does not tell apart: a whole bundle and its fragment with offset 0. */
  predicate SameKey(a: BundleId, b: BundleId) {
    SameBase(a, b) && a.offset == b.offset
  }

  lemma KeyIsTotal(a: BundleId, b: BundleId)
    ensures KeyLess(a, b) || KeyLess(b, a) || SameKey(a, b)
    ensures !(KeyLess(a, b) && KeyLess(b, a))
    ensures SameKey(a, b) ==> !KeyLess(a, b) && !KeyLess(b, a)
  {
    BaseIsTotal(a, b);
  }

  lemma KeyIsTransitive(a: BundleId, b: BundleId, c: BundleId)
    requires KeyLess(a, b) && KeyLess(b, c)
    ensures KeyLess(a, c)
  {
    if BaseLess(a, b) && BaseLess(b, c) { BaseIsTransitive(a, b, c); }
  }

  /** The order of bundles, and the reverse of `>` on identifiers, are this order, fragments or not. */
  lemma OrdersByKey(a: BundleId, b: BundleId)
    requires Canonical(a) && Canonical(b)
    ensures PrimaryLess(a, b) == KeyLess(a, b)
    ensures IdGreater(b, a) == KeyLess(a, b)
  {
    BaseIsTotal(a, b);
  }

  /** A whole bundle, and a fragment of its base that does not begin where it does. */
  predicate Clash(a: BundleId, b: BundleId) {
    SameBase(a, b) && a.fragment != b.fragment && a.offset != b.offset
  }

  /** The order of identifiers is this order too unless the two clash; two that clash it does not tell apart. */
  lemma IdOrderByKeyIff(a: BundleId, b: BundleId)
    requires Canonical(a) && Canonical(b)
    ensures !Clash(a, b) <==> IdLess(a, b) == KeyLess(a, b) && IdLess(b, a) == KeyLess(b, a)
    ensures Clash(a, b) ==> Equivalent(IdLess, a, b)
  {
    BaseIsTotal(a, b);
  }

  ghost predicate AllCanonical(ids: iset<BundleId>) {
    forall a :: a in ids ==> Canonical(a)
  }

  ghost predicate Unclashing(ids: iset<BundleId>) {
    AllCanonical(ids) && forall a, b :: a in ids && b in ids ==> !Clash(a, b)
  }

  lemma IdIsTransitive(a: BundleId, b: BundleId, c: BundleId)
    requires IdLess(a, b) && IdLess(b, c)
    ensures IdLess(a, c)
  {
    if BaseLess(a, b) && BaseLess(b, c) { BaseIsTransitive(a, b, c); }
  }

  /** Identifiers among which no fragment shares its base with a whole bundle. */
  ghost predicate Unmixed(ids: iset<BundleId>) {
    && (forall a :: a in ids ==> Canonical(a))
    && (forall a, b :: a in ids && b in ids ==> !Mixed(a, b))
  }

  /** The order of bundles is strict and total on canonical identifiers exactly if they are unmixed. */
  lemma OrderIsTotalIff(ids: iset<BundleId>)
    requires forall a :: a in ids ==> Canonical(a)
    ensures StrictTotal(IdLess, ids) <==> Unmixed(ids)
  {
    if Unmixed(ids) {
      forall a, b | a in ids && b in ids
        ensures !IdLess(a, a) && (Equivalent(IdLess, a, b) ==> a == b)
      {
        OrdersAgree(a, a);
        ComparableIff(a, b);
      }
      forall a, b, c | a in ids && b in ids && c in ids && IdLess(a, b) && IdLess(b, c)
        ensures IdLess(a, c)
      {
        IdIsTransitive(a, b, c);
      }
    }
    if StrictTotal(IdLess, ids) {
      forall a, b | a in ids && b in ids
        ensures !Mixed(a, b)
      {
        ComparableIff(a, b);
        assert Equivalent(IdLess, a, b) ==> a == b;
      }
    }
  }
}
