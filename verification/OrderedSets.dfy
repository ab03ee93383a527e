/**
 * Ordered sets as the standard containers keep them: a sequence that ascends in some order, in which
 * elements that the order does not tell apart count as one.
 */
module OrderedSets {

  type Order<!T> = (T, T) -> bool

  predicate Equivalent<T>(less: Order<T>, x: T, y: T) {
    !less(x, y) && !less(y, x)
  }

  /** On these elements the order is strict and total: transitive, and equivalent elements are equal. */
  ghost predicate StrictTotal<T(!new)>(less: Order<T>, domain: iset<T>) {
    && (forall x :: x in domain ==> !less(x, x))
    && (forall x, y, z :: x in domain && y in domain && z in domain && less(x, y) && less(y, z) ==> less(x, z))
    && (forall x, y :: x in domain && y in domain && Equivalent(less, x, y) ==> x == y)
  }

  /** Strict, and elements that are not told apart compare alike with all others. */
  ghost predicate WeakOrder<T(!new)>(less: Order<T>, domain: iset<T>) {
    && (forall x :: x in domain ==> !less(x, x))
    && (forall x, y, z :: x in domain && y in domain && z in domain && less(x, y) && less(y, z) ==> less(x, z))
    && (forall x, y, z :: x in domain && y in domain && z in domain && Equivalent(less, x, y)
                          ==> less(x, z) == less(y, z) && less(z, x) == less(z, y))
  }

  lemma StrictTotalIsWeak<T(!new)>(less: Order<T>, domain: iset<T>)
    requires StrictTotal(less, domain)
    ensures WeakOrder(less, domain)
  {}

  ghost predicate Ascending<T(!new)>(less: Order<T>, s: seq<T>) {
    forall i, j :: 0 <= i < j < |s| ==> less(s[i], s[j])
  }

  ghost predicate Present<T(!new)>(less: Order<T>, s: seq<T>, x: T) {
    exists y :: y in s && Equivalent(less, y, x)
  }

  /** An element equivalent to one that is present is not inserted. */
  function Insert<T>(less: Order<T>, s: seq<T>, x: T): seq<T> {
    if s == [] then [x]
    else if less(s[0], x) then [s[0]] + Insert(less, s[1..], x)
    else if less(x, s[0]) then [x] + s
    else s
  }

  function Erase<T>(less: Order<T>, s: seq<T>, x: T): seq<T> {
    if s == [] then []
    else if Equivalent(less, s[0], x) then s[1..]
    else [s[0]] + Erase(less, s[1..], x)
  }

  ghost predicate Within<T(!new)>(s: seq<T>, domain: iset<T>) {
    forall x :: x in s ==> x in domain
  }

  lemma AscendingCons<T(!new)>(less: Order<T>, x: T, s: seq<T>)
    requires Ascending(less, s) && forall y :: y in s ==> less(x, y)
    ensures Ascending(less, [x] + s)
  {}

  /** What is below the first of an ascending sequence is below all. */
  lemma BelowAll<T(!new)>(less: Order<T>, s: seq<T>, x: T, domain: iset<T>)
    requires WeakOrder(less, domain) && Within(s, domain) && x in domain && Ascending(less, s)
    requires s != [] && (less(x, s[0]) || Equivalent(less, x, s[0]))
    ensures forall y :: y in s[1..] ==> less(x, y)
  {
    forall y | y in s[1..]
      ensures less(x, y)
    {
      var i :| 0 <= i < |s[1..]| && s[1..][i] == y;
      assert s[i + 1] == y && less(s[0], s[i + 1]);
      assert s[0] in s && y in s;
    }
  }

  lemma Tail<T(!new)>(less: Order<T>, s: seq<T>, domain: iset<T>)
    requires s != [] && Within(s, domain) && Ascending(less, s)
    ensures Within(s[1..], domain) && Ascending(less, s[1..]) && s[0] in domain
    ensures forall y :: y in s <==> y == s[0] || y in s[1..]
  {}

  lemma {:induction false} InsertAscends<T(!new)>(less: Order<T>, s: seq<T>, x: T, domain: iset<T>)
    requires WeakOrder(less, domain) && Within(s, domain) && x in domain && Ascending(less, s)
    ensures Ascending(less, Insert(less, s, x))
    ensures forall y :: y in Insert(less, s, x) ==> y in s || y == x
  {
    if s != [] {
      Tail(less, s, domain);
      if less(s[0], x) {
        InsertAscends(less, s[1..], x, domain);
        BelowAll(less, s, s[0], domain);
        AscendingCons(less, s[0], Insert(less, s[1..], x));
      } else if less(x, s[0]) {
        BelowAll(less, s, x, domain);
        AscendingCons(less, x, s);
      }
    }
  }

  lemma {:induction false} InsertAddsUnlessPresent<T(!new)>(less: Order<T>, s: seq<T>, x: T, domain: iset<T>)
    requires WeakOrder(less, domain) && Within(s, domain) && x in domain && Ascending(less, s)
    ensures Present(less, s, x) ==> Insert(less, s, x) == s
    ensures !Present(less, s, x) ==> |Insert(less, s, x)| == |s| + 1 && x in Insert(less, s, x)
    ensures forall y :: y in s ==> y in Insert(less, s, x)
  {
    if s != [] {
      Tail(less, s, domain);
      if less(s[0], x) {
        InsertAddsUnlessPresent(less, s[1..], x, domain);
        assert Present(less, s, x) <==> Present(less, s[1..], x);
      } else if less(x, s[0]) {
        BelowAll(less, s, x, domain);
      } else {
        assert s[0] in s && Equivalent(less, s[0], x);
      }
    }
  }

  lemma InsertKeepsOrder<T(!new)>(less: Order<T>, s: seq<T>, x: T, domain: iset<T>)
    requires WeakOrder(less, domain) && Within(s, domain) && x in domain && Ascending(less, s)
    ensures Ascending(less, Insert(less, s, x))
    ensures Present(less, s, x) ==> Insert(less, s, x) == s
    ensures !Present(less, s, x) ==>
              |Insert(less, s, x)| == |s| + 1 && forall y :: y in Insert(less, s, x) <==> y in s || y == x
  {
    InsertAscends(less, s, x, domain);
    InsertAddsUnlessPresent(less, s, x, domain);
  }

  lemma {:induction false} EraseKeepsOrder<T(!new)>(less: Order<T>, s: seq<T>, x: T, domain: iset<T>)
    requires WeakOrder(less, domain) && Within(s, domain) && x in domain && Ascending(less, s)
    ensures Ascending(less, Erase(less, s, x))
    ensures forall y :: y in Erase(less, s, x) <==> y in s && !Equivalent(less, y, x)
  {
    if s != [] {
      Tail(less, s, domain);
      if Equivalent(less, s[0], x) {
        BelowAll(less, s, x, domain);
      } else {
        EraseKeepsOrder(less, s[1..], x, domain);
        BelowAll(less, s, s[0], domain);
        AscendingCons(less, s[0], Erase(less, s[1..], x));
      }
    }
  }

  /** Two ascending sequences with the same elements are the same. */
  lemma {:induction false} AscendingIsUnique<T(!new)>(less: Order<T>, a: seq<T>, b: seq<T>, domain: iset<T>)
    requires WeakOrder(less, domain) && Within(a, domain) && Within(b, domain)
    requires Ascending(less, a) && Ascending(less, b)
    requires forall x :: x in a <==> x in b
    ensures a == b
  {
    assert (a != [] ==> a[0] in a) && (b != [] ==> b[0] in b);
    if a != [] {
      assert a[0] == b[0];
      assert forall x :: x in a[1..] <==> x in a && x != a[0];
      assert forall x :: x in b[1..] <==> x in b && x != b[0];
      AscendingIsUnique(less, a[1..], b[1..], domain);
    }
  }
}
