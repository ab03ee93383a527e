/** What a filtered query is meant to return: the matching elements in order, up to a limit. */
module Selections {
  import opened ByteStrings

  function Select<T>(s: seq<T>, wanted: T -> bool): seq<T> {
    if s == [] then []
    else var k := |s| - 1; Select(s[..k], wanted) + if wanted(s[k]) then [s[k]] else []
  }

  /** The first `limit` elements, or all of them for limit 0. */
  function UpTo<T>(s: seq<T>, limit: nat): seq<T> {
    if limit == 0 || |s| <= limit then s else s[..limit]
  }

  lemma SelectNext<T>(s: seq<T>, i: nat, wanted: T -> bool)
    requires i < |s|
    ensures Select(s[..i + 1], wanted) == Select(s[..i], wanted) + if wanted(s[i]) then [s[i]] else []
  {
    assert s[..i + 1][..i] == s[..i];
  }

  lemma {:induction false} SelectOfPrefix<T>(s: seq<T>, i: nat, wanted: T -> bool)
    requires i <= |s|
    ensures Select(s[..i], wanted) <= Select(s, wanted)
    decreases |s|
  {
    if i < |s| {
      var k := |s| - 1;
      SelectOfPrefix(s[..k], i, wanted);
      assert s[..k][..i] == s[..i];
    } else {
      assert s[..i] == s;
    }
  }

  /** A search that stops when it has enough, or at the end, has the answer. */
  lemma EnoughSelected<T>(s: seq<T>, i: nat, wanted: T -> bool, limit: nat)
    requires i <= |s| && (limit == 0 || |Select(s[..i], wanted)| <= limit)
    requires i == |s| || (limit > 0 && |Select(s[..i], wanted)| == limit)
    ensures Select(s[..i], wanted) == UpTo(Select(s, wanted), limit)
  {
    SelectOfPrefix(s, i, wanted);
    if i == |s| { assert s[..i] == s; }
  }

  lemma {:induction false} SelectedElements<T>(s: seq<T>, wanted: T -> bool)
    ensures forall x :: x in Select(s, wanted) <==> x in s && wanted(x)
    decreases |s|
  {
    if s != [] {
      var k := |s| - 1;
      SelectedElements(s[..k], wanted);
      assert forall x :: x in s <==> x in s[..k] || x == s[k];
    }
  }

  lemma {:induction false} SelectedCounts<T>(s: seq<T>, wanted: T -> bool, x: T)
    ensures multiset(Select(s, wanted))[x] == if wanted(x) then multiset(s)[x] else 0
    decreases |s|
  {
    if s != [] {
      var k := |s| - 1;
      SelectedCounts(s[..k], wanted, x);
      assert s == s[..k] + [s[k]];
    }
  }

  /** The first element that is wanted. */
  function FirstOf<T>(s: seq<T>, wanted: T -> bool): (r: Option<T>)
    ensures r.Some? ==> r.value in s && wanted(r.value)
    ensures r.None? <==> forall x :: x in s ==> !wanted(x)
  {
    if s == [] then None else if wanted(s[0]) then Some(s[0]) else FirstOf(s[1..], wanted)
  }

  /** Where it is: nothing in front of it is wanted. */
  lemma {:induction false} FirstIsFirst<T>(s: seq<T>, wanted: T -> bool) returns (i: nat)
    requires FirstOf(s, wanted).Some?
    ensures i < |s| && s[i] == FirstOf(s, wanted).value && forall j :: 0 <= j < i ==> !wanted(s[j])
  {
    if wanted(s[0]) {
      i := 0;
    } else {
      var k := FirstIsFirst(s[1..], wanted);
      i := k + 1;
      assert forall j :: 0 < j < i ==> s[j] == s[1..][j - 1];
    }
  }
}
