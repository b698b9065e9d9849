/**
 The daemon walks Python dictionaries and sets, whose order is arbitrary.  A walk is
 described by a sequence that lists every element of a set exactly once.
 */
module Enumerations {
  ghost predicate NoDuplicates<T>(s: seq<T>) {
    forall i, j :: 0 <= i < j < |s| ==> s[i] != s[j]
  }

  ghost predicate Enumerates<T>(s: seq<T>, xs: set<T>) {
    && NoDuplicates(s)
    && (forall x :: x in s ==> x in xs)
    && (forall x :: x in xs ==> x in s)
  }

  lemma {:induction false} EnumerationLength<T>(s: seq<T>, xs: set<T>)
    requires Enumerates(s, xs)
    ensures |s| == |xs|
    decreases |s|
  {
    if s == [] {
      assert xs == {};
    } else {
      var last := |s| - 1;
      assert forall x :: x in s ==> x in s[..last] || x == s[last];
      EnumerationLength(s[..last], xs - {s[last]});
    }
  }

  lemma ExtendEnumeration<T>(s: seq<T>, xs: set<T>, x: T)
    requires Enumerates(s, xs) && x !in xs
    ensures Enumerates(s + [x], xs + {x})
  {
  }

  lemma EmptyEnumeration<T>(s: seq<T>)
    ensures Enumerates(s, {}) <==> s == []
  {
    if s != [] {
      assert s[0] in s;
    }
  }

  /** Every set can be walked. */
  lemma {:induction false} EnumerationExists<T>(xs: set<T>) returns (s: seq<T>)
    ensures Enumerates(s, xs)
    decreases |xs|
  {
    s := [];
    if xs != {} {
      var x :| x in xs;
      var rest := EnumerationExists(xs - {x});
      ExtendEnumeration(rest, xs - {x}, x);
      assert xs - {x} + {x} == xs;
      s := rest + [x];
    }
  }

  /** A walk over a set in an arbitrary order. */
  method Walk<T(==)>(xs: set<T>) returns (s: seq<T>)
    ensures Enumerates(s, xs)
  {
    s := [];
    var todo := xs;
    while todo != {}
      invariant todo <= xs && Enumerates(s, xs - todo)
    {
      var x :| x in todo;
      ExtendEnumeration(s, xs - todo, x);
      s := s + [x];
      todo := todo - {x};
    }
  }
}
