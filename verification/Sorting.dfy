/** sorted() of a set: ascending, without repeats, and the only such list. */
module Sorting {
  ghost predicate IsStrictOrder<T(!new)>(less: (T, T) -> bool) {
    && (forall x :: !less(x, x))
    && (forall x, y :: x != y ==> less(x, y) || less(y, x))
    && (forall x, y, z :: less(x, y) && less(y, z) ==> less(x, z))
  }

  ghost predicate Ascending<T>(s: seq<T>, less: (T, T) -> bool) {
    forall i, j :: 0 <= i < j < |s| ==> less(s[i], s[j])
  }

  /** sorted() of a set. */
  method Sorted<T(==, !new)>(s: set<T>, less: (T, T) -> bool) returns (r: seq<T>)
    requires IsStrictOrder(less)
    ensures Ascending(r, less)
    ensures forall x :: x in r <==> x in s
  {
    var rest := s;
    r := [];
    while rest != {}
      invariant rest <= s && Ascending(r, less)
      invariant forall x :: x in r <==> x in s - rest
      decreases rest
    {
      var x :| x in rest;
      var i := 0;
      while i < |r| && less(r[i], x)
        invariant 0 <= i <= |r|
        invariant forall j :: 0 <= j < i ==> less(r[j], x)
      {
        i := i + 1;
      }
      assert x !in r;
      assert forall j :: i <= j < |r| ==> less(x, r[j]) by {
        assert i < |r| ==> less(x, r[i]);
      }
      ghost var before := r;
      r := r[..i] + [x] + r[i..];
      Inserted(before, i, x);
      rest := rest - {x};
    }
  }

  lemma Inserted<T>(s: seq<T>, i: nat, x: T)
    requires i <= |s|
    ensures forall y :: y in s[..i] + [x] + s[i..] <==> y in s || y == x
  {
    assert s == s[..i] + s[i..];
  }

  ghost predicate NoRepeats<T>(s: seq<T>) {
    forall i, j :: 0 <= i < j < |s| ==> s[i] != s[j]
  }

  lemma AscendingHasNoRepeats<T(!new)>(s: seq<T>, less: (T, T) -> bool)
    requires IsStrictOrder(less) && Ascending(s, less)
    ensures NoRepeats(s)
  {
    forall i, j | 0 <= i < j < |s| ensures s[i] != s[j] {
      assert less(s[i], s[j]);
    }
  }

  lemma {:induction false} AscendingIsUnique<T(!new)>(s: seq<T>, t: seq<T>, less: (T, T) -> bool)
    requires IsStrictOrder(less) && Ascending(s, less) && Ascending(t, less)
    requires forall x :: x in s <==> x in t
    ensures s == t
  {
    if s == [] {
      HasMember(t);
    } else {
      assert s[0] in s && s[0] in t;
      HasMember(t);
      assert t[0] in t && t[0] in s;
      assert s[0] == t[0];
      assert s == [s[0]] + s[1..] && t == [t[0]] + t[1..];
      forall x ensures x in s[1..] <==> x in t[1..] {
        TailMembers(s, less, x);
        TailMembers(t, less, x);
      }
      AscendingIsUnique(s[1..], t[1..], less);
    }
  }

  lemma HasMember<T(!new)>(t: seq<T>)
    ensures t == [] || exists x :: x in t
  {
    if t != [] {
      assert t[0] in t;
    }
  }

  lemma TailMembers<T(!new)>(s: seq<T>, less: (T, T) -> bool, x: T)
    requires IsStrictOrder(less) && Ascending(s, less) && s != []
    ensures x in s[1..] <==> x in s && x != s[0]
  {
    if x in s[1..] {
      var i :| 0 <= i < |s| - 1 && s[1..][i] == x;
      assert less(s[0], s[i + 1]);
    }
  }
}
