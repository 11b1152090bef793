/**
 Stable sorting, as models/sort.go asks of sort.SliceStable.

 StableSort is the reference: what it returns is sorted, a permutation, keeps equal
 elements in input order, and is the only such sequence, so every stable sorting
 algorithm computes it. SortSlice is the in-place routine.
 */
module Sorting {

  ghost predicate StrictWeakOrder<T(!new)>(less: (T, T) -> bool) {
    && (forall x :: !less(x, x))
    && (forall x, y, z :: less(x, y) && less(y, z) ==> less(x, z))
    && (forall x, y, z :: !less(x, y) && !less(y, z) ==> !less(x, z))
  }

  predicate Equivalent<T>(x: T, y: T, less: (T, T) -> bool) {
    !less(x, y) && !less(y, x)
  }

  ghost predicate Sorted<T>(s: seq<T>, less: (T, T) -> bool) {
    forall i, j | 0 <= i < j < |s| :: !less(s[j], s[i])
  }

  // The elements of s that tie with x, in the order they occur.
  function Ties<T>(s: seq<T>, x: T, less: (T, T) -> bool): seq<T> {
    if s == [] then [] else
    var n := |s| - 1;
    Ties(s[..n], x, less) + if Equivalent(s[n], x, less) then [s[n]] else []
  }

  ghost predicate StablySorts<T(!new)>(s: seq<T>, t: seq<T>, less: (T, T) -> bool) {
    Sorted(t, less) && forall x :: Ties(t, x, less) == Ties(s, x, less)
  }

  // Places x after every element it does not precede.
  function Insert<T>(s: seq<T>, x: T, less: (T, T) -> bool): (r: seq<T>)
    ensures |r| == |s| + 1
  {
    var n := |s| - 1;
    if s == [] || !less(x, s[n]) then s + [x]
    else Insert(s[..n], x, less) + [s[n]]
  }

  function StableSort<T>(s: seq<T>, less: (T, T) -> bool): (r: seq<T>)
    ensures |r| == |s|
  {
    if s == [] then [] else
    Insert(StableSort(s[..|s| - 1], less), s[|s| - 1], less)
  }

  lemma {:induction false} InsertElements<T>(s: seq<T>, x: T, less: (T, T) -> bool)
    ensures multiset(Insert(s, x, less)) == multiset(s) + multiset{x}
  {
    var n := |s| - 1;
    if s != [] && less(x, s[n]) {
      InsertElements(s[..n], x, less);
      assert s == s[..n] + [s[n]];
    }
  }

  lemma {:induction false} InsertSorted<T(!new)>(s: seq<T>, x: T, less: (T, T) -> bool)
    requires StrictWeakOrder(less) && Sorted(s, less)
    ensures Sorted(Insert(s, x, less), less)
  {
    var n := |s| - 1;
    if s != [] && less(x, s[n]) {
      var r := Insert(s[..n], x, less);
      InsertSorted(s[..n], x, less);
      InsertElements(s[..n], x, less);
      forall i | 0 <= i < |r| ensures !less(s[n], r[i]) {
        assert r[i] in multiset(r);
        assert r[i] == x || r[i] in s[..n];
      }
    } else {
      forall i | 0 <= i < |s| ensures !less(x, s[i]) {
        assert i < n ==> !less(s[n], s[i]);
      }
    }
  }

  lemma {:induction false} InsertTies<T(!new)>(s: seq<T>, x: T, y: T, less: (T, T) -> bool)
    requires StrictWeakOrder(less)
    ensures Ties(Insert(s, x, less), y, less)
         == Ties(s, y, less) + if Equivalent(x, y, less) then [x] else []
  {
    var n := |s| - 1;
    if s != [] && less(x, s[n]) {
      var r := Insert(s[..n], x, less);
      InsertTies(s[..n], x, y, less);
      assert (r + [s[n]])[..|r|] == r;
      assert !(Equivalent(x, y, less) && Equivalent(s[n], y, less));
    } else {
      assert (s + [x])[..|s|] == s;
    }
  }

  /** The reference sort returns its input in order, with ties in input order. */
  lemma {:induction false} StableSortStablySorts<T(!new)>(s: seq<T>, less: (T, T) -> bool)
    requires StrictWeakOrder(less)
    ensures StablySorts(s, StableSort(s, less), less)
  {
    if s != [] {
      var n := |s| - 1;
      var r := StableSort(s[..n], less);
      StableSortStablySorts(s[..n], less);
      InsertSorted(r, s[n], less);
      forall x ensures Ties(StableSort(s, less), x, less) == Ties(s, x, less) {
        InsertTies(r, s[n], x, less);
      }
    }
  }

  lemma {:induction false} StableSortPermutes<T>(s: seq<T>, less: (T, T) -> bool)
    ensures multiset(StableSort(s, less)) == multiset(s)
  {
    if s != [] {
      var n := |s| - 1;
      StableSortPermutes(s[..n], less);
      InsertElements(StableSort(s[..n], less), s[n], less);
      assert s == s[..n] + [s[n]];
    }
  }

  lemma {:induction false} TiesMembers<T>(s: seq<T>, x: T, less: (T, T) -> bool)
    ensures forall y :: y in Ties(s, x, less) <==> y in s && Equivalent(y, x, less)
  {
    if s != [] {
      TiesMembers(s[..|s| - 1], x, less);
    }
  }

  lemma OwnTie<T(!new)>(s: seq<T>, less: (T, T) -> bool)
    requires s != [] && forall x :: !less(x, x)
    ensures Ties(s, s[0], less) != []
  {
    TiesMembers(s, s[0], less);
    assert s[0] in Ties(s, s[0], less);
  }

  /** No other sequence is sorted and keeps ties in input order. */
  lemma {:induction false} StableSortIsUnique<T(!new)>(t: seq<T>, u: seq<T>, less: (T, T) -> bool)
    requires StrictWeakOrder(less) && Sorted(t, less)
    requires StablySorts(t, u, less)
    ensures t == u
  {
    if t == [] {
      if u != [] {
        OwnTie(u, less);
        assert false;
      }
    } else {
      var n := |t| - 1;
      var x := t[n];
      TiesMembers(t, x, less);
      TiesMembers(u, x, less);
      assert x in u;
      var m := |u| - 1;
      TiesMembers(t, u[m], less);
      TiesMembers(u, u[m], less);
      assert u[m] in t;
      assert Equivalent(u[m], x, less);
      assert Ties(t, x, less) == Ties(u, x, less);
      assert Ties(t, x, less)[|Ties(t, x, less)| - 1] == x;
      assert Ties(u, x, less)[|Ties(u, x, less)| - 1] == u[m];
      assert u[m] == x;
      forall y ensures Ties(t[..n], y, less) == Ties(u[..m], y, less) {
        assert Ties(t, y, less) == Ties(u, y, less);
        var tail := if Equivalent(x, y, less) then [x] else [];
        var a, b := Ties(t[..n], y, less), Ties(u[..m], y, less);
        assert a + tail == b + tail;
        assert a == (a + tail)[..|a|] && b == (b + tail)[..|b|];
      }
      StableSortIsUnique(t[..n], u[..m], less);
      assert t == t[..n] + [x] && u == u[..m] + [x];
    }
  }

  lemma LastsAgree<T(!new)>(s: seq<T>, t: seq<T>, less: (T, T) -> bool)
    requires |s| == |t| > 0 && multiset(s) == multiset(t)
    requires Sorted(s, less) && Sorted(t, less) && forall x :: !less(x, x)
    requires forall x, y | x in s && y in s && Equivalent(x, y, less) :: x == y
    ensures s[|s| - 1] == t[|t| - 1]
  {
    var x, y := s[|s| - 1], t[|t| - 1];
    assert x in multiset(t) && y in multiset(s);
    assert x in t && y in s;
    assert Equivalent(x, y, less);
  }

  lemma DropLast<T>(s: seq<T>)
    requires s != []
    ensures var n := |s| - 1; multiset(s[..n]) == multiset(s) - multiset{s[n]} && s == s[..n] + [s[n]]
  {
    assert s == s[..|s| - 1] + [s[|s| - 1]];
  }

  /** When no two elements tie, the result does not depend on the input order at all. */
  lemma {:induction false} SortedPermutationsAgree<T(!new)>(s: seq<T>, t: seq<T>, less: (T, T) -> bool)
    requires multiset(s) == multiset(t)
    requires Sorted(s, less) && Sorted(t, less) && forall x :: !less(x, x)
    requires forall x, y | x in s && y in s && Equivalent(x, y, less) :: x == y
    ensures s == t
  {
    assert |s| == |multiset(s)| == |multiset(t)| == |t|;
    if s != [] {
      var n := |s| - 1;
      LastsAgree(s, t, less);
      DropLast(s);
      DropLast(t);
      SortedPermutationsAgree(s[..n], t[..n], less);
    }
  }

  // Shifts items[i] left past every element it precedes.
  method InsertInPlace<T>(items: array<T>, i: nat, less: (T, T) -> bool)
    requires i < items.Length
    modifies items
    ensures items[..i + 1] == Insert(old(items[..i]), old(items[i]), less)
    ensures items[i + 1..] == old(items[i + 1..])
  {
    var x := items[i];
    var j := i;
    ghost var before, rest, moved := items[..i], items[i + 1..], [];
    assert before[..i] == before;
    while j > 0 && less(x, items[j - 1])
      invariant 0 <= j <= i
      invariant items[..j] == before[..j]
      invariant items[j + 1..i + 1] == moved
      invariant items[i + 1..] == rest
      invariant Insert(before, x, less) == Insert(before[..j], x, less) + moved
    {
      ghost var last := items[j - 1];
      assert last == before[..j][j - 1] && before[..j][..j - 1] == before[..j - 1];
      items[j] := items[j - 1];
      moved := [last] + moved;
      j := j - 1;
    }
    items[j] := x;
    assert j > 0 ==> before[..j][j - 1] == items[j - 1];
    assert items[..i + 1] == before[..j] + [x] + moved;
  }

  /** Sorts in place; the whole new contents are the reference sort of the old ones. */
  method SortSlice<T>(items: array<T>, less: (T, T) -> bool)
    modifies items
    ensures items[..] == StableSort(old(items[..]), less)
  {
    ghost var was := items[..];
    var i := 0;
    while i < items.Length
      invariant 0 <= i <= items.Length
      invariant items[..i] == StableSort(was[..i], less)
      invariant items[i..] == was[i..]
    {
      assert items[i] == items[i..][0] == was[i] && items[i + 1..] == items[i..][1..];
      InsertInPlace(items, i, less);
      assert was[..i + 1][..i] == was[..i];
      i := i + 1;
    }
    assert items[..i] == items[..] && was[..i] == was;
  }

  // ----- Sequences without repeats --------------------------------------------------

  ghost predicate NoRepeats<T(!new)>(s: seq<T>) {
    forall i, j | 0 <= i < j < |s| :: s[i] != s[j]
  }

  lemma {:induction false} OccursOnce<T(!new)>(s: seq<T>, x: T)
    requires NoRepeats(s)
    ensures multiset(s)[x] <= 1
  {
    if s != [] {
      OccursOnce(s[1..], x);
      assert s == [s[0]] + s[1..];
      assert s[0] !in s[1..];
    }
  }

  lemma PermutedNoRepeats<T(!new)>(s: seq<T>, t: seq<T>)
    requires multiset(s) == multiset(t) && NoRepeats(s)
    ensures NoRepeats(t)
    ensures forall x :: x in t <==> x in s
  {
    forall i, j | 0 <= i < j < |t| ensures t[i] != t[j] {
      if t[i] == t[j] {
        assert t == t[..i] + [t[i]] + t[i + 1..j] + [t[j]] + t[j + 1..];
        assert multiset(t)[t[i]] >= 2;
        OccursOnce(s, t[i]);
      }
    }
    forall x ensures x in t <==> x in s {
      assert x in t <==> x in multiset(t);
      assert x in s <==> x in multiset(s);
    }
  }
}
