/** Strict orders, sorting and the uniqueness of sorted enumerations.
    Strings are compared by code point, which for valid UTF-8 is the byte order
    that Go's `<`, `sort.Strings` and `sort.Slice` use. */
module Order {

  ghost predicate Irreflexive<T(!new)>(less: (T, T) -> bool) {
    forall x :: !less(x, x)
  }

  ghost predicate Transitive<T(!new)>(less: (T, T) -> bool) {
    forall x, y, z :: less(x, y) && less(y, z) ==> less(x, z)
  }

  /** Incomparability is transitive too, so `less` compares by some totally ordered key. */
  ghost predicate NegativelyTransitive<T(!new)>(less: (T, T) -> bool) {
    forall x, y, z :: less(x, z) ==> less(x, y) || less(y, z)
  }

  ghost predicate WeakOrder<T(!new)>(less: (T, T) -> bool) {
    Irreflexive(less) && Transitive(less) && NegativelyTransitive(less)
  }

  predicate Sorted<T(!new)>(s: seq<T>, less: (T, T) -> bool) {
    forall i, j :: 0 <= i < j < |s| ==> !less(s[j], s[i])
  }

  predicate StrictlySorted<T(!new)>(s: seq<T>, less: (T, T) -> bool) {
    forall i, j :: 0 <= i < j < |s| ==> less(s[i], s[j])
  }

  /** The neighbour-by-neighbour test of Go's `sort.SliceIsSorted`. */
  predicate NeighboursSorted<T>(s: seq<T>, less: (T, T) -> bool) {
    forall i :: 1 <= i < |s| ==> !less(s[i], s[i - 1])
  }

  lemma {:induction false} NeighboursSuffice<T(!new)>(s: seq<T>, less: (T, T) -> bool)
    requires WeakOrder(less)
    ensures NeighboursSorted(s, less) <==> Sorted(s, less)
  {
    if NeighboursSorted(s, less) && |s| > 1 {
      var last := |s| - 1;
      assert NeighboursSorted(s[..last], less);
      NeighboursSuffice(s[..last], less);
      forall i, j | 0 <= i < j < |s| ensures !less(s[j], s[i]) {
        if j < last {
          assert s[..last][j] == s[j] && s[..last][i] == s[i];
        } else if i < last - 1 {
          assert s[..last][i] == s[i] && s[..last][last - 1] == s[last - 1];
          assert !less(s[last], s[last - 1]) && !less(s[last - 1], s[i]);
        }
      }
    }
  }

  function Insert<T>(x: T, s: seq<T>, less: (T, T) -> bool): seq<T> {
    if s == [] || less(x, s[0]) then [x] + s else [s[0]] + Insert(x, s[1..], less)
  }

  function SortBy<T>(s: seq<T>, less: (T, T) -> bool): seq<T> {
    if s == [] then [] else Insert(s[0], SortBy(s[1..], less), less)
  }

  lemma {:induction false} InsertKeeps<T(!new)>(x: T, s: seq<T>, less: (T, T) -> bool)
    ensures multiset(Insert(x, s, less)) == multiset([x]) + multiset(s)
  {
    if s != [] && !less(x, s[0]) {
      InsertKeeps(x, s[1..], less);
      assert s == [s[0]] + s[1..];
    }
  }

  lemma {:induction false} InsertFirst<T(!new)>(x: T, s: seq<T>, less: (T, T) -> bool)
    requires WeakOrder(less) && Sorted(s, less) && (s == [] || less(x, s[0]))
    ensures Sorted([x] + s, less)
  {
    var r := [x] + s;
    forall i, j | 0 <= i < j < |r| ensures !less(r[j], r[i]) {
      assert r[j] == s[j - 1];
      assert !less(s[j - 1], s[0]);
    }
  }

  lemma {:induction false} SortedAfter<T(!new)>(first: T, tail: seq<T>, less: (T, T) -> bool)
    requires Sorted(tail, less) && forall j :: 0 <= j < |tail| ==> !less(tail[j], first)
    ensures Sorted([first] + tail, less)
  {
  }

  lemma {:induction false} InsertSorts<T(!new)>(x: T, s: seq<T>, less: (T, T) -> bool)
    requires WeakOrder(less) && Sorted(s, less)
    ensures Sorted(Insert(x, s, less), less)
    ensures multiset(Insert(x, s, less)) == multiset([x]) + multiset(s)
  {
    InsertKeeps(x, s, less);
    if s == [] || less(x, s[0]) {
      InsertFirst(x, s, less);
    } else {
      var tail := Insert(x, s[1..], less);
      InsertSorts(x, s[1..], less);
      forall j | 0 <= j < |tail| ensures !less(tail[j], s[0]) {
        assert tail[j] in multiset(tail);
        if tail[j] != x { assert tail[j] in s[1..]; }
      }
      SortedAfter(s[0], tail, less);
    }
  }

  lemma {:induction false} SortBySorts<T(!new)>(s: seq<T>, less: (T, T) -> bool)
    requires WeakOrder(less)
    ensures Sorted(SortBy(s, less), less)
    ensures multiset(SortBy(s, less)) == multiset(s)
  {
    if s != [] {
      SortBySorts(s[1..], less);
      InsertSorts(s[0], SortBy(s[1..], less), less);
      assert s == [s[0]] + s[1..];
    }
  }

  /** A strictly sorted sequence is determined by its elements alone. */
  lemma {:induction false} SortedUnique<T(!new)>(a: seq<T>, b: seq<T>, less: (T, T) -> bool)
    requires Irreflexive(less) && Transitive(less)
    requires StrictlySorted(a, less) && StrictlySorted(b, less)
    requires forall x :: x in a <==> x in b
    ensures a == b
  {
    assert b == [] || b[0] in a;
    if a != [] {
      assert a[0] in b;
      assert a[0] == b[0];
      assert a == [a[0]] + a[1..] && b == [b[0]] + b[1..];
      forall x ensures x in a[1..] <==> x in b[1..] {
        if x in a[1..] {
          var k :| 0 <= k < |a[1..]| && a[1..][k] == x;
          assert less(a[0], a[k + 1]);
          assert x in a;
        }
        if x in b[1..] {
          var k :| 0 <= k < |b[1..]| && b[1..][k] == x;
          assert less(b[0], b[k + 1]);
          assert x in b;
        }
      }
      SortedUnique(a[1..], b[1..], less);
    }
  }

  /** Sorting with a weak order is strict when no two elements are incomparable. */
  lemma {:induction false} SortedDistinctIsStrict<T(!new)>(s: seq<T>, less: (T, T) -> bool)
    requires Sorted(s, less)
    requires forall i, j :: 0 <= i < j < |s| ==> less(s[i], s[j]) || less(s[j], s[i])
    ensures StrictlySorted(s, less)
  {
  }

  ghost predicate Enumerates<T(!new)>(s: seq<T>, elements: set<T>, less: (T, T) -> bool) {
    StrictlySorted(s, less) && forall x :: x in s <==> x in elements
  }

  ghost predicate TotalOn<T(!new)>(elements: set<T>, less: (T, T) -> bool) {
    forall x, y :: x in elements && y in elements ==> x == y || less(x, y) || less(y, x)
  }

  lemma {:induction false} EnumerationExists<T(!new)>(elements: set<T>, less: (T, T) -> bool)
    requires WeakOrder(less) && TotalOn(elements, less)
    ensures exists s :: Enumerates(s, elements, less)
    decreases |elements|
  {
    if elements == {} {
      assert Enumerates([], elements, less);
    } else {
      var x :| x in elements;
      EnumerationExists(elements - {x}, less);
      var rest :| Enumerates(rest, elements - {x}, less);
      assert elements - {x} + {x} == elements;
      var s := InsertEnumerates(x, rest, elements - {x}, less);
    }
  }

  lemma {:induction false} InsertEnumerates<T(!new)>(x: T, rest: seq<T>, elements: set<T>, less: (T, T) -> bool)
    returns (s: seq<T>)
    requires WeakOrder(less) && TotalOn(elements + {x}, less)
    requires x !in elements && Enumerates(rest, elements, less)
    ensures Enumerates(s, elements + {x}, less)
  {
    s := Insert(x, rest, less);
    InsertSorts(x, rest, less);
    forall y ensures y in s <==> y in elements + {x} {
      assert y in s <==> y in multiset(s);
      assert y in rest <==> y in multiset(rest);
    }
    assert forall y :: y in multiset(rest) ==> multiset(rest)[y] >= 1;
    forall i, j | 0 <= i < j < |s| ensures less(s[i], s[j]) {
      assert s[i] in s && s[j] in s;
      DistinctCount(rest, s[i], less);
      DuplicateCount(s, i, j);
    }
  }

  lemma {:induction false} DuplicateCount<T>(s: seq<T>, i: nat, j: nat)
    requires i < j < |s|
    ensures s[i] == s[j] ==> multiset(s)[s[i]] >= 2
  {
    assert s == s[..j] + [s[j]] + s[j + 1..];
    assert s[..j][i] == s[i];
    assert s[i] in multiset(s[..j]);
  }

  lemma {:induction false} DistinctCount<T(!new)>(s: seq<T>, x: T, less: (T, T) -> bool)
    requires Irreflexive(less) && StrictlySorted(s, less)
    ensures multiset(s)[x] <= 1
  {
    if s != [] {
      DistinctCount(s[1..], x, less);
      assert s == [s[0]] + s[1..];
      assert forall k :: 0 <= k < |s[1..]| ==> less(s[0], s[1..][k]);
      assert s[0] !in multiset(s[1..]);
    }
  }

  predicate Distinct<T(==)>(s: seq<T>) {
    forall i, j :: 0 <= i < j < |s| ==> s[i] != s[j]
  }

  lemma {:induction false} OccursOnce<T>(s: seq<T>, x: T)
    requires Distinct(s)
    ensures multiset(s)[x] <= 1
  {
    if s != [] {
      OccursOnce(s[1..], x);
      assert s == [s[0]] + s[1..];
      assert forall k :: 0 <= k < |s[1..]| ==> s[1..][k] == s[k + 1];
      assert s[0] !in multiset(s[1..]);
    }
  }

  /** The sorted enumeration of a finite set. */
  ghost function Enumeration<T(!new)>(elements: set<T>, less: (T, T) -> bool): (s: seq<T>)
    requires WeakOrder(less) && TotalOn(elements, less)
    ensures Enumerates(s, elements, less)
  {
    EnumerationExists(elements, less);
    var s :| Enumerates(s, elements, less); s
  }

  // ---------------------------------------------------------------- strings

  predicate StrLess(a: string, b: string) {
    if b == "" then false
    else if a == "" then true
    else if a[0] != b[0] then a[0] < b[0]
    else StrLess(a[1..], b[1..])
  }

  lemma {:induction false} StrLessIrreflexive(a: string)
    ensures !StrLess(a, a)
  {
    if a != "" { StrLessIrreflexive(a[1..]); }
  }

  lemma {:induction false} StrLessTransitive(a: string, b: string, c: string)
    requires StrLess(a, b) && StrLess(b, c)
    ensures StrLess(a, c)
  {
    if a != "" && a[0] == b[0] == c[0] { StrLessTransitive(a[1..], b[1..], c[1..]); }
  }

  lemma {:induction false} StrLessTotal(a: string, b: string)
    ensures a == b || StrLess(a, b) || StrLess(b, a)
  {
    if a != "" && b != "" && a[0] == b[0] {
      StrLessTotal(a[1..], b[1..]);
      assert a == [a[0]] + a[1..] && b == [b[0]] + b[1..];
    }
  }

  lemma {:induction false} StringOrder()
    ensures Irreflexive(StrLess) && Transitive(StrLess) && WeakOrder(StrLess)
    ensures forall a, b :: a == b || StrLess(a, b) || StrLess(b, a)
  {
    forall a ensures !StrLess(a, a) { StrLessIrreflexive(a); }
    forall a, b, c | StrLess(a, b) && StrLess(b, c) ensures StrLess(a, c) { StrLessTransitive(a, b, c); }
    forall a, b ensures a == b || StrLess(a, b) || StrLess(b, a) { StrLessTotal(a, b); }
    forall a, b, c | StrLess(a, c) ensures StrLess(a, b) || StrLess(b, c) {
      if a != b && !StrLess(a, b) { assert StrLess(b, a); }
    }
  }
}
