/**
 * Sorting by a comparator, as the operator uses it through Go's sort package: the stable sort is an
 * insertion sort, and a strict weak order is all the comparator is assumed to be.
 */
module Ordering {
  import opened Sequences

  /**
   * Go orders strings bytewise. On valid UTF-8 this is the order of the code points.
   */
  predicate StringLess(a: string, b: string) {
    if b == [] then false
    else if a == [] then true
    else if a[0] != b[0] then a[0] < b[0]
    else StringLess(a[1..], b[1..])
  }

  /** Asymmetric, and whatever lies between two ordered elements is ordered with one of them. */
  ghost predicate StrictWeakOrder<T(!new)>(less: (T, T) -> bool) {
    && (forall x, y :: less(x, y) ==> !less(y, x))
    && (forall x, y, z :: less(x, z) ==> less(x, y) || less(y, z))
  }

  lemma {:induction false} StringLessAsymmetric(a: string, b: string)
    requires StringLess(a, b)
    ensures !StringLess(b, a)
  {
    if a != [] && b != [] && a[0] == b[0] {
      StringLessAsymmetric(a[1..], b[1..]);
    }
  }

  lemma {:induction false} StringLessBetween(a: string, b: string, c: string)
    requires StringLess(a, c)
    ensures StringLess(a, b) || StringLess(b, c)
  {
    if a != [] && b != [] && a[0] == b[0] == c[0] {
      StringLessBetween(a[1..], b[1..], c[1..]);
    }
  }

  lemma {:induction false} StringLessTotal(a: string, b: string)
    ensures a == b || StringLess(a, b) || StringLess(b, a)
  {
    if a != [] && b != [] && a[0] == b[0] {
      StringLessTotal(a[1..], b[1..]);
      assert a == [a[0]] + a[1..] && b == [b[0]] + b[1..];
    }
  }

  lemma StringLessIsOrder()
    ensures StrictWeakOrder(StringLess)
  {
    forall a, b | StringLess(a, b) ensures !StringLess(b, a) { StringLessAsymmetric(a, b); }
    forall a, b, c | StringLess(a, c) ensures StringLess(a, b) || StringLess(b, c) { StringLessBetween(a, b, c); }
  }

  /** Equal up to `n`, where `a` ends or has the smaller character. */
  predicate LessAt(a: string, b: string, n: nat) {
    n <= |a| && n < |b| && a[..n] == b[..n] && (n == |a| || a[n] < b[n])
  }

  /** A proper prefix, or smaller at the first place where they differ. */
  ghost predicate Lexicographic(a: string, b: string) {
    exists n :: LessAt(a, b, n)
  }

  lemma {:induction false} LessSomewhere(a: string, b: string) returns (n: nat)
    requires StringLess(a, b)
    ensures LessAt(a, b, n)
  {
    if a != [] && a[0] == b[0] {
      var m := LessSomewhere(a[1..], b[1..]);
      n := m + 1;
      assert a[..n] == [a[0]] + a[1..][..m] && b[..n] == [b[0]] + b[1..][..m];
    } else {
      n := 0;
    }
  }

  lemma {:induction false} LessThere(a: string, b: string, n: nat)
    requires LessAt(a, b, n)
    ensures StringLess(a, b)
  {
    if n > 0 {
      assert a[0] == a[..n][0] == b[..n][0] == b[0];
      assert a[1..][..n - 1] == a[..n][1..] == b[..n][1..] == b[1..][..n - 1];
      LessThere(a[1..], b[1..], n - 1);
    }
  }

  lemma StringLessIff(a: string, b: string)
    ensures StringLess(a, b) <==> Lexicographic(a, b)
  {
    if StringLess(a, b) {
      var _ := LessSomewhere(a, b);
    }
    if n: nat :| LessAt(a, b, n) {
      LessThere(a, b, n);
    }
  }

  // ------------------------------------------------------------------ the sort

  /** `x` goes behind every element it does not precede, looking from the right. */
  function Insert<T>(less: (T, T) -> bool, s: seq<T>, x: T): seq<T> {
    var n := |s| - 1;
    if s == [] || !less(x, s[n]) then s + [x] else Insert(less, s[..n], x) + [s[n]]
  }

  function Sort<T>(less: (T, T) -> bool, s: seq<T>): seq<T> {
    if s == [] then [] else Insert(less, Sort(less, s[..|s| - 1]), s[|s| - 1])
  }

  lemma SortAppend<T>(less: (T, T) -> bool, s: seq<T>, x: T)
    ensures Sort(less, s + [x]) == Insert(less, Sort(less, s), x)
  {
    assert (s + [x])[..|s|] == s;
  }

  ghost predicate Sorted<T>(less: (T, T) -> bool, s: seq<T>) {
    forall i, j :: 0 <= i < j < |s| ==> !less(s[j], s[i])
  }

  ghost predicate SortedPermutation<T>(less: (T, T) -> bool, r: seq<T>, s: seq<T>) {
    Sorted(less, r) && multiset(r) == multiset(s)
  }

  /** The comparator separates any two different elements of `s`. */
  ghost predicate Separates<T>(less: (T, T) -> bool, s: seq<T>) {
    forall x, y :: x in s && y in s && x != y ==> less(x, y) || less(y, x)
  }

  lemma InsertPasses<T>(less: (T, T) -> bool, s: seq<T>, x: T, j: nat)
    requires 0 < j <= |s| && less(x, s[j - 1])
    ensures Insert(less, s[..j], x) + s[j..] == Insert(less, s[..j - 1], x) + s[j - 1..]
  {
    assert s[..j][..j - 1] == s[..j - 1];
    assert [s[j - 1]] + s[j..] == s[j - 1..];
  }

  lemma InsertStops<T>(less: (T, T) -> bool, s: seq<T>, x: T, j: nat)
    requires j <= |s| && (j > 0 ==> !less(x, s[j - 1]))
    ensures Insert(less, s[..j], x) == s[..j] + [x]
  {
  }

  /** One round of the stable sort: `a[i]` moves left until nothing before it follows it. */
  method InsertInPlace<T>(a: array<T>, i: nat, less: (T, T) -> bool)
    requires i < a.Length
    modifies a
    ensures a[..i + 1] == Insert(less, old(a[..i]), old(a[i]))
    ensures a[i + 1..] == old(a[i + 1..])
  {
    ghost var done, rest := a[..i], a[i + 1..];
    var x := a[i];
    var j := i;
    assert done[..i] == done && done[i..] == [];
    while j > 0 && less(x, a[j - 1])
      invariant 0 <= j <= i
      invariant forall k :: 0 <= k < j ==> a[k] == done[k]
      invariant forall k :: j < k <= i ==> a[k] == done[k - 1]
      invariant a[i + 1..] == rest
      invariant Insert(less, done, x) == Insert(less, done[..j], x) + done[j..]
    {
      InsertPasses(less, done, x, j);
      a[j] := a[j - 1];
      j := j - 1;
    }
    a[j] := x;
    InsertStops(less, done, x, j);
    assert a[..i + 1] == done[..j] + [x] + done[j..];
  }

  /** The stable sort in place. */
  method SortInPlace<T>(a: array<T>, less: (T, T) -> bool)
    modifies a
    ensures a[..] == Sort(less, old(a[..]))
  {
    ghost var was := a[..];
    for i := 0 to a.Length
      invariant a[..i] == Sort(less, was[..i])
      invariant a[i..] == was[i..]
    {
      assert was[..i + 1][..i] == was[..i];
      assert a[i] == a[i..][0] == was[i];
      assert a[i + 1..] == a[i..][1..];
      InsertInPlace(a, i, less);
      assert was[i + 1..] == was[i..][1..];
    }
    assert a[..] == a[..a.Length] && was == was[..a.Length];
  }

  // ------------------------------------------------------- what sorting means

  lemma {:induction false} InsertMultiset<T>(less: (T, T) -> bool, s: seq<T>, x: T)
    ensures multiset(Insert(less, s, x)) == multiset(s) + multiset{x}
  {
    if s != [] && less(x, s[|s| - 1]) {
      assert s == s[..|s| - 1] + [s[|s| - 1]];
      InsertMultiset(less, s[..|s| - 1], x);
    }
  }

  lemma {:induction false} InsertSorted<T(!new)>(less: (T, T) -> bool, s: seq<T>, x: T)
    requires StrictWeakOrder(less) && Sorted(less, s)
    ensures Sorted(less, Insert(less, s, x))
  {
    var n := |s| - 1;
    if s == [] {
    } else if !less(x, s[n]) {
      forall i | 0 <= i < |s| ensures !less(x, s[i]) {
        assert i < n ==> !less(s[n], s[i]);
      }
    } else {
      var r := Insert(less, s[..n], x);
      InsertSorted(less, s[..n], x);
      InsertMultiset(less, s[..n], x);
      forall i | 0 <= i < |r| ensures !less(s[n], r[i]) {
        assert r[i] in multiset(r);
        assert r[i] == x || r[i] in s[..n];
      }
    }
  }

  lemma {:induction false} SortIsSortedPermutation<T(!new)>(less: (T, T) -> bool, s: seq<T>)
    requires StrictWeakOrder(less)
    ensures SortedPermutation(less, Sort(less, s), s)
  {
    if s != [] {
      var n := |s| - 1;
      assert s == s[..n] + [s[n]];
      SortIsSortedPermutation(less, s[..n]);
      InsertSorted(less, Sort(less, s[..n]), s[n]);
    }
    SortMultiset(less, s);
  }

  lemma PermutationMember<T>(s: seq<T>, t: seq<T>)
    requires multiset(s) == multiset(t)
    ensures |s| == |t|
    ensures forall x :: x in s <==> x in t
  {
    assert |multiset(s)| == |s| && |multiset(t)| == |t|;
    forall x ensures x in s <==> x in t {
      assert x in s <==> x in multiset(s);
      assert x in t <==> x in multiset(t);
    }
  }

  lemma SortedTail<T>(less: (T, T) -> bool, s: seq<T>)
    requires s != [] && Sorted(less, s)
    ensures Sorted(less, s[1..])
  {
  }

  lemma SameHead<T>(less: (T, T) -> bool, s: seq<T>, t: seq<T>)
    requires s != [] && t != [] && Sorted(less, s) && Sorted(less, t)
    requires Separates(less, s) && s[0] in t && t[0] in s
    ensures s[0] == t[0]
  {
    var i :| 0 <= i < |t| && t[i] == s[0];
    var j :| 0 <= j < |s| && s[j] == t[0];
    assert s[0] in s;
    assert i > 0 ==> !less(t[i], t[0]);
    assert j > 0 ==> !less(s[j], s[0]);
  }

  lemma SamePermutationTail<T>(s: seq<T>, t: seq<T>)
    requires s != [] && t != [] && multiset(s) == multiset(t) && s[0] == t[0]
    ensures multiset(s[1..]) == multiset(t[1..])
  {
    assert s == [s[0]] + s[1..] && t == [t[0]] + t[1..];
    assert multiset(s[1..]) == multiset(s) - multiset{s[0]};
    assert multiset(t[1..]) == multiset(t) - multiset{t[0]};
  }

  /** A comparator that separates the elements leaves only one way to sort them. */
  lemma {:induction false} SortedUnique<T>(less: (T, T) -> bool, s: seq<T>, t: seq<T>)
    requires Sorted(less, s) && Sorted(less, t) && multiset(s) == multiset(t) && Separates(less, s)
    ensures s == t
    decreases |s|
  {
    PermutationMember(s, t);
    if s != [] {
      assert s[0] in s && t[0] in t;
      SameHead(less, s, t);
      SamePermutationTail(s, t);
      SortedTail(less, s);
      SortedTail(less, t);
      assert Separates(less, s[1..]) by {
        assert forall z :: z in s[1..] ==> z in s;
      }
      SortedUnique(less, s[1..], t[1..]);
      assert s == [s[0]] + s[1..] && t == [t[0]] + t[1..];
    }
  }

  /** Sorting a permuted list gives the same result when the comparator separates its elements. */
  lemma SortIgnoresOrder<T(!new)>(less: (T, T) -> bool, s: seq<T>, t: seq<T>)
    requires StrictWeakOrder(less) && multiset(s) == multiset(t) && Separates(less, s)
    ensures Sort(less, s) == Sort(less, t)
  {
    SortIsSortedPermutation(less, s);
    SortIsSortedPermutation(less, t);
    PermutationMember(Sort(less, s), s);
    SortedUnique(less, Sort(less, s), Sort(less, t));
  }

  /** Stability: dropping elements before or after sorting is the same. */
  lemma {:induction false} FilterInsert<T(!new)>(less: (T, T) -> bool, p: T -> bool, s: seq<T>, x: T)
    requires StrictWeakOrder(less) && Sorted(less, s)
    ensures Filter(p, Insert(less, s, x)) == if p(x) then Insert(less, Filter(p, s), x) else Filter(p, s)
  {
    var n := |s| - 1;
    if s == [] {
      assert Insert(less, s, x) == [x];
    } else if !less(x, s[n]) {
      FilterAppend(p, s, x);
      NothingAbove(less, s, x);
      InsertBehindAll(less, p, s, x);
    } else {
      FilterInsert(less, p, s[..n], x);
      FilterAppend(p, Insert(less, s[..n], x), s[n]);
      var f := Filter(p, s[..n]);
      InsertBefore(less, f, s[n], x);
      assert Filter(p, s) == if p(s[n]) then f + [s[n]] else f;
    }
  }

  lemma InsertBefore<T>(less: (T, T) -> bool, s: seq<T>, y: T, x: T)
    requires less(x, y)
    ensures Insert(less, s + [y], x) == Insert(less, s, x) + [y]
  {
    assert (s + [y])[..|s|] == s;
  }

  lemma NotAbove<T(!new)>(less: (T, T) -> bool, x: T, y: T, z: T)
    requires StrictWeakOrder(less) && !less(x, y) && !less(y, z)
    ensures !less(x, z)
  {
  }

  lemma NothingAbove<T(!new)>(less: (T, T) -> bool, s: seq<T>, x: T)
    requires StrictWeakOrder(less) && Sorted(less, s) && s != [] && !less(x, s[|s| - 1])
    ensures forall y :: y in s ==> !less(x, y)
  {
    forall y | y in s ensures !less(x, y) {
      var i :| 0 <= i < |s| && s[i] == y;
      if i < |s| - 1 {
        NotAbove(less, x, s[|s| - 1], y);
      }
    }
  }

  lemma InsertBehindAll<T>(less: (T, T) -> bool, p: T -> bool, s: seq<T>, x: T)
    requires forall y :: y in s ==> !less(x, y)
    ensures Insert(less, Filter(p, s), x) == Filter(p, s) + [x]
  {
    var f := Filter(p, s);
    if f != [] {
      FilterMember(p, s, f[|f| - 1]);
    }
  }

  lemma {:induction false} FilterSort<T(!new)>(less: (T, T) -> bool, p: T -> bool, s: seq<T>)
    requires StrictWeakOrder(less)
    ensures Filter(p, Sort(less, s)) == Sort(less, Filter(p, s))
  {
    if s != [] {
      var n := |s| - 1;
      FilterSort(less, p, s[..n]);
      SortIsSortedPermutation(less, s[..n]);
      FilterInsert(less, p, Sort(less, s[..n]), s[n]);
      SortAppend(less, Filter(p, s[..n]), s[n]);
      assert Filter(p, s) == if p(s[n]) then Filter(p, s[..n]) + [s[n]] else Filter(p, s[..n]);
    }
  }

  /** `s[i]` precedes everything before it, and nothing after it precedes `s[i]`. */
  ghost predicate Leads<T>(less: (T, T) -> bool, s: seq<T>, i: int) {
    && 0 <= i < |s|
    && (forall j :: 0 <= j < i ==> less(s[i], s[j]))
    && (forall j :: i < j < |s| ==> !less(s[j], s[i]))
  }

  lemma {:induction false} InsertHead<T>(less: (T, T) -> bool, s: seq<T>, x: T)
    requires s != []
    ensures !less(x, s[0]) ==> Insert(less, s, x)[0] == s[0]
    ensures (forall y :: y in s ==> less(x, y)) ==> Insert(less, s, x)[0] == x
  {
    var n := |s| - 1;
    if n == 0 {
      assert s[..n] == [];
      assert Insert(less, [], x) == [x];
    } else if less(x, s[n]) {
      InsertHead(less, s[..n], x);
    }
  }

  /** What is in `s[..n]` is in its sorted form, and is preceded by a leading `s[n]`. */
  lemma LastLeads<T>(less: (T, T) -> bool, s: seq<T>, n: nat, y: T)
    requires n < |s| && Leads(less, s, n) && y in Sort(less, s[..n])
    ensures less(s[n], y)
  {
    SortMultiset(less, s[..n]);
    PermutationMember(Sort(less, s[..n]), s[..n]);
    var j :| 0 <= j < n && s[..n][j] == y;
    assert less(s[n], s[j]);
  }

  /** The stable sort puts the leading element first. */
  lemma {:induction false} SortHead<T(!new)>(less: (T, T) -> bool, s: seq<T>, i: int)
    requires Leads(less, s, i)
    ensures Sort(less, s) != [] && Sort(less, s)[0] == s[i]
  {
    var n := |s| - 1;
    if i < n {
      SortHead(less, s[..n], i);
      InsertHead(less, Sort(less, s[..n]), s[n]);
    } else if n > 0 {
      SortLength(less, s[..n]);
      forall y | y in Sort(less, s[..n]) ensures less(s[n], y) {
        LastLeads(less, s, n, y);
      }
      InsertHead(less, Sort(less, s[..n]), s[n]);
    }
  }

  lemma SortLength<T>(less: (T, T) -> bool, s: seq<T>)
    ensures |Sort(less, s)| == |s|
  {
    SortMultiset(less, s);
    PermutationMember(Sort(less, s), s);
  }

  lemma LeadsBetween<T>(less: (T, T) -> bool, u: seq<T>, x: T, v: seq<T>)
    requires forall y :: y in u ==> less(x, y)
    requires forall y :: y in v ==> !less(y, x)
    ensures Leads(less, u + [x] + v, |u|)
  {
    var s := u + [x] + v;
    assert forall j :: 0 <= j < |u| ==> s[j] == u[j] && u[j] in u;
    assert forall j :: |u| < j < |s| ==> s[j] == v[j - |u| - 1] && v[j - |u| - 1] in v;
  }

  lemma {:induction false} SortMultiset<T>(less: (T, T) -> bool, s: seq<T>)
    ensures multiset(Sort(less, s)) == multiset(s)
  {
    if s != [] {
      var n := |s| - 1;
      assert s == s[..n] + [s[n]];
      SortMultiset(less, s[..n]);
      InsertMultiset(less, Sort(less, s[..n]), s[n]);
    }
  }

  // -------------------------------------------------- sets as sorted sequences

  ghost predicate StrictlyIncreasing(s: seq<string>) {
    forall i, j :: 0 <= i < j < |s| ==> StringLess(s[i], s[j])
  }

  /** The elements of a set of strings in increasing order. */
  ghost function Ascending(s: set<string>): seq<string> {
    Sort(StringLess, Enumerate(s))
  }

  lemma AscendingUnique(s: set<string>, t: seq<string>)
    requires multiset(t) == multiset(s)
    ensures Sort(StringLess, t) == Ascending(s)
  {
    StringLessIsOrder();
    forall x, y | x in t && y in t && x != y ensures StringLess(x, y) || StringLess(y, x) {
      StringLessTotal(x, y);
    }
    SortIgnoresOrder(StringLess, t, Enumerate(s));
  }

  lemma NoRepeats<T>(s: set<T>, r: seq<T>, i: nat, j: nat)
    requires multiset(r) == multiset(s) && i < j < |r|
    ensures r[i] != r[j]
  {
    var x := r[j];
    assert r == r[..j] + [x] + r[j + 1..];
    assert multiset(r) == multiset(r[..j]) + multiset{x} + multiset(r[j + 1..]);
    assert multiset(s)[x] <= 1;
    assert r[i] in r[..j];
  }

  lemma AscendingIsIncreasing(s: set<string>)
    ensures StrictlyIncreasing(Ascending(s))
    ensures forall x :: x in Ascending(s) <==> x in s
  {
    var r := Ascending(s);
    StringLessIsOrder();
    SortIsSortedPermutation(StringLess, Enumerate(s));
    forall x ensures x in r <==> x in s {
      assert x in r <==> x in multiset(r);
    }
    forall i, j | 0 <= i < j < |r| ensures StringLess(r[i], r[j]) {
      NoRepeats(s, r, i, j);
      StringLessTotal(r[i], r[j]);
    }
  }
}
