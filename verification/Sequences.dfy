/** Filtering, mapping and flattening of sequences, and how they behave under permutation. */
module Sequences {

  function Filter<T>(p: T -> bool, s: seq<T>): seq<T> {
    if s == [] then [] else Filter(p, s[..|s| - 1]) + if p(s[|s| - 1]) then [s[|s| - 1]] else []
  }

  function Map<A, B>(f: A -> B, s: seq<A>): (r: seq<B>)
    ensures |r| == |s|
    ensures forall i :: 0 <= i < |s| ==> r[i] == f(s[i])
  {
    if s == [] then [] else Map(f, s[..|s| - 1]) + [f(s[|s| - 1])]
  }

  function FlatMap<A, B>(f: A -> seq<B>, s: seq<A>): seq<B> {
    if s == [] then [] else FlatMap(f, s[..|s| - 1]) + f(s[|s| - 1])
  }

  /** The element of `s` counted by how often it occurs, or not at all when `p` rejects it. */
  lemma {:induction false} FilterMultiset<T>(p: T -> bool, s: seq<T>, x: T)
    ensures multiset(Filter(p, s))[x] == if p(x) then multiset(s)[x] else 0
  {
    if s != [] {
      var n := |s| - 1;
      assert s == s[..n] + [s[n]];
      FilterMultiset(p, s[..n], x);
    }
  }

  lemma FilterMember<T>(p: T -> bool, s: seq<T>, x: T)
    ensures x in Filter(p, s) <==> x in s && p(x)
  {
    FilterMultiset(p, s, x);
    assert x in Filter(p, s) <==> x in multiset(Filter(p, s));
    assert x in s <==> x in multiset(s);
  }

  lemma FilterPermutation<T>(p: T -> bool, s: seq<T>, t: seq<T>)
    requires multiset(s) == multiset(t)
    ensures multiset(Filter(p, s)) == multiset(Filter(p, t))
  {
    var g := x => if p(x) then [x] else [];
    FilterIsFlatMap(p, g, s);
    FilterIsFlatMap(p, g, t);
    FlatMapPermutation(g, s, t);
  }

  lemma {:induction false} FilterIsFlatMap<T>(p: T -> bool, g: T -> seq<T>, s: seq<T>)
    requires forall x :: x in s ==> g(x) == if p(x) then [x] else []
    ensures Filter(p, s) == FlatMap(g, s)
  {
    if s != [] {
      var n := |s| - 1;
      assert s[n] in s && forall x :: x in s[..n] ==> x in s;
      FilterIsFlatMap(p, g, s[..n]);
    }
  }

  lemma {:induction false} FilterConcat<T>(p: T -> bool, s: seq<T>, t: seq<T>)
    ensures Filter(p, s + t) == Filter(p, s) + Filter(p, t)
  {
    if t == [] {
      assert s + t == s;
    } else {
      var n := |t| - 1;
      assert (s + t)[..|s + t| - 1] == s + t[..n];
      FilterConcat(p, s, t[..n]);
    }
  }

  lemma FilterAround<T>(p: T -> bool, u: seq<T>, m: seq<T>, v: seq<T>)
    requires Filter(p, m) == []
    ensures Filter(p, u + m + v) == Filter(p, u) + Filter(p, v)
  {
    FilterConcat(p, u + m, v);
    FilterConcat(p, u, m);
  }

  lemma PrefixOneMore<T>(s: seq<T>, i: nat)
    requires i < |s|
    ensures s[..i + 1] == s[..i] + [s[i]]
  {
  }

  lemma DomainOneLess<K, V>(m: map<K, V>, rest: set<K>, k: K)
    requires k in m && k in rest
    ensures m - (rest - {k}) == (m - rest)[k := m[k]]
  {
  }

  lemma FilterAppend<T>(p: T -> bool, s: seq<T>, x: T)
    ensures Filter(p, s + [x]) == if p(x) then Filter(p, s) + [x] else Filter(p, s)
  {
    assert (s + [x])[..|s|] == s;
  }

  lemma {:induction false} FlatMapConcat<A, B>(f: A -> seq<B>, s: seq<A>, t: seq<A>)
    ensures FlatMap(f, s + t) == FlatMap(f, s) + FlatMap(f, t)
  {
    if t == [] {
      assert s + t == s;
    } else {
      var n := |t| - 1;
      assert (s + t)[..|s + t| - 1] == s + t[..n];
      FlatMapConcat(f, s, t[..n]);
    }
  }

  /** Where the last element of `s` stands in a permutation `t` of `s`. */
  lemma LastInPermutation<T>(s: seq<T>, t: seq<T>) returns (i: nat)
    requires s != [] && multiset(s) == multiset(t)
    ensures i < |t| && t[i] == s[|s| - 1]
    ensures multiset(s[..|s| - 1]) == multiset(t[..i] + t[i + 1..])
  {
    var n := |s| - 1;
    var x := s[n];
    assert x in multiset(t) by {
      assert x in multiset(s);
    }
    i :| 0 <= i < |t| && t[i] == x;
    WithoutOne(s, n);
    WithoutOne(t, i);
    assert s[..n] + s[n + 1..] == s[..n];
  }

  lemma WithoutOne<T>(s: seq<T>, i: nat)
    requires i < |s|
    ensures multiset(s[..i] + s[i + 1..]) == multiset(s) - multiset{s[i]}
  {
    assert s == s[..i] + [s[i]] + s[i + 1..];
  }

  lemma FlatMapAppend<A, B>(f: A -> seq<B>, s: seq<A>, x: A)
    ensures FlatMap(f, s + [x]) == FlatMap(f, s) + f(x)
  {
    assert (s + [x])[..|s|] == s;
  }

  lemma FlatMapOneMore<A, B>(f: A -> seq<B>, s: seq<A>, i: nat)
    requires i < |s|
    ensures FlatMap(f, s[..i + 1]) == FlatMap(f, s[..i]) + f(s[i])
  {
    PrefixOneMore(s, i);
    FlatMapAppend(f, s[..i], s[i]);
  }

  lemma {:induction false} FlatMapPermutation<A, B>(f: A -> seq<B>, s: seq<A>, t: seq<A>)
    requires multiset(s) == multiset(t)
    ensures multiset(FlatMap(f, s)) == multiset(FlatMap(f, t))
    decreases |s|
  {
    if s == [] {
      assert |multiset(t)| == |t|;
    } else {
      var i := LastInPermutation(s, t);
      var u, x, v := t[..i], t[i], t[i + 1..];
      FlatMapPermutation(f, s[..|s| - 1], u + v);
      FlatMapConcat(f, u, v);
      assert t == (u + [x]) + v;
      FlatMapConcat(f, u + [x], v);
      FlatMapAppend(f, u, x);
    }
  }

  /** Elements that contribute nothing can be dropped first. */
  lemma {:induction false} FlatMapFilter<A, B>(f: A -> seq<B>, p: A -> bool, s: seq<A>)
    requires forall x :: x in s && !p(x) ==> f(x) == []
    ensures FlatMap(f, Filter(p, s)) == FlatMap(f, s)
  {
    if s != [] {
      var n := |s| - 1;
      assert s[n] in s && forall x :: x in s[..n] ==> x in s;
      FlatMapFilter(f, p, s[..n]);
      if p(s[n]) {
        FlatMapAppend(f, Filter(p, s[..n]), s[n]);
      } else {
        assert Filter(p, s) == Filter(p, s[..n]) + [] == Filter(p, s[..n]);
        assert FlatMap(f, s) == FlatMap(f, s[..n]) + [] == FlatMap(f, s[..n]);
      }
    }
  }

  lemma {:induction false} FlatMapMember<A, B>(f: A -> seq<B>, s: seq<A>, y: B)
    ensures y in FlatMap(f, s) <==> exists x :: x in s && y in f(x)
  {
    if s != [] {
      var n := |s| - 1;
      assert s == s[..n] + [s[n]];
      FlatMapMember(f, s[..n], y);
    }
  }

  lemma MapAppend<A, B>(f: A -> B, s: seq<A>, x: A)
    ensures Map(f, s + [x]) == Map(f, s) + [f(x)]
  {
    assert (s + [x])[..|s|] == s;
  }

  lemma {:induction false} MapIsFlatMap<A, B>(f: A -> B, g: A -> seq<B>, s: seq<A>)
    requires forall x :: x in s ==> g(x) == [f(x)]
    ensures Map(f, s) == FlatMap(g, s)
  {
    if s != [] {
      var n := |s| - 1;
      assert s[n] in s && forall x :: x in s[..n] ==> x in s;
      MapIsFlatMap(f, g, s[..n]);
    }
  }

  lemma MapPermutation<A, B>(f: A -> B, s: seq<A>, t: seq<A>)
    requires multiset(s) == multiset(t)
    ensures multiset(Map(f, s)) == multiset(Map(f, t))
  {
    var g := x => [f(x)];
    MapIsFlatMap(f, g, s);
    MapIsFlatMap(f, g, t);
    FlatMapPermutation(g, s, t);
  }

  /** Three predicates of which each element meets exactly one split the sequence. */
  lemma {:induction false} FilterPartition<T>(p: T -> bool, q: T -> bool, r: T -> bool, s: seq<T>)
    requires forall x :: x in s ==> (p(x) && !q(x) && !r(x)) || (!p(x) && q(x) && !r(x)) || (!p(x) && !q(x) && r(x))
    ensures multiset(s) == multiset(Filter(p, s)) + multiset(Filter(q, s)) + multiset(Filter(r, s))
  {
    if s != [] {
      var init, x := s[..|s| - 1], s[|s| - 1];
      var a, b, c := Filter(p, init), Filter(q, init), Filter(r, init);
      assert s == init + [x];
      assert x in s && forall y :: y in init ==> y in s;
      FilterPartition(p, q, r, init);
      assert multiset(s) == multiset(init) + multiset{x};
      if p(x) {
        assert Filter(p, s) == a + [x] && Filter(q, s) == b + [] == b && Filter(r, s) == c + [] == c;
      } else if q(x) {
        assert Filter(p, s) == a + [] == a && Filter(q, s) == b + [x] && Filter(r, s) == c + [] == c;
      } else {
        assert Filter(p, s) == a + [] == a && Filter(q, s) == b + [] == b && Filter(r, s) == c + [x];
      }
    }
  }

  lemma {:induction false} FlatMapOfFiltered<A, B>(f: A -> B, g: A -> seq<B>, p: A -> bool, s: seq<A>)
    requires forall x :: x in s ==> g(x) == if p(x) then [f(x)] else []
    ensures FlatMap(g, s) == Map(f, Filter(p, s))
  {
    if s != [] {
      var init, x := s[..|s| - 1], s[|s| - 1];
      assert s == init + [x] && x in s && forall y :: y in init ==> y in s;
      FlatMapOfFiltered(f, g, p, init);
      FilterAppend(p, init, x);
      MapAppend(f, Filter(p, init), x);
    }
  }

  /** Filtering a sequence that lists a set lists the selected elements of the set. */
  lemma {:induction false} FilterOfSet<T>(p: T -> bool, list: seq<T>, s: set<T>)
    requires multiset(list) == multiset(s)
    ensures multiset(Filter(p, list)) == multiset(set x | x in s && p(x))
  {
    var selected := set x | x in s && p(x);
    if list == [] {
      assert |multiset(s)| == 0;
      assert s == {} && selected == {};
    } else {
      var init, x := list[..|list| - 1], list[|list| - 1];
      assert list == init + [x];
      assert multiset(init) == multiset(s - {x}) by {
        assert x in multiset(s);
        assert multiset(init) == multiset(list) - multiset{x};
      }
      FilterOfSet(p, init, s - {x});
      FilterAppend(p, init, x);
      var rest := set y | y in s - {x} && p(y);
      if p(x) {
        assert selected == rest + {x};
        assert multiset(selected) == multiset(rest) + multiset{x};
      } else {
        assert selected == rest;
      }
    }
  }

  lemma MapWithout<A, B>(f: A -> B, s: seq<A>, i: nat)
    requires i < |s|
    ensures Map(f, s[..i] + s[i + 1..]) == Map(f, s)[..i] + Map(f, s)[i + 1..]
  {
    MapConcat(f, s[..i], s[i + 1..]);
    MapPrefix(f, s, i);
    MapSuffix(f, s, i + 1);
  }

  lemma MapPrefix<A, B>(f: A -> B, s: seq<A>, i: nat)
    requires i <= |s|
    ensures Map(f, s[..i]) == Map(f, s)[..i]
  {
  }

  lemma MapSuffix<A, B>(f: A -> B, s: seq<A>, i: nat)
    requires i <= |s|
    ensures Map(f, s[i..]) == Map(f, s)[i..]
  {
  }

  lemma MapConcat<A, B>(f: A -> B, u: seq<A>, v: seq<A>)
    ensures Map(f, u + v) == Map(f, u) + Map(f, v)
  {
  }

  lemma PutBack<T>(s: seq<T>, i: nat, others: seq<T>)
    requires i < |s| && multiset(others) == multiset(s[..i] + s[i + 1..])
    ensures multiset(others + [s[i]]) == multiset(s)
  {
    WithoutOne(s, i);
  }

  /** A permutation of the values of `f` comes from a permutation of its arguments. */
  lemma {:induction false} ArgumentsPermuted<A, B>(f: A -> B, s: seq<A>, r: seq<B>) returns (t: seq<A>)
    requires multiset(r) == multiset(Map(f, s))
    ensures multiset(t) == multiset(s) && Map(f, t) == r
    decreases |r|
  {
    if r == [] {
      assert |multiset(Map(f, s))| == |s| == 0;
      t := [];
    } else {
      var i := LastInPermutation(r, Map(f, s));
      MapWithout(f, s, i);
      var init := ArgumentsPermuted(f, s[..i] + s[i + 1..], r[..|r| - 1]);
      t := init + [s[i]];
      PutBack(s, i, init);
      MapAppend(f, init, s[i]);
      assert r == r[..|r| - 1] + [f(s[i])];
    }
  }

  ghost function Image<A, B>(f: A -> B, s: set<A>): set<B> {
    set x | x in s :: f(x)
  }

  lemma ImageWithout<A, B>(f: A -> B, s: set<A>, x: A)
    requires x in s && forall y, z :: y in s && z in s && f(y) == f(z) ==> y == z
    ensures Image(f, s) == Image(f, s - {x}) + {f(x)} && f(x) !in Image(f, s - {x})
  {
    forall y | y in Image(f, s) ensures y in Image(f, s - {x}) + {f(x)} {
      var z :| z in s && f(z) == y;
      assert z == x || z in s - {x};
    }
  }

  lemma ListedWithoutLast<T>(list: seq<T>, s: set<T>)
    requires multiset(list) == multiset(s) && list != []
    ensures var x := list[|list| - 1]; x in s && multiset(list[..|list| - 1]) == multiset(s - {x})
  {
    var n := |list| - 1;
    WithoutOne(list, n);
    assert list[..n] + list[n + 1..] == list[..n];
    assert list[n] in multiset(list);
  }

  /** Listing a set and mapping it by an injective function lists the image. */
  lemma {:induction false} MapOfSet<A, B>(f: A -> B, list: seq<A>, s: set<A>)
    requires multiset(list) == multiset(s) && forall x, y :: x in s && y in s && f(x) == f(y) ==> x == y
    ensures multiset(Map(f, list)) == multiset(Image(f, s))
    decreases |list|
  {
    if list == [] {
      assert |multiset(s)| == 0 && s == {};
    } else {
      var n := |list| - 1;
      ListedWithoutLast(list, s);
      MapOfSet(f, list[..n], s - {list[n]});
      PrefixOneMore(list, n);
      MapAppend(f, list[..n], list[n]);
      assert list[..n + 1] == list;
      ImageWithout(f, s, list[n]);
    }
  }

  /** The elements of a set in some order. */
  ghost function Enumerate<T(!new)>(s: set<T>): (r: seq<T>)
    ensures multiset(r) == multiset(s)
  {
    if s == {} then []
    else
      var x :| x in s;
      assert multiset(s) == multiset(s - {x}) + multiset{x};
      Enumerate(s - {x}) + [x]
  }

  /** Filtering what comes of each element, or all that comes of them. */
  lemma {:induction false} FilterOfFlatMap<A, B>(p: B -> bool, f: A -> seq<B>, h: A -> seq<B>, s: seq<A>)
    requires forall x :: x in s ==> h(x) == Filter(p, f(x))
    ensures Filter(p, FlatMap(f, s)) == FlatMap(h, s)
  {
    if s != [] {
      var n := |s| - 1;
      assert s[n] in s && forall x :: x in s[..n] ==> x in s;
      FilterOfFlatMap(p, f, h, s[..n]);
      FilterConcat(p, FlatMap(f, s[..n]), f(s[n]));
    }
  }

  lemma {:induction false} FlatMapOfMap<A, B, C>(f: A -> B, g: B -> seq<C>, h: A -> seq<C>, s: seq<A>)
    requires forall x :: x in s ==> h(x) == g(f(x))
    ensures FlatMap(h, s) == FlatMap(g, Map(f, s))
  {
    if s != [] {
      var init, x := s[..|s| - 1], s[|s| - 1];
      assert s == init + [x] && x in s && forall y :: y in init ==> y in s;
      FlatMapOfMap(f, g, h, init);
      MapAppend(f, init, x);
      FlatMapAppend(g, Map(f, init), f(x));
    }
  }
}
