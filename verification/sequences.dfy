// Filtering and library sorting over sequences, with the facts every other
// module needs: a stable sort is an ordered permutation that keeps equal
// elements in input order, and a sorted sequence of distinct keys is unique.
module Sequences {
  function Filter<T(!new)>(s: seq<T>, p: T -> bool): (r: seq<T>)
    ensures |r| <= |s|
  {
    if s == [] then []
    else if p(s[0]) then [s[0]] + Filter(s[1..], p)
    else Filter(s[1..], p)
  }

  lemma {:induction false} FilterMember<T(!new)>(s: seq<T>, p: T -> bool, x: T)
    ensures x in Filter(s, p) <==> x in s && p(x)
  {
    if s != [] {
      FilterMember(s[1..], p, x);
    }
  }

  lemma {:induction false} FilterAppend<T(!new)>(a: seq<T>, b: seq<T>, p: T -> bool)
    ensures Filter(a + b, p) == Filter(a, p) + Filter(b, p)
  {
    if a == [] {
      assert a + b == b;
    } else {
      assert (a + b)[1..] == a[1..] + b;
      FilterAppend(a[1..], b, p);
    }
  }

  lemma {:induction false} FilterNone<T(!new)>(s: seq<T>, p: T -> bool)
    requires forall x :: x in s ==> !p(x)
    ensures Filter(s, p) == []
  {
    if s != [] {
      FilterNone(s[1..], p);
    }
  }

  lemma {:induction false} FilterAll<T(!new)>(s: seq<T>, p: T -> bool)
    requires forall x :: x in s ==> p(x)
    ensures Filter(s, p) == s
  {
    if s != [] {
      FilterAll(s[1..], p);
    }
  }

  lemma {:induction false} FilterSame<T(!new)>(s: seq<T>, p: T -> bool, q: T -> bool)
    requires forall x :: x in s ==> p(x) == q(x)
    ensures Filter(s, p) == Filter(s, q)
  {
    if s != [] {
      FilterSame(s[1..], p, q);
    }
  }

  lemma {:induction false} FilterFilter<T(!new)>(s: seq<T>, p: T -> bool, q: T -> bool)
    ensures Filter(Filter(s, p), q) == Filter(s, x => p(x) && q(x))
  {
    if s != [] {
      FilterFilter(s[1..], p, q);
    }
  }

  lemma FilterMultiset<T(!new)>(a: seq<T>, b: seq<T>, p: T -> bool)
    requires multiset(a) == multiset(b)
    ensures multiset(Filter(a, p)) == multiset(Filter(b, p))
  {
    forall x ensures multiset(Filter(a, p))[x] == multiset(Filter(b, p))[x] {
      FilterCount(a, p, x);
      FilterCount(b, p, x);
    }
  }

  lemma {:induction false} FilterCount<T(!new)>(a: seq<T>, p: T -> bool, x: T)
    ensures multiset(Filter(a, p))[x] == if p(x) then multiset(a)[x] else 0
  {
    if a != [] {
      FilterCount(a[1..], p, x);
      assert a == [a[0]] + a[1..];
    }
  }

  lemma TakeStep<T>(s: seq<T>, i: nat)
    requires i < |s|
    ensures s[..i+1] == s[..i] + [s[i]]
  {
  }

  lemma TakeAll<T>(s: seq<T>)
    ensures s[..|s|] == s
  {
  }

  lemma Reassociate<T>(a: seq<T>, b: seq<T>, c: seq<T>)
    ensures (a + b) + c == a + (b + c)
  {
  }

  lemma HeadIsIn<T>(s: seq<T>)
    requires s != []
    ensures s[0] in s
  {
  }

  // Each element, with its position counted from `at`, replaced by a sequence.
  function FlatMap<T, U>(s: seq<T>, at: nat, f: (T, nat) -> seq<U>): seq<U> {
    if s == [] then [] else f(s[0], at) + FlatMap(s[1..], at + 1, f)
  }

  lemma {:induction false} FlatMapAppend<T, U>(a: seq<T>, b: seq<T>, at: nat, f: (T, nat) -> seq<U>)
    ensures FlatMap(a + b, at, f) == FlatMap(a, at, f) + FlatMap(b, at + |a|, f)
    decreases |a|
  {
    if a == [] {
      assert a + b == b;
    } else {
      assert (a + b)[0] == a[0] && (a + b)[1..] == a[1..] + b;
      FlatMapAppend(a[1..], b, at + 1, f);
      Reassociate(f(a[0], at), FlatMap(a[1..], at + 1, f), FlatMap(b, at + |a|, f));
    }
  }

  lemma FlatMapSnoc<T, U>(s: seq<T>, x: T, at: nat, f: (T, nat) -> seq<U>)
    ensures FlatMap(s + [x], at, f) == FlatMap(s, at, f) + f(x, at + |s|)
  {
    FlatMapAppend(s, [x], at, f);
    assert [x][1..] == [];
  }

  lemma FlatMapTake<T, U>(s: seq<T>, i: nat, at: nat, f: (T, nat) -> seq<U>)
    requires i < |s|
    ensures FlatMap(s[..i+1], at, f) == FlatMap(s[..i], at, f) + f(s[i], at + i)
  {
    TakeStep(s, i);
    FlatMapSnoc(s[..i], s[i], at, f);
  }

  lemma {:induction false} FlatMapMember<T(!new), U(!new)>(s: seq<T>, at: nat, f: (T, nat) -> seq<U>, u: U)
    requires forall x, i: nat :: f(x, i) == f(x, 0)
    ensures u in FlatMap(s, at, f) <==> exists x :: x in s && u in f(x, 0)
    decreases |s|
  {
    if s != [] {
      FlatMapMember(s[1..], at + 1, f, u);
      assert s == [s[0]] + s[1..];
      assert f(s[0], at) == f(s[0], 0);
    }
  }

  // ---------------------------------------------------------------- sorting

  ghost predicate TotalPreorder<T(!new)>(leq: (T, T) -> bool) {
    && (forall x, y :: leq(x, y) || leq(y, x))
    && (forall x, y, z :: leq(x, y) && leq(y, z) ==> leq(x, z))
  }

  ghost predicate Sorted<T>(s: seq<T>, leq: (T, T) -> bool) {
    forall i, j :: 0 <= i < j < |s| ==> leq(s[i], s[j])
  }

  // The library's stable sort.
  function StableSort<T>(s: seq<T>, leq: (T, T) -> bool): (r: seq<T>)
    ensures |r| == |s|
  {
    if s == [] then [] else Insert(s[0], StableSort(s[1..], leq), leq)
  }

  function Insert<T>(x: T, s: seq<T>, leq: (T, T) -> bool): (r: seq<T>)
    ensures |r| == |s| + 1
  {
    if s == [] || leq(x, s[0]) then [x] + s else [s[0]] + Insert(x, s[1..], leq)
  }

  lemma {:induction false} InsertKeeps<T(!new)>(x: T, s: seq<T>, leq: (T, T) -> bool)
    requires TotalPreorder(leq) && Sorted(s, leq)
    ensures Sorted(Insert(x, s, leq), leq)
    ensures multiset(Insert(x, s, leq)) == multiset{x} + multiset(s)
  {
    if s == [] || leq(x, s[0]) {
    } else {
      InsertKeeps(x, s[1..], leq);
      var r := Insert(x, s[1..], leq);
      assert s == [s[0]] + s[1..];
      forall k | 0 <= k < |r| ensures leq(s[0], r[k]) {
        assert r[k] in multiset(r);
        assert r[k] == x || r[k] in s[1..];
      }
    }
  }

  lemma {:induction false} StableSortSorts<T(!new)>(s: seq<T>, leq: (T, T) -> bool)
    requires TotalPreorder(leq)
    ensures Sorted(StableSort(s, leq), leq)
    ensures multiset(StableSort(s, leq)) == multiset(s)
    ensures forall x :: x in StableSort(s, leq) <==> x in s
  {
    if s != [] {
      StableSortSorts(s[1..], leq);
      InsertKeeps(s[0], StableSort(s[1..], leq), leq);
      assert s == [s[0]] + s[1..];
    }
    assert forall x :: x in StableSort(s, leq) <==> x in multiset(StableSort(s, leq));
    assert forall x :: x in s <==> x in multiset(s);
  }

  // Elements that tie keep the order they came in.
  lemma {:induction false} StableSortIsStable<T(!new)>(s: seq<T>, leq: (T, T) -> bool, tied: T -> bool)
    requires TotalPreorder(leq)
    requires forall x, y :: x in s && y in s && tied(x) && tied(y) ==> leq(x, y)
    ensures Filter(StableSort(s, leq), tied) == Filter(s, tied)
  {
    if s != [] {
      StableSortIsStable(s[1..], leq, tied);
      StableSortSorts(s[1..], leq);
      InsertIsStable(s[0], StableSort(s[1..], leq), leq, tied);
    }
  }

  lemma {:induction false} InsertIsStable<T(!new)>(x: T, s: seq<T>, leq: (T, T) -> bool, tied: T -> bool)
    requires forall y :: y in s && tied(x) && tied(y) ==> leq(x, y)
    ensures Filter(Insert(x, s, leq), tied) == (if tied(x) then [x] else []) + Filter(s, tied)
  {
    if s == [] || leq(x, s[0]) {
      assert ([x] + s)[1..] == s;
    } else {
      InsertIsStable(x, s[1..], leq, tied);
      var r := Insert(x, s[1..], leq);
      assert ([s[0]] + r)[1..] == r;
    }
  }

  lemma TwiceInSequence<T>(r: seq<T>, i: nat, j: nat)
    requires i < j < |r| && r[i] == r[j]
    ensures multiset(r)[r[i]] >= 2
  {
    assert r == r[..j] + r[j..];
    assert r[i] in r[..j] && r[j] in r[j..];
    assert multiset(r[..j])[r[i]] >= 1 && multiset(r[j..])[r[i]] >= 1;
  }

  lemma TailMultiset<T>(s: seq<T>)
    requires s != []
    ensures s == [s[0]] + s[1..]
    ensures multiset(s[1..]) == multiset(s) - multiset{s[0]}
  {
    assert s == [s[0]] + s[1..];
  }

  lemma SharedHead<T>(a: seq<T>, b: seq<T>)
    requires a != [] && multiset(a) == multiset(b)
    ensures b != [] && a[0] in b
  {
    HeadIsIn(a);
    assert a[0] in multiset(a);
    assert |multiset(b)| == |b|;
  }

  lemma HeadIsLeast<T>(s: seq<T>, x: T, leq: (T, T) -> bool)
    requires x in s && Sorted(s, leq)
    ensures x == s[0] || leq(s[0], x)
  {
    var i :| 0 <= i < |s| && s[i] == x;
  }

  lemma HeadsAgree<T(!new)>(a: seq<T>, b: seq<T>, leq: (T, T) -> bool)
    requires Sorted(a, leq) && Sorted(b, leq)
    requires a != [] && multiset(a) == multiset(b)
    requires forall x, y :: x in a && y in a && leq(x, y) && leq(y, x) ==> x == y
    ensures b != [] && a[0] == b[0]
  {
    SharedHead(a, b);
    SharedHead(b, a);
    HeadIsLeast(a, b[0], leq);
    HeadIsLeast(b, a[0], leq);
    HeadIsIn(a);
  }

  lemma SortedTail<T>(s: seq<T>, leq: (T, T) -> bool)
    requires s != [] && Sorted(s, leq)
    ensures Sorted(s[1..], leq) && forall x :: x in s[1..] ==> x in s
  {
  }

  // Two sorted arrangements of the same elements are equal when no two
  // different elements tie.
  lemma {:induction false} SortedUnique<T(!new)>(a: seq<T>, b: seq<T>, leq: (T, T) -> bool)
    requires Sorted(a, leq) && Sorted(b, leq)
    requires multiset(a) == multiset(b)
    requires forall x, y :: x in a && y in a && leq(x, y) && leq(y, x) ==> x == y
    ensures a == b
    decreases |a|
  {
    if a == [] {
      assert |multiset(b)| == 0;
    } else {
      HeadsAgree(a, b, leq);
      TailMultiset(a);
      TailMultiset(b);
      SortedTail(a, leq);
      SortedTail(b, leq);
      SortedUnique(a[1..], b[1..], leq);
    }
  }

  // Filtering commutes with sorting.
  lemma {:induction false} FilterSorted<T(!new)>(s: seq<T>, leq: (T, T) -> bool, p: T -> bool)
    requires Sorted(s, leq)
    ensures Sorted(Filter(s, p), leq)
  {
    if s != [] {
      FilterSorted(s[1..], leq, p);
      var rest := Filter(s[1..], p);
      forall k | 0 <= k < |rest| ensures rest[k] in s[1..] {
        FilterMember(s[1..], p, rest[k]);
      }
    }
  }

  // ---------------------------------------------------------------- strings

  // Byte-wise string order, as the Go `<` operator and sort.Strings use it.
  predicate StringLeq(a: string, b: string) {
    a == [] || (b != [] && (a[0] < b[0] || (a[0] == b[0] && StringLeq(a[1..], b[1..]))))
  }

  // The strings agree up to their k-th characters, of which a's is the lower.
  predicate LowerAt(a: string, b: string, k: nat) {
    k < |a| && k < |b| && (forall i :: 0 <= i < k ==> a[i] == b[i]) && a[k] < b[k]
  }

  lemma TailDecides(a: string, b: string)
    requires a != [] && b != [] && a[0] == b[0]
    ensures (exists k: nat :: LowerAt(a, b, k)) <==> (exists k: nat :: LowerAt(a[1..], b[1..], k))
  {
    if k: nat :| LowerAt(a, b, k) {
      assert LowerAt(a[1..], b[1..], k - 1);
    }
    if k: nat :| LowerAt(a[1..], b[1..], k) {
      forall i | 0 <= i < k + 1 ensures a[i] == b[i] {
        assert i > 0 ==> a[1..][i - 1] == b[1..][i - 1];
      }
      assert LowerAt(a, b, k + 1);
    }
  }

  // A string comes before those it begins, and otherwise the first character
  // that differs decides.
  lemma {:induction false} StringLeqIff(a: string, b: string)
    ensures StringLeq(a, b) <==> a <= b || exists k: nat :: LowerAt(a, b, k)
  {
    if a != [] && b != [] {
      if a[0] == b[0] {
        StringLeqIff(a[1..], b[1..]);
        TailDecides(a, b);
        assert a == [a[0]] + a[1..] && b == [b[0]] + b[1..];
        assert a <= b <==> a[1..] <= b[1..];
      } else if a[0] < b[0] {
        assert LowerAt(a, b, 0);
      }
    }
  }

  lemma {:induction false} StringLeqTotal(a: string, b: string)
    ensures StringLeq(a, b) || StringLeq(b, a)
    ensures StringLeq(a, b) && StringLeq(b, a) ==> a == b
  {
    if a != [] && b != [] && a[0] == b[0] {
      StringLeqTotal(a[1..], b[1..]);
      assert a == [a[0]] + a[1..] && b == [b[0]] + b[1..];
    }
  }

  lemma {:induction false} StringLeqTransitive(a: string, b: string, c: string)
    requires StringLeq(a, b) && StringLeq(b, c)
    ensures StringLeq(a, c)
  {
    if a != [] && b != [] && c != [] && a[0] == b[0] == c[0] {
      StringLeqTransitive(a[1..], b[1..], c[1..]);
    }
  }

  lemma StringOrder()
    ensures TotalPreorder(StringLeq)
    ensures forall a, b :: StringLeq(a, b) && StringLeq(b, a) ==> a == b
  {
    forall a, b ensures StringLeq(a, b) || StringLeq(b, a)
            ensures StringLeq(a, b) && StringLeq(b, a) ==> a == b {
      StringLeqTotal(a, b);
    }
    forall a, b, c | StringLeq(a, b) && StringLeq(b, c) ensures StringLeq(a, c) {
      StringLeqTransitive(a, b, c);
    }
  }
}
