// batch.go: the morning batch, grouped by action type and ranked by confidence.
module Batch {
  import opened Wrappers
  import opened Sequences
  import opened AgentsDomain

  function Confidence(r: Routed): real {
    match r.proposal.confidence
    case None => 0.0
    case Some(c) => c
  }

  predicate RanksBefore(a: Routed, b: Routed) {
    Confidence(a) >= Confidence(b)
  }

  function OfType(actionType: string): Routed -> bool {
    (r: Routed) => r.proposal.actionType == actionType
  }

  function WithConfidence(c: real): Routed -> bool {
    (r: Routed) => Confidence(r) == c
  }

  // A group's items are its type's proposals, most confident first, and
  // equally confident proposals stay in input order.
  ghost predicate Ranks(input: seq<Routed>, items: seq<Routed>) {
    && Sorted(items, RanksBefore)
    && forall c :: Filter(items, WithConfidence(c)) == Filter(input, WithConfidence(c))
  }

  ghost predicate KeysIncrease(groups: seq<Group>) {
    StrictlyIncreasing(Keys(groups))
  }

  ghost predicate IsRankedGroup(input: seq<Routed>, g: Group) {
    g.items != [] && Ranks(Filter(input, OfType(g.actionType)), g.items)
  }

  // What the batch promises about its input, without saying how it is built.
  ghost predicate IsCanonicalBatch(input: seq<Routed>, groups: seq<Group>) {
    && KeysIncrease(groups)
    && (forall g :: g in groups ==> IsRankedGroup(input, g))
    && (forall r :: r in input ==> r.proposal.actionType in Keys(groups))
  }

  // In each group of the batch the more confident stand first, a proposal
  // without a confidence counting as zero, and equally confident ones stand as
  // they came in.
  lemma MostConfidentFirst(input: seq<Routed>, groups: seq<Group>, g: Group, i: nat, j: nat)
    requires IsCanonicalBatch(input, groups) && g in groups && i < j < |g.items|
    ensures var a, b := g.items[i].proposal.confidence, g.items[j].proposal.confidence;
      (if a.Some? then a.value else 0.0) >= (if b.Some? then b.value else 0.0)
  {
    assert IsRankedGroup(input, g);
    assert RanksBefore(g.items[i], g.items[j]);
  }

  // ------------------------------------------------ the promise is unique

  lemma {:induction false} RankingUnique(a: seq<Routed>, b: seq<Routed>)
    requires Sorted(a, RanksBefore) && Sorted(b, RanksBefore)
    requires forall c :: Filter(a, WithConfidence(c)) == Filter(b, WithConfidence(c))
    ensures a == b
  {
    SameElements(a, b);
    if a == [] {
      if b != [] {
        HeadIsIn(b);
        assert false;
      }
    } else {
      HeadIsIn(a);
      HeadIsIn(b);
      assert a[0] in b && b[0] in a;
      var c := Confidence(a[0]);
      assert c == Confidence(b[0]);
      assert Filter(a, WithConfidence(c))[0] == a[0];
      assert Filter(b, WithConfidence(c))[0] == b[0];
      forall d ensures Filter(a[1..], WithConfidence(d)) == Filter(b[1..], WithConfidence(d)) {
        assert Filter(a, WithConfidence(d)) == (if d == c then [a[0]] else []) + Filter(a[1..], WithConfidence(d));
        assert Filter(b, WithConfidence(d)) == (if d == c then [b[0]] else []) + Filter(b[1..], WithConfidence(d));
        if d == c {
          assert Filter(a[1..], WithConfidence(d)) == Filter(a, WithConfidence(d))[1..];
          assert Filter(b[1..], WithConfidence(d)) == Filter(b, WithConfidence(d))[1..];
        }
      }
      RankingUnique(a[1..], b[1..]);
      assert a == [a[0]] + a[1..] && b == [b[0]] + b[1..];
    }
  }

  lemma SameElements(a: seq<Routed>, b: seq<Routed>)
    requires forall c :: Filter(a, WithConfidence(c)) == Filter(b, WithConfidence(c))
    ensures forall r :: r in a <==> r in b
  {
    forall r ensures r in a <==> r in b {
      FilterMember(a, WithConfidence(Confidence(r)), r);
      FilterMember(b, WithConfidence(Confidence(r)), r);
    }
  }

  function Keys(groups: seq<Group>): (keys: seq<string>)
    ensures |keys| == |groups|
    ensures forall i :: 0 <= i < |groups| ==> keys[i] == groups[i].actionType
  {
    seq(|groups|, i requires 0 <= i < |groups| => groups[i].actionType)
  }

  ghost predicate StrictlyIncreasing(keys: seq<string>) {
    forall i, j :: 0 <= i < j < |keys| ==> StringLeq(keys[i], keys[j]) && keys[i] != keys[j]
  }

  lemma {:induction false} IncreasingUnique(a: seq<string>, b: seq<string>)
    requires StrictlyIncreasing(a) && StrictlyIncreasing(b)
    requires forall k :: k in a <==> k in b
    ensures a == b
  {
    if a == [] {
      if b != [] {
        HeadIsIn(b);
        assert false;
      }
    } else {
      assert a[0] in b && b[0] in a;
      StringLeqTotal(a[0], b[0]);
      assert a[0] == b[0];
      assert a == [a[0]] + a[1..] && b == [b[0]] + b[1..];
      assert forall k :: k in a[1..] <==> k in a && k != a[0];
      assert forall k :: k in b[1..] <==> k in b && k != b[0];
      IncreasingUnique(a[1..], b[1..]);
    }
  }

  lemma {:induction false} TailKeys(g: seq<Group>, k: string)
    requires KeysIncrease(g) && g != []
    ensures k in Keys(g[1..]) <==> k in Keys(g) && k != g[0].actionType
  {
    assert Keys(g) == [g[0].actionType] + Keys(g[1..]);
    assert forall x :: x in Keys(g[1..]) ==> x != g[0].actionType;
  }

  // Two batches that keep the promise for the same input are the same batch.
  lemma CanonicalBatchUnique(input: seq<Routed>, g: seq<Group>, h: seq<Group>)
    requires IsCanonicalBatch(input, g) && IsCanonicalBatch(input, h)
    ensures g == h
  {
    forall k: string ensures k in Keys(g) <==> k in Keys(h) {
      KeyIffInput(input, g, k);
      KeyIffInput(input, h, k);
    }
    IncreasingUnique(Keys(g), Keys(h));
    forall i | 0 <= i < |g| ensures g[i] == h[i] {
      assert Keys(g)[i] == Keys(h)[i];
      assert g[i] in g && h[i] in h;
      RankingUnique(g[i].items, h[i].items);
    }
  }

  // The group keys are exactly the action types of the input.
  lemma KeyIffInput(input: seq<Routed>, g: seq<Group>, k: string)
    requires IsCanonicalBatch(input, g)
    ensures k in Keys(g) <==> (exists r :: r in input && r.proposal.actionType == k)
  {
    if k in Keys(g) {
      var i :| 0 <= i < |g| && Keys(g)[i] == k;
      var x := g[i];
      assert x in g;
      SameElements(x.items, Filter(input, OfType(k)));
      assert x.items[0] in x.items;
      FilterMember(input, OfType(k), x.items[0]);
    }
  }

  // The batch depends only on each action type's own subsequence.
  lemma SameSubsequencesSameBatch(a: seq<Routed>, b: seq<Routed>, g: seq<Group>, h: seq<Group>)
    requires forall k: string :: Filter(a, OfType(k)) == Filter(b, OfType(k))
    requires IsCanonicalBatch(a, g) && IsCanonicalBatch(b, h)
    ensures g == h
  {
    forall r | r in b ensures r.proposal.actionType in Keys(g) {
      FilterMember(b, OfType(r.proposal.actionType), r);
      FilterMember(a, OfType(r.proposal.actionType), r);
      KeyIffInput(a, g, r.proposal.actionType);
    }
    assert IsCanonicalBatch(b, g);
    CanonicalBatchUnique(b, g, h);
  }

  // ------------------------------------------------ nothing lost or added

  function Flatten(groups: seq<Group>): seq<Routed> {
    if groups == [] then [] else groups[0].items + Flatten(groups[1..])
  }

  lemma {:induction false} CountByConfidence(items: seq<Routed>, r: Routed)
    ensures multiset(items)[r] == multiset(Filter(items, WithConfidence(Confidence(r))))[r]
  {
    if items != [] {
      assert items == [items[0]] + items[1..];
      CountByConfidence(items[1..], r);
    }
  }

  lemma {:induction false} CountByType(items: seq<Routed>, k: string, r: Routed)
    ensures multiset(Filter(items, OfType(k)))[r] == if r.proposal.actionType == k then multiset(items)[r] else 0
  {
    if items != [] {
      assert items == [items[0]] + items[1..];
      CountByType(items[1..], k, r);
    }
  }

  lemma {:induction false} CountFlattened(input: seq<Routed>, groups: seq<Group>, r: Routed)
    requires KeysIncrease(groups)
    requires forall g :: g in groups ==> IsRankedGroup(input, g)
    ensures multiset(Flatten(groups))[r] ==
      if r.proposal.actionType in Keys(groups) then multiset(input)[r] else 0
  {
    if groups != [] {
      var k := groups[0].actionType;
      assert groups[0] in groups;
      CountFlattened(input, groups[1..], r);
      TailKeys(groups, r.proposal.actionType);
      CountByConfidence(groups[0].items, r);
      CountByConfidence(Filter(input, OfType(k)), r);
      CountByType(input, k, r);
    }
  }

  // Reading the groups one after another gives back every proposal exactly once.
  lemma BatchPermutesInput(input: seq<Routed>, groups: seq<Group>)
    requires IsCanonicalBatch(input, groups)
    ensures multiset(Flatten(groups)) == multiset(input)
  {
    forall r ensures multiset(Flatten(groups))[r] == multiset(input)[r] {
      CountFlattened(input, groups, r);
      if r in multiset(input) {
        assert r in input;
      }
    }
  }

  // ------------------------------------------------------- the algorithm

  lemma RankIsRanked(items: seq<Routed>)
    ensures Ranks(items, StableSort(items, RanksBefore))
  {
    assert TotalPreorder(RanksBefore);
    StableSortSorts(items, RanksBefore);
    forall c ensures Filter(StableSort(items, RanksBefore), WithConfidence(c)) == Filter(items, WithConfidence(c)) {
      StableSortIsStable(items, RanksBefore, WithConfidence(c));
    }
  }

  // What the first loop has gathered from `seen`.
  ghost predicate Gathered(seen: seq<Routed>, byType: map<string, seq<Routed>>, order: seq<string>) {
    && (forall k :: k in byType <==> k in order)
    && (forall a, b :: 0 <= a < b < |order| ==> order[a] != order[b])
    && (forall k :: k in byType ==> byType[k] == Filter(seen, OfType(k)) && byType[k] != [])
    && (forall r :: r in seen ==> r.proposal.actionType in byType)
  }

  lemma GatherOne(seen: seq<Routed>, p: Routed, byType: map<string, seq<Routed>>, order: seq<string>)
    requires Gathered(seen, byType, order)
    ensures var k := p.proposal.actionType;
      Gathered(seen + [p],
               byType[k := (if k in byType then byType[k] else []) + [p]],
               if k in byType then order else order + [k])
  {
    var k := p.proposal.actionType;
    FilterStep(seen, p);
    if k !in byType {
      FilterNone(seen, OfType(k));
    }
  }

  // The first loop: one list per action type, types in first-seen order.
  method CollectByType(input: seq<Routed>) returns (byType: map<string, seq<Routed>>, order: seq<string>)
    ensures Gathered(input, byType, order)
  {
    byType, order := map[], [];
    for i := 0 to |input|
      invariant Gathered(input[..i], byType, order)
    {
      var p := input[i];
      var k := p.proposal.actionType;
      GatherOne(input[..i], p, byType, order);
      TakeStep(input, i);
      if k !in byType {
        order := order + [k];
      }
      byType := byType[k := (if k in byType then byType[k] else []) + [p]];
    }
    TakeAll(input);
  }

  lemma FilterStep(seen: seq<Routed>, p: Routed)
    ensures forall t: string {:trigger OfType(t)} ::
      Filter(seen + [p], OfType(t)) == Filter(seen, OfType(t)) + (if t == p.proposal.actionType then [p] else [])
  {
    forall t: string
      ensures Filter(seen + [p], OfType(t))
        == Filter(seen, OfType(t)) + (if t == p.proposal.actionType then [p] else [])
    {
      FilterAppend(seen, [p], OfType(t));
      assert [p][1..] == [];
    }
  }

  method GroupAndRank(input: seq<Routed>) returns (groups: seq<Group>)
    ensures IsCanonicalBatch(input, groups)
  {
    var byType, order := CollectByType(input);
    var keys := StableSort(order, StringLeq);
    SortedKeys(order);
    groups := [];
    for i := 0 to |keys|
      invariant Keys(groups) == keys[..i]
      invariant forall g :: g in groups ==> IsRankedGroup(input, g)
    {
      var k := keys[i];
      var items := StableSort(byType[k], RanksBefore);
      RankGathered(input, byType, order, k);
      KeysAppend(groups, Group(k, items));
      TakeStep(keys, i);
      groups := groups + [Group(k, items)];
    }
    TakeAll(keys);
  }

  lemma RankGathered(input: seq<Routed>, byType: map<string, seq<Routed>>, order: seq<string>, k: string)
    requires Gathered(input, byType, order) && k in byType
    ensures IsRankedGroup(input, Group(k, StableSort(byType[k], RanksBefore)))
  {
    RankIsRanked(byType[k]);
  }

  lemma KeysAppend(groups: seq<Group>, g: Group)
    ensures Keys(groups + [g]) == Keys(groups) + [g.actionType]
  {
  }

  lemma SortedKeys(order: seq<string>)
    requires forall a, b :: 0 <= a < b < |order| ==> order[a] != order[b]
    ensures StrictlyIncreasing(StableSort(order, StringLeq))
    ensures forall k :: k in StableSort(order, StringLeq) <==> k in order
  {
    StringOrder();
    StableSortSorts(order, StringLeq);
    SortedDistinct(order, StableSort(order, StringLeq));
  }

  lemma SortedDistinct(order: seq<string>, keys: seq<string>)
    requires forall a, b :: 0 <= a < b < |order| ==> order[a] != order[b]
    requires multiset(keys) == multiset(order)
    ensures forall a, b :: 0 <= a < b < |keys| ==> keys[a] != keys[b]
  {
    forall a, b | 0 <= a < b < |keys| ensures keys[a] != keys[b] {
      if keys[a] == keys[b] {
        assert keys == keys[..a] + [keys[a]] + keys[a+1..b] + [keys[b]] + keys[b+1..];
        assert multiset(keys)[keys[a]] >= 2;
        DistinctCount(order, keys[a]);
      }
    }
  }

  lemma {:induction false} DistinctCount(order: seq<string>, k: string)
    requires forall a, b :: 0 <= a < b < |order| ==> order[a] != order[b]
    ensures multiset(order)[k] <= 1
  {
    if order != [] {
      assert order == [order[0]] + order[1..];
      DistinctCount(order[1..], k);
      if order[0] == k {
        assert k !in order[1..];
      }
    }
  }

  // A producer error degrades the run whatever survived; an empty input with
  // no error is quiet.
  method BuildBatch(input: seq<Routed>, producerErr: Option<string>) returns (result: RunResult)
    ensures result.state == (if producerErr.Some? then RunDegraded else if input == [] then RunQuiet else RunNormal)
    ensures IsCanonicalBatch(input, result.groups)
    ensures result.reason == (if producerErr.Some? then producerErr.value else "")
  {
    var groups := GroupAndRank(input);
    match producerErr {
      case Some(reason) => result := RunResult(RunDegraded, groups, reason);
      case None =>
        if |input| == 0 {
          assert IsCanonicalBatch(input, []);
          result := RunResult(RunQuiet, [], "");
        } else {
          result := RunResult(RunNormal, groups, "");
        }
    }
  }
}
