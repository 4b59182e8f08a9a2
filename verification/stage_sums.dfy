// store_rollup.go: the per-stage accumulation, whatever the sums are of.
module StageSums {
  // Unweighted and weighted totals and a number of deals.
  datatype Sum = Sum(unweighted: int, weighted: int, count: int)

  // What one deal adds, and to which stage.
  datatype Entry = Entry(stageId: string, sum: Sum)

  const ZERO := Sum(0, 0, 0)

  function Plus(a: Sum, b: Sum): Sum {
    Sum(a.unweighted + b.unweighted, a.weighted + b.weighted, a.count + b.count)
  }

  function Total(entries: seq<Entry>): Sum {
    if entries == [] then ZERO else Plus(Total(entries[..|entries| - 1]), entries[|entries| - 1].sum)
  }

  function StageTotal(entries: seq<Entry>, stageId: string): Sum {
    if entries == [] then ZERO
    else
      var last := entries[|entries| - 1];
      Plus(StageTotal(entries[..|entries| - 1], stageId), if last.stageId == stageId then last.sum else ZERO)
  }

  // The stages, each once, in order of first appearance.
  function StageOrder(entries: seq<Entry>): seq<string> {
    if entries == [] then []
    else
      var before, stage := StageOrder(entries[..|entries| - 1]), entries[|entries| - 1].stageId;
      if stage in before then before else before + [stage]
  }

  lemma TotalSnoc(entries: seq<Entry>, e: Entry)
    ensures Total(entries + [e]) == Plus(Total(entries), e.sum)
  {
    assert (entries + [e])[..|entries|] == entries;
  }

  lemma OrderSnoc(entries: seq<Entry>, e: Entry)
    ensures StageOrder(entries + [e]) == if e.stageId in StageOrder(entries) then StageOrder(entries)
      else StageOrder(entries) + [e.stageId]
  {
    assert (entries + [e])[..|entries|] == entries;
  }

  lemma {:induction false} StageOrderIs(entries: seq<Entry>, s: string)
    ensures s in StageOrder(entries) <==> exists i :: 0 <= i < |entries| && entries[i].stageId == s
    ensures forall i, j :: 0 <= i < j < |StageOrder(entries)| ==> StageOrder(entries)[i] != StageOrder(entries)[j]
  {
    if entries != [] {
      var n := |entries| - 1;
      StageOrderIs(entries[..n], s);
      if i :| 0 <= i < |entries| && entries[i].stageId == s {
        assert i < n ==> entries[..n][i].stageId == s;
      }
    }
  }

  // The first entry of a stage is the k-th.
  predicate FirstAt(entries: seq<Entry>, stageId: string, k: nat) {
    k < |entries| && entries[k].stageId == stageId && forall j :: 0 <= j < k ==> entries[j].stageId != stageId
  }

  lemma {:induction false} FirstExists(entries: seq<Entry>, stageId: string) returns (k: nat)
    requires stageId in StageOrder(entries)
    ensures FirstAt(entries, stageId, k)
  {
    var n := |entries| - 1;
    StageOrderIs(entries[..n], stageId);
    if stageId in StageOrder(entries[..n]) {
      k := FirstExists(entries[..n], stageId);
    } else {
      k := n;
      assert forall j :: 0 <= j < n ==> entries[..n][j].stageId != stageId;
    }
  }

  // A stage stands before another exactly because its first entry does.
  lemma {:induction false} StageOrderByFirst(entries: seq<Entry>, i: nat, j: nat) returns (a: nat, b: nat)
    requires i < j < |StageOrder(entries)|
    ensures a < b && FirstAt(entries, StageOrder(entries)[i], a) && FirstAt(entries, StageOrder(entries)[j], b)
  {
    var n := |entries| - 1;
    var before := StageOrder(entries[..n]);
    if j < |before| {
      a, b := StageOrderByFirst(entries[..n], i, j);
    } else {
      var stage := entries[n].stageId;
      a := FirstExists(entries[..n], before[i]);
      b := n;
      StageOrderIs(entries[..n], stage);
      assert forall k :: 0 <= k < n ==> entries[..n][k].stageId != stage;
    }
  }

  // Sums of the stages of `order`, added up.
  function SumOver(order: seq<string>, entries: seq<Entry>): Sum {
    if order == [] then ZERO else Plus(StageTotal(entries, order[0]), SumOver(order[1..], entries))
  }

  lemma StageSnoc(entries: seq<Entry>, e: Entry, stageId: string)
    ensures StageTotal(entries + [e], stageId)
      == Plus(StageTotal(entries, stageId), if e.stageId == stageId then e.sum else ZERO)
  {
    assert (entries + [e])[..|entries|] == entries;
  }

  lemma OtherStage(entries: seq<Entry>, e: Entry, stageId: string)
    requires e.stageId != stageId
    ensures StageTotal(entries + [e], stageId) == StageTotal(entries, stageId)
  {
    StageSnoc(entries, e, stageId);
  }

  lemma {:induction false} SumOverOthers(order: seq<string>, entries: seq<Entry>, after: seq<Entry>, e: Entry)
    requires e.stageId !in order && after == entries + [e]
    ensures SumOver(order, after) == SumOver(order, entries)
  {
    if order != [] {
      SumOverOthers(order[1..], entries, after, e);
      OtherStage(entries, e, order[0]);
    }
  }

  // One more entry adds its sum to its own stage, once.
  lemma {:induction false} SumOverGrows(order: seq<string>, k: nat, entries: seq<Entry>, after: seq<Entry>, e: Entry)
    requires k < |order| && order[k] == e.stageId && after == entries + [e]
    requires forall i :: 0 <= i < |order| && i != k ==> order[i] != e.stageId
    ensures SumOver(order, after) == Plus(SumOver(order, entries), e.sum)
  {
    StageSnoc(entries, e, order[0]);
    if k == 0 {
      SumOverOthers(order[1..], entries, after, e);
    } else {
      SumOverGrows(order[1..], k - 1, entries, after, e);
    }
  }

  lemma {:induction false} SumOverSnoc(order: seq<string>, stage: string, entries: seq<Entry>)
    ensures SumOver(order + [stage], entries) == Plus(SumOver(order, entries), StageTotal(entries, stage))
  {
    if order == [] {
      assert [stage][1..] == [];
      assert [] + [stage] == [stage];
    } else {
      assert (order + [stage])[1..] == order[1..] + [stage];
      SumOverSnoc(order[1..], stage, entries);
    }
  }

  lemma {:induction false} NewStageIsEmpty(entries: seq<Entry>, stage: string)
    requires stage !in StageOrder(entries)
    ensures StageTotal(entries, stage) == ZERO
  {
    if entries != [] {
      NewStageIsEmpty(entries[..|entries| - 1], stage);
    }
  }

  // The stages' sums add up to the total: nothing is lost or counted twice.
  lemma {:induction false} StagesAddUp(entries: seq<Entry>)
    ensures SumOver(StageOrder(entries), entries) == Total(entries)
  {
    if entries != [] {
      var init, e := entries[..|entries| - 1], entries[|entries| - 1];
      assert entries == init + [e];
      StagesAddUp(init);
      TotalSnoc(init, e);
      AddUpStep(init, e);
    }
  }

  lemma AddUpStep(init: seq<Entry>, e: Entry)
    ensures SumOver(StageOrder(init + [e]), init + [e]) == Plus(SumOver(StageOrder(init), init), e.sum)
  {
    var order := StageOrder(init);
    StageOrderIs(init, e.stageId);
    OrderSnoc(init, e);
    StageSnoc(init, e, e.stageId);
    if e.stageId in order {
      var k :| 0 <= k < |order| && order[k] == e.stageId;
      SumOverGrows(order, k, init, init + [e], e);
    } else {
      SumOverOthers(order, init, init + [e], e);
      SumOverSnoc(order, e.stageId, init + [e]);
      NewStageIsEmpty(init, e.stageId);
    }
  }

  // The loop's stage map and order describe the entries seen so far.
  ghost predicate Seen(byStage: map<string, Sum>, order: seq<string>, entries: seq<Entry>) {
    && order == StageOrder(entries)
    && (forall s :: s in byStage <==> s in order)
    && (forall s :: s in byStage ==> byStage[s] == StageTotal(entries, s))
  }

  lemma SeenStep(byStage: map<string, Sum>, order: seq<string>, entries: seq<Entry>, e: Entry)
    requires Seen(byStage, order, entries)
    ensures Seen(byStage[e.stageId := Plus(if e.stageId in byStage then byStage[e.stageId] else ZERO, e.sum)],
                 if e.stageId in byStage then order else order + [e.stageId], entries + [e])
  {
    forall t ensures StageTotal(entries + [e], t)
      == Plus(StageTotal(entries, t), if e.stageId == t then e.sum else ZERO) {
      StageSnoc(entries, e, t);
    }
    OrderSnoc(entries, e);
    if e.stageId !in byStage {
      NewStageIsEmpty(entries, e.stageId);
    }
  }
}
