// deal_reader.go: the velocity history and the open-deal snapshots the
// close-date pass works from.
module DealReader {
  import opened Wrappers
  import opened Sequences
  import opened DealDomain

  // One workspace's tables. Deals are held in id order, the order the reader's
  // query returns them in.
  datatype DealRow = DealRow(
    id: string, pipelineId: string, stageId: string, status: Status,
    expectedClose: Option<Date>, forecastCategory: Option<string>, version: int,
    lastActivityAt: Option<Instant>, waitUntil: Option<Date>, createdAt: Instant, archived: bool)

  datatype StageRow = StageRow(pipelineId: string, position: int, winProbability: int, semantic: Status, archived: bool)

  datatype HistoryRow = HistoryRow(dealId: string, occurredAt: Instant)

  datatype Tables = Tables(stages: map<string, StageRow>, deals: seq<DealRow>, history: seq<HistoryRow>)

  datatype Snapshot = Snapshot(
    dealId: string, workspaceId: string, pipelineId: string, status: Status,
    expectedClose: Option<Date>, forecastCategory: Option<string>,
    winProbability: int, remainingOpenStages: int, isStalled: bool, version: int)

  ghost predicate UniqueIds(deals: seq<DealRow>) {
    forall i, j :: 0 <= i < j < |deals| ==> deals[i].id != deals[j].id
  }

  // The composite foreign key: a deal's stage exists and is in its pipeline.
  predicate HasStage(d: DealRow, stages: map<string, StageRow>) {
    d.stageId in stages && stages[d.stageId].pipelineId == d.pipelineId
  }

  predicate IsLive(d: DealRow) { d.status == Open && !d.archived }

  // ------------------------------------------------------------ snapshots

  function OpenStagesFrom(stages: map<string, StageRow>, pipelineId: string, position: int): nat {
    |set s | s in stages && stages[s].pipelineId == pipelineId && !stages[s].archived
             && stages[s].semantic == Open && stages[s].position >= position|
  }

  function SnapshotOf(d: DealRow, stages: map<string, StageRow>, workspaceId: string, now: Instant): Snapshot
    requires HasStage(d, stages)
  {
    var stage := stages[d.stageId];
    Snapshot(d.id, workspaceId, d.pipelineId, d.status, d.expectedClose, d.forecastCategory,
             stage.winProbability,
             if stage.semantic == Open then OpenStagesFrom(stages, d.pipelineId, stage.position) else 0,
             IsStalled(d.status, d.createdAt, d.lastActivityAt, d.waitUntil, now),
             d.version)
  }

  function Snapshots(deals: seq<DealRow>, stages: map<string, StageRow>, workspaceId: string, now: Instant)
    : seq<Snapshot>
  {
    if deals == [] then []
    else
      (if IsLive(deals[0]) && HasStage(deals[0], stages) then [SnapshotOf(deals[0], stages, workspaceId, now)] else [])
      + Snapshots(deals[1..], stages, workspaceId, now)
  }

  lemma {:induction false} SnapshotsAppend(a: seq<DealRow>, b: seq<DealRow>, stages: map<string, StageRow>,
      workspaceId: string, now: Instant)
    ensures Snapshots(a + b, stages, workspaceId, now)
      == Snapshots(a, stages, workspaceId, now) + Snapshots(b, stages, workspaceId, now)
  {
    if a == [] {
      assert a + b == b;
    } else {
      assert (a + b)[1..] == a[1..] + b;
      SnapshotsAppend(a[1..], b, stages, workspaceId, now);
      var first := if IsLive(a[0]) && HasStage(a[0], stages) then [SnapshotOf(a[0], stages, workspaceId, now)] else [];
      Reassociate(first, Snapshots(a[1..], stages, workspaceId, now), Snapshots(b, stages, workspaceId, now));
    }
  }

  method ListOpenDeals(t: Tables, workspaceId: string, now: Instant) returns (snaps: seq<Snapshot>)
    ensures snaps == Snapshots(t.deals, t.stages, workspaceId, now)
  {
    snaps := [];
    for i := 0 to |t.deals|
      invariant snaps == Snapshots(t.deals[..i], t.stages, workspaceId, now)
    {
      var d := t.deals[i];
      TakeStep(t.deals, i);
      SnapshotsAppend(t.deals[..i], [d], t.stages, workspaceId, now);
      assert [d][1..] == [];
      if d.status == Open && !d.archived && HasStage(d, t.stages) {
        var stage := t.stages[d.stageId];
        var remaining := 0;
        if stage.semantic == Open {
          remaining := OpenStagesFrom(t.stages, d.pipelineId, stage.position);
        }
        var stalled := IsStalled(d.status, d.createdAt, d.lastActivityAt, d.waitUntil, now);
        snaps := snaps + [Snapshot(d.id, workspaceId, d.pipelineId, d.status, d.expectedClose, d.forecastCategory,
                                   stage.winProbability, remaining, stalled, d.version)];
      }
    }
    TakeAll(t.deals);
  }

  // ------------------------------------------------------------- velocity

  predicate IntLeq(a: int, b: int) { a <= b }

  predicate WonIn(d: DealRow, pipelineId: string) {
    d.pipelineId == pipelineId && d.status == Won && !d.archived
  }

  function TimesOf(history: seq<HistoryRow>, dealId: string): seq<Instant> {
    if history == [] then []
    else (if history[0].dealId == dealId then [history[0].occurredAt] else []) + TimesOf(history[1..], dealId)
  }

  // Whole days between consecutive stage changes.
  function Gaps(times: seq<Instant>): seq<int> {
    if |times| < 2 then [] else [(times[1] - times[0]) / DAY] + Gaps(times[1..])
  }

  function Samples(deals: seq<DealRow>, history: seq<HistoryRow>, pipelineId: string): seq<int> {
    if deals == [] then []
    else
      (if WonIn(deals[0], pipelineId) then Gaps(StableSort(TimesOf(history, deals[0].id), IntLeq)) else [])
      + Samples(deals[1..], history, pipelineId)
  }

  function WonCount(deals: seq<DealRow>, pipelineId: string): nat {
    if deals == [] then 0 else (if WonIn(deals[0], pipelineId) then 1 else 0) + WonCount(deals[1..], pipelineId)
  }

  function Median(samples: seq<int>): int {
    if samples == [] then 0 else StableSort(samples, IntLeq)[|samples| / 2]
  }

  // A won deal of the pipeline that is not archived.
  function WonLive(pipelineId: string): DealRow -> bool {
    (d: DealRow) => d.pipelineId == pipelineId && d.status == Won && !d.archived
  }

  lemma {:induction false} WonCounted(deals: seq<DealRow>, pipelineId: string)
    ensures WonCount(deals, pipelineId) == |Filter(deals, WonLive(pipelineId))|
  {
    if deals != [] {
      WonCounted(deals[1..], pipelineId);
    }
  }

  function OfDeal(dealId: string): HistoryRow -> bool {
    (h: HistoryRow) => h.dealId == dealId
  }

  // One time for each history row of the deal.
  lemma {:induction false} TimesAre(history: seq<HistoryRow>, dealId: string)
    ensures var own := Filter(history, OfDeal(dealId));
      && |TimesOf(history, dealId)| == |own|
      && forall i :: 0 <= i < |own| ==> TimesOf(history, dealId)[i] == own[i].occurredAt
  {
    if history != [] {
      TimesAre(history[1..], dealId);
    }
  }

  // The whole days between each time and the next.
  lemma {:induction false} GapsAre(times: seq<Instant>)
    ensures |Gaps(times)| == if times == [] then 0 else |times| - 1
    ensures forall i :: 0 <= i < |times| - 1 ==> Gaps(times)[i] == (times[i + 1] - times[i]) / 86_400_000_000_000
  {
    if |times| >= 2 {
      GapsAre(times[1..]);
    }
  }

  function GapsOf(history: seq<HistoryRow>): (DealRow, nat) -> seq<int> {
    (d: DealRow, at: nat) => Gaps(StableSort(TimesOf(history, d.id), IntLeq))
  }

  // The samples are the gaps of the pipeline's won live deals and of no other.
  lemma {:induction false} SamplesAre(deals: seq<DealRow>, history: seq<HistoryRow>, pipelineId: string, at: nat)
    ensures Samples(deals, history, pipelineId) == FlatMap(Filter(deals, WonLive(pipelineId)), at, GapsOf(history))
    decreases |deals|
  {
    if deals != [] {
      if WonIn(deals[0], pipelineId) {
        SamplesAre(deals[1..], history, pipelineId, at + 1);
        var kept := Filter(deals, WonLive(pipelineId));
        assert kept[0] == deals[0] && kept[1..] == Filter(deals[1..], WonLive(pipelineId));
      } else {
        SamplesAre(deals[1..], history, pipelineId, at);
      }
    }
  }

  lemma {:induction false} GapsNonNegative(times: seq<Instant>)
    requires Sorted(times, IntLeq)
    ensures forall g :: g in Gaps(times) ==> g >= 0
  {
    if |times| >= 2 {
      assert IntLeq(times[0], times[1]);
      GapsNonNegative(times[1..]);
    }
  }

  lemma {:induction false} SamplesNonNegative(deals: seq<DealRow>, history: seq<HistoryRow>, pipelineId: string)
    ensures forall x :: x in Samples(deals, history, pipelineId) ==> x >= 0
  {
    if deals != [] {
      SamplesNonNegative(deals[1..], history, pipelineId);
      StableSortSorts(TimesOf(history, deals[0].id), IntLeq);
      GapsNonNegative(StableSort(TimesOf(history, deals[0].id), IntLeq));
    }
  }

  // However deals' history is grouped, the observed velocity is never negative.
  lemma MedianNonNegative(deals: seq<DealRow>, history: seq<HistoryRow>, pipelineId: string)
    ensures Median(Samples(deals, history, pipelineId)) >= 0
  {
    var s := Samples(deals, history, pipelineId);
    SamplesNonNegative(deals, history, pipelineId);
    StableSortSorts(s, IntLeq);
    if s != [] {
      assert StableSort(s, IntLeq)[|s| / 2] in s;
    }
  }

  function Below(m: int): int -> bool { (x: int) => x < m }
  function AtMost(m: int): int -> bool { (x: int) => x <= m }

  // The median is the upper one: at most half of the samples lie strictly
  // below it and more than half are at or below it.
  lemma MedianMeaning(samples: seq<int>)
    requires samples != []
    ensures var m := Median(samples);
      && m in samples
      && |Filter(samples, Below(m))| <= |samples| / 2 < |Filter(samples, AtMost(m))|
  {
    var sorted := StableSort(samples, IntLeq);
    StableSortSorts(samples, IntLeq);
    SplitCounts(sorted, |samples| / 2);
    SameSize(samples, sorted, Below(Median(samples)));
    SameSize(samples, sorted, AtMost(Median(samples)));
  }

  lemma SameSize(a: seq<int>, b: seq<int>, p: int -> bool)
    requires multiset(a) == multiset(b)
    ensures |Filter(a, p)| == |Filter(b, p)|
  {
    FilterMultiset(a, b, p);
    assert |multiset(Filter(a, p))| == |Filter(a, p)| && |multiset(Filter(b, p))| == |Filter(b, p)|;
  }

  lemma SplitCounts(sorted: seq<int>, k: nat)
    requires Sorted(sorted, IntLeq) && k < |sorted|
    ensures |Filter(sorted, Below(sorted[k]))| <= k < |Filter(sorted, AtMost(sorted[k]))|
  {
    assert forall i :: 0 <= i < |sorted| && i <= k ==> IntLeq(sorted[i], sorted[k]) by {
      assert forall i :: 0 <= i < k ==> IntLeq(sorted[i], sorted[k]);
    }
    assert forall i :: k < i < |sorted| ==> IntLeq(sorted[k], sorted[i]);
    CountAtMost(sorted, k, Below(sorted[k]));
    CountAtLeast(sorted, k + 1, AtMost(sorted[k]));
  }

  lemma {:induction false} CountAtMost(s: seq<int>, k: nat, p: int -> bool)
    requires forall i :: k <= i < |s| ==> !p(s[i])
    ensures |Filter(s, p)| <= k
  {
    if s != [] {
      CountAtMost(s[1..], if k == 0 then 0 else k - 1, p);
    }
  }

  lemma {:induction false} CountAtLeast(s: seq<int>, k: nat, p: int -> bool)
    requires k <= |s| && forall i :: 0 <= i < k ==> p(s[i])
    ensures |Filter(s, p)| >= k
  {
    if k > 0 {
      CountAtLeast(s[1..], k - 1, p);
    }
  }

  // Grouping the history by deal in any order leaves the median as it is.
  lemma MedianIgnoresOrder(samples: seq<int>, shuffled: seq<int>)
    requires multiset(shuffled) == multiset(samples)
    ensures Median(shuffled) == Median(samples)
    ensures samples == [] ==> Median(samples) == 0
  {
    StableSortSorts(samples, IntLeq);
    StableSortSorts(shuffled, IntLeq);
    SortedUnique(StableSort(samples, IntLeq), StableSort(shuffled, IntLeq), IntLeq);
    assert |multiset(samples)| == |samples| && |multiset(shuffled)| == |shuffled|;
  }

  lemma {:induction false} SamplesAppend(a: seq<DealRow>, b: seq<DealRow>, history: seq<HistoryRow>, pipelineId: string)
    ensures Samples(a + b, history, pipelineId) == Samples(a, history, pipelineId) + Samples(b, history, pipelineId)
    ensures WonCount(a + b, pipelineId) == WonCount(a, pipelineId) + WonCount(b, pipelineId)
  {
    if a == [] {
      assert a + b == b;
    } else {
      assert (a + b)[1..] == a[1..] + b;
      SamplesAppend(a[1..], b, history, pipelineId);
      var first := if WonIn(a[0], pipelineId) then Gaps(StableSort(TimesOf(history, a[0].id), IntLeq)) else [];
      Reassociate(first, Samples(a[1..], history, pipelineId), Samples(b, history, pipelineId));
    }
  }

  lemma {:induction false} TimesAppend(a: seq<HistoryRow>, b: seq<HistoryRow>, dealId: string)
    ensures TimesOf(a + b, dealId) == TimesOf(a, dealId) + TimesOf(b, dealId)
  {
    if a == [] {
      assert a + b == b;
    } else {
      assert (a + b)[1..] == a[1..] + b;
      TimesAppend(a[1..], b, dealId);
      Reassociate(if a[0].dealId == dealId then [a[0].occurredAt] else [], TimesOf(a[1..], dealId), TimesOf(b, dealId));
    }
  }

  lemma {:induction false} GapsAppend(times: seq<Instant>, t: Instant)
    requires times != []
    ensures Gaps(times + [t]) == Gaps(times) + [(t - times[|times|-1]) / DAY]
  {
    if |times| == 1 {
      assert (times + [t])[1..] == [t];
    } else {
      assert (times + [t])[1..] == times[1..] + [t];
      GapsAppend(times[1..], t);
    }
  }

  // The stage-change times of one deal, in order, turned into day gaps.
  method DealGaps(history: seq<HistoryRow>, dealId: string) returns (gaps: seq<int>)
    ensures gaps == Gaps(StableSort(TimesOf(history, dealId), IntLeq))
  {
    var times: seq<Instant> := [];
    for j := 0 to |history|
      invariant times == TimesOf(history[..j], dealId)
    {
      TakeStep(history, j);
      TimesAppend(history[..j], [history[j]], dealId);
      assert [history[j]][1..] == [];
      if history[j].dealId == dealId {
        times := times + [history[j].occurredAt];
      }
    }
    TakeAll(history);
    gaps := [];
    if |times| < 2 {
      return;
    }
    times := StableSort(times, IntLeq);
    for i := 1 to |times|
      invariant gaps == Gaps(times[..i])
    {
      TakeStep(times, i);
      GapsAppend(times[..i], times[i]);
      gaps := gaps + [(times[i] - times[i-1]) / DAY];
    }
    TakeAll(times);
  }

  method PipelineWonVelocity(t: Tables, pipelineId: string) returns (median: int, wonDealCount: nat)
    ensures median == Median(Samples(t.deals, t.history, pipelineId))
    ensures wonDealCount == WonCount(t.deals, pipelineId)
  {
    wonDealCount := 0;
    var samples: seq<int> := [];
    for i := 0 to |t.deals|
      invariant samples == Samples(t.deals[..i], t.history, pipelineId)
      invariant wonDealCount == WonCount(t.deals[..i], pipelineId)
    {
      var d := t.deals[i];
      TakeStep(t.deals, i);
      SamplesAppend(t.deals[..i], [d], t.history, pipelineId);
      assert [d][1..] == [];
      if d.pipelineId == pipelineId && d.status == Won && !d.archived {
        wonDealCount := wonDealCount + 1;
        var gaps := DealGaps(t.history, d.id);
        samples := samples + gaps;
      }
    }
    TakeAll(t.deals);
    if |samples| == 0 {
      return 0, wonDealCount;
    }
    var sorted := StableSort(samples, IntLeq);
    median := sorted[|sorted| / 2];
  }
}
