// rollup.go and store_rollup.go: the pipeline roll-up over its open deals.
module Rollup {
  import opened Wrappers
  import opened Sequences
  import opened RollupMath
  import opened StageSums

  // -------------------------------------------------------------- the roll-up

  // An open deal in the pipeline, in the order the query returns them.
  datatype Deal = Deal(id: string, stageId: string, amount: Option<int>, currency: Option<string>, winProbability: int)

  datatype Row = Row(dealId: string, value: int, winProbability: int, weighted: int, noAmount: bool)

  datatype StageRow = StageRow(stageId: string, sum: Sum)

  datatype PipelineRollup = PipelineRollup(unweighted: int, weighted: int, byStage: seq<StageRow>, breakdown: seq<Row>)

  datatype RollupError = FxRateUnavailable(currency: string)

  // The stored rate to the base currency as of the roll-up's date.
  type Rates = map<string, real>

  predicate NeedsRate(d: Deal, base: string) {
    d.amount.Some? && d.currency.Some? && d.currency.value != "" && d.currency.value != base
  }

  predicate Convertible(d: Deal, base: string, rates: Rates) {
    NeedsRate(d, base) ==> d.currency.value in rates
  }

  function RowOf(d: Deal, base: string, rates: Rates): Row
    requires Convertible(d, base, rates)
  {
    if d.amount.None? then Row(d.id, 0, d.winProbability, 0, true)
    else
      var value := if NeedsRate(d, base)
        then ConvertToBase(d.amount.value, d.currency.value, base, rates[d.currency.value]) else d.amount.value;
      Row(d.id, value, d.winProbability, WeightedValue(value, d.winProbability), false)
  }

  // What a deal's row adds to its stage.
  function EntryOf(d: Deal, r: Row): Entry {
    Entry(d.stageId, Sum(r.value, r.weighted, 1))
  }

  function Entries(deals: seq<Deal>, rows: seq<Row>): (r: seq<Entry>)
    requires |deals| == |rows|
    ensures |r| == |deals| && forall i :: 0 <= i < |r| ==> r[i] == EntryOf(deals[i], rows[i])
  {
    seq(|deals|, i requires 0 <= i < |deals| => EntryOf(deals[i], rows[i]))
  }

  // A deal's row: no amount counts as nothing; an amount in the base currency,
  // or in none given, counts as it is; any other is converted, off by at most a
  // half. The weighted value is off by at most a half of its share of that.
  lemma RowIs(d: Deal, base: string, rates: Rates)
    requires Convertible(d, base, rates)
    ensures var r := RowOf(d, base, rates);
      && r.dealId == d.id && r.winProbability == d.winProbability && (r.noAmount <==> d.amount.None?)
      && (d.amount.None? ==> r.value == 0 && r.weighted == 0)
      && (d.amount.Some? ==>
            && (if d.currency.None? || d.currency.value == "" || d.currency.value == base
                then r.value == d.amount.value
                else d.currency.value in rates
                     && -0.5 <= r.value as real - d.amount.value as real * rates[d.currency.value] <= 0.5)
            && -0.5 <= r.weighted as real - r.value as real * d.winProbability as real / 100.0 <= 0.5)
  {
    if d.amount.Some? {
      WeightedWithinHalf(RowOf(d, base, rates).value, d.winProbability);
      if NeedsRate(d, base) {
        ConvertWithinHalf(d.amount.value, d.currency.value, base, rates[d.currency.value]);
      }
    }
  }

  // The exact amounts in base currency.
  function ExactValues(deals: seq<Deal>, base: string, rates: Rates): (r: seq<real>)
    requires forall i :: 0 <= i < |deals| ==> Convertible(deals[i], base, rates)
    ensures |r| == |deals| && forall i :: 0 <= i < |deals| ==>
      r[i] == if deals[i].amount.None? then 0.0 else ExactBase(deals[i], base, rates)
  {
    seq(|deals|, i requires 0 <= i < |deals| =>
      if deals[i].amount.None? then 0.0 else ExactBase(deals[i], base, rates))
  }

  lemma {:induction false} ValuesClose(entries: seq<Entry>, values: seq<real>)
    requires |entries| == |values|
    requires forall i :: 0 <= i < |entries| ==> -0.5 <= entries[i].sum.unweighted as real - values[i] <= 0.5
    ensures Abs(Total(entries).unweighted as real - RealSum(values)) <= |entries| as real / 2.0
    ensures Total(entries).count == SumCounts(entries)
    decreases |entries|
  {
    if entries != [] {
      var n := |entries| - 1;
      ValuesClose(entries[..n], values[..n]);
    }
  }

  function SumCounts(entries: seq<Entry>): int {
    if entries == [] then 0 else SumCounts(entries[..|entries| - 1]) + entries[|entries| - 1].sum.count
  }

  lemma {:induction false} EachCountsOne(entries: seq<Entry>)
    requires forall i :: 0 <= i < |entries| ==> entries[i].sum.count == 1
    ensures SumCounts(entries) == |entries|
  {
    if entries != [] {
      EachCountsOne(entries[..|entries| - 1]);
    }
  }

  // The unweighted total of n deals is within half of n of the exact one, and n
  // deals are counted.
  lemma UnweightedWithinHalfCount(deals: seq<Deal>, rows: seq<Row>, base: string, rates: Rates)
    requires RowsDone(deals, rows, base, rates)
    ensures var total := Total(Entries(deals, rows));
      && Abs(total.unweighted as real - RealSum(ExactValues(deals, base, rates))) <= |deals| as real / 2.0
      && total.count == |deals|
  {
    var entries, values := Entries(deals, rows), ExactValues(deals, base, rates);
    forall i | 0 <= i < |deals| ensures -0.5 <= entries[i].sum.unweighted as real - values[i] <= 0.5 {
      RowIs(deals[i], base, rates);
    }
    ValuesClose(entries, values);
    EachCountsOne(entries);
  }

  // ------------------------------------------------------------ total bounds

  // A deal's exact amount in base currency, and its exact share.
  function ExactBase(d: Deal, base: string, rates: Rates): real
    requires Convertible(d, base, rates) && d.amount.Some?
  {
    if NeedsRate(d, base) then d.amount.value as real * rates[d.currency.value] else d.amount.value as real
  }

  function ExactShare(d: Deal, base: string, rates: Rates): real
    requires Convertible(d, base, rates)
  {
    if d.amount.None? then 0.0 else ExactBase(d, base, rates) * d.winProbability as real / 100.0
  }

  function ExactShares(deals: seq<Deal>, base: string, rates: Rates): (r: seq<real>)
    requires forall i :: 0 <= i < |deals| ==> Convertible(deals[i], base, rates)
    ensures |r| == |deals| && forall i :: 0 <= i < |deals| ==> r[i] == ExactShare(deals[i], base, rates)
  {
    seq(|deals|, i requires 0 <= i < |deals| => ExactShare(deals[i], base, rates))
  }

  function RealSum(s: seq<real>): real {
    if s == [] then 0.0 else RealSum(s[..|s| - 1]) + s[|s| - 1]
  }

  lemma ForeignWithinOne(d: Deal, base: string, rates: Rates)
    requires Convertible(d, base, rates) && d.amount.Some? && NeedsRate(d, base) && 0 <= d.winProbability <= 100
    ensures Abs(RowOf(d, base, rates).weighted as real - ExactShare(d, base, rates)) <= 1.0
  {
    WeightedWithinOne(d.amount.value, d.currency.value, base, rates[d.currency.value], d.winProbability,
      ExactBase(d, base, rates));
  }

  lemma DomesticWithinOne(d: Deal, base: string, rates: Rates)
    requires d.amount.Some? && !NeedsRate(d, base)
    ensures Abs(RowOf(d, base, rates).weighted as real - ExactShare(d, base, rates)) <= 1.0
  {
    WeightedWithinHalf(d.amount.value, d.winProbability);
  }

  // However it is rounded, a deal's weighted value is within one of its share.
  lemma RowWithinOne(d: Deal, base: string, rates: Rates)
    requires Convertible(d, base, rates) && 0 <= d.winProbability <= 100
    ensures Abs(RowOf(d, base, rates).weighted as real - ExactShare(d, base, rates)) <= 1.0
  {
    if d.amount.None? {
    } else if NeedsRate(d, base) {
      ForeignWithinOne(d, base, rates);
    } else {
      DomesticWithinOne(d, base, rates);
    }
  }

  lemma {:induction false} SumsClose(entries: seq<Entry>, shares: seq<real>)
    requires |entries| == |shares|
    requires forall i :: 0 <= i < |entries| ==> Abs(entries[i].sum.weighted as real - shares[i]) <= 1.0
    ensures Abs(Total(entries).weighted as real - RealSum(shares)) <= |entries| as real
    decreases |entries|
  {
    if entries != [] {
      var n := |entries| - 1;
      SumsClose(entries[..n], shares[..n]);
      assert Abs(entries[n].sum.weighted as real - shares[n]) <= 1.0;
    }
  }

  // The weighted total of n deals is within n of the exact one.
  lemma TotalWithinCount(deals: seq<Deal>, rows: seq<Row>, base: string, rates: Rates)
    requires RowsDone(deals, rows, base, rates)
    requires forall i :: 0 <= i < |deals| ==> 0 <= deals[i].winProbability <= 100
    ensures Abs(Total(Entries(deals, rows)).weighted as real - RealSum(ExactShares(deals, base, rates)))
      <= |deals| as real
  {
    var entries, shares := Entries(deals, rows), ExactShares(deals, base, rates);
    forall i | 0 <= i < |deals| ensures Abs(entries[i].sum.weighted as real - shares[i]) <= 1.0 {
      RowWithinOne(deals[i], base, rates);
    }
    SumsClose(entries, shares);
  }

  lemma EntriesInit(deals: seq<Deal>, rows: seq<Row>)
    requires |deals| == |rows| > 0
    ensures var n := |deals| - 1;
      Total(Entries(deals, rows)) == Plus(Total(Entries(deals[..n], rows[..n])), EntryOf(deals[n], rows[n]).sum)
  {
    var n := |deals| - 1;
    assert Entries(deals, rows)[..n] == Entries(deals[..n], rows[..n]);
  }

  // ------------------------------------------------------------ the builder

  // The rows of the stages of `order`.
  predicate AreStageRows(stages: seq<StageRow>, order: seq<string>, entries: seq<Entry>) {
    |stages| == |order| && forall i :: 0 <= i < |order| ==>
      stages[i] == StageRow(order[i], StageTotal(entries, order[i]))
  }

  function SumOf(stages: seq<StageRow>): Sum {
    if stages == [] then ZERO else Plus(stages[0].sum, SumOf(stages[1..]))
  }

  lemma {:induction false} StageRowsSum(stages: seq<StageRow>, order: seq<string>, entries: seq<Entry>)
    requires AreStageRows(stages, order, entries)
    ensures SumOf(stages) == SumOver(order, entries)
  {
    if order != [] {
      StageRowsSum(stages[1..], order[1..], entries);
    }
  }

  method SumRollup(deals: seq<Deal>, rows: seq<Row>) returns (unweighted: int, weighted: int)
    requires |deals| == |rows|
    ensures Sum(unweighted, weighted, |rows|) == Total(Entries(deals, rows))
  {
    unweighted, weighted := 0, 0;
    for i := 0 to |rows|
      invariant Sum(unweighted, weighted, i) == Total(Entries(deals[..i], rows[..i]))
    {
      EntriesInit(deals[..i + 1], rows[..i + 1]);
      assert rows[..i + 1][..i] == rows[..i] && deals[..i + 1][..i] == deals[..i];
      unweighted := unweighted + rows[i].value;
      weighted := weighted + rows[i].weighted;
    }
    TakeAll(rows);
    TakeAll(deals);
  }

  // One deal's row, or the error of a missing rate.
  method ConvertDeal(d: Deal, base: string, rates: Rates) returns (r: Result<Row, RollupError>)
    ensures r == if Convertible(d, base, rates) then Ok(RowOf(d, base, rates))
      else Err(FxRateUnavailable(d.currency.value))
  {
    var row := Row(d.id, 0, d.winProbability, 0, false);
    if d.amount.None? {
      row := row.(noAmount := true);
    } else {
      var value := d.amount.value;
      if d.currency.Some? && d.currency.value != "" && d.currency.value != base {
        if d.currency.value !in rates {
          return Err(FxRateUnavailable(d.currency.value));
        }
        value := ConvertToBase(d.amount.value, d.currency.value, base, rates[d.currency.value]);
      }
      row := row.(value := value, weighted := WeightedValue(value, d.winProbability));
    }
    return Ok(row);
  }

  ghost predicate IsFirstWithoutRate(deals: seq<Deal>, base: string, rates: Rates, e: RollupError) {
    exists i ::
      && 0 <= i < |deals| && !Convertible(deals[i], base, rates)
      && e == FxRateUnavailable(deals[i].currency.value)
      && (forall j :: 0 <= j < i ==> Convertible(deals[j], base, rates))
  }

  ghost predicate RowsDone(deals: seq<Deal>, rows: seq<Row>, base: string, rates: Rates) {
    |rows| == |deals| && forall i :: 0 <= i < |deals| ==>
      Convertible(deals[i], base, rates) && rows[i] == RowOf(deals[i], base, rates)
  }

  lemma RowsStep(deals: seq<Deal>, k: nat, rows: seq<Row>, base: string, rates: Rates)
    requires k < |deals| && RowsDone(deals[..k], rows, base, rates) && Convertible(deals[k], base, rates)
    ensures RowsDone(deals[..k + 1], rows + [RowOf(deals[k], base, rates)], base, rates)
  {
    TakeStep(deals, k);
  }

  lemma FirstWithoutRate(deals: seq<Deal>, k: nat, rows: seq<Row>, base: string, rates: Rates)
    requires k < |deals| && RowsDone(deals[..k], rows, base, rates) && !Convertible(deals[k], base, rates)
    ensures IsFirstWithoutRate(deals, base, rates, FxRateUnavailable(deals[k].currency.value))
  {
    assert forall j :: 0 <= j < k ==> deals[..k][j] == deals[j];
  }

  lemma EntriesSnoc(deals: seq<Deal>, k: nat, rows: seq<Row>, row: Row)
    requires k < |deals| && |rows| == k
    ensures Entries(deals[..k + 1], rows + [row]) == Entries(deals[..k], rows) + [EntryOf(deals[k], row)]
  {
  }

  method Accumulate(deals: seq<Deal>, base: string, rates: Rates)
    returns (failed: Option<RollupError>, breakdown: seq<Row>, byStage: map<string, Sum>, stageOrder: seq<string>)
    ensures failed.None? ==>
      RowsDone(deals, breakdown, base, rates) && Seen(byStage, stageOrder, Entries(deals, breakdown))
    ensures failed.Some? ==> IsFirstWithoutRate(deals, base, rates, failed.value)
  {
    breakdown, byStage, stageOrder := [], map[], [];
    for k := 0 to |deals|
      invariant RowsDone(deals[..k], breakdown, base, rates)
      invariant Seen(byStage, stageOrder, Entries(deals[..k], breakdown))
    {
      var d := deals[k];
      var converted := ConvertDeal(d, base, rates);
      if converted.Err? {
        FirstWithoutRate(deals, k, breakdown, base, rates);
        return Some(converted.error), breakdown, byStage, stageOrder;
      }
      var row := converted.value;
      SeenStep(byStage, stageOrder, Entries(deals[..k], breakdown), EntryOf(d, row));
      EntriesSnoc(deals, k, breakdown, row);
      RowsStep(deals, k, breakdown, base, rates);
      breakdown := breakdown + [row];
      var stageRow := ZERO;
      if d.stageId in byStage {
        stageRow := byStage[d.stageId];
      } else {
        stageOrder := stageOrder + [d.stageId];
      }
      byStage := byStage[d.stageId := Plus(stageRow, Sum(row.value, row.weighted, 1))];
    }
    TakeAll(deals);
    failed := None;
  }

  // The roll-up of all deals, or the error of the first without a rate. Its
  // stages appear in first-appearance order, and their sums and counts add up
  // to the totals.
  method BuildRollup(deals: seq<Deal>, base: string, rates: Rates) returns (r: Result<PipelineRollup, RollupError>)
    ensures r.Ok? <==> forall i :: 0 <= i < |deals| ==> Convertible(deals[i], base, rates)
    ensures r.Err? ==> IsFirstWithoutRate(deals, base, rates, r.error)
    ensures r.Ok? ==> RowsDone(deals, r.value.breakdown, base, rates)
    ensures r.Ok? ==> var out, entries := r.value, Entries(deals, r.value.breakdown);
      && AreStageRows(out.byStage, StageOrder(entries), entries)
      && Sum(out.unweighted, out.weighted, |deals|) == Total(entries) == SumOf(out.byStage)
  {
    var failed, breakdown, byStage, stageOrder := Accumulate(deals, base, rates);
    if failed.Some? {
      return Err(failed.value);
    }
    ghost var entries := Entries(deals, breakdown);
    var unweighted, weighted := SumRollup(deals, breakdown);
    var stages: seq<StageRow> := [];
    for k := 0 to |stageOrder|
      invariant |stages| == k
      invariant forall i :: 0 <= i < k ==> stages[i] == StageRow(stageOrder[i], StageTotal(entries, stageOrder[i]))
    {
      assert stageOrder[k] in stageOrder;
      stages := stages + [StageRow(stageOrder[k], byStage[stageOrder[k]])];
    }
    StageRowsSum(stages, stageOrder, entries);
    StagesAddUp(entries);
    return Ok(PipelineRollup(unweighted, weighted, stages, breakdown));
  }
}
