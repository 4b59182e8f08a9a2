// store_deal.go and store_deal_advance.go: the life of a deal from creation
// through stage moves, closing, reopening, archiving and restoring.
module DealLifecycle {
  import opened Wrappers
  import opened DealDomain

  datatype Stage = Stage(pipelineId: string, semantic: Status, archived: bool)

  datatype FxRate = FxRate(from: string, to: string, rate: real, date: int)

  // What other parts of the system own and the deal store reads.
  datatype World = World(stages: map<string, Stage>, rates: seq<FxRate>, baseCurrency: Option<string>)

  datatype Deal = Deal(
    pipelineId: string, stageId: string, amount: Option<int>, currency: Option<string>,
    status: Status, lostReason: Option<string>, closedAt: Option<int>,
    fxRate: Option<real>, fxDate: Option<int>, archivedAt: Option<int>, version: nat)

  datatype Move = Move(from: Option<string>, to: string, changedBy: string, amount: Option<int>,
      currency: Option<string>)

  datatype Action = Created | StageAdvanced | Archived | Restored

  datatype Topic = DealCreated | DealStageChanged | DealArchived | DealRestored

  // A deal's row with its rows in deal_stage_history, audit_log and
  // event_outbox, oldest first.
  datatype Record = Record(deal: Deal, history: seq<Move>, audit: seq<Action>, events: seq<Topic>)

  // A deal's id is its position; deal rows are never deleted.
  datatype State = State(world: World, deals: seq<Record>)

  datatype NewDeal = NewDeal(
    pipelineId: string, stageId: string, status: string, amount: Option<int>, currency: Option<string>,
    source: string, capturedBy: string)

  datatype AdvanceInput = AdvanceInput(toStageId: string, status: string, lostReason: Option<string>)

  datatype DealError =
    | NullProvenance | StageNotInPipeline | NotFound | VersionSkew
    | StatusMismatch | LostReasonRequired | NotArchived | CheckViolation

  datatype Step =
    | Create(input: NewDeal)
    | Advance(id: nat, target: AdvanceInput, ifMatch: int, changedBy: string, now: int)
    | Archive(id: nat, now: int)
    | Restore(id: nat)
    | Reconfigure(world: World)  // stages edited, rates loaded

  function StatusText(s: Status): string {
    match s case Open => "open" case Won => "won" case Lost => "lost"
  }

  // The table's CHECK constraints.
  predicate DbChecks(d: Deal) {
    && (d.status == Lost ==> d.lostReason.Some?)
    && (d.status != Open ==> d.closedAt.Some?)
    && (d.status != Open && d.amount.Some? ==> d.fxRate.Some?)
  }

  predicate InPipeline(w: World, stageId: string, pipelineId: string) {
    stageId in w.stages && w.stages[stageId].pipelineId == pipelineId && !w.stages[stageId].archived
  }

  // The latest rate on file from the currency, whatever it converts to: of
  // several of one date the first in table order, and that order is unspecified.
  function LatestRate(rates: seq<FxRate>, currency: string): Option<FxRate> {
    if rates == [] then None
    else
      var best := LatestRate(rates[1..], currency);
      if rates[0].from == currency && (best.None? || rates[0].date >= best.value.date) then Some(rates[0]) else best
  }

  // The rate and its date to freeze on closing.
  function FreezeFx(w: World, currency: Option<string>, now: int): Option<(real, int)> {
    if currency.None? || currency.value == "" then None
    else if w.baseCurrency == currency then Some((1.0, DateOf(now)))
    else match LatestRate(w.rates, currency.value)
      case None => None
      case Some(r) => Some((r.rate, r.date))
  }

  function Coalesce<T>(a: Option<T>, b: Option<T>): Option<T> {
    if a.Some? then a else b
  }

  // The UPDATE of one advance, CASE by CASE.
  function Moved(w: World, d: Deal, input: AdvanceInput, now: int): Deal
    requires input.toStageId in w.stages
  {
    var to := w.stages[input.toStageId].semantic;
    var reopening := d.status != Open && to == Open;
    var closing := to != Open;
    var fx := FreezeFx(w, d.currency, now);
    d.(stageId := input.toStageId,
       status := to,
       lostReason := if reopening then None
                     else if closing then (if to == Lost then input.lostReason else None) else d.lostReason,
       closedAt := if reopening then None else if closing then Some(now) else d.closedAt,
       fxRate := if reopening then None
                 else if closing then Coalesce(if fx.Some? then Some(fx.value.0) else None, d.fxRate) else d.fxRate,
       fxDate := if reopening then None
                 else if closing then Coalesce(if fx.Some? then Some(fx.value.1) else None, d.fxDate) else d.fxDate,
       version := d.version + 1)
  }

  // Why an advance is refused, in the order the checks are made.
  function AdvanceRefusal(s: State, id: nat, input: AdvanceInput, ifMatch: int, now: int): Option<DealError> {
    if id >= |s.deals| || s.deals[id].deal.archivedAt.Some? then Some(NotFound)
    else
      var d := s.deals[id].deal;
      if ifMatch != 0 && d.version != ifMatch then Some(VersionSkew)
      else if !InPipeline(s.world, input.toStageId, d.pipelineId) then Some(StageNotInPipeline)
      else
        var to := s.world.stages[input.toStageId].semantic;
        if input.status != "" && input.status != StatusText(to) then Some(StatusMismatch)
        else if to == Lost && (input.lostReason.None? || input.lostReason.value == "") then Some(LostReasonRequired)
        else if !DbChecks(Moved(s.world, d, input, now)) then Some(CheckViolation)
        else None
  }

  function Logged(r: Record, deal: Deal, action: Action, topic: Topic): Record {
    r.(deal := deal, audit := r.audit + [action], events := r.events + [topic])
  }

  function AdvanceRecord(w: World, r: Record, input: AdvanceInput, changedBy: string, now: int): Record
    requires input.toStageId in w.stages
  {
    var d := r.deal;
    Logged(r, Moved(w, d, input, now), StageAdvanced, DealStageChanged).(
      history := r.history + [Move(Some(d.stageId), input.toStageId, changedBy, d.amount, d.currency)])
  }

  function NewRecord(input: NewDeal): Record {
    Record(
      Deal(input.pipelineId, input.stageId, input.amount, input.currency, Open, None, None, None, None, None, 1),
      [Move(None, input.stageId, input.capturedBy, input.amount, input.currency)], [Created], [DealCreated])
  }

  function CreateRefusal(w: World, input: NewDeal): Option<DealError> {
    if input.source == "" || input.capturedBy == "" then Some(NullProvenance)
    else if !InPipeline(w, input.stageId, input.pipelineId) then Some(StageNotInPipeline)
    else if input.status != "open" then Some(CheckViolation)  // no row is inserted closed: it would have no closed_at
    else None
  }

  // Stages in use keep their pipeline: the composite foreign key.
  ghost predicate KeepsStages(s: State, w: World) {
    forall i :: 0 <= i < |s.deals| ==>
      s.deals[i].deal.stageId in w.stages && w.stages[s.deals[i].deal.stageId].pipelineId == s.deals[i].deal.pipelineId
  }

  // One call; a refused call changes nothing.
  ghost function Next(s: State, step: Step): State {
    match step
    case Create(input) =>
      if CreateRefusal(s.world, input).Some? then s else s.(deals := s.deals + [NewRecord(input)])
    case Advance(id, input, ifMatch, changedBy, now) =>
      if AdvanceRefusal(s, id, input, ifMatch, now).Some? then s
      else s.(deals := s.deals[id := AdvanceRecord(s.world, s.deals[id], input, changedBy, now)])
    case Archive(id, now) =>
      if id >= |s.deals| || s.deals[id].deal.archivedAt.Some? then s
      else
        var r := s.deals[id];
        var deal := r.deal.(archivedAt := Some(now), version := r.deal.version + 1);
        s.(deals := s.deals[id := Logged(r, deal, Archived, DealArchived)])
    case Restore(id) =>
      if id >= |s.deals| || s.deals[id].deal.archivedAt.None? then s
      else
        var r := s.deals[id];
        var deal := r.deal.(archivedAt := None, version := r.deal.version + 1);
        s.(deals := s.deals[id := Logged(r, deal, Restored, DealRestored)])
    case Reconfigure(w) =>
      if KeepsStages(s, w) then s.(world := w) else s
  }

  ghost function Run(s: State, steps: seq<Step>): State
    decreases |steps|
  {
    if steps == [] then s else Run(Next(s, steps[0]), steps[1..])
  }

  // -------------------------------------------------------------- invariant

  predicate RowConsistent(w: World, d: Deal) {
    && (d.status == Open <==> d.closedAt.None?)
    && (d.status == Lost <==> d.lostReason.Some?)
    && (d.lostReason.Some? ==> d.lostReason.value != "")
    && (d.status == Open ==> d.fxRate.None?)
    && (d.fxRate.Some? <==> d.fxDate.Some?)
    && (d.status != Open && d.amount.Some? ==> d.fxRate.Some?)
    && d.stageId in w.stages && w.stages[d.stageId].pipelineId == d.pipelineId
  }

  // An unbroken path from the creation stage to `at`.
  predicate IsPath(history: seq<Move>, at: string) {
    && history != [] && history[0].from.None?
    && (forall i :: 0 < i < |history| ==> history[i].from == Some(history[i - 1].to))
    && history[|history| - 1].to == at
  }

  function Advances(audit: seq<Action>): nat {
    if audit == [] then 0
    else Advances(audit[..|audit| - 1]) + (if audit[|audit| - 1] == StageAdvanced then 1 else 0)
  }

  // Whether the last archive or restore was an archive.
  predicate InArchive(audit: seq<Action>) {
    audit != [] && (audit[|audit| - 1] == Archived
                    || (audit[|audit| - 1] == StageAdvanced && InArchive(audit[..|audit| - 1])))
  }

  function TopicOf(a: Action): Topic {
    match a
    case Created => DealCreated
    case StageAdvanced => DealStageChanged
    case Archived => DealArchived
    case Restored => DealRestored
  }

  // Every gesture left exactly one audit row, one event and one version, and
  // every advance one history row besides the first.
  predicate LogsAgree(r: Record) {
    && r.audit != [] && r.audit[0] == Created
    && (forall i :: 0 < i < |r.audit| ==> r.audit[i] != Created)
    && |r.events| == |r.audit|
    && (forall i :: 0 <= i < |r.audit| ==> r.events[i] == TopicOf(r.audit[i]))
    && |r.audit| == r.deal.version
    && |r.history| == 1 + Advances(r.audit)
    && (r.deal.archivedAt.Some? <==> InArchive(r.audit))
  }

  predicate Consistent(w: World, r: Record) {
    RowConsistent(w, r.deal) && IsPath(r.history, r.deal.stageId) && LogsAgree(r)
  }

  ghost predicate Inv(s: State) {
    forall i :: 0 <= i < |s.deals| ==> Consistent(s.world, s.deals[i])
  }

  lemma LoggedAgrees(r: Record, deal: Deal, action: Action, history: seq<Move>)
    requires LogsAgree(r) && action != Created && deal.version == r.deal.version + 1
    requires |history| == |r.history| + (if action == StageAdvanced then 1 else 0)
    requires deal.archivedAt.Some? <==> action == Archived || (action == StageAdvanced && r.deal.archivedAt.Some?)
    ensures LogsAgree(Logged(r, deal, action, TopicOf(action)).(history := history))
  {
    var audit := r.audit + [action];
    assert audit[..|audit| - 1] == r.audit;
  }

  lemma MovedConsistent(s: State, id: nat, input: AdvanceInput, ifMatch: int, now: int)
    requires id < |s.deals| && RowConsistent(s.world, s.deals[id].deal)
    requires AdvanceRefusal(s, id, input, ifMatch, now).None?
    ensures RowConsistent(s.world, Moved(s.world, s.deals[id].deal, input, now))
  {
  }

  lemma AdvanceKeepsRecord(s: State, id: nat, input: AdvanceInput, ifMatch: int, changedBy: string, now: int)
    requires id < |s.deals| && Consistent(s.world, s.deals[id])
    requires AdvanceRefusal(s, id, input, ifMatch, now).None?
    ensures Consistent(s.world, AdvanceRecord(s.world, s.deals[id], input, changedBy, now))
  {
    var r := s.deals[id];
    MovedConsistent(s, id, input, ifMatch, now);
    var after := AdvanceRecord(s.world, r, input, changedBy, now);
    LoggedAgrees(r, after.deal, StageAdvanced, after.history);
  }

  // A gesture that only sets or clears the archive date.
  lemma ArchivingKeepsRecord(w: World, r: Record, at: Option<int>)
    requires Consistent(w, r) && at.Some? != r.deal.archivedAt.Some?
    ensures var action := if at.Some? then Archived else Restored;
      Consistent(w, Logged(r, r.deal.(archivedAt := at, version := r.deal.version + 1), action, TopicOf(action)))
  {
    var deal := r.deal.(archivedAt := at, version := r.deal.version + 1);
    LoggedAgrees(r, deal, if at.Some? then Archived else Restored, r.history);
  }

  lemma NewRecordConsistent(w: World, input: NewDeal)
    requires CreateRefusal(w, input).None?
    ensures Consistent(w, NewRecord(input))
  {
    assert [Created][..0] == [];
  }

  lemma ReplacedKeepsInv(s: State, id: nat, r: Record)
    requires Inv(s) && id < |s.deals| && Consistent(s.world, r)
    ensures Inv(s.(deals := s.deals[id := r]))
  {
  }

  lemma CreateKeepsInv(s: State, input: NewDeal)
    requires Inv(s)
    ensures Inv(Next(s, Create(input)))
  {
    if CreateRefusal(s.world, input).None? {
      NewRecordConsistent(s.world, input);
    }
  }

  lemma AdvanceKeepsInv(s: State, id: nat, input: AdvanceInput, ifMatch: int, changedBy: string, now: int)
    requires Inv(s)
    ensures Inv(Next(s, Advance(id, input, ifMatch, changedBy, now)))
  {
    if AdvanceRefusal(s, id, input, ifMatch, now).None? {
      AdvanceKeepsRecord(s, id, input, ifMatch, changedBy, now);
      ReplacedKeepsInv(s, id, AdvanceRecord(s.world, s.deals[id], input, changedBy, now));
    }
  }

  lemma ArchiveKeepsInv(s: State, id: nat, now: int)
    requires Inv(s)
    ensures Inv(Next(s, Archive(id, now)))
  {
    if id < |s.deals| && s.deals[id].deal.archivedAt.None? {
      ArchivingKeepsRecord(s.world, s.deals[id], Some(now));
      ReplacedKeepsInv(s, id, Next(s, Archive(id, now)).deals[id]);
    }
  }

  lemma RestoreKeepsInv(s: State, id: nat)
    requires Inv(s)
    ensures Inv(Next(s, Restore(id)))
  {
    if id < |s.deals| && s.deals[id].deal.archivedAt.Some? {
      ArchivingKeepsRecord(s.world, s.deals[id], None);
      ReplacedKeepsInv(s, id, Next(s, Restore(id)).deals[id]);
    }
  }

  lemma ReconfigureKeepsInv(s: State, w: World)
    requires Inv(s)
    ensures Inv(Next(s, Reconfigure(w)))
  {
  }

  lemma StepKeepsInv(s: State, step: Step)
    requires Inv(s)
    ensures Inv(Next(s, step))
  {
    match step
    case Create(input) => CreateKeepsInv(s, input);
    case Advance(id, input, ifMatch, changedBy, now) => AdvanceKeepsInv(s, id, input, ifMatch, changedBy, now);
    case Archive(id, now) => ArchiveKeepsInv(s, id, now);
    case Restore(id) => RestoreKeepsInv(s, id);
    case Reconfigure(w) => ReconfigureKeepsInv(s, w);
  }

  lemma {:induction false} RunKeepsInv(s: State, steps: seq<Step>)
    requires Inv(s)
    ensures Inv(Run(s, steps))
    decreases |steps|
  {
    if steps != [] {
      StepKeepsInv(s, steps[0]);
      RunKeepsInv(Next(s, steps[0]), steps[1..]);
    }
  }

  // Over every run from an empty table, while stages are edited and rates
  // loaded: each deal is open iff it has no closing time, lost iff it has a
  // reason, carries no frozen rate while open, rate and date together, and
  // sits in a stage of its pipeline; its history is an unbroken path there;
  // and each gesture on it left one audit row, one event and one version.
  lemma EveryDealConsistent(w: World, steps: seq<Step>, id: nat)
    requires id < |Run(State(w, []), steps).deals|
    ensures var s := Run(State(w, []), steps); var d := s.deals[id].deal;
      && (d.status == Open <==> d.closedAt.None?)
      && (d.status == Lost <==> d.lostReason.Some?)
      && (d.status == Open ==> d.fxRate.None?)
      && (d.fxRate.Some? <==> d.fxDate.Some?)
      && (d.status != Open && d.amount.Some? ==> d.fxRate.Some?)
      && d.stageId in s.world.stages && s.world.stages[d.stageId].pipelineId == d.pipelineId
      && IsPath(s.deals[id].history, d.stageId)
      && LogsAgree(s.deals[id])
  {
    RunKeepsInv(State(w, []), steps);
    assert Consistent(Run(State(w, []), steps).world, Run(State(w, []), steps).deals[id]);
  }

  // ------------------------------------------------------ what calls achieve

  // An advance goes through exactly when the deal is live, the version asked
  // for is current, the stage is a live one of its pipeline, a stated status
  // agrees with the stage, a lost deal is given a reason, and a deal with an
  // amount is closed with a rate to freeze, new or kept.
  lemma AdvanceSucceedsIff(s: State, id: nat, input: AdvanceInput, ifMatch: int, now: int)
    requires Inv(s) && id < |s.deals|
    ensures var d := s.deals[id].deal;
      AdvanceRefusal(s, id, input, ifMatch, now).None? <==>
        && d.archivedAt.None?
        && (ifMatch == 0 || ifMatch == d.version)
        && input.toStageId in s.world.stages
        && var stage := s.world.stages[input.toStageId];
        && stage.pipelineId == d.pipelineId && !stage.archived
        && (input.status == ""
            || input.status == match stage.semantic case Open => "open" case Won => "won" case Lost => "lost")
        && (stage.semantic == Lost ==> input.lostReason.Some? && input.lostReason.value != "")
        && (stage.semantic != Open && d.amount.Some? ==> d.fxRate.Some? || HasRate(s.world, d.currency))
  {
    assert Consistent(s.world, s.deals[id]);
    if s.deals[id].deal.currency.Some? {
      LatestRateIs(s.world.rates, s.deals[id].deal.currency.value);
    }
  }

  // A rate to freeze is at hand: the currency is the base, or some row is from
  // it.
  predicate HasRate(w: World, currency: Option<string>) {
    currency.Some? && currency.value != ""
    && (w.baseCurrency == currency || exists r :: r in w.rates && r.from == currency.value)
  }

  // Refusals come in the order the code checks for them.
  lemma AdvanceRefusedBecause(s: State, id: nat, input: AdvanceInput, ifMatch: int, now: int)
    ensures (id >= |s.deals| || s.deals[id].deal.archivedAt.Some?) <==>
      AdvanceRefusal(s, id, input, ifMatch, now) == Some(NotFound)
    ensures id < |s.deals| && s.deals[id].deal.archivedAt.None? ==>
      var d, refusal := s.deals[id].deal, AdvanceRefusal(s, id, input, ifMatch, now);
      var inPipeline := input.toStageId in s.world.stages && !s.world.stages[input.toStageId].archived
                        && s.world.stages[input.toStageId].pipelineId == d.pipelineId;
      && (refusal == Some(VersionSkew) <==> ifMatch != 0 && ifMatch != d.version)
      && (refusal == Some(StageNotInPipeline) <==> (ifMatch == 0 || ifMatch == d.version) && !inPipeline)
      && (refusal == Some(LostReasonRequired) ==>
            inPipeline && s.world.stages[input.toStageId].semantic == Lost && input.lostReason in {None, Some("")})
      && (refusal == Some(StatusMismatch) ==> inPipeline && input.status != "")
  {
  }

  // A new deal: a row of the values given, open, with one history row, audit
  // row and event; refused without a source or author, outside its pipeline, or
  // with a status other than open.
  lemma CreateOutcome(s: State, input: NewDeal)
    ensures var s' := Next(s, Create(input));
      if input.source != "" && input.capturedBy != "" && input.status == "open"
         && input.stageId in s.world.stages && !s.world.stages[input.stageId].archived
         && s.world.stages[input.stageId].pipelineId == input.pipelineId
      then
        && |s'.deals| == |s.deals| + 1 && (forall i :: 0 <= i < |s.deals| ==> s'.deals[i] == s.deals[i])
        && var r := s'.deals[|s.deals|];
        && r.deal.pipelineId == input.pipelineId && r.deal.stageId == input.stageId && r.deal.status == Open
        && r.deal.amount == input.amount && r.deal.currency == input.currency
        && r.deal.closedAt == None && r.deal.lostReason == None && r.deal.archivedAt == None
        && r.deal.fxRate == None && r.deal.fxDate == None && r.deal.version == 1
        && r.history == [Move(None, input.stageId, input.capturedBy, input.amount, input.currency)]
        && r.audit == [Created] && r.events == [DealCreated]
      else s' == s
    ensures CreateRefusal(s.world, input) == Some(NullProvenance) <==> input.source == "" || input.capturedBy == ""
    ensures CreateRefusal(s.world, input) == Some(CheckViolation) ==> input.status != "open"
  {
  }

  // What is frozen on closing: one in the base currency, today; otherwise the
  // rate and date of a latest row from the deal's currency; with no such row or
  // no currency, what there was.
  ghost predicate FrozenAs(w: World, before: Deal, after: Deal, now: int) {
    var c := before.currency;
    if c.None? || c.value == "" then after.fxRate == before.fxRate && after.fxDate == before.fxDate
    else if w.baseCurrency == c then after.fxRate == Some(1.0) && after.fxDate == Some(DateOf(now))
    else if forall r :: r in w.rates ==> r.from != c.value then
      after.fxRate == before.fxRate && after.fxDate == before.fxDate
    else
      exists r :: r in w.rates && r.from == c.value && IsNewest(w.rates, r)
                  && after.fxRate == Some(r.rate) && after.fxDate == Some(r.date)
  }

  // No row from the same currency is newer.
  ghost predicate IsNewest(rates: seq<FxRate>, r: FxRate) {
    forall q :: q in rates && q.from == r.from ==> q.date <= r.date
  }

  // The deal after a successful advance: in the stage asked for, with that
  // stage's status; closed with the time of the call, the reason if lost and a
  // frozen rate; reopened with all of that cleared; or moved from open to open
  // with all of it kept. Nothing else about it changes, nor does another deal.
  lemma AdvanceOutcome(s: State, id: nat, input: AdvanceInput, ifMatch: int, changedBy: string, now: int)
    requires id < |s.deals| && AdvanceRefusal(s, id, input, ifMatch, now).None?
    ensures input.toStageId in s.world.stages
    ensures var s', d := Next(s, Advance(id, input, ifMatch, changedBy, now)), s.deals[id].deal;
      |s'.deals| == |s.deals| && (forall i :: 0 <= i < |s.deals| && i != id ==> s'.deals[i] == s.deals[i])
      && var d', to := s'.deals[id].deal, s.world.stages[input.toStageId].semantic;
      && d'.stageId == input.toStageId && d'.status == to && d'.version == d.version + 1
      && d'.pipelineId == d.pipelineId && d'.amount == d.amount && d'.currency == d.currency
      && d'.archivedAt == d.archivedAt
      && (to != Open ==>
            && d'.closedAt == Some(now) && d'.lostReason == (if to == Lost then input.lostReason else None)
            && FrozenAs(s.world, d, d', now))
      && (to == Open && d.status != Open ==>
            d'.closedAt == None && d'.lostReason == None && d'.fxRate == None && d'.fxDate == None)
      && (to == Open && d.status == Open ==>
            && d'.closedAt == d.closedAt && d'.lostReason == d.lostReason
            && d'.fxRate == d.fxRate && d'.fxDate == d.fxDate)
      && s'.deals[id].history
           == s.deals[id].history + [Move(Some(d.stageId), input.toStageId, changedBy, d.amount, d.currency)]
  {
    var d := s.deals[id].deal;
    if s.world.stages[input.toStageId].semantic != Open && d.currency.Some? {
      LatestRateIs(s.world.rates, d.currency.value);
      if LatestRate(s.world.rates, d.currency.value).Some? {
        assert IsNewest(s.world.rates, LatestRate(s.world.rates, d.currency.value).value);
      }
    }
  }

  // Closing an open deal and moving it back to where it was leaves its row as
  // it was, two versions on.
  lemma ReopenUndoesClose(s: State, id: nat, close: Step, reopen: Step)
    requires Inv(s) && id < |s.deals| && s.deals[id].deal.status == Open
    requires close.Advance? && reopen.Advance? && close.id == id && reopen.id == id
    requires AdvanceRefusal(s, id, close.target, close.ifMatch, close.now).None?
    requires AdvanceRefusal(Next(s, close), id, reopen.target, reopen.ifMatch, reopen.now).None?
    requires s.world.stages[close.target.toStageId].semantic != Open
    requires reopen.target.toStageId == s.deals[id].deal.stageId
      && s.world.stages[reopen.target.toStageId].semantic == Open
    ensures var s', d := Next(Next(s, close), reopen), s.deals[id].deal;
      id < |s'.deals| && s'.deals[id].deal == d.(version := d.version + 2)
  {
    assert Consistent(s.world, s.deals[id]);
  }

  // Archiving dates a live deal and restoring clears an archived one, one
  // version, audit row and event each; otherwise neither does anything, and
  // neither touches anything else.
  lemma ArchiveAndRestore(s: State, id: nat, now: int)
    ensures Next(s, Archive(id, now)) ==
      if id < |s.deals| && s.deals[id].deal.archivedAt.None?
      then
        var r := s.deals[id];
        s.(deals := s.deals[id := Record(r.deal.(archivedAt := Some(now), version := r.deal.version + 1), r.history,
                                         r.audit + [Archived], r.events + [DealArchived])])
      else s
    ensures Next(s, Restore(id)) ==
      if id < |s.deals| && s.deals[id].deal.archivedAt.Some?
      then
        var r := s.deals[id];
        s.(deals := s.deals[id := Record(r.deal.(archivedAt := None, version := r.deal.version + 1), r.history,
                                         r.audit + [Restored], r.events + [DealRestored])])
      else s
  {
  }

  lemma RestoreUndoesArchive(s: State, id: nat, now: int)
    requires id < |s.deals| && s.deals[id].deal.archivedAt.None?
    ensures var r, s' := s.deals[id], Next(Next(s, Archive(id, now)), Restore(id));
      id < |s'.deals|
      && s'.deals[id] == Record(r.deal.(version := r.deal.version + 2), r.history,
                                r.audit + [Archived, Restored], r.events + [DealArchived, DealRestored])
  {
    var r := s.deals[id];
    assert r.audit + [Archived] + [Restored] == r.audit + [Archived, Restored];
    assert r.events + [DealArchived] + [DealRestored] == r.events + [DealArchived, DealRestored];
  }

  // -------------------------------------------------- status and stage agree

  predicate StatusSettled(w: World, r: Record) {
    && r.deal.stageId in w.stages
    && (Advances(r.audit) > 0 ==> r.deal.status == w.stages[r.deal.stageId].semantic)
    && (Advances(r.audit) == 0 ==> r.deal.status == Open && r.history != [] && r.history[0].to == r.deal.stageId)
  }

  ghost predicate AllSettled(s: State) {
    Inv(s) && forall i :: 0 <= i < |s.deals| ==> StatusSettled(s.world, s.deals[i])
  }

  // An edit of stages or rates that keeps the pipeline and semantic of every
  // stage there was, as all edits do; stages may be added, archived or renamed.
  ghost predicate KeepsMeaning(w: World, w': World) {
    forall id :: id in w.stages ==>
      && id in w'.stages
      && w'.stages[id].pipelineId == w.stages[id].pipelineId
      && w'.stages[id].semantic == w.stages[id].semantic
  }

  // Every edit of the run is of that kind.
  ghost predicate EditsKeepMeaning(s: State, steps: seq<Step>)
    decreases |steps|
  {
    steps != [] ==>
      && (steps[0].Reconfigure? ==> KeepsMeaning(s.world, steps[0].world))
      && EditsKeepMeaning(Next(s, steps[0]), steps[1..])
  }

  lemma CallKeepsSettled(s: State, step: Step)
    requires AllSettled(s) && !step.Reconfigure?
    ensures AllSettled(Next(s, step))
  {
    StepKeepsInv(s, step);
    var s' := Next(s, step);
    forall i | 0 <= i < |s'.deals| ensures StatusSettled(s'.world, s'.deals[i]) {
      if i < |s.deals| && s'.deals[i] != s.deals[i] {
        var audit := s'.deals[i].audit;
        assert audit[..|audit| - 1] == s.deals[i].audit;
      } else if i == |s.deals| {
        assert [Created][..0] == [];
      }
    }
  }

  lemma EditKeepsSettled(s: State, w: World)
    requires AllSettled(s) && KeepsMeaning(s.world, w)
    ensures AllSettled(Next(s, Reconfigure(w)))
  {
    StepKeepsInv(s, Reconfigure(w));
    forall i | 0 <= i < |s.deals| ensures StatusSettled(w, s.deals[i]) {
      assert StatusSettled(s.world, s.deals[i]);
    }
  }

  lemma {:induction false} RunKeepsSettled(s: State, steps: seq<Step>)
    requires AllSettled(s) && CreationStagesKnown(s) && EditsKeepMeaning(s, steps)
    ensures AllSettled(Run(s, steps)) && CreationStagesKnown(Run(s, steps))
    decreases |steps|
  {
    if steps != [] {
      if steps[0].Reconfigure? {
        EditKeepsSettled(s, steps[0].world);
      } else {
        CallKeepsSettled(s, steps[0]);
      }
      CreationStageStays(s, steps[0]);
      RunKeepsSettled(Next(s, steps[0]), steps[1..]);
    }
  }

  // While stages are added, archived and renamed and rates loaded, a deal's
  // status is its stage's semantic exactly if it has been advanced or was
  // created in an open stage.
  lemma StatusMatchesStageIff(w: World, steps: seq<Step>, id: nat)
    requires EditsKeepMeaning(State(w, []), steps)
    requires id < |Run(State(w, []), steps).deals|
    ensures var s := Run(State(w, []), steps); var r := s.deals[id];
      && r.deal.stageId in s.world.stages && r.history != [] && r.history[0].to in s.world.stages
      && (r.deal.status == s.world.stages[r.deal.stageId].semantic
          <==> Advances(r.audit) > 0 || s.world.stages[r.history[0].to].semantic == Open)
  {
    RunKeepsSettled(State(w, []), steps);
    var s := Run(State(w, []), steps);
    assert Consistent(s.world, s.deals[id]) && StatusSettled(s.world, s.deals[id]);
  }

  ghost predicate CreationStagesKnown(s: State) {
    forall i :: 0 <= i < |s.deals| ==> s.deals[i].history != [] && s.deals[i].history[0].to in s.world.stages
  }

  lemma CreationStageStays(s: State, step: Step)
    requires CreationStagesKnown(s) && (step.Reconfigure? ==> KeepsMeaning(s.world, step.world))
    ensures CreationStagesKnown(Next(s, step))
  {
  }

  // A deal can be created open in a stage that means won.
  lemma CreatedOpenInWonStage() returns (w: World, input: NewDeal)
    ensures CreateRefusal(w, input).None?
    ensures NewRecord(input).deal.status == Open && w.stages[input.stageId].semantic == Won
  {
    w := World(map["s" := Stage("p", Won, false)], [], None);
    input := NewDeal("p", "s", "open", None, None, "ui", "user");
  }

  // ------------------------------------------------------- the rate frozen

  predicate IsRate(r: FxRate, currency: string, toBase: bool, base: string) {
    r.from == currency && (r.to == base) == toBase
  }

  // A latest row from the currency to the base one.
  ghost predicate IsLatestToBase(rates: seq<FxRate>, currency: string, base: string, r: FxRate) {
    r in rates && IsRate(r, currency, true, base)
    && forall c :: c in rates && IsRate(c, currency, true, base) ==> c.date <= r.date
  }

  // What is frozen is the rate and date of a latest row to the base currency,
  // or nothing when there is no such row.
  ghost predicate FreezesToBase(w: World, currency: string, base: string, now: int) {
    match FreezeFx(w, Some(currency), now)
    case None => forall r :: r in w.rates ==> !IsRate(r, currency, true, base)
    case Some(fx) => exists r :: IsLatestToBase(w.rates, currency, base, r) && fx == (r.rate, r.date)
  }

  // Older than a row to the base currency, or of the same date and rate as a
  // latest one.
  ghost predicate Superseded(rates: seq<FxRate>, currency: string, base: string, r: FxRate) {
    exists b ::
      IsLatestToBase(rates, currency, base, b) && (r.date < b.date || (r.date == b.date && r.rate == b.rate))
  }

  lemma {:induction false} LatestRateIs(rates: seq<FxRate>, currency: string)
    ensures match LatestRate(rates, currency)
      case None => forall r :: r in rates ==> r.from != currency
      case Some(best) =>
        && best in rates && best.from == currency
        && forall r :: r in rates && r.from == currency ==> r.date <= best.date
  {
    if rates != [] {
      LatestRateIs(rates[1..], currency);
      assert rates == [rates[0]] + rates[1..];
    }
  }

  // Some latest row from the currency comes first in some order of the table.
  lemma {:induction false} FirstOfLatest(rates: seq<FxRate>, currency: string, r: FxRate)
    requires r.from == currency && forall c :: c in rates && c.from == currency ==> c.date <= r.date
    ensures LatestRate([r] + rates, currency) == Some(r)
  {
    LatestRateIs(rates, currency);
    assert ([r] + rates)[1..] == rates;
  }

  function Without(rates: seq<FxRate>, r: FxRate): (rest: seq<FxRate>)
    requires r in rates
    ensures multiset([r] + rest) == multiset(rates)
  {
    if rates[0] == r then
      assert rates == [r] + rates[1..];
      rates[1..]
    else
      assert rates == [rates[0]] + rates[1..];
      var rest := Without(rates[1..], r);
      assert [r] + ([rates[0]] + rest) == [r] + [rates[0]] + rest;
      [rates[0]] + rest
  }

  lemma SameRowsIn(a: seq<FxRate>, b: seq<FxRate>)
    requires multiset(a) == multiset(b)
    ensures forall r :: r in a <==> r in b
  {
    forall r ensures r in a <==> r in b {
      assert r in a <==> r in multiset(a);
      assert r in b <==> r in multiset(b);
    }
  }

  lemma AllSupersededSuffices(w: World, currency: string, base: string, now: int, order: seq<FxRate>)
    requires currency != "" && w.baseCurrency == Some(base) && currency != base
    requires multiset(order) == multiset(w.rates)
    requires forall r :: r in w.rates && IsRate(r, currency, false, base) ==> Superseded(w.rates, currency, base, r)
    ensures FreezesToBase(w.(rates := order), currency, base, now)
  {
    SameRowsIn(order, w.rates);
    LatestRateIs(order, currency);
    match LatestRate(order, currency)
    case None =>
    case Some(best) =>
      if best.to == base {
        assert IsLatestToBase(order, currency, base, best);
      } else {
        assert IsRate(best, currency, false, base);
        var b :| IsLatestToBase(w.rates, currency, base, b)
                 && (best.date < b.date || (best.date == b.date && best.rate == b.rate));
        assert IsLatestToBase(order, currency, base, b);
      }
  }

  lemma NotSupersededShows(w: World, currency: string, base: string, now: int, r: FxRate) returns (order: seq<FxRate>)
    requires currency != "" && w.baseCurrency == Some(base) && currency != base
    requires r in w.rates && IsRate(r, currency, false, base) && !Superseded(w.rates, currency, base, r)
    ensures multiset(order) == multiset(w.rates) && !FreezesToBase(w.(rates := order), currency, base, now)
  {
    LatestRateIs(w.rates, currency);
    var best := LatestRate(w.rates, currency).value;
    if r.date < best.date {
      order := w.rates;
      if best.to == base {
        assert IsLatestToBase(w.rates, currency, base, best);
      }
    } else {
      order := [r] + Without(w.rates, r);
      SameRowsIn(order, w.rates);
      assert order[1..] == Without(w.rates, r);
      FirstOfLatest(order[1..], currency, r);
    }
    assert forall b :: IsLatestToBase(order, currency, base, b) <==> IsLatestToBase(w.rates, currency, base, b);
  }

  // The lookup ignores what a rate converts to and takes any of the latest
  // rows. So whatever order the table is in, the rate frozen on closing is the
  // latest one to the base currency exactly when every row to another currency
  // is older than it, or agrees with it in date and rate.
  lemma FrozenRateIsToBaseIff(w: World, currency: string, base: string, now: int)
    requires currency != "" && w.baseCurrency == Some(base) && currency != base
    ensures (forall order :: multiset(order) == multiset(w.rates) ==>
               FreezesToBase(w.(rates := order), currency, base, now))
      <==> forall r :: r in w.rates && IsRate(r, currency, false, base) ==> Superseded(w.rates, currency, base, r)
  {
    if r :| r in w.rates && IsRate(r, currency, false, base) && !Superseded(w.rates, currency, base, r) {
      var order := NotSupersededShows(w, currency, base, now, r);
    } else {
      forall order | multiset(order) == multiset(w.rates)
        ensures FreezesToBase(w.(rates := order), currency, base, now)
      {
        AllSupersededSuffices(w, currency, base, now, order);
      }
    }
  }

  lemma FrozenRateToAnotherCurrency()
    ensures var w := World(map[], [FxRate("EUR", "USD", 1.25, 1), FxRate("EUR", "GBP", 0.5, 2)], Some("USD"));
      FreezeFx(w, Some("EUR"), 0) == Some((0.5, 2))
  {
    var rates := [FxRate("EUR", "USD", 1.25, 1), FxRate("EUR", "GBP", 0.5, 2)];
    assert LatestRate(rates[1..][1..], "EUR") == None;
    assert LatestRate(rates[1..], "EUR") == Some(rates[1]);
    assert LatestRate(rates, "EUR") == Some(rates[1]);
  }

  // -------------------------------------------------------------- the store

  class DealStore {
    var world: World
    var deals: seq<Record>

    constructor (world: World)
      ensures Now() == State(world, [])
    {
      this.world, deals := world, [];
    }

    ghost function Now(): State
      reads this
    {
      State(world, deals)
    }

    method Create(input: NewDeal) returns (r: Result<nat, DealError>)
      modifies this`deals
      ensures Now() == Next(old(Now()), Step.Create(input))
      ensures match CreateRefusal(world, input) case None => r == Ok(|old(deals)|) case Some(e) => r == Err(e)
    {
      if input.source == "" || input.capturedBy == "" {
        return Err(NullProvenance);
      }
      if !InPipeline(world, input.stageId, input.pipelineId) {
        return Err(StageNotInPipeline);
      }
      if input.status != "open" {
        return Err(CheckViolation);
      }
      var deal :=
        Deal(input.pipelineId, input.stageId, input.amount, input.currency, Open, None, None, None, None, None, 1);
      var history := [Move(None, input.stageId, input.capturedBy, input.amount, input.currency)];
      r := Ok(|deals|);
      deals := deals + [Record(deal, history, [Created], [DealCreated])];
    }

    method Advance(id: nat, input: AdvanceInput, ifMatch: int, changedBy: string, now: int)
      returns (r: Result<Deal, DealError>)
      modifies this`deals
      ensures Now() == Next(old(Now()), Step.Advance(id, input, ifMatch, changedBy, now))
      ensures match AdvanceRefusal(old(Now()), id, input, ifMatch, now)
        case None => r == Ok(Moved(world, old(deals)[id].deal, input, now))
        case Some(e) => r == Err(e)
    {
      if id >= |deals| || deals[id].deal.archivedAt.Some? {
        return Err(NotFound);
      }
      var record := deals[id];
      var d := record.deal;
      if ifMatch != 0 && d.version != ifMatch {
        return Err(VersionSkew);
      }
      if !InPipeline(world, input.toStageId, d.pipelineId) {
        return Err(StageNotInPipeline);
      }
      var toSemantic := world.stages[input.toStageId].semantic;
      if input.status != "" && input.status != StatusText(toSemantic) {
        return Err(StatusMismatch);
      }
      if toSemantic == Lost && (input.lostReason.None? || input.lostReason.value == "") {
        return Err(LostReasonRequired);
      }
      var closing := toSemantic == Won || toSemantic == Lost;
      var reopening := d.status != Open && toSemantic == Open;
      var lostReason: Option<string> := None;
      var fxRate: Option<real> := None;
      var fxDate: Option<int> := None;
      if closing {
        if toSemantic == Lost {
          lostReason := input.lostReason;
        }
        var frozen := FreezeFx(world, d.currency, now);
        if frozen.Some? {
          fxRate, fxDate := Some(frozen.value.0), Some(frozen.value.1);
        }
      }
      var updated := d.(stageId := input.toStageId, status := toSemantic, version := d.version + 1);
      if reopening {
        updated := updated.(lostReason := None, closedAt := None, fxRate := None, fxDate := None);
      } else if closing {
        updated := updated.(lostReason := lostReason, closedAt := Some(now),
                            fxRate := Coalesce(fxRate, d.fxRate), fxDate := Coalesce(fxDate, d.fxDate));
      }
      if !DbChecks(updated) {
        return Err(CheckViolation);
      }
      var history := record.history + [Move(Some(d.stageId), input.toStageId, changedBy, d.amount, d.currency)];
      var audit, events := record.audit + [StageAdvanced], record.events + [DealStageChanged];
      deals := deals[id := Record(updated, history, audit, events)];
      return Ok(updated);
    }

    // Archiving an archived deal succeeds and writes nothing.
    method Archive(id: nat, now: int) returns (r: Result<Deal, DealError>)
      modifies this`deals
      ensures Now() == Next(old(Now()), Step.Archive(id, now))
      ensures r == if id < |deals| then Ok(deals[id].deal) else Err(NotFound)
      ensures r.Ok? ==> r.value.archivedAt.Some?
    {
      if id < |deals| && deals[id].deal.archivedAt.None? {
        var record := deals[id];
        var deal := record.deal.(archivedAt := Some(now), version := record.deal.version + 1);
        deals := deals[id := Record(deal, record.history, record.audit + [Archived], record.events + [DealArchived])];
      }
      if id >= |deals| {
        return Err(NotFound);
      }
      return Ok(deals[id].deal);
    }

    method Restore(id: nat) returns (r: Result<Deal, DealError>)
      modifies this`deals
      ensures Now() == Next(old(Now()), Step.Restore(id))
      ensures r == if id >= |old(deals)| then Err(NotFound)
                   else if old(deals)[id].deal.archivedAt.None? then Err(NotArchived)
                   else Ok(deals[id].deal)
      ensures r.Ok? ==> r.value.archivedAt.None?
    {
      if id >= |deals| {
        return Err(NotFound);
      }
      var record := deals[id];
      if record.deal.archivedAt.None? {
        return Err(NotArchived);
      }
      var deal := record.deal.(archivedAt := None, version := record.deal.version + 1);
      deals := deals[id := Record(deal, record.history, record.audit + [Restored], record.events + [DealRestored])];
      return Ok(deal);
    }
  }
}
