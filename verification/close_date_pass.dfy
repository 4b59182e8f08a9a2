// close_date_produce.go and close_date_effector.go, and what the whole
// overnight chain then guarantees about open deals' close dates (OVN-AC-1).
module CloseDatePass {
  import opened Wrappers
  import opened Sequences
  import opened DealDomain
  import opened CloseDateHygiene
  import opened DealReader
  import opened AgentsDomain
  import opened OvernightPass

  const CLOSE_DATE_SOURCE := "policy:FCAST-FORM-3"
  const CLOSE_DATE_EVENT_TOPIC := "deal.updated"
  const CONFIDENCE := 1.0

  // ------------------------------------------------------------ proposals

  function FlagsOf(s: Snapshot, today: int): Flags {
    ComputeFlags(s.status, s.expectedClose, today, s.winProbability, s.isStalled)
  }

  function ActionFor(s: Snapshot, today: int): Action {
    var flags := FlagsOf(s, today);
    var clearOverdue := flags.overdue && !flags.missing && !flags.unrealisticSoon;
    DecideAction(s.isStalled, clearOverdue, !s.isStalled,
                 InForecastCommit(s.forecastCategory, s.winProbability),
                 s.winProbability >= FORECAST_BESTCASE_MIN_PROB, CLOSE_DATE_AUTO_APPLY)
  }

  function ProposalOf(s: Snapshot, actionType: string, ifMatch: int, proposed: int, evidence: string): Proposal {
    Proposal(s.workspaceId, actionType, "deal:" + s.dealId,
             CloseDate(s.dealId, ifMatch, proposed, s.expectedClose, s.version, CLOSE_DATE_EVENT_TOPIC),
             evidence, Some(CONFIDENCE), CLOSE_DATE_SOURCE, CLOSE_DATE_EVENT_TOPIC)
  }

  // The green write every flagged deal gets, bound to the version just read.
  function GreenWrite(s: Snapshot, proposed: int, action: Action): Proposal {
    if action == AutoApply
    then ProposalOf(s, "close-date-auto-apply", s.version, proposed, "clear-overdue, auto-corrected")
    else ProposalOf(s, "close-date-provisional-set", s.version, proposed, "invariant placeholder")
  }

  // The yellow companion of a provisional write; its version check is off.
  function YellowReview(s: Snapshot, proposed: int, action: Action): Proposal {
    if action == DowngradeAndReview
    then ProposalOf(s, "close-date-downgrade-review", 0, proposed, "deal has gone quiet")
    else ProposalOf(s, "close-date-confirm-request", 0, proposed, "needs human confirmation")
  }

  function CloseDateProposals(s: Snapshot, proposed: int, action: Action): seq<Proposal> {
    [GreenWrite(s, proposed, action)] + (if action == AutoApply then [] else [YellowReview(s, proposed, action)])
  }

  function Velocity(t: Tables, pipelineId: string): int {
    StageVelocityDays(Median(Samples(t.deals, t.history, pipelineId)), WonCount(t.deals, pipelineId))
  }

  function ProposedFor(s: Snapshot, t: Tables, today: int): int {
    ProposedCloseDate(today, s.remainingOpenStages, Velocity(t, s.pipelineId))
  }

  // What production means without the velocity cache. Pipelines in `unreadable`
  // are those whose history query fails; the first flagged deal of one stops it.
  function Production(snaps: seq<Snapshot>, t: Tables, today: int, unreadable: set<string>): (seq<Proposal>, bool) {
    if snaps == [] then ([], true)
    else
      var s := snaps[0];
      if !FlagsOf(s, today).Any() then Production(snaps[1..], t, today, unreadable)
      else if s.pipelineId in unreadable then ([], false)
      else
        var rest := Production(snaps[1..], t, today, unreadable);
        (CloseDateProposals(s, ProposedFor(s, t, today), ActionFor(s, today)) + rest.0, rest.1)
  }

  // The producer: one pass over the snapshots, each pipeline's velocity read
  // at most once.
  method Produce(t: Tables, workspaceId: string, now: int, unreadable: set<string>)
    returns (out: seq<Proposal>, err: Option<string>)
    ensures (out, err.None?) == Production(Snapshots(t.deals, t.stages, workspaceId, now), t, DateOf(now), unreadable)
  {
    var today := DateOf(now);
    var snaps := ListOpenDeals(t, workspaceId, now);
    var velocityCache: map<string, int> := map[];
    out := [];
    assert snaps[0..] == snaps;
    assert [] + Production(snaps, t, today, unreadable).0 == Production(snaps, t, today, unreadable).0;
    for i := 0 to |snaps|
      invariant forall p :: p in velocityCache ==> velocityCache[p] == Velocity(t, p) && p !in unreadable
      invariant var rest := Production(snaps[i..], t, today, unreadable);
        Production(snaps, t, today, unreadable) == (out + rest.0, rest.1)
    {
      var s := snaps[i];
      assert snaps[i..][0] == s && snaps[i..][1..] == snaps[i+1..];
      var flags := ComputeFlags(s.status, s.expectedClose, today, s.winProbability, s.isStalled);
      if !flags.Any() {
        continue;
      }
      if s.pipelineId !in velocityCache {
        if s.pipelineId in unreadable {
          assert out + [] == out;
          return out, Some("velocity read failed");
        }
        var median, wonCount := PipelineWonVelocity(t, s.pipelineId);
        velocityCache := velocityCache[s.pipelineId := StageVelocityDays(median, wonCount)];
      }
      var proposed := ProposedCloseDate(today, s.remainingOpenStages, velocityCache[s.pipelineId]);
      ghost var rest := Production(snaps[i+1..], t, today, unreadable).0;
      Reassociate(out, CloseDateProposals(s, proposed, ActionFor(s, today)), rest);
      out := out + CloseDateProposals(s, proposed, ActionFor(s, today));
    }
    assert out + [] == out;
    return out, None;
  }

  // ------------------------------------------------------------- effector

  datatype UpdateError = NotFound | VersionSkew

  const CLOSE_DATE_ACTIONS: set<string> :=
    {"close-date-auto-apply", "close-date-provisional-set", "close-date-confirm-request", "close-date-downgrade-review"}

  predicate Matches(d: DealRow, id: string, ifMatch: int) {
    d.id == id && !d.archived && (ifMatch == 0 || d.version == ifMatch)
  }

  // An absent date leaves the stored one; every update bumps the version.
  function Written(d: DealRow, newDate: Option<int>): DealRow {
    d.(expectedClose := if newDate.Some? then newDate else d.expectedClose, version := d.version + 1)
  }

  function UpdateDeals(deals: seq<DealRow>, id: string, newDate: Option<int>, ifMatch: int)
    : (r: Result<seq<DealRow>, UpdateError>)
    ensures r.Ok? ==> |r.value| == |deals|
  {
    if deals == [] then Err(if ifMatch != 0 then VersionSkew else NotFound)
    else if Matches(deals[0], id, ifMatch) then Ok([Written(deals[0], newDate)] + deals[1..])
    else match UpdateDeals(deals[1..], id, newDate, ifMatch)
      case Err(e) => Err(e)
      case Ok(rest) => Ok([deals[0]] + rest)
  }

  lemma {:induction false} FirstMatch(deals: seq<DealRow>, i: nat, id: string, newDate: Option<int>, ifMatch: int)
    requires i < |deals| && Matches(deals[i], id, ifMatch)
    requires forall j :: 0 <= j < i ==> !Matches(deals[j], id, ifMatch)
    ensures UpdateDeals(deals, id, newDate, ifMatch) == Ok(deals[i := Written(deals[i], newDate)])
  {
    if i == 0 {
      assert [Written(deals[0], newDate)] + deals[1..] == deals[0 := Written(deals[0], newDate)];
    } else {
      FirstMatch(deals[1..], i - 1, id, newDate, ifMatch);
      assert [deals[0]] + deals[1..][i - 1 := Written(deals[i], newDate)] == deals[i := Written(deals[i], newDate)];
    }
  }

  lemma {:induction false} NoMatch(deals: seq<DealRow>, id: string, newDate: Option<int>, ifMatch: int)
    requires forall j :: 0 <= j < |deals| ==> !Matches(deals[j], id, ifMatch)
    ensures UpdateDeals(deals, id, newDate, ifMatch) == Err(if ifMatch != 0 then VersionSkew else NotFound)
  {
    if deals != [] {
      NoMatch(deals[1..], id, newDate, ifMatch);
    }
  }

  function ApplyCloseDate(deals: seq<DealRow>, actionType: string, e: Effect): EffectResult<seq<DealRow>> {
    if actionType !in CLOSE_DATE_ACTIONS || !e.CloseDate? then EffectFailed(deals)
    else match UpdateDeals(deals, e.dealId, Some(e.newDate), e.ifMatch)
      case Err(_) => EffectFailed(deals)
      case Ok(deals') => Applied(deals', RestoreDate(e.dealId, e.priorDate, e.priorVersion))
  }

  // The guarded update changes the first live row with the id and, if asked
  // for, the version: it counts the version up and keeps the stored date when
  // given none. Without such a row nothing changes.
  lemma UpdateOutcome(deals: seq<DealRow>, id: string, newDate: Option<int>, ifMatch: int)
    ensures match UpdateDeals(deals, id, newDate, ifMatch)
      case Ok(after) =>
        exists i :: 0 <= i < |deals| && IsTarget(deals[i], id, ifMatch)
          && (forall j :: 0 <= j < i ==> !IsTarget(deals[j], id, ifMatch))
          && after == deals[i := deals[i].(
               expectedClose := if newDate.Some? then newDate else deals[i].expectedClose,
               version := deals[i].version + 1)]
      case Err(e) =>
        (forall i :: 0 <= i < |deals| ==> !IsTarget(deals[i], id, ifMatch))
        && e == if ifMatch == 0 then NotFound else VersionSkew
  {
    if i :| 0 <= i < |deals| && Matches(deals[i], id, ifMatch) {
      var first := FirstIndex(deals, id, ifMatch);
      FirstMatch(deals, first, id, newDate, ifMatch);
      assert IsTarget(deals[first], id, ifMatch);
      forall j | 0 <= j < first ensures !IsTarget(deals[j], id, ifMatch) {
        assert !Matches(deals[j], id, ifMatch);
      }
    } else {
      NoMatch(deals, id, newDate, ifMatch);
      forall i | 0 <= i < |deals| ensures !IsTarget(deals[i], id, ifMatch) {
        assert !Matches(deals[i], id, ifMatch);
      }
    }
  }

  predicate IsTarget(d: DealRow, id: string, ifMatch: int) {
    d.id == id && !d.archived && (ifMatch != 0 ==> d.version == ifMatch)
  }

  lemma {:induction false} FirstIndex(deals: seq<DealRow>, id: string, ifMatch: int) returns (i: nat)
    requires exists k :: 0 <= k < |deals| && Matches(deals[k], id, ifMatch)
    ensures i < |deals| && Matches(deals[i], id, ifMatch) && forall j :: 0 <= j < i ==> !Matches(deals[j], id, ifMatch)
  {
    if Matches(deals[0], id, ifMatch) {
      i := 0;
    } else {
      var k :| 0 <= k < |deals| && Matches(deals[k], id, ifMatch);
      assert deals[1..][k - 1] == deals[k];
      i := FirstIndex(deals[1..], id, ifMatch);
      i := i + 1;
    }
  }

  // The effector knows the four close-date actions and no other, and its handle
  // carries what it is told the deal had before.
  lemma ApplyOutcome(deals: seq<DealRow>, actionType: string, e: Effect)
    ensures ApplyCloseDate(deals, actionType, e) ==
      if actionType in {"close-date-auto-apply", "close-date-provisional-set", "close-date-confirm-request",
                        "close-date-downgrade-review"}
         && e.CloseDate? && UpdateDeals(deals, e.dealId, Some(e.newDate), e.ifMatch).Ok?
      then Applied(UpdateDeals(deals, e.dealId, Some(e.newDate), e.ifMatch).value,
                   RestoreDate(e.dealId, e.priorDate, e.priorVersion))
      else EffectFailed(deals)
  {
  }

  // The deal table behind the effector, updated in place.
  class DealStore {
    var deals: seq<DealRow>

    constructor (rows: seq<DealRow>)
      ensures deals == rows
    {
      deals := rows;
    }

    method Update(id: string, newDate: Option<int>, ifMatch: int) returns (r: Result<(), UpdateError>)
      modifies this
      ensures match UpdateDeals(old(deals), id, newDate, ifMatch)
        case Ok(deals') => r.Ok? && deals == deals'
        case Err(e) => r == Err(e) && deals == old(deals)
    {
      for i := 0 to |deals|
        invariant deals == old(deals)
        invariant forall j :: 0 <= j < i ==> !Matches(deals[j], id, ifMatch)
      {
        if Matches(deals[i], id, ifMatch) {
          FirstMatch(deals, i, id, newDate, ifMatch);
          deals := deals[i := Written(deals[i], newDate)];
          return Ok(());
        }
      }
      NoMatch(deals, id, newDate, ifMatch);
      return Err(if ifMatch != 0 then VersionSkew else NotFound);
    }

    method Apply(actionType: string, e: Effect) returns (r: Result<Handle, string>)
      modifies this
      ensures match ApplyCloseDate(old(deals), actionType, e)
        case Applied(deals', h) => r == Ok(h) && deals == deals'
        case EffectFailed(deals') => r.Err? && deals == deals'
    {
      if actionType !in CLOSE_DATE_ACTIONS {
        return Err("unsupported action_type");
      }
      if !e.CloseDate? {
        return Err("unmarshal");
      }
      var updated := Update(e.dealId, Some(e.newDate), e.ifMatch);
      if updated.Err? {
        return Err("update");
      }
      return Ok(RestoreDate(e.dealId, e.priorDate, e.priorVersion));
    }
  }

  // ---------------------------------------------- the deals after the pass

  predicate Listed(d: DealRow, t: Tables) {
    IsLive(d) && HasStage(d, t.stages)
  }

  predicate IsFlagged(d: DealRow, t: Tables, now: int) {
    Listed(d, t) && FlagsOf(SnapshotOf(d, t.stages, "", now), DateOf(now)).Any()
  }

  function ProposedDate(d: DealRow, t: Tables, now: int): int
    requires Listed(d, t)
  {
    ProposedFor(SnapshotOf(d, t.stages, "", now), t, DateOf(now))
  }

  // A flagged deal gets its proposed date in one versioned write; every other
  // deal is left alone; the first unreadable pipeline ends the correction.
  function Corrected(deals: seq<DealRow>, t: Tables, now: int, unreadable: set<string>): (r: seq<DealRow>)
    ensures |r| == |deals|
  {
    if deals == [] then []
    else
      var d := deals[0];
      if !IsFlagged(d, t, now) then [d] + Corrected(deals[1..], t, now, unreadable)
      else if d.pipelineId in unreadable then deals
      else [Written(d, Some(ProposedDate(d, t, now)))] + Corrected(deals[1..], t, now, unreadable)
  }

  predicate Completes(deals: seq<DealRow>, t: Tables, now: int, unreadable: set<string>) {
    forall d :: d in deals && IsFlagged(d, t, now) ==> d.pipelineId !in unreadable
  }

  // A match past rows with other ids.
  lemma UpdateBehind(front: seq<DealRow>, back: seq<DealRow>, newDate: Option<int>, ifMatch: int)
    requires back != [] && Matches(back[0], back[0].id, ifMatch)
    requires forall d :: d in front ==> d.id != back[0].id
    ensures UpdateDeals(front + back, back[0].id, newDate, ifMatch)
      == Ok((front + [Written(back[0], newDate)]) + back[1..])
  {
    var all := front + back;
    FirstMatch(all, |front|, back[0].id, newDate, ifMatch);
    assert all[|front| := Written(back[0], newDate)] == (front + [Written(back[0], newDate)]) + back[1..];
  }

  function Produced(deals: seq<DealRow>, t: Tables, workspaceId: string, now: int, unreadable: set<string>)
    : (seq<Proposal>, bool)
  {
    Production(Snapshots(deals, t.stages, workspaceId, now), t, DateOf(now), unreadable)
  }

  // Production over the rows: what the first row contributes.
  lemma ProducedStep(deals: seq<DealRow>, t: Tables, workspaceId: string, now: int, unreadable: set<string>)
    requires deals != []
    ensures var d := deals[0];
      var rest := Produced(deals[1..], t, workspaceId, now, unreadable);
      Produced(deals, t, workspaceId, now, unreadable) ==
        if !IsFlagged(d, t, now) then rest
        else if d.pipelineId in unreadable then ([], false)
        else
          var s := SnapshotOf(d, t.stages, workspaceId, now);
          (CloseDateProposals(s, ProposedDate(d, t, now), ActionFor(s, DateOf(now))) + rest.0, rest.1)
  {
    var d := deals[0];
    var tail := Snapshots(deals[1..], t.stages, workspaceId, now);
    if Listed(d, t) {
      var s := SnapshotOf(d, t.stages, workspaceId, now);
      assert Snapshots(deals, t.stages, workspaceId, now) == [s] + tail;
      assert ([s] + tail)[1..] == tail && ([s] + tail)[0] == s;
    } else {
      assert Snapshots(deals, t.stages, workspaceId, now) == [] + tail == tail;
    }
  }

  lemma ProposalLanes(s: Snapshot, proposed: int, action: Action)
    ensures Filter(CloseDateProposals(s, proposed, action), IsGreen) == [GreenWrite(s, proposed, action)]
    ensures Filter(CloseDateProposals(s, proposed, action), IsYellow)
      == if action == AutoApply then [] else [YellowReview(s, proposed, action)]
    ensures forall p :: p in CloseDateProposals(s, proposed, action) ==> Survives(p) && p.workspaceId == s.workspaceId
  {
    var ps := CloseDateProposals(s, proposed, action);
    assert IsGreen(GreenWrite(s, proposed, action));
    if action == AutoApply {
      assert ps[1..] == [];
    } else {
      assert ps[1..] == [YellowReview(s, proposed, action)] && ps[1..][1..] == [];
    }
  }

  lemma {:induction false} ProducedSurvive(deals: seq<DealRow>, t: Tables, workspaceId: string, now: int,
      unreadable: set<string>)
    ensures forall p :: p in Produced(deals, t, workspaceId, now, unreadable).0 ==>
      Survives(p) && p.workspaceId == workspaceId
    ensures Completes(deals, t, now, unreadable) <==> Produced(deals, t, workspaceId, now, unreadable).1
  {
    if deals != [] {
      ProducedStep(deals, t, workspaceId, now, unreadable);
      ProducedSurvive(deals[1..], t, workspaceId, now, unreadable);
      var d := deals[0];
      assert deals == [d] + deals[1..];
      if IsFlagged(d, t, now) {
        var s := SnapshotOf(d, t.stages, workspaceId, now);
        ProposalLanes(s, ProposedDate(d, t, now), ActionFor(s, DateOf(now)));
      }
    }
  }

  // The green writes of the remaining rows, applied while the rows before
  // them hold `front`, go through one by one, each matching the version its
  // snapshot read.
  lemma {:induction false} GreenWritesLand(front: seq<DealRow>, deals: seq<DealRow>, t: Tables, workspaceId: string,
      now: int, unreadable: set<string>)
    requires UniqueIds(front + deals)
    ensures var greens := Filter(Produced(deals, t, workspaceId, now, unreadable).0, IsGreen);
      var effects := RunEffects(front + deals, greens, ApplyCloseDate);
      effects.Some? && effects.value.0 == front + Corrected(deals, t, now, unreadable)
    decreases |deals|
  {
    ProducedStepOrEmpty(deals, t, workspaceId, now, unreadable);
    if deals != [] {
      var d := deals[0];
      assert front + deals == (front + [d]) + deals[1..];
      if !IsFlagged(d, t, now) {
        GreenWritesLand(front + [d], deals[1..], t, workspaceId, now, unreadable);
        Reassociate(front, [d], Corrected(deals[1..], t, now, unreadable));
      } else if d.pipelineId !in unreadable {
        var d' := Written(d, Some(ProposedDate(d, t, now)));
        UniqueAfterWrite(front, deals, d');
        GreenWritesLand(front + [d'], deals[1..], t, workspaceId, now, unreadable);
        Reassociate(front, [d'], Corrected(deals[1..], t, now, unreadable));
        FirstGreenLands(front, deals, t, workspaceId, now, unreadable);
      }
    }
  }

  // The first row's own green write, ahead of the rest.
  lemma FirstGreenLands(front: seq<DealRow>, deals: seq<DealRow>, t: Tables, workspaceId: string, now: int,
      unreadable: set<string>)
    requires UniqueIds(front + deals) && deals != []
    requires IsFlagged(deals[0], t, now) && deals[0].pipelineId !in unreadable
    ensures var d' := Written(deals[0], Some(ProposedDate(deals[0], t, now)));
      var greens := Filter(Produced(deals, t, workspaceId, now, unreadable).0, IsGreen);
      var later := Filter(Produced(deals[1..], t, workspaceId, now, unreadable).0, IsGreen);
      && RunEffects(front + deals, greens, ApplyCloseDate).Some?
           == RunEffects((front + [d']) + deals[1..], later, ApplyCloseDate).Some?
      && (RunEffects(front + deals, greens, ApplyCloseDate).Some? ==>
            RunEffects(front + deals, greens, ApplyCloseDate).value.0
              == RunEffects((front + [d']) + deals[1..], later, ApplyCloseDate).value.0)
  {
    var d := deals[0];
    var rest := Produced(deals[1..], t, workspaceId, now, unreadable);
    var s := SnapshotOf(d, t.stages, workspaceId, now);
    var proposed := ProposedDate(d, t, now);
    var action := ActionFor(s, DateOf(now));
    var g := GreenWrite(s, proposed, action);
    ProducedStep(deals, t, workspaceId, now, unreadable);
    ProposalLanes(s, proposed, action);
    FilterAppend(CloseDateProposals(s, proposed, action), rest.0, IsGreen);
    var greens := [g] + Filter(rest.0, IsGreen);
    assert greens[0] == g && greens[1..] == Filter(rest.0, IsGreen);
    FrontDiffers(front, deals);
    UpdateBehind(front, deals, Some(proposed), d.version);
  }

  lemma ProducedStepOrEmpty(deals: seq<DealRow>, t: Tables, workspaceId: string, now: int, unreadable: set<string>)
    ensures deals == [] ==> Produced(deals, t, workspaceId, now, unreadable).0 == []
    ensures deals != [] ==>
      var d := deals[0];
      var rest := Produced(deals[1..], t, workspaceId, now, unreadable);
      Produced(deals, t, workspaceId, now, unreadable) ==
        if !IsFlagged(d, t, now) then rest
        else if d.pipelineId in unreadable then ([], false)
        else
          var s := SnapshotOf(d, t.stages, workspaceId, now);
          (CloseDateProposals(s, ProposedDate(d, t, now), ActionFor(s, DateOf(now))) + rest.0, rest.1)
  {
    if deals != [] {
      ProducedStep(deals, t, workspaceId, now, unreadable);
    }
  }

  lemma FrontDiffers(front: seq<DealRow>, deals: seq<DealRow>)
    requires UniqueIds(front + deals) && deals != []
    ensures forall d :: d in front ==> d.id != deals[0].id
  {
    var all := front + deals;
    forall i | 0 <= i < |front| ensures front[i].id != deals[0].id {
      assert all[i] == front[i] && all[|front|] == deals[0];
    }
  }

  lemma UniqueAfterWrite(front: seq<DealRow>, deals: seq<DealRow>, d': DealRow)
    requires UniqueIds(front + deals) && deals != [] && d'.id == deals[0].id
    ensures UniqueIds((front + [d']) + deals[1..])
  {
    var before, after := front + deals, (front + [d']) + deals[1..];
    assert forall i :: 0 <= i < |before| ==> after[i].id == before[i].id;
  }

  // The whole chain: a close-date pass never aborts, and it leaves the deal
  // table exactly corrected.
  lemma PassCorrectsDeals(w: World<seq<DealRow>>, t: Tables, workspaceId: string, now: int, unreadable: set<string>)
    requires workspaceId != "" && UniqueIds(t.deals) && w.store == t.deals
    ensures var raw := Produced(t.deals, t, workspaceId, now, unreadable).0;
      var outcome := PassFrom(w, RouteEach(Filter(raw, Survives)), ApplyCloseDate);
      outcome.Done? && outcome.world.store == Corrected(t.deals, t, now, unreadable)
  {
    var raw := Produced(t.deals, t, workspaceId, now, unreadable).0;
    ProducedSurvive(t.deals, t, workspaceId, now, unreadable);
    FilterAll(raw, Survives);
    CompletedPass(w, raw, ApplyCloseDate);
    assert [] + t.deals == t.deals;
    GreenWritesLand([], t.deals, t, workspaceId, now, unreadable);
    assert [] + Corrected(t.deals, t, now, unreadable) == Corrected(t.deals, t, now, unreadable);
    LaneNamesWorkspace(raw, workspaceId, IsGreen);
    LaneNamesWorkspace(raw, workspaceId, IsYellow);
  }

  lemma LaneNamesWorkspace(ps: seq<Proposal>, workspaceId: string, lane: Proposal -> bool)
    requires workspaceId != "" && forall p :: p in ps ==> p.workspaceId == workspaceId
    ensures NameWorkspace(Filter(ps, lane))
  {
    forall p | p in Filter(ps, lane) ensures p.workspaceId != "" {
      FilterMember(ps, lane, p);
    }
  }

  // An overdue date the machine may correct on its own: the deal is active,
  // early and outside the forecast.
  predicate ClearlyOverdue(s: Snapshot, today: int) {
    && s.expectedClose.Some? && s.expectedClose.value < today
    && !s.isStalled
    && s.winProbability < 50
    && (s.forecastCategory.None? || s.forecastCategory.value !in {"commit", "best_case"})
  }

  // Every flagged deal gets one green write, bound to the version just read. A
  // human is asked too, once, unless the date is clearly overdue: about a deal
  // gone quiet or for a date. All of them carry the proposed date and the one it
  // replaces.
  lemma ReviewUnlessClearlyOverdue(s: Snapshot, proposed: int, today: int)
    requires s.status == Open
    ensures var ps := CloseDateProposals(s, proposed, ActionFor(s, today));
      && |Filter(ps, IsGreen)| == 1
      && |Filter(ps, IsYellow)| == (if ClearlyOverdue(s, today) then 0 else 1)
      && (forall p :: p in Filter(ps, IsGreen) ==>
            && p.actionType ==
                 (if ClearlyOverdue(s, today) then "close-date-auto-apply" else "close-date-provisional-set")
            && p.effect == CloseDate(s.dealId, s.version, proposed, s.expectedClose, s.version, "deal.updated"))
      && (forall p :: p in Filter(ps, IsYellow) ==>
            && p.actionType == (if s.isStalled then "close-date-downgrade-review" else "close-date-confirm-request")
            && p.effect == CloseDate(s.dealId, 0, proposed, s.expectedClose, s.version, "deal.updated"))
      && (forall p :: p in ps ==>
            && p.workspaceId == s.workspaceId && p.target == "deal:" + s.dealId && p.source == "policy:FCAST-FORM-3"
            && p.confidence == Some(1.0) && p.eventTopic == "deal.updated")
  {
    ProposalLanes(s, proposed, ActionFor(s, today));
    ActionWhenOpen(s, today);
  }

  lemma ActionWhenOpen(s: Snapshot, today: int)
    requires s.status == Open
    ensures ActionFor(s, today) == AutoApply <==> ClearlyOverdue(s, today)
    ensures ActionFor(s, today) == DowngradeAndReview <==> s.isStalled
  {
  }

  function NeedsReview(t: Tables, now: int): DealRow -> bool {
    (d: DealRow) => IsFlagged(d, t, now) && !ClearlyOverdue(SnapshotOf(d, t.stages, "", now), DateOf(now))
  }

  function Flagged(t: Tables, now: int): DealRow -> bool {
    (d: DealRow) => IsFlagged(d, t, now)
  }

  // Over the whole table: as many green writes as flagged deals, as many
  // reviews as flagged deals that are not clearly overdue.
  lemma {:induction false} ProposalsCounted(deals: seq<DealRow>, t: Tables, workspaceId: string, now: int,
      unreadable: set<string>)
    requires Completes(deals, t, now, unreadable)
    ensures var ps := Produced(deals, t, workspaceId, now, unreadable).0;
      && |Filter(ps, IsGreen)| == |Filter(deals, Flagged(t, now))|
      && |Filter(ps, IsYellow)| == |Filter(deals, NeedsReview(t, now))|
    decreases |deals|
  {
    ProducedStepOrEmpty(deals, t, workspaceId, now, unreadable);
    if deals != [] {
      ProposalsCounted(deals[1..], t, workspaceId, now, unreadable);
      var d, rest := deals[0], Produced(deals[1..], t, workspaceId, now, unreadable).0;
      assert d in deals;
      if IsFlagged(d, t, now) {
        var s := SnapshotOf(d, t.stages, workspaceId, now);
        var own := CloseDateProposals(s, ProposedDate(d, t, now), ActionFor(s, DateOf(now)));
        ReviewUnlessClearlyOverdue(s, ProposedDate(d, t, now), DateOf(now));
        FilterAppend(own, rest, IsGreen);
        FilterAppend(own, rest, IsYellow);
      }
    }
  }

  // ----------------------------------------------------------- OVN-AC-1

  predicate HasFutureDate(d: DealRow, today: int) {
    d.expectedClose.Some? && d.expectedClose.value >= today
  }

  lemma VelocityNonNegative(t: Tables, pipelineId: string)
    ensures Velocity(t, pipelineId) >= 0
  {
    MedianNonNegative(t.deals, t.history, pipelineId);
  }

  lemma ProposedNotPast(d: DealRow, t: Tables, now: int)
    requires Listed(d, t)
    ensures ProposedDate(d, t, now) >= DateOf(now) + Velocity(t, d.pipelineId)
    ensures ProposedDate(d, t, now) >= DateOf(now)
  {
    VelocityNonNegative(t, d.pipelineId);
    var v := Velocity(t, d.pipelineId);
    var n := SnapshotOf(d, t.stages, "", now).remainingOpenStages;
    if n > 1 {
      assert n * v == v + (n - 1) * v;
      assert (n - 1) * v >= 0;
    }
  }

  lemma {:induction false} CorrectedAt(deals: seq<DealRow>, t: Tables, now: int, unreadable: set<string>, i: nat)
    requires i < |deals| && Completes(deals, t, now, unreadable)
    ensures Corrected(deals, t, now, unreadable)[i] ==
      if IsFlagged(deals[i], t, now) then Written(deals[i], Some(ProposedDate(deals[i], t, now))) else deals[i]
  {
    assert deals[0] in deals;
    if i > 0 {
      CorrectedAt(deals[1..], t, now, unreadable, i - 1);
    }
  }

  // No activity for more than sixty days, and no customer wait that still holds.
  predicate GoneQuiet(d: DealRow, now: int) {
    && now - (if d.lastActivityAt.Some? then d.lastActivityAt.value else d.createdAt) > 60 * 86_400_000_000_000
    && (d.waitUntil.Some? ==> d.waitUntil.value < DateOf(now))
  }

  // A live deal in a stage of its pipeline is flagged when it has no close date
  // or one that is past, within seven days at a probability below forty, or
  // within sixty days on a deal gone quiet.
  lemma FlaggedIff(d: DealRow, t: Tables, now: int)
    ensures IsFlagged(d, t, now) <==>
      && d.status == Open && !d.archived
      && d.stageId in t.stages && t.stages[d.stageId].pipelineId == d.pipelineId
      && (d.expectedClose.Some? ==>
            var left := d.expectedClose.value - DateOf(now);
            left < 0 || (left <= 7 && t.stages[d.stageId].winProbability < 40) || (GoneQuiet(d, now) && left <= 60))
  {
  }

  // The live open stages of the deal's pipeline at or after the deal's own.
  predicate IsAhead(d: DealRow, stages: map<string, StageRow>, id: string)
    requires d.stageId in stages
  {
    && id in stages && stages[id].pipelineId == d.pipelineId && !stages[id].archived && stages[id].semantic == Open
    && stages[id].position >= stages[d.stageId].position
  }

  lemma StagesCounted(d: DealRow, stages: map<string, StageRow>, ahead: set<string>)
    requires d.stageId in stages && forall id :: id in ahead <==> IsAhead(d, stages, id)
    ensures OpenStagesFrom(stages, d.pipelineId, stages[d.stageId].position) == |ahead|
  {
    var position := stages[d.stageId].position;
    var counted := set s | s in stages && stages[s].pipelineId == d.pipelineId && !stages[s].archived
                          && stages[s].semantic == Open && stages[s].position >= position;
    assert counted == ahead;
    assert OpenStagesFrom(stages, d.pipelineId, position) == |counted|;
  }

  // The proposed date is one velocity away for each of these stages, and for
  // one if there are none or the deal's stage is not an open one.
  lemma ProposedDateIs(d: DealRow, t: Tables, now: int, ahead: set<string>)
    requires Listed(d, t) && forall id :: id in ahead <==> IsAhead(d, t.stages, id)
    ensures ProposedDate(d, t, now) ==
      if t.stages[d.stageId].semantic != Open || |ahead| <= 1
      then DateOf(now) + Velocity(t, d.pipelineId)
      else DateOf(now) + |ahead| * Velocity(t, d.pipelineId)
  {
    StagesCounted(d, t.stages, ahead);
  }

  // One more stage ahead moves the date by exactly one velocity; any other
  // stage leaves it.
  lemma EachStageAddsOneVelocity(d: DealRow, t: Tables, now: int, id: string, stage: StageRow, ahead: set<string>)
    requires Listed(d, t) && t.stages[d.stageId].semantic == Open && id !in t.stages
    requires ahead != {} && forall s :: s in ahead <==> IsAhead(d, t.stages, s)
    ensures var t' := t.(stages := t.stages[id := stage]);
      && Listed(d, t')
      && ProposedDate(d, t', now) == ProposedDate(d, t, now)
           + if stage.pipelineId == d.pipelineId && !stage.archived && stage.semantic == Open
                && stage.position >= t.stages[d.stageId].position then Velocity(t, d.pipelineId) else 0
  {
    var t' := t.(stages := t.stages[id := stage]);
    ProposedDateIs(d, t, now, ahead);
    if IsAhead(d, t'.stages, id) {
      assert |ahead + {id}| == |ahead| + 1;
      ProposedDateIs(d, t', now, ahead + {id});
      var n, v := |ahead|, Velocity(t, d.pipelineId);
      assert (n + 1) * v == n * v + v;
    } else {
      ProposedDateIs(d, t', now, ahead);
    }
  }

  // The velocity is the observed median from twenty won deals on, and fourteen
  // days below that.
  lemma VelocityIs(t: Tables, pipelineId: string)
    ensures Velocity(t, pipelineId) ==
      if |Filter(t.deals, WonLive(pipelineId))| >= 20 then Median(Samples(t.deals, t.history, pipelineId)) else 14
  {
    WonCounted(t.deals, pipelineId);
  }

  // The table a pass leaves, deal by deal: a flagged deal has one version more
  // and the date that many velocities away, and is otherwise as it was; any
  // other deal is untouched.
  lemma DatesAfterPass(t: Tables, now: int, unreadable: set<string>, i: nat, ahead: set<string>)
    requires Completes(t.deals, t, now, unreadable) && i < |t.deals|
    requires t.deals[i].stageId in t.stages && forall id :: id in ahead <==> IsAhead(t.deals[i], t.stages, id)
    ensures var d, d' := t.deals[i], Corrected(t.deals, t, now, unreadable)[i];
      if IsFlagged(d, t, now)
      then
        var steps := if t.stages[d.stageId].semantic != Open || |ahead| <= 1 then 1 else |ahead|;
        d' == d.(expectedClose := Some(DateOf(now) + steps * Velocity(t, d.pipelineId)), version := d.version + 1)
      else d' == d
  {
    CorrectedAt(t.deals, t, now, unreadable, i);
    if IsFlagged(t.deals[i], t, now) {
      ProposedDateIs(t.deals[i], t, now, ahead);
    }
  }

  // After a pass whose velocity reads all succeeded, every open deal has a
  // close date that is not before today, whatever it had before.
  lemma OpenDealsHaveFutureDates(t: Tables, now: int, unreadable: set<string>)
    requires Completes(t.deals, t, now, unreadable)
    requires forall d :: d in t.deals ==> HasStage(d, t.stages)
    ensures forall d :: d in Corrected(t.deals, t, now, unreadable) && IsLive(d) ==> HasFutureDate(d, DateOf(now))
  {
    var after := Corrected(t.deals, t, now, unreadable);
    forall i | 0 <= i < |after| && IsLive(after[i]) ensures HasFutureDate(after[i], DateOf(now)) {
      CorrectedAt(t.deals, t, now, unreadable, i);
      assert t.deals[i] in t.deals;
      if IsFlagged(t.deals[i], t, now) {
        ProposedNotPast(t.deals[i], t, now);
      }
    }
  }

  // ------------------------------------------------------------- fixpoint

  // Whether a date the first pass leaves on d is flagged again at `later`.
  predicate FlaggedAgain(d: DealRow, date: int, t: Tables, later: int)
    requires HasStage(d, t.stages)
  {
    || (t.stages[d.stageId].winProbability < 40 && date <= DateOf(later) + 7)
    || (GoneQuiet(d, later) && date <= DateOf(later) + 60)
  }

  // The date a deal carries after the first pass.
  function DateAfter(d: DealRow, t: Tables, now: int): Option<int> {
    if IsFlagged(d, t, now) then Some(ProposedDate(d, t, now)) else d.expectedClose
  }

  lemma {:induction false} QuietIffNoneFlagged(deals: seq<DealRow>, t: Tables, workspaceId: string, now: int)
    ensures Produced(deals, t, workspaceId, now, {}).0 == [] <==> forall d :: d in deals ==> !IsFlagged(d, t, now)
  {
    ProducedStepOrEmpty(deals, t, workspaceId, now, {});
    if deals != [] {
      QuietIffNoneFlagged(deals[1..], t, workspaceId, now);
      assert deals == [deals[0]] + deals[1..];
    }
  }

  // A second pass on the same day proposes nothing (and so reports RunQuiet)
  // exactly when no live deal's date, as the first pass leaves it, is
  // unrealistically soon or stale. The first pass alone does not ensure it.
  lemma SecondPassQuietIff(t: Tables, workspaceId: string, now: int, later: int)
    requires forall d :: d in t.deals ==> HasStage(d, t.stages)
    requires DateOf(later) == DateOf(now)
    ensures var t' := t.(deals := Corrected(t.deals, t, now, {}));
      Produced(t'.deals, t', workspaceId, later, {}).0 == []
      <==> forall d :: d in t.deals && IsLive(d) ==>
             DateAfter(d, t, now).Some? && !FlaggedAgain(d, DateAfter(d, t, now).value, t, later)
  {
    var t' := t.(deals := Corrected(t.deals, t, now, {}));
    QuietIffNoneFlagged(t'.deals, t', workspaceId, later);
    forall i | 0 <= i < |t.deals|
      ensures IsLive(t.deals[i]) ==> DateAfter(t.deals[i], t, now).Some?
      ensures IsFlagged(t'.deals[i], t', later) <==>
        IsLive(t.deals[i]) && FlaggedAgain(t.deals[i], DateAfter(t.deals[i], t, now).value, t, later)
    {
      FlaggedAfterwards(t, now, later, i);
    }
    forall d | d in t.deals ensures exists i :: 0 <= i < |t.deals| && t.deals[i] == d {
    }
  }

  lemma FlaggedAfterwards(t: Tables, now: int, later: int, i: nat)
    requires forall d :: d in t.deals ==> HasStage(d, t.stages)
    requires DateOf(later) == DateOf(now)
    requires i < |t.deals|
    ensures var d := t.deals[i];
      var t' := t.(deals := Corrected(t.deals, t, now, {}));
      && (IsLive(d) ==> DateAfter(d, t, now).Some?)
      && (IsFlagged(t'.deals[i], t', later) <==> IsLive(d) && FlaggedAgain(d, DateAfter(d, t, now).value, t, later))
  {
    var d := t.deals[i];
    assert d in t.deals;
    CorrectedAt(t.deals, t, now, {}, i);
    if IsFlagged(d, t, now) {
      ProposedNotPast(d, t, now);
    }
  }

  // In particular: nothing stalled and every velocity over a week is enough.
  lemma SecondPassQuiet(t: Tables, workspaceId: string, now: int, later: int)
    requires forall d :: d in t.deals ==> HasStage(d, t.stages)
    requires DateOf(later) == DateOf(now)
    requires forall d :: d in t.deals ==> !GoneQuiet(d, later)
    requires forall d :: d in t.deals ==> Velocity(t, d.pipelineId) > 7
    ensures var t' := t.(deals := Corrected(t.deals, t, now, {}));
      Produced(t'.deals, t', workspaceId, later, {}).0 == []
  {
    SecondPassQuietIff(t, workspaceId, now, later);
    forall d | d in t.deals && IsLive(d)
      ensures DateAfter(d, t, now).Some? && !FlaggedAgain(d, DateAfter(d, t, now).value, t, later)
    {
      if IsFlagged(d, t, now) {
        ProposedNotPast(d, t, now);
      }
    }
  }

  // A deal gone quiet is given a date two weeks out, which is stale again at
  // once: the second pass proposes it anew.
  lemma SecondPassFlagsStalledAgain() returns (t: Tables, now: int)
    ensures UniqueIds(t.deals) && forall d :: d in t.deals ==> HasStage(d, t.stages)
    ensures var t' := t.(deals := Corrected(t.deals, t, now, {}));
      Produced(t'.deals, t', "w", now, {}).0 != []
  {
    var stage := StageRow("p", 1, 90, Open, false);
    var d := DealRow("d", "p", "s", Open, None, None, 1, None, None, 0, false);
    now := 61 * DAY;
    t := Tables(map["s" := stage], [d], []);
    QuietDealStaysFlagged(t, d, now);
    SecondPassQuietIff(t, "w", now, now);
  }

  lemma OneStageAhead(stages: map<string, StageRow>, only: string, pipelineId: string, position: int)
    requires stages.Keys == {only}
    ensures OpenStagesFrom(stages, pipelineId, position) <= 1
  {
    var ahead := set s | s in stages && stages[s].pipelineId == pipelineId && !stages[s].archived
                        && stages[s].semantic == Open && stages[s].position >= position;
    SubsetSize(ahead, {only});
    assert |ahead| <= 1;
  }

  lemma QuietDealStaysFlagged(t: Tables, d: DealRow, now: int)
    requires t.deals == [d] && IsLive(d) && HasStage(d, t.stages) && t.stages.Keys == {d.stageId}
    requires d.expectedClose.None? && GoneQuiet(d, now)
    ensures DateAfter(d, t, now).Some? && FlaggedAgain(d, DateAfter(d, t, now).value, t, now)
  {
    OneStageAhead(t.stages, d.stageId, d.pipelineId, t.stages[d.stageId].position);
    assert SnapshotOf(d, t.stages, "", now).remainingOpenStages <= 1;
    assert t.deals[1..] == [] && WonCount([], d.pipelineId) == 0;
    assert WonCount(t.deals, d.pipelineId) == 0;
    assert Velocity(t, d.pipelineId) == CLOSE_DATE_STAGE_DAYS;
    assert ProposedDate(d, t, now) == DateOf(now) + CLOSE_DATE_STAGE_DAYS;
  }

  lemma {:induction false} SubsetSize(a: set<string>, b: set<string>)
    requires a <= b
    ensures |a| <= |b|
  {
    if a != {} {
      var x :| x in a;
      SubsetSize(a - {x}, b - {x});
    }
  }

  // ------------------------------------------------------------- rollback

  // Replaying a green write's handle as a plain update brings the prior date
  // back exactly when there was one: the update cannot clear a date.
  lemma RollbackRestoresIff(deals: seq<DealRow>, i: nat, newDate: int)
    requires UniqueIds(deals) && i < |deals| && !deals[i].archived
    ensures var d := deals[i];
      var e := CloseDate(d.id, d.version, newDate, d.expectedClose, d.version, CLOSE_DATE_EVENT_TOPIC);
      var applied := ApplyCloseDate(deals, "close-date-provisional-set", e);
      && applied.Applied? && applied.store == deals[i := Written(d, Some(newDate))]
      && var undone := UpdateDeals(applied.store, applied.handle.dealId, applied.handle.priorDate, 0);
         undone.Ok? && (undone.value[i].expectedClose == d.expectedClose <==> d.expectedClose.Some?)
  {
    var d := deals[i];
    UpdateAt(deals, i, Some(newDate), d.version);
    var deals' := deals[i := Written(d, Some(newDate))];
    UpdateAt(deals', i, d.expectedClose, 0);
  }

  lemma UpdateAt(deals: seq<DealRow>, i: nat, newDate: Option<int>, ifMatch: int)
    requires UniqueIds(deals) && i < |deals| && Matches(deals[i], deals[i].id, ifMatch)
    ensures UpdateDeals(deals, deals[i].id, newDate, ifMatch) == Ok(deals[i := Written(deals[i], newDate)])
  {
    FirstMatch(deals, i, deals[i].id, newDate, ifMatch);
  }

  // -------------------------------------------------------- the whole run

  // One overnight close-date pass, producer to batch, on its real parts.
  method OvernightCloseDates(t: Tables, workspaceId: string, now: int, unreadable: set<string>)
    returns (result: RunResult, deals: seq<DealRow>)
    requires workspaceId != "" && UniqueIds(t.deals)
    ensures deals == Corrected(t.deals, t, now, unreadable)
    ensures result.state == RunDegraded <==> !Completes(t.deals, t, now, unreadable)
    ensures result.state == RunQuiet <==> forall d :: d in t.deals ==> !IsFlagged(d, t, now)
    ensures result.state != RunDegraded && (forall d :: d in t.deals ==> HasStage(d, t.stages)) ==>
      forall d :: d in deals && IsLive(d) ==> HasFutureDate(d, DateOf(now))
  {
    var raw, err := Produce(t, workspaceId, now, unreadable);
    var runner := new Runner(t.deals);
    ghost var before := runner.State();
    var run := runner.RunPass(None, raw, err, ApplyCloseDate);
    PassCorrectsDeals(before, t, workspaceId, now, unreadable);
    ProducedSurvive(t.deals, t, workspaceId, now, unreadable);
    FilterAll(raw, Survives);
    QuietRun(t.deals, t, workspaceId, now, unreadable);
    result := run.value;
    deals := runner.store;
    if result.state != RunDegraded && forall d :: d in t.deals ==> HasStage(d, t.stages) {
      OpenDealsHaveFutureDates(t, now, unreadable);
    }
  }

  lemma {:induction false} QuietRun(deals: seq<DealRow>, t: Tables, workspaceId: string, now: int,
      unreadable: set<string>)
    ensures var p := Produced(deals, t, workspaceId, now, unreadable);
      (p.0 == [] && p.1) <==> forall d :: d in deals ==> !IsFlagged(d, t, now)
  {
    ProducedStepOrEmpty(deals, t, workspaceId, now, unreadable);
    if deals != [] {
      QuietRun(deals[1..], t, workspaceId, now, unreadable);
      assert deals == [deals[0]] + deals[1..];
    }
  }
}
