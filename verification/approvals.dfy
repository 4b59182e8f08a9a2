// decision.go, store.go and expiry.go of the approvals module: items decided
// by concurrent approvers and an expiry sweep, each reading an item first and
// claiming it later with a compare-and-set.
module Approvals {
  import opened Wrappers
  import opened Sequences

  datatype Status = Pending | Approved | Rejected | Modified | Expired

  datatype Item = Item(
    workspaceId: string, actionType: string, payload: string, requestedBy: string,
    expiresAt: int, status: Status, decidedBy: Option<string>)

  // What a caller stages; no expiry means the default time to live.
  datatype Request = Request(
    workspaceId: string, actionType: string, payload: string, requestedBy: string, expiresAt: Option<int>)

  // One decider call or sweep between its steps, holding what it has read.
  datatype Op =
    | Approving(id: nat, item: Item, approver: string)
    | Rejecting(id: nat, item: Item, approver: string)
    | Modifying(id: nat, item: Item, approver: string, edited: string, yellow: bool)
    | Executing(id: nat, actionType: string, payload: string, announce: bool)
    | Sweeping(todo: seq<nat>)

  datatype Execution = Execution(id: nat, actionType: string, payload: string)

  datatype Event = Event(id: nat, decision: Status, restagedAs: Option<nat>)

  // How an item left pending and whose claim won; history only.
  datatype Decision = Decision(to: Status, payload: string, restagedAs: Option<nat>, winner: nat) {
    // The claim is followed by an execAction.
    predicate Runs() {
      to == Approved || (to == Modified && restagedAs.None?)
    }

    // The decision is published. A modify carried out directly is not.
    predicate Announced() {
      to != Modified || restagedAs.Some?
    }
  }

  // An item's id is its row position; rows are never deleted.
  datatype State = State(
    items: seq<Item>,
    executed: seq<Execution>,
    events: seq<Event>,
    ops: map<nat, Op>,
    decided: map<nat, Decision>)

  datatype Step =
    | Stage(request: Request, now: int)
    | BeginApprove(t: nat, id: nat, approver: string)
    | BeginReject(t: nat, id: nat, approver: string)
    | BeginModify(t: nat, id: nat, approver: string, edited: string, admitted: bool, yellow: bool)
    | BeginSweep(t: nat, now: int)
    | Claim(t: nat, now: int)  // the compare-and-set of whatever t is deciding
    | Execute(t: nat)          // execAction, after t's own winning claim
    | ExpireNext(t: nat)

  const APPROVAL_TTL := 72 * 3600

  // The payload column is never empty.
  function StoredPayload(p: string): string {
    if p == "" then "{}" else p
  }

  function NewItem(r: Request, now: int): Item {
    Item(r.workspaceId, r.actionType, StoredPayload(r.payload), r.requestedBy,
         if r.expiresAt.Some? then r.expiresAt.value else now + APPROVAL_TTL, Pending, None)
  }

  // What a modify that resolves to yellow stages again.
  function Restaged(item: Item, edited: string): Request {
    Request(item.workspaceId, item.actionType, edited, item.requestedBy, None)
  }

  predicate IsPending(s: State, id: nat) {
    id < |s.items| && s.items[id].status == Pending
  }

  // The guarded update: it moves only a pending row.
  function Transition(items: seq<Item>, id: nat, to: Status, approver: string): Option<seq<Item>> {
    if id < |items| && items[id].status == Pending
    then Some(items[id := items[id].(status := to, decidedBy := Some(approver))])
    else None
  }

  function Overdue(items: seq<Item>, now: int, from: nat): seq<nat>
    requires from <= |items|
    decreases |items| - from
  {
    if from == |items| then []
    else
      (if items[from].status == Pending && items[from].expiresAt < now then [from] else [])
      + Overdue(items, now, from + 1)
  }

  function Finish(s: State, t: nat): State {
    s.(ops := s.ops - {t})
  }

  function ClaimBy(s: State, t: nat, now: int): State
    requires t in s.ops
  {
    match s.ops[t]
    case Approving(id, item, approver) =>
      (match Transition(s.items, id, Approved, approver)
       case None => Finish(s, t)
       case Some(items) =>
         s.(items := items,
            decided := s.decided[id := Decision(Approved, item.payload, None, t)],
            ops := s.ops[t := Executing(id, item.actionType, item.payload, true)]))
    case Rejecting(id, item, approver) =>
      (match Transition(s.items, id, Rejected, approver)
       case None => Finish(s, t)
       case Some(items) =>
         Finish(s, t).(items := items,
                       decided := s.decided[id := Decision(Rejected, item.payload, None, t)],
                       events := s.events + [Event(id, Rejected, None)]))
    case Modifying(id, item, approver, edited, yellow) =>
      (match Transition(s.items, id, Modified, approver)
       case None => Finish(s, t)
       case Some(items) =>
         if yellow then
           var newId := |items|;
           Finish(s, t).(
             items := items + [NewItem(Restaged(item, edited), now)],
             decided := s.decided[id := Decision(Modified, edited, Some(newId), t)],
             events := s.events + [Event(id, Modified, Some(newId))])
         else
           s.(items := items,
              decided := s.decided[id := Decision(Modified, edited, None, t)],
              ops := s.ops[t := Executing(id, item.actionType, edited, false)]))
    case Executing(_, _, _, _) => s
    case Sweeping(_) => s
  }

  function ExpireBy(s: State, t: nat, todo: seq<nat>): State {
    if todo == [] then Finish(s, t)
    else
      var rest := s.(ops := s.ops[t := Sweeping(todo[1..])]);
      match Transition(s.items, todo[0], Expired, "system")
      case None => rest
      case Some(items) =>
        rest.(items := items,
              decided := s.decided[todo[0] := Decision(Expired, "", None, t)],
              events := s.events + [Event(todo[0], Expired, None)])
  }

  // None: the step is not possible. A refused call (not pending, not admitted)
  // is possible and changes nothing.
  function Next(s: State, step: Step): Option<State> {
    match step
    case Stage(request, now) =>
      Some(s.(items := s.items + [NewItem(request, now)]))
    case BeginApprove(t, id, approver) =>
      if t in s.ops then None
      else if !IsPending(s, id) then Some(s)
      else Some(s.(ops := s.ops[t := Approving(id, s.items[id], approver)]))
    case BeginReject(t, id, approver) =>
      if t in s.ops then None
      else if !IsPending(s, id) then Some(s)
      else Some(s.(ops := s.ops[t := Rejecting(id, s.items[id], approver)]))
    case BeginModify(t, id, approver, edited, admitted, yellow) =>
      if t in s.ops then None
      else if !IsPending(s, id) || !admitted then Some(s)
      else Some(s.(ops := s.ops[t := Modifying(id, s.items[id], approver, edited, yellow)]))
    case BeginSweep(t, now) =>
      if t in s.ops then None else Some(s.(ops := s.ops[t := Sweeping(Overdue(s.items, now, 0))]))
    case Claim(t, now) =>
      if t in s.ops && !s.ops[t].Executing? && !s.ops[t].Sweeping? then Some(ClaimBy(s, t, now)) else None
    case Execute(t) =>
      if t in s.ops && s.ops[t].Executing? then
        var op := s.ops[t];
        Some(Finish(s, t).(
          executed := s.executed + [Execution(op.id, op.actionType, op.payload)],
          events := if op.announce then s.events + [Event(op.id, Approved, None)] else s.events))
      else None
    case ExpireNext(t) =>
      if t in s.ops && s.ops[t].Sweeping? then Some(ExpireBy(s, t, s.ops[t].todo)) else None
  }

  function Run(s: State, steps: seq<Step>): Option<State>
    decreases |steps|
  {
    if steps == [] then Some(s)
    else match Next(s, steps[0])
      case None => None
      case Some(s') => Run(s', steps[1..])
  }

  const EMPTY := State([], [], [], map[], map[])

  // A staged item is pending, holds the empty object for an empty payload, and
  // expires when asked or after seventy-two hours.
  lemma StagedIs(s: State, r: Request, now: int)
    ensures Next(s, Stage(r, now)) == Some(s.(items := s.items + [
      Item(r.workspaceId, r.actionType, if r.payload == "" then "{}" else r.payload, r.requestedBy,
           if r.expiresAt.Some? then r.expiresAt.value else now + 259_200, Pending, None)]))
  {
  }

  // A claim on a pending item records what was decided and by whom, on that
  // item alone; a yellow modify adds the item it stages.
  lemma ClaimRecords(s: State, t: nat, now: int)
    requires t in s.ops && (s.ops[t].Approving? || s.ops[t].Rejecting? || s.ops[t].Modifying?)
    requires s.ops[t].id < |s.items| && s.items[s.ops[t].id].status == Pending
    ensures var op := s.ops[t];
      var to := if op.Approving? then Approved else if op.Rejecting? then Rejected else Modified;
      var items := s.items[op.id := s.items[op.id].(status := to, decidedBy := Some(op.approver))];
      && Next(s, Claim(t, now)).Some? && items <= Next(s, Claim(t, now)).value.items
      && |Next(s, Claim(t, now)).value.items| == |s.items| + if op.Modifying? && op.yellow then 1 else 0
  {
  }

  // ------------------------------------------------------- decided is final

  // The immutable part of an item.
  predicate SameRequest(a: Item, b: Item) {
    a.workspaceId == b.workspaceId && a.actionType == b.actionType && a.payload == b.payload
      && a.requestedBy == b.requestedBy
  }

  // Whatever happens next and to whom, an item that has left pending never
  // changes again, and no item's request ever does.
  lemma DecidedIsFinal(s: State, step: Step, id: nat)
    requires Next(s, step).Some? && id < |s.items|
    ensures var s' := Next(s, step).value;
      && id < |s'.items|
      && SameRequest(s'.items[id], s.items[id])
      && (s.items[id].status != Pending ==> s'.items[id] == s.items[id])
  {
  }

  lemma {:induction false} DecidedStaysDecided(s: State, steps: seq<Step>, id: nat)
    requires Run(s, steps).Some? && id < |s.items|
    ensures var s' := Run(s, steps).value;
      && id < |s'.items|
      && SameRequest(s'.items[id], s.items[id])
      && (s.items[id].status != Pending ==> s'.items[id] == s.items[id])
    decreases |steps|
  {
    if steps != [] {
      DecidedIsFinal(s, steps[0], id);
      DecidedStaysDecided(Next(s, steps[0]).value, steps[1..], id);
    }
  }

  // -------------------------------------------------------------- invariant

  // What a call in flight holds agrees with the rows.
  predicate OpMatches(s: State, t: nat)
    requires t in s.ops
  {
    match s.ops[t]
    case Approving(id, item, _) => id < |s.items| && SameRequest(item, s.items[id])
    case Rejecting(id, item, _) => id < |s.items| && SameRequest(item, s.items[id])
    case Modifying(id, item, _, _, _) => id < |s.items| && SameRequest(item, s.items[id])
    case Executing(id, actionType, payload, announce) =>
      && id < |s.items| && id in s.decided
      && var d := s.decided[id];
         d.Runs() && d.winner == t && d.payload == payload && s.items[id].actionType == actionType
           && announce == d.Announced()
    case Sweeping(_) => true
  }

  ghost predicate OpsMatch(s: State) {
    forall t :: t in s.ops ==> OpMatches(s, t)
  }

  predicate DecisionMatches(s: State, id: nat) {
    && (id in s.decided <==> id < |s.items| && s.items[id].status != Pending)
    && (id in s.decided ==>
          && s.decided[id].to == s.items[id].status
          && (s.decided[id].to == Approved ==> s.decided[id].payload == s.items[id].payload)
          && (s.decided[id].restagedAs.Some? ==> s.decided[id].to == Modified))
  }

  ghost predicate DecisionsMatch(s: State) {
    forall id: nat :: DecisionMatches(s, id)
  }

  // The winning call of id has claimed it and not yet acted.
  predicate InFlight(s: State, id: nat)
    requires id in s.decided
  {
    var t := s.decided[id].winner;
    t in s.ops && s.ops[t].Executing? && s.ops[t].id == id
  }

  // id's action must have run.
  predicate DueToRun(s: State, id: nat) {
    id in s.decided && s.decided[id].Runs() && !InFlight(s, id)
  }

  // id's decision must have been published.
  predicate DueToAnnounce(s: State, id: nat) {
    id in s.decided && s.decided[id].Announced() && !InFlight(s, id)
  }

  predicate IsExecution(s: State, e: Execution) {
    && DueToRun(s, e.id) && e.id < |s.items|
    && e == Execution(e.id, s.items[e.id].actionType, s.decided[e.id].payload)
  }

  predicate IsAnnouncement(s: State, e: Event) {
    DueToAnnounce(s, e.id) && e == Event(e.id, s.decided[e.id].to, s.decided[e.id].restagedAs)
  }

  ghost predicate Ran(s: State, id: nat) {
    exists k :: 0 <= k < |s.executed| && s.executed[k].id == id
  }

  ghost predicate Published(s: State, id: nat) {
    exists k :: 0 <= k < |s.events| && s.events[k].id == id
  }

  ghost predicate ExecutionsMatch(s: State) {
    && (forall k :: 0 <= k < |s.executed| ==> IsExecution(s, s.executed[k]))
    && (forall j, k :: 0 <= j < k < |s.executed| ==> s.executed[j].id != s.executed[k].id)
    && (forall id: nat :: DueToRun(s, id) ==> Ran(s, id))
  }

  ghost predicate EventsMatch(s: State) {
    && (forall k :: 0 <= k < |s.events| ==> IsAnnouncement(s, s.events[k]))
    && (forall j, k :: 0 <= j < k < |s.events| ==> s.events[j].id != s.events[k].id)
    && (forall id: nat :: DueToAnnounce(s, id) ==> Published(s, id))
  }

  // The item restaged for id asks for the same with the edited payload.
  predicate RestageMatches(s: State, id: nat) {
    id in s.decided && s.decided[id].restagedAs.Some? ==>
      var n := s.decided[id].restagedAs.value;
      && id < n < |s.items|
      && SameRequest(s.items[n], s.items[id].(payload := StoredPayload(s.decided[id].payload)))
  }

  ghost predicate RestagesMatch(s: State) {
    && (forall id: nat :: RestageMatches(s, id))
    && (forall a, b :: a in s.decided && b in s.decided && a != b && s.decided[a].restagedAs.Some? ==>
          s.decided[a].restagedAs != s.decided[b].restagedAs)
  }

  ghost predicate Inv(s: State) {
    && OpsMatch(s)
    && DecisionsMatch(s)
    && ExecutionsMatch(s)
    && EventsMatch(s)
    && RestagesMatch(s)
  }

  // A step records at most the first and only decision of a pending item.
  lemma DecidedOnce(s: State, step: Step, id: nat)
    requires OpsMatch(s) && DecisionsMatch(s) && Next(s, step).Some?
    ensures var s' := Next(s, step).value;
      && (id in s.decided ==> id in s'.decided && s'.decided[id] == s.decided[id])
      && DecisionMatches(s', id)
  {
    assert DecisionMatches(s, id);
    match step {
      case Claim(t, now) => assert OpMatches(s, t) && DecisionMatches(s, s.ops[t].id);
      case ExpireNext(t) => if s.ops[t].todo != [] { assert DecisionMatches(s, s.ops[t].todo[0]); }
      case _ =>
    }
  }

  // A call in flight that the step is not about still agrees with the rows.
  lemma OtherOpStands(s: State, step: Step, t: nat)
    requires OpsMatch(s) && DecisionsMatch(s) && Next(s, step).Some?
    requires t in s.ops && t in Next(s, step).value.ops && Next(s, step).value.ops[t] == s.ops[t]
    ensures OpMatches(Next(s, step).value, t)
  {
    assert OpMatches(s, t);
    if !s.ops[t].Sweeping? {
      DecidedIsFinal(s, step, s.ops[t].id);
      DecidedOnce(s, step, s.ops[t].id);
    }
  }

  lemma ClaimKeepsOp(s: State, t: nat, now: int)
    requires OpsMatch(s) && Next(s, Claim(t, now)).Some?
    ensures t in ClaimBy(s, t, now).ops ==> OpMatches(ClaimBy(s, t, now), t)
  {
    assert OpMatches(s, t);
  }

  lemma StepKeepsOps(s: State, step: Step, t: nat)
    requires OpsMatch(s) && DecisionsMatch(s) && Next(s, step).Some?
    requires t in Next(s, step).value.ops
    ensures OpMatches(Next(s, step).value, t)
  {
    if t in s.ops && Next(s, step).value.ops[t] == s.ops[t] {
      OtherOpStands(s, step, t);
    } else if step.Claim? {
      ClaimKeepsOp(s, t, step.now);
    }
  }

  // What the step runs, and what it publishes.
  function RunBy(s: State, step: Step): seq<Execution>
    requires Next(s, step).Some?
  {
    if step.Execute? then [Execution(s.ops[step.t].id, s.ops[step.t].actionType, s.ops[step.t].payload)] else []
  }

  function PublishedBy(s: State, step: Step): seq<Event>
    requires Next(s, step).Some?
  {
    match step
    case Claim(t, now) =>
      var op := s.ops[t];
      if !IsPending(s, op.id) then []
      else if op.Rejecting? then [Event(op.id, Rejected, None)]
      else if op.Modifying? && op.yellow then [Event(op.id, Modified, Some(|s.items|))]
      else []
    case Execute(t) =>
      if s.ops[t].announce then [Event(s.ops[t].id, Approved, None)] else []
    case ExpireNext(t) =>
      var todo := s.ops[t].todo;
      if todo != [] && IsPending(s, todo[0]) then [Event(todo[0], Expired, None)] else []
    case _ => []
  }

  lemma LogsGrow(s: State, step: Step)
    requires Next(s, step).Some?
    ensures Next(s, step).value.executed == s.executed + RunBy(s, step)
    ensures Next(s, step).value.events == s.events + PublishedBy(s, step)
  {
  }

  // A decided item's winner stays in flight until it acts.
  lemma InFlightAfter(s: State, step: Step, id: nat)
    requires OpsMatch(s) && DecisionsMatch(s) && Next(s, step).Some? && id in s.decided
    ensures var s' := Next(s, step).value;
      && id in s'.decided && s'.decided[id] == s.decided[id]
      && (InFlight(s', id) <==> InFlight(s, id) && !(step.Execute? && s.ops[step.t].id == id))
  {
    DecidedOnce(s, step, id);
    assert DecisionMatches(s, id);
    match step {
      case Claim(t, now) => assert OpMatches(s, t) && DecisionMatches(s, s.ops[t].id);
      case Execute(t) => assert OpMatches(s, t);
      case _ =>
    }
  }

  lemma DueAfter(s: State, step: Step, id: nat)
    requires OpsMatch(s) && DecisionsMatch(s) && Next(s, step).Some?
    ensures var s', run, out := Next(s, step).value, RunBy(s, step), PublishedBy(s, step);
      && (DueToRun(s', id) <==> DueToRun(s, id) || (run != [] && run[0].id == id))
      && (DueToAnnounce(s', id) <==> DueToAnnounce(s, id) || (out != [] && out[0].id == id))
  {
    assert DecisionMatches(s, id);
    if id in s.decided {
      InFlightAfter(s, step, id);
      match step {
        case Execute(t) => assert OpMatches(s, t);
        case _ =>
      }
    } else {
      match step {
        case Claim(t, now) => assert OpMatches(s, t);
        case Execute(t) => assert OpMatches(s, t);
        case _ =>
      }
    }
  }

  lemma NewEntries(s: State, step: Step)
    requires OpsMatch(s) && DecisionsMatch(s) && Next(s, step).Some?
    ensures var s', run, out := Next(s, step).value, RunBy(s, step), PublishedBy(s, step);
      && (run != [] ==> IsExecution(s', run[0]) && !DueToRun(s, run[0].id))
      && (out != [] ==> IsAnnouncement(s', out[0]) && !DueToAnnounce(s, out[0].id))
  {
    match step {
      case Claim(t, now) => assert OpMatches(s, t) && DecisionMatches(s, s.ops[t].id);
      case Execute(t) => assert OpMatches(s, t) && DecisionMatches(s, s.ops[t].id);
      case ExpireNext(t) => if s.ops[t].todo != [] { assert DecisionMatches(s, s.ops[t].todo[0]); }
      case _ =>
    }
  }

  lemma OldEntriesStand(s: State, step: Step, e: Execution, v: Event)
    requires OpsMatch(s) && DecisionsMatch(s) && Next(s, step).Some?
    ensures IsExecution(s, e) ==> IsExecution(Next(s, step).value, e)
    ensures IsAnnouncement(s, v) ==> IsAnnouncement(Next(s, step).value, v)
  {
    DueAfter(s, step, e.id);
    DueAfter(s, step, v.id);
    DecidedOnce(s, step, e.id);
    DecidedOnce(s, step, v.id);
    if e.id < |s.items| {
      DecidedIsFinal(s, step, e.id);
    }
  }

  // A log that gains the entries newly due, each for the first time.
  lemma ExecutionsGrow(s: State, s': State, run: seq<Execution>)
    requires ExecutionsMatch(s) && s'.executed == s.executed + run && |run| <= 1
    requires forall k :: 0 <= k < |s.executed| ==> IsExecution(s', s.executed[k])
    requires run != [] ==> IsExecution(s', run[0]) && !DueToRun(s, run[0].id)
    requires forall id: nat :: DueToRun(s', id) ==> DueToRun(s, id) || (run != [] && run[0].id == id)
    ensures ExecutionsMatch(s')
  {
    forall id: nat | DueToRun(s', id) ensures Ran(s', id) {
      if DueToRun(s, id) {
        var k :| 0 <= k < |s.executed| && s.executed[k].id == id;
        assert s'.executed[k].id == id;
      } else {
        assert s'.executed[|s.executed|].id == id;
      }
    }
    forall k | 0 <= k < |s'.executed| ensures IsExecution(s', s'.executed[k]) {
      if k < |s.executed| {
        assert s'.executed[k] == s.executed[k];
      }
    }
    forall j, k | 0 <= j < k < |s'.executed| ensures s'.executed[j].id != s'.executed[k].id {
      assert s'.executed[j] == s.executed[j] && IsExecution(s, s.executed[j]);
    }
  }

  lemma EventsGrow(s: State, s': State, out: seq<Event>)
    requires EventsMatch(s) && s'.events == s.events + out && |out| <= 1
    requires forall k :: 0 <= k < |s.events| ==> IsAnnouncement(s', s.events[k])
    requires out != [] ==> IsAnnouncement(s', out[0]) && !DueToAnnounce(s, out[0].id)
    requires forall id: nat :: DueToAnnounce(s', id) ==> DueToAnnounce(s, id) || (out != [] && out[0].id == id)
    ensures EventsMatch(s')
  {
    EventsDistinct(s, s', out);
    forall id: nat | DueToAnnounce(s', id) ensures Published(s', id) {
      if DueToAnnounce(s, id) {
        var k :| 0 <= k < |s.events| && s.events[k].id == id;
        assert s'.events[k].id == id;
      } else {
        assert s'.events[|s.events|].id == id;
      }
    }
  }

  lemma EventsDistinct(s: State, s': State, out: seq<Event>)
    requires EventsMatch(s) && s'.events == s.events + out && |out| <= 1
    requires forall k :: 0 <= k < |s.events| ==> IsAnnouncement(s', s.events[k])
    requires out != [] ==> IsAnnouncement(s', out[0]) && !DueToAnnounce(s, out[0].id)
    ensures forall k :: 0 <= k < |s'.events| ==> IsAnnouncement(s', s'.events[k])
    ensures forall j, k :: 0 <= j < k < |s'.events| ==> s'.events[j].id != s'.events[k].id
  {
    forall k | 0 <= k < |s'.events| ensures IsAnnouncement(s', s'.events[k]) {
      assert k < |s.events| ==> s'.events[k] == s.events[k];
    }
    forall j, k | 0 <= j < k < |s'.events| ensures s'.events[j].id != s'.events[k].id {
      assert s'.events[j] == s.events[j] && IsAnnouncement(s, s.events[j]);
    }
  }

  lemma StepKeepsLogs(s: State, step: Step)
    requires Inv(s) && Next(s, step).Some?
    ensures ExecutionsMatch(Next(s, step).value) && EventsMatch(Next(s, step).value)
  {
    var s' := Next(s, step).value;
    LogsGrow(s, step);
    NewEntries(s, step);
    forall id: nat
      ensures DueToRun(s', id) ==> DueToRun(s, id) || (RunBy(s, step) != [] && RunBy(s, step)[0].id == id)
      ensures DueToAnnounce(s', id) ==>
        DueToAnnounce(s, id) || (PublishedBy(s, step) != [] && PublishedBy(s, step)[0].id == id)
    {
      DueAfter(s, step, id);
    }
    forall e | IsExecution(s, e) ensures IsExecution(s', e) {
      OldEntriesStand(s, step, e, Event(e.id, Expired, None));
    }
    forall v | IsAnnouncement(s, v) ensures IsAnnouncement(s', v) {
      OldEntriesStand(s, step, Execution(v.id, "", ""), v);
    }
    ExecutionsGrow(s, s', RunBy(s, step));
    EventsGrow(s, s', PublishedBy(s, step));
  }

  lemma StepKeepsRestages(s: State, step: Step, id: nat)
    requires Inv(s) && Next(s, step).Some?
    ensures RestageMatches(Next(s, step).value, id)
    ensures var d, d' := s.decided, Next(s, step).value.decided;
      id in d' && d'[id].restagedAs.Some? ==> (id in d && d[id] == d'[id]) || d'[id].restagedAs.value == |s.items|
  {
    var s' := Next(s, step).value;
    assert RestageMatches(s, id) && DecisionMatches(s, id);
    DecidedOnce(s, step, id);
    if id in s.decided && s.decided[id].restagedAs.Some? {
      DecidedIsFinal(s, step, id);
      DecidedIsFinal(s, step, s.decided[id].restagedAs.value);
    } else if step.Claim? {
      assert OpMatches(s, step.t);
    }
  }

  lemma StepKeepsAllRestages(s: State, step: Step)
    requires Inv(s) && Next(s, step).Some?
    ensures RestagesMatch(Next(s, step).value)
  {
    var d, d' := s.decided, Next(s, step).value.decided;
    forall id: nat ensures RestageMatches(Next(s, step).value, id) {
      StepKeepsRestages(s, step, id);
    }
    forall a, b | a in d' && b in d' && a != b && d'[a].restagedAs.Some?
      ensures d'[a].restagedAs != d'[b].restagedAs
    {
      StepKeepsRestages(s, step, a);
      StepKeepsRestages(s, step, b);
      assert RestageMatches(s, a) && RestageMatches(s, b);
      if a !in d && b !in d {
        OneDecisionAStep(s, step, a, b);
      }
    }
  }

  lemma OneDecisionAStep(s: State, step: Step, a: nat, b: nat)
    requires OpsMatch(s) && DecisionsMatch(s) && Next(s, step).Some?
    requires a !in s.decided && b !in s.decided
    requires a in Next(s, step).value.decided && b in Next(s, step).value.decided
    ensures a == b
  {
  }

  lemma StepKeepsInv(s: State, step: Step)
    requires Inv(s) && Next(s, step).Some?
    ensures Inv(Next(s, step).value)
  {
    var s' := Next(s, step).value;
    forall t | t in s'.ops ensures OpMatches(s', t) {
      StepKeepsOps(s, step, t);
    }
    forall id: nat ensures DecisionMatches(s', id) {
      DecidedOnce(s, step, id);
    }
    StepKeepsLogs(s, step);
    StepKeepsAllRestages(s, step);
  }

  lemma {:induction false} RunKeepsInv(s: State, steps: seq<Step>)
    requires Inv(s) && Run(s, steps).Some?
    ensures Inv(Run(s, steps).value)
    decreases |steps|
  {
    if steps != [] {
      StepKeepsInv(s, steps[0]);
      RunKeepsInv(Next(s, steps[0]).value, steps[1..]);
    }
  }

  // ------------------------------------------ the modify call behind a decision

  predicate ClaimsBy(step: Step, t: nat) {
    step.Claim? && step.t == t
  }

  ghost predicate PendingAt(steps: seq<Step>, k: nat, id: nat) {
    k <= |steps| && Run(EMPTY, steps[..k]).Some? && IsPending(Run(EMPTY, steps[..k]).value, id)
  }

  // The a-th step is an admitted modify call of t, on a pending item, that has
  // not claimed yet.
  ghost predicate Calling(steps: seq<Step>, a: nat, t: nat) {
    && a < |steps| && steps[a].BeginModify? && steps[a].t == t && steps[a].admitted
    && PendingAt(steps, a, steps[a].id)
    && forall m :: a < m < |steps| ==> !ClaimsBy(steps[m], t)
  }

  // The modify call begun at step a claims item id at step c, and finds it
  // still pending.
  ghost predicate Wins(steps: seq<Step>, a: nat, c: nat, id: nat) {
    && a < c < |steps| && steps[a].BeginModify? && steps[a].id == id
    && ClaimsBy(steps[c], steps[a].t) && Calling(steps[..c], a, steps[a].t) && PendingAt(steps, c, id)
  }

  // d is what the call begun at step a decided at step c.
  ghost predicate DecidedBy(steps: seq<Step>, a: nat, c: nat, id: nat, d: Decision) {
    && Wins(steps, a, c, id) && d.to == Modified && d.payload == steps[a].edited
    && d.restagedAs == if steps[a].yellow then Some(|Run(EMPTY, steps[..c]).value.items|) else None
  }

  // op is what t holds since the a-th step.
  ghost predicate Begun(steps: seq<Step>, a: nat, t: nat, op: Op) {
    && Calling(steps, a, t) && op.Modifying?
    && steps[a].id == op.id && steps[a].edited == op.edited && steps[a].yellow == op.yellow
  }

  ghost predicate OpTraced(steps: seq<Step>, s: State, t: nat) {
    t in s.ops && s.ops[t].Modifying? ==> exists a: nat :: Begun(steps, a, t, s.ops[t])
  }

  ghost predicate DecisionTraced(steps: seq<Step>, s: State, id: nat) {
    id in s.decided && s.decided[id].to == Modified ==>
      exists a: nat, c: nat :: DecidedBy(steps, a, c, id, s.decided[id])
  }

  ghost predicate Traced(steps: seq<Step>, s: State) {
    && (forall t :: OpTraced(steps, s, t))
    && (forall id: nat :: DecisionTraced(steps, s, id))
  }

  lemma TakeOfLonger(steps: seq<Step>, step: Step, c: nat)
    requires c <= |steps|
    ensures (steps + [step])[..c] == steps[..c]
  {
  }

  lemma StillDecidedBy(steps: seq<Step>, step: Step, a: nat, c: nat, id: nat, d: Decision)
    requires DecidedBy(steps, a, c, id, d)
    ensures DecidedBy(steps + [step], a, c, id, d)
  {
    TakeOfLonger(steps, step, c);
    assert (steps + [step])[a] == steps[a] && (steps + [step])[c] == steps[c];
  }

  lemma OpStaysTraced(steps: seq<Step>, s: State, step: Step, t: nat)
    requires Run(EMPTY, steps) == Some(s) && OpTraced(steps, s, t) && Next(s, step).Some?
    ensures OpTraced(steps + [step], Next(s, step).value, t)
  {
    var s', all := Next(s, step).value, steps + [step];
    if t in s'.ops && s'.ops[t].Modifying? {
      if t in s.ops && s.ops[t].Modifying? {
        var a: nat :| Begun(steps, a, t, s.ops[t]);
        assert s'.ops[t] == s.ops[t] && !ClaimsBy(step, t);
        assert all[a] == steps[a];
        TakeOfLonger(steps, step, a);
        assert Begun(all, a, t, s.ops[t]);
      } else {
        TakeOfLonger(steps, step, |steps|);
        TakeAll(steps);
        assert Begun(all, |steps|, t, s'.ops[t]);
      }
    }
  }

  lemma ClaimIsTraced(steps: seq<Step>, s: State, step: Step, id: nat) returns (a: nat)
    requires Run(EMPTY, steps) == Some(s) && step.Claim? && Next(s, step).Some? && OpTraced(steps, s, step.t)
    requires s.ops[step.t].Modifying? && s.ops[step.t].id == id && IsPending(s, id)
    ensures id in Next(s, step).value.decided
    ensures DecidedBy(steps + [step], a, |steps|, id, Next(s, step).value.decided[id])
  {
    var t := step.t;
    a :| Begun(steps, a, t, s.ops[t]);
    TakeOfLonger(steps, step, |steps|);
    TakeAll(steps);
    assert (steps + [step])[a] == steps[a];
  }

  lemma DecisionStaysTraced(steps: seq<Step>, s: State, step: Step, id: nat)
    requires Run(EMPTY, steps) == Some(s) && Inv(s) && Traced(steps, s) && Next(s, step).Some?
    ensures DecisionTraced(steps + [step], Next(s, step).value, id)
  {
    var s' := Next(s, step).value;
    DecidedOnce(s, step, id);
    assert DecisionTraced(steps, s, id);
    if id in s.decided {
      if s.decided[id].to == Modified {
        var a: nat, c: nat :| DecidedBy(steps, a, c, id, s.decided[id]);
        StillDecidedBy(steps, step, a, c, id, s.decided[id]);
      }
    } else if id in s'.decided && s'.decided[id].to == Modified {
      assert step.Claim? && s.ops[step.t].Modifying? && s.ops[step.t].id == id;
      assert OpTraced(steps, s, step.t);
      var a := ClaimIsTraced(steps, s, step, id);
    }
  }

  lemma StepKeepsTraced(steps: seq<Step>, s: State, step: Step)
    requires Run(EMPTY, steps) == Some(s) && Inv(s) && Traced(steps, s) && Next(s, step).Some?
    ensures Traced(steps + [step], Next(s, step).value)
  {
    forall t ensures OpTraced(steps + [step], Next(s, step).value, t) {
      assert OpTraced(steps, s, t);
      OpStaysTraced(steps, s, step, t);
    }
    forall id: nat ensures DecisionTraced(steps + [step], Next(s, step).value, id) {
      DecisionStaysTraced(steps, s, step, id);
    }
  }

  lemma {:induction false} RunIsTraced(done: seq<Step>, s: State, rest: seq<Step>)
    requires Run(EMPTY, done) == Some(s) && Inv(s) && Traced(done, s) && Run(s, rest).Some?
    ensures Traced(done + rest, Run(s, rest).value)
    decreases |rest|
  {
    if rest == [] {
      assert done + rest == done;
    } else {
      StepKeepsTraced(done, s, rest[0]);
      StepKeepsInv(s, rest[0]);
      RunSnoc(EMPTY, done, rest[0]);
      assert done + rest == (done + [rest[0]]) + rest[1..];
      RunIsTraced(done + [rest[0]], Next(s, rest[0]).value, rest[1..]);
    }
  }

  lemma RunFromEmpty(steps: seq<Step>)
    requires Run(EMPTY, steps).Some?
    ensures Inv(Run(EMPTY, steps).value) && Traced(steps, Run(EMPTY, steps).value)
  {
    RunKeepsInv(EMPTY, steps);
    RunIsTraced([], EMPTY, steps);
    assert [] + steps == steps;
  }

  lemma {:induction false} RunSplits(s: State, steps: seq<Step>, k: nat)
    requires Run(s, steps).Some? && k <= |steps|
    ensures Run(s, steps[..k]).Some? && Run(Run(s, steps[..k]).value, steps[k..]) == Run(s, steps)
    decreases k
  {
    if k == 0 {
      assert steps[..0] == [] && steps[0..] == steps;
    } else {
      RunSplits(Next(s, steps[0]).value, steps[1..], k - 1);
      assert steps[..k][0] == steps[0] && steps[..k][1..] == steps[1..][..k - 1] && steps[1..][k - 1..] == steps[k..];
    }
  }

  // A modify call holds what it has read until it claims.
  lemma {:induction false} CallStands(s: State, steps: seq<Step>, t: nat)
    requires t in s.ops && s.ops[t].Modifying? && Run(s, steps).Some?
    requires forall m :: 0 <= m < |steps| ==> !ClaimsBy(steps[m], t)
    ensures t in Run(s, steps).value.ops && Run(s, steps).value.ops[t] == s.ops[t]
    decreases |steps|
  {
    if steps != [] {
      assert !ClaimsBy(steps[0], t);
      CallStands(Next(s, steps[0]).value, steps[1..], t);
    }
  }

  lemma {:induction false} DecisionStands(s: State, steps: seq<Step>, id: nat)
    requires Inv(s) && Run(s, steps).Some? && id in s.decided
    ensures id in Run(s, steps).value.decided && Run(s, steps).value.decided[id] == s.decided[id]
    decreases |steps|
  {
    if steps != [] {
      DecidedOnce(s, steps[0], id);
      StepKeepsInv(s, steps[0]);
      DecisionStands(Next(s, steps[0]).value, steps[1..], id);
    }
  }

  // Where a winning call stands just before it claims.
  lemma CallAtClaim(steps: seq<Step>, a: nat, c: nat, id: nat) returns (s: State)
    requires Wins(steps, a, c, id)
    ensures Run(EMPTY, steps[..c]) == Some(s)
    ensures var t := steps[a].t;
      && t in s.ops && s.ops[t].Modifying? && s.ops[t].id == id
      && s.ops[t].edited == steps[a].edited && s.ops[t].yellow == steps[a].yellow
  {
    var before := steps[..c];
    s := Run(EMPTY, before).value;
    RunSplits(EMPTY, before, a);
    var sa := Run(EMPTY, before[..a]).value;
    var rest := before[a..];
    assert rest[0] == steps[a] && before[a] == steps[a];
    var after := Next(sa, rest[0]).value;
    assert forall m :: 0 <= m < |rest[1..]| ==> rest[1..][m] == before[a + 1 + m];
    CallStands(after, rest[1..], steps[a].t);
  }

  // A call that wins settles its item: there is one, and what it asked for is
  // what was decided.
  lemma WinnerDecides(steps: seq<Step>, a: nat, c: nat, id: nat)
    requires Run(EMPTY, steps).Some? && Wins(steps, a, c, id)
    ensures var s := Run(EMPTY, steps).value;
      id in s.decided && DecidedBy(steps, a, c, id, s.decided[id])
  {
    var s := CallAtClaim(steps, a, c, id);
    RunKeepsInv(EMPTY, steps[..c]);
    RunSplits(EMPTY, steps, c);
    var rest := steps[c..];
    assert rest[0] == steps[c];
    StepKeepsInv(s, rest[0]);
    DecisionStands(Next(s, rest[0]).value, rest[1..], id);
  }

  // ---------------------------------------------- what every run guarantees

  // The calls that were not only read and won but carried out on the spot, and
  // those that were staged again.
  ghost predicate WonDirectly(steps: seq<Step>, a: nat, c: nat, id: nat) {
    Wins(steps, a, c, id) && !steps[a].yellow
  }

  ghost predicate WonYellow(steps: seq<Step>, a: nat, c: nat, id: nat) {
    Wins(steps, a, c, id) && steps[a].yellow
  }

  // Under every interleaving: an action runs at most once per item, only on an
  // approved or directly modified item; with the stored payload if approved,
  // and if modified with the payload of the admitted modify call whose claim
  // won; rejected, expired and restaged items never run; and once the deciders
  // in flight are done, every approved or directly modified item has run.
  lemma ActionsRunOnce(steps: seq<Step>, id: nat)
    requires Run(EMPTY, steps).Some?
    ensures var s := Run(EMPTY, steps).value;
      && (forall j, k :: 0 <= j < k < |s.executed| ==> s.executed[j].id != s.executed[k].id)
      && (Ran(s, id) ==> id < |s.items| && s.items[id].status in {Approved, Modified}
                         && id in s.decided && s.decided[id].restagedAs.None?)
      && (id < |s.items| && s.items[id].status == Approved ==>
            forall k :: 0 <= k < |s.executed| && s.executed[k].id == id ==>
              s.executed[k] == Execution(id, s.items[id].actionType, s.items[id].payload))
      && (id < |s.items| && s.items[id].status == Modified ==>
            forall k :: 0 <= k < |s.executed| && s.executed[k].id == id ==>
              exists a: nat, c: nat ::
                WonDirectly(steps, a, c, id)
                && s.executed[k] == Execution(id, s.items[id].actionType, steps[a].edited))
      && ((forall t :: t in s.ops ==> !s.ops[t].Executing?) ==>
            (Ran(s, id) <==> id in s.decided && s.decided[id].Runs()))
  {
    RunFromEmpty(steps);
    var s := Run(EMPTY, steps).value;
    assert DecisionMatches(s, id) && DecisionTraced(steps, s, id);
    forall k | 0 <= k < |s.executed| && s.executed[k].id == id ensures IsExecution(s, s.executed[k]) {
    }
    if id in s.decided && s.decided[id].to == Modified && s.decided[id].restagedAs.None? {
      var a: nat, c: nat :| DecidedBy(steps, a, c, id, s.decided[id]);
      assert WonDirectly(steps, a, c, id);
    }
  }

  // Under every interleaving: no item is announced twice, what is announced is
  // the status it ended in, and once the deciders in flight are done exactly
  // the decided items are announced, except those whose winning modify call was
  // not yellow, which are carried out directly.
  lemma DecisionsAnnouncedOnce(steps: seq<Step>, id: nat)
    requires Run(EMPTY, steps).Some?
    ensures var s := Run(EMPTY, steps).value;
      && (forall j, k :: 0 <= j < k < |s.events| ==> s.events[j].id != s.events[k].id)
      && (forall k :: 0 <= k < |s.events| && s.events[k].id == id ==>
            id < |s.items| && s.events[k].decision == s.items[id].status)
      && ((forall t :: t in s.ops ==> !s.ops[t].Executing?) ==>
            (Published(s, id) <==> id < |s.items| && s.items[id].status != Pending
                                   && !exists a: nat, c: nat :: WonDirectly(steps, a, c, id)))
      && (forall a, b :: a in s.decided && b in s.decided && a != b && s.decided[a].restagedAs.Some? ==>
            s.decided[a].restagedAs != s.decided[b].restagedAs)
  {
    RunFromEmpty(steps);
    var s := Run(EMPTY, steps).value;
    assert DecisionMatches(s, id) && DecisionTraced(steps, s, id);
    forall k | 0 <= k < |s.events| && s.events[k].id == id ensures IsAnnouncement(s, s.events[k]) {
    }
    if a: nat, c: nat :| WonDirectly(steps, a, c, id) {
      WinnerDecides(steps, a, c, id);
    } else if id in s.decided && s.decided[id].to == Modified {
      var a: nat, c: nat :| DecidedBy(steps, a, c, id, s.decided[id]);
      assert !WonDirectly(steps, a, c, id);
    }
  }

  // Step c adds one item, which is pending.
  ghost predicate AddedPending(steps: seq<Step>, c: nat) {
    && c < |steps| && Run(EMPTY, steps[..c]).Some? && Run(EMPTY, steps[..c + 1]).Some?
    && var s, s' := Run(EMPTY, steps[..c]).value, Run(EMPTY, steps[..c + 1]).value;
       |s'.items| == |s.items| + 1 && s'.items[|s.items|].status == Pending
  }

  // What a yellow modify call that wins does as it claims: one new pending item
  // and nothing run.
  lemma YellowClaimAddsOne(steps: seq<Step>, a: nat, c: nat, id: nat)
    requires Run(EMPTY, steps).Some? && WonYellow(steps, a, c, id)
    ensures Run(EMPTY, steps[..c + 1]).Some?
    ensures var s, s' := Run(EMPTY, steps[..c]).value, Run(EMPTY, steps[..c + 1]).value;
      && |s'.items| == |s.items| + 1 && s'.items[|s.items|].status == Pending && s'.executed == s.executed
      && forall i :: 0 <= i < |s.items| && i != id ==> s'.items[i] == s.items[i]
  {
    var s := CallAtClaim(steps, a, c, id);
    RunSplits(EMPTY, steps, c);
    assert steps[c..][0] == steps[c];
    TakeStep(steps, c);
    RunSnoc(EMPTY, steps[..c], steps[c]);
  }

  // An item is restaged exactly if a yellow modify call won it. The restaged
  // item is the one that call added, pending: it asks for the same with the
  // call's payload, stands for no other item, and the original never runs.
  lemma RestageCreatesOneItem(steps: seq<Step>, id: nat)
    requires Run(EMPTY, steps).Some?
    ensures var s := Run(EMPTY, steps).value;
      && (id in s.decided && s.decided[id].restagedAs.Some? <==> exists a: nat, c: nat :: WonYellow(steps, a, c, id))
      && forall a: nat, c: nat :: WonYellow(steps, a, c, id) ==>
           var n := |Run(EMPTY, steps[..c]).value.items|;
           && id < n < |s.items| && s.items[id].status == Modified && !Ran(s, id)
           && AddedPending(steps, c)
           && id in s.decided && s.decided[id].restagedAs == Some(n)
           && SameRequest(s.items[n], s.items[id].(payload := StoredPayload(steps[a].edited)))
           && forall other :: other in s.decided && other != id ==> s.decided[other].restagedAs != Some(n)
  {
    RunFromEmpty(steps);
    var s := Run(EMPTY, steps).value;
    assert DecisionMatches(s, id) && DecisionTraced(steps, s, id) && RestageMatches(s, id);
    if id in s.decided && s.decided[id].restagedAs.Some? {
      var a: nat, c: nat :| DecidedBy(steps, a, c, id, s.decided[id]);
      assert WonYellow(steps, a, c, id);
    }
    forall a: nat, c: nat | WonYellow(steps, a, c, id)
      ensures id in s.decided && DecidedBy(steps, a, c, id, s.decided[id]) && !Ran(s, id)
      ensures AddedPending(steps, c)
    {
      WinnerDecides(steps, a, c, id);
      YellowClaimAddsOne(steps, a, c, id);
      forall k | 0 <= k < |s.executed| && s.executed[k].id == id ensures IsExecution(s, s.executed[k]) {
      }
    }
  }

  // A modify carried out directly: the action runs with the edited payload and
  // nothing is announced.
  lemma DirectModifyNotAnnounced(request: Request, edited: string) returns (steps: seq<Step>)
    ensures Run(EMPTY, steps).Some?
    ensures var s := Run(EMPTY, steps).value;
      && |s.items| == 1 && s.items[0].status == Modified && s.ops == map[]
      && s.executed == [Execution(0, request.actionType, edited)] && s.events == []
  {
    var begin := BeginModify(0, 0, "approver", edited, true, false);
    var s1 := Next(EMPTY, Stage(request, 0)).value;
    RunThree(s1, begin, Claim(0, 0), Execute(0));
    steps := [Stage(request, 0)] + [begin, Claim(0, 0), Execute(0)];
    assert steps[1..] == [begin, Claim(0, 0), Execute(0)];
  }

  // -------------------------------------------------------------- the store

  class Decider {
    var items: seq<Item>
    var executed: seq<Execution>
    var events: seq<Event>
    ghost var ops: map<nat, Op>            // calls of other deciders in flight
    ghost var decided: map<nat, Decision>

    constructor ()
      ensures Now() == EMPTY
    {
      items, executed, events := [], [], [];
      ops, decided := map[], map[];
    }

    ghost function Now(): State
      reads this
    {
      State(items, executed, events, ops, decided)
    }

    method Create(request: Request, now: int) returns (id: nat)
      modifies this`items
      ensures id == |old(items)|
      ensures items == old(items) + [NewItem(request, now)]
      ensures items[id].payload == (if request.payload == "" then "{}" else request.payload)
      ensures items[id].expiresAt == if request.expiresAt.Some? then request.expiresAt.value else now + 259_200
    {
      id := |items|;
      var expiresAt := request.expiresAt;
      if expiresAt == None {
        expiresAt := Some(now + APPROVAL_TTL);
      }
      items := items + [Item(request.workspaceId, request.actionType, StoredPayload(request.payload),
                             request.requestedBy, expiresAt.value, Pending, None)];
    }

    // The compare-and-set: false when no pending row matched.
    method CompareAndSet(id: nat, to: Status, approver: string) returns (ok: bool)
      modifies this`items
      ensures match Transition(old(items), id, to, approver)
        case Some(items') => ok && items == items'
        case None => !ok && items == old(items)
    {
      if id < |items| && items[id].status == Pending {
        items := items[id := items[id].(status := to, decidedBy := Some(approver))];
        return true;
      }
      return false;
    }

    method ExecAction(id: nat, actionType: string, payload: string)
      modifies this`executed
      ensures executed == old(executed) + [Execution(id, actionType, payload)]
    {
      executed := executed + [Execution(id, actionType, payload)];
    }

    // Each decision, uninterrupted, is the run of its own machine steps.
    method Approve(ghost t: nat, id: nat, approver: string, ghost now: int) returns (ok: bool)
      requires t !in ops
      modifies this
      ensures ok <==> old(IsPending(Now(), id))
      ensures Some(Now()) == if ok then Run(old(Now()), [BeginApprove(t, id, approver), Claim(t, now), Execute(t)])
                             else Run(old(Now()), [BeginApprove(t, id, approver)])
    {
      RunThree(Now(), BeginApprove(t, id, approver), Claim(t, now), Execute(t));
      if id >= |items| || items[id].status != Pending {
        return false;
      }
      var item := items[id];
      ok := CompareAndSet(id, Approved, approver);
      decided := decided[id := Decision(Approved, item.payload, None, t)];
      ExecAction(id, item.actionType, item.payload);
      events := events + [Event(id, Approved, None)];
      assert ops[t := Approving(id, item, approver)][t := Executing(id, item.actionType, item.payload, true)] - {t}
        == ops;
    }

    method Reject(ghost t: nat, id: nat, approver: string, ghost now: int) returns (ok: bool)
      requires t !in ops
      modifies this
      ensures ok <==> old(IsPending(Now(), id))
      ensures Some(Now()) == if ok then Run(old(Now()), [BeginReject(t, id, approver), Claim(t, now)])
                             else Run(old(Now()), [BeginReject(t, id, approver)])
    {
      RunTwo(Now(), BeginReject(t, id, approver), Claim(t, now));
      if id >= |items| || items[id].status != Pending {
        return false;
      }
      ghost var item := items[id];
      ok := CompareAndSet(id, Rejected, approver);
      decided := decided[id := Decision(Rejected, item.payload, None, t)];
      events := events + [Event(id, Rejected, None)];
      assert (ops[t := Rejecting(id, item, approver)]) - {t} == ops;
    }

    method Modify(ghost t: nat, id: nat, approver: string, edited: string, admitted: bool, yellow: bool, now: int)
      returns (ok: bool)
      requires t !in ops
      modifies this
      ensures ok <==> old(IsPending(Now(), id)) && admitted
      ensures var begin := BeginModify(t, id, approver, edited, admitted, yellow);
        Some(Now()) == if !ok then Run(old(Now()), [begin])
                       else if yellow then Run(old(Now()), [begin, Claim(t, now)])
                       else Run(old(Now()), [begin, Claim(t, now), Execute(t)])
    {
      RunTwo(Now(), BeginModify(t, id, approver, edited, admitted, yellow), Claim(t, now));
      RunThree(Now(), BeginModify(t, id, approver, edited, admitted, yellow), Claim(t, now), Execute(t));
      if id >= |items| || items[id].status != Pending {
        return false;
      }
      if !admitted {
        return false;
      }
      var item := items[id];
      ok := CompareAndSet(id, Modified, approver);
      assert (ops[t := Modifying(id, item, approver, edited, yellow)]) - {t} == ops;
      if yellow {
        var newId := Create(Restaged(item, edited), now);
        decided := decided[id := Decision(Modified, edited, Some(newId), t)];
        events := events + [Event(id, Modified, Some(newId))];
      } else {
        decided := decided[id := Decision(Modified, edited, None, t)];
        ExecAction(id, item.actionType, edited);
        ghost var running := Executing(id, item.actionType, edited, false);
        assert (ops[t := Modifying(id, item, approver, edited, yellow)][t := running]) - {t} == ops;
      }
    }

    // One item of a sweep, which still has `todo` to do.
    method ExpireOne(ghost t: nat, id: nat, ghost todo: seq<nat>)
      requires todo != [] && todo[0] == id
      modifies this
      ensures ops == old(ops)
      ensures Sweep(Now(), t, todo[1..]) == ExpireBy(Sweep(old(Now()), t, todo), t, todo)
    {
      var ok := CompareAndSet(id, Expired, "system");
      if ok {
        decided := decided[id := Decision(Expired, "", None, t)];
        events := events + [Event(id, Expired, None)];
      }
      assert ops[t := Sweeping(todo)][t := Sweeping(todo[1..])] == ops[t := Sweeping(todo[1..])];
    }

    // The expiry sweep, uninterrupted. SweepIsRun and SweptExpiresOverdue say
    // what it amounts to.
    method ExpireOverdue(ghost t: nat, now: int)
      requires t !in ops
      modifies this
      ensures Now() == Swept(old(Now()), t, now)
    {
      var todo := Overdue(items, now, 0);
      for k := 0 to |todo|
        invariant ops == old(ops)
        invariant Sweep(Now(), t, todo[k..]) == SweptBy(old(Now()), t, todo, k)
      {
        ExpireOne(t, todo[k], todo[k..]);
        assert todo[k..][1..] == todo[k + 1..];
      }
      assert Finish(Sweep(Now(), t, todo[|todo|..]), t).ops == ops;
    }
  }

  function AfterSweep(item: Item, now: int): Item {
    if item.status == Pending && item.expiresAt < now
    then item.(status := Expired, decidedBy := Some("system")) else item
  }

  lemma {:induction false} RunSnoc(s: State, steps: seq<Step>, last: Step)
    requires Run(s, steps).Some?
    ensures Run(s, steps + [last]) == Next(Run(s, steps).value, last)
    decreases |steps|
  {
    if steps == [] {
      RunTwo(s, last, last);
      assert steps + [last] == [last];
    } else {
      assert (steps + [last])[1..] == steps[1..] + [last];
      RunSnoc(Next(s, steps[0]).value, steps[1..], last);
    }
  }

  lemma {:induction false} OverdueAre(items: seq<Item>, now: int, from: nat)
    requires from <= |items|
    ensures forall i: nat :: i in Overdue(items, now, from) <==>
      from <= i < |items| && items[i].status == Pending && items[i].expiresAt < now
    ensures forall j, k :: 0 <= j < k < |Overdue(items, now, from)| ==>
      Overdue(items, now, from)[j] < Overdue(items, now, from)[k]
    decreases |items| - from
  {
    if from < |items| {
      OverdueAre(items, now, from + 1);
      var rest := Overdue(items, now, from + 1);
      forall k | 0 <= k < |rest| ensures from < rest[k] {
        assert rest[k] in rest;
      }
    }
  }

  function ExpireSteps(t: nat, n: nat): seq<Step> {
    seq(n, _ => ExpireNext(t))
  }

  // s with t's sweep in flight.
  function Sweep(s: State, t: nat, todo: seq<nat>): State {
    s.(ops := s.ops[t := Sweeping(todo)])
  }

  // The sweep after its first k items.
  function SweptBy(s: State, t: nat, todo: seq<nat>, k: nat): (r: State)
    requires k <= |todo|
    ensures t in r.ops && r.ops[t] == Sweeping(todo[k..])
  {
    if k == 0 then Sweep(s, t, todo)
    else ExpireBy(SweptBy(s, t, todo, k - 1), t, todo[k - 1..])
  }

  lemma SweepSnoc(t: nat, now: int, n: nat)
    ensures [BeginSweep(t, now)] + ExpireSteps(t, n) + [ExpireNext(t)] == [BeginSweep(t, now)] + ExpireSteps(t, n + 1)
  {
  }

  lemma SweepNext(s: State, t: nat)
    requires t in s.ops && s.ops[t].Sweeping?
    ensures Next(s, ExpireNext(t)) == Some(ExpireBy(s, t, s.ops[t].todo))
  {
  }

  lemma {:induction false} SweepRuns(s: State, t: nat, now: int, todo: seq<nat>, k: nat)
    requires Run(s, [BeginSweep(t, now)]) == Some(Sweep(s, t, todo)) && k <= |todo|
    ensures Run(s, [BeginSweep(t, now)] + ExpireSteps(t, k)) == Some(SweptBy(s, t, todo, k))
    decreases k
  {
    if k == 0 {
      assert [BeginSweep(t, now)] + ExpireSteps(t, 0) == [BeginSweep(t, now)];
    } else {
      SweepRuns(s, t, now, todo, k - 1);
      SweepNext(SweptBy(s, t, todo, k - 1), t);
      RunSnoc(s, [BeginSweep(t, now)] + ExpireSteps(t, k - 1), ExpireNext(t));
      SweepSnoc(t, now, k - 1);
    }
  }

  lemma ExpireRow(s: State, t: nat, todo: seq<nat>, i: nat)
    requires todo != [] && i < |s.items|
    ensures var r := ExpireBy(s, t, todo);
      && |r.items| == |s.items| && r.executed == s.executed
      && r.items[i] == if i == todo[0] && s.items[i].status == Pending
                       then s.items[i].(status := Expired, decidedBy := Some("system")) else s.items[i]
  {
  }

  // A sweep over distinct overdue rows has expired exactly those it has named.
  lemma {:induction false} SweptRow(s: State, t: nat, now: int, todo: seq<nat>, k: nat, i: nat)
    requires k <= |todo| && i < |s.items|
    requires i in todo ==> s.items[i].status == Pending && s.items[i].expiresAt < now
    requires forall j, l :: 0 <= j < l < |todo| ==> todo[j] != todo[l]
    ensures var r := SweptBy(s, t, todo, k);
      && |r.items| == |s.items|
      && r.items[i] == if i in todo[..k] then AfterSweep(s.items[i], now) else s.items[i]
    decreases k
  {
    if k > 0 {
      SweptRow(s, t, now, todo, k - 1, i);
      ExpireRow(SweptBy(s, t, todo, k - 1), t, todo[k - 1..], i);
      TakeStep(todo, k - 1);
      assert todo[k - 1] in todo;
    }
  }

  lemma {:induction false} SweptKeeps(s: State, t: nat, todo: seq<nat>, k: nat)
    requires k <= |todo|
    ensures var r := SweptBy(s, t, todo, k); |r.items| == |s.items| && r.executed == s.executed
    decreases k
  {
    if k > 0 {
      SweptKeeps(s, t, todo, k - 1);
    }
  }

  // A whole uninterrupted sweep.
  function Swept(s: State, t: nat, now: int): State {
    var todo := Overdue(s.items, now, 0);
    Finish(SweptBy(s, t, todo, |todo|), t)
  }

  function SweepSteps(s: State, t: nat, now: int): seq<Step> {
    [BeginSweep(t, now)] + ExpireSteps(t, |Overdue(s.items, now, 0)| + 1)
  }

  lemma SweepIsRun(s: State, t: nat, now: int)
    requires t !in s.ops
    ensures Run(s, SweepSteps(s, t, now)) == Some(Swept(s, t, now))
  {
    var todo := Overdue(s.items, now, 0);
    RunTwo(s, BeginSweep(t, now), BeginSweep(t, now));
    SweepRuns(s, t, now, todo, |todo|);
    SweepNext(SweptBy(s, t, todo, |todo|), t);
    RunSnoc(s, [BeginSweep(t, now)] + ExpireSteps(t, |todo|), ExpireNext(t));
    SweepSnoc(t, now, |todo|);
  }

  // Every pending item overdue at `now` ends expired, nothing else changes and
  // nothing runs.
  lemma SweptExpiresOverdue(s: State, t: nat, now: int)
    ensures Swept(s, t, now).executed == s.executed
    ensures |Swept(s, t, now).items| == |s.items|
    ensures forall i :: 0 <= i < |s.items| ==> Swept(s, t, now).items[i] == AfterSweep(s.items[i], now)
  {
    var todo := Overdue(s.items, now, 0);
    SweptKeeps(s, t, todo, |todo|);
    TakeAll(todo);
    OverdueAre(s.items, now, 0);
    forall i | 0 <= i < |s.items| ensures Swept(s, t, now).items[i] == AfterSweep(s.items[i], now) {
      SweptRow(s, t, now, todo, |todo|, i);
    }
  }

  lemma RunTwo(s: State, a: Step, b: Step)
    ensures Run(s, [a]) == Next(s, a)
    ensures Next(s, a).Some? ==> Run(s, [a, b]) == Next(Next(s, a).value, b)
  {
    assert [a][1..] == [] && [a, b][1..] == [b] && [b][1..] == [];
    if Next(s, a).Some? {
      assert Run(Next(s, a).value, [b]) == Next(Next(s, a).value, b);
    }
  }

  lemma RunThree(s: State, a: Step, b: Step, c: Step)
    ensures Next(s, a).Some? && Next(Next(s, a).value, b).Some? ==>
      Run(s, [a, b, c]) == Next(Next(Next(s, a).value, b).value, c)
  {
    assert [a, b, c][1..] == [b, c];
    if Next(s, a).Some? {
      RunTwo(Next(s, a).value, b, c);
    }
  }
}
