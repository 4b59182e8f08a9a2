// gate.go, tier.go, apply.go, stage.go, pass.go and executor.go: one overnight
// pass gates, routes, applies green and stages yellow proposals, and a later
// human decision dispatches a staged one back to the effector.
module OvernightPass {
  import opened Wrappers
  import opened Sequences
  import opened AgentsDomain
  import Batch

  // ------------------------------------------------------- gate and tiers

  predicate Survives(p: Proposal) {
    p.source != "" && p.evidence != "" && p.confidence.Some?
  }

  method GateProposals(input: seq<Proposal>) returns (out: seq<Proposal>)
    ensures out == Filter(input, Survives)
    ensures forall p :: p in out <==> p in input && p.source != "" && p.evidence != "" && p.confidence.Some?
  {
    out := [];
    for i := 0 to |input|
      invariant out == Filter(input[..i], Survives)
    {
      var p := input[i];
      TakeStep(input, i);
      FilterAppend(input[..i], [p], Survives);
      assert [p][1..] == [];
      if p.source == "" || p.evidence == "" || p.confidence.None? {
        continue;
      }
      out := out + [p];
    }
    TakeAll(input);
    forall p ensures p in out <==> p in input && p.source != "" && p.evidence != "" && p.confidence.Some? {
      FilterMember(input, Survives, p);
    }
  }

  const D4_FLOOR: set<string> :=
    {"send", "outbound", "archive", "merge", "disqualify", "close-deal", "enrich"}

  const GREEN_TYPES: set<string> :=
    {"log_link", "close-date-auto-apply", "close-date-provisional-set"}

  function ToolTier(actionType: string): Tier {
    if actionType in D4_FLOOR then Yellow
    else if actionType in GREEN_TYPES then Green
    else Yellow
  }

  function RouteTier(p: Proposal): Routed {
    Routed(p, ToolTier(p.actionType))
  }

  function RouteEach(input: seq<Proposal>): (r: seq<Routed>)
    ensures |r| == |input|
    ensures forall i :: 0 <= i < |input| ==> r[i] == RouteTier(input[i])
  {
    seq(|input|, i requires 0 <= i < |input| => RouteTier(input[i]))
  }

  method RouteAll(input: seq<Proposal>) returns (out: seq<Routed>)
    ensures out == RouteEach(input)
  {
    out := [];
    for i := 0 to |input|
      invariant |out| == i
      invariant forall j :: 0 <= j < i ==> out[j] == RouteTier(input[j])
    {
      out := out + [RouteTier(input[i])];
    }
  }

  predicate IsGreen(p: Proposal) { ToolTier(p.actionType) == Green }
  predicate IsYellow(p: Proposal) { !IsGreen(p) }

  // ------------------------------------------------------------- the world

  datatype Call = Call(actionType: string, effect: Effect)

  datatype Entity = Target(entityType: string, id: string) | ApprovalItem(index: nat)

  datatype AuditRow =
    | AppliedRow(workspaceId: string, entity: Entity, actionType: string, handle: Handle)
    | CaptureRow(workspaceId: string, entity: Entity)

  datatype Event = Event(topic: string, workspaceId: string, entity: Entity, actionType: string, handle: Handle)

  // A pending approval item; its id is its position.
  datatype Item = Item(workspaceId: string, actionType: string, requestedBy: string, payload: Effect)

  datatype World<S> = World(
    store: S,
    calls: seq<Call>,
    audit: seq<AuditRow>,
    events: seq<Event>,
    items: seq<Item>)

  datatype EffectResult<S> = Applied(store: S, handle: Handle) | EffectFailed(store: S)

  type Effector<!S> = (S, string, Effect) -> EffectResult<S>

  datatype Outcome<S> = Done(world: World<S>) | Aborted(world: World<S>)

  const ACTOR_OVERNIGHT := "agent:overnight"
  const OVERNIGHT_NAMESPACE := "overnight."
  const TOPIC_OVERNIGHT_APPLIED := "overnight.applied"

  function TargetEntity(target: string): Entity {
    Target(BeforeColon(target), AfterColon(target))
  }

  function BeforeColon(s: string): string {
    if s == [] || s[0] == ':' then [] else [s[0]] + BeforeColon(s[1..])
  }

  function AfterColon(s: string): string {
    if ':' !in s then s else if s[0] == ':' then s[1..] else AfterColon(s[1..])
  }

  function Topic(hint: string): string {
    if hint != "" then hint else TOPIC_OVERNIGHT_APPLIED
  }

  function AuditFor(p: Proposal, handle: Handle): AuditRow {
    AppliedRow(p.workspaceId, TargetEntity(p.target), p.actionType, handle)
  }

  function EventFor(p: Proposal, handle: Handle): Event {
    Event(Topic(p.eventTopic), p.workspaceId, TargetEntity(p.target), p.actionType, handle)
  }

  // An absent payload is stored as the empty JSON object.
  function StoredPayload(e: Effect): Effect {
    if e.Raw? && e.json == "" then e.(json := "{}") else e
  }

  function ItemFor(p: Proposal): Item {
    Item(p.workspaceId, OVERNIGHT_NAMESPACE + p.actionType, ACTOR_OVERNIGHT, StoredPayload(p.effect))
  }

  // -------------------------------------------------- one step of the pass

  // The workspace is missed only when the audit row is written, after the
  // effect.
  function ApplyGreen<S>(w: World<S>, p: Proposal, apply: Effector<S>): Outcome<S> {
    var called := w.calls + [Call(p.actionType, p.effect)];
    match apply(w.store, p.actionType, p.effect)
    case EffectFailed(s) => Aborted(w.(store := s, calls := called))
    case Applied(s, h) =>
      if h == NoHandle || p.workspaceId == "" then Aborted(w.(store := s, calls := called))
      else Done(w.(store := s, calls := called,
                   audit := w.audit + [AuditFor(p, h)],
                   events := w.events + [EventFor(p, h)]))
  }

  function StageYellow<S>(w: World<S>, p: Proposal): Outcome<S> {
    if p.workspaceId == "" then Aborted(w)
    else Done(w.(items := w.items + [ItemFor(p)],
                 audit := w.audit + [CaptureRow(p.workspaceId, ApprovalItem(|w.items|))]))
  }

  function PassStep<S>(w: World<S>, r: Routed, apply: Effector<S>): Outcome<S> {
    if r.tier == Green then ApplyGreen(w, r.proposal, apply) else StageYellow(w, r.proposal)
  }

  function PassFrom<S>(w: World<S>, routed: seq<Routed>, apply: Effector<S>): Outcome<S>
    decreases |routed|
  {
    if routed == [] then Done(w)
    else match PassStep(w, routed[0], apply)
      case Aborted(w') => Aborted(w')
      case Done(w') => PassFrom(w', routed[1..], apply)
  }

  // ------------------------------------- what a completed pass amounts to

  // The green effects alone, one after another; None if one fails or comes
  // back without a handle.
  function RunEffects<S>(store: S, ps: seq<Proposal>, apply: Effector<S>): (r: Option<(S, seq<Handle>)>)
    ensures r.Some? ==> |r.value.1| == |ps|
  {
    if ps == [] then Some((store, []))
    else match apply(store, ps[0].actionType, ps[0].effect)
      case EffectFailed(_) => None
      case Applied(s, h) =>
        if h == NoHandle then None
        else match RunEffects(s, ps[1..], apply)
          case None => None
          case Some(rest) => Some((rest.0, [h] + rest.1))
  }

  function Calls(ps: seq<Proposal>): (r: seq<Call>)
    ensures |r| == |ps|
  {
    seq(|ps|, i requires 0 <= i < |ps| => Call(ps[i].actionType, ps[i].effect))
  }

  function AuditRows(ps: seq<Proposal>, handles: seq<Handle>): seq<AuditRow>
    requires |ps| == |handles|
  {
    seq(|ps|, i requires 0 <= i < |ps| => AuditFor(ps[i], handles[i]))
  }

  function Events(ps: seq<Proposal>, handles: seq<Handle>): seq<Event>
    requires |ps| == |handles|
  {
    seq(|ps|, i requires 0 <= i < |ps| => EventFor(ps[i], handles[i]))
  }

  function Items(ps: seq<Proposal>): seq<Item> {
    seq(|ps|, i requires 0 <= i < |ps| => ItemFor(ps[i]))
  }

  predicate IsAppliedRow(row: AuditRow) { row.AppliedRow? }

  predicate NameWorkspace(ps: seq<Proposal>) {
    forall p :: p in ps ==> p.workspaceId != ""
  }

  // What a pass over `green` and `yellow`, in some interleaving of `count`
  // proposals, must have done to w.
  ghost predicate Summarises<S>(w: World<S>, green: seq<Proposal>, yellow: seq<Proposal>, apply: Effector<S>,
      outcome: Outcome<S>)
  {
    var effects := RunEffects(w.store, green, apply);
    && (outcome.Done? <==> effects.Some? && NameWorkspace(green) && NameWorkspace(yellow))
    && (outcome.Done? ==>
          && outcome.world.store == effects.value.0
          && outcome.world.calls == w.calls + Calls(green)
          && outcome.world.items == w.items + Items(yellow)
          && outcome.world.events == w.events + Events(green, effects.value.1)
          && Filter(outcome.world.audit, IsAppliedRow)
               == Filter(w.audit, IsAppliedRow) + AuditRows(green, effects.value.1)
          && |outcome.world.audit| == |w.audit| + |green| + |yellow|)
  }

  // A pass over the gated proposals completes exactly when every green effect
  // goes through and every proposal names its workspace. It has then
  // made each green effect once, in order, each with one audit row and one
  // event, and staged each yellow proposal once, in order.
  lemma {:induction false} CompletedPass<S>(w: World<S>, gated: seq<Proposal>, apply: Effector<S>)
    ensures Summarises(w, Filter(gated, IsGreen), Filter(gated, IsYellow), apply, PassFrom(w, RouteEach(gated), apply))
    decreases |gated|
  {
    var routed := RouteEach(gated);
    if gated != [] {
      assert RouteEach(gated[1..]) == routed[1..];
      var step := PassStep(w, routed[0], apply);
      if step.Done? {
        CompletedPass(step.world, gated[1..], apply);
      }
      if IsGreen(gated[0]) {
        GreenFirst(w, gated[0], Filter(gated[1..], IsGreen), Filter(gated[1..], IsYellow), apply,
          PassFrom(w, routed, apply));
      } else {
        YellowFirst(w, gated[0], Filter(gated[1..], IsGreen), Filter(gated[1..], IsYellow), apply,
          PassFrom(w, routed, apply));
      }
    }
  }

  lemma GreenFirst<S>(w: World<S>, p: Proposal, green: seq<Proposal>, yellow: seq<Proposal>, apply: Effector<S>,
      outcome: Outcome<S>)
    requires var step := ApplyGreen(w, p, apply);
      if step.Done? then Summarises(step.world, green, yellow, apply, outcome) else outcome == step
    ensures Summarises(w, [p] + green, yellow, apply, outcome)
  {
    var all := [p] + green;
    assert all[1..] == green;
    assert all[0] == p;
    assert NameWorkspace(all) <==> p.workspaceId != "" && NameWorkspace(green);
    var result := apply(w.store, p.actionType, p.effect);
    if result.Applied? && result.handle != NoHandle && p.workspaceId != "" {
      var w1 := ApplyGreen(w, p, apply).world;
      var effects := RunEffects(w1.store, green, apply);
      if effects.Some? {
        assert RunEffects(w.store, all, apply) == Some((effects.value.0, [result.handle] + effects.value.1));
        var handles := [result.handle] + effects.value.1;
        RowsCons(p, result.handle, green, effects.value.1);
        FilterAppend(w.audit, [AuditFor(p, result.handle)], IsAppliedRow);
        assert Filter([AuditFor(p, result.handle)], IsAppliedRow) == [AuditFor(p, result.handle)];
        if outcome.Done? {
          Reassociate(w.events, [EventFor(p, result.handle)], Events(green, effects.value.1));
          Reassociate(Filter(w.audit, IsAppliedRow), [AuditFor(p, result.handle)], AuditRows(green, effects.value.1));
          Reassociate(w.calls, [Call(p.actionType, p.effect)], Calls(green));
          assert Filter(outcome.world.audit, IsAppliedRow) == Filter(w.audit, IsAppliedRow) + AuditRows(all, handles);
        }
      }
    }
  }

  lemma RowsCons(p: Proposal, h: Handle, ps: seq<Proposal>, handles: seq<Handle>)
    requires |ps| == |handles|
    ensures Calls([p] + ps) == [Call(p.actionType, p.effect)] + Calls(ps)
    ensures Events([p] + ps, [h] + handles) == [EventFor(p, h)] + Events(ps, handles)
    ensures AuditRows([p] + ps, [h] + handles) == [AuditFor(p, h)] + AuditRows(ps, handles)
  {
  }

  lemma YellowFirst<S>(w: World<S>, p: Proposal, green: seq<Proposal>, yellow: seq<Proposal>, apply: Effector<S>,
      outcome: Outcome<S>)
    requires var step := StageYellow(w, p);
      if step.Done? then Summarises(step.world, green, yellow, apply, outcome) else outcome == step
    ensures Summarises(w, green, [p] + yellow, apply, outcome)
  {
    var all := [p] + yellow;
    assert p in all;
    assert NameWorkspace(all) <==> p.workspaceId != "" && NameWorkspace(yellow);
    assert Items(all) == [ItemFor(p)] + Items(yellow);
    Reassociate(w.items, [ItemFor(p)], Items(yellow));
    var row := CaptureRow(p.workspaceId, ApprovalItem(|w.items|));
    FilterAppend(w.audit, [row], IsAppliedRow);
    assert Filter([row], IsAppliedRow) == [];
    assert Filter(w.audit + [row], IsAppliedRow) == Filter(w.audit, IsAppliedRow);
  }

  lemma {:induction false} LaneSizes(gated: seq<Proposal>)
    ensures |Filter(gated, IsGreen)| + |Filter(gated, IsYellow)| == |gated|
  {
    if gated != [] {
      LaneSizes(gated[1..]);
    }
  }

  // An element that is kept stands after those kept before it.
  lemma FilterAt(s: seq<Proposal>, p: Proposal -> bool, k: nat)
    requires k < |s| && p(s[k])
    ensures |Filter(s[..k], p)| < |Filter(s, p)| && Filter(s, p)[|Filter(s[..k], p)|] == s[k]
  {
    assert s == s[..k] + s[k..];
    FilterAppend(s[..k], s[k..], p);
  }

  // A completed pass has put each gated proposal in exactly one lane, each lane
  // in order: the k-th is the call or the item that follows those of the
  // proposals before it in its lane, and there are no other calls or items.
  lemma LanesPartition<S>(w: World<S>, gated: seq<Proposal>, apply: Effector<S>, k: nat)
    requires PassFrom(w, RouteEach(gated), apply).Done? && k < |gated|
    ensures var w' := PassFrom(w, RouteEach(gated), apply).world;
      var greenBefore := |Filter(gated[..k], IsGreen)|;
      && |w'.calls| + |w'.items| == |w.calls| + |w.items| + |gated|
      && greenBefore <= k
      && if IsGreen(gated[k])
         then |w.calls| + greenBefore < |w'.calls|
              && w'.calls[|w.calls| + greenBefore] == Call(gated[k].actionType, gated[k].effect)
         else |w.items| + k - greenBefore < |w'.items|
              && w'.items[|w.items| + k - greenBefore] == ItemFor(gated[k])
  {
    CompletedPass(w, gated, apply);
    LaneSizes(gated);
    LaneSizes(gated[..k]);
    if IsGreen(gated[k]) {
      FilterAt(gated, IsGreen, k);
    } else {
      FilterAt(gated, IsYellow, k);
    }
  }

  // Only the three registered types are green.
  lemma GreenIff(p: Proposal)
    ensures IsGreen(p) <==> p.actionType in {"log_link", "close-date-auto-apply", "close-date-provisional-set"}
  {
  }

  // A target names its kind before the first colon and its id after it.
  lemma {:induction false} TargetParts(kind: string, id: string)
    requires ':' !in kind
    ensures TargetEntity(kind + ":" + id) == Target(kind, id)
  {
    KindBefore(kind, id);
    IdAfter(kind, id);
  }

  lemma {:induction false} KindBefore(kind: string, id: string)
    requires ':' !in kind
    ensures BeforeColon(kind + ":" + id) == kind
  {
    var s := kind + ":" + id;
    if kind != [] {
      assert s[0] == kind[0] && s[1..] == kind[1..] + ":" + id;
      KindBefore(kind[1..], id);
    }
  }

  lemma {:induction false} IdAfter(kind: string, id: string)
    requires ':' !in kind
    ensures AfterColon(kind + ":" + id) == id
  {
    var s := kind + ":" + id;
    assert s[|kind|] == ':';
    if kind == [] {
      assert s[1..] == id;
    } else {
      assert s[0] == kind[0] && s[1..] == kind[1..] + ":" + id;
      IdAfter(kind[1..], id);
    }
  }

  lemma {:induction false} NoColon(s: string)
    requires ':' !in s
    ensures TargetEntity(s) == Target(s, s)
  {
    if s != [] {
      NoColon(s[1..]);
    }
  }

  // The effect is always made, whatever comes of it; the rows follow only when
  // it comes back with a handle and the proposal names its workspace.
  lemma GreenOutcome<S>(w: World<S>, p: Proposal, apply: Effector<S>)
    ensures var result, r := apply(w.store, p.actionType, p.effect), ApplyGreen(w, p, apply);
      && r.world.store == result.store && r.world.items == w.items
      && r.world.calls == w.calls + [Call(p.actionType, p.effect)]
      && (r.Done? <==> result.Applied? && result.handle != NoHandle && p.workspaceId != "")
      && (r.Aborted? ==> r.world.audit == w.audit && r.world.events == w.events)
  {
  }

  lemma After<T>(before: seq<T>, added: seq<T>, k: nat)
    requires k < |added|
    ensures |before| + k < |before + added| && (before + added)[|before| + k] == added[k]
  {
  }

  // What a completed pass wrote about its k-th green proposal: an event under
  // its own topic or the default one, and an audit row, both with the handle its
  // effect came back with.
  lemma GreenRecords<S>(w: World<S>, gated: seq<Proposal>, apply: Effector<S>, k: nat)
    requires PassFrom(w, RouteEach(gated), apply).Done? && k < |Filter(gated, IsGreen)|
    ensures var w', p := PassFrom(w, RouteEach(gated), apply).world, Filter(gated, IsGreen)[k];
      var effects := RunEffects(w.store, Filter(gated, IsGreen), apply);
      var before, after := Filter(w.audit, IsAppliedRow), Filter(w'.audit, IsAppliedRow);
      && effects.Some? && |w.events| + k < |w'.events| && |before| + k < |after|
      && var topic := if p.eventTopic == "" then "overnight.applied" else p.eventTopic;
         var handle := effects.value.1[k];
      && w'.events[|w.events| + k] == Event(topic, p.workspaceId, TargetEntity(p.target), p.actionType, handle)
      && after[|before| + k] == AppliedRow(p.workspaceId, TargetEntity(p.target), p.actionType, handle)
  {
    CompletedPass(w, gated, apply);
    var green := Filter(gated, IsGreen);
    var handles := RunEffects(w.store, green, apply).value.1;
    After(w.events, Events(green, handles), k);
    After(Filter(w.audit, IsAppliedRow), AuditRows(green, handles), k);
  }

  // What it staged for its k-th yellow one: a pending item of the overnight
  // namespace that holds the effect.
  lemma YellowRecords<S>(w: World<S>, gated: seq<Proposal>, apply: Effector<S>, k: nat)
    requires PassFrom(w, RouteEach(gated), apply).Done? && k < |Filter(gated, IsYellow)|
    ensures var w', p := PassFrom(w, RouteEach(gated), apply).world, Filter(gated, IsYellow)[k];
      && |w.items| + k < |w'.items|
      && var item := w'.items[|w.items| + k];
      && item.workspaceId == p.workspaceId && item.requestedBy == "agent:overnight"
      && item.actionType == "overnight." + p.actionType
      && item.payload == if p.effect.Raw? && p.effect.json == "" then Raw("{}", p.effect.eventTopic) else p.effect
  {
    CompletedPass(w, gated, apply);
    After(w.items, Items(Filter(gated, IsYellow)), k);
  }

  // Whatever a pass does, completed or aborted, only a registered green type
  // outside the D4 floor ever reaches the effector.
  lemma {:induction false} FloorNeverReachesEffector<S>(w: World<S>, input: seq<Proposal>, apply: Effector<S>)
    ensures var w' := PassFrom(w, RouteEach(input), apply).world;
      && w.calls <= w'.calls
      && forall c :: c in w'.calls[|w.calls|..] ==>
           && c.actionType in {"log_link", "close-date-auto-apply", "close-date-provisional-set"}
           && c.actionType !in {"send", "outbound", "archive", "merge", "disqualify", "close-deal", "enrich"}
    decreases |input|
  {
    if input != [] {
      var routed := RouteEach(input);
      assert RouteEach(input[1..]) == routed[1..];
      var step := PassStep(w, routed[0], apply);
      if step.Done? {
        FloorNeverReachesEffector(step.world, input[1..], apply);
        var w' := PassFrom(w, routed, apply).world;
        assert w'.calls[|w.calls|..]
          == step.world.calls[|w.calls|..] + w'.calls[|step.world.calls|..];
      }
    }
  }

  // ----------------------------------------------- the decided dispatch

  // HandleDecided for one approval.decided event.
  function Dispatch<S>(w: World<S>, itemId: nat, decision: string, apply: Effector<S>): Outcome<S> {
    if itemId >= |w.items| then Aborted(w)
    else
      var item := w.items[itemId];
      if !(OVERNIGHT_NAMESPACE <= item.actionType) then Done(w)
      else if decision != "approved" && decision != "modified" then Done(w)
      else
        var actionType := item.actionType[|OVERNIGHT_NAMESPACE|..];
        var called := w.calls + [Call(actionType, item.payload)];
        match apply(w.store, actionType, item.payload)
        case EffectFailed(s) => Aborted(w.(store := s, calls := called))
        case Applied(s, h) =>
          if item.workspaceId == "" then Aborted(w.(store := s, calls := called))
          else
            Done(w.(store := s, calls := called,
                    audit := w.audit + [AppliedRow(item.workspaceId, ApprovalItem(itemId), actionType, h)],
                    events := w.events + [Event(Topic(item.payload.eventTopic), item.workspaceId,
                                                ApprovalItem(itemId), actionType, h)]))
  }

  // A decided item of the namespace is handed to the effector under its own
  // type, and recorded once the effect went through; any other item or decision
  // changes nothing.
  lemma DispatchOutcome<S>(w: World<S>, itemId: nat, decision: string, apply: Effector<S>, actionType: string)
    requires itemId < |w.items|
    ensures var item, r := w.items[itemId], Dispatch(w, itemId, decision, apply);
      && (item.actionType == "overnight." + actionType && decision in {"approved", "modified"} ==>
            var result := apply(w.store, actionType, item.payload);
            var called := w.(store := result.store, calls := w.calls + [Call(actionType, item.payload)]);
            r == if result.EffectFailed? || item.workspaceId == "" then Aborted(called)
                 else Done(called.(
                   audit := w.audit + [AppliedRow(item.workspaceId, ApprovalItem(itemId), actionType, result.handle)],
                   events := w.events + [
                     Event(if item.payload.eventTopic == "" then "overnight.applied" else item.payload.eventTopic,
                           item.workspaceId, ApprovalItem(itemId), actionType, result.handle)])))
      && (!("overnight." <= item.actionType) || decision !in {"approved", "modified"} ==> r == Done(w))
  {
    var item := w.items[itemId];
    if item.actionType == OVERNIGHT_NAMESPACE + actionType {
      assert item.actionType[|OVERNIGHT_NAMESPACE|..] == actionType;
    }
  }

  // The k-th proposal a completed pass staged, once approved, is handed to the
  // effector with the action type and effect it was proposed with; any other
  // decision changes nothing.
  lemma StagedProposalDispatches<S>(w: World<S>, gated: seq<Proposal>, apply: Effector<S>, k: nat, decision: string,
      later: World<S>)
    requires PassFrom(w, RouteEach(gated), apply).Done?
    requires k < |Filter(gated, IsYellow)|
    requires PassFrom(w, RouteEach(gated), apply).world.items <= later.items
    ensures var p := Filter(gated, IsYellow)[k];
      var after := Dispatch(later, |w.items| + k, decision, apply).world;
      if decision == "approved" || decision == "modified"
      then after.calls == later.calls + [Call(p.actionType, StoredPayload(p.effect))]
      else after == later
  {
    CompletedPass(w, gated, apply);
    var p := Filter(gated, IsYellow)[k];
    var w' := PassFrom(w, RouteEach(gated), apply).world;
    assert w'.items[|w.items| + k] == ItemFor(p);
    assert later.items[|w.items| + k] == ItemFor(p);
    var name := OVERNIGHT_NAMESPACE + p.actionType;
    assert OVERNIGHT_NAMESPACE <= name && name[|OVERNIGHT_NAMESPACE|..] == p.actionType;
  }

  // ---------------------------------------------------------- the runner

  // The pass's mutable surroundings: the effector's store and the tables the
  // pass writes.
  class Runner<S> {
    var store: S
    var calls: seq<Call>
    var audit: seq<AuditRow>
    var events: seq<Event>
    var items: seq<Item>

    constructor (s: S)
      ensures State() == World(s, [], [], [], [])
    {
      store, calls, audit, events, items := s, [], [], [], [];
    }

    ghost function State(): World<S>
      reads this
    {
      World(store, calls, audit, events, items)
    }

    method Apply(p: Proposal, apply: Effector<S>) returns (ok: bool)
      modifies this
      ensures var r := ApplyGreen(old(State()), p, apply);
        State() == r.world && ok == r.Done?
    {
      calls := calls + [Call(p.actionType, p.effect)];
      var result := apply(store, p.actionType, p.effect);
      store := result.store;
      if result.EffectFailed? || result.handle == NoHandle {
        return false;
      }
      if p.workspaceId == "" {
        return false;
      }
      audit := audit + [AuditFor(p, result.handle)];
      events := events + [EventFor(p, result.handle)];
      return true;
    }

    method Stage(p: Proposal) returns (ok: bool)
      modifies this
      ensures var r := StageYellow(old(State()), p);
        State() == r.world && ok == r.Done?
    {
      if p.workspaceId == "" {
        return false;
      }
      var itemId := |items|;
      items := items + [ItemFor(p)];
      audit := audit + [CaptureRow(p.workspaceId, ApprovalItem(itemId))];
      return true;
    }

    // None means the pass aborted. An assembler failure reads nothing more and
    // touches nothing; a producer failure still runs what was produced.
    method RunPass(assemblerErr: Option<string>, raw: seq<Proposal>, producerErr: Option<string>, apply: Effector<S>)
      returns (result: Option<RunResult>)
      modifies this
      ensures assemblerErr.Some? ==>
        && State() == old(State())
        && result == Some(RunResult(RunDegraded, [], assemblerErr.value))
      ensures assemblerErr.None? ==>
        var gated := Filter(raw, Survives);
        var outcome := PassFrom(old(State()), RouteEach(gated), apply);
        && State() == outcome.world
        && result.Some? == outcome.Done?
        && (result.Some? ==>
              && Batch.IsCanonicalBatch(RouteEach(gated), result.value.groups)
              && result.value.state ==
                   (if producerErr.Some? then RunDegraded else if gated == [] then RunQuiet else RunNormal)
              && result.value.reason == (if producerErr.Some? then producerErr.value else ""))
    {
      if assemblerErr.Some? {
        return Some(RunResult(RunDegraded, [], assemblerErr.value));
      }
      var gated := GateProposals(raw);
      var routed := RouteAll(gated);
      for i := 0 to |routed|
        invariant PassFrom(old(State()), routed, apply) == PassFrom(State(), routed[i..], apply)
      {
        var r := routed[i];
        assert routed[i..][1..] == routed[i+1..];
        var ok;
        if r.tier == Green {
          ok := Apply(r.proposal, apply);
        } else {
          ok := Stage(r.proposal);
        }
        if !ok {
          return None;
        }
      }
      var batch := Batch.BuildBatch(routed, producerErr);
      return Some(batch);
    }

    method HandleDecided(itemId: nat, decision: string, apply: Effector<S>) returns (ok: bool)
      modifies this
      ensures var r := Dispatch(old(State()), itemId, decision, apply);
        State() == r.world && ok == r.Done?
    {
      if itemId >= |items| {
        return false;
      }
      var item := items[itemId];
      if !(OVERNIGHT_NAMESPACE <= item.actionType) {
        return true;
      }
      if decision != "approved" && decision != "modified" {
        return true;
      }
      var actionType := item.actionType[|OVERNIGHT_NAMESPACE|..];
      calls := calls + [Call(actionType, item.payload)];
      var result := apply(store, actionType, item.payload);
      store := result.store;
      if result.EffectFailed? {
        return false;
      }
      if item.workspaceId == "" {
        return false;
      }
      audit := audit + [AppliedRow(item.workspaceId, ApprovalItem(itemId), actionType, result.handle)];
      events := events + [Event(Topic(item.payload.eventTopic), item.workspaceId,
                                ApprovalItem(itemId), actionType, result.handle)];
      return true;
    }
  }
}
