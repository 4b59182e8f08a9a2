// The overnight agent's value types: proposals, their effects and handles,
// and the world one pass reads and writes.
module AgentsDomain {
  import opened Wrappers
  import opened DealDomain

  // An effect payload after JSON decoding. Raw carries any other producer's
  // payload together with the event_topic field its JSON holds ("" if none).
  datatype Effect =
    | CloseDate(dealId: string, ifMatch: int, newDate: Date, priorDate: Option<Date>, priorVersion: int,
      eventTopic: string)
    | Raw(json: string, eventTopic: string)

  // What an effector returns for undoing an effect; NoHandle is the empty string.
  datatype Handle =
    | NoHandle
    | RestoreDate(dealId: string, priorDate: Option<Date>, priorVersion: int)
    | TextHandle(text: string)

  datatype Proposal = Proposal(
    workspaceId: string,
    actionType: string,
    target: string,
    effect: Effect,
    evidence: string,
    confidence: Option<real>,
    source: string,
    eventTopic: string)

  datatype Tier = Green | Yellow

  datatype Routed = Routed(proposal: Proposal, tier: Tier)

  datatype RunState = RunNormal | RunQuiet | RunDegraded

  datatype Group = Group(actionType: string, items: seq<Routed>)

  datatype RunResult = RunResult(state: RunState, groups: seq<Group>, reason: string)
}
