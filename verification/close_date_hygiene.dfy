// close_date_hygiene.go: when a close date needs attention, and what to
// propose instead.
module CloseDateHygiene {
  import opened Wrappers
  import opened DealDomain

  const CLOSE_DATE_UNREALISTIC_SOON_DAYS := 7
  const CLOSE_DATE_STAGE_DAYS := 14
  const CLOSE_DATE_MIN_HISTORY := 20
  const CLOSE_DATE_AUTO_APPLY := true
  const UNREALISTIC_SOON_PROBABILITY := 40
  const FORECAST_BESTCASE_MIN_PROB := 50

  datatype Flags = Flags(overdue: bool, missing: bool, unrealisticSoon: bool, unrealisticStale: bool) {
    predicate Any() {
      overdue || missing || unrealisticSoon || unrealisticStale
    }
  }

  function ComputeFlags(status: Status, closeDate: Option<Date>, today: Date, winProbability: int,
      isStalled: bool): Flags
  {
    if status != Open then Flags(false, false, false, false)
    else match closeDate
      case None => Flags(false, true, false, false)
      case Some(d) => Flags(
        d < today,
        false,
        today <= d <= today + CLOSE_DATE_UNREALISTIC_SOON_DAYS && winProbability < UNREALISTIC_SOON_PROBABILITY,
        isStalled && d <= today + STALLED_THRESHOLD_DAYS)
  }

  function StageVelocityDays(observedMedianDays: int, wonDealCount: int): int {
    if wonDealCount >= CLOSE_DATE_MIN_HISTORY then observedMedianDays else CLOSE_DATE_STAGE_DAYS
  }

  function ProposedCloseDate(today: Date, remainingOpenStages: int, stageVelocityDays: int): Date {
    today + (if remainingOpenStages < 1 then 1 else remainingOpenStages) * stageVelocityDays
  }

  predicate InForecastCommit(forecastCategory: Option<string>, winProbability: int) {
    match forecastCategory
    case Some(c) => c == "commit" || c == "best_case"
    case None => winProbability >= FORECAST_BESTCASE_MIN_PROB
  }

  datatype Action = AutoApply | ProvisionalConfirm | DowngradeAndReview

  function DecideAction(quiet: bool, clearOverdue: bool, active: bool, inForecastCommit: bool, lateStage: bool,
      autoApplyEnabled: bool): Action
  {
    if quiet then DowngradeAndReview
    else if autoApplyEnabled && clearOverdue && active && !inForecastCommit && !lateStage then AutoApply
    else ProvisionalConfirm
  }
}
