// deal.go: the deal status and the stalled rule, shared by every deal module.
module DealDomain {
  import opened Wrappers

  type Date = int     // days since the epoch, UTC
  type Instant = int  // nanoseconds since the epoch, UTC

  const DAY: int := 86_400_000_000_000
  const STALLED_THRESHOLD_DAYS := 60

  datatype Status = Open | Won | Lost

  // The day an instant lies in.
  function DateOf(t: Instant): (d: Date)
    ensures d * 86_400_000_000_000 <= t < (d + 1) * 86_400_000_000_000
  {
    t / DAY
  }

  // Idle for more than sixty days, unless a customer wait still holds through
  // the end of its UTC day.
  predicate IsStalled(status: Status, createdAt: Instant, lastActivityAt: Option<Instant>, waitUntil: Option<Date>,
      now: Instant)
  {
    if status != Open then false
    else
      var base := match lastActivityAt { case Some(t) => t case None => createdAt };
      if now - base <= STALLED_THRESHOLD_DAYS * DAY then false
      else match waitUntil
        case Some(w) => DateOf(now) > w
        case None => true
  }
}
