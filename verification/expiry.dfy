/** Expiry classification of one project (components/Projects.tsx,
    `checkExpiry` and the expiring/overdue flags of the list and Gantt views).
    "Now" is a parameter instead of a clock read. */
module Expiry {
  import opened Types

  /** Whole days needed to cover `ms`: the ceiling of ms / DayMs. */
  function CeilDays(ms: int): (days: int)
    ensures (days - 1) * DayMs < ms <= days * DayMs
  {
    var q := (-ms) / DayMs;
    assert -ms == q * DayMs + (-ms) % DayMs;
    -q
  }

  /** Days left until `endDate` as `Math.ceil((end - now) / day)`. */
  function DaysLeft(endDate: int, now: int): (days: int)
    ensures (days - 1) * DayMs < endDate - now <= days * DayMs
  {
    CeilDays(endDate - now)
  }

  /** The "expiring" flag: 1 to 15 days left. */
  predicate IsExpiring(daysLeft: int) {
    daysLeft <= 15 && daysLeft > 0
  }

  /** The "overdue" flag: negative days left on a project not completed. */
  predicate IsOverdue(daysLeft: int, status: string) {
    daysLeft < 0 && status != Completed
  }

  predicate ProjectExpiring(p: Project, now: int) {
    IsExpiring(DaysLeft(p.endDate, now))
  }

  predicate ProjectOverdue(p: Project, now: int) {
    IsOverdue(DaysLeft(p.endDate, now), p.status)
  }

  datatype BarColour = Red | Amber | Indigo

  /** Gantt bar colour: overdue first, then expiring, otherwise the default. */
  function BarColourOf(p: Project, now: int): (c: BarColour)
    ensures c == Red <==> ProjectOverdue(p, now)
    ensures c == Amber <==> ProjectExpiring(p, now)
    ensures c == Indigo <==> !ProjectOverdue(p, now) && !ProjectExpiring(p, now)
  {
    if ProjectOverdue(p, now) then Red else if ProjectExpiring(p, now) then Amber else Indigo
  }

  /** Expiring means the deadline is after now and at most 15 days away. */
  lemma ExpiringWindow(endDate: int, now: int)
    ensures IsExpiring(DaysLeft(endDate, now)) <==> now < endDate <= now + 15 * DayMs
  {
    var d := DaysLeft(endDate, now);
    if now < endDate <= now + 15 * DayMs {
      assert d > 0;
      assert d <= 15;
    }
  }

  /** Overdue means at least one full day past the deadline, not completed. */
  lemma OverdueWindow(endDate: int, now: int, status: string)
    ensures IsOverdue(DaysLeft(endDate, now), status) <==> endDate <= now - DayMs && status != Completed
  {
    var d := DaysLeft(endDate, now);
    if endDate <= now - DayMs {
      assert d < 0;
    }
  }

  /** Less than a day past the deadline gives 0 days left, not a negative
      number, so the project is neither expiring nor overdue. */
  lemma ZeroDayBoundary(endDate: int, now: int, status: string)
    ensures DaysLeft(endDate, now) == 0 <==> now - DayMs < endDate <= now
    ensures now - DayMs < endDate <= now ==>
      !IsExpiring(DaysLeft(endDate, now)) && !IsOverdue(DaysLeft(endDate, now), status)
  {
    var d := DaysLeft(endDate, now);
    if now - DayMs < endDate <= now {
      assert d <= 0;
      assert d >= 0;
    }
  }

  /** A later deadline never has fewer days left. */
  lemma DaysLeftMonotone(e1: int, e2: int, now: int)
    requires e1 <= e2
    ensures DaysLeft(e1, now) <= DaysLeft(e2, now)
  {
  }

  /** The two flags never hold together. */
  lemma ExpiringExcludesOverdue(p: Project, now: int)
    ensures !(ProjectExpiring(p, now) && ProjectOverdue(p, now))
  {
  }

  /** Boundary cases: due now (0 days), 15 days out, 16 days out, a day ago. */
  lemma ClassificationBoundaries(now: int, status: string)
    ensures DaysLeft(now, now) == 0 && !IsExpiring(DaysLeft(now, now))
    ensures DaysLeft(now + 15 * DayMs, now) == 15 && IsExpiring(DaysLeft(now + 15 * DayMs, now))
    ensures DaysLeft(now + 16 * DayMs, now) == 16 && !IsExpiring(DaysLeft(now + 16 * DayMs, now))
    ensures DaysLeft(now - DayMs, now) == -1
    ensures status != Completed ==> IsOverdue(DaysLeft(now - DayMs, now), status)
    ensures DaysLeft(now + DayMs / 2, now) == 1
  {
  }
}
