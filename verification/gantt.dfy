/** Gantt timeline layout of components/Projects.tsx: one shared window over
    all projects, padded by five days on each side, and percentage positions
    and widths of the bars on it. */
module Gantt {
  import opened Types

  /** The five-day pad on each side of the window (daylight-saving shifts of
      the calendar arithmetic are not modelled). */
  const BufferMs: int := 5 * DayMs

  /** `minStart`, `maxEnd` and `totalDuration` as returned by `ganttData`. */
  datatype Window = Window(minStart: int, maxEnd: int, totalDuration: int)

  function MinStart(ps: seq<Project>): (m: int)
    requires |ps| > 0
    ensures forall p | p in ps :: m <= p.startDate
    ensures exists p | p in ps :: m == p.startDate
    decreases |ps|
  {
    if |ps| == 1 then ps[0].startDate
    else
      var rest := MinStart(ps[1..]);
      assert forall p | p in ps[1..] :: p in ps;
      if ps[0].startDate <= rest then ps[0].startDate else rest
  }

  function MaxEnd(ps: seq<Project>): (m: int)
    requires |ps| > 0
    ensures forall p | p in ps :: p.endDate <= m
    ensures exists p | p in ps :: m == p.endDate
    decreases |ps|
  {
    if |ps| == 1 then ps[0].endDate
    else
      var rest := MaxEnd(ps[1..]);
      assert forall p | p in ps[1..] :: p in ps;
      if ps[0].endDate >= rest then ps[0].endDate else rest
  }

  /** The window: degenerate at `now` for no projects, otherwise from the
      earliest start minus the pad to the latest end plus the pad. */
  function GanttWindow(ps: seq<Project>, now: int): (w: Window)
    ensures |ps| == 0 ==> w == Window(now, now, 0)
    ensures w.totalDuration == w.maxEnd - w.minStart
    ensures forall p | p in ps :: w.minStart + BufferMs <= p.startDate && p.endDate <= w.maxEnd - BufferMs
    ensures |ps| > 0 ==> exists p | p in ps :: p.startDate == w.minStart + BufferMs
    ensures |ps| > 0 ==> exists p | p in ps :: p.endDate == w.maxEnd - BufferMs
  {
    if |ps| == 0 then Window(now, now, 0)
    else
      var minStart := MinStart(ps) - BufferMs;
      var maxEnd := MaxEnd(ps) + BufferMs;
      Window(minStart, maxEnd, maxEnd - minStart)
  }

  /** `Math.max(0, Math.min(100, x))`. */
  function Clamp(x: real): (r: real)
    ensures 0.0 <= r <= 100.0
    ensures 0.0 <= x <= 100.0 ==> r == x
    ensures x < 0.0 ==> r == 0.0
    ensures x > 100.0 ==> r == 100.0
  {
    if x > 100.0 then 100.0 else if x < 0.0 then 0.0 else x
  }

  /** Where `date` lies on the window, in percent, clamped; 0 on an empty window. */
  function Position(date: int, w: Window): (pct: real)
    ensures 0.0 <= pct <= 100.0
    ensures w.totalDuration == 0 ==> pct == 0.0
  {
    if w.totalDuration == 0 then 0.0
    else Clamp(((date - w.minStart) as real / w.totalDuration as real) * 100.0)
  }

  /** Bar width in percent, at least 1. */
  function Width(startDate: int, endDate: int, w: Window): (pct: real)
    ensures 1.0 <= pct <= 100.0
    ensures Position(endDate, w) - Position(startDate, w) >= 1.0 ==>
      pct == Position(endDate, w) - Position(startDate, w)
    ensures Position(endDate, w) - Position(startDate, w) < 1.0 ==> pct == 1.0
  {
    var s := Position(startDate, w);
    var e := Position(endDate, w);
    if 1.0 >= e - s then 1.0 else e - s
  }

  lemma DivMonotone(a: real, b: real, d: real)
    requires a <= b && d > 0.0
    ensures a / d <= b / d
  {
    assert b / d - a / d == (b - a) / d;
  }

  /** On a window of positive duration, later dates are never further left. */
  lemma PositionMonotone(d1: int, d2: int, w: Window)
    requires d1 <= d2
    requires w.totalDuration > 0
    ensures Position(d1, w) <= Position(d2, w)
  {
    DivMonotone((d1 - w.minStart) as real, (d2 - w.minStart) as real, w.totalDuration as real);
  }

  /** The window's own ends sit at 0 and 100 percent. */
  lemma PositionAtEnds(ps: seq<Project>, now: int)
    requires |ps| > 0
    requires GanttWindow(ps, now).totalDuration > 0
    ensures Position(GanttWindow(ps, now).minStart, GanttWindow(ps, now)) == 0.0
    ensures Position(GanttWindow(ps, now).maxEnd, GanttWindow(ps, now)) == 100.0
  {
    var w := GanttWindow(ps, now);
    var d := w.totalDuration as real;
    assert (w.maxEnd - w.minStart) as real / d == 1.0;
  }

  /** With no projects every date is placed at 0. */
  lemma EmptyWindowPositions(now: int, date: int)
    ensures GanttWindow([], now).totalDuration == 0
    ensures Position(date, GanttWindow([], now)) == 0.0
  {
  }

  /** One project with a start no later than its end makes the window at
      least the two pads wide. */
  lemma WindowSpansPads(ps: seq<Project>, now: int)
    requires exists p | p in ps :: p.startDate <= p.endDate
    ensures GanttWindow(ps, now).totalDuration >= 2 * BufferMs > 0
  {
    var p :| p in ps && p.startDate <= p.endDate;
    assert GanttWindow(ps, now).minStart + BufferMs <= p.startDate;
  }

  /** Raw positions of a listed project whose start is not after its end do
      not invert on the window of its list. */
  lemma StartNotRightOfEnd(ps: seq<Project>, now: int, p: Project)
    requires p in ps && p.startDate <= p.endDate
    ensures Position(p.startDate, GanttWindow(ps, now)) <= Position(p.endDate, GanttWindow(ps, now))
  {
    WindowSpansPads(ps, now);
    PositionMonotone(p.startDate, p.endDate, GanttWindow(ps, now));
  }

  /** A bar of at least 1 percent ends exactly at its end date's position. */
  lemma BarEndsAtDeadline(p: Project, w: Window)
    requires Position(p.endDate, w) - Position(p.startDate, w) >= 1.0
    ensures Position(p.startDate, w) + Width(p.startDate, p.endDate, w) == Position(p.endDate, w)
  {
  }

  /** Example: A from day 0 to day 10 and B from day 5 to day 30 give the
      window [day -5, day 35]; A starts at 12.5%, A is 25% wide, B 62.5%. */
  lemma TwoProjectExample(t0: int, now: int, a: Project, b: Project)
    requires a.startDate == t0 && a.endDate == t0 + 10 * DayMs
    requires b.startDate == t0 + 5 * DayMs && b.endDate == t0 + 30 * DayMs
    ensures GanttWindow([a, b], now) == Window(t0 - 5 * DayMs, t0 + 35 * DayMs, 40 * DayMs)
    ensures Position(a.startDate, GanttWindow([a, b], now)) == 12.5
    ensures Width(a.startDate, a.endDate, GanttWindow([a, b], now)) == 25.0
    ensures Width(b.startDate, b.endDate, GanttWindow([a, b], now)) == 62.5
  {
    var w := GanttWindow([a, b], now);
    assert MinStart([a, b]) == t0;
    assert MaxEnd([a, b]) == t0 + 30 * DayMs;
    assert w == Window(t0 - 5 * DayMs, t0 + 35 * DayMs, 40 * DayMs);
    var d := (40 * DayMs) as real;
    assert Position(a.startDate, w) == (((5 * DayMs) as real) / d) * 100.0 == 12.5;
    assert Position(a.endDate, w) == (((15 * DayMs) as real) / d) * 100.0 == 37.5;
    assert Position(b.startDate, w) == (((10 * DayMs) as real) / d) * 100.0 == 25.0;
    assert Position(b.endDate, w) == (((35 * DayMs) as real) / d) * 100.0 == 87.5;
  }

  /** A single project whose start lies ten days after its end collapses the
      window to zero duration although a project exists: the pads do not
      guarantee a positive span for inverted ranges. */
  lemma InvertedRangeCollapsesWindow(p: Project, now: int)
    requires p.startDate == p.endDate + 10 * DayMs
    ensures GanttWindow([p], now).totalDuration == 0
    ensures Position(p.startDate, GanttWindow([p], now)) == 0.0
  {
    assert MinStart([p]) == p.startDate;
    assert MaxEnd([p]) == p.endDate;
  }
}
