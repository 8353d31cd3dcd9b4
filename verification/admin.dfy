/** The admin console's own logic (components/AdminDashboard.tsx): the
    project total and the "Xm Ys" rendering of call durations. */
module AdminConsole {
  import opened Wrappers
  import opened Text
  import opened Types
  import DashboardStats

  /** `Math.floor(n / 60)`: Dafny's division by a positive divisor floors. */
  function FloorMinutes(n: int): (m: int)
    ensures m * 60 <= n < m * 60 + 60
  {
    n / 60
  }

  /** JavaScript's `n % 60`: the remainder takes the sign of `n`. */
  function JsRemainder60(n: int): (r: int)
    ensures -60 < r < 60
    ensures n >= 0 ==> 0 <= r && (n - r) % 60 == 0
    ensures n < 0 ==> r <= 0 && (n - r) % 60 == 0
  {
    if n >= 0 then n % 60 else -((-n) % 60)
  }

  /** `formatDuration`: minutes and seconds without padding. */
  function FormatDuration(seconds: int): (r: string)
    ensures |r| >= 4 && r[|r| - 1] == 's'
    ensures 'm' in r
  {
    IntToString(FloorMinutes(seconds)) + "m " + IntToString(JsRemainder60(seconds)) + "s"
  }

  /** Reads "<digits>m <digits>s" back into seconds. */
  function ParseDuration(t: string): Option<int> {
    match FindChar(t, 'm')
    case None => None
    case Some(i) => DurationFields(t[..i], t[i + 1..])
  }

  /** The minutes digits and the text after the 'm': a space, digits, 's'. */
  function DurationFields(m: string, rest: string): Option<int> {
    if AllDigits(m) && |rest| >= 2 && rest[0] == ' ' && rest[|rest| - 1] == 's'
       && AllDigits(rest[1..|rest| - 1])
    then Some(ParseNat(m) * 60 + ParseNat(rest[1..|rest| - 1]))
    else None
  }

  lemma DurationFieldsOf(m: string, sec: string)
    requires AllDigits(m) && AllDigits(sec)
    ensures DurationFields(m, " " + sec + "s") == Some(ParseNat(m) * 60 + ParseNat(sec))
  {
    var tail := " " + sec + "s";
    assert tail[1..|tail| - 1] == sec;
  }

  lemma ParseDurationFields(m: string, sec: string)
    requires AllDigits(m) && AllDigits(sec)
    ensures ParseDuration(m + "m " + sec + "s") == Some(ParseNat(m) * 60 + ParseNat(sec))
  {
    var tail := " " + sec + "s";
    var t := m + ['m'] + tail;
    assert m + "m " + sec + "s" == t;
    FindCharAfter(m, 'm', tail);
    assert t[..|m|] == m;
    assert t[|m| + 1..] == tail;
    DurationFieldsOf(m, sec);
  }

  /** For a non-negative duration the text reads back to the same seconds,
      the seconds field is below 60 and minutes*60 + seconds is the input. */
  lemma FormatDurationRoundTrip(seconds: nat)
    ensures ParseDuration(FormatDuration(seconds)) == Some(seconds)
    ensures 0 <= JsRemainder60(seconds) < 60
    ensures FloorMinutes(seconds) * 60 + JsRemainder60(seconds) == seconds
  {
    var q := seconds / 60;
    var r := seconds % 60;
    ParseNatToString(q);
    ParseNatToString(r);
    ParseDurationFields(NatToString(q), NatToString(r));
  }

  /** 65 seconds render as "1m 5s", with no zero padding. */
  lemma FormatDurationExample()
    ensures FormatDuration(65) == "1m 5s"
  {
    assert NatToString(1) == "1";
    assert NatToString(5) == "5";
  }

  /** A negative duration mixes a floored minute with a truncated second:
      -5 renders as "-1m -5s", which reads as -65 seconds. */
  lemma FormatDurationNegative()
    ensures FormatDuration(-5) == "-1m -5s"
    ensures FloorMinutes(-5) * 60 + JsRemainder60(-5) == -65
  {
    assert FloorMinutes(-5) == -1 && JsRemainder60(-5) == -5;
    assert NatToString(1) == "1";
    assert NatToString(5) == "5";
    assert IntToString(-1) == "-1" && IntToString(-5) == "-5";
  }

  /** The console's project total agrees with the dashboard's. */
  function TotalProjects(ps: seq<Project>): (n: nat)
    ensures n == DashboardStats.ComputeStats(ps).total
  {
    |ps|
  }
}
