/** The call modal of the communication screen (components/Communication.tsx):
    starting and ending a call, rounding its duration to whole seconds, and the
    "MM:SS" timer display with a parser that reads it back. Clock reads are
    parameters. */
module CallTimer {
  import opened Wrappers
  import opened Text
  import opened Types

  /** `formatTime`: minutes and seconds, each zero-padded to two characters. */
  function FormatTime(seconds: nat): (t: string)
    ensures |t| >= 5
    ensures t[|t| - 3] == ':'
  {
    SecondsField(seconds % 60);
    PadStartZero(NatToString(seconds / 60), 2) + ":" + PadStartZero(NatToString(seconds % 60), 2)
  }

  /** A seconds value below 60 pads to exactly two digits. */
  lemma SecondsField(s: nat)
    requires s < 60
    ensures |PadStartZero(NatToString(s), 2)| == 2
  {
    if s >= 10 {
      assert NatToString(s) == NatToString(s / 10) + [DigitChar(s % 10)];
    }
  }

  /** Reads "M:SS" back into seconds: digits, a colon, two digits below 60. */
  function ParseClock(t: string): Option<nat> {
    match FindChar(t, ':')
    case None => None
    case Some(i) => ClockFields(t[..i], t[i + 1..])
  }

  function ClockFields(m: string, s: string): Option<nat> {
    if AllDigits(m) && AllDigits(s) && |s| == 2 && ParseNat(s) < 60
    then Some(ParseNat(m) * 60 + ParseNat(s))
    else None
  }

  /** Parsing a colon-joined pair of digit fields. */
  lemma ParseClockFields(m: string, sec: string)
    requires AllDigits(m) && AllDigits(sec) && |sec| == 2 && ParseNat(sec) < 60
    ensures ParseClock(m + ":" + sec) == Some(ParseNat(m) * 60 + ParseNat(sec))
  {
    ParseClockSplit(m, sec);
    ClockFieldsValue(m, sec);
  }

  /** Well-formed fields read as minutes times 60 plus seconds. */
  lemma ClockFieldsValue(m: string, sec: string)
    requires AllDigits(m) && AllDigits(sec) && |sec| == 2 && ParseNat(sec) < 60
    ensures ClockFields(m, sec) == Some(ParseNat(m) * 60 + ParseNat(sec))
  {
  }

  /** The parser reads the two fields on either side of the first colon. */
  lemma ParseClockSplit(m: string, sec: string)
    requires AllDigits(m)
    ensures ParseClock(m + ":" + sec) == ClockFields(m, sec)
  {
    ColonSplit(m, sec);
  }

  /** The first colon of "M:SS" separates exactly the two fields. */
  lemma ColonSplit(m: string, sec: string)
    requires AllDigits(m)
    ensures FindChar(m + ":" + sec, ':') == Some(|m|)
    ensures (m + ":" + sec)[..|m|] == m && (m + ":" + sec)[|m| + 1..] == sec
  {
    var t := m + ":" + sec;
    assert t == m + [':'] + sec;
    FindCharAfter(m, ':', sec);
  }

  /** The display loses nothing: parsing it gives back the seconds. */
  lemma FormatTimeRoundTrip(seconds: nat)
    ensures ParseClock(FormatTime(seconds)) == Some(seconds)
  {
    var q := seconds / 60;
    var r := seconds % 60;
    var m := PadStartZero(NatToString(q), 2);
    var sec := PadStartZero(NatToString(r), 2);
    PadStartZeroParse(NatToString(q), 2);
    PadStartZeroParse(NatToString(r), 2);
    ParseNatToString(q);
    ParseNatToString(r);
    SecondsField(r);
    ParseClockFields(m, sec);
    assert FormatTime(seconds) == m + ":" + sec;
    assert q * 60 + r == seconds;
  }

  /** 65 seconds display as "01:05"; minutes are never truncated. */
  lemma FormatTimeExample()
    ensures FormatTime(65) == "01:05"
  {
    assert 65 / 60 == 1 && 65 % 60 == 5;
    PadOneDigit(1);
    PadOneDigit(5);
  }

  lemma FormatTimeLongExample()
    ensures FormatTime(6000) == "100:00"
  {
    assert 6000 / 60 == 100 && 6000 % 60 == 0;
    assert NatToString(1) == "1";
    assert NatToString(10) == NatToString(1) + "0";
    assert NatToString(100) == NatToString(10) + "0";
    assert PadStartZero("100", 2) == "100";
    PadOneDigit(0);
  }

  /** A single digit pads to a leading zero and the digit. */
  lemma PadOneDigit(d: nat)
    requires d < 10
    ensures PadStartZero(NatToString(d), 2) == ['0', DigitChar(d)]
  {
    assert NatToString(d) == [DigitChar(d)];
    assert Repeat('0', 1) == "0";
  }

  // ------------------------------------------------------------------- calls

  /** The call modal's state: when the call started, if one is running. */
  datatype CallSession = CallSession(startTime: Option<int>, modalOpen: bool, elapsed: nat)

  /** `Math.round(ms / 1000)`, halves rounded up. */
  function RoundSeconds(ms: int): (s: int)
    ensures s * 1000 - 500 <= ms < s * 1000 + 500
  {
    (ms + 500) / 1000
  }

  /** `handleStartCall` at time `now`. */
  function StartCall(now: int): (r: CallSession)
    ensures r.startTime == Some(now) && r.modalOpen && r.elapsed == 0
  {
    CallSession(Some(now), true, 0)
  }

  /** `handleEndCall` at time `now`: a log entry only when a call was running
      and a project is selected; the session is closed either way. */
  function EndCall(session: CallSession, project: Option<Project>, user: Option<User>, now: int)
    : (r: (CallSession, Option<CallDetails>))
    ensures r.0 == CallSession(None, false, 0)
    ensures r.1.Some? <==> session.startTime.Some? && project.Some?
    ensures r.1.Some? ==>
      && r.1.value.clientName == project.value.clientName
      && r.1.value.clientPhone == project.value.clientPhone
      && r.1.value.startTime == session.startTime.value
      && r.1.value.endTime == now
      && r.1.value.durationSeconds * 1000 - 500 <= now - session.startTime.value
      && now - session.startTime.value < r.1.value.durationSeconds * 1000 + 500
      && r.1.value.callerName == (if user.Some? && user.value.name != "" then user.value.name else "Unknown User")
      && r.1.value.notes == Some("Call completed via app dashboard")
  {
    var log :=
      if session.startTime.Some? && project.Some? then
        var p := project.value;
        var caller := if user.Some? && user.value.name != "" then user.value.name else "Unknown User";
        Some(CallDetails(p.clientName, p.clientPhone, caller, session.startTime.value, now,
          RoundSeconds(now - session.startTime.value), Some("Call completed via app dashboard")))
      else None;
    (CallSession(None, false, 0), log)
  }

  /** A call started and ended with a project selected is logged with the
      whole seconds between the two instants. */
  lemma CallLoggedWithDuration(start: int, seconds: nat, p: Project, user: Option<User>)
    ensures EndCall(StartCall(start), Some(p), user, start + seconds * 1000).1.Some?
    ensures EndCall(StartCall(start), Some(p), user, start + seconds * 1000).1.value.durationSeconds == seconds
  {
  }
}
