/** The shared call log (context/CallLogContext.tsx): newest entry first,
    mirrored to local storage after every change. */
module CallLog {
  import opened Wrappers
  import opened Types

  /** The log in memory and the copy under its storage key. */
  datatype LogStore = LogStore(logs: seq<CallLogEntry>, stored: Stored<seq<CallLogEntry>>)

  /** The entry built from caller-supplied details and a generated id. */
  function WithId(d: CallDetails, id: string): (e: CallLogEntry)
    ensures e.id == id
    ensures e.clientName == d.clientName && e.clientPhone == d.clientPhone
    ensures e.callerName == d.callerName
    ensures e.startTime == d.startTime && e.endTime == d.endTime
    ensures e.durationSeconds == d.durationSeconds && e.notes == d.notes
  {
    CallLogEntry(id, d.clientName, d.clientPhone, d.callerName, d.startTime, d.endTime,
      d.durationSeconds, d.notes)
  }

  /** Strips the id again. */
  function Details(e: CallLogEntry): CallDetails {
    CallDetails(e.clientName, e.clientPhone, e.callerName, e.startTime, e.endTime,
      e.durationSeconds, e.notes)
  }

  /** Attaching an id keeps every supplied field. */
  lemma DetailsRoundTrip(d: CallDetails, id: string)
    ensures Details(WithId(d, id)) == d
  {
  }

  /** Initial load: a stored list that parses replaces the empty list; a
      missing or unparsable value leaves it empty. */
  function Load(stored: Stored<seq<CallLogEntry>>): (s: LogStore)
    ensures s.stored == stored
    ensures stored.Parsed? ==> s.logs == stored.value
    ensures !stored.Parsed? ==> s.logs == []
  {
    match stored
    case Parsed(entries) => LogStore(entries, stored)
    case _ => LogStore([], stored)
  }

  /** `addLog`: the new entry goes first and the list is persisted. */
  function AddLog(s: LogStore, d: CallDetails, id: string): (r: LogStore)
    ensures |r.logs| == |s.logs| + 1
    ensures r.logs[0] == WithId(d, id)
    ensures r.logs[1..] == s.logs
    ensures r.stored == Parsed(r.logs)
  {
    var updated := [WithId(d, id)] + s.logs;
    LogStore(updated, Parsed(updated))
  }

  /** `clearLogs`: empty list, storage key removed. */
  function ClearLogs(s: LogStore): (r: LogStore)
    ensures r.logs == [] && r.stored == Missing
  {
    LogStore([], Missing)
  }

  /** What is persisted after an add is read back on the next load. */
  lemma AddLogSurvivesReload(s: LogStore, d: CallDetails, id: string)
    ensures Load(AddLog(s, d, id).stored).logs == AddLog(s, d, id).logs
  {
  }

  /** After clearing, a reload starts from an empty log. */
  lemma ClearLogsSurvivesReload(s: LogStore)
    ensures Load(ClearLogs(s).stored).logs == []
  {
  }

  /** Entries added one after another come out newest first. */
  lemma AddTwiceNewestFirst(s: LogStore, d1: CallDetails, id1: string, d2: CallDetails, id2: string)
    ensures AddLog(AddLog(s, d1, id1), d2, id2).logs == [WithId(d2, id2), WithId(d1, id1)] + s.logs
  {
  }
}
