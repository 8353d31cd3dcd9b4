/** Spreadsheet import of components/Projects.tsx: each parsed row becomes a
    project with defaults for missing cells, and the batch is appended after
    the existing projects. Reading the workbook is not modelled: a row arrives
    as optional cell values, dates already as milliseconds. */
module ProjectImport {
  import opened Wrappers
  import opened Text
  import opened Types
  import Expiry

  /** The cells of one sheet row under the recognised column headers. */
  datatype Row = Row(
    projectName: Option<string>,
    clientName: Option<string>,
    clientEmail: Option<string>,
    clientPhone: Option<string>,
    startDate: Option<int>,
    endDate: Option<int>,
    managerEmail: Option<string>,
    status: Option<string>,
    progress: Option<real>)

  const EmptyRow: Row := Row(None, None, None, None, None, None, None, None, None)

  /** `cell || fallback` for a text cell: missing and empty both fall back. */
  function TextOr(cell: Option<string>, fallback: string): (s: string)
    ensures cell.Some? && cell.value != "" ==> s == cell.value
    ensures cell.None? || cell.value == "" ==> s == fallback
  {
    if cell.Some? && cell.value != "" then cell.value else fallback
  }

  /** `prj-<index>-<timestamp>`. */
  function ImportId(index: nat, stamp: int): string {
    "prj-" + NatToString(index) + "-" + IntToString(stamp)
  }

  /** The project built from the row at position `index`. */
  function MapRow(row: Row, index: nat, now: int): (p: Project)
    ensures p.id == ImportId(index, now)
    ensures p.projectName != "" && p.clientName != "" && p.status != ""
    ensures p.startDate == now || row.startDate == Some(p.startDate)
  {
    Project(
      ImportId(index, now),
      TextOr(row.projectName, "Project " + NatToString(index + 1)),
      TextOr(row.clientName, "Unknown Client"),
      TextOr(row.clientEmail, ""),
      TextOr(row.clientPhone, ""),
      row.startDate.GetOr(now),
      row.endDate.GetOr(now + 30 * DayMs),
      TextOr(row.managerEmail, ""),
      TextOr(row.status, Pending),
      row.progress.GetOr(0.0))
  }

  /** The new project list after importing `rows` at time `now`. */
  function Import(existing: seq<Project>, rows: seq<Row>, now: int): (r: seq<Project>)
    ensures |r| == |existing| + |rows|
    ensures r[..|existing|] == existing
    ensures forall i | 0 <= i < |rows| :: r[|existing| + i] == MapRow(rows[i], i, now)
  {
    existing + seq(|rows|, i requires 0 <= i < |rows| => MapRow(rows[i], i, now))
  }

  /** An all-empty row yields the fallbacks of the row mapping. */
  lemma EmptyRowDefaults(index: nat, now: int)
    ensures MapRow(EmptyRow, index, now).projectName == "Project " + NatToString(index + 1)
    ensures MapRow(EmptyRow, index, now).clientName == "Unknown Client"
    ensures MapRow(EmptyRow, index, now).clientEmail == ""
    ensures MapRow(EmptyRow, index, now).clientPhone == ""
    ensures MapRow(EmptyRow, index, now).managerEmail == ""
    ensures MapRow(EmptyRow, index, now).startDate == now
    ensures MapRow(EmptyRow, index, now).endDate == now + 30 * DayMs
    ensures MapRow(EmptyRow, index, now).status == Pending
    ensures MapRow(EmptyRow, index, now).progress == 0.0
  {
  }

  /** Every non-empty cell is copied unchanged, whatever the other cells
      hold; in particular any status text is accepted as it is. */
  lemma FilledCellsKept(row: Row, index: nat, now: int)
    ensures row.projectName.Some? && row.projectName.value != "" ==>
      MapRow(row, index, now).projectName == row.projectName.value
    ensures row.clientName.Some? && row.clientName.value != "" ==>
      MapRow(row, index, now).clientName == row.clientName.value
    ensures row.clientEmail.Some? && row.clientEmail.value != "" ==>
      MapRow(row, index, now).clientEmail == row.clientEmail.value
    ensures row.clientPhone.Some? && row.clientPhone.value != "" ==>
      MapRow(row, index, now).clientPhone == row.clientPhone.value
    ensures row.managerEmail.Some? && row.managerEmail.value != "" ==>
      MapRow(row, index, now).managerEmail == row.managerEmail.value
    ensures row.status.Some? && row.status.value != "" ==> MapRow(row, index, now).status == row.status.value
    ensures row.startDate.Some? ==> MapRow(row, index, now).startDate == row.startDate.value
    ensures row.endDate.Some? ==> MapRow(row, index, now).endDate == row.endDate.value
    ensures row.progress.Some? ==> MapRow(row, index, now).progress == row.progress.value
    ensures MapRow(row, index, now).id == ImportId(index, now)
  {
  }

  /** The status cell is not checked against the declared union: any
      non-empty text, such as "Delayed", becomes the project's status. */
  lemma ImportedStatusMayBeUnknown(index: nat, now: int)
    ensures MapRow(EmptyRow.(status := Some("Delayed")), index, now).status == "Delayed"
    ensures !KnownStatus(MapRow(EmptyRow.(status := Some("Delayed")), index, now).status)
  {
  }

  /** Every missing or empty cell takes its fallback, whatever the other
      cells hold. */
  lemma MissingCellsDefault(row: Row, index: nat, now: int)
    ensures row.projectName.None? || row.projectName.value == "" ==>
      MapRow(row, index, now).projectName == "Project " + NatToString(index + 1)
    ensures row.clientName.None? || row.clientName.value == "" ==>
      MapRow(row, index, now).clientName == "Unknown Client"
    ensures row.clientEmail.None? || row.clientEmail.value == "" ==> MapRow(row, index, now).clientEmail == ""
    ensures row.clientPhone.None? || row.clientPhone.value == "" ==> MapRow(row, index, now).clientPhone == ""
    ensures row.managerEmail.None? || row.managerEmail.value == "" ==> MapRow(row, index, now).managerEmail == ""
    ensures row.status.None? || row.status.value == "" ==> MapRow(row, index, now).status == Pending
    ensures row.startDate.None? ==> MapRow(row, index, now).startDate == now
    ensures row.endDate.None? ==> MapRow(row, index, now).endDate == now + 30 * DayMs
    ensures row.progress.None? ==> MapRow(row, index, now).progress == 0.0
  {
  }

  /** The first row falls back to the name "Project 1". */
  lemma FirstRowName(now: int)
    ensures MapRow(EmptyRow, 0, now).projectName == "Project 1"
  {
    assert NatToString(1) == "1";
  }

  /** A row imported without an end date is due in 30 days: it shows 30 days
      left and is not yet expiring, so the alert pass skips it. */
  lemma DefaultEndIsThirtyDaysOut(row: Row, index: nat, now: int)
    requires row.endDate.None?
    ensures MapRow(row, index, now).endDate - now == 30 * DayMs
    ensures Expiry.DaysLeft(MapRow(row, index, now).endDate, now) == 30
    ensures !Expiry.ProjectExpiring(MapRow(row, index, now), now)
  {
    var p := MapRow(row, index, now);
    Expiry.ExpiringWindow(p.endDate, now);
    var d := Expiry.DaysLeft(p.endDate, now);
    assert (d - 1) * DayMs < 30 * DayMs <= d * DayMs;
  }

  /** A digit string followed by a dash is recovered from the whole text. */
  lemma DigitsBeforeDash(a: string, b: string, x: string, y: string)
    requires AllDigits(a) && AllDigits(b)
    requires |x| > 0 && x[0] == '-' && |y| > 0 && y[0] == '-'
    requires a + x == b + y
    ensures a == b
  {
    var n := if |a| < |b| then |a| else |b|;
    assert (a + x)[n] == (b + y)[n];
    assert |a| == |b|;
    assert a == (a + x)[..|a|];
    assert b == (b + y)[..|b|];
  }

  /** Regrouping a four-part concatenation. */
  lemma ConcatAssoc3(p: string, a: string, d: string, s: string)
    ensures p + a + d + s == p + (a + (d + s))
  {
  }

  /** Ids generated for one batch are pairwise distinct. */
  lemma ImportIdsDistinct(i: nat, j: nat, stamp: int)
    requires i != j
    ensures ImportId(i, stamp) != ImportId(j, stamp)
  {
    var a := NatToString(i);
    var b := NatToString(j);
    var t := "-" + IntToString(stamp);
    ConcatAssoc3("prj-", a, "-", IntToString(stamp));
    ConcatAssoc3("prj-", b, "-", IntToString(stamp));
    if ImportId(i, stamp) == ImportId(j, stamp) {
      assert a + t == ImportId(i, stamp)[4..];
      assert b + t == ImportId(j, stamp)[4..];
      DigitsBeforeDash(a, b, t, t);
      NatToStringInjective(i, j);
    }
  }

  /** The id of an imported project comes from its row index. */
  lemma ImportedId(existing: seq<Project>, rows: seq<Row>, now: int, i: nat)
    requires |existing| <= i < |existing| + |rows|
    ensures Import(existing, rows, now)[i].id == ImportId(i - |existing|, now)
  {
    assert Import(existing, rows, now)[i] == MapRow(rows[i - |existing|], i - |existing|, now);
  }

  /** Two imported projects at different positions have different ids. */
  lemma ImportedIdsDiffer(existing: seq<Project>, rows: seq<Row>, now: int, i: nat, j: nat)
    requires |existing| <= i < j < |existing| + |rows|
    ensures Import(existing, rows, now)[i].id != Import(existing, rows, now)[j].id
  {
    ImportedId(existing, rows, now, i);
    ImportedId(existing, rows, now, j);
    ImportIdsDistinct(i - |existing|, j - |existing|, now);
  }

  /** Every project of one imported batch has its own id. */
  lemma ImportedBatchIdsDistinct(existing: seq<Project>, rows: seq<Row>, now: int)
    ensures forall i, j | |existing| <= i < j < |existing| + |rows| ::
      Import(existing, rows, now)[i].id != Import(existing, rows, now)[j].id
  {
    var r := Import(existing, rows, now);
    forall i, j | |existing| <= i < j < |existing| + |rows|
      ensures r[i].id != r[j].id
    {
      ImportedIdsDiffer(existing, rows, now, i, j);
    }
  }
}
