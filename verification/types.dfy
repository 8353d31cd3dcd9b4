/** The application's records (types.ts), with ISO date strings replaced by
    integer milliseconds since the epoch and optional fields as `Option`. */
module Types {
  import opened Wrappers

  /** Milliseconds in one day: 1000 * 60 * 60 * 24. */
  const DayMs: int := 86_400_000

  /** Project status labels of the closed union in types.ts. */
  const OnTrack: string := "On Track"
  const AtRisk: string := "At Risk"
  const Completed: string := "Completed"
  const Pending: string := "Pending"

  /** The status field carries text: the union is declared closed, but the
      spreadsheet import copies any cell value into it unchecked. */
  predicate KnownStatus(s: string) {
    s == OnTrack || s == AtRisk || s == Completed || s == Pending
  }

  datatype Project = Project(
    id: string,
    projectName: string,
    clientName: string,
    clientEmail: string,
    clientPhone: string,
    startDate: int,
    endDate: int,
    managerEmail: string,
    status: string,
    progress: real)

  datatype EmailTemplate = EmailTemplate(
    id: string,
    name: string,
    thumbnail: Option<string>,
    subject: string,
    body: string,
    isCustom: Option<bool>)

  /** A call log entry before an id is attached (`Omit<CallLogEntry, 'id'>`). */
  datatype CallDetails = CallDetails(
    clientName: string,
    clientPhone: string,
    callerName: string,
    startTime: int,
    endTime: int,
    durationSeconds: int,
    notes: Option<string>)

  datatype CallLogEntry = CallLogEntry(
    id: string,
    clientName: string,
    clientPhone: string,
    callerName: string,
    startTime: int,
    endTime: int,
    durationSeconds: int,
    notes: Option<string>)

  datatype AppTab = DashboardTab | ProjectsTab | CommunicationTab | ImageStudioTab | AdminDashboardTab

  /** The string value behind each enum member. */
  function TabValue(t: AppTab): string {
    match t
    case DashboardTab => "dashboard"
    case ProjectsTab => "projects"
    case CommunicationTab => "communication"
    case ImageStudioTab => "image_studio"
    case AdminDashboardTab => "admin_dashboard"
  }

  datatype UserRole = Admin | Member

  /** The string value of each role: 'admin' or 'user'. */
  function RoleName(r: UserRole): string {
    match r
    case Admin => "admin"
    case Member => "user"
  }

  datatype User = User(id: string, name: string, email: string, role: UserRole, avatar: Option<string>)

  /** A value kept in browser local storage under one key, as seen when read
      back: no entry, an entry that does not parse, or a parsed value. */
  datatype Stored<T> = Missing | Corrupt | Parsed(value: T)

  /** The five tabs carry five different string values. */
  lemma TabValuesDistinct(a: AppTab, b: AppTab)
    ensures TabValue(a) == TabValue(b) <==> a == b
  {
  }

  lemma RoleNamesDistinct(a: UserRole, b: UserRole)
    ensures RoleName(a) == RoleName(b) <==> a == b
  {
  }
}
