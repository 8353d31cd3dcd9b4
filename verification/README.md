# ProjectFlow dashboard core in Dafny

This project models the logic inside a browser project-management dashboard
(ProjectFlow): the timeline and expiry engine of the Projects screen, the
client communication screen, the dashboard and admin figures, the call log
and session contexts, routing and navigation, and the local handling of
image data URLs around the generative-AI call. Everything is pure functions
over immutable datatypes. Timestamps are integer milliseconds, percentages
are `real`, and "now", generated ids, the user's answer to a confirmation
prompt and responses of external services are parameters.

Modules follow the source files:

| module | file | source |
|---|---|---|
| `Wrappers` | wrappers.dfy | `Option`, `Result` |
| `Text` | text.dfy | integer rendering (`toString`), `padStart`, parsers used in round trips |
| `Types` | types.dfy | types.ts |
| `Expiry` | expiry.dfy | components/Projects.tsx, `checkExpiry` and the expiring/overdue flags |
| `AlertScheduler` | alerts.dfy | components/Projects.tsx, `checkAndSendAlerts` |
| `Gantt` | gantt.dfy | components/Projects.tsx, `ganttData`, `getPosition`, `getWidth` |
| `ProjectImport` | import.dfy | components/Projects.tsx, spreadsheet row mapping |
| `ClientList` | clients.dfy | components/Communication.tsx, the client list |
| `CallTimer` | call_timer.dfy | components/Communication.tsx, the call modal and timer display |
| `Communication` | communication.dfy | components/Communication.tsx, templates and email |
| `DashboardStats` | dashboard.dfy | components/Dashboard.tsx |
| `AdminConsole` | admin.dfy | components/AdminDashboard.tsx |
| `CallLog` | call_log.dfy | context/CallLogContext.tsx |
| `Auth` | auth.dfy | context/AuthContext.tsx |
| `AppShell` | app.dfy | App.tsx |
| `Layout` | layout.dfy | components/Layout.tsx |
| `Gemini` | gemini.dfy | services/geminiService.ts |

Behaviour of the code that the model keeps as written:

- The alert pass tests each project against the set of alerted ids as it
  was at the start of the pass. The copy it grows is not consulted, so two
  list entries that share an id are both alerted in one pass. The id is
  recorded once the send resolves, with no retry policy.
- The set of alerted ids is state of the Projects screen
  (components/Projects.tsx:23), and App.tsx:64-78 renders that screen only
  while its tab is active. Switching to another tab and back starts again
  from the empty set, so every alert of the first pass is sent again on each
  return. The lemmas that chain passes hold within one mount of the screen;
  `AlertScheduler.RemountResendsAlerts` states the behaviour across mounts.
- The five-day pads do not make every non-empty timeline window positive. A
  project whose start lies ten days after its end gives a window of zero
  duration, and one further inverted gives a negative one
  (`Gantt.InvertedRangeCollapsesWindow`). Positions stay clamped to [0, 100].
  The guarantee of a positive span holds once some project has its start
  no later than its end (`Gantt.WindowSpansPads`).
- The status field holds text. types.ts declares a closed union, but the
  import copies any cell text into it. The dashboard's Pending slice
  therefore counts every other status string.
- The client list stays clickable while an email is being sent. A click
  on a client card sets the status back to idle, which re-enables the send
  button, so a second email can start while the first is in flight. The
  first send then marks the status sent and, two seconds later, clears the
  newly chosen client (`Communication.ClientClickDuringSendAllowsSecondSend`).
- The stored session is parsed without a guard in the auth context. An
  unparsable value is modelled as a failure of the restore step. The call
  log context catches the same error and starts empty.

## Model

| member | source | states |
|---|---|---|
| `Expiry.DaysLeft` | components/Projects.tsx:57-63 | days left is the ceiling of (end − now) / 86,400,000: (d−1)·day < end − now ≤ d·day |
| `Expiry.BarColourOf` | components/Projects.tsx:282-306 | the bar is red iff overdue, amber iff expiring, default otherwise; overdue takes precedence |
| `Expiry.ExpiringWindow` | components/Projects.tsx:194 | expiring (0 < days ≤ 15) iff now < end ≤ now + 15 days |
| `Expiry.OverdueWindow` | components/Projects.tsx:284 | overdue iff end ≤ now − 1 day and the status is not 'Completed' |
| `Expiry.ZeroDayBoundary` | components/Projects.tsx:57-63 | days left is 0 exactly when the deadline is less than a full day past or exactly now; such a project is neither expiring nor overdue |
| `Expiry.DaysLeftMonotone` | components/Projects.tsx:57-63 | a later deadline never has fewer days left |
| `Expiry.ExpiringExcludesOverdue` | components/Projects.tsx:283-284 | the expiring and overdue flags never hold together |
| `Expiry.ClassificationBoundaries` | components/Projects.tsx:57-63 | due now gives 0 (not expiring), 15 days out is expiring, 16 is not, a day ago gives −1 and is overdue unless completed, half a day out gives 1 |
| `AlertScheduler.Recipient` | components/Projects.tsx:76 | the alert goes to the manager email, or to 'manager@flow.com' when it is empty |
| `AlertScheduler.ShouldAlert` | components/Projects.tsx:71-74 | a project is alerted iff its deadline lies in (now, now + 15 days] and its id was not in the pass-start set |
| `AlertScheduler.AlertFor` | components/Projects.tsx:75-79 | the notice is about the given project and addressed to its recipient |
| `AlertScheduler.DueProjects` | components/Projects.tsx:70-74 | each project occurs among the alerted ones exactly as often as it is listed when it passes the test, and not at all otherwise |
| `AlertScheduler.DueProjectsMembers` | components/Projects.tsx:71-74 | a project is alerted iff it is listed, expiring and its id was not in the pass-start set |
| `AlertScheduler.AlertPass` | components/Projects.tsx:67-87 | a pass never sends more notices than there are projects and never forgets an alerted id |
| `AlertScheduler.CheckAndSendAlerts` | components/Projects.tsx:67-88 | the loop as written (pass-start test, growing copy, publish only when something was sent) computes exactly the reference pass |
| `AlertScheduler.PassAlertsExactlyDue` | components/Projects.tsx:70-82 | every notice is for a listed expiring project not alerted before, addressed to its recipient; every such project gets one; a project gets exactly as many notices as list entries, so a project listed once is emailed once in a pass |
| `AlertScheduler.SentSetGrowsByAlerted` | components/Projects.tsx:69-87 | the returned set contains the input set and is the input set plus exactly the ids of the alerted projects |
| `AlertScheduler.SecondPassSendsNothing` | components/Projects.tsx:66-91 | a second pass on the same projects and time with the returned set sends nothing and leaves the set unchanged |
| `AlertScheduler.RecordedNeverRealerted` | components/Projects.tsx:74 | within one mount of the screen (the returned set passed on to the next pass), an id recorded by a pass is never alerted by a later pass, at any later time or on any project list |
| `AlertScheduler.RepeatedPassesSendOnce` | components/Projects.tsx:66-91 | within one mount of the screen, any number of passes over an unchanged project list send exactly the notices of the first pass |
| `AlertScheduler.RemountResendsAlerts` | components/Projects.tsx:23 | an expiring project is recorded by the first pass of a mount and not alerted again while the screen stays mounted, but a remount starts from the empty set and alerts it again |
| `Gantt.MinStart` | components/Projects.tsx:101-103 | the earliest start: no project starts earlier and some project starts then |
| `Gantt.MaxEnd` | components/Projects.tsx:102-104 | the latest end: no project ends later and some project ends then |
| `Gantt.GanttWindow` | components/Projects.tsx:94-113 | empty list: window at now with duration 0; otherwise the window runs from the earliest start minus 5 days to the latest end plus 5 days; duration = end − start of the window |
| `Gantt.Clamp` | components/Projects.tsx:120 | the clamped value lies in [0, 100] and equals the input inside that range |
| `Gantt.Position` | components/Projects.tsx:115-121 | a position always lies in [0, 100] and is 0 on a window of duration 0 |
| `Gantt.Width` | components/Projects.tsx:123-127 | a width always lies in [1, 100]; it is end − start position when that is at least 1, and 1 otherwise |
| `Gantt.PositionMonotone` | components/Projects.tsx:115-121 | on a window of positive duration a later date is never placed further left |
| `Gantt.PositionAtEnds` | components/Projects.tsx:107-119 | on a window of positive duration its start is at 0 and its end at 100 |
| `Gantt.EmptyWindowPositions` | components/Projects.tsx:95-97 | with no projects the duration is 0 and every date is placed at 0 |
| `Gantt.WindowSpansPads` | components/Projects.tsx:103-110 | if one project starts no later than it ends, the duration is at least 10 days, hence positive |
| `Gantt.StartNotRightOfEnd` | components/Projects.tsx:280-281 | a listed project with start ≤ end never has its start placed right of its end |
| `Gantt.BarEndsAtDeadline` | components/Projects.tsx:123-127 | a bar at least 1% wide ends exactly at its end date's position |
| `Gantt.TwoProjectExample` | components/Projects.tsx:94-127 | days 0–10 and 5–30 give the window [−5, 35] days; the first bar starts at 12.5% and is 25% wide, the second is 62.5% wide |
| `Gantt.InvertedRangeCollapsesWindow` | components/Projects.tsx:101-110 | a single project starting ten days after its end yields a non-empty list with a window of duration 0 |
| `ProjectImport.TextOr` | components/Projects.tsx:40-46 | a text cell is used when present and non-empty, otherwise the default |
| `ProjectImport.MapRow` | components/Projects.tsx:38-49 | a mapped project always has a non-empty name, client and status, the generated id, and the row's start date or the import time |
| `ProjectImport.Import` | components/Projects.tsx:38-51 | the result is the existing projects unchanged and in order, followed by one mapped project per row, in row order |
| `ProjectImport.EmptyRowDefaults` | components/Projects.tsx:40-48 | missing cells default to 'Project i+1', 'Unknown Client', empty contacts, start now, end now + 30 days, 'Pending', progress 0 |
| `ProjectImport.FilledCellsKept` | components/Projects.tsx:38-48 | each non-empty text cell (name, client, email, phone, manager, status) and each present date and progress is copied unchanged, whatever the other cells hold; the id is built from the row index and the import time |
| `ProjectImport.MissingCellsDefault` | components/Projects.tsx:40-48 | each missing or empty cell takes its own fallback, whatever the other cells hold |
| `ProjectImport.ImportedStatusMayBeUnknown` | components/Projects.tsx:47 | a status cell such as 'Delayed' is taken as it is, outside the four declared statuses |
| `ProjectImport.FirstRowName` | components/Projects.tsx:40 | the first row's default name is 'Project 1' |
| `ProjectImport.DefaultEndIsThirtyDaysOut` | components/Projects.tsx:45 | a row without end date ends exactly 30 days after the import time, shows 30 days left and is not expiring |
| `ProjectImport.ImportIdsDistinct` | components/Projects.tsx:39 | ids generated for different row indices in one import differ |
| `ProjectImport.ImportedBatchIdsDistinct` | components/Projects.tsx:38-39 | all projects of one imported batch have pairwise distinct ids |
| `ClientList.FirstIndexOf` | components/Communication.tsx:42 | the index found is the first project with that client name; none is found only when no project has it |
| `ClientList.UniqueClients` | components/Communication.tsx:41-43 | the client list is never longer than the project list |
| `ClientList.UniqueClientsAreFirstOccurrences` | components/Communication.tsx:41-43 | each listed client is the first project with its name, the list is in order of first appearance, and every client name appears |
| `ClientList.UniqueClientNamesDistinct` | components/Communication.tsx:41 | no two listed clients share a name |
| `CallTimer.FormatTime` | components/Communication.tsx:94-98 | the display is at least five characters with the colon third from the end |
| `CallTimer.FormatTimeRoundTrip` | components/Communication.tsx:94-98 | reading the display back as minutes·60 + seconds (seconds two digits below 60) gives the input |
| `CallTimer.FormatTimeExample` | components/Communication.tsx:97 | 65 seconds display as "01:05" |
| `CallTimer.FormatTimeLongExample` | components/Communication.tsx:97 | padding never truncates: 6000 seconds display as "100:00" |
| `Communication.TemplateManagerNeedsAdmin` | components/Communication.tsx:147-218 | whatever a signed-out user or a member clicks, the template list and the manager flag never change |
| `Communication.MemberKeepsDefaultTemplates` | components/Communication.tsx:36 | from the opening state a non-admin always works with the four shipped templates |
| `Communication.AdminCreatesTemplate` | components/Communication.tsx:130-197 | an admin opens the manager, edits a complete draft and saves it: the template is appended with the new id and the manager closes |
| `Communication.Apply` | components/Communication.tsx:147-400 | an event by a non-admin leaves the templates and the manager flag alone; the manager entry opens the manager iff the user is an admin; selecting, sending and timers never touch the templates |
| `Communication.FindTemplate` | components/Communication.tsx:101 | the template found has the selected id and no earlier template has that id, as `find` returns; none is found only when no template has it |
| `Communication.RemoveTemplate` | components/Communication.tsx:125 | a template is kept iff it was there and its id differs |
| `Communication.RemoveTemplateAppend` | components/Communication.tsx:125 | removal distributes over concatenation, so the kept templates stay in order |
| `Communication.CreateTemplate` | components/Communication.tsx:130-145 | with an empty name, subject or body nothing changes; otherwise exactly one custom template is appended after the unchanged list, the draft is cleared and the manager closes |
| `Communication.DeleteTemplate` | components/Communication.tsx:122-128 | unconfirmed: nothing changes; confirmed: the list is the in-order filter of templates without that id; the selection is cleared only if it was that id; the manager stays open |
| `Communication.SelectTemplate` | components/Communication.tsx:350 | clicking a card selects its id |
| `Communication.SelectionStaysValid` | components/Communication.tsx:122-145 | selecting, creating and deleting keep the selection pointing at an existing template |
| `Communication.CreateKeepsIdsUnique` | components/Communication.tsx:133-142 | creating with a fresh id keeps template ids pairwise distinct |
| `Communication.StartSend` | components/Communication.tsx:100-112 | an email is sent iff a project and a matching template are selected; it goes to the client email or 'client@example.com', with the template's subject and body, from the user's email; status becomes sending |
| `Communication.FinishSend` | components/Communication.tsx:113 | from any status the status becomes sent, the send button is disabled, and the selection and templates are kept |
| `Communication.ResetAfterSent` | components/Communication.tsx:114-118 | from any state the timer returns to idle with no template and no project selected, and the button disabled |
| `Communication.SelectClient` | components/Communication.tsx:251 | a client click selects that client and sets the status to idle, so the button is enabled iff a template is selected |
| `Communication.SendEnabled` | components/Communication.tsx:398-400 | the send button is enabled iff a template is selected and the status is idle |
| `Communication.EmailStatusCycle` | components/Communication.tsx:100-118 | a send starts only from idle and, without other clicks, goes sending, sent, idle with the button disabled at each step |
| `Communication.ClientClickDuringSendAllowsSecondSend` | components/Communication.tsx:100-118 | a client click during a send re-enables the button, a second email to that client can start, the first completion reports sent and its reset clears the new client |
| `Communication.FindProject` | components/Communication.tsx:48 | the project found has the id and no earlier project has it; none is found only when no project has it |
| `Communication.DeepLink` | components/Communication.tsx:46-53 | no id, an empty id or an id naming no listed project leaves the screen unchanged; otherwise the selection becomes the first listed project with that id; templates, status and template selection are kept |
| `Communication.DeepLinkSelectsListedProject` | components/Communication.tsx:46-53 | opening with the id of a listed project selects the first project with that id |
| `CallTimer.RoundSeconds` | components/Communication.tsx:75 | `Math.round(ms / 1000)`: the nearest whole second, halves rounded up |
| `CallTimer.StartCall` | components/Communication.tsx:55-58 | starting a call records the start time, opens the modal and zeroes the timer |
| `CallTimer.EndCall` | components/Communication.tsx:66-91 | a log entry is produced iff a call was running and a project is selected, with the project's client, the caller's name or 'Unknown User', the rounded duration and the fixed note; the call state is reset either way |
| `CallTimer.CallLoggedWithDuration` | components/Communication.tsx:72-83 | a call of n whole seconds with a project selected is logged with duration n |
| `DashboardStats.CountStatus` | components/Dashboard.tsx:14-16 | a tally is the number of occurrences of that status among the projects' statuses; at most the total, and 0 iff no project has it |
| `DashboardStats.TalliesPartition` | components/Dashboard.tsx:14-23 | the three tallies and the count of all other statuses add up to the total |
| `DashboardStats.PendingCountsOthers` | components/Dashboard.tsx:23 | the Pending slice counts every other status string and is never negative |
| `DashboardStats.KeepPositive` | components/Dashboard.tsx:24 | a slice is kept iff it is in the list and its value is positive |
| `DashboardStats.KeepPositiveAppend` | components/Dashboard.tsx:24 | filtering distributes over concatenation, so kept slices stay in their order |
| `DashboardStats.KeepPositiveKeepsOrder` | components/Dashboard.tsx:24 | filtering a list in the fixed slice order leaves it in that order |
| `DashboardStats.ChartData` | components/Dashboard.tsx:19-24 | at most four slices, each one of the four candidates with a positive value |
| `DashboardStats.ChartDataSumsToTotal` | components/Dashboard.tsx:19-24 | chart slices are all positive, every positive slice is kept, they appear in the order Completed, On Track, At Risk, Pending, their values sum to the total, and a non-empty list gives a non-empty chart |
| `DashboardStats.ActiveClientsMatchClientList` | components/Dashboard.tsx:74 | the active-client count equals the length of the communication client list and is at most the total |
| `DashboardStats.RecentActivity` | components/Dashboard.tsx:109 | recent activity lists the first min(5, total) projects in list order |
| `AdminConsole.FloorMinutes` | components/AdminDashboard.tsx:44 | minutes are the floor of seconds / 60 |
| `AdminConsole.JsRemainder60` | components/AdminDashboard.tsx:45 | the seconds field has the sign of the input and lies strictly between −60 and 60 |
| `AdminConsole.FormatDuration` | components/AdminDashboard.tsx:43-46 | the text has a minutes part marked 'm' and ends in 's' (its value is fixed by the round trip below) |
| `AdminConsole.FormatDurationRoundTrip` | components/AdminDashboard.tsx:43-46 | for n ≥ 0 the seconds field is below 60, minutes·60 + seconds = n, and reading "Xm Ys" back gives n |
| `AdminConsole.FormatDurationExample` | components/AdminDashboard.tsx:46 | 65 renders as "1m 5s", without zero padding |
| `AdminConsole.FormatDurationNegative` | components/AdminDashboard.tsx:43-46 | −5 renders as "-1m -5s", whose fields add up to −65 |
| `AdminConsole.TotalProjects` | components/AdminDashboard.tsx:28 | the console's project total equals the dashboard's |
| `CallLog.WithId` | context/CallLogContext.tsx:28-31 | the new entry carries every caller-supplied field and the generated id |
| `CallLog.DetailsRoundTrip` | context/CallLogContext.tsx:28-31 | removing the id again gives back exactly the supplied details |
| `CallLog.Load` | context/CallLogContext.tsx:17-23 | a parsable stored list is loaded; a missing or unparsable one leaves the list empty |
| `CallLog.AddLog` | context/CallLogContext.tsx:27-36 | the new entry comes first, the length grows by one, the old entries follow unchanged, and the persisted copy equals the new list |
| `CallLog.ClearLogs` | context/CallLogContext.tsx:38-41 | the list is empty and the stored copy is removed |
| `CallLog.AddLogSurvivesReload` | context/CallLogContext.tsx:17-35 | loading what an add persisted gives the list after the add |
| `CallLog.ClearLogsSurvivesReload` | context/CallLogContext.tsx:17-40 | loading after a clear gives an empty list |
| `CallLog.AddTwiceNewestFirst` | context/CallLogContext.tsx:33 | two adds leave the newer entry first, then the older, then the previous list |
| `Auth.Restore` | context/AuthContext.tsx:17-24 | a stored user is restored, no stored user leaves none; loading ends in both cases; an unparsable session fails |
| `Auth.Login` | context/AuthContext.tsx:26-58 | login succeeds iff the pair is admin@flow.com/admin123 or user@flow.com/user123, setting 'admin-1' with role admin or 'user-1' with role user and persisting exactly that user; otherwise nothing changes |
| `Auth.Logout` | context/AuthContext.tsx:60-63 | logout leaves no user and no stored session |
| `Auth.WrongPasswordRefused` | context/AuthContext.tsx:53-55 | a known email with a wrong password is refused |
| `Auth.LoginSurvivesReload` | context/AuthContext.tsx:17-51 | after a successful login a reload restores exactly the logged-in user |
| `Auth.LogoutSurvivesReload` | context/AuthContext.tsx:17-63 | after logout a reload starts signed out |
| `AppShell.HandleNavigate` | App.tsx:48-53 | the tab always changes; the selected project changes only for a non-empty id and is kept otherwise |
| `AppShell.RenderScreen` | App.tsx:55-78 | loading shows the loading screen, no user shows login, the admin console is shown iff the user is an admin on the admin tab, and a non-admin on that tab gets the dashboard |
| `AppShell.StartsOnDashboard` | App.tsx:44-46 | a signed-in user starts on the dashboard with no project selected |
| `AppShell.NavigateToProjectOpensIt` | App.tsx:48-73 | navigating to communication with a project id opens that screen on that project |
| `AppShell.NavigateKeepsSelection` | App.tsx:50-52 | navigating with no id or an empty id keeps the previously selected project |
| `AppShell.MockDataAlerts` | App.tsx:15-40 | in the demo data project '2' has 5 days left and project '1' 20; the first pass alerts exactly '2', to pm@flow.com |
| `Layout.NavItems` | components/Layout.tsx:28-37 | the non-admin menu is Dashboard, Projects, Communication, Image Studio; an admin gets the admin console in front of that same list; the admin entry appears iff the user is an admin; ids are pairwise distinct |
| `Layout.ClickItem` | components/Layout.tsx:52-55 | a click reports the entry's tab and closes the mobile menu |
| `Layout.MenuEntriesReachTheirScreens` | components/Layout.tsx:28-37 | for a signed-in user, a menu entry leads to the dashboard screen iff it is the Dashboard entry |
| `Gemini.SubtypeRun` | services/geminiService.ts:50 | the run is the longest prefix of `[a-zA-Z+]` characters |
| `Gemini.MatchDataUrl` | services/geminiService.ts:50 | a match captures an `image/<subtype>` mime type, and the input is exactly "data:" + mime + ";base64," + rest |
| `Gemini.MimeTypeOf` | services/geminiService.ts:50-51 | the mime type is the captured one, or "image/png" when the pattern does not match |
| `Gemini.CleanBase64` | services/geminiService.ts:54 | without a match the input is unchanged; with one, exactly the matched prefix is removed once |
| `Gemini.StrippedIffMatched` | services/geminiService.ts:50-54 | the input is changed by stripping iff a mime type was read from it |
| `Gemini.DataUrlRoundTrip` | services/geminiService.ts:50-54 | assembling "data:" + mime + ";base64," + data for a valid mime and matching it gives back (mime, data) |
| `Gemini.FirstImage` | services/geminiService.ts:79-85 | the result is the data URL of the first part with non-empty inline data, and there is none iff no part has such data |
| `Gemini.ImageUrl` | services/geminiService.ts:82 | the URL starts with 'data:' and ends with the part's data |
| `Gemini.EditedImage` | services/geminiService.ts:77-87 | no parts gives no image; otherwise the first image part decides |
| `Gemini.ReturnedImageParses` | services/geminiService.ts:82 | a returned image URL matches the input pattern again and yields the returned data |
| `Gemini.BuildEditRequest` | services/geminiService.ts:3-70 | a missing or empty API key fails with its message before any request; otherwise the request carries the extracted mime type and stripped data |
| `Gemini.UploadSentAsIs` | services/geminiService.ts:49-65 | an uploaded data URL is sent with its own mime type and bare payload |
| `Types.TabValuesDistinct` | types.ts:41-47 | the five tabs have five distinct string values |
| `Types.RoleNamesDistinct` | types.ts:49 | the two roles have distinct names |

## Left out

- Reading the workbook (FileReader, XLSX) and date-string parsing: a row arrives as optional cells, with dates already as milliseconds.
- Cell truthiness beyond missing or empty text: a numeric 0 date cell and non-text cells in text columns are not modelled.
- The email transport and the alert body text, which holds a locale-formatted date and the progress number. A notice carries the recipient, the subject and the project.
- Overlapping asynchronous alert passes and React's effect re-runs: one pass is atomic and sequential.
- Timers (`setInterval` call timer, `setTimeout` reset and login delay): the reset is its own step, `ResetAfterSent`.
- `Communication.Run`: the send's completion and the reset timer are events that may occur anywhere in a sequence. Their real timing (the transport's latency, two seconds) is not modelled.
- Local storage and JSON: storage is a `Stored` value, either missing, corrupt or parsed.
- The stale-closure behaviour of `addLog`, which reads the log list of the render that created it.
- The clock being read separately for each project, id and default date: one "now" is passed in.
- Id generation from `Date.now()` and `Math.random()`: ids are parameters, except import ids, which are built from the row index and the passed time.
- `window.confirm`: a boolean input.
- JSX rendering, styling and `toLocaleDateString`.
- Daylight-saving effects of `setDate(±5)`: the pad is 5 × 86,400,000 ms.
- `Expiry.DaysLeft`: the double-precision quotient is taken as exact. Rounding could differ only for distances of about 137,000 years.
- The network calls to the generative-AI service, `chatWithGemini`, and the chat, image studio and login screens.
- `App.tsx:76-77`: the default branch of the tab switch. `AppTab` is a closed datatype here, so no tab value reaches it.
- `CallTimer.FormatTime`: takes a natural number, because the timer only counts up from 0.
