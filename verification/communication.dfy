/** Template management and email sending on the communication screen
    (components/Communication.tsx). Generated ids are parameters; the
    `window.confirm` answer is a boolean input. */
module Communication {
  import opened Wrappers
  import opened Types

  // -------------------------------------------------------------- templates

  /** The templates shipped with the screen. */
  const DefaultTemplates: seq<EmailTemplate> := [
    EmailTemplate("t1", "Project Update", Some("bg-blue-50"), "Weekly Project Update",
      "Dear Client, Here is the latest progress on your project...", None),
    EmailTemplate("t2", "Invoice Due", Some("bg-green-50"), "Invoice Payment Reminder",
      "Dear Client, This is a friendly reminder regarding the invoice...", None),
    EmailTemplate("t3", "Completion", Some("bg-purple-50"), "Project Completion Notice",
      "We are happy to announce that your project has been completed!", None),
    EmailTemplate("t4", "Meeting Request", Some("bg-orange-50"), "Request for Sync Meeting",
      "Would you be available for a quick sync later this week?", None)
  ]

  datatype TemplateDraft = TemplateDraft(name: string, subject: string, body: string)

  const EmptyDraft: TemplateDraft := TemplateDraft("", "", "")

  datatype EmailStatus = Idle | Sending | Sent

  /** The screen's state. */
  datatype Composer = Composer(
    templates: seq<EmailTemplate>,
    selectedTemplate: Option<string>,
    selectedProject: Option<Project>,
    status: EmailStatus,
    managingTemplates: bool,
    draft: TemplateDraft)

  const InitialComposer: Composer := Composer(DefaultTemplates, None, None, Idle, false, EmptyDraft)

  /** The template manager replaces the screen only while managing and only
      for an admin. */
  predicate ShowsTemplateManager(c: Composer, user: Option<User>) {
    c.managingTemplates && IsAdmin(user)
  }

  predicate IsAdmin(user: Option<User>) {
    user.Some? && user.value.role == Admin
  }

  /** First template with the selected id (`templates.find`). */
  function FindTemplate(ts: seq<EmailTemplate>, selected: Option<string>): (r: Option<EmailTemplate>)
    ensures r.Some? ==> selected == Some(r.value.id) && exists k | 0 <= k < |ts| ::
      ts[k] == r.value && forall j | 0 <= j < k :: ts[j].id != r.value.id
    ensures r.None? ==> selected.None? || forall t | t in ts :: t.id != selected.value
    decreases |ts|
  {
    if selected.None? || |ts| == 0 then None
    else if ts[0].id == selected.value then Some(ts[0])
    else
      var r := FindTemplate(ts[1..], selected);
      assert forall k | 1 <= k < |ts| :: ts[k] == ts[1..][k - 1];
      r
  }

  /** Templates other than those with id `id`, in their order. */
  function RemoveTemplate(ts: seq<EmailTemplate>, id: string): (r: seq<EmailTemplate>)
    ensures forall t :: t in r <==> t in ts && t.id != id
    ensures |r| <= |ts|
    decreases |ts|
  {
    if |ts| == 0 then []
    else (if ts[0].id == id then [] else [ts[0]]) + RemoveTemplate(ts[1..], id)
  }

  /** Removal works piecewise, so the kept templates stay in order. */
  lemma {:induction false} RemoveTemplateAppend(a: seq<EmailTemplate>, b: seq<EmailTemplate>, id: string)
    ensures RemoveTemplate(a + b, id) == RemoveTemplate(a, id) + RemoveTemplate(b, id)
    decreases |a|
  {
    if |a| > 0 {
      var head := if a[0].id == id then [] else [a[0]];
      assert (a + b)[0] == a[0];
      assert (a + b)[1..] == a[1..] + b;
      assert RemoveTemplate(a + b, id) == head + RemoveTemplate(a[1..] + b, id);
      assert RemoveTemplate(a, id) == head + RemoveTemplate(a[1..], id);
      RemoveTemplateAppend(a[1..], b, id);
      assert head + (RemoveTemplate(a[1..], id) + RemoveTemplate(b, id))
        == (head + RemoveTemplate(a[1..], id)) + RemoveTemplate(b, id);
    } else {
      assert a + b == b;
    }
  }

  /** `handleCreateTemplate` with a generated `id`. */
  function CreateTemplate(c: Composer, id: string): (r: Composer)
    ensures c.draft.name == "" || c.draft.subject == "" || c.draft.body == "" ==> r == c
    ensures c.draft.name != "" && c.draft.subject != "" && c.draft.body != "" ==>
      && |r.templates| == |c.templates| + 1
      && r.templates[..|c.templates|] == c.templates
      && r.templates[|c.templates|] ==
           EmailTemplate(id, c.draft.name, Some("bg-indigo-50"), c.draft.subject, c.draft.body, Some(true))
      && r.draft == EmptyDraft && !r.managingTemplates
      && r.selectedTemplate == c.selectedTemplate && r.selectedProject == c.selectedProject
      && r.status == c.status
  {
    if c.draft.name == "" || c.draft.subject == "" || c.draft.body == "" then c
    else
      var t := EmailTemplate(id, c.draft.name, Some("bg-indigo-50"), c.draft.subject, c.draft.body, Some(true));
      c.(templates := c.templates + [t], draft := EmptyDraft, managingTemplates := false)
  }

  /** `handleDeleteTemplate`; `confirmed` is the answer to the confirmation prompt. */
  function DeleteTemplate(c: Composer, id: string, confirmed: bool): (r: Composer)
    ensures !confirmed ==> r == c
    ensures confirmed ==> forall t :: t in r.templates <==> t in c.templates && t.id != id
    ensures confirmed ==> r.templates == RemoveTemplate(c.templates, id)
    ensures confirmed && c.selectedTemplate == Some(id) ==> r.selectedTemplate.None?
    ensures confirmed && c.selectedTemplate != Some(id) ==> r.selectedTemplate == c.selectedTemplate
    ensures r.selectedProject == c.selectedProject && r.status == c.status && r.draft == c.draft
    ensures r.managingTemplates == c.managingTemplates
  {
    if !confirmed then c
    else
      c.(templates := RemoveTemplate(c.templates, id),
         selectedTemplate := if c.selectedTemplate == Some(id) then None else c.selectedTemplate)
  }

  /** Clicking the `k`-th template card selects it. */
  function SelectTemplate(c: Composer, k: nat): (r: Composer)
    requires k < |c.templates|
    ensures r.selectedTemplate == Some(c.templates[k].id)
    ensures r.templates == c.templates
  {
    c.(selectedTemplate := Some(c.templates[k].id))
  }

  /** The selection, when present, names an existing template. */
  predicate SelectionValid(c: Composer) {
    c.selectedTemplate.Some? ==> exists t | t in c.templates :: t.id == c.selectedTemplate.value
  }

  /** Selecting, creating and deleting templates keep the selection valid. */
  lemma SelectionStaysValid(c: Composer, id: string, confirmed: bool, k: nat)
    requires SelectionValid(c)
    ensures SelectionValid(CreateTemplate(c, id))
    ensures SelectionValid(DeleteTemplate(c, id, confirmed))
    ensures k < |c.templates| ==> SelectionValid(SelectTemplate(c, k))
  {
    var r := CreateTemplate(c, id);
    if r != c && c.selectedTemplate.Some? {
      var t :| t in c.templates && t.id == c.selectedTemplate.value;
      assert t in r.templates[..|c.templates|];
    }
    if k < |c.templates| {
      assert c.templates[k] in c.templates;
    }
  }

  /** Creating a template with a fresh id keeps template ids unique. */
  lemma CreateKeepsIdsUnique(c: Composer, id: string)
    requires forall i, j | 0 <= i < j < |c.templates| :: c.templates[i].id != c.templates[j].id
    requires forall t | t in c.templates :: t.id != id
    ensures forall i, j | 0 <= i < j < |CreateTemplate(c, id).templates| ::
      CreateTemplate(c, id).templates[i].id != CreateTemplate(c, id).templates[j].id
  {
    var r := CreateTemplate(c, id);
    if r != c {
      forall i, j | 0 <= i < j < |r.templates| ensures r.templates[i].id != r.templates[j].id {
        if j == |c.templates| {
          assert r.templates[i] == c.templates[i];
          assert c.templates[i] in c.templates;
        } else {
          assert r.templates[i] == c.templates[i];
          assert r.templates[j] == c.templates[j];
        }
      }
    }
  }

  // ------------------------------------------------------------------ email

  /** A message handed to the email transport. */
  datatype Email = Email(to: string, subject: string, body: string, from: Option<string>)

  /** Recipient used when the client has no email address. */
  const FallbackClient: string := "client@example.com"

  /** The send button is enabled only with a template selected and while idle. */
  predicate SendEnabled(c: Composer): (b: bool)
    ensures b <==> c.selectedTemplate.Some? && c.status == Idle
  {
    !(c.selectedTemplate.None? || c.status == Sending || c.status == Sent)
  }

  /** Start of `handleSendEmail`: with a project and a found template the
      status becomes `Sending` and one email goes out; otherwise nothing. */
  function StartSend(c: Composer, user: Option<User>): (r: (Composer, Option<Email>))
    ensures r.1.Some? <==> c.selectedProject.Some? && FindTemplate(c.templates, c.selectedTemplate).Some?
    ensures r.1.None? ==> r.0 == c
    ensures r.1.Some? ==>
      var t := FindTemplate(c.templates, c.selectedTemplate).value;
      var p := c.selectedProject.value;
      && r.0 == c.(status := Sending)
      && r.1.value.to == (if p.clientEmail != "" then p.clientEmail else FallbackClient)
      && r.1.value.subject == t.subject && r.1.value.body == t.body
      && r.1.value.from == (if user.Some? then Some(user.value.email) else None)
  {
    var template := FindTemplate(c.templates, c.selectedTemplate);
    if c.selectedProject.Some? && template.Some? then
      var p := c.selectedProject.value;
      var to := if p.clientEmail != "" then p.clientEmail else FallbackClient;
      var from := if user.Some? then Some(user.value.email) else None;
      (c.(status := Sending), Some(Email(to, template.value.subject, template.value.body, from)))
    else (c, None)
  }

  /** The transport resolved: the status becomes `Sent`, whatever it was by
      then (a client click may have reset it meanwhile). */
  function FinishSend(c: Composer): (r: Composer)
    ensures r.status == Sent && !SendEnabled(r)
    ensures r.templates == c.templates && r.selectedTemplate == c.selectedTemplate
    ensures r.selectedProject == c.selectedProject
    ensures r.managingTemplates == c.managingTemplates && r.draft == c.draft
  {
    c.(status := Sent)
  }

  /** The delayed reset, two seconds later: back to idle with nothing
      selected, whatever happened on the screen in between. */
  function ResetAfterSent(c: Composer): (r: Composer)
    ensures r.status == Idle && r.selectedTemplate.None? && r.selectedProject.None?
    ensures !SendEnabled(r)
    ensures r.templates == c.templates
    ensures r.managingTemplates == c.managingTemplates && r.draft == c.draft
  {
    c.(status := Idle, selectedTemplate := None, selectedProject := None)
  }

  /** Clicking a client card selects it and sets the status back to idle, even
      while a send is in flight. */
  function SelectClient(c: Composer, p: Project): (r: Composer)
    ensures r.selectedProject == Some(p) && r.status == Idle
    ensures SendEnabled(r) <==> c.selectedTemplate.Some?
    ensures r.templates == c.templates && r.selectedTemplate == c.selectedTemplate
    ensures r.managingTemplates == c.managingTemplates && r.draft == c.draft
  {
    c.(selectedProject := Some(p), status := Idle)
  }

  /** Without interruption the status cycles idle, sending, sent, idle, and the
      send button is disabled at every step after the click. */
  lemma EmailStatusCycle(c: Composer, user: Option<User>)
    requires SendEnabled(c)
    requires StartSend(c, user).1.Some?
    ensures c.status == Idle
    ensures StartSend(c, user).0.status == Sending && !SendEnabled(StartSend(c, user).0)
    ensures FinishSend(StartSend(c, user).0).status == Sent
    ensures !SendEnabled(FinishSend(StartSend(c, user).0))
    ensures ResetAfterSent(FinishSend(StartSend(c, user).0)).status == Idle
    ensures !SendEnabled(ResetAfterSent(FinishSend(StartSend(c, user).0)))
  {
  }

  /** The client list stays clickable during a send: a click re-enables the
      button, a second email can go out while the first is in flight, the
      first send's completion then reports `Sent` for the second, and its
      reset clears the newly chosen client. */
  lemma ClientClickDuringSendAllowsSecondSend(c: Composer, user: Option<User>, p: Project)
    requires StartSend(c, user).1.Some?
    ensures !SendEnabled(StartSend(c, user).0)
    ensures SendEnabled(SelectClient(StartSend(c, user).0, p))
    ensures StartSend(SelectClient(StartSend(c, user).0, p), user).1.Some?
    ensures StartSend(SelectClient(StartSend(c, user).0, p), user).1.value.to
      == (if p.clientEmail != "" then p.clientEmail else FallbackClient)
    ensures FinishSend(StartSend(SelectClient(StartSend(c, user).0, p), user).0).status == Sent
    ensures ResetAfterSent(FinishSend(StartSend(SelectClient(StartSend(c, user).0, p), user).0))
      .selectedProject.None?
  {
    var s := StartSend(c, user).0;
    assert s.templates == c.templates && s.selectedTemplate == c.selectedTemplate;
  }

  /** First project with the given id (`projects.find`). */
  function FindProject(ps: seq<Project>, id: string): (r: Option<Project>)
    ensures r.Some? ==> r.value.id == id && exists k | 0 <= k < |ps| ::
      ps[k] == r.value && forall j | 0 <= j < k :: ps[j].id != id
    ensures r.None? ==> forall p | p in ps :: p.id != id
    decreases |ps|
  {
    if |ps| == 0 then None
    else if ps[0].id == id then Some(ps[0])
    else
      var r := FindProject(ps[1..], id);
      assert forall k | 1 <= k < |ps| :: ps[k] == ps[1..][k - 1];
      r
  }

  /** The deep-link effect on opening the screen with a project id: a
      non-empty id naming a listed project selects the first such project;
      anything else leaves the screen as it is. */
  function DeepLink(c: Composer, ps: seq<Project>, initialProjectId: Option<string>): (r: Composer)
    ensures initialProjectId.None? || initialProjectId.value == "" ==> r == c
    ensures initialProjectId.Some? && initialProjectId.value != "" && FindProject(ps, initialProjectId.value).None?
      ==> r == c
    ensures initialProjectId.Some? && initialProjectId.value != "" && FindProject(ps, initialProjectId.value).Some?
      ==> r.selectedProject == FindProject(ps, initialProjectId.value)
    ensures initialProjectId.Some? && initialProjectId.value != "" ==>
      (r.selectedProject.Some? && r.selectedProject != c.selectedProject ==>
         r.selectedProject.value in ps && r.selectedProject.value.id == initialProjectId.value)
    ensures r.templates == c.templates && r.status == c.status && r.selectedTemplate == c.selectedTemplate
  {
    if initialProjectId.Some? && initialProjectId.value != "" then
      match FindProject(ps, initialProjectId.value)
      case Some(p) => c.(selectedProject := Some(p))
      case None => c
    else c
  }

  /** Opening the screen with the id of a listed project selects the first
      project carrying that id. */
  lemma DeepLinkSelectsListedProject(c: Composer, ps: seq<Project>, k: nat)
    requires k < |ps| && ps[k].id != ""
    ensures DeepLink(c, ps, Some(ps[k].id)).selectedProject.Some?
    ensures exists i | 0 <= i <= k ::
      && DeepLink(c, ps, Some(ps[k].id)).selectedProject.value == ps[i]
      && forall j | 0 <= j < i :: ps[j].id != ps[k].id
  {
    var r := FindProject(ps, ps[k].id);
    assert ps[k] in ps;
    var i :| 0 <= i < |ps| && ps[i] == r.value && forall j | 0 <= j < i :: ps[j].id != ps[k].id;
    assert i <= k;
  }

  // ------------------------------------------------------------ the screen

  /** What the user (or a pending promise or timer) can do on the screen. */
  datatype ScreenEvent =
    | ClickClient(client: Project)
    | CallClient(client: Project)
    | ClickTemplateCard(card: nat)
    | OpenManager
    | CloseManager
    | EditDraft(draft: TemplateDraft)
    | SaveTemplate(newId: string)
    | DeleteListed(row: nat, confirmed: bool)
    | ClickSend
    | SendResolved
    | ResetTimerFired

  /** One event. While the manager is shown it replaces the whole screen, so
      only its own controls respond; the entry points to it are rendered for
      an admin only; the delete button exists only on custom templates; the
      template grid and the send button exist only with a client selected. */
  function Apply(c: Composer, user: Option<User>, e: ScreenEvent): (r: Composer)
    ensures !IsAdmin(user) ==> r.templates == c.templates && r.managingTemplates == c.managingTemplates
    ensures e == OpenManager ==> (ShowsTemplateManager(r, user) <==> IsAdmin(user))
    ensures (e.SendResolved? || e.ResetTimerFired? || e.ClickClient? || e.CallClient?
             || e.ClickTemplateCard? || e.ClickSend?) ==> r.templates == c.templates
  {
    var manager := ShowsTemplateManager(c, user);
    match e
    case ClickClient(p) => if manager then c else SelectClient(c, p)
    case CallClient(p) => if manager then c else c.(selectedProject := Some(p))
    case ClickTemplateCard(k) =>
      if !manager && c.selectedProject.Some? && k < |c.templates| then SelectTemplate(c, k) else c
    case OpenManager => if IsAdmin(user) then c.(managingTemplates := true) else c
    case CloseManager => if manager then c.(managingTemplates := false) else c
    case EditDraft(d) => if manager then c.(draft := d) else c
    case SaveTemplate(id) => if manager then CreateTemplate(c, id) else c
    case DeleteListed(k, confirmed) =>
      if manager && k < |c.templates| && c.templates[k].isCustom == Some(true)
      then DeleteTemplate(c, c.templates[k].id, confirmed) else c
    case ClickSend =>
      if !manager && c.selectedProject.Some? && SendEnabled(c) then StartSend(c, user).0 else c
    case SendResolved => FinishSend(c)
    case ResetTimerFired => ResetAfterSent(c)
  }

  /** The state after a sequence of events, oldest first. */
  function Run(c: Composer, user: Option<User>, es: seq<ScreenEvent>): Composer
    decreases |es|
  {
    if |es| == 0 then c else Run(Apply(c, user, es[0]), user, es[1..])
  }

  /** A signed-out user or a member never changes the template list and never
      sets the manager flag, whatever they click (and the manager view itself
      is only ever rendered for an admin). */
  lemma {:induction false} TemplateManagerNeedsAdmin(c: Composer, user: Option<User>, es: seq<ScreenEvent>)
    requires !IsAdmin(user)
    ensures Run(c, user, es).templates == c.templates
    ensures Run(c, user, es).managingTemplates == c.managingTemplates
    decreases |es|
  {
    if |es| > 0 {
      TemplateManagerNeedsAdmin(Apply(c, user, es[0]), user, es[1..]);
    }
  }

  /** From the initial screen a member works with the shipped templates only. */
  lemma MemberKeepsDefaultTemplates(user: Option<User>, es: seq<ScreenEvent>)
    requires !IsAdmin(user)
    ensures Run(InitialComposer, user, es).templates == DefaultTemplates
  {
    TemplateManagerNeedsAdmin(InitialComposer, user, es);
  }

  /** An admin reaches the manager with one click, saves a complete draft with
      a fresh id into the list, and the manager closes again. */
  lemma AdminCreatesTemplate(c: Composer, user: Option<User>, d: TemplateDraft, id: string)
    requires IsAdmin(user)
    requires d.name != "" && d.subject != "" && d.body != ""
    ensures ShowsTemplateManager(Run(c, user, [OpenManager, EditDraft(d)]), user)
    ensures Run(c, user, [OpenManager, EditDraft(d), SaveTemplate(id)]).templates
      == c.templates + [EmailTemplate(id, d.name, Some("bg-indigo-50"), d.subject, d.body, Some(true))]
    ensures !ShowsTemplateManager(Run(c, user, [OpenManager, EditDraft(d), SaveTemplate(id)]), user)
  {
    var c1 := Apply(c, user, OpenManager);
    var c2 := Apply(c1, user, EditDraft(d));
    var c3 := Apply(c2, user, SaveTemplate(id));
    assert [OpenManager, EditDraft(d)][1..] == [EditDraft(d)];
    assert Run(c1, user, [EditDraft(d)]) == Run(c2, user, []) == c2;
    assert [OpenManager, EditDraft(d), SaveTemplate(id)][1..] == [EditDraft(d), SaveTemplate(id)];
    assert [EditDraft(d), SaveTemplate(id)][1..] == [SaveTemplate(id)];
    assert Run(c2, user, [SaveTemplate(id)]) == c3;
    assert c3.templates[..|c.templates|] == c.templates;
  }
}
