/** The automatic deadline-alert pass of components/Projects.tsx
    (`checkAndSendAlerts`). One pass is modelled as atomic and sequential:
    it reads the set of already-alerted ids at pass start, emits one notice per
    expiring project whose id is not in that set, and returns the grown set.
    The email transport is abstract: a notice is what would be handed to it. */
module AlertScheduler {
  import opened Types
  import opened Text
  import opened Expiry

  /** Recipient used when a project has no manager email. */
  const FallbackManager: string := "manager@flow.com"

  /** One outgoing alert. The body text (with a locale-formatted deadline) is
      rendered from `project` by the transport and is not modelled. */
  datatype AlertNotice = AlertNotice(to: string, subject: string, project: Project)

  datatype PassResult = PassResult(notices: seq<AlertNotice>, sentAlerts: set<string>)

  /** The per-project test of the pass: expiring and not yet alerted, that is,
      due within the next fifteen days and absent from the alerted set. */
  predicate ShouldAlert(p: Project, now: int, sent: set<string>): (b: bool)
    ensures b <==> now < p.endDate <= now + 15 * DayMs && p.id !in sent
  {
    ExpiringWindow(p.endDate, now);
    ProjectExpiring(p, now) && p.id !in sent
  }

  function Recipient(p: Project): (to: string)
    ensures p.managerEmail != "" ==> to == p.managerEmail
    ensures p.managerEmail == "" ==> to == FallbackManager
  {
    if p.managerEmail != "" then p.managerEmail else FallbackManager
  }

  /** The notice for one project, with the days left in its subject line. */
  function AlertFor(p: Project, now: int): (n: AlertNotice)
    ensures n.project == p
    ensures n.to == Recipient(p)
  {
    AlertNotice(
      Recipient(p),
      "\U{26A0}\U{FE0F} Action Required: \"" + p.projectName + "\" Expires in "
        + IntToString(DaysLeft(p.endDate, now)) + " Days",
      p)
  }

  /** The projects a pass alerts, in list order: every list entry that passes
      the test, as often as it is listed, and nothing else. */
  function DueProjects(ps: seq<Project>, now: int, sent: set<string>): (due: seq<Project>)
    ensures |due| <= |ps|
    ensures forall p :: multiset(due)[p] == if ShouldAlert(p, now, sent) then multiset(ps)[p] else 0
    decreases |ps|
  {
    if |ps| == 0 then []
    else
      var init := ps[..|ps| - 1];
      var last := ps[|ps| - 1];
      assert ps == init + [last];
      DueProjects(init, now, sent) + (if ShouldAlert(last, now, sent) then [last] else [])
  }

  /** A project is due exactly when it is listed and passes the test. */
  lemma {:induction false} DueProjectsMembers(ps: seq<Project>, now: int, sent: set<string>)
    ensures forall p :: p in DueProjects(ps, now, sent) <==> p in ps && ShouldAlert(p, now, sent)
    decreases |ps|
  {
    if |ps| > 0 {
      var init := ps[..|ps| - 1];
      assert ps == init + [ps[|ps| - 1]];
      DueProjectsMembers(init, now, sent);
    }
  }

  function IdsOf(ps: seq<Project>): (ids: set<string>)
    ensures forall p | p in ps :: p.id in ids
    ensures forall id | id in ids :: exists p | p in ps :: p.id == id
  {
    set p | p in ps :: p.id
  }

  function NoticesFor(ps: seq<Project>, now: int): (ns: seq<AlertNotice>)
    ensures |ns| == |ps|
    ensures forall k | 0 <= k < |ps| :: ns[k] == AlertFor(ps[k], now)
  {
    seq(|ps|, k requires 0 <= k < |ps| => AlertFor(ps[k], now))
  }

  /** The projects the notices are about, in notice order. */
  function NoticedProjects(ns: seq<AlertNotice>): (r: seq<Project>)
    ensures |r| == |ns|
    ensures forall k | 0 <= k < |ns| :: r[k] == ns[k].project
  {
    seq(|ns|, k requires 0 <= k < |ns| => ns[k].project)
  }

  /** The notices for a list are about exactly that list, in order. */
  lemma NoticedProjectsOfNotices(ds: seq<Project>, now: int)
    ensures NoticedProjects(NoticesFor(ds, now)) == ds
  {
  }

  /** One more project extends the due list by itself exactly when it passes
      the test. */
  lemma DueProjectsSnoc(ps: seq<Project>, p: Project, now: int, sent: set<string>)
    ensures DueProjects(ps + [p], now, sent)
      == DueProjects(ps, now, sent) + (if ShouldAlert(p, now, sent) then [p] else [])
  {
    assert (ps + [p])[..|ps|] == ps;
  }

  /** The notices of a longer list end with the notice of the new project. */
  lemma NoticesForSnoc(ds: seq<Project>, p: Project, now: int)
    ensures NoticesFor(ds + [p], now) == NoticesFor(ds, now) + [AlertFor(p, now)]
  {
    assert NoticesFor(ds + [p], now)[|ds|] == AlertFor(p, now);
  }

  /** The ids of a longer list gain the new project's id. */
  lemma IdsOfSnoc(ds: seq<Project>, p: Project)
    ensures IdsOf(ds + [p]) == IdsOf(ds) + {p.id}
  {
  }

  /** The notices for a list are exactly the notices of its members. */
  lemma NoticesForMembers(ds: seq<Project>, now: int)
    ensures forall n | n in NoticesFor(ds, now) :: n.project in ds && n == AlertFor(n.project, now)
    ensures forall p | p in ds :: AlertFor(p, now) in NoticesFor(ds, now)
  {
    var ns := NoticesFor(ds, now);
    forall n | n in ns
      ensures n.project in ds && n == AlertFor(n.project, now)
    {
      var k :| 0 <= k < |ns| && ns[k] == n;
      assert ds[k] in ds;
    }
    forall p | p in ds
      ensures AlertFor(p, now) in ns
    {
      var k :| 0 <= k < |ds| && ds[k] == p;
      assert ns[k] == AlertFor(p, now);
    }
  }

  /** Reference definition of one pass. */
  function AlertPass(ps: seq<Project>, now: int, sent: set<string>): (r: PassResult)
    ensures |r.notices| <= |ps|
    ensures sent <= r.sentAlerts
  {
    var due := DueProjects(ps, now, sent);
    PassResult(NoticesFor(due, now), sent + IdsOf(due))
  }

  /** One more project adds its notice and its id to a pass exactly when it
      passes the test, and leaves the pass unchanged otherwise. */
  lemma AlertPassSnoc(ps: seq<Project>, p: Project, now: int, sent: set<string>)
    ensures ShouldAlert(p, now, sent) ==>
      AlertPass(ps + [p], now, sent) == PassResult(AlertPass(ps, now, sent).notices + [AlertFor(p, now)],
                                                   AlertPass(ps, now, sent).sentAlerts + {p.id})
    ensures !ShouldAlert(p, now, sent) ==> AlertPass(ps + [p], now, sent) == AlertPass(ps, now, sent)
  {
    var due := DueProjects(ps, now, sent);
    DueProjectsSnoc(ps, p, now, sent);
    if ShouldAlert(p, now, sent) {
      NoticesForSnoc(due, p, now);
      IdsOfSnoc(due, p);
    } else {
      assert due + [] == due;
    }
  }

  /** A pass that sends nothing returns the set it was given. */
  lemma AlertPassQuiet(ps: seq<Project>, now: int, sent: set<string>)
    ensures |AlertPass(ps, now, sent).notices| == 0 ==> AlertPass(ps, now, sent).sentAlerts == sent
  {
    var due := DueProjects(ps, now, sent);
    if |NoticesFor(due, now)| == 0 {
      assert due == [];
      assert IdsOf(due) == {};
    }
  }

  /** The pass as the source runs it: a loop over the projects that tests the
      pass-start set, appends to a copy, and publishes the copy only when
      something was sent (otherwise the start set is kept as it is). */
  method CheckAndSendAlerts(projects: seq<Project>, now: int, sentAlerts: set<string>)
    returns (notices: seq<AlertNotice>, newSentAlerts: set<string>)
    ensures PassResult(notices, newSentAlerts) == AlertPass(projects, now, sentAlerts)
  {
    var hasNewAlerts := false;
    var copy := sentAlerts;
    notices := [];
    var i := 0;
    while i < |projects|
      invariant 0 <= i <= |projects|
      invariant PassResult(notices, copy) == AlertPass(projects[..i], now, sentAlerts)
      invariant hasNewAlerts <==> |notices| > 0
    {
      var project := projects[i];
      assert projects[..i + 1] == projects[..i] + [project];
      AlertPassSnoc(projects[..i], project, now, sentAlerts);
      var daysLeft := DaysLeft(project.endDate, now);
      assert ShouldAlert(project, now, sentAlerts) <==> daysLeft <= 15 && daysLeft > 0 && project.id !in sentAlerts;
      if daysLeft <= 15 && daysLeft > 0 && project.id !in sentAlerts {
        notices := notices + [AlertFor(project, now)];
        copy := copy + {project.id};
        hasNewAlerts := true;
      }
      i := i + 1;
    }
    assert projects[..|projects|] == projects;
    AlertPassQuiet(projects, now, sentAlerts);
    newSentAlerts := if hasNewAlerts then copy else sentAlerts;
  }

  /** Exactly the expiring projects not alerted before the pass get a notice,
      addressed to the manager (or the fallback address), one per list entry:
      a project listed once is emailed once, and one listed twice (two
      entries sharing an id) twice. */
  lemma PassAlertsExactlyDue(ps: seq<Project>, now: int, sent: set<string>)
    ensures forall n | n in AlertPass(ps, now, sent).notices ::
      n.project in ps && ProjectExpiring(n.project, now) && n.project.id !in sent
      && n.to == Recipient(n.project)
    ensures forall p | p in ps && ProjectExpiring(p, now) && p.id !in sent ::
      AlertFor(p, now) in AlertPass(ps, now, sent).notices
    ensures forall p ::
      multiset(NoticedProjects(AlertPass(ps, now, sent).notices))[p]
        == if ShouldAlert(p, now, sent) then multiset(ps)[p] else 0
    ensures forall p | multiset(ps)[p] <= 1 ::
      multiset(NoticedProjects(AlertPass(ps, now, sent).notices))[p] <= 1
  {
    var due := DueProjects(ps, now, sent);
    DueProjectsMembers(ps, now, sent);
    NoticesForMembers(due, now);
    NoticedProjectsOfNotices(due, now);
  }


  /** The alerted set only grows, by exactly the ids of the alerted projects. */
  lemma SentSetGrowsByAlerted(ps: seq<Project>, now: int, sent: set<string>)
    ensures sent <= AlertPass(ps, now, sent).sentAlerts
    ensures AlertPass(ps, now, sent).sentAlerts
      == sent + set n | n in AlertPass(ps, now, sent).notices :: n.project.id
  {
    var due := DueProjects(ps, now, sent);
    var ns := NoticesFor(due, now);
    forall id | id in IdsOf(due) ensures exists n | n in ns :: n.project.id == id {
      var k :| 0 <= k < |due| && due[k].id == id;
      assert ns[k] in ns;
    }
    forall n | n in ns ensures n.project.id in IdsOf(due) {
      var k :| 0 <= k < |ns| && ns[k] == n;
      assert due[k] in due;
    }
  }

  /** Running the pass again with the set it returned sends nothing. */
  lemma SecondPassSendsNothing(ps: seq<Project>, now: int, sent: set<string>)
    ensures AlertPass(ps, now, AlertPass(ps, now, sent).sentAlerts).notices == []
    ensures AlertPass(ps, now, AlertPass(ps, now, sent).sentAlerts).sentAlerts
      == AlertPass(ps, now, sent).sentAlerts
  {
    var sent1 := AlertPass(ps, now, sent).sentAlerts;
    var due2 := DueProjects(ps, now, sent1);
    DueProjectsMembers(ps, now, sent);
    DueProjectsMembers(ps, now, sent1);
    if |due2| > 0 {
      assert due2[0] in due2;
    }
  }

  /** A project whose id has been recorded is never alerted again, whatever
      the time of a later pass (e.g. once it turns overdue). */
  lemma RecordedNeverRealerted(ps: seq<Project>, now: int, sent: set<string>, later: int, qs: seq<Project>)
    ensures forall n | n in AlertPass(qs, later, AlertPass(ps, now, sent).sentAlerts).notices ::
      n.project.id !in sent && n.project.id !in AlertPass(ps, now, sent).sentAlerts
  {
    PassAlertsExactlyDue(qs, later, AlertPass(ps, now, sent).sentAlerts);
    SentSetGrowsByAlerted(ps, now, sent);
  }

  /** Notices of `count` consecutive passes over an unchanged project list. */
  function RepeatedPasses(ps: seq<Project>, now: int, sent: set<string>, count: nat): seq<AlertNotice>
    decreases count
  {
    if count == 0 then []
    else
      var r := AlertPass(ps, now, sent);
      r.notices + RepeatedPasses(ps, now, r.sentAlerts, count - 1)
  }

  /** However many passes run with no change to the projects, all notices
      come from the first one. */
  lemma {:induction false} RepeatedPassesSendOnce(ps: seq<Project>, now: int, sent: set<string>, count: nat)
    requires count >= 1
    ensures RepeatedPasses(ps, now, sent, count) == AlertPass(ps, now, sent).notices
    decreases count
  {
    var r := AlertPass(ps, now, sent);
    if count > 1 {
      RepeatedPassesSendOnce(ps, now, r.sentAlerts, count - 1);
      SecondPassSendsNothing(ps, now, sent);
      assert RepeatedPasses(ps, now, r.sentAlerts, count - 1) == [];
    }
    assert RepeatedPasses(ps, now, sent, count) == r.notices + RepeatedPasses(ps, now, r.sentAlerts, count - 1);
  }

  /** The alerted set is state of the Projects screen, and every mount of the
      screen starts from the empty set. An expiring project is recorded by the
      first pass of a mount and not alerted again while the screen stays
      mounted; after leaving and returning, the first pass of the new mount
      starts from the empty set once more and alerts it again. */
  lemma RemountResendsAlerts(ps: seq<Project>, now: int, p: Project)
    requires p in ps && ProjectExpiring(p, now)
    ensures p.id in AlertPass(ps, now, {}).sentAlerts
    ensures AlertFor(p, now) !in AlertPass(ps, now, AlertPass(ps, now, {}).sentAlerts).notices
    ensures AlertFor(p, now) in AlertPass(ps, now, {}).notices
  {
    PassAlertsExactlyDue(ps, now, {});
    SecondPassSendsNothing(ps, now, {});
    SentSetGrowsByAlerted(ps, now, {});
    assert AlertFor(p, now).project.id == p.id;
  }
}
