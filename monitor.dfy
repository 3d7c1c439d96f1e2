/**
 * The orchestrator: `check_repository_updates`, which takes one monitored repository
 * through version resolution, change detection, classification, the alert decision and
 * delivery, writing to the store as it goes; and `check_all_repositories`, which runs it
 * for every monitored repository and tallies the outcomes.
 *
 * The decisions are a function of the stored state and the collaborators' answers
 * (`Step`), which also lists, in order, the effects the check performs: the store writes
 * and the calls to the analyser and the two channels. `Replay` gives the tables those
 * writes leave. The methods run the same sequence of writes on a `Store.Database`.
 */
module Monitor {
  import opened Wrappers
  import opened JsonValue
  import Versions
  import Routing
  import GitHub
  import GitLab
  import Classifier
  import AlertFields
  import EmailAlert
  import SlackAlert
  import opened Store

  /** An analysis with the four keys, a known severity and a boolean flag: what
      `analyze_version_change` always returns. */
  type Verdict = a: Classifier.Analysis | Classifier.Usable(a) witness Classifier.Fallback("", "", "", "")

  /** The collaborators the check is handed: the repository service (update check and
      page URL), the analyser, the two channels with their switches, and the time the
      store records. */
  datatype Env = Env(
    checkForUpdates: (string, Option<string>) -> Versions.UpdateInfo,
    repoUrl: string -> string,
    analyze: (string, string, string, string, seq<string>) -> Verdict,
    emailAlertsEnabled: bool,
    sendEmail: (string, string, string, Classifier.Analysis, string) -> bool,
    slackAlertsEnabled: bool,
    slackEnabled: bool,
    sendSlack: (string, string, string, Classifier.Analysis, string) -> bool,
    isoNow: string)

  /** The repository service's update check: a `gitlab:` name goes to GitLab without its
      prefix, a `github:` or bare name to GitHub, each over the feeds the platform answers
      for the name. */
  function UpdateCheck(filters: Versions.TagFilters, remote: string -> Routing.Remote): (check: (string, Option<string>) -> Versions.UpdateInfo)
    ensures forall name, last :: check(name, last) == Routing.CheckForUpdates(filters, name, last, remote(name))
    ensures forall n, last :: check(Routing.GitLabPrefix + n, last) ==
              GitLab.CheckForUpdates(filters, n, last, remote(Routing.GitLabPrefix + n).gitlab)
    ensures forall n, last :: check(Routing.GitHubPrefix + n, last) ==
              GitHub.CheckForUpdates(filters, n, last, remote(Routing.GitHubPrefix + n).github)
    ensures forall n, last :: !(Routing.GitLabPrefix <= n) && !(Routing.GitHubPrefix <= n) ==>
              check(n, last) == GitHub.CheckForUpdates(filters, n, last, remote(n).github)
  {
    forall n, last
      ensures Routing.CheckForUpdates(filters, Routing.GitLabPrefix + n, last, remote(Routing.GitLabPrefix + n)) ==
                GitLab.CheckForUpdates(filters, n, last, remote(Routing.GitLabPrefix + n).gitlab)
      ensures Routing.CheckForUpdates(filters, Routing.GitHubPrefix + n, last, remote(Routing.GitHubPrefix + n)) ==
                GitHub.CheckForUpdates(filters, n, last, remote(Routing.GitHubPrefix + n).github)
      ensures !(Routing.GitLabPrefix <= n) && !(Routing.GitHubPrefix <= n) ==>
                Routing.CheckForUpdates(filters, n, last, remote(n)) == GitHub.CheckForUpdates(filters, n, last, remote(n).github)
    {
      Routing.RoutedByPrefix(filters, n, last, remote(Routing.GitLabPrefix + n));
      Routing.RoutedByPrefix(filters, n, last, remote(Routing.GitHubPrefix + n));
      Routing.RoutedByPrefix(filters, n, last, remote(n));
    }
    (name, last) => Routing.CheckForUpdates(filters, name, last, remote(name))
  }

  /** The repository service's page URL: a `gitlab:` name's GitLab page, a `github:` or
      bare name's GitHub page. */
  function PageUrl(gitlabApiBase: string): (url: string -> string)
    ensures forall name :: url(name) == Routing.RepoUrl(gitlabApiBase, name)
    ensures forall n :: url(Routing.GitLabPrefix + n) == GitLab.RepoUrl(gitlabApiBase, n)
    ensures forall n :: url(Routing.GitHubPrefix + n) == GitHub.RepoUrl(n)
    ensures forall n :: !(Routing.GitLabPrefix <= n) && !(Routing.GitHubPrefix <= n) ==> url(n) == GitHub.RepoUrl(n)
  {
    forall n
      ensures Routing.RepoUrl(gitlabApiBase, Routing.GitLabPrefix + n) == GitLab.RepoUrl(gitlabApiBase, n)
      ensures Routing.RepoUrl(gitlabApiBase, Routing.GitHubPrefix + n) == GitHub.RepoUrl(n)
    {
      Routing.PrefixRoundTrip(n);
    }
    name => Routing.RepoUrl(gitlabApiBase, name)
  }

  /** The e-mail channel: it reports whether the transport delivered the message composed
      for the arguments, stamped with the given UTC time. */
  function EmailChannel(emailFrom: string, emailTo: string, smtp: EmailAlert.Email -> bool, utcStamp: string)
    : (send: (string, string, string, Classifier.Analysis, string) -> bool)
    ensures forall name, oldVersion, newVersion, a, url :: send(name, oldVersion, newVersion, a, url) ==
              smtp(EmailAlert.CreateAlertEmail(emailFrom, emailTo, name, oldVersion, newVersion, a, url, utcStamp))
  {
    (name, oldVersion, newVersion, a, url) =>
      EmailAlert.SendAlert(emailFrom, emailTo, name, oldVersion, newVersion, a, url, utcStamp, smtp)
  }

  /** The collaborators as the watcher builds them: the platform router over the feeds
      each platform answers for a name, the analyser over the language model and its
      reply parsers, and the two channels over their transports, with the clock readings
      each of them stamps. */
  function Services(filters: Versions.TagFilters, gitlabApiBase: string, remote: string -> Routing.Remote,
                    model: string -> Classifier.Reply, parser: Classifier.Parser,
                    emailAlertsEnabled: bool, emailFrom: string, emailTo: string,
                    smtp: EmailAlert.Email -> bool, utcStamp: string,
                    slackAlertsEnabled: bool, slackWebhookUrl: string,
                    slackPost: SlackAlert.Payload -> Option<int>, localStamp: string,
                    isoNow: string): Env
  {
    Env(
      UpdateCheck(filters, remote),
      PageUrl(gitlabApiBase),
      (name, oldVersion, newVersion, notes, commits) =>
        Classifier.AnalyzeVersionChange(name, oldVersion, newVersion, notes, commits, model, parser),
      emailAlertsEnabled,
      EmailChannel(emailFrom, emailTo, smtp, utcStamp),
      slackAlertsEnabled,
      SlackAlert.Enabled(slackWebhookUrl),
      (name, oldVersion, newVersion, a, url) =>
        SlackAlert.SendAlert(slackWebhookUrl, name, oldVersion, newVersion, a, url, localStamp, slackPost),
      isoNow)
  }

  /** Why a check ended in `error`: the update check's own error, or an exception. The
      exceptions are the `ValueError` of a malformed name, the `TypeError` of printing a
      summary that cannot be sliced, and SQLite refusing to store a list summary. */
  datatype Failure =
    | UpdateError(message: string)
    | InvalidName(message: string)
    | SummaryNotSliceable(summary: Json)
    | SummaryNotStorable(summary: Json)

  /** The outcome of one check, one constructor per `status`. */
  datatype Outcome =
    | Failed(failure: Failure)
    | NoUpdate(currentVersion: string)
    | FirstCheck(newVersion: string)
    | NoAlertNeeded(oldVersion: string, newVersion: string, severity: string)
    | AlertSent(oldVersion: string, newVersion: string, severity: string, mandatory: bool,
                emailSent: bool, slackSent: bool, summary: Json)
    | AlertFailed(oldVersion: string, newVersion: string)

  /** The dictionary a check returns. */
  datatype CheckResult = CheckResult(repoName: string, outcome: Outcome)

  datatype Status = Error | NoUpdateStatus | FirstCheckStatus | UpdateDetectedNoAlert | AlertSentStatus | AlertFailedStatus

  function StatusOf(o: Outcome): Status {
    match o
    case Failed(_) => Error
    case NoUpdate(_) => NoUpdateStatus
    case FirstCheck(_) => FirstCheckStatus
    case NoAlertNeeded(_, _, _) => UpdateDetectedNoAlert
    case AlertSent(_, _, _, _, _, _, _) => AlertSentStatus
    case AlertFailed(_, _) => AlertFailedStatus
  }

  /** The `status` string of the result. */
  function StatusText(s: Status): string {
    match s
    case Error => "error"
    case NoUpdateStatus => "no_update"
    case FirstCheckStatus => "first_check"
    case UpdateDetectedNoAlert => "update_detected_no_alert"
    case AlertSentStatus => "alert_sent"
    case AlertFailedStatus => "alert_failed"
  }

  /** What the check does that is visible outside it, in order: an upsert or an
      alert-history append on the store, a call to the analyser, an attempt on a channel. */
  datatype Effect =
    | Upsert(lastVersion: Option<string>, lastAlerted: Option<string>, newSeverity: Option<string>, newMandatory: bool)
    | AppendAlert(version: string, alertSeverity: string, alertMandatory: bool, alertSummary: string)
    | Analyse
    | SendEmail
    | PostSlack

  predicate IsWrite(e: Effect) {
    e.Upsert? || e.AppendAlert?
  }

  /** `repo.last_version_or_tag if repo else None`. */
  function LastVersion(t: Tables, name: string): Option<string> {
    if name in t.repositories then t.repositories[name].lastVersionOrTag else None
  }

  function RepoUrl(env: Env, name: string): string {
    env.repoUrl(name)
  }

  /** The upsert that records a newly seen version. */
  function RecordVersion(newVersion: string): Effect {
    Upsert(Some(newVersion), None, None, false)
  }

  /** `update_info["old_version"] or "N/A"`. */
  function OldLabel(previous: Option<string>): string {
    if previous.None? || previous.value == "" then "N/A" else previous.value
  }

  /** The e-mail channel's answer, when it is enabled. */
  function EmailResult(env: Env, name: string, oldVersion: string, newVersion: string, a: Classifier.Analysis): bool {
    env.emailAlertsEnabled && env.sendEmail(name, oldVersion, newVersion, a, RepoUrl(env, name))
  }

  /** Slack is attempted when alerts are enabled and a webhook URL is configured. */
  predicate SlackOn(env: Env) {
    env.slackAlertsEnabled && env.slackEnabled
  }

  function SlackResult(env: Env, name: string, oldVersion: string, newVersion: string, a: Classifier.Analysis): bool {
    SlackOn(env) && env.sendSlack(name, oldVersion, newVersion, a, RepoUrl(env, name))
  }

  /** What follows the classification, given the analysis and each channel's answer:
      the summary is printed (sliced), severity and flag are stored, the policy decides,
      the enabled channels are tried, and on any success the version is marked alerted
      and a history row is added. The effects are those after the call to the analyser. */
  function Conclude(oldVersion: string, newVersion: string, a: Classifier.Analysis,
                    emailOn: bool, emailSent: bool, slackOn: bool, slackSent: bool): (r: (Outcome, seq<Effect>))
    requires Classifier.Usable(a)
  {
    var severity := a["severity"].s;
    var mandatory := a["mandatory_upgrade"].b;
    var summary := a["summary"];
    if !Sliceable(summary) then (Failed(SummaryNotSliceable(summary)), [])
    else
      var persisted := [Upsert(None, None, Some(severity), mandatory)];
      if !Classifier.ShouldSendAlert(a) then (NoAlertNeeded(oldVersion, newVersion, severity), persisted)
      else
        var alert := Alert(oldVersion, newVersion, a, emailOn, emailSent, slackOn, slackSent);
        (alert.0, persisted + alert.1)
  }

  /** A due alert: the enabled channels are tried, and on any success the version is
      marked alerted and a history row is added. */
  function Alert(oldVersion: string, newVersion: string, a: Classifier.Analysis,
                 emailOn: bool, emailSent: bool, slackOn: bool, slackSent: bool): (r: (Outcome, seq<Effect>))
    requires Classifier.Usable(a)
  {
    var severity := a["severity"].s;
    var mandatory := a["mandatory_upgrade"].b;
    var summary := a["summary"];
    var attempted := Attempts(emailOn, slackOn);
    if emailSent || slackSent then
      var marked := attempted + [Upsert(None, Some(newVersion), None, false)];
      match summary
      case JString(text) =>
        (AlertSent(oldVersion, newVersion, severity, mandatory, emailSent, slackSent, summary),
         marked + [AppendAlert(newVersion, severity, mandatory, text)])
      case _ => (Failed(SummaryNotStorable(summary)), marked)
    else (AlertFailed(oldVersion, newVersion), attempted)
  }

  /** Trying the channels writes nothing. */
  lemma AttemptsWriteNothing(t: Tables, name: string, url: string, now: string, emailOn: bool, slackOn: bool)
    ensures Replay(t, name, url, now, Attempts(emailOn, slackOn)) == t
  {
    ReplayNoWrites(t, name, url, now, Attempts(emailOn, slackOn));
  }

  /** The channels tried for a due alert, e-mail first. */
  function Attempts(emailOn: bool, slackOn: bool): seq<Effect> {
    (if emailOn then [SendEmail] else []) + (if slackOn then [PostSlack] else [])
  }

  /** The classification of a new version against the stored one. */
  function Analysis(env: Env, name: string, oldVersion: string, info: Versions.UpdateInfo): (a: Classifier.Analysis)
    requires info.NewVersion?
    ensures Classifier.Usable(a)
  {
    env.analyze(name, oldVersion, info.newVersion, info.releaseNotes, info.commitMessages)
  }

  /** The check once the platform has answered `info`: the outcome and the effects in order. */
  function Decide(env: Env, name: string, info: Versions.UpdateInfo): (r: (Outcome, seq<Effect>)) {
    match info
    case NameRejected(message) => (Failed(InvalidName(message)), [])
    case CheckFailed(error) => (Failed(UpdateError(error)), [])
    case Unchanged(current) => (NoUpdate(current), [Upsert(None, None, None, false)])
    case NewVersion(isFirst, previous, newVersion, _, _, _, _) =>
      if isFirst then (FirstCheck(newVersion), [RecordVersion(newVersion)])
      else
        var oldVersion := OldLabel(previous);
        var a := Analysis(env, name, oldVersion, info);
        var c := Conclude(oldVersion, newVersion, a, env.emailAlertsEnabled, EmailResult(env, name, oldVersion, newVersion, a),
                          SlackOn(env), SlackResult(env, name, oldVersion, newVersion, a));
        (c.0, [RecordVersion(newVersion), Analyse] + c.1)
  }

  /** The platform's answer for `name`, given the version stored for it. */
  function Info(t: Tables, env: Env, name: string): Versions.UpdateInfo {
    env.checkForUpdates(name, LastVersion(t, name))
  }

  /** `check_repository_updates(repo_name, ...)`: the outcome and the effects, in order,
      given the tables at the start of the check. */
  function Step(t: Tables, env: Env, name: string): (Outcome, seq<Effect>) {
    Decide(env, name, Info(t, env, name))
  }

  /** The tables after one effect of the check of `name`. */
  function Apply(t: Tables, name: string, url: string, now: string, e: Effect): Tables {
    match e
    case Upsert(v, al, sev, m) => Store.Upsert(t, name, url, v, al, sev, m, now)
    case AppendAlert(v, sev, m, s) => AddAlert(t, name, v, sev, m, s, now)
    case _ => t
  }

  /** The tables after a sequence of effects of the check of `name`. */
  function Replay(t: Tables, name: string, url: string, now: string, effects: seq<Effect>): Tables
    decreases |effects|
  {
    if effects == [] then t
    else Replay(Apply(t, name, url, now, effects[0]), name, url, now, effects[1..])
  }

  /** The tables after the check of `name`. */
  function After(t: Tables, env: Env, name: string): Tables {
    Replay(t, name, RepoUrl(env, name), env.isoNow, Step(t, env, name).1)
  }

  // ---------------------------------------------------------------------------
  // Replay facts
  // ---------------------------------------------------------------------------

  lemma {:induction false} ReplayAppend(t: Tables, name: string, url: string, now: string,
                                        a: seq<Effect>, b: seq<Effect>)
    ensures Replay(t, name, url, now, a + b) == Replay(Replay(t, name, url, now, a), name, url, now, b)
    decreases |a|
  {
    if a != [] {
      assert (a + b)[0] == a[0] && (a + b)[1..] == a[1..] + b;
      ReplayAppend(Apply(t, name, url, now, a[0]), name, url, now, a[1..], b);
    } else {
      assert a + b == b;
    }
  }

  /** Replaying one effect. */
  lemma ReplayOne(t: Tables, name: string, url: string, now: string, e: Effect)
    ensures Replay(t, name, url, now, [e]) == Apply(t, name, url, now, e)
  {
    assert [e][1..] == [];
  }

  /** Effects that write nothing leave the tables as they were. */
  lemma {:induction false} ReplayNoWrites(t: Tables, name: string, url: string, now: string, effects: seq<Effect>)
    requires forall i :: 0 <= i < |effects| ==> !IsWrite(effects[i])
    ensures Replay(t, name, url, now, effects) == t
    decreases |effects|
  {
    if effects != [] {
      ReplayNoWrites(t, name, url, now, effects[1..]);
    }
  }

  /** Replaying keeps the tables well formed. */
  lemma {:induction false} ReplayWellFormed(t: Tables, name: string, url: string, now: string, effects: seq<Effect>)
    requires WellFormed(t)
    ensures WellFormed(Replay(t, name, url, now, effects))
    decreases |effects|
  {
    if effects != [] {
      match effects[0]
      case Upsert(v, al, sev, m) =>
        UpsertWellFormed(t, name, url, v, al, sev, m, now);
        ReplayWellFormed(Store.Upsert(t, name, url, v, al, sev, m, now), name, url, now, effects[1..]);
      case AppendAlert(v, sev, m, s) =>
        AddAlertWellFormed(t, name, v, sev, m, s, now);
        ReplayWellFormed(AddAlert(t, name, v, sev, m, s, now), name, url, now, effects[1..]);
      case _ =>
        ReplayWellFormed(t, name, url, now, effects[1..]);
    }
  }

  /** The number of history appends among the effects. */
  function Appends(effects: seq<Effect>): nat {
    if effects == [] then 0 else (if effects[0].AppendAlert? then 1 else 0) + Appends(effects[1..])
  }

  /** The history grows by one row per append, and only by appends. */
  lemma {:induction false} ReplayHistory(t: Tables, name: string, url: string, now: string, effects: seq<Effect>)
    ensures |Replay(t, name, url, now, effects).alertHistory| == |t.alertHistory| + Appends(effects)
    ensures Replay(t, name, url, now, effects).alertHistory[..|t.alertHistory|] == t.alertHistory
    decreases |effects|
  {
    if effects != [] {
      match effects[0]
      case Upsert(v, al, sev, m) =>
        ReplayHistory(Store.Upsert(t, name, url, v, al, sev, m, now), name, url, now, effects[1..]);
      case AppendAlert(v, sev, m, s) =>
        var t1 := AddAlert(t, name, v, sev, m, s, now);
        ReplayHistory(t1, name, url, now, effects[1..]);
        assert Replay(t, name, url, now, effects).alertHistory[..|t.alertHistory|]
            == Replay(t, name, url, now, effects).alertHistory[..|t1.alertHistory|][..|t.alertHistory|];
      case _ =>
        ReplayHistory(t, name, url, now, effects[1..]);
    }
  }

  // ---------------------------------------------------------------------------
  // What a check does
  // ---------------------------------------------------------------------------

  /** A failed update check, or a malformed name, ends the check with status `error`
      before anything is written. */
  lemma UpdateErrorWritesNothing(t: Tables, env: Env, name: string, info: Versions.UpdateInfo)
    requires info.CheckFailed? || info.NameRejected?
    ensures StatusOf(Decide(env, name, info).0) == Error
    ensures Decide(env, name, info).1 == []
    ensures Replay(t, name, RepoUrl(env, name), env.isoNow, Decide(env, name, info).1) == t
  {
  }

  /** No change: a single upsert without version or severity, which records the check
      time, keeps every version and the severity, and resets the mandatory flag. */
  lemma NoUpdateTouchesOnlyCheckTime(t: Tables, env: Env, name: string, info: Versions.UpdateInfo)
    requires WellFormed(t) && info.Unchanged?
    ensures StatusOf(Decide(env, name, info).0) == NoUpdateStatus
    ensures var t2 := Replay(t, name, RepoUrl(env, name), env.isoNow, Decide(env, name, info).1);
      && name in t2.repositories
      && var row := t2.repositories[name];
      && row.lastChecked == Some(env.isoNow) && !row.mandatoryUpgrade
      && row.lastVersionOrTag == LastVersion(t, name)
      && (name in t.repositories ==>
            row.lastAlertedVersion == t.repositories[name].lastAlertedVersion
            && row.severity == t.repositories[name].severity)
      && t2.alertHistory == t.alertHistory
  {
    var url := RepoUrl(env, name);
    ReplayOne(t, name, url, env.isoNow, Upsert(None, None, None, false));
    UpsertRow(t, name, url, None, None, None, false, env.isoNow);
  }

  /** After the version record, the check never passes a version to an upsert. */
  predicate NoVersionWrites(effects: seq<Effect>) {
    forall i :: 0 <= i < |effects| ==> (effects[i].Upsert? ==> effects[i].lastVersion.None?)
  }

  /** Nor does it write the alerted version except after a channel succeeded. */
  predicate NoAlertedWrites(effects: seq<Effect>) {
    forall i :: 0 <= i < |effects| ==> (effects[i].Upsert? ==> effects[i].lastAlerted.None?)
  }

  /** The effects after the analysis: severity first, then the channels, then the
      alerted mark and the history row; never a version. */
  lemma ConcludeShape(oldVersion: string, newVersion: string, a: Classifier.Analysis,
                      emailOn: bool, emailSent: bool, slackOn: bool, slackSent: bool)
    requires Classifier.Usable(a)
    ensures var r := Conclude(oldVersion, newVersion, a, emailOn, emailSent, slackOn, slackSent);
      && NoVersionWrites(r.1)
      && (!(Sliceable(a["summary"]) && Classifier.ShouldSendAlert(a) && (emailSent || slackSent)) ==> NoAlertedWrites(r.1))
  {
  }

  /** Every new version, first or not, is stored as the last version before anything
      else happens, and no later write of the check changes it. */
  lemma NewVersionRecordedFirst(t: Tables, env: Env, name: string, info: Versions.UpdateInfo)
    requires WellFormed(t) && info.NewVersion?
    ensures var effects := Decide(env, name, info).1;
      && |effects| > 0 && effects[0] == RecordVersion(info.newVersion)
      && var t2 := Replay(t, name, RepoUrl(env, name), env.isoNow, effects);
      && name in t2.repositories && t2.repositories[name].lastVersionOrTag == Some(info.newVersion)
  {
    DecideRecordsFirst(env, name, info);
    RecordThenKeep(t, name, RepoUrl(env, name), env.isoNow, Decide(env, name, info).1, info.newVersion);
  }

  /** A new version's effects open with recording it, and none of the others passes a version. */
  lemma DecideRecordsFirst(env: Env, name: string, info: Versions.UpdateInfo)
    requires info.NewVersion?
    ensures var effects := Decide(env, name, info).1;
      |effects| > 0 && effects[0] == RecordVersion(info.newVersion) && NoVersionWrites(effects[1..])
  {
    var effects := Decide(env, name, info).1;
    if !info.isFirstCheck {
      var oldVersion := OldLabel(info.oldVersion);
      var a := Analysis(env, name, oldVersion, info);
      ConcludeShape(oldVersion, info.newVersion, a, env.emailAlertsEnabled, EmailResult(env, name, oldVersion, info.newVersion, a),
                    SlackOn(env), SlackResult(env, name, oldVersion, info.newVersion, a));
    }
  }

  /** Recording a version and then writing no other one leaves that version stored. */
  lemma RecordThenKeep(t: Tables, name: string, url: string, now: string, effects: seq<Effect>, version: string)
    requires WellFormed(t)
    requires |effects| > 0 && effects[0] == RecordVersion(version) && NoVersionWrites(effects[1..])
    ensures var t2 := Replay(t, name, url, now, effects);
      name in t2.repositories && t2.repositories[name].lastVersionOrTag == Some(version)
  {
    var t1 := Apply(t, name, url, now, effects[0]);
    assert t1 == Store.Upsert(t, name, url, Some(version), None, None, false, now);
    UpsertRow(t, name, url, Some(version), None, None, false, now);
    UpsertWellFormed(t, name, url, Some(version), None, None, false, now);
    KeepsLastVersion(t1, name, url, now, effects[1..]);
  }

  /** Writes that pass no version keep the stored one. */
  lemma {:induction false} KeepsLastVersion(t: Tables, name: string, url: string, now: string, effects: seq<Effect>)
    requires WellFormed(t) && name in t.repositories
    requires NoVersionWrites(effects)
    ensures name in Replay(t, name, url, now, effects).repositories
    ensures Replay(t, name, url, now, effects).repositories[name].lastVersionOrTag == t.repositories[name].lastVersionOrTag
    decreases |effects|
  {
    if effects != [] {
      assert NoVersionWrites(effects[1..]) by {
        forall i | 0 <= i < |effects[1..]| ensures effects[1..][i] == effects[i + 1] { }
      }
      var t1 := Apply(t, name, url, now, effects[0]);
      match effects[0] {
        case Upsert(v, al, sev, m) =>
          UpsertRow(t, name, url, v, al, sev, m, now);
          UpsertWellFormed(t, name, url, v, al, sev, m, now);
        case AppendAlert(v, sev, m, s) =>
          AddAlertWellFormed(t, name, v, sev, m, s, now);
        case _ =>
      }
      KeepsLastVersion(t1, name, url, now, effects[1..]);
    }
  }

  /** The first check of a repository records the version and stops there: no analysis,
      no channel, no history row. */
  lemma FirstCheckSkipsAnalysis(env: Env, name: string, info: Versions.UpdateInfo)
    requires info.NewVersion? && info.isFirstCheck
    ensures Decide(env, name, info) == (FirstCheck(info.newVersion), [RecordVersion(info.newVersion)])
    ensures var effects := Decide(env, name, info).1;
      Analyse !in effects && SendEmail !in effects && PostSlack !in effects
  {
  }

  /** A later version is analysed right after it is recorded, and the rest of the check is
      decided by the analysis and the channels' answers. */
  lemma ClassifiedUpdate(env: Env, name: string, info: Versions.UpdateInfo)
    requires info.NewVersion? && !info.isFirstCheck
    ensures var oldVersion := OldLabel(info.oldVersion);
      var a := Analysis(env, name, oldVersion, info);
      var c := Conclude(oldVersion, info.newVersion, a, env.emailAlertsEnabled,
                        EmailResult(env, name, oldVersion, info.newVersion, a),
                        SlackOn(env), SlackResult(env, name, oldVersion, info.newVersion, a));
      Decide(env, name, info) == (c.0, [RecordVersion(info.newVersion), Analyse] + c.1)
  {
  }

  /** Severity and flag of the analysis are stored first, whatever the alert decision;
      when the policy says no, nothing more happens and the status is
      `update_detected_no_alert`. */
  lemma SeverityStoredBeforeDecision(oldVersion: string, newVersion: string, a: Classifier.Analysis,
                                     emailOn: bool, emailSent: bool, slackOn: bool, slackSent: bool)
    requires Classifier.Usable(a) && Sliceable(a["summary"])
    ensures var r := Conclude(oldVersion, newVersion, a, emailOn, emailSent, slackOn, slackSent);
      && |r.1| >= 1 && r.1[0] == Upsert(None, None, Some(a["severity"].s), a["mandatory_upgrade"].b)
      && (!Classifier.ShouldSendAlert(a) <==> StatusOf(r.0) == UpdateDetectedNoAlert)
      && (!Classifier.ShouldSendAlert(a) ==> |r.1| == 1)
  {
  }

  /** The e-mail channel is tried exactly when an alert is due and e-mail is enabled, and
      Slack exactly when an alert is due and Slack is on; neither depends on the other's
      answer. */
  lemma ChannelsAttempted(oldVersion: string, newVersion: string, a: Classifier.Analysis,
                          emailOn: bool, emailSent: bool, slackOn: bool, slackSent: bool)
    requires Classifier.Usable(a)
    ensures var effects := Conclude(oldVersion, newVersion, a, emailOn, emailSent, slackOn, slackSent).1;
      var due := Sliceable(a["summary"]) && Classifier.ShouldSendAlert(a);
      && (SendEmail in effects <==> due && emailOn)
      && (PostSlack in effects <==> due && slackOn)
  {
    var effects := Conclude(oldVersion, newVersion, a, emailOn, emailSent, slackOn, slackSent).1;
    if Sliceable(a["summary"]) && Classifier.ShouldSendAlert(a) {
      if emailOn { assert effects[1] == SendEmail; }
      if slackOn { assert effects[if emailOn then 2 else 1] == PostSlack; }
    }
  }

  /** An alert counts as sent exactly when it was due, one channel succeeded and the
      summary could be stored; it fails exactly when it was due and no channel succeeded. */
  lemma AlertSentIffSomeChannel(oldVersion: string, newVersion: string, a: Classifier.Analysis,
                                emailOn: bool, emailSent: bool, slackOn: bool, slackSent: bool)
    requires Classifier.Usable(a)
    ensures var o := Conclude(oldVersion, newVersion, a, emailOn, emailSent, slackOn, slackSent).0;
      && (o.AlertSent? <==> Classifier.ShouldSendAlert(a) && (emailSent || slackSent) && a["summary"].JString?)
      && (o.AlertFailed? <==> Sliceable(a["summary"]) && Classifier.ShouldSendAlert(a) && !(emailSent || slackSent))
  {
  }

  /** Alert sent: the history gains one row for the new version, with the analysis's
      severity, flag and summary; the last alerted version is the new version; and,
      because that last upsert passes no flag, the stored mandatory flag is false. */
  lemma AlertSentWrites(t: Tables, name: string, url: string, now: string,
                        oldVersion: string, newVersion: string, a: Classifier.Analysis,
                        emailOn: bool, emailSent: bool, slackOn: bool, slackSent: bool)
    requires WellFormed(t) && Classifier.Usable(a)
    requires Conclude(oldVersion, newVersion, a, emailOn, emailSent, slackOn, slackSent).0.AlertSent?
    ensures var t2 := Replay(t, name, url, now, Conclude(oldVersion, newVersion, a, emailOn, emailSent, slackOn, slackSent).1);
      && |t2.alertHistory| == |t.alertHistory| + 1
      && t2.alertHistory[..|t.alertHistory|] == t.alertHistory
      && t2.alertHistory[|t.alertHistory|]
           == AlertHistory(Some(|t.alertHistory| + 1), name, newVersion, a["severity"].s,
                           a["mandatory_upgrade"].b, a["summary"].s, now)
      && name in t2.repositories
      && t2.repositories[name].lastAlertedVersion == Some(newVersion)
      && !t2.repositories[name].mandatoryUpgrade
  {
    var effects := Conclude(oldVersion, newVersion, a, emailOn, emailSent, slackOn, slackSent).1;
    var n := |effects|;
    var prefix := effects[..n - 2];
    assert effects == prefix + [Upsert(None, Some(newVersion), None, false)]
                     + [AppendAlert(newVersion, a["severity"].s, a["mandatory_upgrade"].b, a["summary"].s)];
    assert forall i :: 0 <= i < |prefix| ==> !prefix[i].AppendAlert?;
    MarkThenAppend(t, name, url, now, prefix, newVersion, a["severity"].s, a["mandatory_upgrade"].b, a["summary"].s);
  }

  /** Effects without appends, then the alerted mark and the history row. */
  lemma MarkThenAppend(t: Tables, name: string, url: string, now: string, prefix: seq<Effect>,
                       version: string, severity: string, mandatory: bool, summary: string)
    requires WellFormed(t)
    requires forall i :: 0 <= i < |prefix| ==> !prefix[i].AppendAlert?
    ensures var t2 := Replay(t, name, url, now, prefix + [Upsert(None, Some(version), None, false)]
                                                + [AppendAlert(version, severity, mandatory, summary)]);
      && |t2.alertHistory| == |t.alertHistory| + 1
      && t2.alertHistory[..|t.alertHistory|] == t.alertHistory
      && t2.alertHistory[|t.alertHistory|]
           == AlertHistory(Some(|t.alertHistory| + 1), name, version, severity, mandatory, summary, now)
      && name in t2.repositories
      && t2.repositories[name].lastAlertedVersion == Some(version)
      && !t2.repositories[name].mandatoryUpgrade
  {
    var mark := Upsert(None, Some(version), None, false);
    var append := AppendAlert(version, severity, mandatory, summary);
    ReplayAppend(t, name, url, now, prefix + [mark], [append]);
    ReplayAppend(t, name, url, now, prefix, [mark]);
    var t0 := Replay(t, name, url, now, prefix);
    ReplayWellFormed(t, name, url, now, prefix);
    ReplayOne(t0, name, url, now, mark);
    var t1 := Store.Upsert(t0, name, url, None, Some(version), None, false, now);
    UpsertRow(t0, name, url, None, Some(version), None, false, now);
    ReplayOne(t1, name, url, now, append);
    ReplayHistory(t, name, url, now, prefix);
    NoAppends(prefix);
  }

  lemma {:induction false} NoAppends(effects: seq<Effect>)
    requires forall i :: 0 <= i < |effects| ==> !effects[i].AppendAlert?
    ensures Appends(effects) == 0
    decreases |effects|
  {
    if effects != [] {
      NoAppends(effects[1..]);
    }
  }

  lemma {:induction false} AppendsConcat(a: seq<Effect>, b: seq<Effect>)
    ensures Appends(a + b) == Appends(a) + Appends(b)
    decreases |a|
  {
    if a == [] {
      assert a + b == b;
    } else {
      assert (a + b)[1..] == a[1..] + b;
      AppendsConcat(a[1..], b);
    }
  }

  /** A due alert appends one history row when it is sent and none otherwise. */
  lemma AlertAppends(oldVersion: string, newVersion: string, a: Classifier.Analysis,
                     emailOn: bool, emailSent: bool, slackOn: bool, slackSent: bool)
    requires Classifier.Usable(a)
    ensures var r := Alert(oldVersion, newVersion, a, emailOn, emailSent, slackOn, slackSent);
      Appends(r.1) == if r.0.AlertSent? then 1 else 0
  {
    var r := Alert(oldVersion, newVersion, a, emailOn, emailSent, slackOn, slackSent);
    var marked := Attempts(emailOn, slackOn) + [Upsert(None, Some(newVersion), None, false)];
    if r.0.AlertSent? {
      assert r.1 == marked + [r.1[|r.1| - 1]];
      AppendsConcat(marked, [r.1[|r.1| - 1]]);
      NoAppends(marked);
      assert Appends([r.1[|r.1| - 1]]) == 1;
    } else {
      NoAppends(r.1);
    }
  }

  /** The same for everything after the analysis. */
  lemma ConcludeAppends(oldVersion: string, newVersion: string, a: Classifier.Analysis,
                        emailOn: bool, emailSent: bool, slackOn: bool, slackSent: bool)
    requires Classifier.Usable(a)
    ensures var r := Conclude(oldVersion, newVersion, a, emailOn, emailSent, slackOn, slackSent);
      Appends(r.1) == if r.0.AlertSent? then 1 else 0
  {
    var r := Conclude(oldVersion, newVersion, a, emailOn, emailSent, slackOn, slackSent);
    if Sliceable(a["summary"]) && Classifier.ShouldSendAlert(a) {
      var persisted := [Upsert(None, None, Some(a["severity"].s), a["mandatory_upgrade"].b)];
      var alert := Alert(oldVersion, newVersion, a, emailOn, emailSent, slackOn, slackSent);
      AppendsConcat(persisted, alert.1);
      NoAppends(persisted);
      AlertAppends(oldVersion, newVersion, a, emailOn, emailSent, slackOn, slackSent);
    } else {
      NoAppends(r.1);
    }
  }

  /** A check appends one history row when it sends an alert and none otherwise. */
  lemma StepAppends(env: Env, name: string, info: Versions.UpdateInfo)
    ensures Appends(Decide(env, name, info).1) == if Decide(env, name, info).0.AlertSent? then 1 else 0
  {
    var r := Decide(env, name, info);
    if info.NewVersion? && !info.isFirstCheck {
      var oldVersion := OldLabel(info.oldVersion);
      var a := Analysis(env, name, oldVersion, info);
      var c := Conclude(oldVersion, info.newVersion, a, env.emailAlertsEnabled,
                        EmailResult(env, name, oldVersion, info.newVersion, a),
                        SlackOn(env), SlackResult(env, name, oldVersion, info.newVersion, a));
      AppendsConcat([RecordVersion(info.newVersion), Analyse], c.1);
      NoAppends([RecordVersion(info.newVersion), Analyse]);
      ConcludeAppends(oldVersion, info.newVersion, a, env.emailAlertsEnabled,
                      EmailResult(env, name, oldVersion, info.newVersion, a),
                      SlackOn(env), SlackResult(env, name, oldVersion, info.newVersion, a));
    } else {
      NoAppends(r.1);
    }
  }

  /** The history grows by one row exactly for `alert_sent`, and only at its end. */
  lemma HistoryGrowsOnlyWhenSent(t: Tables, env: Env, name: string)
    ensures |After(t, env, name).alertHistory| ==
      |t.alertHistory| + (if StatusOf(Step(t, env, name).0) == AlertSentStatus then 1 else 0)
    ensures After(t, env, name).alertHistory[..|t.alertHistory|] == t.alertHistory
  {
    var r := Step(t, env, name);
    assert r == Decide(env, name, Info(t, env, name));
    ReplayHistory(t, name, RepoUrl(env, name), env.isoNow, r.1);
    StepAppends(env, name, Info(t, env, name));
    assert Appends(r.1) == if StatusOf(r.0) == AlertSentStatus then 1 else 0;
  }

  /** When every channel fails, the alerted version and the history stay as they were,
      so the next check tries again. */
  lemma AlertFailedKeepsAlertState(t: Tables, name: string, url: string, now: string,
                                   oldVersion: string, newVersion: string, a: Classifier.Analysis,
                                   emailOn: bool, emailSent: bool, slackOn: bool, slackSent: bool)
    requires WellFormed(t) && name in t.repositories && Classifier.Usable(a)
    requires Conclude(oldVersion, newVersion, a, emailOn, emailSent, slackOn, slackSent).0.AlertFailed?
    ensures var t2 := Replay(t, name, url, now, Conclude(oldVersion, newVersion, a, emailOn, emailSent, slackOn, slackSent).1);
      && t2.alertHistory == t.alertHistory
      && name in t2.repositories
      && t2.repositories[name].lastAlertedVersion == t.repositories[name].lastAlertedVersion
  {
    var effects := Conclude(oldVersion, newVersion, a, emailOn, emailSent, slackOn, slackSent).1;
    ConcludeShape(oldVersion, newVersion, a, emailOn, emailSent, slackOn, slackSent);
    KeepsLastAlerted(t, name, url, now, effects);
    ReplayHistory(t, name, url, now, effects);
    NoAppends(effects);
  }

  lemma {:induction false} KeepsLastAlerted(t: Tables, name: string, url: string, now: string, effects: seq<Effect>)
    requires WellFormed(t) && name in t.repositories
    requires NoAlertedWrites(effects)
    ensures name in Replay(t, name, url, now, effects).repositories
    ensures Replay(t, name, url, now, effects).repositories[name].lastAlertedVersion == t.repositories[name].lastAlertedVersion
    decreases |effects|
  {
    if effects != [] {
      assert NoAlertedWrites(effects[1..]) by {
        forall i | 0 <= i < |effects[1..]| ensures effects[1..][i] == effects[i + 1] { }
      }
      var t1 := Apply(t, name, url, now, effects[0]);
      match effects[0] {
        case Upsert(v, al, sev, m) =>
          UpsertRow(t, name, url, v, al, sev, m, now);
          UpsertWellFormed(t, name, url, v, al, sev, m, now);
        case AppendAlert(v, sev, m, s) =>
          AddAlertWellFormed(t, name, v, sev, m, s, now);
        case _ =>
      }
      KeepsLastAlerted(t1, name, url, now, effects[1..]);
    }
  }

  // ---------------------------------------------------------------------------
  // check_all_repositories
  // ---------------------------------------------------------------------------

  /** The results and the tables after checking the repositories in list order. */
  function RunAll(t: Tables, env: Env, repos: seq<string>): (r: (seq<CheckResult>, Tables))
    ensures |r.0| == |repos|
    ensures forall i :: 0 <= i < |repos| ==> r.0[i].repoName == repos[i]
    decreases |repos|
  {
    if repos == [] then ([], t)
    else
      var prev := RunAll(t, env, repos[..|repos| - 1]);
      var name := repos[|repos| - 1];
      var outcome := Step(prev.1, env, name).0;
      (prev.0 + [CheckResult(name, outcome)], After(prev.1, env, name))
  }

  /** `sum(1 for r in results if r.get("status") == status)`. */
  function CountStatus(results: seq<CheckResult>, s: Status): (n: nat)
    ensures n <= |results|
  {
    if results == [] then 0
    else CountStatus(results[..|results| - 1], s) + (if StatusOf(results[|results| - 1].outcome) == s then 1 else 0)
  }

  /** The summary the batch prints. */
  datatype Tally = Tally(total: nat, alertsSent: nat, noUpdates: nat, errors: nat)

  function TallyOf(results: seq<CheckResult>): Tally {
    Tally(|results|, CountStatus(results, AlertSentStatus), CountStatus(results, NoUpdateStatus),
          CountStatus(results, Error))
  }

  /** The three counted statuses are distinct, so together they never exceed the total. */
  lemma {:induction false} TallyBounded(results: seq<CheckResult>)
    ensures CountStatus(results, AlertSentStatus) + CountStatus(results, NoUpdateStatus)
          + CountStatus(results, Error) <= |results|
    decreases |results|
  {
    if results != [] {
      TallyBounded(results[..|results| - 1]);
    }
  }

  /** Over a batch, the history grows by exactly one row per `alert_sent` result. */
  lemma {:induction false} BatchHistory(t: Tables, env: Env, repos: seq<string>)
    ensures |RunAll(t, env, repos).1.alertHistory| == |t.alertHistory| + CountStatus(RunAll(t, env, repos).0, AlertSentStatus)
    ensures RunAll(t, env, repos).1.alertHistory[..|t.alertHistory|] == t.alertHistory
    decreases |repos|
  {
    if repos != [] {
      var prev := RunAll(t, env, repos[..|repos| - 1]);
      BatchHistory(t, env, repos[..|repos| - 1]);
      var name := repos[|repos| - 1];
      HistoryGrowsOnlyWhenSent(prev.1, env, name);
      var results := RunAll(t, env, repos).0;
      assert results[..|results| - 1] == prev.0;
      var h := RunAll(t, env, repos).1.alertHistory;
      assert h[..|t.alertHistory|] == h[..|prev.1.alertHistory|][..|t.alertHistory|];
    }
  }

  // ---------------------------------------------------------------------------
  // The orchestrator run on a database
  // ---------------------------------------------------------------------------

  /** `check_repository_updates(repo_name, db, ...)`: the writes happen on `db` in the
      order the steps take; `effects` records them with the analyser and channel calls. */
  method CheckRepositoryUpdates(db: Database, env: Env, name: string)
    returns (result: CheckResult, ghost effects: seq<Effect>)
    requires db.Valid()
    modifies db
    ensures db.Valid()
    ensures (result.outcome, effects) == Step(old(db.Contents()), env, name) && result.repoName == name
    ensures db.Contents() == Replay(old(db.Contents()), name, RepoUrl(env, name), env.isoNow, effects)
  {
    ghost var t := db.Contents();
    var repo := db.GetRepository(name);
    var last := if repo.Some? then repo.value.lastVersionOrTag else None;
    var url := env.repoUrl(name);
    var now := env.isoNow;
    var info := env.checkForUpdates(name, last);
    assert info == Info(t, env, name);
    assert Step(t, env, name) == Decide(env, name, info);
    match info {
      case NameRejected(message) =>
        result, effects := CheckResult(name, Failed(InvalidName(message))), [];
      case CheckFailed(error) =>
        result, effects := CheckResult(name, Failed(UpdateError(error))), [];
      case Unchanged(current) =>
        db.UpsertRepository(name, url, None, None, None, false, now);
        effects := Write(t, name, url, now, [], Upsert(None, None, None, false), t);
        assert effects == [Upsert(None, None, None, false)];
        result := CheckResult(name, NoUpdate(current));
      case NewVersion(_, _, _, _, _, _, _) =>
        var outcome;
        outcome, effects := NewVersionFound(db, env, name, info);
        result := CheckResult(name, outcome);
    }
  }

  /** A new version: it is recorded, and unless this is the first check it is analysed
      and the alert phase follows. */
  method NewVersionFound(db: Database, env: Env, name: string, info: Versions.UpdateInfo)
    returns (outcome: Outcome, ghost effects: seq<Effect>)
    requires db.Valid() && info.NewVersion?
    modifies db
    ensures db.Valid()
    ensures (outcome, effects) == Decide(env, name, info)
    ensures db.Contents() == Replay(old(db.Contents()), name, RepoUrl(env, name), env.isoNow, effects)
  {
    ghost var t := db.Contents();
    var url := env.repoUrl(name);
    var now := env.isoNow;
    var newVersion := info.newVersion;
    db.UpsertRepository(name, url, Some(newVersion), None, None, false, now);
    effects := Write(t, name, url, now, [], RecordVersion(newVersion), t);
    assert effects == [RecordVersion(newVersion)];
    if info.isFirstCheck {
      outcome := FirstCheck(newVersion);
    } else {
      var oldVersion := OldLabel(info.oldVersion);
      var analysis := Analysis(env, name, oldVersion, info);
      effects := Pass(t, name, url, now, effects, Analyse);
      ghost var analysed := effects;
      assert analysed == [RecordVersion(newVersion), Analyse];
      ghost var tail;
      outcome, tail := Deliver(db, env, name, oldVersion, newVersion, analysis);
      effects := analysed + tail;
      ReplayAppend(t, name, url, now, analysed, tail);
    }
  }

  /** The part of the check after the analysis, run on `db`. */
  method Deliver(db: Database, env: Env, name: string, oldVersion: string, newVersion: string,
                 analysis: Classifier.Analysis)
    returns (outcome: Outcome, ghost effects: seq<Effect>)
    requires db.Valid() && Classifier.Usable(analysis)
    modifies db
    ensures db.Valid()
    ensures (outcome, effects) == Conclude(oldVersion, newVersion, analysis, env.emailAlertsEnabled,
                                           EmailResult(env, name, oldVersion, newVersion, analysis),
                                           SlackOn(env), SlackResult(env, name, oldVersion, newVersion, analysis))
    ensures db.Contents() == Replay(old(db.Contents()), name, RepoUrl(env, name), env.isoNow, effects)
  {
    ghost var t := db.Contents();
    var url := env.repoUrl(name);
    var now := env.isoNow;
    var severity := analysis["severity"].s;
    var mandatory := analysis["mandatory_upgrade"].b;
    var summary := analysis["summary"];
    if !Sliceable(summary) {
      return Failed(SummaryNotSliceable(summary)), [];
    }
    db.UpsertRepository(name, url, None, None, Some(severity), mandatory, now);
    ghost var persisted := [Upsert(None, None, Some(severity), mandatory)];
    ReplayOne(t, name, url, now, persisted[0]);
    if !Classifier.ShouldSendAlert(analysis) {
      return NoAlertNeeded(oldVersion, newVersion, severity), persisted;
    }
    ghost var before := db.Contents();
    ghost var tail;
    outcome, tail := SendAlert(db, env, name, oldVersion, newVersion, analysis);
    effects := persisted + tail;
    ReplayAppend(t, name, url, now, persisted, tail);
  }

  /** A due alert, run on `db`. */
  method SendAlert(db: Database, env: Env, name: string, oldVersion: string, newVersion: string,
                   analysis: Classifier.Analysis)
    returns (outcome: Outcome, ghost effects: seq<Effect>)
    requires db.Valid() && Classifier.Usable(analysis)
    modifies db
    ensures db.Valid()
    ensures (outcome, effects) == Alert(oldVersion, newVersion, analysis, env.emailAlertsEnabled,
                                        EmailResult(env, name, oldVersion, newVersion, analysis),
                                        SlackOn(env), SlackResult(env, name, oldVersion, newVersion, analysis))
    ensures db.Contents() == Replay(old(db.Contents()), name, RepoUrl(env, name), env.isoNow, effects)
  {
    ghost var t := db.Contents();
    var url := env.repoUrl(name);
    var now := env.isoNow;
    var severity := analysis["severity"].s;
    var mandatory := analysis["mandatory_upgrade"].b;
    var summary := analysis["summary"];
    var emailSent, slackSent := Notify(env, name, oldVersion, newVersion, analysis);
    ghost var attempted := Attempts(env.emailAlertsEnabled, SlackOn(env));
    AttemptsWriteNothing(t, name, url, now, env.emailAlertsEnabled, SlackOn(env));
    if emailSent || slackSent {
      var stored, tail := MarkAlerted(db, name, url, now, newVersion, severity, mandatory, summary);
      effects := attempted + tail;
      ReplayAppend(t, name, url, now, attempted, tail);
      if stored {
        outcome := AlertSent(oldVersion, newVersion, severity, mandatory, emailSent, slackSent, summary);
        assert effects == attempted + [Upsert(None, Some(newVersion), None, false)]
                          + [AppendAlert(newVersion, severity, mandatory, summary.s)];
      } else {
        outcome := Failed(SummaryNotStorable(summary));
      }
    } else {
      outcome, effects := AlertFailed(oldVersion, newVersion), attempted;
    }
  }

  /** The enabled channels, each tried whatever the other answered. */
  method Notify(env: Env, name: string, oldVersion: string, newVersion: string, analysis: Classifier.Analysis)
    returns (emailSent: bool, slackSent: bool)
    ensures emailSent == EmailResult(env, name, oldVersion, newVersion, analysis)
    ensures slackSent == SlackResult(env, name, oldVersion, newVersion, analysis)
  {
    var url := env.repoUrl(name);
    emailSent := false;
    if env.emailAlertsEnabled {
      emailSent := env.sendEmail(name, oldVersion, newVersion, analysis, url);
    }
    slackSent := false;
    if env.slackAlertsEnabled && env.slackEnabled {
      slackSent := env.sendSlack(name, oldVersion, newVersion, analysis, url);
    }
  }

  /** After a channel succeeded: the version is marked alerted, then the history row is
      added, which fails for a summary SQLite cannot bind. */
  method MarkAlerted(db: Database, name: string, url: string, now: string, newVersion: string,
                     severity: string, mandatory: bool, summary: Json)
    returns (stored: bool, ghost effects: seq<Effect>)
    requires db.Valid()
    modifies db
    ensures db.Valid()
    ensures stored == summary.JString?
    ensures stored ==> effects == [Upsert(None, Some(newVersion), None, false)]
                                  + [AppendAlert(newVersion, severity, mandatory, summary.s)]
    ensures !stored ==> effects == [Upsert(None, Some(newVersion), None, false)]
    ensures db.Contents() == Replay(old(db.Contents()), name, url, now, effects)
  {
    ghost var t := db.Contents();
    db.UpsertRepository(name, url, None, Some(newVersion), None, false, now);
    effects := Write(t, name, url, now, [], Upsert(None, Some(newVersion), None, false), t);
    match summary {
      case JString(text) =>
        ghost var before := db.Contents();
        db.AddAlertHistory(name, newVersion, severity, mandatory, text, now);
        effects := Write(t, name, url, now, effects, AppendAlert(newVersion, severity, mandatory, text), before);
        stored := true;
      case _ =>
        stored := false;
    }
  }

  /** Extends the record by a write just performed on the tables `before`. */
  lemma Write(t: Tables, name: string, url: string, now: string, done: seq<Effect>, e: Effect, before: Tables)
    returns (effects: seq<Effect>)
    requires IsWrite(e) && before == Replay(t, name, url, now, done)
    ensures effects == done + [e]
    ensures Replay(t, name, url, now, effects) == Apply(before, name, url, now, e)
  {
    effects := done + [e];
    ReplayAppend(t, name, url, now, done, [e]);
    ReplayOne(before, name, url, now, e);
  }

  /** Extends the record by a call that writes nothing. */
  lemma Pass(t: Tables, name: string, url: string, now: string, done: seq<Effect>, e: Effect)
    returns (effects: seq<Effect>)
    requires !IsWrite(e)
    ensures effects == done + [e]
    ensures Replay(t, name, url, now, effects) == Replay(t, name, url, now, done)
  {
    effects := done + [e];
    ReplayAppend(t, name, url, now, done, [e]);
    ReplayOne(Replay(t, name, url, now, done), name, url, now, e);
  }

  /** `check_all_repositories(...)`: every repository is checked in list order, one
      result each, and the outcomes are tallied. */
  method CheckAllRepositories(db: Database, env: Env, repoList: seq<string>)
    returns (results: seq<CheckResult>, tally: Tally)
    requires db.Valid()
    modifies db
    ensures db.Valid()
    ensures (results, db.Contents()) == RunAll(old(db.Contents()), env, repoList)
    ensures tally == TallyOf(results)
  {
    results := RunEach(db, env, repoList);
    var alertsSent := CountSent(results, AlertSentStatus);
    var noUpdates := CountSent(results, NoUpdateStatus);
    var errors := CountSent(results, Error);
    tally := Tally(|results|, alertsSent, noUpdates, errors);
  }

  /** The `for repo_name in repo_list` loop: one check per repository, in order. */
  method RunEach(db: Database, env: Env, repoList: seq<string>) returns (results: seq<CheckResult>)
    requires db.Valid()
    modifies db
    ensures db.Valid()
    ensures (results, db.Contents()) == RunAll(old(db.Contents()), env, repoList)
  {
    ghost var t := db.Contents();
    results := [];
    var i := 0;
    while i < |repoList|
      invariant 0 <= i <= |repoList|
      invariant db.Valid()
      invariant (results, db.Contents()) == RunAll(t, env, repoList[..i])
    {
      RunAllPrefix(t, env, repoList, i);
      var result, effects := CheckRepositoryUpdates(db, env, repoList[i]);
      results := results + [result];
      i := i + 1;
    }
    assert repoList[..|repoList|] == repoList;
  }

  lemma RunAllPrefix(t: Tables, env: Env, repos: seq<string>, i: nat)
    requires i < |repos|
    ensures var prev := RunAll(t, env, repos[..i]);
      RunAll(t, env, repos[..i + 1]) ==
        (prev.0 + [CheckResult(repos[i], Step(prev.1, env, repos[i]).0)], After(prev.1, env, repos[i]))
  {
    assert repos[..i + 1][..i] == repos[..i];
  }

  /** The generator sum, as a loop. */
  method CountSent(results: seq<CheckResult>, s: Status) returns (n: nat)
    ensures n == CountStatus(results, s)
  {
    n := 0;
    var i := 0;
    while i < |results|
      invariant 0 <= i <= |results|
      invariant n == CountStatus(results[..i], s)
    {
      assert results[..i + 1][..i] == results[..i];
      if StatusOf(results[i].outcome) == s {
        n := n + 1;
      }
      i := i + 1;
    }
    assert results[..|results|] == results;
  }
}
