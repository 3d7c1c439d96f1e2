/**
 * The e-mail alert: its subject, its plain-text body and the outcome of sending it.
 *
 * The SMTP exchange (connection, STARTTLS, login, delivery) is not modelled; it is the
 * `transport` parameter, which answers whether the message went out. The generation time
 * is a parameter too, already formatted as `YYYY-MM-DD HH:MM:SS`.
 */
module EmailAlert {
  import opened Text
  import opened JsonValue
  import opened AlertFields

  /** A composed message: the three headers and the body. */
  datatype Email = Email(subject: string, sender: string, recipient: string, body: string)

  const CriticalPrefix := "\U{1F6A8} CRITICAL"
  const HighPrefix := "\U{26A0}\U{FE0F} HIGH"
  const MediumPrefix := "\U{2139}\U{FE0F} MEDIUM"
  const LowPrefix := "\U{1F4DD} LOW"
  const MandatoryFlag := " [MANDATORY]"

  /** The subject prefix: each of the three named severities has its own, and every
      other value, `LOW` or not, gets the `LOW` prefix. */
  function SubjectPrefix(severity: Json): (p: string)
    ensures p == LowPrefix <==> severity !in [JString("CRITICAL"), JString("HIGH"), JString("MEDIUM")]
  {
    if severity == JString("CRITICAL") then CriticalPrefix
    else if severity == JString("HIGH") then HighPrefix
    else if severity == JString("MEDIUM") then MediumPrefix
    else LowPrefix
  }

  function FlagText(mandatory: bool): string {
    if mandatory then MandatoryFlag else ""
  }

  /** The `Subject` header. */
  function Subject(repoName: string, newVersion: string, a: map<string, Json>): string {
    SubjectPrefix(Severity(a)) + FlagText(Mandatory(a)) + " " + repoName + " Update: " + newVersion
  }

  /** With no severity and no flag the subject is the medium one, unflagged. */
  lemma SubjectDefaults(repoName: string, newVersion: string)
    ensures Subject(repoName, newVersion, map[]) == MediumPrefix + " " + repoName + " Update: " + newVersion
  {
    assert FlagText(Mandatory(map[])) == "";
  }

  /** For one severity the subject tells whether the upgrade is mandatory. */
  lemma SubjectMarksMandatory(repoName: string, newVersion: string, a: map<string, Json>, b: map<string, Json>)
    requires Severity(a) == Severity(b)
    ensures Subject(repoName, newVersion, a) == Subject(repoName, newVersion, b) <==> Mandatory(a) == Mandatory(b)
  {
    if Mandatory(a) != Mandatory(b) {
      assert |FlagText(Mandatory(a))| != |FlagText(Mandatory(b))|;
      assert |Subject(repoName, newVersion, a)| != |Subject(repoName, newVersion, b)|;
    }
  }

  /** `'=' * 60`. */
  const Rule: string := Repeat('=', 60)

  /** A titled part of the body: the title between two rules, a blank line, the content
      and a blank line. */
  function Part(title: string, content: string): string {
    Rule + "\n" + title + "\n" + Rule + "\n\n" + content + "\n\n"
  }

  /** The four lines after the banner. */
  function Details(repoName: string, oldVersion: string, newVersion: string, a: map<string, Json>): string {
    "Repository: " + repoName + "\n"
    + "Version Change: " + oldVersion + " \U{2192} " + newVersion + "\n"
    + "Severity: " + Str(Severity(a)) + "\n"
    + "Mandatory Upgrade: " + (if Mandatory(a) then "YES" else "NO") + "\n"
  }

  /** `analysis.get('summary', 'No summary available.')`, as placed in the text. */
  function SummaryText(a: map<string, Json>): string {
    Str(Get(a, "summary", JString("No summary available.")))
  }

  function ReasoningText(a: map<string, Json>): string {
    Str(Get(a, "reasoning", JString("No detailed reasoning provided.")))
  }

  /** Everything before the recommendation. */
  function Head(repoName: string, oldVersion: string, newVersion: string, a: map<string, Json>): string {
    "Blockchain Release Monitor Alert\n" + Rule + "\n\n"
    + Details(repoName, oldVersion, newVersion, a) + "\n"
    + Part("SUMMARY", SummaryText(a))
    + Part("REASONING", ReasoningText(a))
    + Rule + "\nRECOMMENDATION\n" + Rule + "\n\n"
  }

  /** The first line of each recommendation, before its colon. */
  function Opening(advice: Advice): string {
    match advice
    case MandatoryUpgrade => "\U{26A0}\U{FE0F}  This is a MANDATORY upgrade. Action required"
    case CriticalUpdate => "\U{1F6A8} CRITICAL update detected"
    case HighPriority => "\U{26A0}\U{FE0F}  HIGH priority update"
    case Routine => "\U{2139}\U{FE0F}  Update available"
  }

  /** The steps listed under it, one indented line each. */
  function Steps(advice: Advice): string {
    match advice
    case MandatoryUpgrade =>
      "   - Review the changes immediately\n"
      + "   - Plan upgrade timeline\n"
      + "   - Test in staging environment\n"
      + "   - Deploy to production ASAP\n"
    case CriticalUpdate =>
      "   - Review security implications\n"
      + "   - Upgrade as soon as possible\n"
      + "   - Monitor for network consensus changes\n"
    case HighPriority =>
      "   - Review changes at your earliest convenience\n"
      + "   - Plan upgrade within reasonable timeframe\n"
      + "   - Consider impact on your infrastructure\n"
    case Routine =>
      "   - Review when convenient\n"
      + "   - No immediate action required\n"
      + "   - Plan upgrade during regular maintenance\n"
  }

  /** The recommendation text of each advice. */
  function Recommendation(advice: Advice): string {
    Opening(advice) + ":\n" + Steps(advice)
  }

  /** `repo_url or f'https://github.com/{repo_name}'`. */
  function RepositoryLink(repoName: string, repoUrl: string): (r: string)
    ensures repoUrl == "" ==> r == "https://github.com/" + repoName
    ensures repoUrl != "" ==> r == repoUrl
  {
    if repoUrl != "" then repoUrl else "https://github.com/" + repoName
  }

  function RepositoryLine(repoName: string, repoUrl: string): string {
    "Repository: " + RepositoryLink(repoName, repoUrl) + "\n"
  }

  /** The release link is built on `repo_url` even when it is empty. */
  function ReleaseLine(newVersion: string, repoUrl: string): string {
    "New Version: " + repoUrl + "/releases/tag/" + newVersion
  }

  function LinkLines(repoName: string, newVersion: string, repoUrl: string): string {
    RepositoryLine(repoName, repoUrl) + ReleaseLine(newVersion, repoUrl)
  }

  function Footer(generatedAt: string): string {
    Rule + "\n\nGenerated at: " + generatedAt + " UTC\n" + "Blockchain Release Monitor\n"
  }

  /** Everything after the recommendation. */
  function Tail(repoName: string, newVersion: string, repoUrl: string, generatedAt: string): string {
    "\n\n" + Part("LINKS", LinkLines(repoName, newVersion, repoUrl)) + Footer(generatedAt)
  }

  function Body(repoName: string, oldVersion: string, newVersion: string, a: map<string, Json>,
                repoUrl: string, generatedAt: string): string {
    Head(repoName, oldVersion, newVersion, a) + Recommendation(AdviceFor(a))
    + Tail(repoName, newVersion, repoUrl, generatedAt)
  }

  /** `_create_alert_email`: the subject opens with the severity's prefix, flagged when
      the upgrade is mandatory, then the repository; the body carries the recommendation
      the precedence picks and the links part. */
  function CreateAlertEmail(sender: string, recipient: string, repoName: string, oldVersion: string,
                            newVersion: string, a: map<string, Json>, repoUrl: string, generatedAt: string): (m: Email)
    ensures m.subject == Subject(repoName, newVersion, a) && m.sender == sender && m.recipient == recipient
    ensures m.body == Body(repoName, oldVersion, newVersion, a, repoUrl, generatedAt)
    ensures SubjectPrefix(Severity(a)) + FlagText(Mandatory(a)) + " " + repoName <= m.subject
    ensures Mandatory(a) ==> IsSubstring(MandatoryFlag, m.subject)
    ensures IsSubstring(Recommendation(AdviceFor(a)), m.body)
    ensures IsSubstring(Part("LINKS", LinkLines(repoName, newVersion, repoUrl)), m.body)
  {
    SubjectOpens(repoName, newVersion, a);
    BodyRecommends(repoName, oldVersion, newVersion, a, repoUrl, generatedAt);
    BodyLinks(repoName, oldVersion, newVersion, a, repoUrl, generatedAt);
    Email(Subject(repoName, newVersion, a), sender, recipient,
          Body(repoName, oldVersion, newVersion, a, repoUrl, generatedAt))
  }

  /** The subject opens with the severity prefix, the flag and the repository name, and
      a mandatory upgrade's subject carries the `[MANDATORY]` marker. */
  lemma SubjectOpens(repoName: string, newVersion: string, a: map<string, Json>)
    ensures SubjectPrefix(Severity(a)) + FlagText(Mandatory(a)) + " " + repoName <= Subject(repoName, newVersion, a)
    ensures Mandatory(a) ==> IsSubstring(MandatoryFlag, Subject(repoName, newVersion, a))
  {
    var p := SubjectPrefix(Severity(a));
    var head := p + FlagText(Mandatory(a)) + " " + repoName;
    var subject := Subject(repoName, newVersion, a);
    assert subject == head + (" Update: " + newVersion);
    if Mandatory(a) {
      assert subject == p + MandatoryFlag + (" " + repoName + " Update: " + newVersion);
      IsSubstringInside(p, MandatoryFlag, " " + repoName + " Update: " + newVersion);
    }
  }

  /** The body carries the recommendation the precedence picks. */
  lemma BodyRecommends(repoName: string, oldVersion: string, newVersion: string, a: map<string, Json>,
                       repoUrl: string, generatedAt: string)
    ensures IsSubstring(Recommendation(AdviceFor(a)), Body(repoName, oldVersion, newVersion, a, repoUrl, generatedAt))
  {
    IsSubstringInside(Head(repoName, oldVersion, newVersion, a), Recommendation(AdviceFor(a)),
                      Tail(repoName, newVersion, repoUrl, generatedAt));
  }

  /** The body carries the links part, whose first line links the repository page. */
  lemma BodyLinks(repoName: string, oldVersion: string, newVersion: string, a: map<string, Json>,
                  repoUrl: string, generatedAt: string)
    ensures IsSubstring(Part("LINKS", LinkLines(repoName, newVersion, repoUrl)),
                        Body(repoName, oldVersion, newVersion, a, repoUrl, generatedAt))
    ensures RepositoryLine(repoName, repoUrl) <= LinkLines(repoName, newVersion, repoUrl)
  {
    var links := Part("LINKS", LinkLines(repoName, newVersion, repoUrl));
    var footer := Footer(generatedAt);
    IsSubstringInside("\n\n", links, footer);
    assert Tail(repoName, newVersion, repoUrl, generatedAt) == "\n\n" + links + footer;
    IsSubstringPrepend(links, Head(repoName, oldVersion, newVersion, a) + Recommendation(AdviceFor(a)),
                       Tail(repoName, newVersion, repoUrl, generatedAt));
  }

  /** `send_alert`: true exactly when the transport delivered the composed message; any
      failure along the way gives false. */
  function SendAlert(sender: string, recipient: string, repoName: string, oldVersion: string,
                     newVersion: string, a: map<string, Json>, repoUrl: string, generatedAt: string,
                     transport: Email -> bool): (sent: bool)
    ensures sent == transport(CreateAlertEmail(sender, recipient, repoName, oldVersion, newVersion, a, repoUrl, generatedAt))
  {
    transport(CreateAlertEmail(sender, recipient, repoName, oldVersion, newVersion, a, repoUrl, generatedAt))
  }
}
