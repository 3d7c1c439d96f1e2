/**
 * The Slack alert: the message blocks, the plain fallback text and the outcome of
 * posting them to the incoming webhook.
 *
 * The HTTP POST is not modelled: `post` gives the status code the webhook answered, or
 * None when the request raised. The time is a parameter, already formatted as
 * `YYYY-MM-DD HH:MM:SS`.
 */
module SlackAlert {
  import opened Wrappers
  import opened JsonValue
  import opened AlertFields

  /** The service is enabled exactly when a webhook URL is configured. */
  predicate Enabled(webhookUrl: string) {
    webhookUrl != ""
  }

  const DefaultEmoji := "\U{1F4E2}"
  const DefaultColor := "#2eb886"

  /** `emoji_map.get(severity, "📢")`; None when the severity cannot be a dictionary key,
      for which the lookup raises. */
  function Emoji(severity: Json): (r: Option<string>)
    ensures r.None? <==> !Hashable(severity)
  {
    if !Hashable(severity) then None
    else if severity == JString("CRITICAL") then Some("\U{1F6A8}")
    else if severity == JString("HIGH") then Some("\U{26A0}\U{FE0F}")
    else if severity == JString("MEDIUM") then Some("\U{2139}\U{FE0F}")
    else if severity == JString("LOW") then Some("\U{1F4DD}")
    else Some(DefaultEmoji)
  }

  /** `color_map.get(severity, "#2eb886")`. The colour is looked up, so its lookup can
      raise, but no block uses it. */
  function Color(severity: Json): (r: Option<string>)
    ensures r.None? <==> !Hashable(severity)
  {
    if !Hashable(severity) then None
    else if severity == JString("CRITICAL") then Some("#d93f0b")
    else if severity == JString("HIGH") then Some("#f2c744")
    else if severity == JString("MEDIUM") then Some("#2eb886")
    else if severity == JString("LOW") then Some("#6b7280")
    else Some(DefaultColor)
  }

  predicate Known(severity: Json) {
    severity in [JString("CRITICAL"), JString("HIGH"), JString("MEDIUM"), JString("LOW")]
  }

  /** An unknown severity gets the loudspeaker and the green of `MEDIUM`; a missing one
      is `MEDIUM`. */
  lemma UnknownSeverityDefaults(severity: Json, a: map<string, Json>)
    ensures Hashable(severity) && !Known(severity) ==>
      Emoji(severity) == Some(DefaultEmoji) && Color(severity) == Some(DefaultColor)
    ensures "severity" !in a ==>
      Emoji(Severity(a)) == Some("\U{2139}\U{FE0F}") && Color(Severity(a)) == Some(DefaultColor)
  {
  }

  /** The block kinds the message uses; the three text sections are told apart by their
      role. */
  datatype Block =
    | Header(text: string)
    | Fields(repository: string, versionChange: string, severity: string, mandatory: string)
    | Divider
    | SummarySection(text: string)
    | ReasoningSection(text: string)
    | RecommendationSection(text: string)
    | Actions(url: string)
    | Context(text: string)

  /** The recommendation text of each advice. */
  function Recommendation(advice: Advice): string {
    match advice
    case MandatoryUpgrade =>
      "\U{26A0}\U{FE0F} *MANDATORY UPGRADE REQUIRED*\n" + "\U{2022} Review changes immediately\n"
      + "\U{2022} Plan upgrade timeline\n" + "\U{2022} Test in staging environment\n"
      + "\U{2022} Deploy to production ASAP"
    case CriticalUpdate =>
      "\U{1F6A8} *CRITICAL UPDATE*\n" + "\U{2022} Review security implications\n"
      + "\U{2022} Upgrade as soon as possible\n" + "\U{2022} Monitor for network consensus changes"
    case HighPriority =>
      "\U{26A0}\U{FE0F} *HIGH PRIORITY*\n" + "\U{2022} Review changes at earliest convenience\n"
      + "\U{2022} Plan upgrade within next maintenance window"
    case Routine =>
      "\U{2139}\U{FE0F} *INFORMATIONAL*\n" + "\U{2022} Review changes when convenient\n"
      + "\U{2022} No urgent action required"
  }

  /** `analysis.get('reasoning', '')`. */
  function Reasoning(a: map<string, Json>): Json {
    Get(a, "reasoning", JString(""))
  }

  function FieldsBlock(repoName: string, oldVersion: string, newVersion: string, emoji: string,
                       a: map<string, Json>): Block {
    Fields("*Repository:*\n" + repoName,
           "*Version Change:*\n`" + oldVersion + "` \U{2192} `" + newVersion + "`",
           "*Severity:*\n" + emoji + " " + Str(Severity(a)),
           "*Mandatory:*\n" + (if Mandatory(a) then "\U{2705} YES" else "\U{274C} NO"))
  }

  /** The block list `_create_alert_blocks` grows: the four fixed head blocks, the
      reasoning section when there is one, a divider, the recommendation, the button when
      there is a URL, and the footer. */
  function Assemble(head: seq<Block>, reasoning: Option<string>, recommendation: string,
                    repoUrl: string, footer: string): seq<Block> {
    head
    + (if reasoning.Some? then [ReasoningSection(reasoning.value)] else [])
    + [Divider, RecommendationSection(recommendation)]
    + (if repoUrl != "" then [Actions(repoUrl)] else [])
    + [Context(footer)]
  }

  /** The layout after the head: seven to nine blocks, a reasoning section exactly when
      `hasReasoning`, the button exactly when there is a URL and just before the footer,
      and the recommendation after a divider just before the button or the footer. */
  predicate Tail(b: seq<Block>, hasReasoning: bool, repoUrl: string, recommendation: string) {
    && 7 <= |b| <= 9
    && (hasReasoning <==> exists i :: 0 <= i < |b| && b[i].ReasoningSection?)
    && (repoUrl != "" <==> exists i :: 0 <= i < |b| && b[i].Actions?)
    && (repoUrl != "" ==> b[|b| - 2] == Actions(repoUrl))
    && b[|b| - (if repoUrl != "" then 3 else 2)] == RecommendationSection(recommendation)
    && b[|b| - (if repoUrl != "" then 4 else 3)] == Divider
  }

  /** Where each block of an assembled list sits. */
  lemma AssembleLayout(head: seq<Block>, reasoning: Option<string>, recommendation: string,
                       repoUrl: string, footer: string)
    requires |head| == 4 && forall i :: 0 <= i < 4 ==> !head[i].ReasoningSection? && !head[i].Actions?
    ensures var b := Assemble(head, reasoning, recommendation, repoUrl, footer);
      && b[0] == head[0] && b[1] == head[1] && b[2] == head[2] && b[3] == head[3]
      && b[|b| - 1] == Context(footer)
      && Tail(b, reasoning.Some?, repoUrl, recommendation)
  {
    var b := Assemble(head, reasoning, recommendation, repoUrl, footer);
    var k := if reasoning.Some? then 5 else 4;
    assert |b| == k + 3 + (if repoUrl != "" then 1 else 0);
    if reasoning.Some? {
      assert b[4].ReasoningSection?;
    }
    if repoUrl != "" {
      assert b[k + 2].Actions?;
    }
  }

  /** The four blocks every alert opens with: title, facts, divider and summary. */
  function HeadBlocks(repoName: string, oldVersion: string, newVersion: string, emoji: string,
                      a: map<string, Json>): seq<Block> {
    [Header(emoji + " " + repoName + " Update Available"),
     FieldsBlock(repoName, oldVersion, newVersion, emoji, a),
     Divider,
     SummarySection("*Summary*\n" + Str(Get(a, "summary", JString("No summary available."))))]
  }

  /** The reasoning section's text, when the reasoning is truthy. */
  function ReasoningText(a: map<string, Json>): Option<string> {
    if Truthy(Reasoning(a)) then Some("*Reasoning*\n" + Str(Reasoning(a))) else None
  }

  function Footer(timestamp: string): string {
    "Blockchain Release Monitor | " + timestamp + " UTC"
  }

  /** `_create_alert_blocks`; None when the severity lookups raise. */
  function AlertBlocks(repoName: string, oldVersion: string, newVersion: string, a: map<string, Json>,
                       repoUrl: string, timestamp: string): Option<seq<Block>> {
    match Emoji(Severity(a))
    case None => None
    case Some(emoji) =>
      Some(Assemble(HeadBlocks(repoName, oldVersion, newVersion, emoji, a), ReasoningText(a),
                    Recommendation(AdviceFor(a)), repoUrl, Footer(timestamp)))
  }

  /** The message layout: seven to nine blocks, header first and context last, the
      reasoning exactly when it is truthy, the button exactly when there is a URL, and the
      recommendation the precedence picks just before the button or the context. */
  lemma BlockLayout(repoName: string, oldVersion: string, newVersion: string, a: map<string, Json>,
                    repoUrl: string, timestamp: string)
    requires Hashable(Severity(a))
    ensures var r := AlertBlocks(repoName, oldVersion, newVersion, a, repoUrl, timestamp);
      && r.Some?
      && var b := r.value;
      && b[0].Header? && b[1].Fields? && b[2] == Divider && b[3].SummarySection? && b[|b| - 1].Context?
      && Tail(b, Truthy(Reasoning(a)), repoUrl, Recommendation(AdviceFor(a)))
  {
    var emoji := Emoji(Severity(a)).value;
    var head := HeadBlocks(repoName, oldVersion, newVersion, emoji, a);
    AssembleLayout(head, ReasoningText(a), Recommendation(AdviceFor(a)), repoUrl, Footer(timestamp));
    var b := Assemble(head, ReasoningText(a), Recommendation(AdviceFor(a)), repoUrl, Footer(timestamp));
    assert AlertBlocks(repoName, oldVersion, newVersion, a, repoUrl, timestamp) == Some(b);
  }

  /** The message posted to the webhook: the blocks and the plain fallback text. */
  datatype Payload = Payload(blocks: seq<Block>, text: string)

  const MandatoryFlag := " [MANDATORY]"

  /** The fallback text: the severity, the flag when the upgrade is mandatory, then the
      repository and the version change. */
  function FallbackText(repoName: string, oldVersion: string, newVersion: string, a: map<string, Json>): string {
    Str(Severity(a)) + (if Mandatory(a) then MandatoryFlag else "")
      + " Update: " + repoName + " " + oldVersion + " \U{2192} " + newVersion
  }

  /** For one severity the fallback text tells whether the upgrade is mandatory. */
  lemma FallbackMarksMandatory(repoName: string, oldVersion: string, newVersion: string,
                               a: map<string, Json>, b: map<string, Json>)
    requires Severity(a) == Severity(b)
    ensures FallbackText(repoName, oldVersion, newVersion, a) == FallbackText(repoName, oldVersion, newVersion, b)
      <==> Mandatory(a) == Mandatory(b)
  {
    if Mandatory(a) != Mandatory(b) {
      assert |FallbackText(repoName, oldVersion, newVersion, a)| != |FallbackText(repoName, oldVersion, newVersion, b)|;
    }
  }

  /** `send_alert`: nothing is posted without a webhook URL; otherwise the blocks and the
      fallback text are posted, and only a 200 answer counts as sent. A raised lookup or
      request gives false. `post` stands for the HTTP request: the status code, or None
      when it raised. */
  function SendAlert(webhookUrl: string, repoName: string, oldVersion: string, newVersion: string,
                     a: map<string, Json>, repoUrl: string, timestamp: string,
                     post: Payload -> Option<int>): (sent: bool)
    ensures !Enabled(webhookUrl) ==> !sent
    ensures !Hashable(Severity(a)) ==> !sent
    ensures sent <==>
      Enabled(webhookUrl) && Hashable(Severity(a)) &&
      post(Payload(AlertBlocks(repoName, oldVersion, newVersion, a, repoUrl, timestamp).value,
                   FallbackText(repoName, oldVersion, newVersion, a))) == Some(200)
  {
    if !Enabled(webhookUrl) then false
    else
      match AlertBlocks(repoName, oldVersion, newVersion, a, repoUrl, timestamp)
      case None => false
      case Some(blocks) => post(Payload(blocks, FallbackText(repoName, oldVersion, newVersion, a))) == Some(200)
  }
}
