/**
 * The classification step: the prompt sent to the language model, the stages that pull
 * a JSON value out of its reply, the structural check of that value, the fallback
 * analyses that replace an unusable reply, and the policy that decides whether an
 * analysis is worth an alert.
 *
 * The model call, `json.loads` and the two regular-expression searches are not
 * modelled: the model is a function from prompt to `Reply`, and the three parsing tools
 * are partial functions gathered in a `Parser`. Only the order in which the stages are
 * tried, and what happens to their results, is kept.
 */
module Classifier {
  import opened Wrappers
  import opened Text
  import opened JsonValue

  /** An analysis dictionary, as the rest of the watcher reads it. */
  type Analysis = map<string, Json>

  /** The model call's outcome: the reply text, or the text of the exception raised while
      generating the reply or reading its text. */
  datatype Reply = Answered(text: string) | Raised(message: string)

  /** The parsing tools: `json.loads` (None for a decode error), the fenced-code-block
      search (its first group) and the brace-object search (the whole match). */
  datatype Parser = Parser(
    loads: string -> Option<Json>,
    fenced: string -> Option<string>,
    braced: string -> Option<string>)

  // ---------------------------------------------------------------------------
  // _create_analysis_prompt
  // ---------------------------------------------------------------------------

  /** The most commit messages the prompt carries. */
  const MaxCommits := 20

  function Intro(repoName: string): string {
    "You are a blockchain infrastructure expert analyzing a version update for " + repoName + ".\n\n"
  }

  function OldLine(oldVersion: string): string { "OLD VERSION: " + oldVersion + "\n" }

  function NewLine(newVersion: string): string { "NEW VERSION: " + newVersion + "\n" }

  function NotesSection(notes: string): string {
    if notes == "" then "" else "RELEASE NOTES:\n" + notes + "\n\n"
  }

  /** `commit_messages[:20]`. */
  function FirstCommits(commits: seq<string>): (r: seq<string>)
    ensures |r| <= MaxCommits && r <= commits
    ensures |commits| <= MaxCommits ==> r == commits
  {
    if |commits| <= MaxCommits then commits else commits[..MaxCommits]
  }

  function CommitsSection(commits: seq<string>): string {
    if commits == [] then "" else "COMMIT MESSAGES:\n" + Join(FirstCommits(commits), "\n") + "\n\n"
  }

  /** The fixed request for a strict JSON answer that ends every prompt. */
  const Instructions :=
    "Analyze this update and provide a response in STRICT JSON format with these exact fields:\n" +
    "\n" +
    "{\n" +
    "  \"summary\": \"Brief summary of changes in 2-3 sentences\",\n" +
    "  \"mandatory_upgrade\": true or false,\n" +
    "  \"severity\": \"LOW\" or \"MEDIUM\" or \"HIGH\" or \"CRITICAL\",\n" +
    "  \"reasoning\": \"Why this severity and mandatory decision\"\n" +
    "}\n" +
    "\n" +
    "CRITICAL SEVERITY means: security vulnerabilities, hard forks, network-breaking changes, or consensus failures.\n" +
    "HIGH SEVERITY means: important bug fixes, performance issues, or features affecting network stability.\n" +
    "MEDIUM SEVERITY means: minor bug fixes, optimizations, or new non-critical features.\n" +
    "LOW SEVERITY means: documentation, refactoring, or cosmetic changes.\n" +
    "\n" +
    "MANDATORY UPGRADE is true only if:\n" +
    "- Security vulnerability is fixed\n" +
    "- Hard fork or consensus change requires it\n" +
    "- Network will reject old version\n" +
    "- Critical bug affects operations\n" +
    "\n" +
    "Respond ONLY with valid JSON. No markdown, no extra text, just the JSON object."

  /** `_create_analysis_prompt`: the header with both versions, the release notes when
      there are any, the first commit messages when there are any, and the instructions. */
  function Prompt(repoName: string, oldVersion: string, newVersion: string,
                  notes: string, commits: seq<string>): (p: string)
  {
    Intro(repoName) + OldLine(oldVersion) + NewLine(newVersion) + "\n"
      + NotesSection(notes) + CommitsSection(commits) + Instructions
  }

  /** Both version labels are always in the prompt. */
  lemma PromptNamesBothVersions(repoName: string, oldVersion: string, newVersion: string,
                                notes: string, commits: seq<string>)
    ensures IsSubstring(OldLine(oldVersion), Prompt(repoName, oldVersion, newVersion, notes, commits))
    ensures IsSubstring(NewLine(newVersion), Prompt(repoName, oldVersion, newVersion, notes, commits))
  {
    var intro, o, n := Intro(repoName), OldLine(oldVersion), NewLine(newVersion);
    IsSubstringInside(intro, o, n);
    IsSubstringInside(intro + o, n, []);
    assert intro + o + n + [] == intro + o + n;
    ExtendByTail(o, intro + o + n, notes, commits);
    ExtendByTail(n, intro + o + n, notes, commits);
  }

  /** What holds in the prompt's head holds in the whole prompt. */
  lemma ExtendByTail(p: string, head: string, notes: string, commits: seq<string>)
    requires IsSubstring(p, head)
    ensures IsSubstring(p, head + "\n" + NotesSection(notes) + CommitsSection(commits) + Instructions)
  {
    IsSubstringExtend(p, head, "\n");
    IsSubstringExtend(p, head + "\n", NotesSection(notes));
    IsSubstringExtend(p, head + "\n" + NotesSection(notes), CommitsSection(commits));
    IsSubstringExtend(p, head + "\n" + NotesSection(notes) + CommitsSection(commits), Instructions);
  }

  /** The release notes change the prompt exactly when they are not empty. */
  lemma NotesSectionIff(repoName: string, oldVersion: string, newVersion: string,
                        notes: string, commits: seq<string>)
    ensures Prompt(repoName, oldVersion, newVersion, notes, commits) == Prompt(repoName, oldVersion, newVersion, "", commits)
      <==> notes == ""
  {
    if notes != "" {
      assert |Prompt(repoName, oldVersion, newVersion, notes, commits)| > |Prompt(repoName, oldVersion, newVersion, "", commits)|;
    }
  }

  /** The commit messages change the prompt exactly when there are some. */
  lemma CommitsSectionIff(repoName: string, oldVersion: string, newVersion: string,
                          notes: string, commits: seq<string>)
    ensures Prompt(repoName, oldVersion, newVersion, notes, commits) == Prompt(repoName, oldVersion, newVersion, notes, [])
      <==> commits == []
  {
    if commits != [] {
      assert |Prompt(repoName, oldVersion, newVersion, notes, commits)| > |Prompt(repoName, oldVersion, newVersion, notes, [])|;
    }
  }

  /** Messages after the twentieth never reach the prompt. */
  lemma OnlyFirstCommitsCount(repoName: string, oldVersion: string, newVersion: string,
                              notes: string, commits: seq<string>, more: seq<string>)
    requires |commits| >= MaxCommits
    ensures Prompt(repoName, oldVersion, newVersion, notes, commits + more)
         == Prompt(repoName, oldVersion, newVersion, notes, commits)
  {
    assert (commits + more)[..MaxCommits] == commits[..MaxCommits];
    if |commits| == MaxCommits {
      assert commits[..MaxCommits] == commits;
    }
    assert FirstCommits(commits + more) == FirstCommits(commits);
  }

  /** Notes and commit messages can both be present: each section is then in the prompt,
      the commits joined one per line. */
  lemma BothSectionsPresent(repoName: string, oldVersion: string, newVersion: string,
                            notes: string, commits: seq<string>)
    requires notes != "" && commits != []
    ensures IsSubstring(NotesSection(notes), Prompt(repoName, oldVersion, newVersion, notes, commits))
    ensures IsSubstring(CommitsSection(commits), Prompt(repoName, oldVersion, newVersion, notes, commits))
  {
    var head := Intro(repoName) + OldLine(oldVersion) + NewLine(newVersion) + "\n";
    var ns, cs := NotesSection(notes), CommitsSection(commits);
    IsSubstringInside(head, ns, []);
    assert head + ns + [] == head + ns;
    IsSubstringExtend(ns, head + ns, cs);
    IsSubstringExtend(ns, head + ns + cs, Instructions);
    IsSubstringInside(head + ns, cs, Instructions);
  }

  // ---------------------------------------------------------------------------
  // _extract_json_from_response
  // ---------------------------------------------------------------------------

  /** The three stages' results for a reply: the whole stripped text, the inside of a
      fenced block, and a brace object holding `"summary"`. A search that finds nothing
      fails its stage. */
  function Stages(parser: Parser, text: string): (st: seq<Option<Json>>)
    ensures |st| == 3
  {
    var fenced := parser.fenced(text);
    var braced := parser.braced(text);
    [parser.loads(Strip(text)),
     if fenced.Some? then parser.loads(fenced.value) else None,
     if braced.Some? then parser.loads(braced.value) else None]
  }

  /** `_extract_json_from_response`: the stages are tried in order and the first that
      parses wins; when none does, nothing is extracted. */
  function ExtractJson(parser: Parser, text: string): (r: Option<Json>)
    ensures r.None? <==> forall i :: 0 <= i < 3 ==> Stages(parser, text)[i].None?
    ensures r.Some? ==> exists i :: 0 <= i < 3 && Stages(parser, text)[i] == r
                                    && forall j :: 0 <= j < i ==> Stages(parser, text)[j].None?
  {
    var st := Stages(parser, text);
    var first := parser.loads(Strip(text));
    assert st[0] == first;
    if first.Some? then first
    else
      var fenced := parser.fenced(text);
      var second := if fenced.Some? then parser.loads(fenced.value) else None;
      assert st[1] == second;
      if second.Some? then second
      else
        var braced := parser.braced(text);
        assert st[2] == if braced.Some? then parser.loads(braced.value) else None;
        if braced.Some? then parser.loads(braced.value) else None
  }

  // ---------------------------------------------------------------------------
  // _validate_analysis
  // ---------------------------------------------------------------------------

  /** The keys a usable analysis must have, in the order they are checked. */
  const RequiredFields := ["summary", "mandatory_upgrade", "severity", "reasoning"]

  /** The severities a usable analysis may name. */
  const Severities := ["LOW", "MEDIUM", "HIGH", "CRITICAL"]

  predicate IsSeverity(j: Json) {
    j.JString? && j.s in Severities
  }

  /** An analysis the rest of the watcher can rely on: all four keys, a known severity
      and a boolean mandatory flag. */
  predicate Usable(a: Analysis) {
    && "summary" in a && "mandatory_upgrade" in a && "severity" in a && "reasoning" in a
    && IsSeverity(a["severity"]) && a["mandatory_upgrade"].JBool?
  }

  /** The check's outcome: the value passes, fails, or the check itself raises (a
      `TypeError` from testing membership in, or indexing, a value that is no dictionary). */
  datatype Verdict = Valid | Invalid | Raises(message: string)

  /** Python's `key in container`: dictionary keys, list items, substrings; None for a
      value that supports no membership test. */
  function Contains(container: Json, key: string): Option<bool> {
    match container
    case JObject(m) => Some(key in m)
    case JArray(items) => Some(JString(key) in items)
    case JString(s) => Some(IsSubstring(key, s))
    case _ => None
  }

  /** CPython's message for a membership test on a value that supports none. */
  function NotIterableMessage(j: Json): string {
    match j
    case JNull => "argument of type 'NoneType' is not iterable"
    case JBool(_) => "argument of type 'bool' is not iterable"
    case _ => "argument of type 'int' is not iterable"
  }

  /** CPython's message for `value["severity"]` on a list or a string. */
  function BadIndexMessage(j: Json): string {
    if j.JArray? then "list indices must be integers or slices, not str"
    else "string indices must be integers, not 'str'"
  }

  /** `all(field in analysis for field in required_fields)`, evaluated left to right so
      that the first failing test stops it. */
  function AllFieldsIn(j: Json, fields: seq<string>): Option<bool>
  {
    if fields == [] then Some(true)
    else match Contains(j, fields[0])
      case None => None
      case Some(false) => Some(false)
      case Some(true) => AllFieldsIn(j, fields[1..])
  }

  /** `_validate_analysis`. */
  function ValidateAnalysis(j: Json): (v: Verdict)
    ensures v == Valid <==> j.JObject? && Usable(j.fields)
    ensures j.JObject? ==> !v.Raises?
  {
    AllFieldsInObject(j, RequiredFields);
    assert RequiredFields[0] == "summary" && RequiredFields[1] == "mandatory_upgrade";
    assert RequiredFields[2] == "severity" && RequiredFields[3] == "reasoning";
    match AllFieldsIn(j, RequiredFields)
    case None => Raises(NotIterableMessage(j))
    case Some(false) => Invalid
    case Some(true) =>
      if !j.JObject? then Raises(BadIndexMessage(j))
      else if !IsSeverity(j.fields["severity"]) then Invalid
      else if !j.fields["mandatory_upgrade"].JBool? then Invalid
      else Valid
  }

  /** On a dictionary the test never raises and holds exactly when every key is present. */
  lemma {:induction false} AllFieldsInObject(j: Json, fields: seq<string>)
    ensures j.JObject? ==> AllFieldsIn(j, fields) == Some(forall k :: 0 <= k < |fields| ==> fields[k] in j.fields)
    decreases |fields|
  {
    if j.JObject? && fields != [] {
      AllFieldsInObject(j, fields[1..]);
      assert forall k :: 1 <= k < |fields| ==> fields[k] == fields[1..][k - 1];
    }
  }

  // ---------------------------------------------------------------------------
  // analyze_version_change
  // ---------------------------------------------------------------------------

  const ReviewNotes := "Please review release notes manually."
  const Unavailable := "AI analysis unavailable. Please review manually."
  const ParseFailed := "AI analysis failed to parse. Manual review recommended."
  const ValidationFailed := "AI response validation failed. Manual review recommended."
  const ErrorPrefix := "AI analysis error: "

  /** The opening of every fallback summary. */
  function FallbackOpening(oldVersion: string, newVersion: string): string {
    "Update from " + oldVersion + " to " + newVersion + ". "
  }

  /** A fallback analysis: medium severity, not mandatory, a summary naming both versions
      followed by the advice, and the reason the reply was not used. */
  function Fallback(oldVersion: string, newVersion: string, advice: string, reasoning: string): (a: Analysis)
    ensures Usable(a) && IsFallback(a, oldVersion, newVersion)
  {
    map["summary" := JString(FallbackOpening(oldVersion, newVersion) + advice),
        "mandatory_upgrade" := JBool(false),
        "severity" := JString("MEDIUM"),
        "reasoning" := JString(reasoning)]
  }

  predicate IsFallback(a: Analysis, oldVersion: string, newVersion: string) {
    && "severity" in a && a["severity"] == JString("MEDIUM")
    && "mandatory_upgrade" in a && a["mandatory_upgrade"] == JBool(false)
    && "summary" in a && a["summary"].JString? && FallbackOpening(oldVersion, newVersion) <= a["summary"].s
  }

  /** The reply's value, when the reply parsed and the value passed the check. */
  predicate AcceptedReply(reply: Reply, parser: Parser) {
    && reply.Answered?
    && ExtractJson(parser, reply.text).Some?
    && ValidateAnalysis(ExtractJson(parser, reply.text).value) == Valid
  }

  /** What `analyze_version_change` makes of the model's outcome: a reply that parses to a
      usable analysis is returned unchanged, and any other outcome gives a fallback whose
      reasoning says which step failed. */
  function AnalyzeReply(oldVersion: string, newVersion: string, reply: Reply, parser: Parser): (a: Analysis)
    ensures Usable(a)
    ensures AcceptedReply(reply, parser) ==> a == ExtractJson(parser, reply.text).value.fields
    ensures !AcceptedReply(reply, parser) ==> IsFallback(a, oldVersion, newVersion)
    ensures reply.Raised? ==> a["reasoning"] == JString(ErrorPrefix + reply.message)
  {
    match reply
    case Raised(message) => Fallback(oldVersion, newVersion, Unavailable, ErrorPrefix + message)
    case Answered(text) =>
      match ExtractJson(parser, text)
      case None => Fallback(oldVersion, newVersion, ReviewNotes, ParseFailed)
      case Some(j) =>
        if !Truthy(j) then Fallback(oldVersion, newVersion, ReviewNotes, ParseFailed)
        else match ValidateAnalysis(j)
          case Valid => j.fields
          case Invalid => Fallback(oldVersion, newVersion, ReviewNotes, ValidationFailed)
          case Raises(message) => Fallback(oldVersion, newVersion, Unavailable, ErrorPrefix + message)
  }

  /** `analyze_version_change`: the model is asked with the prompt built from the inputs. */
  function AnalyzeVersionChange(repoName: string, oldVersion: string, newVersion: string,
                                notes: string, commits: seq<string>,
                                model: string -> Reply, parser: Parser): (a: Analysis)
    ensures Usable(a)
  {
    AnalyzeReply(oldVersion, newVersion, model(Prompt(repoName, oldVersion, newVersion, notes, commits)), parser)
  }

  // ---------------------------------------------------------------------------
  // should_send_alert
  // ---------------------------------------------------------------------------

  /** `should_send_alert`: a truthy mandatory flag, or a `HIGH` or `CRITICAL` severity,
      with `MEDIUM` standing in for a missing severity. */
  function ShouldSendAlert(a: Analysis): bool {
    if Truthy(Get(a, "mandatory_upgrade", JNull)) then true
    else Get(a, "severity", JString("MEDIUM")) in [JString("HIGH"), JString("CRITICAL")]
  }

  /** On a usable analysis the alert fires exactly for a mandatory upgrade or a high or
      critical severity. */
  lemma UsableAlertIff(a: Analysis)
    requires Usable(a)
    ensures ShouldSendAlert(a) <==>
      a["mandatory_upgrade"] == JBool(true) || a["severity"] == JString("HIGH") || a["severity"] == JString("CRITICAL")
  {
  }

  /** Without a severity and without a truthy flag there is no alert. */
  lemma MissingSeverityNoAlert(a: Analysis)
    requires "severity" !in a && !Truthy(Get(a, "mandatory_upgrade", JNull))
    ensures !ShouldSendAlert(a)
  {
  }

  /** An alert is only ever raised on an analysis the model actually gave: a fallback is
      medium and not mandatory, so it never alerts. */
  lemma AlertNeedsAcceptedReply(oldVersion: string, newVersion: string, reply: Reply, parser: Parser)
    requires ShouldSendAlert(AnalyzeReply(oldVersion, newVersion, reply, parser))
    ensures AcceptedReply(reply, parser)
  {
  }
}
