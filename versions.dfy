/**
 * What the GitHub and GitLab version sources share: the semantic-version shape test,
 * the per-repository tag filter, `v`-prefix stripping, the records they return, the
 * first-match search their release and tag loops perform, and the four-way decision
 * of `check_for_updates` (error, first check, no change, update).
 *
 * The two services carry textually identical copies of `_is_semantic_version`,
 * `_matches_tag_filter` and `_extract_version`; the model defines each once.
 */
module Versions {
  import opened Wrappers
  import opened Text

  /** Repository name (without platform prefix) to its tag patterns. */
  type TagFilters = map<string, seq<string>>

  /** One entry of a platform's release list (GitLab's `description` and
      `_links.self` fill `body` and `htmlUrl`). */
  datatype ReleaseEntry = ReleaseEntry(tagName: string, body: string, htmlUrl: string, prerelease: bool)

  datatype Kind = Release | Tag

  /** The dictionary `get_latest_release` / `get_latest_tag` return. A tag carries no
      body and no page URL, so `get("body", "")` and `get("html_url", "")` give "". */
  datatype Candidate = Candidate(kind: Kind, tagName: string, body: string, htmlUrl: string, prerelease: bool)

  function FromRelease(r: ReleaseEntry): Candidate {
    Candidate(Release, r.tagName, r.body, r.htmlUrl, r.prerelease)
  }

  function FromTag(name: string): Candidate {
    Candidate(Tag, name, "", "", false)
  }

  // ---------------------------------------------------------------------------
  // Semantic-version shape: ^v?\d+\.\d+\.\d+.*$
  // ---------------------------------------------------------------------------

  /** The number of leading digits of `s`. */
  function LeadingDigits(s: string): (n: nat)
    ensures n <= |s| && AllDigits(s[..n])
    ensures n < |s| ==> !IsDigit(s[n])
  {
    if |s| > 0 && IsDigit(s[0]) then
      var k := LeadingDigits(s[1..]);
      assert s[..k + 1] == [s[0]] + s[1..][..k];
      k + 1
    else 0
  }

  /** `s` starts with a non-empty digit run followed by `.`; returns what follows the dot. */
  function AfterNumberDot(s: string): Option<string> {
    var n := LeadingDigits(s);
    if 0 < n < |s| && s[n] == '.' then Some(s[n + 1..]) else None
  }

  /** The tag without the optional leading `v` the pattern allows. */
  function DropV(tag: string): string {
    if |tag| > 0 && tag[0] == 'v' then tag[1..] else tag
  }

  /** `re.match(r'^v?\d+\.\d+\.\d+.*$', tag)`, for tags without a line break: an
      optional `v`, three dot-separated digit runs, then anything. */
  predicate IsSemanticVersion(tag: string) {
    match AfterNumberDot(DropV(tag))
    case None => false
    case Some(t2) =>
      match AfterNumberDot(t2)
      case None => false
      case Some(t3) => LeadingDigits(t3) > 0
  }

  /** The shape the pattern describes, as pieces: `pv a . b . c rest`. */
  predicate SemverShape(tag: string, pv: string, a: string, b: string, c: string, rest: string) {
    && (pv == "" || pv == "v")
    && |a| > 0 && |b| > 0 && |c| > 0
    && AllDigits(a) && AllDigits(b) && AllDigits(c)
    && tag == pv + (a + ("." + (b + ("." + (c + rest)))))
  }

  lemma {:induction false} LeadingDigitsOf(a: string, rest: string)
    requires AllDigits(a)
    requires rest == [] || !IsDigit(rest[0])
    ensures LeadingDigits(a + rest) == |a|
    decreases |a|
  {
    if a != [] {
      assert (a + rest)[1..] == a[1..] + rest;
      LeadingDigitsOf(a[1..], rest);
    } else {
      assert a + rest == rest;
    }
  }

  lemma AfterNumberDotOf(a: string, rest: string)
    requires |a| > 0 && AllDigits(a)
    ensures AfterNumberDot(a + ("." + rest)) == Some(rest)
  {
    LeadingDigitsOf(a, "." + rest);
    assert (a + ("." + rest))[|a| + 1..] == rest;
  }

  /** The predicate accepts exactly the tags of that shape. */
  lemma SemanticVersionShape(tag: string)
    ensures IsSemanticVersion(tag) <==> exists pv, a, b, c, rest :: SemverShape(tag, pv, a, b, c, rest)
  {
    if IsSemanticVersion(tag) {
      SemanticVersionHasShape(tag);
    }
    if pv, a, b, c, rest :| SemverShape(tag, pv, a, b, c, rest) {
      ShapeIsSemanticVersion(tag, pv, a, b, c, rest);
    }
  }

  /** What follows a leading digit run and a dot, as pieces. */
  lemma SplitNumberDot(s: string) returns (a: string, rest: string)
    requires AfterNumberDot(s).Some?
    ensures |a| > 0 && AllDigits(a) && s == a + ("." + rest) && rest == AfterNumberDot(s).value
  {
    var n := LeadingDigits(s);
    a, rest := s[..n], s[n + 1..];
    assert s == a + ("." + rest);
  }

  /** The `v` `DropV` removes, if any. */
  lemma PrefixV(tag: string) returns (pv: string)
    ensures (pv == "" || pv == "v") && tag == pv + DropV(tag)
  {
    if |tag| > 0 && tag[0] == 'v' {
      pv := "v";
      assert tag == [tag[0]] + tag[1..];
    } else {
      pv := "";
    }
  }

  lemma ShapeOfPieces(tag: string, pv: string, t: string, a: string, t2: string, b: string,
                      t3: string, c: string, rest: string)
    requires (pv == "" || pv == "v") && tag == pv + t
    requires |a| > 0 && AllDigits(a) && t == a + ("." + t2)
    requires |b| > 0 && AllDigits(b) && t2 == b + ("." + t3)
    requires |c| > 0 && AllDigits(c) && t3 == c + rest
    ensures exists pv, a, b, c, rest :: SemverShape(tag, pv, a, b, c, rest)
  {
    assert SemverShape(tag, pv, a, b, c, rest);
  }

  /** A leading digit run and what follows it, as pieces. */
  lemma SplitDigits(s: string) returns (c: string, rest: string)
    requires LeadingDigits(s) > 0
    ensures |c| > 0 && AllDigits(c) && s == c + rest
  {
    var n := LeadingDigits(s);
    c, rest := s[..n], s[n..];
    assert s == c + rest;
  }

  lemma SemanticVersionHasShape(tag: string)
    requires IsSemanticVersion(tag)
    ensures exists pv, a, b, c, rest :: SemverShape(tag, pv, a, b, c, rest)
  {
    var pv := PrefixV(tag);
    var t := DropV(tag);
    assert AfterNumberDot(t).Some?;
    var a, t2 := SplitNumberDot(t);
    assert AfterNumberDot(t2).Some?;
    var b, t3 := SplitNumberDot(t2);
    assert LeadingDigits(t3) > 0;
    var c, rest := SplitDigits(t3);
    ShapeOfPieces(tag, pv, t, a, t2, b, t3, c, rest);
  }

  lemma ShapeIsSemanticVersion(tag: string, pv: string, a: string, b: string, c: string, rest: string)
    requires SemverShape(tag, pv, a, b, c, rest)
    ensures IsSemanticVersion(tag)
  {
    var t3 := c + rest;
    var t2 := b + ("." + t3);
    var t := a + ("." + t2);
    assert DropV(tag) == t by {
      if pv == "v" {
        assert tag == ['v'] + t;
      } else {
        assert tag == t && t[0] == a[0];
      }
    }
    AfterNumberDotOf(a, t2);
    AfterNumberDotOf(b, t3);
    if rest != [] && IsDigit(rest[0]) {
      assert t3[0] == c[0];
    } else {
      LeadingDigitsOf(c, rest);
    }
  }

  /** The examples the source comment names, and two names the pattern refuses. */
  lemma SemanticVersionExamples()
    ensures IsSemanticVersion("v1.2.3") && IsSemanticVersion("1.2.3") && IsSemanticVersion("v1.2.3-beta")
    ensures !IsSemanticVersion("latest") && !IsSemanticVersion("op-node")
  {
    assert "v1.2.3" == "v" + ("1" + ("." + ("2" + ("." + ("3" + "")))));
    ShapeIsSemanticVersion("v1.2.3", "v", "1", "2", "3", "");
    assert "1.2.3" == "" + ("1" + ("." + ("2" + ("." + ("3" + "")))));
    ShapeIsSemanticVersion("1.2.3", "", "1", "2", "3", "");
    PrereleaseSuffixAccepted();
    NoLeadingNumber("latest");
    NoLeadingNumber("op-node");
  }

  /** A pre-release suffix after the third number is accepted. */
  lemma PrereleaseSuffixAccepted()
    ensures IsSemanticVersion("v1.2.3-beta")
  {
    assert "v1.2.3-beta" == "v" + ("1" + ("." + ("2" + ("." + ("3" + "-beta")))));
    ShapeIsSemanticVersion("v1.2.3-beta", "v", "1", "2", "3", "-beta");
  }

  lemma NoLeadingNumber(tag: string)
    requires |tag| > 0 && tag[0] != 'v' && !IsDigit(tag[0])
    ensures !IsSemanticVersion(tag)
  {
    assert DropV(tag) == tag;
  }

  // ---------------------------------------------------------------------------
  // Tag filter
  // ---------------------------------------------------------------------------

  /** The loop of `_matches_tag_filter`: some pattern, lower-cased, occurs in the tag. */
  predicate AnyPatternIn(patterns: seq<string>, tagLower: string) {
    |patterns| > 0 && (IsSubstring(Lower(patterns[0]), tagLower) || AnyPatternIn(patterns[1..], tagLower))
  }

  /** `_matches_tag_filter(tag_name, repo_name)`. */
  predicate MatchesTagFilter(filters: TagFilters, repoName: string, tagName: string) {
    repoName !in filters || AnyPatternIn(filters[repoName], Lower(tagName))
  }

  /** Accept-all without an entry; otherwise case-insensitive substring match against
      some pattern, so an entry with no patterns accepts nothing. */
  lemma MatchesTagFilterMeaning(filters: TagFilters, repoName: string, tagName: string)
    ensures repoName !in filters ==> MatchesTagFilter(filters, repoName, tagName)
    ensures repoName in filters ==>
      (MatchesTagFilter(filters, repoName, tagName) <==>
        exists i :: 0 <= i < |filters[repoName]| && IsSubstring(Lower(filters[repoName][i]), Lower(tagName)))
    ensures repoName in filters && filters[repoName] == [] ==> !MatchesTagFilter(filters, repoName, tagName)
  {
    if repoName in filters {
      AnyPatternInMeaning(filters[repoName], Lower(tagName));
    }
  }

  lemma {:induction false} AnyPatternInMeaning(patterns: seq<string>, tagLower: string)
    ensures AnyPatternIn(patterns, tagLower) <==>
      exists i :: 0 <= i < |patterns| && IsSubstring(Lower(patterns[i]), tagLower)
    decreases |patterns|
  {
    if |patterns| > 0 {
      AnyPatternInMeaning(patterns[1..], tagLower);
      if i :| 1 <= i < |patterns| && IsSubstring(Lower(patterns[i]), tagLower) {
        assert patterns[1..][i - 1] == patterns[i];
      }
    }
  }

  /** The cases listed in the repository's tag-filter test. */
  lemma TagFilterTestCases()
    ensures var filters := map["ethereum-optimism/optimism" := ["op-geth", "op-node"]];
      && MatchesTagFilter(filters, "ethereum-optimism/optimism", "op-geth-v1.0.0")
      && MatchesTagFilter(filters, "ethereum-optimism/optimism", "op-node-v2.1.0")
      && !MatchesTagFilter(filters, "ethereum-optimism/optimism", "op-proposer-v1.0.0")
      && !MatchesTagFilter(filters, "ethereum-optimism/optimism", "v1.0.0")
      && MatchesTagFilter(filters, "other/repo", "v1.0.0")
  {
    GethTagAccepted();
    NodeTagAccepted();
    ProposerTagRejected();
    BareTagRejected();
  }

  lemma GethTagAccepted()
    ensures AnyPatternIn(["op-geth", "op-node"], Lower("op-geth-v1.0.0"))
  {
    FilterAccepts(["op-geth", "op-node"], "op-geth-v1.0.0", 0);
  }

  lemma NodeTagAccepted()
    ensures AnyPatternIn(["op-geth", "op-node"], Lower("op-node-v2.1.0"))
  {
    FilterAccepts(["op-geth", "op-node"], "op-node-v2.1.0", 1);
  }

  lemma ProposerTagRejected()
    ensures !AnyPatternIn(["op-geth", "op-node"], Lower("op-proposer-v1.0.0"))
  {
    FilterRejects(["op-geth", "op-node"], "op-proposer-v1.0.0");
  }

  lemma BareTagRejected()
    ensures !AnyPatternIn(["op-geth", "op-node"], Lower("v1.0.0"))
  {
    FilterRejects(["op-geth", "op-node"], "v1.0.0");
  }

  lemma FilterAccepts(pats: seq<string>, tag: string, i: int)
    requires pats == ["op-geth", "op-node"] && 0 <= i < 2
    requires pats[i] <= tag
    requires forall k :: 0 <= k < |tag| ==> !('A' <= tag[k] <= 'Z')
    ensures AnyPatternIn(pats, Lower(tag))
  {
    LowerNoUpper(pats[i]);
    LowerNoUpper(tag);
    assert IsSubstring(Lower(pats[i]), Lower(tag));
    AnyPatternInMeaning(pats, Lower(tag));
  }

  lemma FilterRejects(pats: seq<string>, tag: string)
    requires pats == ["op-geth", "op-node"]
    requires 'g' !in tag && 'n' !in tag
    requires forall k :: 0 <= k < |tag| ==> !('A' <= tag[k] <= 'Z')
    ensures !AnyPatternIn(pats, Lower(tag))
  {
    LowerNoUpper(pats[0]);
    LowerNoUpper(pats[1]);
    LowerNoUpper(tag);
    NotSubstringByChar(pats[0], tag, 3);
    NotSubstringByChar(pats[1], tag, 3);
    AnyPatternInMeaning(pats, Lower(tag));
  }

  lemma LowerNoUpper(s: string)
    requires forall i :: 0 <= i < |s| ==> !('A' <= s[i] <= 'Z')
    ensures Lower(s) == s
  {
  }

  /** A pattern holding a character the text lacks does not occur in it. */
  lemma NotSubstringByChar(p: string, s: string, j: int)
    requires 0 <= j < |p| && p[j] !in s
    ensures !IsSubstring(p, s)
  {
    IsSubstringAt(p, s);
    forall k | 0 <= k <= |s| - |p|
      ensures !OccursAt(p, s, k)
    {
      assert s[k + j] in s;
      assert s[k..k + |p|][j] == s[k + j] != p[j];
    }
  }

  // ---------------------------------------------------------------------------
  // Version extraction
  // ---------------------------------------------------------------------------

  /** `_extract_version`: `tag_name.lstrip('v')`, which drops every leading `v`,
      leaving a suffix of the tag that does not start with `v`. */
  function ExtractVersion(tagName: string): (r: string)
    ensures |r| <= |tagName| && r == tagName[|tagName| - |r|..]
    ensures forall i :: 0 <= i < |tagName| - |r| ==> tagName[i] == 'v'
    ensures r == [] || r[0] != 'v'
  {
    LStripChar(tagName, 'v')
  }

  // ---------------------------------------------------------------------------
  // First-match search over a fetched list
  // ---------------------------------------------------------------------------

  /** The index of the first element satisfying `p`, as the services' `for` loops with
      an early `return` find it. */
  function FirstIndex<T>(s: seq<T>, p: T -> bool): (r: Option<nat>)
    ensures r.Some? ==> r.value < |s| && p(s[r.value]) && forall j :: 0 <= j < r.value ==> !p(s[j])
    ensures r.None? ==> forall j :: 0 <= j < |s| ==> !p(s[j])
    decreases |s|
  {
    if |s| == 0 then None
    else if p(s[0]) then Some(0)
    else
      match FirstIndex(s[1..], p)
      case None => None
      case Some(i) => Some(i + 1)
  }

  /** The element `FirstIndex` finds. */
  function FirstMatch<T>(s: seq<T>, p: T -> bool): (r: Option<T>)
    ensures r.Some? <==> exists i :: 0 <= i < |s| && p(s[i])
    ensures r.Some? ==> exists i :: 0 <= i < |s| && s[i] == r.value && p(s[i]) && forall j :: 0 <= j < i ==> !p(s[j])
  {
    match FirstIndex(s, p)
    case None => None
    case Some(i) => Some(s[i])
  }

  /** The tag loop's test, shared by both platforms. */
  predicate TagEligible(filters: TagFilters, repoName: string, tag: string) {
    IsSemanticVersion(tag) && MatchesTagFilter(filters, repoName, tag)
  }

  /** `get_latest_tag` on either platform: the first semantic-version tag that passes
      the filter, in the order the API listed them. */
  function GetLatestTag(filters: TagFilters, repoName: string, tags: Option<seq<string>>): (r: Option<Candidate>)
    ensures r.Some? <==> tags.Some? && exists i :: 0 <= i < |tags.value| && TagEligible(filters, repoName, tags.value[i])
    ensures r.Some? ==>
      exists i :: 0 <= i < |tags.value| && r.value == FromTag(tags.value[i])
        && TagEligible(filters, repoName, tags.value[i])
        && forall j :: 0 <= j < i ==> !TagEligible(filters, repoName, tags.value[j])
  {
    match tags
    case None => None
    case Some(list) =>
      match FirstMatch(list, (t: string) => TagEligible(filters, repoName, t))
      case None => None
      case Some(t) => Some(FromTag(t))
  }

  // ---------------------------------------------------------------------------
  // check_for_updates
  // ---------------------------------------------------------------------------

  /** The result of `check_for_updates`. `NameRejected` stands for the `ValueError`
      that `parse_repo_name` raises before anything is fetched. */
  datatype UpdateInfo =
    | NameRejected(message: string)
    | CheckFailed(error: string)
    | Unchanged(currentVersion: string)
    | NewVersion(isFirstCheck: bool, oldVersion: Option<string>, newVersion: string,
                 releaseNotes: string, versionType: Kind, htmlUrl: string,
                 commitMessages: seq<string>)

  /** `not last_version`: no record, or an empty stored version. */
  predicate NoPriorVersion(last: Option<string>) {
    last.None? || last.value == ""
  }

  const FetchError := "Could not fetch latest version"

  /** The `ValueError` message of either platform's `parse_repo_name`. */
  function InvalidNameMessage(name: string): string {
    "Invalid repository name format: " + name
  }

  /** Commit messages are fetched only for a tag without notes. */
  predicate NeedsCommitMessages(c: Candidate) {
    c.body == "" && c.kind == Tag && c.tagName != ""
  }

  /** The decision part of `check_for_updates`, shared by both platforms, given the
      resolved latest version and the platform's `get_commit_messages_between_tags`. */
  function ClassifyUpdate(latest: Option<Candidate>, last: Option<string>,
                          commitsBetween: (string, string) -> seq<string>): (r: UpdateInfo)
    ensures latest.None? <==> r.CheckFailed?
    ensures r.CheckFailed? ==> r.error == FetchError
    ensures !r.NameRejected?
    ensures latest.Some? && NoPriorVersion(last) ==>
      r.NewVersion? && r.isFirstCheck && r.oldVersion.None? && r.commitMessages == []
    ensures latest.Some? && !NoPriorVersion(last) && latest.value.tagName == last.value ==>
      r == Unchanged(last.value)
    ensures latest.Some? && !NoPriorVersion(last) && latest.value.tagName != last.value ==>
      && r.NewVersion? && !r.isFirstCheck && r.oldVersion == last
      && r.commitMessages == (if NeedsCommitMessages(latest.value)
                              then commitsBetween(last.value, latest.value.tagName) else [])
    ensures r.NewVersion? ==>
      && r.newVersion == latest.value.tagName && r.releaseNotes == latest.value.body
      && r.versionType == latest.value.kind && r.htmlUrl == latest.value.htmlUrl
  {
    match latest
    case None => CheckFailed(FetchError)
    case Some(c) =>
      if NoPriorVersion(last) then
        NewVersion(true, None, c.tagName, c.body, c.kind, c.htmlUrl, [])
      else if c.tagName == last.value then
        Unchanged(c.tagName)
      else
        var messages := if NeedsCommitMessages(c) then commitsBetween(last.value, c.tagName) else [];
        NewVersion(false, last, c.tagName, c.body, c.kind, c.htmlUrl, messages)
  }
}
