/**
 * The GitLab version source. It shares the semantic-version test, the tag filter, the
 * tag search and the four-way decision with the GitHub source (`Versions`), and differs
 * from it in four ways kept here: releases are never excluded as pre-releases, the
 * unfiltered case takes the head of the release list instead of a `latest` endpoint,
 * `parse_repo_name` splits at the first `/` only, and the page URL is derived from the
 * configured API base.
 *
 * As for GitHub, the endpoints' answers are inputs (`Feeds`); `None` stands for a
 * failed request or an empty or wrongly shaped body.
 */
module GitLab {
  import opened Wrappers
  import opened Text
  import opened Versions

  /** One entry of `/projects/{id}/releases`: its tag, `description` and `_links.self`. */
  datatype RawRelease = RawRelease(tagName: string, description: string, selfLink: string)

  /** The fields of a `/repository/compare` response the service reads: each commit's
      message, when present, and the comparison's `web_url`. */
  datatype RawCompare = RawCompare(commits: seq<Option<string>>, webUrl: Option<string>)

  /** The dictionary `compare_commits` returns (GitLab reports no `behind_by`). */
  datatype Comparison = Comparison(aheadBy: int, totalCommits: int, commitMessages: seq<string>, htmlUrl: string)

  datatype Feeds = Feeds(
    releases: Option<seq<RawRelease>>,                // GET /projects/{id}/releases
    tags: Option<seq<string>>,                        // GET /projects/{id}/repository/tags (names)
    compare: (string, string) -> Option<RawCompare>)  // GET /projects/{id}/repository/compare?from=&to=

  /** The default `GITLAB_API_BASE`. */
  const DefaultApiBase := "https://gitlab.com/api/v4"
  const ApiPath := "/api/v4"

  /** `parse_repo_name`: `split("/", 1)`, so the group ends at the first `/` and the project
      keeps any later ones; None stands for the `ValueError` on a name without `/`. */
  function ParseRepoName(name: string): (r: Option<(string, string)>)
    ensures r.Some? <==> '/' in name
    ensures r.Some? ==> name == r.value.0 + "/" + r.value.1 && '/' !in r.value.0
  {
    if '/' in name then Some(SplitOnce(name, '/')) else None
  }

  /** A nested project path keeps its inner slashes. */
  lemma ParseNestedProject()
    ensures ParseRepoName("group/sub/project") == Some(("group", "sub/project"))
  {
    ParseFirstSlash("group", "sub/project");
    assert "group" + "/" + "sub/project" == "group/sub/project";
  }

  /** The split is at the first `/`, whatever follows it. */
  lemma ParseFirstSlash(group: string, project: string)
    requires '/' !in group
    ensures ParseRepoName(group + "/" + project) == Some((group, project))
  {
    var r := ParseRepoName(group + "/" + project);
    var name := group + "/" + project;
    IndexOfAfter(group, '/', project);
    assert name[..|group|] == group;
    assert name[|group| + 1..] == project;
  }

  /** `get_repo_url`: every `/api/v4` removed from the API base, then `/` and the name. */
  function RepoUrl(apiBase: string, name: string): string {
    RemoveAll(apiBase, ApiPath) + "/" + name
  }

  /** The default API base gives the project's page on gitlab.com. */
  lemma DefaultRepoUrl(name: string)
    ensures RepoUrl(DefaultApiBase, name) == "https://gitlab.com/" + name
  {
    var host := "https://gitlab.com";
    assert DefaultApiBase == host + ApiPath;
    forall i | 0 <= i < |host|
      ensures !(ApiPath <= (host + ApiPath)[i..])
    {
      var s := host + ApiPath;
      assert s[i] == host[i] && s[i + 1] == (if i + 1 < |host| then host[i + 1] else '/');
      assert s[i] != '/' || s[i + 1] != 'a';
      assert s[i..][0] == s[i] && s[i..][1] == s[i + 1];
    }
    RemoveAllTrailing(host, ApiPath);
  }

  /** A host with no `/api/v4` is kept whole. */
  lemma PlainHostRepoUrl(apiBase: string, name: string)
    requires !IsSubstring(ApiPath, apiBase)
    ensures RepoUrl(apiBase, name) == apiBase + "/" + name
  {
    RemoveAllAbsent(apiBase, ApiPath);
  }

  /** Removing a pattern that ends the text, when it starts nowhere earlier, leaves the
      text before it. */
  lemma {:induction false} RemoveAllTrailing(h: string, pat: string)
    requires |pat| > 0
    requires forall i :: 0 <= i < |h| ==> !(pat <= (h + pat)[i..])
    ensures RemoveAll(h + pat, pat) == h
    decreases |h|
  {
    if h == [] {
      assert h + pat == pat;
      assert pat[|pat|..] == [];
    } else {
      assert !(pat <= (h + pat)[0..]);
      assert (h + pat)[1..] == h[1..] + pat;
      forall i | 0 <= i < |h[1..]|
        ensures !(pat <= (h[1..] + pat)[i..])
      {
        assert (h[1..] + pat)[i..] == (h + pat)[i + 1..];
      }
      RemoveAllTrailing(h[1..], pat);
    }
  }

  /** A release as the service returns it: GitLab has no pre-release flag. */
  function FromRaw(r: RawRelease): Candidate {
    FromRelease(ReleaseEntry(r.tagName, r.description, r.selfLink, false))
  }

  /** The release loop's test: the filter only. */
  predicate Eligible(filters: TagFilters, repoName: string, r: RawRelease) {
    MatchesTagFilter(filters, repoName, r.tagName)
  }

  /** `get_latest_release`: with a filter entry, the first release whose tag passes the
      filter; without one, the head of the list, whatever its tag. */
  function GetLatestRelease(filters: TagFilters, repoName: string, releases: Option<seq<RawRelease>>): (r: Option<Candidate>)
    ensures repoName in filters ==>
      (r.Some? <==> releases.Some? && exists i :: 0 <= i < |releases.value| && Eligible(filters, repoName, releases.value[i]))
    ensures repoName in filters && r.Some? ==>
      exists i :: 0 <= i < |releases.value| && r.value == FromRaw(releases.value[i])
        && Eligible(filters, repoName, releases.value[i])
        && forall j :: 0 <= j < i ==> !Eligible(filters, repoName, releases.value[j])
    ensures repoName !in filters ==>
      r == (if releases.Some? && |releases.value| > 0 then Some(FromRaw(releases.value[0])) else None)
    ensures r.Some? ==> r.value.kind == Release && !r.value.prerelease
  {
    match releases
    case None => None
    case Some(list) =>
      if repoName in filters then
        match FirstMatch(list, (rel: RawRelease) => Eligible(filters, repoName, rel))
        case None => None
        case Some(rel) => Some(FromRaw(rel))
      else if |list| > 0 then Some(FromRaw(list[0]))
      else None
  }

  /** `get_latest_version`: any release wins; the tags are consulted only without one. */
  function GetLatestVersion(filters: TagFilters, repoName: string, feeds: Feeds): (r: Option<Candidate>)
    ensures GetLatestRelease(filters, repoName, feeds.releases).Some? ==>
      r == GetLatestRelease(filters, repoName, feeds.releases)
    ensures GetLatestRelease(filters, repoName, feeds.releases).None? ==>
      r == GetLatestTag(filters, repoName, feeds.tags)
  {
    var rel := GetLatestRelease(filters, repoName, feeds.releases);
    if rel.Some? then rel else GetLatestTag(filters, repoName, feeds.tags)
  }

  /** Without a filter, a release whose tag is no semantic version still wins over
      every tag. */
  lemma UnfilteredHeadWins(filters: TagFilters, repoName: string, feeds: Feeds)
    requires repoName !in filters && feeds.releases.Some? && |feeds.releases.value| > 0
    ensures GetLatestVersion(filters, repoName, feeds) == Some(FromRaw(feeds.releases.value[0]))
  {
  }

  /** `commit.get("message", "")`. */
  function MessageOf(c: Option<string>): string {
    c.GetOr("")
  }

  /** `compare_commits`: both counts are the number of commits returned, and there is one
      message per commit, in commit order. */
  function CompareCommits(raw: Option<RawCompare>): (r: Option<Comparison>)
    ensures r.Some? <==> raw.Some?
    ensures r.Some? ==>
      && r.value.aheadBy == r.value.totalCommits == |raw.value.commits| == |r.value.commitMessages|
      && (forall i :: 0 <= i < |raw.value.commits| ==> r.value.commitMessages[i] == MessageOf(raw.value.commits[i]))
      && r.value.htmlUrl == raw.value.webUrl.GetOr("")
  {
    match raw
    case None => None
    case Some(d) =>
      var messages := seq(|d.commits|, i requires 0 <= i < |d.commits| => MessageOf(d.commits[i]));
      Some(Comparison(|d.commits|, |d.commits|, messages, d.webUrl.GetOr("")))
  }

  /** `get_commit_messages_between_tags`. */
  function CommitMessagesBetweenTags(feeds: Feeds, oldTag: string, newTag: string): (r: seq<string>)
    ensures feeds.compare(oldTag, newTag).None? ==> r == []
    ensures feeds.compare(oldTag, newTag).Some? ==>
      var commits := feeds.compare(oldTag, newTag).value.commits;
      |r| == |commits| && forall i :: 0 <= i < |commits| ==> r[i] == MessageOf(commits[i])
  {
    match CompareCommits(feeds.compare(oldTag, newTag))
    case None => []
    case Some(c) => c.commitMessages
  }

  /** `check_for_updates(repo_name, last_version)`. */
  function CheckForUpdates(filters: TagFilters, name: string, last: Option<string>, feeds: Feeds): (r: UpdateInfo)
    ensures '/' !in name <==> r.NameRejected?
    ensures r.NameRejected? ==> r.message == InvalidNameMessage(name)
    ensures '/' in name ==>
      r == ClassifyUpdate(GetLatestVersion(filters, name, feeds), last,
                          (b, h) => CommitMessagesBetweenTags(feeds, b, h))
  {
    match ParseRepoName(name)
    case None => NameRejected(InvalidNameMessage(name))
    case Some((group, project)) =>
      ClassifyUpdate(GetLatestVersion(filters, group + "/" + project, feeds), last,
                     (b, h) => CommitMessagesBetweenTags(feeds, b, h))
  }
}
