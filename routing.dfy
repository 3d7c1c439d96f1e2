/**
 * The unified repository service: a monitored name may carry a `gitlab:` or `github:`
 * prefix; the prefix picks the platform (GitHub when there is none), is removed, and the
 * remaining name goes to that platform's service.
 */
module Routing {
  import opened Wrappers
  import Versions
  import GitHub
  import GitLab

  datatype Platform = GitHubPlatform | GitLabPlatform

  const GitLabPrefix := "gitlab:"
  const GitHubPrefix := "github:"

  /** `_detect_platform`: GitLab exactly for a `gitlab:` prefix. */
  function DetectPlatform(repoName: string): (p: Platform)
    ensures p == GitLabPlatform <==> GitLabPrefix <= repoName
  {
    if GitLabPrefix <= repoName then GitLabPlatform
    else if GitHubPrefix <= repoName then GitHubPlatform
    else GitHubPlatform
  }

  /** The string `_detect_platform` returns. */
  function PlatformId(p: Platform): string {
    match p
    case GitHubPlatform => "github"
    case GitLabPlatform => "gitlab"
  }

  /** `_clean_repo_name`: the seven characters of a recognised prefix are dropped, and
      only those. */
  function CleanRepoName(repoName: string): (r: string)
    ensures (GitLabPrefix <= repoName || GitHubPrefix <= repoName) ==> r == repoName[7..]
    ensures !(GitLabPrefix <= repoName || GitHubPrefix <= repoName) ==> r == repoName
  {
    if GitLabPrefix <= repoName then repoName[7..]
    else if GitHubPrefix <= repoName then repoName[7..]
    else repoName
  }

  /** `get_platform`: the display name. */
  function GetPlatform(repoName: string): (r: string)
    ensures r == "GitLab" <==> DetectPlatform(repoName) == GitLabPlatform
    ensures r == "GitLab" || r == "GitHub"
  {
    if DetectPlatform(repoName) == GitLabPlatform then "GitLab" else "GitHub"
  }

  /** Adding a prefix and cleaning it gives the name back, and the prefix decides the
      platform. */
  lemma PrefixRoundTrip(n: string)
    ensures CleanRepoName(GitLabPrefix + n) == n && DetectPlatform(GitLabPrefix + n) == GitLabPlatform
    ensures CleanRepoName(GitHubPrefix + n) == n && DetectPlatform(GitHubPrefix + n) == GitHubPlatform
    ensures PlatformId(DetectPlatform(GitLabPrefix + n)) == "gitlab"
    ensures PlatformId(DetectPlatform(GitHubPrefix + n)) == "github"
  {
    assert GitLabPrefix <= GitLabPrefix + n;
    assert GitHubPrefix <= GitHubPrefix + n;
    assert (GitLabPrefix + n)[7..] == n;
    assert (GitHubPrefix + n)[7..] == n;
    assert (GitHubPrefix + n)[3] != GitLabPrefix[3];
  }

  /** Only one prefix is removed: cleaning a doubly-prefixed name leaves a prefixed name,
      so cleaning is not idempotent. */
  lemma OnlyOnePrefixRemoved()
    ensures CleanRepoName("gitlab:gitlab:x") == "gitlab:x"
    ensures CleanRepoName(CleanRepoName("gitlab:gitlab:x")) != CleanRepoName("gitlab:gitlab:x")
  {
    PrefixRoundTrip("gitlab:x");
    PrefixRoundTrip("x");
    assert "gitlab:gitlab:x" == GitLabPrefix + "gitlab:x";
    assert "gitlab:x" == GitLabPrefix + "x";
  }

  /** What both platforms answered for the repository. */
  datatype Remote = Remote(github: GitHub.Feeds, gitlab: GitLab.Feeds)

  /** `check_for_updates`: the cleaned name and the stored version, unchanged, go to the
      service of the detected platform. */
  function CheckForUpdates(filters: Versions.TagFilters, repoName: string, last: Option<string>, remote: Remote): (r: Versions.UpdateInfo)
    ensures DetectPlatform(repoName) == GitLabPlatform ==>
      r == GitLab.CheckForUpdates(filters, CleanRepoName(repoName), last, remote.gitlab)
    ensures DetectPlatform(repoName) == GitHubPlatform ==>
      r == GitHub.CheckForUpdates(filters, CleanRepoName(repoName), last, remote.github)
  {
    var clean := CleanRepoName(repoName);
    match DetectPlatform(repoName)
    case GitLabPlatform => GitLab.CheckForUpdates(filters, clean, last, remote.gitlab)
    case GitHubPlatform => GitHub.CheckForUpdates(filters, clean, last, remote.github)
  }

  /** `get_repo_url`, routed the same way; `gitlabApiBase` is the configured GitLab API base. */
  function RepoUrl(gitlabApiBase: string, repoName: string): (r: string)
    ensures DetectPlatform(repoName) == GitLabPlatform ==> r == GitLab.RepoUrl(gitlabApiBase, CleanRepoName(repoName))
    ensures DetectPlatform(repoName) == GitHubPlatform ==> r == GitHub.RepoUrl(CleanRepoName(repoName))
  {
    var clean := CleanRepoName(repoName);
    match DetectPlatform(repoName)
    case GitLabPlatform => GitLab.RepoUrl(gitlabApiBase, clean)
    case GitHubPlatform => GitHub.RepoUrl(clean)
  }

  /** A `gitlab:` name reaches GitLab without its prefix, and a bare or `github:` name
      reaches GitHub without its prefix. */
  lemma RoutedByPrefix(filters: Versions.TagFilters, n: string, last: Option<string>, remote: Remote)
    ensures CheckForUpdates(filters, GitLabPrefix + n, last, remote) == GitLab.CheckForUpdates(filters, n, last, remote.gitlab)
    ensures CheckForUpdates(filters, GitHubPrefix + n, last, remote) == GitHub.CheckForUpdates(filters, n, last, remote.github)
    ensures !(GitLabPrefix <= n) && !(GitHubPrefix <= n) ==>
      CheckForUpdates(filters, n, last, remote) == GitHub.CheckForUpdates(filters, n, last, remote.github)
  {
    PrefixRoundTrip(n);
  }

  /** With the default GitLab API base, a `gitlab:` name links to its gitlab.com page and
      a `github:` name to its github.com page. */
  lemma RepoUrlByPrefix(n: string)
    ensures RepoUrl(GitLab.DefaultApiBase, GitLabPrefix + n) == "https://gitlab.com/" + n
    ensures RepoUrl(GitLab.DefaultApiBase, GitHubPrefix + n) == "https://github.com/" + n
  {
    PrefixRoundTrip(n);
    GitLab.DefaultRepoUrl(n);
  }
}
