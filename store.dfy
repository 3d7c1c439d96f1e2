/**
 * The record store: the `repositories` table, one row per monitored name, and the
 * append-only `alert_history` log, with the upsert, append and query operations the
 * watcher uses.
 *
 * The SQLite file is not modelled: the two tables are a map keyed by repository name
 * (the name column is UNIQUE) and a sequence of rows in insertion order. Timestamps,
 * which the store reads from the wall clock, are parameters, already in ISO format.
 * Row ids follow AUTOINCREMENT: rows are never deleted here, so the n-th row gets id n.
 */
module Store {
  import opened Wrappers
  import opened Text

  /** A row of `repositories` (the `Repository` record). */
  datatype Repository = Repository(
    id: Option<int>,
    repoName: string,
    repoUrl: string,
    lastChecked: Option<string>,
    lastVersionOrTag: Option<string>,
    lastAlertedVersion: Option<string>,
    severity: Option<string>,
    mandatoryUpgrade: bool,
    createdAt: Option<string>,
    updatedAt: Option<string>)

  /** A row of `alert_history` (the `AlertHistory` record). */
  datatype AlertHistory = AlertHistory(
    id: Option<int>,
    repoName: string,
    version: string,
    severity: string,
    mandatoryUpgrade: bool,
    summary: string,
    alertedAt: string)

  /** The contents of both tables at one moment. */
  datatype Tables = Tables(repositories: map<string, Repository>, alertHistory: seq<AlertHistory>)

  /** Each row is filed under its own name: `repo_name` is UNIQUE. */
  predicate KeyedByName(m: map<string, Repository>) {
    forall n :: n in m ==> m[n].repoName == n
  }

  /** Rows keyed by name with ids in 1..n, ids distinct, and the k-th history row with
      id k + 1. */
  predicate WellFormed(t: Tables) {
    && KeyedByName(t.repositories)
    && (forall n :: n in t.repositories ==>
          && t.repositories[n].id.Some?
          && 1 <= t.repositories[n].id.value <= |t.repositories|)
    && (forall n, m :: n in t.repositories && m in t.repositories && n != m ==>
          t.repositories[n].id != t.repositories[m].id)
    && (forall k :: 0 <= k < |t.alertHistory| ==> t.alertHistory[k].id == Some(k + 1))
  }

  /** SQL `COALESCE(new, old)`. */
  function Coalesce(x: Option<string>, prior: Option<string>): (r: Option<string>)
    ensures x.Some? ==> r == x
    ensures x.None? ==> r == prior
  {
    if x.Some? then x else prior
  }

  // ---------------------------------------------------------------------------
  // upsert_repository
  // ---------------------------------------------------------------------------

  /** `upsert_repository(repo_name, repo_url, last_version_or_tag, last_alerted_version,
      severity, mandatory_upgrade)` at time `now`: an UPDATE of the existing row, in which
      the three optional fields keep their value when not given, or an INSERT. */
  function Upsert(t: Tables, name: string, url: string, lastVersion: Option<string>,
                  lastAlerted: Option<string>, severity: Option<string>, mandatory: bool,
                  now: string): (r: Tables)
    ensures r.alertHistory == t.alertHistory
    ensures r.repositories.Keys == t.repositories.Keys + {name}
    ensures forall n :: n in t.repositories && n != name ==> r.repositories[n] == t.repositories[n]
  {
    if name in t.repositories then
      var prior := t.repositories[name];
      var row := prior.(repoUrl := url,
                        lastChecked := Some(now),
                        lastVersionOrTag := Coalesce(lastVersion, prior.lastVersionOrTag),
                        lastAlertedVersion := Coalesce(lastAlerted, prior.lastAlertedVersion),
                        severity := Coalesce(severity, prior.severity),
                        mandatoryUpgrade := mandatory,
                        updatedAt := Some(now));
      t.(repositories := t.repositories[name := row])
    else
      var row := Repository(Some(|t.repositories| + 1), name, url, Some(now), lastVersion, lastAlerted,
                            severity, mandatory, Some(now), Some(now));
      t.(repositories := t.repositories[name := row])
  }

  /** The value a field had before, or None for a name not yet stored. */
  function Prior(t: Tables, name: string, field: Repository -> Option<string>): Option<string> {
    if name in t.repositories then field(t.repositories[name]) else None
  }

  /** What an upsert leaves in the row, insert or update alike: the URL, the check time,
      the update time and the mandatory flag are always overwritten (so a call that does
      not pass the flag resets it to false); each of the three optional fields takes the
      given value, or keeps the prior one when none is given; the id and creation time of
      an existing row are kept. */
  lemma UpsertRow(t: Tables, name: string, url: string, lastVersion: Option<string>,
                  lastAlerted: Option<string>, severity: Option<string>, mandatory: bool, now: string)
    requires WellFormed(t)
    ensures var row := Upsert(t, name, url, lastVersion, lastAlerted, severity, mandatory, now).repositories[name];
      && row.repoName == name
      && row.repoUrl == url && row.lastChecked == Some(now) && row.updatedAt == Some(now)
      && row.mandatoryUpgrade == mandatory
      && row.lastVersionOrTag == Coalesce(lastVersion, Prior(t, name, (r: Repository) => r.lastVersionOrTag))
      && row.lastAlertedVersion == Coalesce(lastAlerted, Prior(t, name, (r: Repository) => r.lastAlertedVersion))
      && row.severity == Coalesce(severity, Prior(t, name, (r: Repository) => r.severity))
      && (name in t.repositories ==>
            row.id == t.repositories[name].id && row.createdAt == t.repositories[name].createdAt)
      && (name !in t.repositories ==> row.createdAt == Some(now))
  {
  }

  /** Upserts keep the tables well formed: a new name gets the next id. */
  lemma UpsertWellFormed(t: Tables, name: string, url: string, lastVersion: Option<string>,
                         lastAlerted: Option<string>, severity: Option<string>, mandatory: bool, now: string)
    requires WellFormed(t)
    ensures WellFormed(Upsert(t, name, url, lastVersion, lastAlerted, severity, mandatory, now))
  {
    var r := Upsert(t, name, url, lastVersion, lastAlerted, severity, mandatory, now);
    if name in t.repositories {
      assert r.repositories.Keys == t.repositories.Keys;
      assert r.repositories[name].id == t.repositories[name].id;
      RowsKeepIds(t, r, name);
    } else {
      InsertedRowWellFormed(t, r.repositories, name);
    }
  }

  /** Replacing one row by another with the same name and id keeps the tables well formed. */
  lemma RowsKeepIds(t: Tables, r: Tables, name: string)
    requires WellFormed(t) && name in t.repositories && r.alertHistory == t.alertHistory
    requires r.repositories.Keys == t.repositories.Keys
    requires r.repositories[name].id == t.repositories[name].id && r.repositories[name].repoName == name
    requires forall n :: n in t.repositories && n != name ==> r.repositories[n] == t.repositories[n]
    ensures WellFormed(r)
  {
    assert |r.repositories| == |t.repositories|;
    assert forall n :: n in r.repositories ==> r.repositories[n].id == t.repositories[n].id;
  }

  /** A new name whose row takes the next id keeps the tables well formed. */
  lemma InsertedRowWellFormed(t: Tables, m: map<string, Repository>, name: string)
    requires WellFormed(t) && name !in t.repositories && name in m
    requires m == t.repositories[name := m[name]]
    requires m[name].repoName == name && m[name].id == Some(|t.repositories| + 1)
    ensures WellFormed(t.(repositories := m))
  {
    assert |m| == |t.repositories| + 1;
    forall n | n in t.repositories
      ensures t.repositories[n].id != Some(|t.repositories| + 1)
    {
    }
  }

  /** A stored last-alerted version is never cleared: an upsert can only replace it with
      another version. */
  lemma LastAlertedNeverCleared(t: Tables, name: string, url: string, lastVersion: Option<string>,
                                lastAlerted: Option<string>, severity: Option<string>, mandatory: bool, now: string)
    requires name in t.repositories && t.repositories[name].lastAlertedVersion.Some?
    ensures Upsert(t, name, url, lastVersion, lastAlerted, severity, mandatory, now)
              .repositories[name].lastAlertedVersion.Some?
    ensures lastAlerted.None? ==>
      Upsert(t, name, url, lastVersion, lastAlerted, severity, mandatory, now).repositories[name].lastAlertedVersion
        == t.repositories[name].lastAlertedVersion
  {
  }

  // ---------------------------------------------------------------------------
  // add_alert_history
  // ---------------------------------------------------------------------------

  /** `add_alert_history(...)` at time `now`: one row appended, the repositories untouched. */
  function AddAlert(t: Tables, name: string, version: string, severity: string, mandatory: bool,
                    summary: string, now: string): (r: Tables)
    ensures r.repositories == t.repositories
    ensures |r.alertHistory| == |t.alertHistory| + 1 && r.alertHistory[..|t.alertHistory|] == t.alertHistory
    ensures r.alertHistory[|t.alertHistory|] ==
      AlertHistory(Some(|t.alertHistory| + 1), name, version, severity, mandatory, summary, now)
  {
    t.(alertHistory := t.alertHistory + [AlertHistory(Some(|t.alertHistory| + 1), name, version, severity,
                                                      mandatory, summary, now)])
  }

  lemma AddAlertWellFormed(t: Tables, name: string, version: string, severity: string, mandatory: bool,
                           summary: string, now: string)
    requires WellFormed(t)
    ensures WellFormed(AddAlert(t, name, version, severity, mandatory, summary, now))
  {
  }

  // ---------------------------------------------------------------------------
  // get_repository / get_all_repositories
  // ---------------------------------------------------------------------------

  /** `get_repository(repo_name)`: the row filed under the name, or None. */
  function Lookup(t: Tables, name: string): (r: Option<Repository>)
    requires WellFormed(t)
    ensures r.None? <==> name !in t.repositories
    ensures r.Some? ==> r.value.repoName == name && r.value == t.repositories[name]
  {
    if name in t.repositories then Some(t.repositories[name]) else None
  }

  /** `m` is a smallest name of the set. */
  predicate IsLeast(names: set<string>, m: string) {
    m in names && forall k :: k in names ==> !LexLess(k, m)
  }

  /** A finite non-empty set of names has a smallest one. */
  lemma {:induction false} HasLeast(names: set<string>)
    requires names != {}
    ensures exists m :: IsLeast(names, m)
    decreases |names|
  {
    var x :| x in names;
    var rest := names - {x};
    if rest == {} {
      assert names == {x};
      LexIrreflexive(x);
      assert IsLeast(names, x);
    } else {
      HasLeast(rest);
      var m :| IsLeast(rest, m);
      if LexLess(x, m) {
        NewLeast(names, x, m);
        assert IsLeast(names, x);
      } else {
        OldLeast(names, x, m);
        assert IsLeast(names, m);
      }
    }
  }

  /** A name below the least of the others is the least of all. */
  lemma NewLeast(names: set<string>, x: string, m: string)
    requires x in names && LexLess(x, m)
    requires IsLeast(names - {x}, m)
    ensures forall k :: k in names ==> !LexLess(k, x)
  {
    forall k | k in names
      ensures !LexLess(k, x)
    {
      if k == x {
        LexIrreflexive(x);
      } else if LexLess(k, x) {
        LexTransitive(k, x, m);
      }
    }
  }

  /** The least of the others stays least when the added name is not below it. */
  lemma OldLeast(names: set<string>, x: string, m: string)
    requires x in names && !LexLess(x, m)
    requires IsLeast(names - {x}, m)
    ensures IsLeast(names, m)
  {
    assert forall k :: k in names ==> k == x || k in names - {x};
  }

  /** The least name is below every other one. */
  lemma LeastBelowRest(names: set<string>, m: string)
    requires IsLeast(names, m)
    ensures forall k :: k in names - {m} ==> LexLess(m, k)
  {
    forall k | k in names - {m}
      ensures LexLess(m, k)
    {
      LexTotal(m, k);
    }
  }

  /** The names in ascending order, each once. */
  ghost function Ascending(names: set<string>): (r: seq<string>)
    ensures |r| == |names|
    ensures forall k :: k in names <==> k in r
    ensures forall i, j :: 0 <= i < j < |r| ==> LexLess(r[i], r[j])
    decreases |names|
  {
    if names == {} then []
    else
      HasLeast(names);
      var m :| IsLeast(names, m);
      LeastBelowRest(names, m);
      var rest := Ascending(names - {m});
      [m] + rest
  }

  /** The names of a list of rows, in list order. */
  function Names(rows: seq<Repository>): (r: seq<string>)
    ensures |r| == |rows| && forall i :: 0 <= i < |rows| ==> r[i] == rows[i].repoName
  {
    seq(|rows|, i requires 0 <= i < |rows| => rows[i].repoName)
  }

  /** `get_all_repositories()`: every row once, ordered by name (`ORDER BY repo_name`). */
  ghost function AllRepositories(t: Tables): (r: seq<Repository>)
    requires KeyedByName(t.repositories)
    ensures |r| == |t.repositories|
    ensures forall i :: 0 <= i < |r| ==> r[i].repoName in t.repositories && t.repositories[r[i].repoName] == r[i]
    ensures forall n :: n in t.repositories ==> n in Names(r)
    ensures forall i, j :: 0 <= i < j < |r| ==> LexLess(r[i].repoName, r[j].repoName)
  {
    var names := Ascending(t.repositories.Keys);
    var r := seq(|names|, i requires 0 <= i < |names| => t.repositories[names[i]]);
    assert Names(r) == names;
    r
  }

  // ---------------------------------------------------------------------------
  // get_alert_history
  // ---------------------------------------------------------------------------

  /** `WHERE repo_name = ?`, applied only when the name is given and not empty. */
  predicate Selected(name: Option<string>, row: AlertHistory) {
    name.None? || name.value == "" || row.repoName == name.value
  }

  /** The selected rows, in log order. */
  function Filter(rows: seq<AlertHistory>, name: Option<string>): (r: seq<AlertHistory>)
    ensures |r| <= |rows|
    ensures forall x :: x in r <==> x in rows && Selected(name, x)
    ensures multiset(r) <= multiset(rows)
  {
    if rows == [] then []
    else
      var rest := Filter(rows[1..], name);
      assert rows == [rows[0]] + rows[1..];
      if Selected(name, rows[0]) then [rows[0]] + rest else rest
  }

  /** Rows ordered by `alerted_at` descending (later first). Rows with equal timestamps
      are in no particular order in SQL. */
  predicate NewestFirst(s: seq<AlertHistory>) {
    forall i, j :: 0 <= i < j < |s| ==> !LexLess(s[i].alertedAt, s[j].alertedAt)
  }

  /** Puts a row into a newest-first sequence. */
  function Insert(x: AlertHistory, s: seq<AlertHistory>): (r: seq<AlertHistory>)
    requires NewestFirst(s)
    ensures NewestFirst(r)
    ensures multiset(r) == multiset(s) + multiset{x}
    ensures |r| == |s| + 1
  {
    if s == [] || !LexLess(x.alertedAt, s[0].alertedAt) then
      InsertFront(x, s);
      [x] + s
    else
      var rest := Insert(x, s[1..]);
      assert s == [s[0]] + s[1..];
      HeadStaysFirst(x, s, rest);
      [s[0]] + rest
  }

  /** A row no older than the head of a newest-first sequence can go in front. */
  lemma InsertFront(x: AlertHistory, s: seq<AlertHistory>)
    requires NewestFirst(s)
    requires s == [] || !LexLess(x.alertedAt, s[0].alertedAt)
    ensures NewestFirst([x] + s)
  {
    forall j | 0 <= j < |s|
      ensures !LexLess(x.alertedAt, s[j].alertedAt)
    {
      if j > 0 {
        NotLessTransitive(x.alertedAt, s[0].alertedAt, s[j].alertedAt);
      }
    }
    var r := [x] + s;
    assert forall j :: 0 < j < |r| ==> r[j] == s[j - 1];
  }

  /** The head of a newest-first sequence stays in front when an older row goes in behind it. */
  lemma HeadStaysFirst(x: AlertHistory, s: seq<AlertHistory>, rest: seq<AlertHistory>)
    requires NewestFirst(s) && s != [] && LexLess(x.alertedAt, s[0].alertedAt)
    requires NewestFirst(rest) && multiset(rest) == multiset(s[1..]) + multiset{x}
    ensures NewestFirst([s[0]] + rest)
  {
    forall y | y in multiset(rest)
      ensures !LexLess(s[0].alertedAt, y.alertedAt)
    {
      if y == x {
        LexTotal(s[0].alertedAt, x.alertedAt);
        if LexLess(s[0].alertedAt, x.alertedAt) {
          LexTransitive(s[0].alertedAt, x.alertedAt, s[0].alertedAt);
          LexIrreflexive(s[0].alertedAt);
        }
      } else {
        assert y in multiset(s[1..]);
        var j :| 0 <= j < |s[1..]| && s[1..][j] == y;
        assert s[j + 1] == y;
      }
    }
    forall i | 0 <= i < |rest|
      ensures !LexLess(s[0].alertedAt, rest[i].alertedAt)
    {
      assert rest[i] in multiset(rest);
    }
    var r := [s[0]] + rest;
    assert forall j :: 0 < j < |r| ==> r[j] == rest[j - 1];
  }

  /** `ORDER BY alerted_at DESC` on the selected rows. */
  function SortNewestFirst(s: seq<AlertHistory>): (r: seq<AlertHistory>)
    ensures NewestFirst(r)
    ensures multiset(r) == multiset(s)
    ensures |r| == |s|
  {
    if s == [] then []
    else
      assert s == [s[0]] + s[1..];
      Insert(s[0], SortNewestFirst(s[1..]))
  }

  /** `LIMIT ?`: a negative limit, as SQLite reads it, means no limit. */
  function Limit(s: seq<AlertHistory>, limit: int): (r: seq<AlertHistory>)
    ensures r <= s
    ensures |r| == if 0 <= limit < |s| then limit else |s|
  {
    if 0 <= limit < |s| then s[..limit] else s
  }

  /** `get_alert_history(repo_name, limit)`. */
  function AlertHistoryRows(t: Tables, name: Option<string>, limit: int): seq<AlertHistory> {
    Limit(SortNewestFirst(Filter(t.alertHistory, name)), limit)
  }

  /** Cutting a newest-first sequence keeps the newest rows: none left out is newer than
      one kept. */
  lemma LimitKeepsNewest(s: seq<AlertHistory>, limit: int)
    requires NewestFirst(s)
    ensures var r := Limit(s, limit);
      && NewestFirst(r)
      && multiset(r) <= multiset(s)
      && (forall y, i :: y in multiset(s) - multiset(r) && 0 <= i < |r| ==> !LexLess(r[i].alertedAt, y.alertedAt))
  {
    var r := Limit(s, limit);
    var k := |r|;
    assert s == r + s[k..];
    assert multiset(s) == multiset(r) + multiset(s[k..]);
    forall y, i | y in multiset(s) - multiset(r) && 0 <= i < |r|
      ensures !LexLess(r[i].alertedAt, y.alertedAt)
    {
      assert y in multiset(s[k..]);
      var j :| 0 <= j < |s[k..]| && s[k..][j] == y;
      assert s[k + j] == y && s[i] == r[i];
    }
  }

  /** The query returns only rows of the asked repository (all rows when no name is
      given), newest first, as many as the limit allows, and leaves out no row newer than
      one it returns. */
  lemma AlertHistoryQuery(t: Tables, name: Option<string>, limit: int)
    ensures var r := AlertHistoryRows(t, name, limit);
      var selected := Filter(t.alertHistory, name);
      && (forall i :: 0 <= i < |r| ==> r[i] in t.alertHistory && Selected(name, r[i]))
      && NewestFirst(r)
      && |r| == (if 0 <= limit < |selected| then limit else |selected|)
      && multiset(r) <= multiset(selected)
      && (forall y, i :: y in multiset(selected) - multiset(r) && 0 <= i < |r| ==>
            !LexLess(r[i].alertedAt, y.alertedAt))
  {
    var selected := Filter(t.alertHistory, name);
    var sorted := SortNewestFirst(selected);
    var r := AlertHistoryRows(t, name, limit);
    LimitKeepsNewest(sorted, limit);
    forall i | 0 <= i < |r|
      ensures r[i] in t.alertHistory && Selected(name, r[i])
    {
      assert r[i] in multiset(r);
      assert r[i] in multiset(selected);
    }
  }

  // ---------------------------------------------------------------------------
  // The Database object
  // ---------------------------------------------------------------------------

  /** The store as the watcher holds it: the two tables, updated in place. */
  class Database {
    var repositories: map<string, Repository>
    var alertHistory: seq<AlertHistory>

    function Contents(): Tables
      reads this
    {
      Tables(repositories, alertHistory)
    }

    predicate Valid()
      reads this
    {
      WellFormed(Contents())
    }

    /** Opens a store that already holds `initial` (an empty one on first start). */
    constructor (initial: Tables)
      requires WellFormed(initial)
      ensures Valid() && Contents() == initial
    {
      repositories := initial.repositories;
      alertHistory := initial.alertHistory;
    }

    /** `get_repository(repo_name)`. */
    function GetRepository(name: string): (r: Option<Repository>)
      reads this
      requires Valid()
      ensures r == Lookup(Contents(), name)
    {
      if name in repositories then Some(repositories[name]) else None
    }

    /** `upsert_repository(...)` at time `now`. */
    method UpsertRepository(name: string, url: string, lastVersion: Option<string>,
                            lastAlerted: Option<string>, severity: Option<string>, mandatory: bool,
                            now: string)
      requires Valid()
      modifies this
      ensures Valid()
      ensures Contents() == Upsert(old(Contents()), name, url, lastVersion, lastAlerted, severity, mandatory, now)
    {
      UpsertWellFormed(Contents(), name, url, lastVersion, lastAlerted, severity, mandatory, now);
      repositories := Upsert(Contents(), name, url, lastVersion, lastAlerted, severity, mandatory, now).repositories;
    }

    /** `add_alert_history(...)` at time `now`. */
    method AddAlertHistory(name: string, version: string, severity: string, mandatory: bool,
                           summary: string, now: string)
      requires Valid()
      modifies this
      ensures Valid()
      ensures Contents() == AddAlert(old(Contents()), name, version, severity, mandatory, summary, now)
    {
      AddAlertWellFormed(Contents(), name, version, severity, mandatory, summary, now);
      alertHistory := alertHistory + [AlertHistory(Some(|alertHistory| + 1), name, version, severity,
                                                   mandatory, summary, now)];
    }

    /** `get_alert_history(repo_name, limit)`. */
    method GetAlertHistory(name: Option<string>, limit: int) returns (rows: seq<AlertHistory>)
      ensures rows == AlertHistoryRows(Contents(), name, limit)
    {
      rows := Limit(SortNewestFirst(Filter(alertHistory, name)), limit);
    }
  }
}
