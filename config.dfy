/**
 * Configuration: the monitored-repository list, the per-repository tag filters and the
 * start-up validation. Environment variables are inputs: each setting arrives as the raw
 * string the environment held (or its documented default).
 */
module Config {
  import opened Wrappers
  import opened Text
  import Versions
  import Routing

  /** `r` is `src` with the empty entries dropped and the order kept: `idx` lists, in
      increasing order, the positions of the non-empty entries, and `r[k]` is the entry
      at `idx[k]`. */
  predicate Kept(src: seq<string>, r: seq<string>, idx: seq<int>) {
    && |idx| == |r|
    && (forall k :: 0 <= k < |idx| ==> 0 <= idx[k] < |src| && r[k] == src[idx[k]])
    && (forall k, l :: 0 <= k < l < |idx| ==> idx[k] < idx[l])
    && (forall j :: 0 <= j < |src| && src[j] != "" ==> j in idx)
  }

  /** Every piece stripped. */
  function StripAll(pieces: seq<string>): (r: seq<string>)
    ensures |r| == |pieces| && forall j :: 0 <= j < |pieces| ==> r[j] == Strip(pieces[j])
  {
    seq(|pieces|, j requires 0 <= j < |pieces| => Strip(pieces[j]))
  }

  /** Each piece stripped, the empty ones dropped, the order kept: the comprehension
      `[p.strip() for p in pieces if p.strip()]`. */
  function CleanPieces(pieces: seq<string>): (r: seq<string>)
    ensures |r| <= |pieces|
    ensures forall k :: 0 <= k < |r| ==> r[k] != "" && IsStripped(r[k])
  {
    if pieces == [] then []
    else
      var s := Strip(pieces[0]);
      var rest := CleanPieces(pieces[1..]);
      if s == "" then rest
      else
        var r := [s] + rest;
        assert forall k :: 1 <= k < |r| ==> r[k] == rest[k - 1];
        r
  }

  /** The cleaned list is exactly the stripped pieces that are not empty, in their
      original order: nothing else, none of them missing, none reordered. */
  lemma {:induction false} CleanPiecesKept(pieces: seq<string>)
    ensures exists idx :: Kept(StripAll(pieces), CleanPieces(pieces), idx)
  {
    if pieces == [] {
      assert CleanPieces(pieces) == [] && StripAll(pieces) == [];
      assert Kept([], [], []);
    } else {
      var rest := CleanPieces(pieces[1..]);
      CleanPiecesKept(pieces[1..]);
      var tailIdx :| Kept(StripAll(pieces[1..]), rest, tailIdx);
      var s := Strip(pieces[0]);
      assert StripAll(pieces) == [s] + StripAll(pieces[1..]);
      assert CleanPieces(pieces) == if s == "" then rest else [s] + rest;
      var idx := KeptCons(s, StripAll(pieces[1..]), rest, tailIdx);
      assert Kept(StripAll(pieces), CleanPieces(pieces), idx);
    }
  }

  /** The positions kept from `src`, moved one place on, with position 0 in front when
      the new head is not empty. */
  lemma KeptCons(h: string, src: seq<string>, r: seq<string>, tailIdx: seq<int>) returns (idx: seq<int>)
    requires Kept(src, r, tailIdx)
    ensures Kept([h] + src, if h == "" then r else [h] + r, idx)
  {
    var shifted := KeptShift(h, src, r, tailIdx);
    if h == "" {
      idx := shifted;
    } else {
      idx := KeptFront(h, src, r, shifted);
    }
  }

  /** The positions kept from `src`, moved one place on behind a new head. */
  lemma KeptShift(h: string, src: seq<string>, r: seq<string>, tailIdx: seq<int>) returns (shifted: seq<int>)
    requires Kept(src, r, tailIdx)
    ensures |shifted| == |r|
    ensures forall k :: 0 <= k < |shifted| ==> 1 <= shifted[k] <= |src| && r[k] == ([h] + src)[shifted[k]]
    ensures forall k, l :: 0 <= k < l < |shifted| ==> shifted[k] < shifted[l]
    ensures forall j :: 1 <= j <= |src| && ([h] + src)[j] != "" ==> j in shifted
  {
    var all := [h] + src;
    shifted := seq(|tailIdx|, k requires 0 <= k < |tailIdx| => tailIdx[k] + 1);
    forall j | 1 <= j <= |src| && all[j] != ""
      ensures j in shifted
    {
      assert src[j - 1] == all[j];
      var k :| 0 <= k < |tailIdx| && tailIdx[k] == j - 1;
      assert shifted[k] == j;
    }
  }

  /** Position 0 in front of the shifted positions, for a head that is kept. */
  lemma KeptFront(h: string, src: seq<string>, r: seq<string>, shifted: seq<int>) returns (idx: seq<int>)
    requires h != ""
    requires |shifted| == |r|
    requires forall k :: 0 <= k < |shifted| ==> 1 <= shifted[k] <= |src| && r[k] == ([h] + src)[shifted[k]]
    requires forall k, l :: 0 <= k < l < |shifted| ==> shifted[k] < shifted[l]
    requires forall j :: 1 <= j <= |src| && ([h] + src)[j] != "" ==> j in shifted
    ensures Kept([h] + src, [h] + r, idx)
  {
    var all := [h] + src;
    idx := [0] + shifted;
    var hr := [h] + r;
    assert forall k :: 1 <= k < |idx| ==> idx[k] == shifted[k - 1] && hr[k] == r[k - 1];
    forall j | 0 <= j < |all| && all[j] != ""
      ensures j in idx
    {
      if j > 0 {
        var k :| 0 <= k < |shifted| && shifted[k] == j;
        assert idx[k + 1] == j;
      }
    }
  }

  /** A character no piece holds is in no cleaned piece either. */
  lemma {:induction false} CleanPiecesAvoid(pieces: seq<string>, c: char)
    requires forall k :: 0 <= k < |pieces| ==> c !in pieces[k]
    ensures forall k :: 0 <= k < |CleanPieces(pieces)| ==> c !in CleanPieces(pieces)[k]
  {
    if pieces != [] {
      StripAvoids(pieces[0], c);
      CleanPiecesAvoid(pieces[1..], c);
    }
  }

  /** Pieces that are already non-empty and stripped come through unchanged. */
  lemma {:induction false} CleanPiecesKeep(pieces: seq<string>)
    requires forall k :: 0 <= k < |pieces| ==> pieces[k] != "" && IsStripped(pieces[k])
    ensures CleanPieces(pieces) == pieces
  {
    if pieces != [] {
      StripFixed(pieces[0]);
      CleanPiecesKeep(pieces[1..]);
      ConsSplit(pieces);
    }
  }

  /** A comma-separated list: non-empty, stripped entries without a comma, in order. */
  function CommaList(s: string): (r: seq<string>)
    ensures forall k :: 0 <= k < |r| ==> r[k] != "" && IsStripped(r[k]) && ',' !in r[k]
  {
    CleanPiecesAvoid(Split(s, ','), ',');
    CleanPieces(Split(s, ','))
  }

  /** `MONITORED_REPOS`, from the raw environment string (default ""). */
  function ParseMonitoredRepos(raw: string): (repos: seq<string>)
    ensures forall k :: 0 <= k < |repos| ==> repos[k] != "" && IsStripped(repos[k]) && ',' !in repos[k]
  {
    CommaList(raw)
  }

  /** Writing a list of clean names comma-separated and parsing it gives the list back. */
  lemma MonitoredReposRoundTrip(repos: seq<string>)
    requires |repos| > 0
    requires forall k :: 0 <= k < |repos| ==> repos[k] != "" && IsStripped(repos[k]) && ',' !in repos[k]
    ensures ParseMonitoredRepos(Join(repos, ",")) == repos
  {
    SplitJoin(repos, ',');
    CleanPiecesKeep(repos);
  }

  /** An unset `MONITORED_REPOS` monitors nothing. */
  lemma NoMonitoredRepos()
    ensures ParseMonitoredRepos("") == []
  {
    assert Split("", ',') == [""];
    assert Strip("") == "";
  }

  /** Spaces around the names and an empty entry are dropped, as `" a , ,b "` gives
      `["a", "b"]`. */
  lemma MessyRepoList(a: char, b: char)
    requires !IsSpace(a) && a != ',' && !IsSpace(b) && b != ','
    ensures ParseMonitoredRepos([' ', a, ' ', ',', ' ', ',', b, ' ']) == [[a], [b]]
  {
    var pieces := [[' ', a, ' '], [' '], [b, ' ']];
    MessySplit(a, b);
    MessyStrips(a, b);
    assert pieces[1..] == [[' '], [b, ' ']] && pieces[1..][1..] == [[b, ' ']];
    assert CleanPieces(pieces[1..][1..]) == [[b]];
    assert CleanPieces(pieces[1..]) == [[b]];
  }

  lemma MessySplit(a: char, b: char)
    requires a != ',' && b != ','
    ensures Split([' ', a, ' ', ',', ' ', ',', b, ' '], ',') == [[' ', a, ' '], [' '], [b, ' ']]
  {
    var pieces := [[' ', a, ' '], [' '], [b, ' ']];
    assert pieces[1..] == [[' '], [b, ' ']] && pieces[1..][1..] == [[b, ' ']];
    assert Join(pieces[1..][1..], ",") == [b, ' '];
    assert Join(pieces[1..], ",") == [' ', ',', b, ' '];
    assert Join(pieces, ",") == [' ', a, ' ', ',', ' ', ',', b, ' '];
    SplitJoin(pieces, ',');
  }

  lemma MessyStrips(a: char, b: char)
    requires !IsSpace(a) && !IsSpace(b)
    ensures Strip([' ', a, ' ']) == [a] && Strip([' ']) == "" && Strip([b, ' ']) == [b]
  {
    SpacedLetter(a);
    StripPadRight([b], [' ']);
    StripFixed([b]);
  }

  // ---------------------------------------------------------------------------
  // REPO_TAG_FILTERS = "repo:pat,pat;repo:pat"
  // ---------------------------------------------------------------------------

  /** What one `;`-separated segment contributes: nothing when it is blank, has no `:`,
      or yields an empty name or no pattern; otherwise the stripped text before the first
      `:` and the comma list after it. */
  function SegmentEntry(segment: string): (e: Option<(string, seq<string>)>)
    ensures ':' !in segment ==> e.None?
    ensures Strip(segment) == "" ==> e.None?
    ensures e.Some? ==> e.value.0 != "" && IsStripped(e.value.0) && ':' !in e.value.0
    ensures e.Some? ==> |e.value.1| > 0 && forall k :: 0 <= k < |e.value.1| ==>
      e.value.1[k] != "" && IsStripped(e.value.1[k]) && ',' !in e.value.1[k]
  {
    var seg := Strip(segment);
    if seg == "" || ':' !in seg then
      None
    else
      assert ':' in segment by {
        if ':' !in segment {
          StripAvoids(segment, ':');
        }
      }
      var (before, after) := SplitOnce(seg, ':');
      var name := Strip(before);
      StripAvoids(before, ':');
      var patterns := CommaList(after);
      if name != "" && patterns != [] then Some((name, patterns)) else None
  }

  /** A segment's entry is read off its raw text: the first `:` divides it, and the name
      and each pattern are stripped, so whitespace around them changes nothing. */
  lemma SegmentEntryStrips(segment: string)
    ensures ':' in segment ==>
      var (before, after) := SplitOnce(segment, ':');
      SegmentEntry(segment) ==
        if Strip(before) != "" && CommaList(after) != [] then Some((Strip(before), CommaList(after))) else None
  {
    if ':' in segment {
      var r := Strip(segment);
      var i := StripSlice(segment);
      var p, q := segment[..i], segment[i + |r|..];
      ThreeSlices(segment, i, |r|);
      assert !IsSpace(':');
      SpaceAvoids(p, ':');
      SpaceAvoids(q, ':');
      InMiddle(':', p, r, q);
      var (b, a) := SplitOnce(r, ':');
      Regroup(p, b, ':', a, q);
      SplitOnceAfter(p + b, ':', a + q);
      StripPadLeft(p, b);
      CommaListPadRight(a, q);
    }
  }

  /** Whitespace at the end of a comma list only lengthens its last piece, which is then
      stripped. */
  lemma CommaListPadRight(a: string, q: string)
    requires AllSpace(q)
    ensures CommaList(a + q) == CommaList(a)
  {
    assert !IsSpace(',');
    SpaceAvoids(q, ',');
    SplitPadRight(a, q, ',');
    var parts := Split(a, ',');
    var front, last := parts[..|parts| - 1], parts[|parts| - 1];
    FrontLast(parts);
    assert Split(a + q, ',') == front + [last + q];
    CleanPiecesSnoc(front, last + q);
    CleanPiecesSnoc(front, last);
    StripPadRight(last, q);
    CleanSame(last + q, last);
  }

  /** Two pieces that strip alike clean alike. */
  lemma CleanSame(x: string, y: string)
    requires Strip(x) == Strip(y)
    ensures CleanPieces([x]) == CleanPieces([y])
  {
    assert [x][1..] == [] && [y][1..] == [];
  }

  /** Cleaning a list with one more piece cleans that piece on its own. */
  lemma {:induction false} CleanPiecesSnoc(pieces: seq<string>, z: string)
    ensures CleanPieces(pieces + [z]) == CleanPieces(pieces) + CleanPieces([z])
    decreases |pieces|
  {
    if pieces == [] {
      assert pieces + [z] == [z];
    } else {
      assert (pieces + [z])[0] == pieces[0];
      assert (pieces + [z])[1..] == pieces[1..] + [z];
      CleanPiecesSnoc(pieces[1..], z);
      var s := Strip(pieces[0]);
      var a, b := CleanPieces(pieces[1..]), CleanPieces([z]);
      assert [s] + (a + b) == ([s] + a) + b;
    }
  }

  /** A padded segment: spaces around the name and around the pattern still give the
      stripped entry, as `" r : x "` gives `("r", ["x"])`. */
  lemma PaddedSegment(c: char, d: char)
    requires !IsSpace(c) && c != ':' && !IsSpace(d) && d != ','
    ensures SegmentEntry([' ', c, ' ', ':', ' ', d, ' ']) == Some(([c], [[d]]))
  {
    PaddedPieces(c, d);
    assert [' ', c, ' ', ':', ' ', d, ' '] == [' ', c, ' '] + [':'] + [' ', d, ' '];
    EntryAround([' ', c, ' '], [' ', d, ' ']);
  }

  lemma PaddedPieces(c: char, d: char)
    requires !IsSpace(c) && c != ':' && !IsSpace(d) && d != ','
    ensures ':' !in [' ', c, ' '] && Strip([' ', c, ' ']) == [c]
    ensures CommaList([' ', d, ' ']) == [[d]]
  {
    SpacedLetter(c);
    SpacedLetter(d);
    CommaListSingle([' ', d, ' ']);
  }

  /** The entry of a segment whose first `:` follows `before`. */
  lemma EntryAround(before: string, after: string)
    requires ':' !in before && Strip(before) != "" && CommaList(after) != []
    ensures SegmentEntry(before + [':'] + after) == Some((Strip(before), CommaList(after)))
  {
    SplitOnceAfter(before, ':', after);
    SegmentEntryStrips(before + [':'] + after);
  }

  /** A piece without a comma is a one-element comma list once stripped. */
  lemma CommaListSingle(x: string)
    requires ',' !in x && Strip(x) != ""
    ensures CommaList(x) == [Strip(x)]
  {
    assert Split(x, ',') == [x];
    assert [x][1..] == [];
  }

  /** A letter between two spaces strips to itself. */
  lemma SpacedLetter(c: char)
    requires !IsSpace(c)
    ensures Strip([' ', c, ' ']) == [c]
  {
    assert [' ', c, ' '] == [' '] + ([c] + [' ']);
    StripPadLeft([' '], [c] + [' ']);
    StripPadRight([c], [' ']);
    StripFixed([c]);
  }

  /** A dictionary after one segment's contribution. */
  function Apply(filters: Versions.TagFilters, entry: Option<(string, seq<string>)>): Versions.TagFilters {
    match entry
    case None => filters
    case Some((name, patterns)) => filters[name := patterns]
  }

  /** The filters after the given segments, processed in order; a later segment for a
      repository replaces the earlier list. */
  function FiltersOf(segments: seq<string>): Versions.TagFilters {
    if segments == [] then map[]
    else Apply(FiltersOf(segments[..|segments| - 1]), SegmentEntry(segments[|segments| - 1]))
  }

  /** `get_repo_tag_filters` on the raw `REPO_TAG_FILTERS` string (default ""). */
  function TagFiltersOf(filterStr: string): Versions.TagFilters {
    if filterStr == "" then map[] else FiltersOf(Split(filterStr, ';'))
  }

  lemma FiltersOfPrefix(segments: seq<string>, i: nat)
    requires i < |segments|
    ensures FiltersOf(segments[..i + 1]) == Apply(FiltersOf(segments[..i]), SegmentEntry(segments[i]))
  {
    assert segments[..i + 1][..i] == segments[..i];
  }

  /** The parser itself: a loop over the `;` segments that assigns into the dictionary. */
  method ParseTagFilters(filterStr: string) returns (filters: Versions.TagFilters)
    ensures filters == TagFiltersOf(filterStr)
  {
    filters := map[];
    if filterStr != "" {
      filters := AddSegments(Split(filterStr, ';'));
    }
  }

  /** The loop over the `;` segments, from an empty dictionary. */
  method AddSegments(segments: seq<string>) returns (filters: Versions.TagFilters)
    ensures filters == FiltersOf(segments)
  {
    filters := map[];
    var i := 0;
    assert segments[..0] == [];
    while i < |segments|
      invariant 0 <= i <= |segments|
      invariant filters == FiltersOf(segments[..i])
    {
      FiltersOfPrefix(segments, i);
      filters := AddSegment(filters, segments[i]);
      i := i + 1;
    }
    assert segments[..|segments|] == segments;
  }

  /** One pass of the parser's loop: the segment's entry, if any, is assigned. */
  method AddSegment(filters: Versions.TagFilters, segment: string) returns (r: Versions.TagFilters)
    ensures r == Apply(filters, SegmentEntry(segment))
  {
    r := filters;
    var seg := Strip(segment);
    if seg != "" && ':' in seg {
      var parts := SplitOnce(seg, ':');
      var name := Strip(parts.0);
      var patternList := CommaList(parts.1);
      if name != "" && patternList != [] {
        r := r[name := patternList];
        assert SegmentEntry(segment) == Some((name, patternList));
      } else {
        assert SegmentEntry(segment) == None;
      }
    } else {
      assert SegmentEntry(segment) == None;
    }
  }

  /** Every key is a non-empty stripped name without `:` or `;`; every list is non-empty
      and holds non-empty stripped patterns without `,` (they may hold `:`). */
  predicate WellFormedFilters(filters: Versions.TagFilters) {
    forall name :: name in filters ==>
      && name != "" && IsStripped(name) && ':' !in name && ';' !in name
      && |filters[name]| > 0
      && forall k :: 0 <= k < |filters[name]| ==>
           filters[name][k] != "" && IsStripped(filters[name][k]) && ',' !in filters[name][k]
  }

  lemma {:induction false} FiltersOfWellFormed(segments: seq<string>)
    requires forall k :: 0 <= k < |segments| ==> ';' !in segments[k]
    ensures WellFormedFilters(FiltersOf(segments))
  {
    if segments != [] {
      FiltersOfWellFormed(segments[..|segments| - 1]);
      ApplyWellFormed(FiltersOf(segments[..|segments| - 1]), segments[|segments| - 1]);
    }
  }

  /** One segment without `;` keeps the filters well formed. */
  lemma ApplyWellFormed(filters: Versions.TagFilters, segment: string)
    requires WellFormedFilters(filters) && ';' !in segment
    ensures WellFormedFilters(Apply(filters, SegmentEntry(segment)))
  {
    var e := SegmentEntry(segment);
    if e.Some? {
      SegmentKeyAvoids(segment, ';');
      UpdateWellFormed(filters, e.value.0, e.value.1);
    }
  }

  lemma UpdateWellFormed(filters: Versions.TagFilters, name: string, patterns: seq<string>)
    requires WellFormedFilters(filters)
    requires name != "" && IsStripped(name) && ':' !in name && ';' !in name
    requires |patterns| > 0 && forall k :: 0 <= k < |patterns| ==>
      patterns[k] != "" && IsStripped(patterns[k]) && ',' !in patterns[k]
    ensures WellFormedFilters(filters[name := patterns])
  {
  }

  /** A segment's key holds no character the segment lacks. */
  lemma SegmentKeyAvoids(segment: string, c: char)
    requires c !in segment && SegmentEntry(segment).Some?
    ensures c !in SegmentEntry(segment).value.0
  {
    var seg := Strip(segment);
    StripAvoids(segment, c);
    var (before, after) := SplitOnce(seg, ':');
    assert c !in before by {
      assert seg == before + [':'] + after;
      assert forall k :: 0 <= k < |before| ==> before[k] == seg[k];
    }
    StripAvoids(before, c);
  }

  /** Whatever the string, the parsed filters are well formed; an empty string gives none. */
  lemma TagFiltersWellFormed(filterStr: string)
    ensures WellFormedFilters(TagFiltersOf(filterStr))
    ensures filterStr == "" ==> TagFiltersOf(filterStr) == map[]
  {
    if filterStr != "" {
      FiltersOfWellFormed(Split(filterStr, ';'));
    }
  }

  /** A segment appended after `;` decides its repository's entry: a later segment for
      the same repository replaces the earlier patterns, and a segment that contributes
      nothing changes nothing. */
  lemma LaterSegmentWins(earlier: string, segment: string)
    requires earlier != "" && ';' !in segment
    ensures SegmentEntry(segment).Some? ==>
      TagFiltersOf(earlier + ";" + segment) ==
        TagFiltersOf(earlier)[SegmentEntry(segment).value.0 := SegmentEntry(segment).value.1]
    ensures SegmentEntry(segment).None? ==> TagFiltersOf(earlier + ";" + segment) == TagFiltersOf(earlier)
  {
    SplitAppend(earlier, ';', segment);
    assert earlier + ";" + segment == earlier + [';'] + segment;
    FiltersOfSnoc(Split(earlier, ';'), segment);
  }

  lemma FiltersOfSnoc(segments: seq<string>, segment: string)
    ensures FiltersOf(segments + [segment]) == Apply(FiltersOf(segments), SegmentEntry(segment))
  {
    assert (segments + [segment])[..|segments|] == segments;
  }

  /** A clean repository name and a clean pattern list, written `name:pat,pat`, parse back
      to that entry. */
  lemma SegmentRoundTrip(name: string, patterns: seq<string>)
    requires name != "" && IsStripped(name) && ':' !in name
    requires |patterns| > 0
    requires forall k :: 0 <= k < |patterns| ==> patterns[k] != "" && IsStripped(patterns[k]) && ',' !in patterns[k]
    ensures SegmentEntry(name + ":" + Join(patterns, ",")) == Some((name, patterns))
  {
    var rest := Join(patterns, ",");
    JoinLast(patterns, ",");
    var seg := name + ":" + rest;
    assert seg[0] == name[0] && seg[|seg| - 1] == rest[|rest| - 1];
    SegmentOfStripped(name, rest);
    CommaListJoin(patterns);
  }

  /** A stripped `name:rest` segment with a clean name contributes that name and the
      comma list of `rest`, if it is not empty. */
  lemma SegmentOfStripped(name: string, rest: string)
    requires name != "" && IsStripped(name) && ':' !in name
    requires IsStripped(name + ":" + rest)
    ensures SegmentEntry(name + ":" + rest) ==
      if CommaList(rest) != [] then Some((name, CommaList(rest))) else None
  {
    StripFixed(name + ":" + rest);
    SplitOnceAfter(name, ':', rest);
    StripFixed(name);
  }

  /** A clean pattern list written comma-separated parses back to itself. */
  lemma CommaListJoin(patterns: seq<string>)
    requires |patterns| > 0
    requires forall k :: 0 <= k < |patterns| ==> patterns[k] != "" && IsStripped(patterns[k]) && ',' !in patterns[k]
    ensures CommaList(Join(patterns, ",")) == patterns
  {
    SplitJoin(patterns, ',');
    CleanPiecesKeep(patterns);
  }

  /** The configuration from the repository's tag-filter test parses to one entry. */
  lemma ExampleFilter()
    ensures SegmentEntry("ethereum-optimism/optimism:op-geth,op-node") ==
      Some(("ethereum-optimism/optimism", ["op-geth", "op-node"]))
  {
    var name := "ethereum-optimism/optimism";
    var patterns := ["op-geth", "op-node"];
    var joined := Join(patterns, ",");
    assert joined == "op-geth,op-node";
    assert name + ":" + joined == "ethereum-optimism/optimism:op-geth,op-node";
    SegmentRoundTrip(name, patterns);
  }

  // ---------------------------------------------------------------------------
  // validate
  // ---------------------------------------------------------------------------

  /** The settings `validate` reads. A flag is the parsed boolean (see `Flag`). */
  datatype Settings = Settings(
    githubToken: string, gitlabToken: string, geminiApiKey: string,
    smtpUsername: string, smtpPassword: string, emailFrom: string, emailTo: string,
    emailAlertsEnabled: bool, slackWebhookUrl: string, slackAlertsEnabled: bool,
    monitoredRepos: seq<string>)

  /** `os.getenv(name, "true").lower() == "true"`. */
  function Flag(raw: Option<string>): (b: bool)
    ensures raw.None? ==> b
    ensures raw.Some? && |raw.value| != 4 ==> !b
  {
    Lower(raw.GetOr("true")) == "true"
  }

  lemma FlagExamples()
    ensures Flag(Some("TRUE")) && Flag(Some("True")) && Flag(None)
    ensures !Flag(Some("false")) && !Flag(Some("1")) && !Flag(Some("yes")) && !Flag(Some(""))
  {
    assert Lower("TRUE") == "true";
    assert Lower("True") == "true";
    assert Lower("false")[0] == 'f';
  }

  /** The entries `validate` can report, in the order it checks them. */
  datatype Missing = GitHubToken | GitLabToken | GeminiKey | NotificationMethod | MonitoredRepos

  /** The text `validate` reports for an entry. */
  function Message(m: Missing): string {
    match m
    case GitHubToken => "GITHUB_TOKEN (required for GitHub repositories)"
    case GitLabToken => "GITLAB_TOKEN (required for GitLab repositories)"
    case GeminiKey => "GEMINI_API_KEY"
    case NotificationMethod => "At least one notification method (Email or Slack)"
    case MonitoredRepos => "MONITORED_REPOS"
  }

  /** The position of an entry in the order `validate` checks them. */
  function Rank(m: Missing): nat {
    match m
    case GitHubToken => 0
    case GitLabToken => 1
    case GeminiKey => 2
    case NotificationMethod => 3
    case MonitoredRepos => 4
  }

  predicate HasGitLabRepos(s: Settings) {
    exists k :: 0 <= k < |s.monitoredRepos| && Routing.GitLabPrefix <= s.monitoredRepos[k]
  }

  predicate HasGitHubRepos(s: Settings) {
    exists k :: 0 <= k < |s.monitoredRepos| && !(Routing.GitLabPrefix <= s.monitoredRepos[k])
  }

  predicate EmailConfigured(s: Settings) {
    s.smtpUsername != "" && s.smtpPassword != "" && s.emailFrom != "" && s.emailTo != "" && s.emailAlertsEnabled
  }

  predicate SlackConfigured(s: Settings) {
    s.slackWebhookUrl != "" && s.slackAlertsEnabled
  }

  /** Entries in strictly increasing check order (so each at most once). */
  predicate Ranked(ms: seq<Missing>) {
    forall i, j :: 0 <= i < j < |ms| ==> Rank(ms[i]) < Rank(ms[j])
  }

  /** Every entry comes before rank `r` in the check order. */
  predicate Below(ms: seq<Missing>, r: nat) {
    forall i :: 0 <= i < |ms| ==> Rank(ms[i]) < r
  }

  /** One check of `validate`: the entry is appended when its condition holds. */
  method Report(missing: seq<Missing>, cond: bool, m: Missing) returns (r: seq<Missing>)
    requires Ranked(missing) && Below(missing, Rank(m))
    ensures Ranked(r) && Below(r, Rank(m) + 1)
    ensures m in r <==> cond
    ensures forall x :: x != m ==> (x in r <==> x in missing)
  {
    r := missing;
    if cond {
      r := r + [m];
    }
  }

  /** `validate`: the missing settings, each reported under its own condition, at most
      once, in a fixed order. */
  method Validate(s: Settings) returns (missing: seq<Missing>)
    ensures GitHubToken in missing <==> HasGitHubRepos(s) && s.githubToken == ""
    ensures GitLabToken in missing <==> HasGitLabRepos(s) && s.gitlabToken == ""
    ensures GeminiKey in missing <==> s.geminiApiKey == ""
    ensures NotificationMethod in missing <==> !EmailConfigured(s) && !SlackConfigured(s)
    ensures MonitoredRepos in missing <==> s.monitoredRepos == []
    ensures Ranked(missing)
  {
    missing := [];
    missing := Report(missing, HasGitHubRepos(s) && s.githubToken == "", GitHubToken);
    missing := Report(missing, HasGitLabRepos(s) && s.gitlabToken == "", GitLabToken);
    missing := Report(missing, s.geminiApiKey == "", GeminiKey);
    missing := Report(missing, !EmailConfigured(s) && !SlackConfigured(s), NotificationMethod);
    missing := Report(missing, |s.monitoredRepos| == 0, MonitoredRepos);
  }

  /** With no repository, neither token is asked for, but the empty list is reported. */
  lemma EmptyRepoListNeedsNoToken(s: Settings)
    requires s.monitoredRepos == []
    ensures !HasGitHubRepos(s) && !HasGitLabRepos(s)
  {
  }
}
