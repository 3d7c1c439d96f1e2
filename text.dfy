/**
 * The few Python `str` operations the release watcher relies on, written out over
 * `seq<char>`: whitespace stripping, `lower()`, the `in` substring test,
 * `split(sep)`, `split(sep, 1)`, `replace(old, "")`, `lstrip(ch)` and `join`.
 */
module Text {

  /** Python's `str.isspace()`: the ASCII blanks, the four information separators
      U+001C..U+001F and the Unicode space characters. */
  predicate IsSpace(c: char) {
    c == ' ' || c == '\t' || c == '\n' || c == '\r' || c == '\U{000B}' || c == '\U{000C}'
    || ('\U{001C}' <= c <= '\U{001F}') || c == '\U{0085}' || c == '\U{00A0}' || c == '\U{1680}'
    || ('\U{2000}' <= c <= '\U{200A}') || c == '\U{2028}' || c == '\U{2029}' || c == '\U{202F}'
    || c == '\U{205F}' || c == '\U{3000}'
  }

  predicate AllSpace(s: string) {
    forall i :: 0 <= i < |s| ==> IsSpace(s[i])
  }

  /** The number of leading whitespace characters. */
  function LeadingSpaces(s: string): (n: nat)
    ensures n <= |s|
    ensures forall j :: 0 <= j < n ==> IsSpace(s[j])
    ensures n < |s| ==> !IsSpace(s[n])
  {
    if |s| > 0 && IsSpace(s[0]) then
      var t := s[1..];
      var k := LeadingSpaces(t);
      assert forall j :: 0 <= j < k ==> t[j] == s[j + 1];
      k + 1
    else 0
  }

  /** The number of trailing whitespace characters. */
  function TrailingSpaces(s: string): (n: nat)
    ensures n <= |s|
    ensures forall j :: |s| - n <= j < |s| ==> IsSpace(s[j])
    ensures n < |s| ==> !IsSpace(s[|s| - n - 1])
  {
    if |s| > 0 && IsSpace(s[|s| - 1]) then
      var t := s[..|s| - 1];
      var k := TrailingSpaces(t);
      assert forall j :: |t| - k <= j < |t| ==> t[j] == s[j];
      k + 1
    else 0
  }

  /** `s.lstrip()`: drops the leading whitespace. */
  function StripLeft(s: string): (r: string)
    ensures |r| <= |s| && r == s[|s| - |r|..]
    ensures AllSpace(s[..|s| - |r|])
    ensures r == [] || !IsSpace(r[0])
  {
    s[LeadingSpaces(s)..]
  }

  /** `s.rstrip()`: drops the trailing whitespace. */
  function StripRight(s: string): (r: string)
    ensures |r| <= |s| && r == s[..|r|]
    ensures AllSpace(s[|r|..])
    ensures r == [] || !IsSpace(r[|r| - 1])
  {
    s[..|s| - TrailingSpaces(s)]
  }

  /** `r` is the slice of `s` at offset `i`, with only whitespace around it. */
  predicate StrippedAt(s: string, r: string, i: int) {
    0 <= i <= |s| - |r| && r == s[i..i + |r|] && AllSpace(s[..i]) && AllSpace(s[i + |r|..])
  }

  /** `s.strip()`: both whitespace ends removed. */
  function Strip(s: string): (r: string)
    ensures IsStripped(r) && |r| <= |s|
  {
    StripRight(StripLeft(s))
  }

  /** What `strip()` keeps is a slice of its argument with only whitespace around it. */
  lemma StripSlice(s: string) returns (i: nat)
    ensures StrippedAt(s, Strip(s), i)
  {
    var l := StripLeft(s);
    var r := StripRight(l);
    i := |s| - |l|;
    assert r == s[i..i + |r|];
    assert s[i + |r|..] == l[|r|..];
  }

  /** No whitespace at either end: what `strip()` returns. */
  predicate IsStripped(s: string) {
    s == [] || (!IsSpace(s[0]) && !IsSpace(s[|s| - 1]))
  }

  /** Stripping cannot introduce a character. */
  lemma StripAvoids(s: string, c: char)
    requires c !in s
    ensures c !in Strip(s)
  {
    var r := Strip(s);
    var i := StripSlice(s);
    assert forall k :: 0 <= k < |r| ==> r[k] == s[i + k];
  }

  /** A string with no whitespace at either end is its own strip. */
  lemma {:induction false} StripFixed(s: string)
    requires IsStripped(s)
    ensures Strip(s) == s
  {
  }

  /** Whitespace in front of `x` adds to `x`'s own leading whitespace. */
  lemma {:induction false} LeadingSpacesPad(p: string, x: string)
    requires AllSpace(p)
    ensures LeadingSpaces(p + x) == |p| + LeadingSpaces(x)
    decreases |p|
  {
    if p == [] {
      assert p + x == x;
    } else {
      assert (p + x)[0] == p[0];
      assert (p + x)[1..] == p[1..] + x;
      LeadingSpacesPad(p[1..], x);
    }
  }

  /** Text after an `x` that is not all whitespace leaves its leading whitespace alone. */
  lemma {:induction false} LeadingSpacesPrefix(x: string, q: string)
    requires LeadingSpaces(x) < |x|
    ensures LeadingSpaces(x + q) == LeadingSpaces(x)
    decreases |x|
  {
    assert (x + q)[0] == x[0];
    if IsSpace(x[0]) {
      assert (x + q)[1..] == x[1..] + q;
      LeadingSpacesPrefix(x[1..], q);
    }
  }

  /** Whitespace behind `x` adds to `x`'s own trailing whitespace. */
  lemma {:induction false} TrailingSpacesPad(x: string, q: string)
    requires AllSpace(q)
    ensures TrailingSpaces(x + q) == TrailingSpaces(x) + |q|
    decreases |q|
  {
    if q == [] {
      assert x + q == x;
    } else {
      var s := x + q;
      assert s[|s| - 1] == q[|q| - 1];
      assert s[..|s| - 1] == x + q[..|q| - 1];
      TrailingSpacesPad(x, q[..|q| - 1]);
    }
  }

  /** Whitespace in front does not change what `strip()` keeps. */
  lemma StripPadLeft(p: string, x: string)
    requires AllSpace(p)
    ensures Strip(p + x) == Strip(x)
  {
    LeadingSpacesPad(p, x);
    assert StripLeft(p + x) == StripLeft(x);
  }

  /** Whitespace behind does not change what `strip()` keeps. */
  lemma StripPadRight(x: string, q: string)
    requires AllSpace(q)
    ensures Strip(x + q) == Strip(x)
  {
    if LeadingSpaces(x) < |x| {
      StripLeftPrefix(x, q);
      StripRightPad(StripLeft(x), q);
    } else {
      LeadingSpacesPad(x, q);
      LeadingSpacesPad(q, []);
      assert q + [] == q;
      assert StripLeft(x + q) == [] && StripLeft(x) == [];
    }
  }

  lemma StripLeftPrefix(x: string, q: string)
    requires LeadingSpaces(x) < |x|
    ensures StripLeft(x + q) == StripLeft(x) + q
  {
    var n := LeadingSpaces(x);
    LeadingSpacesPrefix(x, q);
    assert StripLeft(x + q) == (x + q)[n..];
    assert StripLeft(x) == x[n..];
    DropAppend(x, q, n);
  }

  /** A whitespace-only string holds no other character. */
  lemma SpaceAvoids(p: string, c: char)
    requires AllSpace(p) && !IsSpace(c)
    ensures c !in p
  {
  }

  /** A sequence is its three consecutive slices. */
  lemma ThreeSlices<T>(s: seq<T>, i: nat, n: nat)
    requires i + n <= |s|
    ensures s == s[..i] + s[i..i + n] + s[i + n..]
  {
  }

  /** An element of `p + r + q` that is in neither `p` nor `q` is in `r`. */
  lemma InMiddle<T>(x: T, p: seq<T>, r: seq<T>, q: seq<T>)
    requires x in p + r + q && x !in p && x !in q
    ensures x in r
  {
  }

  /** Regrouping `p + (b + [c] + a) + q` around `c`. */
  lemma Regroup<T>(p: seq<T>, b: seq<T>, c: T, a: seq<T>, q: seq<T>)
    ensures p + (b + [c] + a) + q == (p + b) + [c] + (a + q)
  {
  }

  /** A non-empty sequence is its front followed by its last element. */
  lemma FrontLast<T>(s: seq<T>)
    requires |s| > 0
    ensures s == s[..|s| - 1] + [s[|s| - 1]]
  {
  }

  /** Dropping a prefix of `x` from `x + q` leaves the rest of `x`, then `q`. */
  lemma DropAppend<T>(x: seq<T>, q: seq<T>, n: nat)
    requires n <= |x|
    ensures (x + q)[n..] == x[n..] + q
  {
  }

  lemma StripRightPad(l: string, q: string)
    requires AllSpace(q)
    ensures StripRight(l + q) == StripRight(l)
  {
    TrailingSpacesPad(l, q);
    var n := |l| - TrailingSpaces(l);
    assert (l + q)[..n] == l[..n];
  }

  function LowerChar(c: char): (r: char)
    ensures 'A' <= c <= 'Z' ==> 'a' <= r <= 'z'
    ensures !('A' <= c <= 'Z') ==> r == c
  {
    if 'A' <= c <= 'Z' then (c as int - 'A' as int + 'a' as int) as char else c
  }

  /** `s.lower()` on the ASCII letters. */
  function Lower(s: string): (r: string)
    ensures |r| == |s|
    ensures forall i :: 0 <= i < |s| ==> r[i] == LowerChar(s[i])
  {
    seq(|s|, i requires 0 <= i < |s| => LowerChar(s[i]))
  }

  /** Python's `p in s` for strings, scanning left to right. */
  predicate IsSubstring(p: string, s: string)
    decreases |s|
  {
    p <= s || (|s| > 0 && IsSubstring(p, s[1..]))
  }

  predicate OccursAt(p: string, s: string, k: int) {
    0 <= k <= |s| - |p| && s[k..k + |p|] == p
  }

  /** `p in s` holds exactly when `p` occurs at some offset of `s`. */
  lemma {:induction false} IsSubstringAt(p: string, s: string)
    ensures IsSubstring(p, s) <==> exists k :: OccursAt(p, s, k)
    decreases |s|
  {
    if p <= s {
      assert OccursAt(p, s, 0);
    } else if |s| > 0 {
      IsSubstringAt(p, s[1..]);
      if IsSubstring(p, s[1..]) {
        var k :| OccursAt(p, s[1..], k);
        assert s[k + 1..k + 1 + |p|] == s[1..][k..k + |p|];
        assert OccursAt(p, s, k + 1);
      }
      if k :| OccursAt(p, s, k) && k > 0 {
        assert s[1..][k - 1..k - 1 + |p|] == s[k..k + |p|];
        assert OccursAt(p, s[1..], k - 1);
      }
    }
  }

  /** `p in a + p + b` always holds. */
  lemma {:induction false} IsSubstringInside(a: string, p: string, b: string)
    ensures IsSubstring(p, a + p + b)
    decreases |a|
  {
    if a == [] {
      assert a + p + b == p + b;
    } else {
      IsSubstringInside(a[1..], p, b);
      assert (a + p + b)[1..] == a[1..] + p + b;
    }
  }

  /** Text appended after an occurrence does not remove it. */
  lemma {:induction false} IsSubstringExtend(p: string, s: string, t: string)
    requires IsSubstring(p, s)
    ensures IsSubstring(p, s + t)
    decreases |s|
  {
    if !(p <= s) {
      IsSubstringExtend(p, s[1..], t);
      assert (s + t)[1..] == s[1..] + t;
    }
  }

  /** Text put in front of an occurrence does not remove it. */
  lemma {:induction false} IsSubstringPrepend(p: string, s: string, t: string)
    requires IsSubstring(p, t)
    ensures IsSubstring(p, s + t)
    decreases |s|
  {
    if s == [] {
      assert s + t == t;
    } else {
      IsSubstringPrepend(p, s[1..], t);
      assert (s + t)[1..] == s[1..] + t;
    }
  }

  predicate IsDigit(c: char) { '0' <= c <= '9' }

  predicate AllDigits(s: string) {
    forall i :: 0 <= i < |s| ==> IsDigit(s[i])
  }

  /** `'=' * n` and the like. */
  function Repeat(c: char, n: nat): (r: string)
    ensures |r| == n && forall i :: 0 <= i < n ==> r[i] == c
  {
    if n == 0 then [] else [c] + Repeat(c, n - 1)
  }

  /** `s.lstrip(c)`: every leading `c` removed. */
  function LStripChar(s: string, c: char): (r: string)
    ensures |r| <= |s| && r == s[|s| - |r|..]
    ensures forall i :: 0 <= i < |s| - |r| ==> s[i] == c
    ensures r == [] || r[0] != c
  {
    if |s| > 0 && s[0] == c then LStripChar(s[1..], c) else s
  }

  /** The index of the first `c` in `s`. */
  function IndexOf(s: string, c: char): (i: nat)
    requires c in s
    ensures i < |s| && s[i] == c && c !in s[..i]
  {
    if s[0] == c then 0 else IndexOf(s[1..], c) + 1
  }

  /** The first `c` of `a + [c] + b` is the one after `a` when `a` holds none. */
  lemma {:induction false} IndexOfAfter(a: string, c: char, b: string)
    requires c !in a
    ensures IndexOf(a + [c] + b, c) == |a|
    decreases |a|
  {
    if a != [] {
      assert (a + [c] + b)[1..] == a[1..] + [c] + b;
      IndexOfAfter(a[1..], c, b);
    }
  }

  /** A non-empty sequence is its head followed by its tail. */
  lemma ConsSplit<T>(s: seq<T>)
    requires |s| > 0
    ensures s == [s[0]] + s[1..]
  {
  }

  /** `sep.join(parts)`. */
  function Join(parts: seq<string>, sep: string): string {
    if |parts| == 0 then ""
    else if |parts| == 1 then parts[0]
    else parts[0] + sep + Join(parts[1..], sep)
  }

  /** `s.split(c)` for a one-character separator: the maximal `c`-free pieces, in order;
      there is always at least one piece, and joining them back gives `s`. */
  function Split(s: string, c: char): (parts: seq<string>)
    ensures |parts| >= 1
    ensures forall k :: 0 <= k < |parts| ==> c !in parts[k]
    ensures Join(parts, [c]) == s
    decreases |s|
  {
    if c !in s then [s]
    else
      var i := IndexOf(s, c);
      var rest := Split(s[i + 1..], c);
      assert s == s[..i] + [c] + s[i + 1..];
      [s[..i]] + rest
  }

  /** The number of `c` in `s`. */
  function Count(s: string, c: char): nat {
    if s == [] then 0 else (if s[0] == c then 1 else 0) + Count(s[1..], c)
  }

  lemma {:induction false} CountAppend(a: string, b: string, c: char)
    ensures Count(a + b, c) == Count(a, c) + Count(b, c)
    decreases |a|
  {
    if a != [] {
      assert (a + b)[1..] == a[1..] + b;
      CountAppend(a[1..], b, c);
    } else {
      assert a + b == b;
    }
  }

  lemma {:induction false} CountAbsent(s: string, c: char)
    ensures c !in s <==> Count(s, c) == 0
    decreases |s|
  {
    if s != [] {
      CountAbsent(s[1..], c);
      assert s == [s[0]] + s[1..];
    }
  }

  /** `s.split(c)` has one piece more than `s` has separators. */
  lemma {:induction false} SplitCount(s: string, c: char)
    ensures |Split(s, c)| == Count(s, c) + 1
    decreases |s|
  {
    CountAbsent(s, c);
    if c in s {
      var i := IndexOf(s, c);
      SplitCount(s[i + 1..], c);
      assert s == s[..i] + ([c] + s[i + 1..]);
      CountAppend(s[..i], [c] + s[i + 1..], c);
      CountAppend([c], s[i + 1..], c);
      CountAbsent(s[..i], c);
    }
  }

  /** Splitting a join undoes it when no piece holds the separator. */
  lemma {:induction false} SplitJoin(parts: seq<string>, c: char)
    requires |parts| >= 1
    requires forall k :: 0 <= k < |parts| ==> c !in parts[k]
    ensures Split(Join(parts, [c]), c) == parts
    decreases |parts|
  {
    if |parts| > 1 {
      var s := Join(parts, [c]);
      var tail := Join(parts[1..], [c]);
      assert s == parts[0] + [c] + tail;
      assert c in s by { assert s[|parts[0]|] == c; }
      IndexOfAfter(parts[0], c, tail);
      var i := IndexOf(s, c);
      assert s[..i] == parts[0];
      assert s[i + 1..] == tail;
      SplitJoin(parts[1..], c);
    }
  }

  /** Text appended after a `c` does not move the first `c`. */
  lemma {:induction false} IndexOfPrefix(a: string, rest: string, c: char)
    requires c in a
    ensures c in a + rest && IndexOf(a + rest, c) == IndexOf(a, c)
    decreases |a|
  {
    assert (a + rest)[0] == a[0];
    if a[0] != c {
      assert (a + rest)[1..] == a[1..] + rest;
      IndexOfPrefix(a[1..], rest, c);
    }
  }

  /** Appending a separator and a separator-free piece adds that piece to the split. */
  lemma {:induction false} SplitAppend(a: string, c: char, b: string)
    requires c !in b
    ensures Split(a + [c] + b, c) == Split(a, c) + [b]
    decreases |a|
  {
    if c !in a {
      SplitAtFirst(a, c, b);
      assert Split(a, c) == [a];
    } else {
      var i := IndexOf(a, c);
      SplitAfterFirst(a, c, b);
      SplitAppend(a[i + 1..], c, b);
      ConsSnoc(a[..i], Split(a[i + 1..], c), b);
    }
  }

  lemma ConsSnoc<T>(h: T, rest: seq<T>, z: T)
    ensures [h] + (rest + [z]) == ([h] + rest) + [z]
  {
  }

  /** With no separator in `a`, the split of `a + [c] + b` is `a` then the split of `b`. */
  lemma SplitAtFirst(a: string, c: char, b: string)
    requires c !in a && c !in b
    ensures Split(a + [c] + b, c) == [a, b]
  {
    var s := a + [c] + b;
    IndexOfAfter(a, c, b);
    assert s[..|a|] == a && s[|a| + 1..] == b;
  }

  /** With a separator in `a`, splitting `a + [c] + b` first cuts at `a`'s first one. */
  lemma SplitAfterFirst(a: string, c: char, b: string)
    requires c in a
    ensures var i := IndexOf(a, c);
      && Split(a + [c] + b, c) == [a[..i]] + Split(a[i + 1..] + [c] + b, c)
      && Split(a, c) == [a[..i]] + Split(a[i + 1..], c)
  {
    var s := a + [c] + b;
    var i := IndexOf(a, c);
    assert s == a + ([c] + b);
    IndexOfPrefix(a, [c] + b, c);
    assert s[..i] == a[..i];
    assert s[i + 1..] == a[i + 1..] + [c] + b;
  }

  /** The list with `q` appended to its last element. */
  function ExtendLast(parts: seq<string>, q: string): seq<string>
    requires |parts| > 0
  {
    parts[..|parts| - 1] + [parts[|parts| - 1] + q]
  }

  /** Separator-free text appended to `a` lengthens the last piece of its split. */
  lemma {:induction false} SplitPadRight(a: string, q: string, c: char)
    requires c !in q
    ensures Split(a + q, c) == ExtendLast(Split(a, c), q)
    decreases |a|
  {
    if c !in a {
      SplitPadNone(a, q, c);
      assert [a][..0] + [a + q] == [a + q];
    } else {
      var i := IndexOf(a, c);
      SplitPadFirst(a, q, c);
      var rest := Split(a[i + 1..], c);
      SplitPadRight(a[i + 1..], q, c);
      ConsExtendLast(a[..i], rest, q);
    }
  }

  /** Extending the last element of a list, seen through a prepended head. */
  lemma ConsExtendLast(h: string, rest: seq<string>, q: string)
    requires |rest| > 0
    ensures [h] + ExtendLast(rest, q) == ExtendLast([h] + rest, q)
  {
    var parts := [h] + rest;
    assert parts[..|parts| - 1] == [h] + rest[..|rest| - 1];
  }

  lemma SplitPadNone(a: string, q: string, c: char)
    requires c !in a && c !in q
    ensures Split(a + q, c) == [a + q] && Split(a, c) == [a]
  {
    assert c !in a + q;
  }

  /** With a separator in `a`, text after `a` stays behind `a`'s first one. */
  lemma SplitPadFirst(a: string, q: string, c: char)
    requires c in a
    ensures var i := IndexOf(a, c);
      && Split(a + q, c) == [a[..i]] + Split(a[i + 1..] + q, c)
      && Split(a, c) == [a[..i]] + Split(a[i + 1..], c)
  {
    var i := IndexOf(a, c);
    IndexOfPrefix(a, q, c);
    assert (a + q)[..i] == a[..i];
    assert (a + q)[i + 1..] == a[i + 1..] + q;
  }

  /** `s.split(c, 1)` when it yields two pieces: the text before the first `c` and all
      the text after it, for an `s` that holds a `c`. */
  function SplitOnce(s: string, c: char): (r: (string, string))
    requires c in s
    ensures s == r.0 + [c] + r.1 && c !in r.0
  {
    var i := IndexOf(s, c);
    assert s == s[..i] + [c] + s[i + 1..];
    (s[..i], s[i + 1..])
  }

  /** Splitting once at the first `c` of `a + [c] + b`, when `a` holds none, gives `a` and `b`. */
  lemma SplitOnceAfter(a: string, c: char, b: string)
    requires c !in a
    ensures c in a + [c] + b && SplitOnce(a + [c] + b, c) == (a, b)
  {
    var s := a + [c] + b;
    assert s[|a|] == c;
    IndexOfAfter(a, c, b);
    assert s[..|a|] == a;
    assert s[|a| + 1..] == b;
  }

  /** A join ends with the last character of its last part, when that part is not empty. */
  lemma {:induction false} JoinLast(parts: seq<string>, sep: string)
    requires |parts| > 0 && parts[|parts| - 1] != ""
    ensures var j := Join(parts, sep); |j| > 0 && j[|j| - 1] == parts[|parts| - 1][|parts[|parts| - 1]| - 1]
    decreases |parts|
  {
    if |parts| > 1 {
      JoinLast(parts[1..], sep);
    }
  }

  /** `s.replace(pat, "")`: every occurrence of `pat` found scanning left to right is
      dropped; the scan resumes after a removed occurrence. */
  function RemoveAll(s: string, pat: string): (r: string)
    requires |pat| > 0
    ensures |r| <= |s|
    decreases |s|
  {
    if |s| == 0 then ""
    else if pat <= s then RemoveAll(s[|pat|..], pat)
    else [s[0]] + RemoveAll(s[1..], pat)
  }

  /** Text without the pattern is left alone. */
  lemma {:induction false} RemoveAllAbsent(s: string, pat: string)
    requires |pat| > 0 && !IsSubstring(pat, s)
    ensures RemoveAll(s, pat) == s
    decreases |s|
  {
    if |s| > 0 {
      RemoveAllAbsent(s[1..], pat);
      assert s == [s[0]] + s[1..];
    }
  }

  /** Python's `<` on strings, which is also SQLite's BINARY collation for text: the
      first differing character decides, and a proper prefix comes first. */
  predicate LexLess(a: string, b: string)
    decreases |a|
  {
    |b| > 0 && (|a| == 0 || a[0] < b[0] || (a[0] == b[0] && LexLess(a[1..], b[1..])))
  }

  lemma {:induction false} LexIrreflexive(a: string)
    ensures !LexLess(a, a)
    decreases |a|
  {
    if |a| > 0 {
      LexIrreflexive(a[1..]);
    }
  }

  lemma {:induction false} LexTransitive(a: string, b: string, c: string)
    requires LexLess(a, b) && LexLess(b, c)
    ensures LexLess(a, c)
    decreases |a|
  {
    if |a| > 0 && a[0] == b[0] && b[0] == c[0] {
      LexTransitive(a[1..], b[1..], c[1..]);
    }
  }

  lemma {:induction false} LexTotal(a: string, b: string)
    ensures a == b || LexLess(a, b) || LexLess(b, a)
    decreases |a|
  {
    if |a| > 0 && |b| > 0 && a[0] == b[0] {
      LexTotal(a[1..], b[1..]);
      if a[1..] == b[1..] {
        assert a == [a[0]] + a[1..] && b == [b[0]] + b[1..];
      }
    }
  }

  /** "Not below" is transitive: the order is total. */
  lemma NotLessTransitive(a: string, b: string, c: string)
    requires !LexLess(a, b) && !LexLess(b, c)
    ensures !LexLess(a, c)
  {
    LexTotal(a, b);
    if LexLess(a, c) && LexLess(b, a) {
      LexTransitive(b, a, c);
    }
  }

  /** `str(n)` for an integer. */
  function IntToString(n: int): (r: string)
    ensures |r| >= 1
  {
    if n < 0 then "-" + NatToString(-n) else NatToString(n)
  }

  function NatToString(n: nat): (r: string)
    ensures |r| >= 1 && AllDigits(r)
  {
    if n < 10 then [DigitChar(n)] else NatToString(n / 10) + [DigitChar(n % 10)]
  }

  function DigitChar(d: nat): (c: char)
    requires d < 10
    ensures IsDigit(c)
  {
    ('0' as int + d) as char
  }
}
