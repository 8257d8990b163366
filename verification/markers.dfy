/** The tolerant markers of the formatter: idea headings, `Name:` markers and the
    numbered-item pattern, as matchers that give the length of the match at the
    start of a string (0 when there is none). Greedy quantifiers never need to
    back off in these patterns, so each matcher is deterministic. The matchers
    work on positions of the string they are given. */
module Markers {
  import opened Text

  predicate IsHeadPunct(c: char) {
    c == ':' || c == '-' || c == '.' || c == ')'
  }

  /** Length of `(?:Project\s*Idea|Idea)` (flag `i`) at the start of `s`, or -1.
      When `project` matches but `idea` does not follow, the second alternative
      cannot match either, as it would need `idea` at the same place. */
  function IdeaWordLen(s: string): (k: int)
    ensures k == -1 || 4 <= k <= |s|
    ensures k >= 0 ==> Lower(s[0]) == 'p' || Lower(s[0]) == 'i'
  {
    if StartsCI(s, "project") then
      var j := WsEnd(s, 7);
      if WordAt(s, j, "idea") then j + 4 else -1
    else if StartsCI(s, "idea") then 4 else -1
  }

  /** Length of `(?:Project\s*Idea|Idea)\s*\d+\s*[:\-.)]?` (flag `i`) at the start
      of `s`, or 0: the idea heading of app.js:124-125 and 215. */
  function HeadLen(s: string): (n: nat)
    ensures n <= |s|
    ensures n > 0 ==> n >= 5 && (Lower(s[0]) == 'p' || Lower(s[0]) == 'i')
  {
    var k := IdeaWordLen(s);
    if k < 0 then 0 else HeadAfterWord(s, WsEnd(s, k))
  }

  /** The rest of the heading once the idea word and the whitespace after it end
      at `m`: digits, whitespace and perhaps a mark, or no match. */
  function HeadAfterWord(s: string, m: nat): (n: nat)
    requires m <= |s|
    ensures n == 0 || m < n <= |s|
  {
    var d := DigitEnd(s, m);
    if d == m then 0 else HeadEnd(s, WsEnd(s, d))
  }

  /** The end of the heading once its digits and the whitespace after them end
      at `e`: one mark more if there is one. */
  function HeadEnd(s: string, e: nat): (n: nat)
    requires e <= |s|
    ensures n == e || (n == e + 1 && e < |s| && IsHeadPunct(s[e]))
    ensures e < |s| && IsHeadPunct(s[e]) ==> n == e + 1
  {
    if e < |s| && IsHeadPunct(s[e]) then e + 1 else e
  }

  /** Length of `\d+\s*[.)]\s+` at the start of `s`, or 0. */
  function NumberedLen(s: string): (n: nat)
    ensures n <= |s|
    ensures n > 0 ==> IsDigit(s[0]) && IsSpace(s[n - 1])
  {
    var d := DigitEnd(s, 0);
    if d == 0 then 0 else NumberedTail(s, WsEnd(s, d))
  }

  /** The rest of `\d+\s*[.)]\s+` once the digits and the whitespace after them
      end at `m`: the mark and at least one whitespace character, or no match. */
  function NumberedTail(s: string, m: nat): (n: nat)
    requires m <= |s|
    ensures n == 0 || (m + 1 < n <= |s| && IsSpace(s[n - 1]))
  {
    if m < |s| && (s[m] == '.' || s[m] == ')') then
      var e := WsEnd(s, m + 1);
      if e > m + 1 then e else 0
    else 0
  }

  /** `\d+\s*[.)]\s+` matches somewhere in `s` (the unanchored alternative). */
  predicate ContainsNumbered(s: string)
    decreases |s|
  {
    NumberedLen(s) > 0 || (s != [] && ContainsNumbered(s[1..]))
  }

  /** Length of `Name\s*:` (flag `i`) at the start of `s`, or 0. */
  function MarkerLen(s: string): (n: nat)
    ensures n <= |s|
    ensures n > 0 ==> n >= 5 && StartsCI(s, "name") && s[n - 1] == ':'
  {
    if StartsCI(s, "name") then
      var e := WsEnd(s, 4);
      if e < |s| && s[e] == ':' then e + 1 else 0
    else 0
  }

  /** `ideaHeadRE` of app.js:130. Only the first alternative is anchored by `^`;
      the numbered-item alternative may match anywhere in the line. */
  predicate IsIdeaHead(l: string) {
    HeadLen(l) > 0 || ContainsNumbered(l)
  }

  /** `nameHeadRE` of app.js:131, `^\s*Name\s*:` with flag `i`. */
  predicate IsNameHead(l: string) {
    MarkerLen(TrimLeft(l)) > 0
  }

  /** A line that opens an idea block (app.js:135, 145). */
  predicate IsBlockStart(l: string) {
    IsIdeaHead(l) || IsNameHead(l)
  }

  /** `/^Name\s*:/i`, the unpadded form used by the rescue pass and the title
      (app.js:162, 209, 221). */
  predicate IsNameLine(l: string) {
    MarkerLen(l) > 0
  }

  // ---------- What the matchers match ----------

  /** `s[..k]` is `Project\s*Idea` or `Idea`, ignoring case. */
  predicate IdeaWordAt(s: string, k: nat) {
    || (k == 4 && StartsCI(s, "idea"))
    || (11 <= k <= |s| && StartsCI(s, "project") && BlankIn(s, 7, k - 4) && WordAt(s, k - 4, "idea"))
  }

  /** `s[..n]` is a match of `(?:Project\s*Idea|Idea)\s*\d+\s*[:\-.)]?` (flag `i`):
      the idea word, whitespace, digits, whitespace and perhaps one mark. */
  predicate HeadMatch(s: string, n: nat) {
    exists k: nat, m: nat, d: nat ::
      && k <= m < d <= n <= |s| && IdeaWordAt(s, k) && BlankIn(s, k, m) && DigitsIn(s, m, d)
      && (BlankIn(s, d, n) || (d < n && BlankIn(s, d, n - 1) && IsHeadPunct(s[n - 1])))
  }

  /** `s[..n]` is a match of `\d+\s*[.)]\s+`: digits, whitespace, a `.` or `)`
      and at least one whitespace character. */
  predicate NumberedMatch(s: string, n: nat) {
    exists d: nat, m: nat ::
      && 0 < d <= m && m + 1 < n <= |s| && DigitsIn(s, 0, d) && BlankIn(s, d, m)
      && (s[m] == '.' || s[m] == ')') && BlankIn(s, m + 1, n)
  }

  /** `s[..n]` is a match of `Name\s*:` (flag `i`). */
  predicate MarkerMatch(s: string, n: nat) {
    5 <= n <= |s| && StartsCI(s, "name") && BlankIn(s, 4, n - 1) && s[n - 1] == ':'
  }

  lemma IdeaWordFound(s: string)
    requires IdeaWordLen(s) >= 0
    ensures IdeaWordAt(s, IdeaWordLen(s))
  {
  }

  lemma IdeaWordUnique(s: string, k: nat)
    requires IdeaWordAt(s, k)
    ensures k == IdeaWordLen(s)
  {
    if StartsCI(s, "project") {
      assert Lower(s[0]) == 'p';
      assert Lower(s[k - 4]) == 'i';
      WsEndIs(s, 7, k - 4);
    }
  }

  /** The heading matcher gives the longest match of the heading pattern at the
      start of `s`, and 0 exactly when there is none. */
  lemma HeadLenMatch(s: string)
    ensures HeadLen(s) > 0 ==> HeadMatch(s, HeadLen(s))
    ensures forall n: nat :: HeadMatch(s, n) ==> 0 < n <= HeadLen(s)
  {
    if HeadLen(s) > 0 {
      HeadLenIsMatch(s);
    }
    forall n: nat | HeadMatch(s, n) ensures 0 < n <= HeadLen(s) {
      var k: nat, m: nat, d: nat :| && k <= m < d <= n <= |s| && IdeaWordAt(s, k) && BlankIn(s, k, m)
        && DigitsIn(s, m, d)
        && (BlankIn(s, d, n) || (d < n && BlankIn(s, d, n - 1) && IsHeadPunct(s[n - 1])));
      HeadWitness(s, n, k, m, d);
    }
  }

  /** The parts of the heading matcher: the idea word, whitespace, digits,
      whitespace and perhaps a mark. */
  lemma HeadLenParts(s: string)
    requires HeadLen(s) > 0
    ensures IdeaWordLen(s) >= 0
    ensures DigitEnd(s, WsEnd(s, IdeaWordLen(s))) > WsEnd(s, IdeaWordLen(s))
  {
  }

  /** The converse of `HeadLenParts`: an idea word followed by digits is a
      heading. */
  lemma HeadLenPositive(s: string, k: nat, m: nat)
    requires k == IdeaWordLen(s) && m == WsEnd(s, k) && DigitEnd(s, m) > m
    ensures HeadLen(s) > 0
  {
  }

  /** `HeadLen` once the idea word, the digits and the whitespace after them are
      found. */
  lemma HeadLenValue(s: string, k: nat, m: nat, d: nat, e: nat)
    requires k == IdeaWordLen(s) && m == WsEnd(s, k) && d == DigitEnd(s, m) && d > m
    requires e == WsEnd(s, d)
    ensures HeadLen(s) == e || (HeadLen(s) == e + 1 && e < |s| && IsHeadPunct(s[e]))
    ensures e < |s| && IsHeadPunct(s[e]) ==> HeadLen(s) == e + 1
  {
    assert HeadLen(s) == HeadAfterWord(s, m);
  }

  /** The position where the `Idea` of a `Project Idea` heading begins. */
  function IdeaStart(s: string): nat
    requires StartsCI(s, "project")
  {
    WsEnd(s, 7)
  }

  /** The `Idea n` inside a `Project Idea n` heading is a heading of its own. */
  lemma InnerHead(s: string)
    requires HeadLen(s) > 0 && StartsCI(s, "project")
    ensures IdeaStart(s) < |s| && HeadLen(s[IdeaStart(s)..]) > 0
    ensures Lower(s[IdeaStart(s)]) == 'i'
  {
    var j := IdeaStart(s);
    HeadLenParts(s);
    ProjectWord(s);
    HeadAt(s, j, WsEnd(s, j + 4));
  }

  /** After `Project`, the idea word continues with `Idea`. */
  lemma ProjectWord(s: string)
    requires StartsCI(s, "project") && IdeaWordLen(s) >= 0
    ensures IdeaWordLen(s) == WsEnd(s, 7) + 4 && WordAt(s, WsEnd(s, 7), "idea")
  {
  }

  /** An `Idea` followed by whitespace and a digit inside `s` begins a heading. */
  lemma HeadAt(s: string, j: nat, m: nat)
    requires WordAt(s, j, "idea") && m == WsEnd(s, j + 4) && DigitEnd(s, m) > m
    ensures j < |s| && HeadLen(s[j..]) > 0
  {
    var t := s[j..];
    IdeaWordShift(s, j);
    WsEndShift(s, j, 4);
    assert t[m - j] == s[m];
    HeadLenPositive(t, 4, m - j);
  }

  /** `Idea` at position `j` of `s` is the idea word at the start of `s[j..]`. */
  lemma IdeaWordShift(s: string, j: nat)
    requires WordAt(s, j, "idea")
    ensures j < |s| && IdeaWordLen(s[j..]) == 4
  {
    var t := s[j..];
    assert StartsCI(t, "idea") by {
      forall x | 0 <= x < 4 ensures Lower(t[x]) == Lower("idea"[x]) {
        assert t[x] == s[j + x];
      }
    }
    assert !StartsCI(t, "project") by {
      assert Lower(t[0]) == Lower("idea"[0]);
    }
  }

  /** A positive length is a match of the heading pattern. */
  lemma HeadLenIsMatch(s: string)
    requires HeadLen(s) > 0
    ensures HeadMatch(s, HeadLen(s))
  {
    HeadLenParts(s);
    IdeaWordFound(s);
    var k := IdeaWordLen(s);
    var m := WsEnd(s, k);
    var d := DigitEnd(s, m);
    var e := WsEnd(s, d);
    HeadLenValue(s, k, m, d, e);
    var n := HeadLen(s);
    assert BlankIn(s, d, n) || (d < n && BlankIn(s, d, n - 1) && IsHeadPunct(s[n - 1]));
    HeadMatchIntro(s, n, k, m, d);
  }

  lemma HeadMatchIntro(s: string, n: nat, k: nat, m: nat, d: nat)
    requires k <= m < d <= n <= |s| && IdeaWordAt(s, k) && BlankIn(s, k, m) && DigitsIn(s, m, d)
    requires BlankIn(s, d, n) || (d < n && BlankIn(s, d, n - 1) && IsHeadPunct(s[n - 1]))
    ensures HeadMatch(s, n)
  {
  }

  lemma HeadWitness(s: string, n: nat, k': nat, m': nat, d': nat)
    requires k' <= m' < d' <= n <= |s| && IdeaWordAt(s, k') && BlankIn(s, k', m') && DigitsIn(s, m', d')
    requires BlankIn(s, d', n) || (d' < n && BlankIn(s, d', n - 1) && IsHeadPunct(s[n - 1]))
    ensures n <= HeadLen(s)
  {
    IdeaWordUnique(s, k');
    var k := IdeaWordLen(s);
    assert IsDigit(s[m']);
    WsEndIs(s, k, m');
    var m := WsEnd(s, k);
    DigitEndReaches(s, m, d');
    var d := DigitEnd(s, m);
    var e := WsEnd(s, d);
    HeadLenValue(s, k, m, d, e);
    if d > d' {
      HeadEndsAtDigits(s, n, d');
    } else {
      HeadTail(s, n, d, e);
    }
  }

  /** A heading match that stops inside the digit run stops right after its digits. */
  lemma HeadEndsAtDigits(s: string, n: nat, d: nat)
    requires d <= n <= |s| && d < |s| && IsDigit(s[d])
    requires BlankIn(s, d, n) || (d < n && BlankIn(s, d, n - 1) && IsHeadPunct(s[n - 1]))
    ensures n == d
  {
  }

  lemma HeadTail(s: string, n: nat, d: nat, e: nat)
    requires d <= n <= |s| && e == WsEnd(s, d)
    requires e < |s| && IsHeadPunct(s[e]) ==> HeadLen(s) == e + 1
    requires e <= HeadLen(s)
    requires BlankIn(s, d, n) || (d < n && BlankIn(s, d, n - 1) && IsHeadPunct(s[n - 1]))
    ensures n <= HeadLen(s)
  {
    if BlankIn(s, d, n) {
      WsEndReaches(s, d, n);
    } else {
      WsEndReaches(s, d, n - 1);
    }
  }

  /** The numbered-item matcher gives the longest match of `\d+\s*[.)]\s+` at the
      start of `s`, and 0 exactly when there is none. */
  lemma NumberedLenMatch(s: string)
    ensures NumberedLen(s) > 0 ==> NumberedMatch(s, NumberedLen(s))
    ensures forall n: nat :: NumberedMatch(s, n) ==> 0 < n <= NumberedLen(s)
  {
    if NumberedLen(s) > 0 {
      NumberedLenIsMatch(s);
    }
    forall n: nat | NumberedMatch(s, n) ensures 0 < n <= NumberedLen(s) {
      var d': nat, m': nat :| && 0 < d' <= m' && m' + 1 < n <= |s| && DigitsIn(s, 0, d')
        && BlankIn(s, d', m') && (s[m'] == '.' || s[m'] == ')') && BlankIn(s, m' + 1, n);
      NumberedWitness(s, n, d', m');
    }
  }

  /** A positive length is a match of the numbered-item pattern. */
  lemma NumberedLenIsMatch(s: string)
    requires NumberedLen(s) > 0
    ensures NumberedMatch(s, NumberedLen(s))
  {
    var d := DigitEnd(s, 0);
    var m := WsEnd(s, d);
    NumberedLenValue(s, d, m);
    NumberedMatchIntro(s, NumberedLen(s), d, m);
  }

  lemma NumberedMatchIntro(s: string, n: nat, d: nat, m: nat)
    requires 0 < d <= m && m + 1 < n <= |s| && DigitsIn(s, 0, d) && BlankIn(s, d, m)
    requires (s[m] == '.' || s[m] == ')') && BlankIn(s, m + 1, n)
    ensures NumberedMatch(s, n)
  {
  }

  lemma NumberedWitness(s: string, n: nat, d': nat, m': nat)
    requires 0 < d' <= m' && m' + 1 < n <= |s| && DigitsIn(s, 0, d') && BlankIn(s, d', m')
    requires s[m'] == '.' || s[m'] == ')'
    requires BlankIn(s, m' + 1, n)
    ensures n <= NumberedLen(s)
  {
    assert !IsDigit(s[d']);
    DigitEndIs(s, 0, d');
    WsEndIs(s, d', m');
    WsEndReaches(s, m' + 1, n);
    NumberedLenValue(s, d', m');
  }

  /** `NumberedLen` once the digits and the whitespace after them are found:
      the match, if any, ends after the whitespace that follows the mark. */
  lemma NumberedLenValue(s: string, d: nat, m: nat)
    requires d == DigitEnd(s, 0) && m == WsEnd(s, d)
    ensures NumberedLen(s) > 0 ==> d > 0 && m < |s| && (s[m] == '.' || s[m] == ')')
    ensures d > 0 && m < |s| && (s[m] == '.' || s[m] == ')') ==>
      NumberedLen(s) == (if WsEnd(s, m + 1) > m + 1 then WsEnd(s, m + 1) else 0)
  {
  }

  /** The `Name:` matcher gives the one match of `Name\s*:` at the start of `s`,
      and 0 exactly when there is none. */
  lemma MarkerLenMatch(s: string)
    ensures MarkerLen(s) > 0 ==> MarkerMatch(s, MarkerLen(s))
    ensures forall n: nat :: MarkerMatch(s, n) ==> n == MarkerLen(s)
  {
    forall n: nat | MarkerMatch(s, n) ensures n == MarkerLen(s) {
      WsEndIs(s, 4, n - 1);
    }
  }

  /** The unanchored alternative: a numbered item starts somewhere in `s`. */
  lemma {:induction false} ContainsNumberedAt(s: string)
    ensures ContainsNumbered(s) <==> exists i :: 0 <= i <= |s| && NumberedLen(s[i..]) > 0
    decreases |s|
  {
    if s != [] {
      ContainsNumberedAt(s[1..]);
      if exists i :: 0 <= i <= |s| && NumberedLen(s[i..]) > 0 {
        var i :| 0 <= i <= |s| && NumberedLen(s[i..]) > 0;
        if i > 0 {
          assert s[1..][i - 1..] == s[i..];
        }
      }
      if exists i :: 0 <= i <= |s[1..]| && NumberedLen(s[1..][i..]) > 0 {
        var i :| 0 <= i <= |s[1..]| && NumberedLen(s[1..][i..]) > 0;
        assert s[1..][i..] == s[i + 1..];
      }
    } else {
      assert forall i :: 0 <= i <= |s| ==> s[i..] == [];
    }
  }

  /** `ideaHeadRE` (app.js:130) accepts a line exactly when the heading pattern
      matches at its start or a numbered item matches anywhere in it. */
  lemma IdeaHeadMeaning(l: string)
    ensures IsIdeaHead(l) <==>
      (exists n: nat :: HeadMatch(l, n)) || (exists i: nat, n: nat :: 0 <= i <= |l| && NumberedMatch(l[i..], n))
  {
    HeadLenMatch(l);
    ContainsNumberedAt(l);
    forall i | 0 <= i <= |l| {
      NumberedLenMatch(l[i..]);
    }
  }

  /** `nameHeadRE` (app.js:131) accepts a line exactly when `Name\s*:` matches
      after its leading whitespace. */
  lemma NameHeadMeaning(l: string)
    ensures IsNameHead(l) <==> exists j: nat, n: nat :: j <= |l| && BlankIn(l, 0, j) && MarkerMatch(l[j..], n)
  {
    assert l[0..] == l;
    WsRunAt(l, 0);
    MarkerLenMatch(TrimLeft(l));
    forall j: nat, n: nat | j <= |l| && BlankIn(l, 0, j) && MarkerMatch(l[j..], n) ensures IsNameHead(l) {
      assert Lower(l[j..][0]) == 'n';
      WsRunReaches(l, 0, j);
      MarkerLenMatch(l[j..]);
    }
  }

  // ---------- Facts about the markers ----------

  /** The unpadded `Name:` test implies the padded one. */
  lemma NameLineIsNameHead(l: string)
    requires IsNameLine(l)
    ensures IsNameHead(l)
  {
    assert Lower(l[0]) == Lower('n');
    assert !IsSpace(l[0]);
    assert WsRun(l) == 0;
    assert TrimLeft(l) == l;
  }

  /** A line without digits contains no numbered item. */
  lemma {:induction false} NoDigitNoNumbered(s: string)
    requires forall i :: 0 <= i < |s| ==> !IsDigit(s[i])
    ensures !ContainsNumbered(s)
    decreases |s|
  {
    if s != [] {
      NoDigitNoNumbered(s[1..]);
    }
  }

  /** The bare marker `Name:` that app.js:127 writes is a name head and a name
      line but not an idea heading. */
  lemma BareMarker()
    ensures MarkerLen("Name:") == 5
    ensures IsNameLine("Name:") && IsNameHead("Name:") && IsBlockStart("Name:")
    ensures !IsIdeaHead("Name:")
  {
    BareMarkerIs("Name:");
  }

  lemma BareMarkerIs(s: string)
    requires s == "Name:"
    ensures MarkerLen(s) == 5
    ensures IsNameLine(s) && IsNameHead(s) && IsBlockStart(s)
    ensures !IsIdeaHead(s)
  {
    assert StartsCI(s, "name");
    assert WsEnd(s, 4) == 4;
    NameLineIsNameHead(s);
    assert HeadLen(s) == 0 by {
      assert Lower(s[0]) == 'n';
    }
    NoDigitNoNumbered(s);
  }

  /** A marker at the start of a string is still there, with the same length,
      however the string is continued. */
  lemma MarkerPrefix(p: string, q: string)
    requires MarkerLen(p) > 0 && |p| <= |q| && q[..|p|] == p
    ensures MarkerLen(q) == MarkerLen(p)
  {
    var e := WsEnd(p, 4);
    assert forall i :: 0 <= i < |p| ==> q[i] == p[i];
    assert BlankIn(q, 4, e);
    WsEndIs(q, 4, e);
  }

  /** The whitespace run of a string that does not end inside it is unchanged
      by continuing the string. */
  lemma {:induction false} WsRunPrefix(p: string, q: string)
    requires WsRun(p) < |p| && |p| <= |q| && q[..|p|] == p
    ensures WsRun(q) == WsRun(p)
    decreases |p|
  {
    assert q[0] == p[0];
    if IsSpace(p[0]) {
      assert q[1..][..|p| - 1] == p[1..];
      WsRunPrefix(p[1..], q[1..]);
    }
  }
}
