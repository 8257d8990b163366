/** The normalisation passes of `formatOutput` (app.js:111-127), each a global
    `replace`, written as a left-to-right scan that follows JavaScript's rules
    for global replacement: the leftmost match wins, the text between matches is
    copied, and after an empty match the scan moves on by one character. */
module Cleanup {
  import opened Text
  import opened Markers

  predicate IsNoise(c: char) {
    c == '\r' || c == '*' || c == '|'
  }

  /** None of the noise characters that app.js:114-117 remove or replace. */
  predicate NoNoise(s: string)
    decreases |s|
  {
    s == [] || (!IsNoise(s[0]) && NoNoise(s[1..]))
  }

  lemma {:induction false} NoNoiseAppend(a: string, b: string)
    ensures NoNoise(a + b) <==> NoNoise(a) && NoNoise(b)
    decreases |a|
  {
    if a == [] {
      assert a + b == b;
    } else {
      assert (a + b)[0] == a[0];
      assert (a + b)[1..] == a[1..] + b;
      NoNoiseAppend(a[1..], b);
    }
  }

  /** What is left of `s` after dropping its first `k` characters, or its
      first `k` characters, is still free of noise. */
  lemma NoNoiseSplit(s: string, k: nat)
    requires k <= |s|
    ensures NoNoise(s) ==> NoNoise(s[..k]) && NoNoise(s[k..])
  {
    assert s == s[..k] + s[k..];
    NoNoiseAppend(s[..k], s[k..]);
  }

  /** app.js:114-117: carriage returns and asterisks (`**`, then single `*`)
      are deleted and every `|` becomes a space. */
  function Denoise(s: string): string
  {
    if s == [] then []
    else
      var c := s[0];
      (if c == '\r' || c == '*' then [] else if c == '|' then " " else [c]) + Denoise(s[1..])
  }

  /** Denoising leaves no noise, and text free of noise comes through unchanged;
      a pipe becomes a space, while a carriage return or an asterisk goes. With
      `DenoiseAppend` this settles the result for every text. */
  lemma {:induction false} DenoiseClean(s: string)
    ensures NoNoise(Denoise(s))
    ensures NoNoise(s) ==> Denoise(s) == s
    ensures Denoise("|") == " " && Denoise("\r") == [] && Denoise("*") == []
    decreases |s|
  {
    if s != [] {
      var c := s[0];
      var h: string := if c == '\r' || c == '*' then [] else if c == '|' then " " else [c];
      DenoiseClean(s[1..]);
      NoNoiseAppend(h, Denoise(s[1..]));
      assert s == [c] + s[1..];
    }
  }

  /** Denoising works character by character, so it distributes over concatenation. */
  lemma {:induction false} DenoiseAppend(a: string, b: string)
    ensures Denoise(a + b) == Denoise(a) + Denoise(b)
    decreases |a|
  {
    if a == [] {
      assert a + b == b;
    } else {
      assert (a + b)[0] == a[0];
      assert (a + b)[1..] == a[1..] + b;
      DenoiseAppend(a[1..], b);
    }
  }

  /** Length of the run of `-` that begins `s`. */
  function DashRun(s: string): (n: nat)
    ensures n <= |s|
    ensures forall i :: 0 <= i < n ==> s[i] == '-'
    ensures n < |s| ==> s[n] != '-'
  {
    if s == [] || s[0] != '-' then 0 else 1 + DashRun(s[1..])
  }

  predicate NoTripleDash(s: string) {
    forall i :: 0 <= i < |s| - 2 ==> !(s[i] == '-' && s[i + 1] == '-' && s[i + 2] == '-')
  }

  /** The text without its dashes. */
  function NonDash(s: string): string
    decreases |s|
  {
    if s == [] then [] else (if s[0] == '-' then [] else [s[0]]) + NonDash(s[1..])
  }

  lemma {:induction false} NonDashSkip(s: string, k: nat)
    requires k <= |s| && forall i :: 0 <= i < k ==> s[i] == '-'
    ensures NonDash(s[k..]) == NonDash(s)
    decreases k
  {
    if k > 0 {
      assert s[1..][k - 1..] == s[k..];
      NonDashSkip(s[1..], k - 1);
    }
  }

  /** app.js:118, `replace(/---+/g, "")`: every maximal run of three or more
      dashes disappears, shorter runs stay, so no three dashes are left in a row;
      only dashes are removed, so every other character stays, in order. */
  function StripRules(s: string): (r: string)
    ensures DashRun(r) == if DashRun(s) >= 3 then 0 else DashRun(s)
    ensures NoTripleDash(r)
    ensures NonDash(r) == NonDash(s)
    decreases |s|
  {
    if s == [] then []
    else if DashRun(s) >= 3 then
      NonDashSkip(s, DashRun(s));
      StripRules(s[DashRun(s)..])
    else
      var r' := StripRules(s[1..]);
      assert s[0] == '-' ==> DashRun(s[1..]) == DashRun(s) - 1;
      assert ([s[0]] + r')[1..] == r';
      NoTripleDashCons(s[0], r');
      [s[0]] + r'
  }

  lemma NoTripleDashCons(c: char, r: string)
    requires NoTripleDash(r) && DashRun([c] + r) < 3
    ensures NoTripleDash([c] + r)
  {
    var t := [c] + r;
    forall i | 0 <= i < |t| - 2 ensures !(t[i] == '-' && t[i + 1] == '-' && t[i + 2] == '-') {
      if i > 0 {
        assert t[i] == r[i - 1] && t[i + 1] == r[i] && t[i + 2] == r[i + 1];
      }
    }
  }

  /** Removing dashes brings in no noise; text without three dashes in a row is
      left as it is. */
  lemma {:induction false} StripRulesClean(s: string)
    ensures NoNoise(s) ==> NoNoise(StripRules(s))
    ensures NoTripleDash(s) ==> StripRules(s) == s
    decreases |s|
  {
    if s != [] {
      if DashRun(s) >= 3 {
        NoNoiseSplit(s, DashRun(s));
        StripRulesClean(s[DashRun(s)..]);
        assert s[0] == '-' && s[1] == '-' && s[2] == '-';
      } else {
        StripRulesClean(s[1..]);
        NoNoiseSplit(s, 1);
        assert s[..1] == [s[0]];
        NoNoiseAppend([s[0]], StripRules(s[1..]));
        assert NoTripleDash(s) ==> NoTripleDash(s[1..]) by {
          if NoTripleDash(s) {
            forall i | 0 <= i < |s[1..]| - 2
              ensures !(s[1..][i] == '-' && s[1..][i + 1] == '-' && s[1..][i + 2] == '-')
            {
              assert s[1..][i] == s[i + 1] && s[1..][i + 1] == s[i + 2] && s[1..][i + 2] == s[i + 3];
            }
          }
        }
        assert s == [s[0]] + s[1..];
      }
    }
  }

  /** The newlines that app.js:124 and 126 put in place of a whitespace run of
      length `k` before a marker: one for the non-empty match, one for the empty
      match that follows it at the marker. */
  function Breaks(k: nat): string {
    if k > 0 then "\n\n" else "\n"
  }

  /** app.js:124: the whitespace before each idea heading becomes a newline.
      The lookahead makes the match end where the heading begins, so right after
      a non-empty match a second, empty, match at the heading adds one more newline;
      an empty match copies the next character and moves on by one. */
  function BreakBeforeHeads(s: string): string
    decreases |s|
  {
    if s == [] then []
    else
      var k := WsRun(s);
      if k < |s| && HeadLen(s[k..]) > 0 then Breaks(k) + [s[k]] + BreakBeforeHeads(s[k + 1..])
      else [s[0]] + BreakBeforeHeads(s[1..])
  }

  /** app.js:125: every idea heading is surrounded by newlines (`"\n$1\n"`). */
  function IsolateHeads(s: string): string
    decreases |s|
  {
    if s == [] then []
    else
      var n := HeadLen(s);
      if n > 0 then "\n" + s[..n] + "\n" + IsolateHeads(s[n..])
      else [s[0]] + IsolateHeads(s[1..])
  }

  /** app.js:126: the whitespace before each `Name:` marker that stands at a word
      boundary becomes a newline. `prevWord` tells whether the character before
      `s` is a word character, which decides `\b` at the start of `s`. */
  function BreakBeforeNames(s: string, prevWord: bool): string
    decreases |s|
  {
    if s == [] then []
    else
      var k := WsRun(s);
      if k < |s| && MarkerLen(s[k..]) > 0 && (k > 0 || !prevWord) then
        Breaks(k) + [s[k]] + BreakBeforeNames(s[k + 1..], IsWordChar(s[k]))
      else [s[0]] + BreakBeforeNames(s[1..], IsWordChar(s[0]))
  }

  /** The replacement text of app.js:127. */
  const MarkerLine: string := "\nName:\n"

  /** app.js:127: every `Name:` marker at a word boundary, whatever its case and
      its spacing before the colon, is replaced by a line of its own, `Name:`. */
  function IsolateNames(s: string, prevWord: bool): string
    decreases |s|
  {
    if s == [] then []
    else
      var n := MarkerLen(s);
      if n > 0 && !prevWord then MarkerLine + IsolateNames(s[n..], false)
      else [s[0]] + IsolateNames(s[1..], IsWordChar(s[0]))
  }

  /** The whole normalisation of app.js:111-127, on the reply as it stands after
      the code fences and HTML tags are stripped (app.js:112-113). */
  function Normalize(raw: string): string {
    var cleaned := Trim(StripRules(Denoise(raw)));
    IsolateNames(BreakBeforeNames(IsolateHeads(BreakBeforeHeads(cleaned)), false), false)
  }

  /** The lines that app.js:134 derives from the normalised text. */
  function NormalizedLines(raw: string): seq<string> {
    Lines(Normalize(raw))
  }

  // ---------- `Project Idea 1:` is split ----------

  /** Where the leading whitespace is followed by neither `p` nor `i`, no
      heading can begin there, and app.js:124 copies the first character. */
  lemma BreakPlainStep(s: string)
    requires s != []
    requires WsRun(s) == |s| || (Lower(s[WsRun(s)]) != 'p' && Lower(s[WsRun(s)]) != 'i')
    ensures BreakBeforeHeads(s) == [s[0]] + BreakBeforeHeads(s[1..])
  {
  }

  /** Where no heading begins after the leading whitespace, app.js:124 copies
      the first character. */
  lemma BreakOtherStep(s: string)
    requires s != [] && !(WsRun(s) < |s| && HeadLen(s[WsRun(s)..]) > 0)
    ensures BreakBeforeHeads(s) == [s[0]] + BreakBeforeHeads(s[1..])
  {
  }

  /** Where a heading begins after the leading whitespace, app.js:124 puts line
      breaks in place of that whitespace. */
  lemma BreakHeadStep(s: string, k: nat)
    requires k == WsRun(s) && k < |s| && HeadLen(s[k..]) > 0
    ensures BreakBeforeHeads(s) == Breaks(k) + [s[k]] + BreakBeforeHeads(s[k + 1..])
  {
  }

  /** At a heading that begins the text, app.js:124 puts one line break. */
  lemma BreakHeadFirst(t: string)
    requires t != [] && !IsSpace(t[0]) && HeadLen(t) > 0
    ensures BreakBeforeHeads(t) == "\n" + [t[0]] + BreakBeforeHeads(t[1..])
  {
    assert t[0..] == t;
  }

  /** At a heading after whitespace, app.js:124 puts two line breaks in place of
      the whitespace. */
  lemma BreakHeadSpaced(u: string, k: nat)
    requires k == WsRun(u) && 0 < k < |u| && HeadLen(u[k..]) > 0
    ensures BreakBeforeHeads(u) == "\n\n" + [u[k]] + BreakBeforeHeads(u[k + 1..])
  {
    BreakHeadStep(u, k);
  }

  /** Two line breaks before a character are one line break before the other. */
  lemma TwoBreaks(c: char, y: string)
    ensures "\n\n" + [c] + y == "\n" + ("\n" + [c] + y)
  {
  }

  /** A character that neither is whitespace nor can begin an idea heading. */
  predicate Inert(c: char) {
    !IsSpace(c) && Lower(c) != 'p' && Lower(c) != 'i'
  }

  /** app.js:124 copies a prefix of inert characters as it stands. */
  lemma {:induction false} BreakInert(a: string, b: string)
    requires forall i :: 0 <= i < |a| ==> Inert(a[i])
    ensures BreakBeforeHeads(a + b) == a + BreakBeforeHeads(b)
  {
    if a != [] {
      AppendTail(a, b);
      BreakPlainStep(a + b);
      BreakInert(a[1..], b);
      ConsBack(a, BreakBeforeHeads(b));
    } else {
      assert a + b == b;
    }
  }

  /** The first seven characters of a `Project` are inert. */
  lemma ProjectInert(s: string)
    requires StartsCI(s, "project")
    ensures var a := s[1..7]; forall i :: 0 <= i < |a| ==> Inert(a[i])
  {
    var a := s[1..7];
    forall i | 0 <= i < |a| ensures Inert(a[i]) {
      assert a[i] == s[i + 1];
      assert Lower(s[i + 1]) == Lower("project"[i + 1]);
    }
  }

  /** app.js:124 before an `Idea` heading that follows whitespace: the first
      of the two line breaks is the one the heading would get on its own. */
  lemma SpacedIdea(u: string)
    requires 0 < WsRun(u) < |u| && HeadLen(u[WsRun(u)..]) > 0 && Lower(u[WsRun(u)]) == 'i'
    ensures BreakBeforeHeads(u) == "\n" + BreakBeforeHeads(u[WsRun(u)..])
  {
    var k := WsRun(u);
    var t := u[k..];
    var y := BreakBeforeHeads(u[k + 1..]);
    BreakHeadFirst(t);
    DropDrop(u, k, 1);
    assert BreakBeforeHeads(t) == "\n" + [u[k]] + y;
    BreakHeadSpaced(u, k);
    TwoBreaks(u[k], y);
  }

  /** The empty string is a left unit of concatenation. */
  lemma EmptyPrefix(y: string)
    ensures "" + y == y
  {
  }

  /** A `Project` begins with a `p` in either case, which is no whitespace. */
  lemma ProjectStart(s: string)
    requires StartsCI(s, "project")
    ensures s != [] && !IsSpace(s[0]) && Lower(s[0]) == 'p'
  {
    assert Lower(s[0]) == Lower("project"[0]);
  }

  /** Regrouping the pieces of a `Project Idea` heading after its line break. */
  lemma Regroup(c: char, p: string, x: string, y: string, q: string)
    requires q == [c] + p
    ensures "\n" + [c] + (p + (x + y)) == "\n" + q + x + y
  {
  }

  /** app.js:124 at a `Project Idea n` heading: a line break before the heading,
      and another before its `Idea`, whatever whitespace stands between the two
      words (none included). So `Project` is left on a line of its own. */
  lemma ProjectIdeaSplit(s: string)
    requires HeadLen(s) > 0 && StartsCI(s, "project")
    ensures var j := IdeaStart(s);
      7 <= j < |s| && BreakBeforeHeads(s)
        == "\n" + s[..7] + (if j > 7 then "\n" else "") + BreakBeforeHeads(s[j..])
    ensures var j := IdeaStart(s);
      j < |s| && BreakBeforeHeads(s[j..]) != [] && BreakBeforeHeads(s[j..])[0] == '\n'
  {
    var j := IdeaStart(s);
    InnerHead(s);
    var t := s[j..];
    var x: string := if j > 7 then "\n" else "";
    BreakHeadFirst(t);
    ProjectRest(s, j);
    ProjectWordKept(s);
    TakeCons(s, 7);
    Regroup(s[0], s[1..7], x, BreakBeforeHeads(t), s[..7]);
  }

  /** app.js:124 after the `Project` of a heading: one line break more where
      whitespace stands before its `Idea`. */
  lemma ProjectRest(s: string, j: nat)
    requires StartsCI(s, "project") && j == IdeaStart(s) && j < |s| && HeadLen(s[j..]) > 0
    requires Lower(s[j]) == 'i'
    ensures BreakBeforeHeads(s[7..]) == (if j > 7 then "\n" else "") + BreakBeforeHeads(s[j..])
  {
    if j > 7 {
      var u := s[7..];
      WsEndRun(s, 7);
      DropDrop(s, 7, j - 7);
      assert u[j - 7] == s[j];
      SpacedIdea(u);
    } else {
      EmptyPrefix(BreakBeforeHeads(s[j..]));
    }
  }

  /** app.js:124 at a `Project Idea` heading: a line break, then `Project` as it
      was written. */
  lemma ProjectWordKept(s: string)
    requires StartsCI(s, "project") && HeadLen(s) > 0
    ensures BreakBeforeHeads(s) == "\n" + [s[0]] + (s[1..7] + BreakBeforeHeads(s[7..]))
  {
    ProjectStart(s);
    BreakHeadFirst(s);
    ProjectInert(s);
    BreakInert(s[1..7], s[7..]);
    DropSplit(s, 1, 7);
  }

  // ---------- No noise comes back ----------

  /** What app.js:124 and 126 put in place of the whitespace before a heading,
      the heading's first character and a clean rest are clean. */
  lemma BreakClean(s: string, k: nat, r: string)
    requires k < |s| && NoNoise(s) && NoNoise(r)
    ensures NoNoise(Breaks(k) + [s[k]] + r)
  {
    NoNoiseSplit(s, k);
    NoNoiseSplit(s[k..], 1);
    assert s[k..][..1] == [s[k]];
    NoNoiseAppend(Breaks(k), [s[k]]);
    NoNoiseAppend(Breaks(k) + [s[k]], r);
  }

  /** The first character of a clean string before a clean rest is clean. */
  lemma FirstClean(s: string, r: string)
    requires s != [] && NoNoise(s) && NoNoise(r)
    ensures NoNoise([s[0]] + r)
  {
    NoNoiseSplit(s, 1);
    assert s[..1] == [s[0]];
    NoNoiseAppend([s[0]], r);
  }

  /** The line breaks of app.js:124 bring in no noise. */
  lemma {:induction false} BreakBeforeHeadsClean(s: string)
    requires NoNoise(s)
    ensures NoNoise(BreakBeforeHeads(s))
    decreases |s|
  {
    if s != [] {
      var k := WsRun(s);
      if k < |s| && HeadLen(s[k..]) > 0 {
        BreakHeadStep(s, k);
        NoNoiseSplit(s, k + 1);
        BreakBeforeHeadsClean(s[k + 1..]);
        BreakClean(s, k, BreakBeforeHeads(s[k + 1..]));
      } else {
        BreakOtherStep(s);
        NoNoiseSplit(s, 1);
        BreakBeforeHeadsClean(s[1..]);
        FirstClean(s, BreakBeforeHeads(s[1..]));
      }
    }
  }

  lemma SurroundClean(p: string, q: string)
    requires NoNoise(p) && NoNoise(q)
    ensures NoNoise("\n" + p + "\n" + q)
  {
    NoNoiseAppend("\n", p);
    NoNoiseAppend("\n" + p, "\n");
    NoNoiseAppend("\n" + p + "\n", q);
  }

  /** app.js:125 at a heading that begins `s`. */
  lemma IsolateHeadStep(s: string, n: nat)
    requires n == HeadLen(s) && n > 0
    ensures IsolateHeads(s) == "\n" + s[..n] + "\n" + IsolateHeads(s[n..])
  {
  }

  /** app.js:125 where no heading begins `s`. */
  lemma IsolateOtherStep(s: string)
    requires s != [] && HeadLen(s) == 0
    ensures IsolateHeads(s) == [s[0]] + IsolateHeads(s[1..])
  {
  }

  /** The newlines of app.js:125 bring in no noise. */
  lemma {:induction false} IsolateHeadsClean(s: string)
    requires NoNoise(s)
    ensures NoNoise(IsolateHeads(s))
    decreases |s|
  {
    if s != [] {
      var n := HeadLen(s);
      if n > 0 {
        IsolateHeadStep(s, n);
        NoNoiseSplit(s, n);
        IsolateHeadsClean(s[n..]);
        SurroundClean(s[..n], IsolateHeads(s[n..]));
      } else {
        IsolateOtherStep(s);
        NoNoiseSplit(s, 1);
        IsolateHeadsClean(s[1..]);
        FirstClean(s, IsolateHeads(s[1..]));
      }
    }
  }

  /** app.js:126 at the start of `s` when a marker follows the leading whitespace. */
  lemma BreakNameStep(s: string, prevWord: bool, k: nat)
    requires k == WsRun(s) && k < |s| && MarkerLen(s[k..]) > 0 && (k > 0 || !prevWord)
    ensures BreakBeforeNames(s, prevWord) == Breaks(k) + [s[k]] + BreakBeforeNames(s[k + 1..], IsWordChar(s[k]))
  {
  }

  /** app.js:126 at the start of `s` when no marker is found there. */
  lemma BreakNameOther(s: string, prevWord: bool, k: nat)
    requires s != [] && k == WsRun(s) && !(k < |s| && MarkerLen(s[k..]) > 0 && (k > 0 || !prevWord))
    ensures BreakBeforeNames(s, prevWord) == [s[0]] + BreakBeforeNames(s[1..], IsWordChar(s[0]))
  {
  }

  /** The line breaks of app.js:126 bring in no noise. */
  lemma {:induction false} BreakBeforeNamesClean(s: string, prevWord: bool)
    requires NoNoise(s)
    ensures NoNoise(BreakBeforeNames(s, prevWord))
    decreases |s|
  {
    if s != [] {
      var k := WsRun(s);
      if k < |s| && MarkerLen(s[k..]) > 0 && (k > 0 || !prevWord) {
        BreakNameStep(s, prevWord, k);
        NoNoiseSplit(s, k + 1);
        BreakBeforeNamesClean(s[k + 1..], IsWordChar(s[k]));
        BreakClean(s, k, BreakBeforeNames(s[k + 1..], IsWordChar(s[k])));
      } else {
        BreakNameOther(s, prevWord, k);
        NoNoiseSplit(s, 1);
        BreakBeforeNamesClean(s[1..], IsWordChar(s[0]));
        FirstClean(s, BreakBeforeNames(s[1..], IsWordChar(s[0])));
      }
    }
  }

  lemma {:induction false} NoNoiseOfChars(s: string)
    requires forall i :: 0 <= i < |s| ==> !IsNoise(s[i])
    ensures NoNoise(s)
    decreases |s|
  {
    if s != [] {
      NoNoiseOfChars(s[1..]);
    }
  }

  lemma MarkerLineClean(q: string)
    requires NoNoise(q)
    ensures NoNoise(MarkerLine + q)
  {
    MarkerLineNoNoise();
    NoNoiseAppend(MarkerLine, q);
  }

  lemma MarkerLineNoNoise()
    ensures NoNoise(MarkerLine)
  {
    assert forall i :: 0 <= i < |MarkerLine| ==> !IsNoise(MarkerLine[i]);
    NoNoiseOfChars(MarkerLine);
  }

  /** The bare `Name:` lines of app.js:127 bring in no noise. */
  lemma {:induction false} IsolateNamesClean(s: string, prevWord: bool)
    requires NoNoise(s)
    ensures NoNoise(IsolateNames(s, prevWord))
    decreases |s|
  {
    if s != [] {
      var n := MarkerLen(s);
      if n > 0 && !prevWord {
        NoNoiseSplit(s, n);
        IsolateNamesClean(s[n..], false);
        MarkerLineClean(IsolateNames(s[n..], false));
      } else {
        NoNoiseSplit(s, 1);
        IsolateNamesClean(s[1..], IsWordChar(s[0]));
        FirstClean(s, IsolateNames(s[1..], IsWordChar(s[0])));
      }
    }
  }

  lemma TrimClean(s: string)
    requires NoNoise(s)
    ensures NoNoise(Trim(s))
  {
    var w := WsRun(s);
    NoNoiseSplit(s, w);
    NoNoiseSplit(s[w..], |Trim(s)|);
    assert s[w..][..|Trim(s)|] == Trim(s);
  }

  lemma {:induction false} SplitClean(cur: string, s: string)
    requires NoNoise(cur) && NoNoise(s)
    ensures forall i :: 0 <= i < |SplitFrom(cur, s)| ==> NoNoise(SplitFrom(cur, s)[i])
    decreases |s|
  {
    if s != [] {
      NoNoiseSplit(s, 1);
      if s[0] == '\n' {
        SplitClean([], s[1..]);
        assert SplitFrom(cur, s) == [cur] + SplitFrom([], s[1..]);
      } else {
        assert s[..1] == [s[0]];
        NoNoiseAppend(cur, [s[0]]);
        SplitClean(cur + [s[0]], s[1..]);
      }
    }
  }

  lemma {:induction false} NonBlankClean(xs: seq<string>)
    requires forall i :: 0 <= i < |xs| ==> NoNoise(xs[i])
    ensures forall i :: 0 <= i < |NonBlank(xs)| ==> NoNoise(NonBlank(xs)[i])
  {
    if xs != [] {
      NonBlankClean(xs[1..]);
      TrimClean(xs[0]);
      var l := Trim(xs[0]);
      var r := NonBlank(xs);
      assert r == (if l == [] then [] else [l]) + NonBlank(xs[1..]);
      forall i | 0 <= i < |r| ensures NoNoise(r[i]) {
        if l == [] {
          assert r[i] == NonBlank(xs[1..])[i];
        } else if i > 0 {
          assert r[i] == NonBlank(xs[1..])[i - 1];
        }
      }
    }
  }

  /** The normalised text, and so every line passed on, holds no carriage return,
      no asterisk and no pipe; every line is trimmed and non-empty. */
  lemma NormalizedClean(raw: string)
    ensures NoNoise(Normalize(raw))
    ensures forall i :: 0 <= i < |NormalizedLines(raw)| ==>
      NoNoise(NormalizedLines(raw)[i]) && NormalizedLines(raw)[i] != [] && IsTrimmed(NormalizedLines(raw)[i])
  {
    var d := Denoise(raw);
    DenoiseClean(raw);
    StripRulesClean(d);
    var c := Trim(StripRules(d));
    TrimClean(StripRules(d));
    BreakBeforeHeadsClean(c);
    IsolateHeadsClean(BreakBeforeHeads(c));
    var h := IsolateHeads(BreakBeforeHeads(c));
    BreakBeforeNamesClean(h, false);
    IsolateNamesClean(BreakBeforeNames(h, false), false);
    var t := Normalize(raw);
    SplitClean([], t);
    NonBlankClean(SplitLines(t));
  }

  // ---------- Line breaks only: the visible text is kept ----------

  /** Removing every whitespace character. */
  function NonSpace(s: string): string
  {
    if s == [] then [] else (if IsSpace(s[0]) then [] else [s[0]]) + NonSpace(s[1..])
  }

  lemma {:induction false} NonSpaceAppend(a: string, b: string)
    ensures NonSpace(a + b) == NonSpace(a) + NonSpace(b)
    decreases |a|
  {
    if a == [] {
      assert a + b == b;
    } else {
      assert (a + b)[0] == a[0];
      assert (a + b)[1..] == a[1..] + b;
      NonSpaceAppend(a[1..], b);
    }
  }

  lemma {:induction false} NonSpaceBlank(s: string)
    requires IsBlank(s)
    ensures NonSpace(s) == []
    decreases |s|
  {
    if s != [] {
      NonSpaceBlank(s[1..]);
    }
  }

  lemma BreaksText(k: nat, c: char)
    requires !IsSpace(c)
    ensures NonSpace(Breaks(k) + [c]) == [c]
  {
    assert IsBlank(Breaks(k));
    NonSpaceBlank(Breaks(k));
    NonSpaceAppend(Breaks(k), [c]);
    assert NonSpace([c]) == [c] + NonSpace([]);
  }

  /** Skipping the whitespace run before position `k` and keeping what follows. */
  lemma BreakText(s: string, k: nat)
    requires k == WsRun(s) && k < |s|
    ensures NonSpace(Breaks(k) + [s[k]]) == [s[k]]
    ensures NonSpace(s) == [s[k]] + NonSpace(s[k + 1..])
  {
    var c := s[k];
    BreaksText(k, c);
    NonSpaceSkip(s, k);
    var t := s[k..];
    assert t[0] == c && !IsSpace(c);
    DropDrop(s, k, 1);
  }

  /** Leading whitespace leaves no text behind. */
  lemma {:induction false} NonSpaceSkip(s: string, k: nat)
    requires k <= |s| && BlankIn(s, 0, k)
    ensures NonSpace(s) == NonSpace(s[k..])
    decreases k
  {
    if k > 0 {
      assert IsSpace(s[0]);
      assert BlankIn(s[1..], 0, k - 1) by {
        forall x | 0 <= x < k - 1 ensures IsSpace(s[1..][x]) {
          assert s[1..][x] == s[x + 1];
        }
      }
      NonSpaceSkip(s[1..], k - 1);
      DropDrop(s, 1, k - 1);
    } else {
      assert s[0..] == s;
    }
  }

  lemma NonSpaceCons(s: string)
    requires s != []
    ensures NonSpace(s) == NonSpace([s[0]]) + NonSpace(s[1..])
  {
    assert s == [s[0]] + s[1..];
    NonSpaceAppend([s[0]], s[1..]);
  }

  lemma KeepsTextAtHead(s: string, k: nat)
    requires k == WsRun(s) && k < |s| && HeadLen(s[k..]) > 0
    requires NonSpace(BreakBeforeHeads(s[k + 1..])) == NonSpace(s[k + 1..])
    ensures NonSpace(BreakBeforeHeads(s)) == NonSpace(s)
  {
    BreakHeadStep(s, k);
    BreakText(s, k);
    NonSpaceAppend(Breaks(k) + [s[k]], BreakBeforeHeads(s[k + 1..]));
  }

  lemma KeepsTextElsewhere(s: string)
    requires s != [] && !(WsRun(s) < |s| && HeadLen(s[WsRun(s)..]) > 0)
    requires NonSpace(BreakBeforeHeads(s[1..])) == NonSpace(s[1..])
    ensures NonSpace(BreakBeforeHeads(s)) == NonSpace(s)
  {
    BreakOtherStep(s);
    NonSpaceAppend([s[0]], BreakBeforeHeads(s[1..]));
    NonSpaceCons(s);
  }

  /** app.js:124 only trades whitespace for newlines: the visible text is unchanged. */
  lemma {:induction false} BreakBeforeHeadsKeepsText(s: string)
    ensures NonSpace(BreakBeforeHeads(s)) == NonSpace(s)
    decreases |s|
  {
    if s != [] {
      var k := WsRun(s);
      if k < |s| && HeadLen(s[k..]) > 0 {
        BreakBeforeHeadsKeepsText(s[k + 1..]);
        KeepsTextAtHead(s, k);
      } else {
        BreakBeforeHeadsKeepsText(s[1..]);
        KeepsTextElsewhere(s);
      }
    }
  }

  lemma SurroundText(p: string, q: string)
    ensures NonSpace("\n" + p + "\n" + q) == NonSpace(p) + NonSpace(q)
  {
    var nl: string := "\n";
    assert IsBlank(nl);
    NonSpaceBlank(nl);
    NonSpaceAppend(nl, p);
    assert NonSpace(nl + p) == NonSpace(p);
    NonSpaceAppend(nl + p, nl);
    assert NonSpace(nl + p + nl) == NonSpace(p);
    NonSpaceAppend(nl + p + nl, q);
  }

  /** app.js:125 only adds newlines: the visible text is unchanged. */
  lemma {:induction false} IsolateHeadsKeepsText(s: string)
    ensures NonSpace(IsolateHeads(s)) == NonSpace(s)
    decreases |s|
  {
    if s != [] {
      var n := HeadLen(s);
      if n > 0 {
        IsolateHeadStep(s, n);
        IsolateHeadsKeepsText(s[n..]);
        SurroundText(s[..n], IsolateHeads(s[n..]));
        DropSplit(s, 0, n);
        assert s[0..] == s && s[0..n] == s[..n];
        NonSpaceAppend(s[..n], s[n..]);
      } else {
        IsolateOtherStep(s);
        IsolateHeadsKeepsText(s[1..]);
        NonSpaceAppend([s[0]], IsolateHeads(s[1..]));
        NonSpaceCons(s);
      }
    }
  }

  /** app.js:126 only trades whitespace for newlines: the visible text is unchanged. */
  lemma {:induction false} BreakBeforeNamesKeepsText(s: string, prevWord: bool)
    ensures NonSpace(BreakBeforeNames(s, prevWord)) == NonSpace(s)
    decreases |s|
  {
    if s != [] {
      var k := WsRun(s);
      if k < |s| && MarkerLen(s[k..]) > 0 && (k > 0 || !prevWord) {
        BreakNameStep(s, prevWord, k);
        BreakBeforeNamesKeepsText(s[k + 1..], IsWordChar(s[k]));
        BreakText(s, k);
        NonSpaceAppend(Breaks(k) + [s[k]], BreakBeforeNames(s[k + 1..], IsWordChar(s[k])));
      } else {
        BreakNameOther(s, prevWord, k);
        BreakBeforeNamesKeepsText(s[1..], IsWordChar(s[0]));
        NonSpaceAppend([s[0]], BreakBeforeNames(s[1..], IsWordChar(s[0])));
        NonSpaceCons(s);
      }
    }
  }

  // ---------- Line 127 leaves every name marker alone on its line ----------

  /** What must hold of the line read so far (`cur`) and the rest of the input
      `s` for no later line to start with a stray marker: a blank line so far means
      the next character stands at a word boundary; otherwise the marker test at
      the first visible character of the line already failed. */
  ghost predicate LineInv(cur: string, s: string, prevWord: bool) {
    && (IsBlank(cur) ==> !prevWord)
    && (!IsBlank(cur) ==> MarkerLen(TrimLeft(cur) + s) == 0)
  }

  /** Every piece whose trimmed text is a name head is exactly `Name:`. */
  ghost predicate NamesAlone(pieces: seq<string>) {
    pieces == [] || (Alone(pieces[0]) && NamesAlone(pieces[1..]))
  }

  /** A piece that, once trimmed, is either no name head or exactly `Name:`. */
  ghost predicate Alone(piece: string) {
    IsNameHead(Trim(piece)) ==> Trim(piece) == "Name:"
  }

  /** A trimmed line that is a name head shows its marker at the first visible
      character of the untrimmed line. */
  lemma NameHeadOfTrim(x: string)
    requires IsNameHead(Trim(x))
    ensures MarkerLen(TrimLeft(x)) > 0
  {
    var t := Trim(x);
    assert t != [] && !IsSpace(t[0]);
    assert WsRun(t) == 0;
    assert TrimLeft(t) == t;
    MarkerPrefix(t, TrimLeft(x));
  }

  /** The line read so far can never be a stray name head, given the invariant. */
  lemma CurrentLineClear(cur: string, s: string, prevWord: bool)
    requires LineInv(cur, s, prevWord)
    ensures !IsNameHead(Trim(cur))
  {
    if IsBlank(cur) {
      assert Trim(cur) == [];
      assert TrimLeft(Trim(cur)) == [];
    } else if IsNameHead(Trim(cur)) {
      NameHeadOfTrim(cur);
      MarkerPrefix(TrimLeft(cur), TrimLeft(cur) + s);
    }
  }

  /** Extending a non-blank line keeps its left-trimmed form a prefix. */
  lemma TrimLeftSnoc(cur: string, c: char)
    ensures !IsBlank(cur) ==> TrimLeft(cur + [c]) == TrimLeft(cur) + [c]
    ensures IsBlank(cur) && !IsSpace(c) ==> TrimLeft(cur + [c]) == [c]
  {
    var k := WsRun(cur);
    if !IsBlank(cur) {
      assert k < |cur|;
      WsRunPrefix(cur, cur + [c]);
    } else {
      assert k == |cur|;
      assert forall i :: 0 <= i < |cur| ==> (cur + [c])[i] == cur[i];
      if !IsSpace(c) {
        assert (cur + [c])[|cur|] == c;
        assert WsRun(cur + [c]) == |cur|;
      }
    }
  }

  /** One character that is neither a newline nor the start of a replaced
      marker moves from the input to the current line and keeps the invariant. */
  lemma LineInvStep(cur: string, s: string, prevWord: bool)
    requires LineInv(cur, s, prevWord)
    requires s != [] && s[0] != '\n' && !(MarkerLen(s) > 0 && !prevWord)
    ensures LineInv(cur + [s[0]], s[1..], IsWordChar(s[0]))
  {
    var c := s[0];
    TrimLeftSnoc(cur, c);
    assert s == [c] + s[1..];
    if !IsBlank(cur) {
      assert !IsBlank(cur + [c]) by {
        var i :| 0 <= i < |cur| && !IsSpace(cur[i]);
        assert (cur + [c])[i] == cur[i];
      }
      assert TrimLeft(cur + [c]) + s[1..] == TrimLeft(cur) + s;
    } else if !IsSpace(c) {
      assert !IsBlank(cur + [c]) by {
        assert (cur + [c])[|cur|] == c;
      }
      assert TrimLeft(cur + [c]) + s[1..] == s;
    } else {
      assert IsBlank(cur + [c]) by {
        forall i | 0 <= i < |cur + [c]| ensures IsSpace((cur + [c])[i]) {
          if i < |cur| { assert (cur + [c])[i] == cur[i]; }
        }
      }
    }
  }

  /** Line 127's replacement ends the current line and adds the line `Name:`. */
  lemma SplitMarkerLine(cur: string, rest: string)
    ensures SplitFrom(cur, MarkerLine + rest) == [cur] + (["Name:"] + SplitFrom([], rest))
  {
    var t := MarkerLine + rest;
    assert t[0] == '\n' && t[1..] == "Name:" + ("\n" + rest);
    SplitFromNoNewline([], "Name:", "\n" + rest);
    assert [] + "Name:" == "Name:";
    assert ("\n" + rest)[0] == '\n' && ("\n" + rest)[1..] == rest;
  }

  lemma MarkerAlone()
    ensures Alone("Name:")
  {
    TrimOfTrimmed("Name:");
  }

  lemma NamesAloneCons(x: string, tail: seq<string>)
    requires Alone(x) && NamesAlone(tail)
    ensures NamesAlone([x] + tail)
  {
    assert ([x] + tail)[1..] == tail;
  }

  lemma MarkerCase(cur: string, rest: string)
    requires Alone(cur) && NamesAlone(SplitFrom([], rest))
    ensures NamesAlone(SplitFrom(cur, MarkerLine + rest))
  {
    SplitMarkerLine(cur, rest);
    MarkerAlone();
    NamesAloneCons("Name:", SplitFrom([], rest));
    NamesAloneCons(cur, ["Name:"] + SplitFrom([], rest));
  }

  lemma NewlineCase(cur: string, rest: string)
    requires Alone(cur) && NamesAlone(SplitFrom([], rest))
    ensures NamesAlone(SplitFrom(cur, "\n" + rest))
  {
    var t := "\n" + rest;
    assert t[0] == '\n' && t[1..] == rest;
    assert SplitFrom(cur, t) == [cur] + SplitFrom([], rest);
    NamesAloneCons(cur, SplitFrom([], rest));
  }

  lemma CharCase(cur: string, c: char, rest: string)
    requires c != '\n' && NamesAlone(SplitFrom(cur + [c], rest))
    ensures NamesAlone(SplitFrom(cur, [c] + rest))
  {
    var t := [c] + rest;
    assert t[0] == c && t[1..] == rest;
  }

  lemma IsolateNamesStep(s: string, prevWord: bool)
    requires s != []
    ensures MarkerLen(s) > 0 && !prevWord ==>
      IsolateNames(s, prevWord) == MarkerLine + IsolateNames(s[MarkerLen(s)..], false)
    ensures !(MarkerLen(s) > 0 && !prevWord) ==>
      IsolateNames(s, prevWord) == [s[0]] + IsolateNames(s[1..], IsWordChar(s[0]))
  {
  }

  /** Splitting the output of app.js:127 into lines, starting from a line that
      keeps the invariant, leaves every `Name:` marker alone on its line. */
  lemma {:induction false} IsolateNamesAlone(cur: string, s: string, prevWord: bool)
    requires LineInv(cur, s, prevWord)
    ensures NamesAlone(SplitFrom(cur, IsolateNames(s, prevWord)))
    decreases |s|
  {
    CurrentLineClear(cur, s, prevWord);
    if s == [] {
      NamesAloneCons(cur, []);
    } else {
      IsolateNamesStep(s, prevWord);
      if MarkerLen(s) > 0 && !prevWord {
        IsolateNamesAlone([], s[MarkerLen(s)..], false);
        MarkerCase(cur, IsolateNames(s[MarkerLen(s)..], false));
      } else if s[0] == '\n' {
        IsolateNamesAlone([], s[1..], false);
        NewlineCase(cur, IsolateNames(s[1..], false));
      } else {
        LineInvStep(cur, s, prevWord);
        IsolateNamesAlone(cur + [s[0]], s[1..], IsWordChar(s[0]));
        CharCase(cur, s[0], IsolateNames(s[1..], IsWordChar(s[0])));
      }
    }
  }

  lemma {:induction false} NonBlankNamesAlone(xs: seq<string>)
    requires NamesAlone(xs)
    ensures forall i :: 0 <= i < |NonBlank(xs)| && IsNameHead(NonBlank(xs)[i]) ==> NonBlank(xs)[i] == "Name:"
  {
    if xs != [] {
      NonBlankNamesAlone(xs[1..]);
      var l := Trim(xs[0]);
      var r := NonBlank(xs);
      assert r == (if l == [] then [] else [l]) + NonBlank(xs[1..]);
      forall i | 0 <= i < |r| && IsNameHead(r[i]) ensures r[i] == "Name:" {
        if l == [] {
          assert r[i] == NonBlank(xs[1..])[i];
        } else if i > 0 {
          assert r[i] == NonBlank(xs[1..])[i - 1];
        }
      }
    }
  }

  /** app.js:127 puts every `Name:` marker on a line of its own: whatever the
      reply, each line passed on that `nameHeadRE` accepts is exactly `Name:`. */
  lemma NamesOnTheirOwnLine(raw: string)
    ensures forall i :: 0 <= i < |NormalizedLines(raw)| && IsNameHead(NormalizedLines(raw)[i]) ==>
      NormalizedLines(raw)[i] == "Name:"
  {
    var t := BreakBeforeNames(IsolateHeads(BreakBeforeHeads(Trim(StripRules(Denoise(raw))))), false);
    assert IsBlank([]);
    IsolateNamesAlone([], t, false);
    NonBlankNamesAlone(SplitLines(IsolateNames(t, false)));
  }
}
