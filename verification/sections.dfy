/** The six labelled sections of an idea card (app.js:188-201, 228-241): the
    pattern built from each label, what it captures from the idea text and how
    the capture is shown. */
module Sections {
  import opened Text
  import opened Markers

  /** The section labels, in the order every card shows them (app.js:188-195). */
  const Labels: seq<string> := [
    "General Description",
    "Required Technologies & Budget Breakdown",
    "Timeframe Breakdown",
    "Complexity & Skills Needed",
    "Similar Products",
    "Novel Elements"
  ]

  // ---------- esc (app.js:196) ----------

  /** The characters that `esc` puts a backslash before. */
  predicate IsRegexSpecial(c: char) {
    || c == '.' || c == '*' || c == '+' || c == '?' || c == '^' || c == '$' || c == '{'
    || c == '}' || c == '(' || c == ')' || c == '|' || c == '[' || c == ']' || c == '\\'
  }

  /** app.js:196: every special character preceded by a backslash. A single
      character becomes itself, with a backslash before it when it is special;
      with `EscapeAppend` this settles the result for every text. */
  function Escape(s: string): (r: string)
    ensures |r| >= |s|
    ensures |s| == 1 ==> r == if IsRegexSpecial(s[0]) then ['\\', s[0]] else [s[0]]
    decreases |s|
  {
    if s == [] then []
    else (if IsRegexSpecial(s[0]) then ['\\', s[0]] else [s[0]]) + Escape(s[1..])
  }

  /** The literal text that an escaped pattern stands for: a backslash stands for
      the character after it. */
  function Unescape(p: string): string
    decreases |p|
  {
    if p == [] then []
    else if p[0] == '\\' && |p| >= 2 then [p[1]] + Unescape(p[2..])
    else [p[0]] + Unescape(p[1..])
  }

  /** The escaped label stands for the label itself, so the pattern of app.js:230
      looks for the label as it is written. */
  lemma {:induction false} EscapeRoundTrip(s: string)
    ensures Unescape(Escape(s)) == s
    decreases |s|
  {
    if s != [] {
      EscapeRoundTrip(s[1..]);
      var head := if IsRegexSpecial(s[0]) then ['\\', s[0]] else [s[0]];
      var e := head + Escape(s[1..]);
      assert Escape(s) == e;
      if IsRegexSpecial(s[0]) {
        assert e[0] == '\\' && e[1] == s[0] && e[2..] == Escape(s[1..]);
      } else {
        assert e[0] == s[0] && e[1..] == Escape(s[1..]);
      }
    }
  }

  /** `esc` works character by character, so it distributes over concatenation. */
  lemma {:induction false} EscapeAppend(a: string, b: string)
    ensures Escape(a + b) == Escape(a) + Escape(b)
    decreases |a|
  {
    if a == [] {
      assert a + b == b;
    } else {
      assert (a + b)[0] == a[0];
      assert (a + b)[1..] == a[1..] + b;
      EscapeAppend(a[1..], b);
    }
  }

  /** A text without special characters is left as it is by `esc`. */
  lemma {:induction false} EscapePlain(s: string)
    requires forall i :: 0 <= i < |s| ==> !IsRegexSpecial(s[i])
    ensures Escape(s) == s
    decreases |s|
  {
    if s != [] {
      assert forall i :: 0 <= i < |s[1..]| ==> s[1..][i] == s[i + 1];
      EscapePlain(s[1..]);
    }
  }

  /** Letters, spaces and `&`: the characters the labels are made of. */
  predicate IsPlain(s: string) {
    forall i :: 0 <= i < |s| ==> 'A' <= s[i] <= 'Z' || 'a' <= s[i] <= 'z' || s[i] == ' ' || s[i] == '&'
  }

  lemma FirstLabelsPlain(k: nat)
    requires k < 3
    ensures IsPlain(Labels[k])
  {
  }

  lemma LastLabelsPlain(k: nat)
    requires 3 <= k < |Labels|
    ensures IsPlain(Labels[k])
  {
  }

  /** None of the six labels holds a special character: `esc` leaves each as it
      is. */
  lemma LabelsUnescaped(k: nat)
    requires k < |Labels|
    ensures Escape(Labels[k]) == Labels[k]
  {
    if k < 3 {
      FirstLabelsPlain(k);
    } else {
      LastLabelsPlain(k);
    }
    EscapePlain(Labels[k]);
  }

  // ---------- The section pattern (app.js:198-201, 229-232) ----------

  /** `^` under the `m` flag. */
  predicate LineStart(t: string, p: nat)
    requires p <= |t|
  {
    p == 0 || IsLineTerminator(t[p - 1])
  }

  /** `^\s*` followed by the label, ignoring ASCII case, matches at `p`. */
  predicate LabelAt(t: string, lbl: string, p: nat)
    requires p <= |t|
  {
    LineStart(t, p) && StartsCI(t[p + WsRun(t[p..])..], lbl)
  }

  /** The leftmost match of the section pattern from `p` on (`String.prototype.match`
      without the `g` flag). Every match of the label at a line start succeeds,
      since the lookahead always holds at the end of the text. */
  function FindLabel(t: string, lbl: string, p: nat): (r: Option<nat>)
    requires p <= |t|
    ensures r.Some? ==> p <= r.value <= |t| && LabelAt(t, lbl, r.value)
    ensures r.Some? ==> forall q :: p <= q < r.value ==> !LabelAt(t, lbl, q)
    ensures r.None? ==> forall q :: p <= q <= |t| ==> !LabelAt(t, lbl, q)
    decreases |t| - p
  {
    if LabelAt(t, lbl, p) then Some(p)
    else if p == |t| then None
    else FindLabel(t, lbl, p + 1)
  }

  /** `\s*:?\s*` after the label, each part as long as it can be: what is
      skipped is whitespace around at most one colon, it ends at the first
      visible character, and it leaves no colon that it could have taken. */
  function AfterLabel(t: string, a: nat): (c: nat)
    requires a <= |t|
    ensures a <= c <= |t|
    ensures c == |t| || !IsSpace(t[c])
    ensures BlankIn(t, a, c) || exists b: nat ::
      a <= b < c && BlankIn(t, a, b) && t[b] == ':' && BlankIn(t, b + 1, c)
    ensures BlankIn(t, a, c) ==> c == |t| || t[c] != ':'
  {
    var b := a + WsRun(t[a..]);
    WsRunAt(t, a);
    var b' := if b < |t| && t[b] == ':' then b + 1 else b;
    WsRunAt(t, b');
    var c := b' + WsRun(t[b'..]);
    assert b' == b + 1 ==> BlankIn(t, a, b) && t[b] == ':' && BlankIn(t, b + 1, c);
    assert b' == b ==> BlankIn(t, a, c);
    c
  }

  /** First alternative of the stop lookahead: a newline, whitespace and one of
      the labels. */
  predicate StopAtLabel(t: string, i: nat)
    requires i <= |t|
  {
    && i < |t| && t[i] == '\n'
    && exists k :: 0 <= k < |Labels| && StartsCI(t[i + 1 + WsRun(t[i + 1..])..], Labels[k])
  }

  /** Second alternative: a newline, whitespace and an idea heading, a numbered
      item or a `Name:` marker. */
  predicate StopAtHead(t: string, i: nat)
    requires i <= |t|
  {
    && i < |t| && t[i] == '\n'
    && var r := t[i + 1 + WsRun(t[i + 1..])..];
      HeadLen(r) > 0 || NumberedLen(r) > 0 || MarkerLen(r) > 0
  }

  /** Third alternative: `$` under the `m` flag. */
  predicate StopAtLineEnd(t: string, i: nat)
    requires i <= |t|
  {
    i == |t| || IsLineTerminator(t[i])
  }

  /** `sectionStopLA` (app.js:198-201) holds at `i`. */
  predicate Stop(t: string, i: nat)
    requires i <= |t|
  {
    StopAtLabel(t, i) || StopAtHead(t, i) || StopAtLineEnd(t, i)
  }

  /** The lazy capture `([\s\S]*?)` from `i`: it ends at the first position where
      the stop lookahead holds. */
  function CaptureEnd(t: string, i: nat): (e: nat)
    requires i <= |t|
    ensures i <= e <= |t|
    decreases |t| - i
  {
    if Stop(t, i) then i else CaptureEnd(t, i + 1)
  }

  /** The capture is lazy: it ends at the first position from `i` on where the
      lookahead holds. */
  lemma {:induction false} CaptureEndFirstStop(t: string, i: nat)
    requires i <= |t|
    ensures Stop(t, CaptureEnd(t, i))
    ensures forall j :: i <= j < CaptureEnd(t, i) ==> !Stop(t, j)
    decreases |t| - i
  {
    if !Stop(t, i) {
      CaptureEndFirstStop(t, i + 1);
    }
  }

  /** The end of the line that `i` is on. */
  function LineEnd(t: string, i: nat): (e: nat)
    requires i <= |t|
    ensures i <= e <= |t|
    decreases |t| - i
  {
    if i == |t| || IsLineTerminator(t[i]) then i else LineEnd(t, i + 1)
  }

  /** The first two alternatives of the lookahead each begin with a newline, where
      `$` already holds: the capture always ends at the end of its line, so a
      section never holds more than one line. */
  lemma {:induction false} CaptureEndIsLineEnd(t: string, i: nat)
    requires i <= |t|
    ensures CaptureEnd(t, i) == LineEnd(t, i)
    ensures forall j :: i <= j < LineEnd(t, i) ==> !IsLineTerminator(t[j])
    decreases |t| - i
  {
    if !Stop(t, i) {
      CaptureEndIsLineEnd(t, i + 1);
    }
  }

  /** The capture group of a match whose label and separator end at `c`. */
  function Capture(t: string, c: nat): string
    requires c <= |t|
  {
    t[c..CaptureEnd(t, c)]
  }

  /** The trimmed capture of the match whose label begins a line at `p`. */
  function SectionAt(t: string, lbl: string, p: nat): string
    requires p <= |t| && LabelAt(t, lbl, p)
  {
    Trim(Capture(t, AfterLabel(t, p + WsRun(t[p..]) + |lbl|)))
  }

  /** app.js:229-233: the trimmed capture of the first match, or nothing. */
  function SectionText(lbl: string, t: string): string {
    match FindLabel(t, lbl, 0)
    case None => []
    case Some(p) => SectionAt(t, lbl, p)
  }

  // ---------- Showing a section (app.js:234-240) ----------

  datatype Content = NA | Paras(items: seq<string>) | Bullets(items: seq<string>)

  predicate IsMarkChar(c: char) {
    c == '-' || c == '•' || IsDigit(c)
  }

  /** Length of the run of `[-•\d]` that begins `s`. */
  function MarkRun(s: string): (n: nat)
    ensures n <= |s|
    ensures forall i :: 0 <= i < n ==> IsMarkChar(s[i])
    ensures n < |s| ==> !IsMarkChar(s[n])
  {
    if s == [] || !IsMarkChar(s[0]) then 0 else 1 + MarkRun(s[1..])
  }

  /** `/^[-•\d]+[.)]?\s+/` (app.js:237): list marks, perhaps a `.` or `)`, then
      whitespace. Backing off never helps: a shorter run of marks is followed by
      a mark, which is neither `.`, `)` nor whitespace. */
  predicate IsBulletItem(x: string) {
    var r := MarkRun(x);
    var k := if r < |x| && (x[r] == '.' || x[r] == ')') then r + 1 else r;
    r > 0 && k < |x| && IsSpace(x[k])
  }

  predicate IsStripChar(c: char) {
    IsMarkChar(c) || c == '.' || c == ' ' || c == ')'
  }

  /** Length of the run of `[-•\d. )]` that begins `s`. */
  function StripRun(s: string): (n: nat)
    ensures n <= |s|
    ensures forall i :: 0 <= i < n ==> IsStripChar(s[i])
    ensures n < |s| ==> !IsStripChar(s[n])
  {
    if s == [] || !IsStripChar(s[0]) then 0 else 1 + StripRun(s[1..])
  }

  /** app.js:238: the item without its leading run of list marks, dots, spaces
      and parentheses, and without the whitespace after that run: what goes is
      exactly that run followed by whitespace, and what stays is a suffix. */
  function StripBullet(x: string): (r: string)
    ensures |r| <= |x| && r == x[|x| - |r|..]
    ensures StripRun(x) == 0 ==> r == x
    ensures StripRun(x) > 0 ==> |r| < |x| && (r != [] ==> !IsSpace(r[0]))
    ensures StripRun(x) > 0 ==> StripRun(x) <= |x| - |r| && BlankIn(x, StripRun(x), |x| - |r|)
    ensures IsBulletItem(x) ==> |r| < |x|
  {
    var n := StripRun(x);
    assert IsBulletItem(x) ==> MarkRun(x) > 0 && IsStripChar(x[0]) && n > 0;
    if n == 0 then x
    else WsRunAt(x, n); x[n + WsRun(x[n..])..]
  }

  function StripAll(ls: seq<string>): (r: seq<string>)
    ensures |r| == |ls| && forall i :: 0 <= i < |ls| ==> r[i] == StripBullet(ls[i])
  {
    seq(|ls|, i requires 0 <= i < |ls| => StripBullet(ls[i]))
  }

  /** app.js:235-240: no line is N/A; a list when some line is a list item, its
      marks stripped from every line; otherwise one paragraph per line, each
      line as it is. */
  function ContentOf(ls: seq<string>): (r: Content)
    ensures r.NA? <==> ls == []
    ensures r.Bullets? <==> ls != [] && exists i :: 0 <= i < |ls| && IsBulletItem(ls[i])
    ensures !r.NA? ==> |r.items| == |ls|
    ensures r.Paras? ==> r.items == ls
    ensures r.Bullets? ==> forall i :: 0 <= i < |ls| ==> r.items[i] == StripBullet(ls[i])
  {
    if ls == [] then NA
    else if exists i :: 0 <= i < |ls| && IsBulletItem(ls[i]) then Bullets(StripAll(ls))
    else Paras(ls)
  }

  /** app.js:228-241: the content of one section of an idea text. */
  function ExtractSection(lbl: string, t: string): Content {
    ContentOf(Lines(SectionText(lbl, t)))
  }

  // ---------- Facts about sections ----------

  /** `x` begins with `m` list marks, perhaps a `.` or a `)`, and whitespace
      at `k`. */
  predicate BulletShape(x: string, m: nat, k: nat) {
    0 < m <= k < |x| && (forall i :: 0 <= i < m ==> IsMarkChar(x[i]))
    && (k == m || (k == m + 1 && (x[m] == '.' || x[m] == ')'))) && IsSpace(x[k])
  }

  /** `IsBulletItem` is the test of app.js:237: a non-empty run of list marks,
      then perhaps a `.` or a `)`, then a whitespace character. */
  lemma BulletItemMeaning(x: string)
    ensures IsBulletItem(x) <==> exists m: nat, k: nat :: BulletShape(x, m, k)
  {
    var r := MarkRun(x);
    var k := if r < |x| && (x[r] == '.' || x[r] == ')') then r + 1 else r;
    if IsBulletItem(x) {
      assert BulletShape(x, r, k);
    }
    if exists m: nat, k': nat :: BulletShape(x, m, k') {
      var m: nat, k': nat :| BulletShape(x, m, k');
      assert m <= r;
      assert !IsMarkChar(x[m]);
    }
  }

  /** A label that begins no line gives N/A. */
  lemma MissingSection(lbl: string, t: string)
    requires forall q :: 0 <= q <= |t| ==> !LabelAt(t, lbl, q)
    ensures ExtractSection(lbl, t) == NA
  {
    assert FindLabel(t, lbl, 0) == None;
    assert SectionText(lbl, t) == [];
    LinesOfOneLine([]);
  }

  /** The captured text holds no newline and is trimmed. */
  lemma SectionTextOneLine(lbl: string, t: string)
    ensures '\n' !in SectionText(lbl, t) && IsTrimmed(SectionText(lbl, t))
  {
    if FindLabel(t, lbl, 0).Some? {
      SectionAtOneLine(t, lbl, FindLabel(t, lbl, 0).value);
    }
  }

  lemma SectionAtOneLine(t: string, lbl: string, p: nat)
    requires p <= |t| && LabelAt(t, lbl, p)
    ensures '\n' !in SectionAt(t, lbl, p)
  {
    var c := AfterLabel(t, p + WsRun(t[p..]) + |lbl|);
    CaptureNoNewline(t, c);
    TrimNoNewline(Capture(t, c));
  }

  lemma CaptureNoNewline(t: string, c: nat)
    requires c <= |t|
    ensures '\n' !in Capture(t, c)
  {
    CaptureEndIsLineEnd(t, c);
    var cap := Capture(t, c);
    assert forall j :: 0 <= j < |cap| ==> cap[j] == t[c + j];
  }

  lemma TrimNoNewline(s: string)
    requires '\n' !in s
    ensures '\n' !in Trim(s)
  {
    var r := Trim(s);
    assert forall j :: 0 <= j < |r| ==> r[j] == s[WsRun(s) + j];
  }

  /** A section holds at most one line: it is N/A when the capture is empty, else
      a one-item list when the capture is a list item, else one paragraph
      (app.js:230-240). The capture is the trimmed rest of the label's line, or
      of the next line when nothing follows the label on its own. */
  lemma SectionOneLine(lbl: string, t: string)
    ensures var s := SectionText(lbl, t);
      ExtractSection(lbl, t) ==
        if s == [] then NA
        else if IsBulletItem(s) then Bullets([StripBullet(s)])
        else Paras([s])
  {
    var s := SectionText(lbl, t);
    SectionTextOneLine(lbl, t);
    LinesOfOneLine(s);
    TrimOfTrimmed(s);
    if s != [] {
      ContentOfOne(s);
    }
  }

  /** A single line is a one-item list when it is a list item, else one paragraph. */
  lemma ContentOfOne(s: string)
    ensures ContentOf([s]) == if IsBulletItem(s) then Bullets([StripBullet(s)]) else Paras([s])
  {
    assert (exists i :: 0 <= i < |[s]| && IsBulletItem([s][i])) <==> IsBulletItem(s) by {
      assert [s][0] == s;
    }
    assert StripAll([s]) == [StripBullet(s)];
  }
}
