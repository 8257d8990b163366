/** The title of an idea card (app.js:207-226, 250): an explicit `Name:` line,
    else the heading without its ordinal, else the first plain body line cut at
    its first delimiter, else a numbered placeholder. */
module Titles {
  import opened Text
  import opened Markers
  import opened Blocks

  /** app.js:211: the line without its leading `Name` marker, colon and the
      whitespace after them. */
  function StripNameMarker(l: string): (r: string)
    ensures IsNameLine(l) ==> |r| < |l| && r == l[|l| - |r|..] && (r != [] ==> !IsSpace(r[0]))
    ensures IsNameLine(l) ==> MarkerLen(l) <= |l| - |r| && BlankIn(l, MarkerLen(l), |l| - |r|)
    ensures !IsNameLine(l) ==> r == l
  {
    var m := MarkerLen(l);
    if m == 0 then l
    else
      WsRunAt(l, m);
      l[m + WsRun(l[m..])..]
  }

  /** `blk.body.find(l => /^Name\s*:/i.test(l))` (app.js:209). */
  function FirstNameLine(body: seq<string>): (r: Option<string>)
    ensures r.Some? ==> exists j :: (0 <= j < |body| && body[j] == r.value && IsNameLine(r.value)
      && forall i :: 0 <= i < j ==> !IsNameLine(body[i]))
    ensures r.None? ==> forall i :: 0 <= i < |body| ==> !IsNameLine(body[i])
  {
    if body == [] then None
    else if IsNameLine(body[0]) then Some(body[0])
    else
      var r := FirstNameLine(body[1..]);
      assert forall i :: 1 <= i < |body| ==> body[i] == body[1..][i - 1];
      r
  }

  /** The explicit-name tier (app.js:208-212): what follows the marker on the
      first `Name:` line, trimmed; nothing when there is no such line. */
  function ExplicitName(body: seq<string>): (r: string)
    ensures IsTrimmed(r)
    ensures FirstNameLine(body).None? ==> r == []
    ensures FirstNameLine(body).Some? ==>
      var l := FirstNameLine(body).value; r == Trim(l[MarkerLen(l)..])
  {
    match FirstNameLine(body)
    case None => []
    case Some(l) =>
      MarkerValue(l);
      Trim(StripNameMarker(l))
  }

  /** The `\s*` after the colon makes no difference once the value is trimmed. */
  lemma MarkerValue(l: string)
    requires IsNameLine(l)
    ensures Trim(StripNameMarker(l)) == Trim(l[MarkerLen(l)..])
  {
    var m := MarkerLen(l);
    var t := l[m..];
    var w := WsRun(t);
    assert StripNameMarker(l) == l[m + w..];
    DropDrop(l, m, w);
    TrimSkipBlank(t, w);
  }

  /** The heading tier (app.js:214-217): the heading without a leading idea
      ordinal (`Project Idea 2:`) and then without a leading list number (`2. `),
      trimmed. The result is the trimmed piece of the heading that starts at the
      first visible character after the ordinal and the number and runs to the
      last visible one; it is empty exactly when nothing visible is left. */
  function HeadingName(h: string): (r: string)
    ensures IsTrimmed(r)
    ensures PieceAt(r, h, HeadingStart(h))
    ensures BlankIn(h, HeadingStart(h) + |r|, |h|)
    ensures r == [] <==> IsBlank(h[HeadingCut(h)..])
    ensures HeadLen(h) <= HeadingStart(h)
    ensures HeadLen(h) == 0 && NumberedLen(h) == 0 ==> r == Trim(h)
  {
    var i := HeadingCut(h);
    assert i == 0 ==> h[i..] == h;
    TrimFrom(h, i);
    Trim(h[i..])
  }

  /** Where the first replacement of app.js:215 stops: after the heading match
      and the whitespace that follows it, or at 0 when the heading does not
      begin with an idea ordinal. */
  function OrdinalEnd(h: string): (e: nat)
    ensures HeadLen(h) <= e <= |h|
    ensures HeadLen(h) == 0 ==> e == 0
    ensures HeadLen(h) > 0 ==> BlankIn(h, HeadLen(h), e) && (e < |h| ==> !IsSpace(h[e]))
  {
    var k := HeadLen(h);
    if k > 0 then WsEnd(h, k) else 0
  }

  /** Where the ordinal and the list number of a heading end (app.js:215-216):
      after the ordinal, then after the longest match of `\d+\s*[.)]\s+` there,
      if there is one. */
  function HeadingCut(h: string): (i: nat)
    ensures OrdinalEnd(h) <= i <= |h|
    ensures var o := OrdinalEnd(h); i == o <==> NumberedLen(h[o..]) == 0
    ensures var o := OrdinalEnd(h);
      i > o ==> NumberedMatch(h[o..], i - o) && forall n: nat :: NumberedMatch(h[o..], n) ==> n <= i - o
    ensures HeadLen(h) <= i
    ensures HeadLen(h) == 0 && NumberedLen(h) == 0 ==> i == 0
  {
    var o := OrdinalEnd(h);
    assert o == 0 ==> h[o..] == h;
    NumberedLenMatch(h[o..]);
    o + NumberedLen(h[o..])
  }

  /** Where the text of the heading tier begins in the heading. */
  function HeadingStart(h: string): nat {
    TextStart(h, HeadingCut(h))
  }

  /** The first visible position of `h` from `i` on. */
  function TextStart(h: string, i: nat): (p: nat)
    requires i <= |h|
    ensures i <= p <= |h| && BlankIn(h, i, p) && (p < |h| ==> !IsSpace(h[p]))
  {
    WsRunAt(h, i);
    i + WsRun(h[i..])
  }

  /** `trim` of the text from `i` on is the piece after its leading whitespace. */
  lemma TrimFrom(h: string, i: nat)
    requires i <= |h|
    ensures PieceAt(Trim(h[i..]), h, TextStart(h, i))
    ensures BlankIn(h, TextStart(h, i) + |Trim(h[i..])|, |h|)
  {
    var t := h[i..];
    TrimPiece(t);
    assert PieceAt(t, h, i);
    PieceOfPiece(Trim(t), t, h, WsRun(t), i);
    TrimTail(h, i, t, i + WsRun(t) + |Trim(t)|);
  }

  /** What `trim` leaves behind at the end of the text from `i` on is blank. */
  lemma TrimTail(h: string, i: nat, t: string, e: nat)
    requires i <= |h| && t == h[i..] && e == i + WsRun(t) + |Trim(t)|
    ensures e <= |h| && BlankIn(h, e, |h|)
  {
    forall x | e <= x < |h| ensures IsSpace(h[x]) {
      assert h[x] == t[x - i];
    }
  }

  /** `/^(here (are|is)|some (good|great)|below (are|is))/i` (app.js:220). */
  predicate IsGeneric(l: string) {
    || StartsCI(l, "here are") || StartsCI(l, "here is")
    || StartsCI(l, "some good") || StartsCI(l, "some great")
    || StartsCI(l, "below are") || StartsCI(l, "below is")
  }

  /** The first body line that is neither a `Name:` line nor a generic opener
      (app.js:221). */
  function FirstPlain(body: seq<string>): (r: Option<string>)
    ensures r.Some? ==> exists j :: (0 <= j < |body| && body[j] == r.value
      && !IsNameLine(r.value) && !IsGeneric(r.value)
      && forall i :: 0 <= i < j ==> IsNameLine(body[i]) || IsGeneric(body[i]))
    ensures r.None? ==> forall i :: 0 <= i < |body| ==> IsNameLine(body[i]) || IsGeneric(body[i])
  {
    if body == [] then None
    else if !IsNameLine(body[0]) && !IsGeneric(body[0]) then Some(body[0])
    else
      var r := FirstPlain(body[1..]);
      assert forall i :: 1 <= i < |body| ==> body[i] == body[1..][i - 1];
      r
  }

  predicate IsDelimiter(c: char) {
    c == '.' || c == ':' || c == ';' || c == '-'
  }

  /** `.split(/[.:;-]/)[0]` (app.js:222): the text before the first delimiter. */
  function CutAtDelimiter(s: string): (r: string)
    ensures |r| <= |s| && r == s[..|r|]
    ensures forall i :: 0 <= i < |r| ==> !IsDelimiter(r[i])
    ensures |r| < |s| ==> IsDelimiter(s[|r|])
  {
    if s == [] || IsDelimiter(s[0]) then []
    else [s[0]] + CutAtDelimiter(s[1..])
  }

  /** The longest title the last tier gives (app.js:223). */
  const MaxTitle := 120

  /** The line the last tier takes its title from (app.js:221): the first plain
      body line, or the words `Project Idea` when there is none or when that line
      is empty (`||` treats the empty string as missing). The pipeline never
      hands over an empty line, but the title is defined for any block. */
  function TitleSource(body: seq<string>): (src: string)
    ensures src != []
  {
    match FirstPlain(body)
    case Some(l) => if l != [] then l else Untitled
    case None => Untitled
  }

  /** How much of the source line the last tier looks at: up to its first
      delimiter, and no more than 120 characters (app.js:222-223). */
  function TitleLimit(src: string): nat {
    Min(MaxTitle, |CutAtDelimiter(src)|)
  }

  /** The last tier (app.js:219-224): the first plain body line, or the words
      `Project Idea`, cut at the first delimiter, kept to 120 characters and
      trimmed. The result is the piece of the source line from its first
      visible character to the last visible one before its first delimiter and
      within 120 characters; it is empty exactly when that prefix is blank. */
  function BodyName(body: seq<string>): (r: string)
    ensures |r| <= MaxTitle && IsTrimmed(r)
    ensures forall i :: 0 <= i < |r| ==> !IsDelimiter(r[i])
    ensures var src := TitleSource(body);
      TitleLimit(src) <= |src| && (r == [] <==> IsBlank(src[..TitleLimit(src)]))
    ensures var src := TitleSource(body);
      r != [] ==> WsRun(src) + |r| <= TitleLimit(src) && PieceAt(r, src, WsRun(src))
    ensures var src := TitleSource(body);
      r != [] ==> BlankIn(src, WsRun(src) + |r|, TitleLimit(src))
  {
    var src := TitleSource(body);
    ShortTitle(src);
    Trim(CutAtDelimiter(src)[..TitleLimit(src)])
  }

  lemma ShortTitle(src: string)
    ensures TitleLimit(src) <= |src| && CutAtDelimiter(src)[..TitleLimit(src)] == src[..TitleLimit(src)]
    ensures var r := Trim(src[..TitleLimit(src)]);
      |r| <= MaxTitle && forall i :: 0 <= i < |r| ==> !IsDelimiter(r[i])
    ensures var r := Trim(src[..TitleLimit(src)]);
      r != [] ==> WsRun(src) + |r| <= TitleLimit(src) && PieceAt(r, src, WsRun(src))
    ensures var r := Trim(src[..TitleLimit(src)]);
      r != [] ==> BlankIn(src, WsRun(src) + |r|, TitleLimit(src))
  {
    var lim := TitleLimit(src);
    var short := src[..lim];
    assert forall i :: 0 <= i < |short| ==> short[i] == CutAtDelimiter(src)[i];
    TrimNoDelimiter(short);
    TrimPrefix(src, lim);
  }

  /** The trimmed prefix of a line is a piece of the line itself. */
  lemma TrimPrefix(src: string, lim: nat)
    requires lim <= |src|
    ensures var r := Trim(src[..lim]);
      r != [] ==> WsRun(src) + |r| <= lim && PieceAt(r, src, WsRun(src))
    ensures var r := Trim(src[..lim]);
      r != [] ==> BlankIn(src, WsRun(src) + |r|, lim)
  {
    var short := src[..lim];
    var r := Trim(short);
    PrefixWsRun(src, lim);
    TrimPiece(short);
    assert PieceAt(short, src, 0);
    PieceOfPiece(r, short, src, WsRun(short), 0);
    if r != [] {
      forall x | WsRun(src) + |r| <= x < lim ensures IsSpace(src[x]) {
        assert src[x] == short[x];
      }
    }
  }

  /** A prefix that is not blank starts with the same whitespace run as the whole. */
  lemma PrefixWsRun(s: string, k: nat)
    requires k <= |s|
    ensures !IsBlank(s[..k]) ==> WsRun(s[..k]) == WsRun(s)
  {
    var p := s[..k];
    if !IsBlank(p) {
      var w := WsRun(p);
      assert w < |p|;
      assert BlankIn(s, 0, w) by {
        forall x | 0 <= x < w ensures IsSpace(s[x]) {
          assert s[x] == p[x];
        }
      }
      assert s[w] == p[w];
      WsRunIs(s, w);
    }
  }

  /** The words the last tier falls back on (app.js:221). */
  const Untitled: string := "Project Idea"

  lemma TrimNoDelimiter(s: string)
    requires forall i :: 0 <= i < |s| ==> !IsDelimiter(s[i])
    ensures |Trim(s)| <= |s| && forall i :: 0 <= i < |Trim(s)| ==> !IsDelimiter(Trim(s)[i])
  {
    var r := Trim(s);
    assert forall i :: 0 <= i < |r| ==> r[i] == s[WsRun(s) + i];
  }

  /** A text without a delimiter is not cut. */
  lemma {:induction false} CutWithoutDelimiter(s: string)
    requires forall i :: 0 <= i < |s| ==> !IsDelimiter(s[i])
    ensures CutAtDelimiter(s) == s
    decreases |s|
  {
    if s != [] {
      assert forall i :: 0 <= i < |s[1..]| ==> s[1..][i] == s[i + 1];
      CutWithoutDelimiter(s[1..]);
    }
  }

  /** app.js:207-226: the first tier that gives a non-empty name. */
  function Name(b: Block): string {
    var e := ExplicitName(b.body);
    if e != [] then e
    else
      var h := HeadingName(b.heading);
      if h != [] then h else BodyName(b.body)
  }

  /** The placeholder of the card at position `idx` (app.js:250). */
  function Placeholder(idx: nat): string {
    "Project Idea " + DecimalString(idx + 1)
  }

  /** app.js:250, `name || \`Project Idea ${idx + 1}\``: the title shown is never
      empty; it is the resolved name when there is one, else the placeholder. */
  function DisplayTitle(b: Block, idx: nat): (r: string)
    ensures r != []
    ensures Name(b) != [] ==> r == Name(b)
    ensures Name(b) == [] ==> r == Placeholder(idx)
  {
    var n := Name(b);
    if n != [] then n else Placeholder(idx)
  }

  // ---------- Facts about the title ----------

  /** The placeholder `Project Idea k` of app.js:250 is shown exactly when no
      tier gives a name: there is no explicit name and no heading text, and the
      body has a non-empty plain line whose text before its first delimiter is
      blank (the words `Project Idea` that stand in for a missing or empty plain
      line are never blank). */
  lemma UnnamedBlock(b: Block)
    ensures Name(b) == [] <==>
      && ExplicitName(b.body) == [] && HeadingName(b.heading) == []
      && FirstPlain(b.body).Some? && FirstPlain(b.body).value != []
      && IsBlank(FirstPlain(b.body).value[..TitleLimit(FirstPlain(b.body).value)])
  {
    if FirstPlain(b.body).None? || FirstPlain(b.body).value == [] {
      UntitledFacts();
      assert TitleLimit(Untitled) == 12;
      assert !IsSpace(Untitled[..12][0]);
    }
  }

  /** A bare `Name:` line, as the marker isolation leaves it, names nothing. */
  lemma BareMarkerNamesNothing()
    ensures Trim(StripNameMarker(NameHeading)) == []
  {
    BareMarker();
    var s := NameHeading;
    var m := MarkerLen(s);
    assert m == 5 && s[m..] == [];
    assert WsRun(s[m..]) == 0;
    assert StripNameMarker(s) == [];
  }

  /** The heading `Name:` is kept whole by the heading tier: it carries neither an
      idea ordinal nor a list number. */
  lemma NameHeadingName()
    ensures HeadingName(NameHeading) == NameHeading
  {
    var s := NameHeading;
    BareMarker();
    assert HeadLen(s) == 0;
    assert DigitEnd(s, 0) == 0;
    assert NumberedLen(s) == 0;
    assert s[0..] == s;
    TrimOfTrimmed(s);
  }

  /** A block opened by a `Name:` line whose first `Name:` line is bare is titled
      `Name:`, whatever its position (app.js:147, 209-217). */
  lemma NameBlockTitle(b: Block, idx: nat)
    requires b.heading == NameHeading
    requires FirstNameLine(b.body) == Some(NameHeading)
    ensures DisplayTitle(b, idx) == NameHeading
  {
    BareMarkerNamesNothing();
    NameHeadingName();
  }

  /** With no `Name:` line, no heading text and no plain body line, the last tier
      gives the words `Project Idea`, without a number (app.js:221-224). */
  lemma NoTextTitle(b: Block, idx: nat)
    requires HeadingName(b.heading) == []
    requires forall i :: 0 <= i < |b.body| ==> IsGeneric(b.body[i]) && !IsNameLine(b.body[i])
    ensures DisplayTitle(b, idx) == Untitled
  {
    var s := Untitled;
    assert FirstNameLine(b.body) == None;
    assert FirstPlain(b.body) == None;
    UntitledFacts();
    assert s[..Min(MaxTitle, |s|)] == s;
  }

  lemma UntitledFacts()
    ensures CutAtDelimiter(Untitled) == Untitled && Trim(Untitled) == Untitled
    ensures |Untitled| == 12
  {
    UntitledUncut(Untitled);
    UntitledTrimmed(Untitled);
  }

  lemma UntitledUncut(s: string)
    requires s == Untitled
    ensures CutAtDelimiter(s) == s
  {
    assert forall i :: 0 <= i < |s| ==> !IsDelimiter(s[i]);
    CutWithoutDelimiter(s);
  }

  lemma UntitledTrimmed(s: string)
    requires s == Untitled
    ensures Trim(s) == s
  {
    assert !IsSpace(s[0]) && !IsSpace(s[|s| - 1]);
    TrimOfTrimmed(s);
  }
}
