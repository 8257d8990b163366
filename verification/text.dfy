/** Character classes and string helpers shared by the idea-card formatter.
    Strings are `seq<char>`; the character classes are those of JavaScript's
    regular expressions and of `String.prototype.trim`. */
module Text {

  datatype Option<T> = None | Some(value: T)

  /** JavaScript's `\s` (WhiteSpace plus LineTerminator), which is also the set
      that `trim` removes. */
  predicate IsSpace(c: char) {
    c == ' ' || ('\t' <= c <= '\r') || ('\U{A0}' <= c && IsWideSpace(c))
  }

  /** The characters of `\s` beyond ASCII. */
  predicate IsWideSpace(c: char) {
    || c == '\U{A0}' || c == '\U{1680}' || ('\U{2000}' <= c <= '\U{200A}')
    || c == '\U{2028}' || c == '\U{2029}' || c == '\U{202F}' || c == '\U{205F}'
    || c == '\U{3000}' || c == '\U{FEFF}'
  }

  /** The characters after which `^`, and before which `$`, match under the `m` flag. */
  predicate IsLineTerminator(c: char) {
    c == '\n' || c == '\r' || c == '\U{2028}' || c == '\U{2029}'
  }

  predicate IsDigit(c: char) {
    '0' <= c <= '9'
  }

  /** `\w`, the class that decides `\b` (ASCII only, as there is no `u` flag). */
  predicate IsWordChar(c: char) {
    ('a' <= c <= 'z') || ('A' <= c <= 'Z') || IsDigit(c) || c == '_'
  }

  /** ASCII case folding. For the ASCII patterns of the formatter this is exactly
      what the `i` flag compares, since a non-ASCII character never folds onto an
      ASCII one there. */
  function Lower(c: char): char {
    if 'A' <= c <= 'Z' then (c as int + 32) as char else c
  }

  /** `s` begins with `w`, ignoring ASCII case. */
  predicate StartsCI(s: string, w: string) {
    |w| <= |s| && forall i :: 0 <= i < |w| ==> Lower(s[i]) == Lower(w[i])
  }

  /** Length of the run of whitespace that begins `s` (what a greedy `\s*` takes). */
  function WsRun(s: string): (n: nat)
    ensures n <= |s|
    ensures forall i :: 0 <= i < n ==> IsSpace(s[i])
    ensures n < |s| ==> !IsSpace(s[n])
  {
    if s == [] || !IsSpace(s[0]) then 0 else 1 + WsRun(s[1..])
  }

  /** Length of the run of whitespace that ends `s`. */
  function TrailRun(s: string): (n: nat)
    ensures n <= |s|
    ensures forall i :: |s| - n <= i < |s| ==> IsSpace(s[i])
    ensures n < |s| ==> !IsSpace(s[|s| - 1 - n])
  {
    if s == [] || !IsSpace(s[|s| - 1]) then 0 else 1 + TrailRun(s[..|s| - 1])
  }

  /** Every character of `s[i..j]` is whitespace. */
  predicate BlankIn(s: string, i: nat, j: nat)
    requires i <= j <= |s|
  {
    forall x :: i <= x < j ==> IsSpace(s[x])
  }

  /** Every character of `s[i..j]` is a digit. */
  predicate DigitsIn(s: string, i: nat, j: nat)
    requires i <= j <= |s|
  {
    forall x :: i <= x < j ==> IsDigit(s[x])
  }

  /** The whitespace run from `i` on, in positions of `s`. */
  lemma WsRunAt(s: string, i: nat)
    requires i <= |s|
    ensures i + WsRun(s[i..]) <= |s| && BlankIn(s, i, i + WsRun(s[i..]))
    ensures i + WsRun(s[i..]) < |s| ==> !IsSpace(s[i + WsRun(s[i..])])
  {
    assert forall x :: 0 <= x < WsRun(s[i..]) ==> s[i..][x] == s[i + x];
  }

  /** The whitespace run from `i` on reaches past any blank stretch from `i`, and
      ends at the first character that is not whitespace. */
  lemma WsRunReaches(s: string, i: nat, j: nat)
    requires i <= j <= |s| && BlankIn(s, i, j)
    ensures i + WsRun(s[i..]) >= j
    ensures j < |s| && !IsSpace(s[j]) ==> i + WsRun(s[i..]) == j
  {
    WsRunAt(s, i);
  }

  /** A blank stretch followed by a character that is not whitespace is the
      whitespace run. */
  lemma {:induction false} WsRunIs(s: string, w: nat)
    requires w < |s| && BlankIn(s, 0, w) && !IsSpace(s[w])
    ensures WsRun(s) == w
    decreases w
  {
    if w > 0 {
      assert IsSpace(s[0]);
      assert BlankIn(s[1..], 0, w - 1) by {
        forall x | 0 <= x < w - 1 ensures IsSpace(s[1..][x]) {
          assert s[1..][x] == s[x + 1];
        }
      }
      WsRunIs(s[1..], w - 1);
    }
  }

  /** `w` occurs at position `i` of `s`, ignoring ASCII case. */
  predicate WordAt(s: string, i: nat, w: string) {
    i + |w| <= |s| && forall j :: 0 <= j < |w| ==> Lower(s[i + j]) == Lower(w[j])
  }

  /** Where the run of whitespace that begins at position `i` of `s` ends. */
  function WsEnd(s: string, i: nat): (e: nat)
    requires i <= |s|
    ensures i <= e <= |s| && BlankIn(s, i, e)
    ensures e < |s| ==> !IsSpace(s[e])
    decreases |s| - i
  {
    if i < |s| && IsSpace(s[i]) then WsEnd(s, i + 1) else i
  }

  /** Where the run of digits that begins at position `i` of `s` ends. */
  function DigitEnd(s: string, i: nat): (e: nat)
    requires i <= |s|
    ensures i <= e <= |s| && DigitsIn(s, i, e)
    ensures e < |s| ==> !IsDigit(s[e])
    decreases |s| - i
  {
    if i < |s| && IsDigit(s[i]) then DigitEnd(s, i + 1) else i
  }

  /** The whitespace run from `i` reaches past any blank stretch from `i`. */
  lemma {:induction false} WsEndReaches(s: string, i: nat, j: nat)
    requires i <= j <= |s| && BlankIn(s, i, j)
    ensures WsEnd(s, i) >= j
    decreases j - i
  {
    if i < j {
      WsEndReaches(s, i + 1, j);
    }
  }

  /** A blank stretch followed by a character that is not whitespace, or by the
      end, is the whitespace run. */
  lemma WsEndIs(s: string, i: nat, j: nat)
    requires i <= j <= |s| && BlankIn(s, i, j) && (j < |s| ==> !IsSpace(s[j]))
    ensures WsEnd(s, i) == j
  {
    WsEndReaches(s, i, j);
  }

  lemma {:induction false} DigitEndReaches(s: string, i: nat, j: nat)
    requires i <= j <= |s| && DigitsIn(s, i, j)
    ensures DigitEnd(s, i) >= j
    decreases j - i
  {
    if i < j {
      DigitEndReaches(s, i + 1, j);
    }
  }

  /** Digits followed by a character that is not a digit, or by the end, are
      the digit run. */
  lemma DigitEndIs(s: string, i: nat, j: nat)
    requires i <= j <= |s| && DigitsIn(s, i, j) && (j < |s| ==> !IsDigit(s[j]))
    ensures DigitEnd(s, i) == j
  {
    DigitEndReaches(s, i, j);
  }

  /** The whitespace run from `i`, measured on the rest of the string. */
  lemma WsEndRun(s: string, i: nat)
    requires i <= |s|
    ensures WsEnd(s, i) == i + WsRun(s[i..])
  {
    WsRunAt(s, i);
    WsEndIs(s, i, i + WsRun(s[i..]));
  }

  /** The whitespace run from `i` in the rest of `s` from `j`. */
  lemma WsEndShift(s: string, j: nat, i: nat)
    requires j + i <= |s|
    ensures j <= WsEnd(s, j + i) && WsEnd(s[j..], i) == WsEnd(s, j + i) - j
  {
    var t := s[j..];
    var e := WsEnd(s, j + i);
    assert BlankIn(t, i, e - j) by {
      forall x | i <= x < e - j ensures IsSpace(t[x]) {
        assert t[x] == s[j + x];
      }
    }
    assert e - j < |t| ==> t[e - j] == s[e];
    WsEndIs(t, i, e - j);
  }

  predicate IsBlank(s: string) {
    forall i :: 0 <= i < |s| ==> IsSpace(s[i])
  }

  predicate IsTrimmed(s: string) {
    s == [] || (!IsSpace(s[0]) && !IsSpace(s[|s| - 1]))
  }

  function TrimLeft(s: string): string {
    s[WsRun(s)..]
  }

  /** `String.prototype.trim`: the text between the leading and the trailing
      whitespace runs. */
  function Trim(s: string): (r: string)
    ensures IsTrimmed(r)
    ensures WsRun(s) + |r| <= |s| && r == s[WsRun(s)..WsRun(s) + |r|]
    ensures forall i :: WsRun(s) + |r| <= i < |s| ==> IsSpace(s[i])
    ensures r == TrimLeft(s)[..|r|]
    ensures r == [] <==> IsBlank(s)
  {
    var t := TrimLeft(s);
    var r := t[..|t| - TrailRun(t)];
    assert r != [] ==> r[0] == t[0] && !IsSpace(r[0]);
    r
  }

  /** `r` is the piece of `s` that begins at position `a`. */
  predicate PieceAt(r: string, s: string, a: nat) {
    a + |r| <= |s| && forall i :: 0 <= i < |r| ==> r[i] == s[a + i]
  }

  /** Dropping `a` characters and then `b` drops `a + b`. */
  lemma DropDrop(s: string, a: nat, b: nat)
    requires a + b <= |s|
    ensures s[a..][b..] == s[a + b..]
  {
  }

  /** Dropping the first character of a string that starts at `s[a]`. */
  lemma DropCons(s: string, a: nat)
    requires a < |s|
    ensures s[a..] == [s[a]] + s[a + 1..]
  {
  }

  /** `s[a..]` is `s[a..b]` followed by `s[b..]`. */
  lemma DropSplit(s: string, a: nat, b: nat)
    requires a <= b <= |s|
    ensures s[a..] == s[a..b] + s[b..]
  {
  }

  /** The first `b` characters are the first one followed by `s[1..b]`. */
  lemma TakeCons(s: string, b: nat)
    requires 0 < b <= |s|
    ensures s[..b] == [s[0]] + s[1..b]
  {
  }

  /** The tail of `a + b` for a non-empty `a`. */
  lemma AppendTail(a: string, b: string)
    requires a != []
    ensures (a + b)[0] == a[0] && (a + b)[1..] == a[1..] + b
  {
  }

  /** Putting the first character back in front of the rest of `a`. */
  lemma ConsBack(a: string, y: string)
    requires a != []
    ensures [a[0]] + (a[1..] + y) == a + y
  {
    assert a == [a[0]] + a[1..];
  }

  /** A piece is a slice. */
  lemma PieceIsSlice(r: string, s: string, a: nat)
    requires PieceAt(r, s, a)
    ensures r == s[a..a + |r|]
  {
  }

  /** A piece of a piece is a piece. */
  lemma PieceOfPiece(r: string, s: string, t: string, a: nat, b: nat)
    requires PieceAt(r, s, a) && PieceAt(s, t, b)
    ensures PieceAt(r, t, b + a)
  {
  }

  /** `trim` gives the piece after the leading whitespace. */
  lemma TrimPiece(s: string)
    ensures PieceAt(Trim(s), s, WsRun(s))
  {
    var r := Trim(s);
    assert forall i :: 0 <= i < |r| ==> r[i] == s[WsRun(s)..WsRun(s) + |r|][i];
  }

  /** Leading whitespace makes no difference to `trim`. */
  lemma TrimSkipBlank(s: string, k: nat)
    requires k <= |s| && BlankIn(s, 0, k)
    ensures Trim(s[k..]) == Trim(s)
  {
    assert s[0..] == s;
    WsRunAt(s, 0);
    WsRunReaches(s, 0, k);
    WsRunAt(s, k);
    if k + WsRun(s[k..]) < |s| {
      WsRunReaches(s, 0, k + WsRun(s[k..]));
    } else {
      WsRunReaches(s, 0, |s|);
    }
    assert TrimLeft(s[k..]) == TrimLeft(s);
  }

  /** Trimming a trimmed string changes nothing. */
  lemma TrimOfTrimmed(s: string)
    requires IsTrimmed(s)
    ensures Trim(s) == s
  {
    if s != [] {
      assert WsRun(s) == 0;
      assert TrailRun(s) == 0;
    }
  }

  /** Every character that survives `Trim` was in the input. */
  lemma TrimChars(s: string)
    ensures forall c :: c in Trim(s) ==> c in s
  {
    var r := Trim(s);
    forall c | c in r ensures c in s {
      var i :| 0 <= i < |r| && r[i] == c;
      assert s[WsRun(s) + i] == c;
    }
  }

  /** `s.split("\n")` with `cur` the piece read so far. */
  function SplitFrom(cur: string, s: string): (r: seq<string>)
    ensures |r| >= 1
    decreases |s|
  {
    if s == [] then [cur]
    else if s[0] == '\n' then [cur] + SplitFrom([], s[1..])
    else SplitFrom(cur + [s[0]], s[1..])
  }

  function SplitLines(s: string): seq<string> {
    SplitFrom([], s)
  }

  /** `.map(l => l.trim()).filter(Boolean)`: every piece that is not blank is
      kept, trimmed; every line kept is non-empty and trimmed. A single piece
      gives itself trimmed, or nothing when it is blank; with `NonBlankAppend`
      this settles the result for any pieces. */
  function NonBlank(xs: seq<string>): (r: seq<string>)
    ensures |r| <= |xs|
    ensures forall i :: 0 <= i < |r| ==> r[i] != [] && IsTrimmed(r[i])
    ensures forall i :: 0 <= i < |xs| && !IsBlank(xs[i]) ==> Trim(xs[i]) in r
    ensures |xs| == 1 ==> r == if IsBlank(xs[0]) then [] else [Trim(xs[0])]
  {
    if xs == [] then []
    else
      var l := Trim(xs[0]);
      var rest := NonBlank(xs[1..]);
      assert forall i :: 1 <= i < |xs| ==> xs[i] == xs[1..][i - 1];
      (if l == [] then [] else [l]) + rest
  }

  /** Filtering works piece by piece, so it keeps the order of the pieces. */
  lemma {:induction false} NonBlankAppend(xs: seq<string>, ys: seq<string>)
    ensures NonBlank(xs + ys) == NonBlank(xs) + NonBlank(ys)
    decreases |xs|
  {
    if xs == [] {
      assert xs + ys == ys;
    } else {
      assert (xs + ys)[0] == xs[0];
      assert (xs + ys)[1..] == xs[1..] + ys;
      NonBlankAppend(xs[1..], ys);
    }
  }

  /** `s.split("\n").map(l => l.trim()).filter(Boolean)`: the trimmed, non-empty lines. */
  function Lines(s: string): seq<string> {
    NonBlank(SplitLines(s))
  }

  /** `arr.join("\n")`. */
  function Join(xs: seq<string>): string
  {
    if xs == [] then []
    else if |xs| == 1 then xs[0]
    else xs[0] + "\n" + Join(xs[1..])
  }

  /** The number that a string of decimal digits denotes. */
  function DigitsValue(s: string): int
    decreases |s|
  {
    if s == [] then 0 else 10 * DigitsValue(s[..|s| - 1]) + (s[|s| - 1] as int - '0' as int)
  }

  /** Decimal digits of `n`, as template interpolation of a number prints it:
      digits only, denoting `n`, without a leading zero. */
  function DecimalString(n: nat): (r: string)
    ensures r != []
    ensures forall i :: 0 <= i < |r| ==> IsDigit(r[i])
    ensures DigitsValue(r) == n
    ensures |r| > 1 ==> r[0] != '0'
  {
    if n < 10 then
      var r: string := [(48 + n) as char];
      assert r[..0] == [];
      r
    else
      var h := DecimalString(n / 10);
      var r := h + [(48 + n % 10) as char];
      assert r[..|r| - 1] == h;
      assert |h| == 1 ==> DigitsValue(h) == h[0] as int - '0' as int by {
        if |h| == 1 {
          assert h[..0] == [];
        }
      }
      r
  }

  function Min(a: int, b: int): int {
    if a < b then a else b
  }

  // ---------- Facts about splitting into lines ----------

  /** A piece with no newline is carried over whole into the current line. */
  lemma {:induction false} SplitFromNoNewline(cur: string, w: string, s: string)
    requires '\n' !in w
    ensures SplitFrom(cur, w + s) == SplitFrom(cur + w, s)
    decreases |w|
  {
    if w != [] {
      assert (w + s)[0] == w[0];
      assert (w + s)[1..] == w[1..] + s;
      SplitFromNoNewline(cur + [w[0]], w[1..], s);
      assert cur + [w[0]] + w[1..] == cur + w;
    } else {
      assert w + s == s;
      assert cur + w == cur;
    }
  }

  /** Every character of every piece comes from the current line or the input. */
  lemma {:induction false} SplitFromChars(cur: string, s: string)
    ensures forall i, c :: 0 <= i < |SplitFrom(cur, s)| && c in SplitFrom(cur, s)[i] ==> c in cur || c in s
    decreases |s|
  {
    if s == [] {
    } else if s[0] == '\n' {
      SplitFromChars([], s[1..]);
      var r := SplitFrom(cur, s);
      assert r == [cur] + SplitFrom([], s[1..]);
      forall i, c | 0 <= i < |r| && c in r[i] ensures c in cur || c in s {
        if i > 0 {
          assert r[i] == SplitFrom([], s[1..])[i - 1];
          assert c in s[1..];
        }
      }
    } else {
      SplitFromChars(cur + [s[0]], s[1..]);
      var r := SplitFrom(cur, s);
      assert r == SplitFrom(cur + [s[0]], s[1..]);
      forall i, c | 0 <= i < |r| && c in r[i] ensures c in cur || c in s {
        assert c in cur + [s[0]] || c in s[1..];
        if c in s[1..] {
          var j :| 0 <= j < |s[1..]| && s[1..][j] == c;
          assert s[j + 1] == c;
        } else if c !in cur {
          assert c == s[0];
        }
      }
    }
  }

  /** No line that `Lines` returns holds a newline, and every character of every
      line was in the text. */
  lemma LinesChars(s: string)
    ensures forall i, c :: 0 <= i < |Lines(s)| && c in Lines(s)[i] ==> c in s
    ensures forall i :: 0 <= i < |Lines(s)| ==> '\n' !in Lines(s)[i]
  {
    SplitFromChars([], s);
    SplitPiecesNoNewline([], s);
    NonBlankChars(SplitLines(s), s);
  }

  lemma {:induction false} SplitPiecesNoNewline(cur: string, s: string)
    requires '\n' !in cur
    ensures forall i :: 0 <= i < |SplitFrom(cur, s)| ==> '\n' !in SplitFrom(cur, s)[i]
    decreases |s|
  {
    if s == [] {
    } else if s[0] == '\n' {
      SplitPiecesNoNewline([], s[1..]);
      assert SplitFrom(cur, s) == [cur] + SplitFrom([], s[1..]);
    } else {
      SplitPiecesNoNewline(cur + [s[0]], s[1..]);
    }
  }

  lemma {:induction false} NonBlankChars(xs: seq<string>, s: string)
    requires forall i, c :: 0 <= i < |xs| && c in xs[i] ==> c in s
    requires forall i :: 0 <= i < |xs| ==> '\n' !in xs[i]
    ensures forall i, c :: 0 <= i < |NonBlank(xs)| && c in NonBlank(xs)[i] ==> c in s
    ensures forall i :: 0 <= i < |NonBlank(xs)| ==> '\n' !in NonBlank(xs)[i]
  {
    if xs != [] {
      NonBlankChars(xs[1..], s);
      TrimChars(xs[0]);
      var l := Trim(xs[0]);
      var r := NonBlank(xs);
      assert r == (if l == [] then [] else [l]) + NonBlank(xs[1..]);
      forall i, c | 0 <= i < |r| && c in r[i] ensures c in s {
        if l != [] && i == 0 {
          assert c in xs[0];
        } else {
          var j := if l == [] then i else i - 1;
          assert r[i] == NonBlank(xs[1..])[j];
          assert r[i] == NonBlank(xs[1..])[j];
        }
      }
      forall i | 0 <= i < |r| ensures '\n' !in r[i] {
        if l != [] && i == 0 {
          assert '\n' !in xs[0];
        } else {
          var j := if l == [] then i else i - 1;
          assert r[i] == NonBlank(xs[1..])[j];
        }
      }
    }
  }

  /** Joining the pieces with newlines gives back the current line followed by
      the text: `split("\n")` and `join("\n")` undo each other. */
  lemma {:induction false} SplitJoin(cur: string, s: string)
    ensures Join(SplitFrom(cur, s)) == cur + s
    decreases |s|
  {
    if s == [] {
      assert cur + s == cur;
    } else if s[0] == '\n' {
      SplitJoin([], s[1..]);
      var rest := SplitFrom([], s[1..]);
      assert ([cur] + rest)[1..] == rest;
      assert [] + s[1..] == s[1..];
      assert s == "\n" + s[1..];
    } else {
      SplitJoin(cur + [s[0]], s[1..]);
      assert cur + [s[0]] + s[1..] == cur + s;
    }
  }

  /** `s.split("\n").join("\n")` is `s`: the split loses no character. */
  lemma SplitLinesJoin(s: string)
    ensures Join(SplitLines(s)) == s
  {
    SplitJoin([], s);
    assert [] + s == s;
  }

  /** A text without a newline splits into itself. */
  lemma {:induction false} SplitNoNewline(cur: string, s: string)
    requires '\n' !in s
    ensures SplitFrom(cur, s) == [cur + s]
    decreases |s|
  {
    if s == [] {
      assert cur + s == cur;
    } else {
      SplitNoNewline(cur + [s[0]], s[1..]);
      assert cur + [s[0]] + s[1..] == cur + s;
    }
  }

  /** A line-free text yields at most one line: itself trimmed, when not blank. */
  lemma LinesOfOneLine(s: string)
    requires '\n' !in s
    ensures Lines(s) == if Trim(s) == [] then [] else [Trim(s)]
  {
    SplitNoNewline([], s);
    assert [] + s == s;
    assert SplitLines(s) == [s];
    assert NonBlank([s]) == (if Trim(s) == [] then [] else [Trim(s)]) + NonBlank([]);
  }
}
