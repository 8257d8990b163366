/** Idea blocks: dropping the preamble (app.js:134-138), grouping the lines into
    blocks that open at every idea heading or `Name:` line (app.js:141-153) and
    the rescue pass that splits a block holding several `Name:` lines
    (app.js:156-177). */
module Blocks {
  import opened Text
  import opened Markers

  /** A trimmed line together with the two marker tests that app.js:135 and
      145-148 apply to it: `ideaHeadRE` and `nameHeadRE`. */
  datatype Line = Line(text: string, idea: bool, name: bool)

  function Classify(l: string): Line {
    Line(l, IsIdeaHead(l), IsNameHead(l))
  }

  function ClassifyAll(ls: seq<string>): (xs: seq<Line>)
    ensures |xs| == |ls| && forall j :: 0 <= j < |ls| ==> xs[j] == Classify(ls[j])
  {
    seq(|ls|, j requires 0 <= j < |ls| => Classify(ls[j]))
  }

  function Texts(xs: seq<Line>): (ls: seq<string>)
    ensures |ls| == |xs| && forall j :: 0 <= j < |xs| ==> ls[j] == xs[j].text
  {
    seq(|xs|, j requires 0 <= j < |xs| => xs[j].text)
  }

  /** A line that opens a block: an idea heading or a `Name:` line. */
  predicate Starts(x: Line) {
    x.idea || x.name
  }

  /** The heading of a block opened by a `Name:` line (app.js:147, 170). */
  const NameHeading: string := "Name:"

  /** An idea block (app.js:147): a heading and the lines gathered under it. */
  datatype Block = Block(heading: string, body: seq<string>)

  /** The block that a start line opens (app.js:147-148): an idea heading is its
      own heading, any other start is headed `Name:`; a `Name:` line is also kept
      as the first body line. */
  function Open(x: Line): Block {
    Block(if x.idea then x.text else NameHeading, if x.name then [x.text] else [])
  }

  /** app.js:150, `cur.body.push(line)`. */
  function AddLine(b: Block, line: string): Block {
    Block(b.heading, b.body + [line])
  }

  function Extend(b: Block, lines: seq<string>): Block {
    Block(b.heading, b.body + lines)
  }

  // ---------- Dropping the preamble ----------

  /** app.js:135, `findIndex`: the position of the first start line, or -1. */
  function FirstStart(xs: seq<Line>): (i: int)
    ensures -1 <= i < |xs|
    ensures i >= 0 ==> Starts(xs[i])
    ensures forall j :: 0 <= j < |xs| && (i < 0 || j < i) ==> !Starts(xs[j])
  {
    if xs == [] then -1
    else if Starts(xs[0]) then 0
    else
      var i := FirstStart(xs[1..]);
      assert forall j :: 1 <= j < |xs| ==> xs[j] == xs[1..][j - 1];
      if i < 0 then -1 else i + 1
  }

  /** app.js:135-138: the lines from the first start line on, kept in order;
      without any start line, all the lines. */
  function DropPreamble(ls: seq<string>): (r: seq<string>)
    ensures |r| <= |ls| && r == ls[|ls| - |r|..]
  {
    var i := FirstStart(ClassifyAll(ls));
    if i > 0 then ls[i..] else ls
  }

  /** What the preamble drop keeps: no line it drops opens a block; what is left
      begins with a start line when there is one; without any start the list is
      left as it is. */
  lemma PreambleDropped(ls: seq<string>)
    ensures var r := DropPreamble(ls);
      && (forall j :: 0 <= j < |ls| - |r| ==> !Starts(ClassifyAll(ls)[j]))
      && ((exists j :: 0 <= j < |ls| && Starts(ClassifyAll(ls)[j])) ==> r != [] && Starts(ClassifyAll(r)[0]))
      && ((forall j :: 0 <= j < |ls| ==> !Starts(ClassifyAll(ls)[j])) ==> r == ls)
  {
    var xs := ClassifyAll(ls);
    var i := FirstStart(xs);
    var r := DropPreamble(ls);
    if i > 0 {
      assert r == ls[i..];
      ClassifySuffix(ls, i);
      assert ClassifyAll(r)[0] == xs[i];
    } else {
      assert r == ls;
    }
  }

  // ---------- Grouping ----------

  /** The first start at or after position `i`, or the end of the list. */
  function NextStart(xs: seq<Line>, i: nat): (n: nat)
    requires i <= |xs|
    ensures i <= n <= |xs|
    ensures forall j :: i <= j < n ==> !Starts(xs[j])
    ensures n < |xs| ==> Starts(xs[n])
    decreases |xs| - i
  {
    if i == |xs| || Starts(xs[i]) then i else NextStart(xs, i + 1)
  }

  /** The lines cut into the runs that become blocks: lines before the first
      start belong to no run; each start opens a run that goes up to the next
      start. Every run is a start followed by lines that are no start. */
  function Chunks(xs: seq<Line>): (cs: seq<seq<Line>>)
    ensures forall k :: 0 <= k < |cs| ==> cs[k] != [] && Starts(cs[k][0])
    ensures forall k, j :: 0 <= k < |cs| && 1 <= j < |cs[k]| ==> !Starts(cs[k][j])
    decreases |xs|
  {
    if xs == [] then []
    else if !Starts(xs[0]) then Chunks(xs[1..])
    else
      var n := NextStart(xs, 1);
      var rest := Chunks(xs[n..]);
      assert forall k :: 1 <= k < |[xs[..n]] + rest| ==> ([xs[..n]] + rest)[k] == rest[k - 1];
      [xs[..n]] + rest
  }

  /** The block a run of lines makes (app.js:147-150). */
  function BlockOf(c: seq<Line>): Block
    requires c != []
  {
    Extend(Open(c[0]), Texts(c[1..]))
  }

  function BlocksOf(cs: seq<seq<Line>>): (bs: seq<Block>)
    requires forall k :: 0 <= k < |cs| ==> cs[k] != []
    ensures |bs| == |cs| && forall k :: 0 <= k < |cs| ==> bs[k] == BlockOf(cs[k])
  {
    seq(|cs|, k requires 0 <= k < |cs| => BlockOf(cs[k]))
  }

  /** The blocks of a list of lines: one per run. */
  function Segment(xs: seq<Line>): seq<Block> {
    BlocksOf(Chunks(xs))
  }

  /** One more line, as one iteration of app.js:144-152 sees it: a start opens a
      new block; any other line joins the open block, if there is one. */
  function Snoc(g: seq<Block>, x: Line): seq<Block> {
    if Starts(x) then g + [Open(x)]
    else if g == [] then []
    else g[..|g| - 1] + [AddLine(g[|g| - 1], x.text)]
  }

  /** app.js:141-153: the grouping loop, with `cur` the block still open. */
  method GroupBlocks(lines: seq<string>) returns (blocks: seq<Block>)
    ensures blocks == Segment(ClassifyAll(lines))
  {
    ghost var xs := ClassifyAll(lines);
    blocks := [];
    var cur: Option<Block> := None;
    for i := 0 to |lines|
      invariant cur.None? ==> blocks == [] && Segment(xs[..i]) == []
      invariant cur.Some? ==> blocks + [cur.value] == Segment(xs[..i])
    {
      var line := lines[i];
      var x := Classify(line);
      assert xs[..i + 1] == xs[..i] + [x];
      SegmentSnoc(xs[..i], x);
      if IsIdeaHead(line) || IsNameHead(line) {
        if cur.Some? {
          blocks := blocks + [cur.value];
        }
        cur := Some(Open(x));
      } else if cur.Some? {
        assert (blocks + [cur.value])[..|blocks|] == blocks;
        cur := Some(AddLine(cur.value, line));
      }
    }
    if cur.Some? {
      blocks := blocks + [cur.value];
    }
    assert xs[..|lines|] == xs;
  }

  // ---------- Grouping, one line at a time ----------

  /** One more line, on the runs: a start opens a new run; any other line joins
      the last run, if there is one. */
  function SnocChunk(cs: seq<seq<Line>>, x: Line): seq<seq<Line>> {
    if Starts(x) then cs + [[x]]
    else if cs == [] then []
    else cs[..|cs| - 1] + [cs[|cs| - 1] + [x]]
  }

  lemma {:induction false} NextStartSnoc(xs: seq<Line>, x: Line, i: nat)
    requires i <= |xs|
    ensures NextStart(xs + [x], i) ==
      if NextStart(xs, i) < |xs| then NextStart(xs, i)
      else if Starts(x) then |xs| else |xs| + 1
    decreases |xs| - i
  {
    var t := xs + [x];
    assert forall j :: 0 <= j < |xs| ==> t[j] == xs[j];
    if i == |xs| {
      assert t[i] == x;
      if !Starts(x) {
        assert NextStart(t, i) == NextStart(t, i + 1);
      }
    } else if !Starts(xs[i]) {
      NextStartSnoc(xs, x, i + 1);
    }
  }

  /** The two defining cases of `Chunks` on a non-empty list. */
  lemma ChunksStep(xs: seq<Line>)
    requires xs != []
    ensures Starts(xs[0]) ==>
      Chunks(xs) == [xs[..NextStart(xs, 1)]] + Chunks(xs[NextStart(xs, 1)..])
    ensures !Starts(xs[0]) ==> Chunks(xs) == Chunks(xs[1..])
  {
  }

  /** A start followed by lines that are no start makes a single run. */
  lemma OneChunk(c: seq<Line>)
    requires c != [] && Starts(c[0]) && forall j :: 1 <= j < |c| ==> !Starts(c[j])
    ensures Chunks(c) == [c]
  {
    ChunksStep(c);
    assert NextStart(c, 1) == |c|;
    assert c[..|c|] == c;
    assert c[|c|..] == [];
  }

  /** A single run followed by a start makes two runs. */
  lemma TwoChunks(c: seq<Line>, x: Line)
    requires c != [] && Starts(c[0]) && forall j :: 1 <= j < |c| ==> !Starts(c[j])
    requires Starts(x)
    ensures Chunks(c + [x]) == [c, [x]]
  {
    var t := c + [x];
    NextStartSnoc(c, x, 1);
    assert NextStart(c, 1) == |c|;
    ChunksStep(t);
    assert t[..|c|] == c;
    assert t[|c|..] == [x];
    OneChunk([x]);
  }

  /** A line added after a complete run goes to the runs that follow it. */
  lemma SnocChunkAfter(c: seq<Line>, g: seq<seq<Line>>, x: Line)
    requires g != []
    ensures SnocChunk([c] + g, x) == [c] + SnocChunk(g, x)
  {
    if !Starts(x) {
      assert ([c] + g)[..|[c] + g| - 1] == [c] + g[..|g| - 1];
      assert ([c] + g)[|[c] + g| - 1] == g[|g| - 1];
    }
  }

  /** Cutting one line more into runs is one more step of the grouping loop. */
  lemma {:induction false} ChunksSnoc(xs: seq<Line>, x: Line)
    ensures Chunks(xs + [x]) == SnocChunk(Chunks(xs), x)
    decreases |xs|
  {
    var t := xs + [x];
    if xs == [] {
      assert t == [x];
      if Starts(x) {
        OneChunk([x]);
      } else {
        ChunksStep(t);
        assert t[1..] == [];
      }
    } else if !Starts(xs[0]) {
      ChunksStep(t);
      ChunksStep(xs);
      assert t[0] == xs[0];
      assert t[1..] == xs[1..] + [x];
      ChunksSnoc(xs[1..], x);
    } else {
      var n := NextStart(xs, 1);
      if n < |xs| {
        ChunksSnocInner(xs, x, n);
      } else {
        ChunksSnocLast(xs, x);
      }
    }
  }

  /** `ChunksSnoc` when the first run of `xs` is followed by another start. */
  lemma {:induction false} ChunksSnocInner(xs: seq<Line>, x: Line, n: nat)
    requires xs != [] && Starts(xs[0]) && n == NextStart(xs, 1) && n < |xs|
    ensures Chunks(xs + [x]) == SnocChunk(Chunks(xs), x)
    decreases |xs|, 0
  {
    var t := xs + [x];
    NextStartSnoc(xs, x, 1);
    assert t[0] == xs[0] && NextStart(t, 1) == n;
    assert t[..n] == xs[..n];
    assert t[n..] == xs[n..] + [x];
    ChunksStep(t);
    ChunksStep(xs);
    ChunksSnoc(xs[n..], x);
    ChunksStep(xs[n..]);
    SnocChunkAfter(xs[..n], Chunks(xs[n..]), x);
  }

  /** `ChunksSnoc` when `xs` is a single run. */
  lemma ChunksSnocLast(xs: seq<Line>, x: Line)
    requires xs != [] && Starts(xs[0]) && NextStart(xs, 1) == |xs|
    ensures Chunks(xs + [x]) == SnocChunk(Chunks(xs), x)
  {
    OneChunk(xs);
    if Starts(x) {
      TwoChunks(xs, x);
    } else {
      var t := xs + [x];
      assert forall j :: 1 <= j < |t| ==> !Starts(t[j]) by {
        assert forall j :: 1 <= j < |xs| ==> t[j] == xs[j];
      }
      OneChunk(t);
    }
  }

  /** The block of a run grows with the run as app.js:150 grows it. */
  lemma BlockOfSnoc(c: seq<Line>, x: Line)
    requires c != []
    ensures BlockOf(c + [x]) == AddLine(BlockOf(c), x.text)
  {
    assert (c + [x])[0] == c[0];
    assert (c + [x])[1..] == c[1..] + [x];
    assert Texts(c[1..] + [x]) == Texts(c[1..]) + [x.text];
  }

  lemma BlockOfStart(x: Line)
    ensures BlockOf([x]) == Open(x)
  {
    assert Texts([x][1..]) == [];
  }

  /** Grouping one line more is one more iteration of the loop of app.js:144-152. */
  lemma SegmentSnoc(xs: seq<Line>, x: Line)
    ensures Segment(xs + [x]) == Snoc(Segment(xs), x)
  {
    ChunksSnoc(xs, x);
    var cs := Chunks(xs);
    if Starts(x) {
      BlockOfStart(x);
      BlocksOfSnoc(cs, [x]);
    } else if cs != [] {
      var init, last := cs[..|cs| - 1], cs[|cs| - 1];
      BlockOfSnoc(last, x);
      BlocksOfSnoc(init, last + [x]);
      BlocksOfSnoc(init, last);
      assert cs == init + [last];
    }
  }

  lemma BlocksOfSnoc(cs: seq<seq<Line>>, c: seq<Line>)
    requires c != [] && forall k :: 0 <= k < |cs| ==> cs[k] != []
    ensures BlocksOf(cs + [c]) == BlocksOf(cs) + [BlockOf(c)]
  {
    assert forall k :: 0 <= k < |cs| ==> (cs + [c])[k] == cs[k];
  }

  lemma BlocksOfCons(c: seq<Line>, cs: seq<seq<Line>>)
    requires c != [] && forall k :: 0 <= k < |cs| ==> cs[k] != []
    ensures BlocksOf([c] + cs) == [BlockOf(c)] + BlocksOf(cs)
  {
    assert forall k :: 1 <= k < |cs| + 1 ==> ([c] + cs)[k] == cs[k - 1];
  }

  // ---------- What grouping guarantees ----------

  function Concat(cs: seq<seq<Line>>): seq<Line> {
    if cs == [] then [] else cs[0] + Concat(cs[1..])
  }

  /** The lines from the first start on; none when there is no start. */
  function FromFirstStart(xs: seq<Line>): seq<Line> {
    var i := FirstStart(xs);
    if i < 0 then [] else xs[i..]
  }

  /** Grouping loses no line and repeats none: one run after the other, the runs
      give back exactly the lines from the first start on, in order
      (app.js:141-153). */
  lemma {:induction false} ChunksPartition(xs: seq<Line>)
    ensures Concat(Chunks(xs)) == FromFirstStart(xs)
    decreases |xs|
  {
    if xs != [] {
      ChunksStep(xs);
      if !Starts(xs[0]) {
        ChunksPartition(xs[1..]);
        FromFirstStartSkip(xs);
      } else {
        var n := NextStart(xs, 1);
        ChunksPartition(xs[n..]);
        var g := Chunks(xs[n..]);
        assert ([xs[..n]] + g)[1..] == g;
        assert FromFirstStart(xs[n..]) == xs[n..] by {
          if n == |xs| {
            assert xs[n..] == [];
          }
        }
        assert xs == xs[..n] + xs[n..];
      }
    }
  }

  lemma FromFirstStartSkip(xs: seq<Line>)
    requires xs != [] && !Starts(xs[0])
    ensures FromFirstStart(xs) == FromFirstStart(xs[1..])
  {
    var i := FirstStart(xs[1..]);
    if i >= 0 {
      assert xs[i + 1..] == xs[1..][i..];
    }
  }

  /** There is a block exactly when there is a start line. */
  lemma {:induction false} SegmentEmpty(xs: seq<Line>)
    ensures Segment(xs) == [] <==> forall j :: 0 <= j < |xs| ==> !Starts(xs[j])
    decreases |xs|
  {
    if xs != [] {
      ChunksStep(xs);
      if !Starts(xs[0]) {
        SegmentEmpty(xs[1..]);
        assert forall j :: 1 <= j < |xs| ==> xs[j] == xs[1..][j - 1];
      }
    }
  }

  /** Every line of every run is one of the lines grouped. */
  lemma {:induction false} ChunkLineIn(xs: seq<Line>, k: nat, j: nat)
    requires k < |Chunks(xs)| && j < |Chunks(xs)[k]|
    ensures Chunks(xs)[k][j] in xs
    decreases |xs|
  {
    ChunksStep(xs);
    if !Starts(xs[0]) {
      ChunkLineIn(xs[1..], k, j);
    } else {
      var n := NextStart(xs, 1);
      if k == 0 {
        assert Chunks(xs)[0] == xs[..n];
      } else {
        assert Chunks(xs)[k] == Chunks(xs[n..])[k - 1];
        ChunkLineIn(xs[n..], k - 1, j);
      }
    }
  }

  /** How many lines open a block. */
  function CountStarts(xs: seq<Line>): nat {
    if xs == [] then 0 else (if Starts(xs[0]) then 1 else 0) + CountStarts(xs[1..])
  }

  /** One block per start line, however the other lines fall (app.js:145-153). */
  lemma {:induction false} SegmentCount(xs: seq<Line>)
    ensures |Segment(xs)| == CountStarts(xs)
    decreases |xs|
  {
    if xs != [] {
      ChunksStep(xs);
      if !Starts(xs[0]) {
        SegmentCount(xs[1..]);
      } else {
        var n := NextStart(xs, 1);
        SegmentCount(xs[n..]);
        NoStartsCount(xs[1..], n - 1);
        assert xs[1..][n - 1..] == xs[n..];
      }
    }
  }

  lemma {:induction false} NoStartsCount(xs: seq<Line>, n: nat)
    requires n <= |xs| && forall j :: 0 <= j < n ==> !Starts(xs[j])
    ensures CountStarts(xs) == CountStarts(xs[n..])
    decreases n
  {
    if n > 0 {
      assert forall j :: 0 <= j < n - 1 ==> xs[1..][j] == xs[j + 1];
      NoStartsCount(xs[1..], n - 1);
      assert xs[1..][n - 1..] == xs[n..];
    }
  }

  /** Dropping the preamble changes nothing about the blocks (app.js:136-138). */
  lemma PreambleIgnored(ls: seq<string>)
    ensures Segment(ClassifyAll(DropPreamble(ls))) == Segment(ClassifyAll(ls))
  {
    var xs := ClassifyAll(ls);
    var i := FirstStart(xs);
    if i > 0 {
      assert DropPreamble(ls) == ls[i..];
      ClassifySuffix(ls, i);
      ChunksSkip(xs, i);
    }
  }

  lemma ClassifySuffix(ls: seq<string>, i: nat)
    requires i <= |ls|
    ensures ClassifyAll(ls[i..]) == ClassifyAll(ls)[i..]
  {
  }

  lemma {:induction false} ChunksSkip(xs: seq<Line>, i: nat)
    requires i <= |xs| && forall j :: 0 <= j < i ==> !Starts(xs[j])
    ensures Chunks(xs[i..]) == Chunks(xs)
    decreases i
  {
    if i > 0 {
      ChunksStep(xs);
      assert forall j :: 0 <= j < i - 1 ==> xs[1..][j] == xs[j + 1];
      ChunksSkip(xs[1..], i - 1);
      assert xs[1..][i - 1..] == xs[i..];
    }
  }

  // ---------- The rescue pass ----------

  predicate Increasing(xs: seq<nat>) {
    forall a, b :: 0 <= a < b < |xs| ==> xs[a] < xs[b]
  }

  predicate ValidIndices(body: seq<string>, idxs: seq<nat>) {
    Increasing(idxs) && forall k :: 0 <= k < |idxs| ==> idxs[k] < |body|
  }

  /** The positions of the `Name:` lines of `body` from position `i` on
      (app.js:160-163). */
  function NameIndicesFrom(body: seq<string>, i: nat): (r: seq<nat>)
    requires i <= |body|
    ensures Increasing(r)
    ensures forall k :: 0 <= k < |r| ==> i <= r[k] < |body|
    decreases |body| - i
  {
    if i == |body| then []
    else
      var rest := NameIndicesFrom(body, i + 1);
      if IsNameLine(body[i]) then
        assert forall k :: 1 <= k < |[i] + rest| ==> ([i] + rest)[k] == rest[k - 1];
        [i] + rest
      else rest
  }

  function NameIndices(body: seq<string>): (r: seq<nat>)
    ensures ValidIndices(body, r)
  {
    NameIndicesFrom(body, 0)
  }

  /** The positions found are those, and only those, of the lines that
      `/^Name\s*:/i` accepts. */
  lemma {:induction false} NameIndicesFromExact(body: seq<string>, i: nat)
    requires i <= |body|
    ensures forall j :: j in NameIndicesFrom(body, i) <==> i <= j < |body| && IsNameLine(body[j])
    decreases |body| - i
  {
    if i < |body| {
      NameIndicesFromExact(body, i + 1);
    }
  }

  /** A position is listed exactly when the body line there is a `Name:` line. */
  lemma NameIndicesExact(body: seq<string>)
    ensures forall j :: j in NameIndices(body) <==> 0 <= j < |body| && IsNameLine(body[j])
  {
    NameIndicesFromExact(body, 0);
  }

  /** Where the `k`-th slice ends: at the next `Name:` line, or at the end (app.js:168). */
  function SliceEnd(body: seq<string>, idxs: seq<nat>, k: nat): nat
    requires k < |idxs|
  {
    if k + 1 < |idxs| then idxs[k + 1] else |body|
  }

  /** The slices from the `k`-th on, each a block headed `Name:` (app.js:166-171). */
  function SlicesFrom(body: seq<string>, idxs: seq<nat>, k: nat): seq<Block>
    requires ValidIndices(body, idxs)
    decreases |idxs| - k
  {
    if k >= |idxs| then []
    else [Block(NameHeading, body[idxs[k]..SliceEnd(body, idxs, k)])] + SlicesFrom(body, idxs, k + 1)
  }

  /** app.js:160-174 for one block: split at its `Name:` lines when it has more
      than one, else keep it. */
  function RescueBlock(b: Block): seq<Block> {
    var idxs := NameIndices(b.body);
    if |idxs| > 1 then SlicesFrom(b.body, idxs, 0) else [b]
  }

  function RescueAll(bs: seq<Block>): seq<Block> {
    if bs == [] then [] else RescueBlock(bs[0]) + RescueAll(bs[1..])
  }

  /** app.js:157-176: the rescue loop over the blocks. */
  method RescueSplit(blocks: seq<Block>) returns (rescued: seq<Block>)
    ensures rescued == RescueAll(blocks)
  {
    rescued := [];
    for i := 0 to |blocks|
      invariant rescued + RescueAll(blocks[i..]) == RescueAll(blocks)
    {
      var b := blocks[i];
      var idxs := NameIndices(b.body);
      var pieces;
      if |idxs| > 1 {
        pieces := SliceAtNames(b.body, idxs);
      } else {
        pieces := [b];
      }
      RescueAllStep(blocks, i);
      AppendAssoc(rescued, pieces, RescueAll(blocks[i + 1..]));
      rescued := rescued + pieces;
    }
  }

  /** app.js:165-171: the slices of one block, each from a `Name:` line up to
      the next. */
  method SliceAtNames(body: seq<string>, idxs: seq<nat>) returns (slices: seq<Block>)
    requires ValidIndices(body, idxs)
    ensures slices == SlicesFrom(body, idxs, 0)
  {
    slices := [];
    for k := 0 to |idxs|
      invariant slices + SlicesFrom(body, idxs, k) == SlicesFrom(body, idxs, 0)
    {
      var start := idxs[k];
      var end := if k + 1 < |idxs| then idxs[k + 1] else |body|;
      SlicesFromStep(body, idxs, k);
      AppendAssoc(slices, [Block(NameHeading, body[start..end])], SlicesFrom(body, idxs, k + 1));
      slices := slices + [Block(NameHeading, body[start..end])];
    }
  }

  lemma AppendAssoc(a: seq<Block>, b: seq<Block>, c: seq<Block>)
    ensures a + (b + c) == (a + b) + c
  {
  }

  /** One more block of the rescue loop. */
  lemma RescueAllStep(bs: seq<Block>, i: nat)
    requires i < |bs|
    ensures RescueAll(bs[i..]) == RescueBlock(bs[i]) + RescueAll(bs[i + 1..])
  {
    assert bs[i..][1..] == bs[i + 1..];
  }

  lemma SlicesFromStep(body: seq<string>, idxs: seq<nat>, k: nat)
    requires ValidIndices(body, idxs) && k < |idxs|
    ensures SlicesFrom(body, idxs, k) ==
      [Block(NameHeading, body[idxs[k]..SliceEnd(body, idxs, k)])] + SlicesFrom(body, idxs, k + 1)
  {
  }

  /** The bodies of a list of blocks, one after the other. */
  function Bodies(bs: seq<Block>): seq<string> {
    if bs == [] then [] else bs[0].body + Bodies(bs[1..])
  }

  /** The slices of a split block are consecutive: together they give back the
      body from its first `Name:` line on, so only the lines before that line
      are lost. */
  lemma {:induction false} SlicesCover(body: seq<string>, idxs: seq<nat>, k: nat)
    requires ValidIndices(body, idxs) && k < |idxs|
    ensures Bodies(SlicesFrom(body, idxs, k)) == body[idxs[k]..]
    decreases |idxs| - k
  {
    var s := Block(NameHeading, body[idxs[k]..SliceEnd(body, idxs, k)]);
    var rest := SlicesFrom(body, idxs, k + 1);
    assert ([s] + rest)[1..] == rest;
    if k + 1 < |idxs| {
      SlicesCover(body, idxs, k + 1);
      assert body[idxs[k]..] == body[idxs[k]..idxs[k + 1]] + body[idxs[k + 1]..];
    } else {
      assert rest == [];
    }
  }

  /** Each slice of a split block opens with a `Name:` line and holds no other. */
  lemma SlicesOneName(body: seq<string>, k: nat)
    requires |NameIndices(body)| > 1 && k < |NameIndices(body)|
    ensures var idxs := NameIndices(body);
      var s := body[idxs[k]..SliceEnd(body, idxs, k)];
      s != [] && IsNameLine(s[0]) && forall j :: 1 <= j < |s| ==> !IsNameLine(s[j])
  {
    var idxs := NameIndices(body);
    NameIndicesExact(body);
    var e := SliceEnd(body, idxs, k);
    var s := body[idxs[k]..e];
    assert idxs[k] in idxs;
    forall j | 1 <= j < |s| ensures !IsNameLine(s[j]) {
      var p := idxs[k] + j;
      assert s[j] == body[p];
      BetweenNotIn(idxs, k, p);
    }
  }

  /** A position strictly between two consecutive indices is none of them. */
  lemma BetweenNotIn(idxs: seq<nat>, k: nat, p: nat)
    requires Increasing(idxs) && k < |idxs| && idxs[k] < p
    requires k + 1 < |idxs| ==> p < idxs[k + 1]
    ensures p !in idxs
  {
    forall m | 0 <= m < |idxs| ensures idxs[m] != p {
      if m <= k {
        assert idxs[m] <= idxs[k];
      } else if m > k + 1 {
        assert idxs[k + 1] < idxs[m];
      }
    }
  }

  /** A body with no `Name:` line after its first line is kept whole. */
  lemma KeptWhole(b: Block)
    requires forall j :: 1 <= j < |b.body| ==> !IsNameLine(b.body[j])
    ensures RescueBlock(b) == [b]
  {
    var idxs := NameIndices(b.body);
    NameIndicesExact(b.body);
    assert forall k :: 0 <= k < |idxs| ==> idxs[k] in idxs;
    assert forall k :: 0 <= k < |idxs| ==> idxs[k] == 0;
  }

  /** Every line whose text is a `Name:` line is tagged as one. */
  predicate NamesTagged(xs: seq<Line>) {
    forall j :: 0 <= j < |xs| ==> IsNameLine(xs[j].text) ==> xs[j].name
  }

  lemma NamesTaggedSlice(xs: seq<Line>, a: nat, b: nat)
    requires a <= b <= |xs| && NamesTagged(xs)
    ensures NamesTagged(xs[a..b])
  {
    assert forall j :: 0 <= j < b - a ==> xs[a..b][j] == xs[a + j];
  }

  /** The block of a run holds no `Name:` line after its first body line, so the
      rescue pass keeps it whole. */
  lemma RunKept(c: seq<Line>)
    requires c != [] && NamesTagged(c) && forall j :: 1 <= j < |c| ==> !Starts(c[j])
    ensures RescueBlock(BlockOf(c)) == [BlockOf(c)]
  {
    var b := BlockOf(c);
    var f := Texts(c[1..]);
    var o := Open(c[0]);
    assert |o.body| <= 1;
    forall j | 1 <= j < |b.body| ensures !IsNameLine(b.body[j]) {
      var i := j - |o.body|;
      assert b.body[j] == f[i] == c[i + 1].text;
    }
    KeptWhole(b);
  }

  /** When every `Name:` line is tagged as opening a block, the rescue pass
      gives the groups back unchanged. */
  lemma {:induction false} RescueKeepsSegment(xs: seq<Line>)
    requires NamesTagged(xs)
    ensures RescueAll(Segment(xs)) == Segment(xs)
    decreases |xs|
  {
    if xs != [] {
      ChunksStep(xs);
      if !Starts(xs[0]) {
        NamesTaggedSlice(xs, 1, |xs|);
        assert xs[1..|xs|] == xs[1..];
        RescueKeepsSegment(xs[1..]);
      } else {
        var n := NextStart(xs, 1);
        var c := xs[..n];
        var g := Segment(xs[n..]);
        NamesTaggedSlice(xs, n, |xs|);
        NamesTaggedSlice(xs, 0, n);
        assert xs[n..|xs|] == xs[n..] && xs[0..n] == c;
        RescueKeepsSegment(xs[n..]);
        RunKept(c);
        BlocksOfCons(c, Chunks(xs[n..]));
        assert ([BlockOf(c)] + g)[1..] == g;
      }
    }
  }

  /** Since a `Name:` line always opens a new block, no grouped block holds two
      of them, and the rescue pass gives back the blocks unchanged (app.js:156-177). */
  lemma RescueIsIdentity(ls: seq<string>)
    ensures RescueAll(Segment(ClassifyAll(ls))) == Segment(ClassifyAll(ls))
  {
    var xs := ClassifyAll(ls);
    forall j | 0 <= j < |xs| && IsNameLine(xs[j].text) ensures xs[j].name {
      NameLineIsNameHead(ls[j]);
    }
    RescueKeepsSegment(xs);
  }
}
