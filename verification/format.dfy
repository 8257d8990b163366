/** `formatOutput` (app.js:109-257): from the raw reply of the model to at most
    three idea cards, each with a title and six labelled sections. The HTML that
    the source builds around each card is left out; a card is its title and its
    sections. */
module Format {
  import opened Text
  import opened Markers
  import opened Cleanup
  import opened Blocks
  import opened Titles
  import opened Sections

  /** One labelled section of a card (app.js:243-246). */
  datatype Section = Section(title: string, content: Content)

  /** One idea card (app.js:248-253): its title and its sections. */
  datatype Card = Card(title: string, sections: seq<Section>)

  /** No more than three cards are shown (app.js:185). */
  const MaxCards := 3

  /** The heading of the single block made of the whole text when no block was
      found (app.js:181). */
  const FallbackHeading: string := "Project Idea 1:"

  // ---------- The blocks shown ----------

  /** app.js:134-182: the idea blocks, before the cut to three. The preamble is
      dropped, the lines are grouped, the rescue pass runs when there are fewer
      than three blocks, and a text without any block becomes one block. */
  function IdeaBlocks(raw: string): seq<Block> {
    var lines := DropPreamble(NormalizedLines(raw));
    WithFallback(Rescued(Segment(ClassifyAll(lines))), lines)
  }

  /** app.js:156: the rescue pass runs only when there are fewer than three blocks. */
  function Rescued(grouped: seq<Block>): seq<Block> {
    if |grouped| < 3 then RescueAll(grouped) else grouped
  }

  /** app.js:180-182: without any block, the whole text is one block. */
  function WithFallback(blocks: seq<Block>, lines: seq<string>): seq<Block> {
    if blocks == [] && lines != [] then [Block(FallbackHeading, lines)] else blocks
  }

  // ---------- Rendering ----------

  /** app.js:205: the heading and the body of a block, one per line, trimmed. */
  function IdeaText(b: Block): string {
    Trim(Join([b.heading] + b.body))
  }

  /** A card as every card is shown: a title that is not empty and one section
      per label, in the order of the labels. */
  predicate WellFormed(c: Card) {
    && c.title != [] && |c.sections| == |Labels|
    && forall j :: 0 <= j < |Labels| ==> c.sections[j].title == Labels[j]
  }

  /** app.js:204-254: the card of the block at position `idx`. */
  function RenderCard(b: Block, idx: nat): (c: Card)
    ensures WellFormed(c)
  {
    var text := IdeaText(b);
    Card(DisplayTitle(b, idx),
      seq(|Labels|, j requires 0 <= j < |Labels| => Section(Labels[j], ExtractSection(Labels[j], text))))
  }

  /** `kept.map((blk, idx) => ...)` (app.js:204). */
  function RenderCards(bs: seq<Block>): (cs: seq<Card>)
    ensures |cs| == |bs| && forall k :: 0 <= k < |bs| ==> cs[k] == RenderCard(bs[k], k)
  {
    seq(|bs|, k requires 0 <= k < |bs| => RenderCard(bs[k], k))
  }

  /** The cards shown for a reply: at most three, each titled, each with the six
      sections in the order of the labels. */
  function Cards(raw: string): (cs: seq<Card>)
    ensures |cs| <= MaxCards
    ensures forall k :: 0 <= k < |cs| ==> WellFormed(cs[k])
  {
    CardsOf(IdeaBlocks(raw))
  }

  /** The cards of the first three blocks. */
  function CardsOf(bs: seq<Block>): (cs: seq<Card>)
    ensures |cs| == Min(MaxCards, |bs|)
    ensures forall k :: 0 <= k < |cs| ==> WellFormed(cs[k])
  {
    RenderCards(Kept(bs))
  }

  /** app.js:185, `blocks.slice(0, 3)`. */
  function Kept(bs: seq<Block>): (r: seq<Block>)
    ensures |r| == Min(MaxCards, |bs|) && r == bs[..|r|]
  {
    bs[..Min(MaxCards, |bs|)]
  }

  /** app.js:109-257, step by step as the source goes. */
  method FormatOutput(raw: string) returns (cards: seq<Card>)
    ensures cards == Cards(raw)
  {
    var lines := NormalizedLines(raw);
    lines := DropPreamble(lines);
    var blocks := BuildBlocks(lines);
    var kept := blocks[..Min(MaxCards, |blocks|)];
    cards := RenderCards(kept);
  }

  /** app.js:141-182: grouping, the rescue pass when there are fewer than three
      blocks, and the whole text as one block when there is still none. */
  method BuildBlocks(lines: seq<string>) returns (blocks: seq<Block>)
    ensures blocks == WithFallback(Rescued(Segment(ClassifyAll(lines))), lines)
  {
    blocks := GroupBlocks(lines);
    if |blocks| < 3 {
      blocks := RescueSplit(blocks);
    }
    if |blocks| == 0 && |lines| > 0 {
      blocks := [Block(FallbackHeading, lines)];
    }
  }

  // ---------- Facts about the cards ----------

  /** Neither the preamble drop nor the rescue pass changes the blocks: they are
      the groups of all the normalised lines, or the whole text as one block
      when no line opens a group. */
  lemma IdeaBlocksAreGroups(raw: string)
    ensures var ls := NormalizedLines(raw);
      var g := Segment(ClassifyAll(ls));
      IdeaBlocks(raw) == if g == [] && ls != [] then [Block(FallbackHeading, ls)] else g
  {
    var ls := NormalizedLines(raw);
    var d := DropPreamble(ls);
    var g := Segment(ClassifyAll(ls));
    PreambleIgnored(ls);
    PreambleDropped(ls);
    RescueIsIdentity(d);
    SegmentEmpty(ClassifyAll(ls));
  }

  /** One card per line that opens a group, up to three; a single card when the
      text has lines but none opens a group; none for an empty text. */
  lemma CardCount(raw: string)
    ensures var ls := NormalizedLines(raw);
      var n := CountStarts(ClassifyAll(ls));
      |Cards(raw)| == if ls == [] then 0 else if n == 0 then 1 else Min(MaxCards, n)
  {
    var ls := NormalizedLines(raw);
    IdeaBlocksAreGroups(raw);
    SegmentCount(ClassifyAll(ls));
  }

  /** No card is shown exactly when the normalised reply has no line. */
  lemma NoCardsIffEmpty(raw: string)
    ensures Cards(raw) == [] <==> NormalizedLines(raw) == []
  {
    CardCount(raw);
  }

  /** Every line that opens a group by its `Name:` marker is the bare marker,
      and so no idea heading. */
  predicate NamesBare(xs: seq<Line>) {
    forall j :: 0 <= j < |xs| && xs[j].name ==> xs[j].text == NameHeading && !xs[j].idea
  }

  /** When every `Name:` line is tagged and bare, a group opened by a `Name:` line
      has that bare line as its first and only `Name:` line, and any other group
      has none. */
  lemma GroupNameLines(xs: seq<Line>, k: nat)
    requires NamesTagged(xs) && NamesBare(xs)
    requires k < |Segment(xs)|
    ensures var b := Segment(xs)[k];
      FirstNameLine(b.body) == if b.heading == NameHeading then Some(NameHeading) else None
  {
    var c := Chunks(xs)[k];
    assert Segment(xs)[k] == BlockOf(c);
    var rest := Texts(c[1..]);
    RunRestNoName(xs, k);
    RunHead(xs, k);
    if c[0].name {
      assert BlockOf(c) == Block(NameHeading, [NameHeading] + rest);
      BareFirst(rest);
    } else {
      assert BlockOf(c) == Block(c[0].text, rest);
    }
  }

  /** The lines after the first of a run hold no `Name:` line. */
  lemma RunRestNoName(xs: seq<Line>, k: nat)
    requires NamesTagged(xs) && k < |Chunks(xs)|
    ensures FirstNameLine(Texts(Chunks(xs)[k][1..])) == None
  {
    var c := Chunks(xs)[k];
    var rest := Texts(c[1..]);
    forall j | 0 <= j < |rest| ensures !IsNameLine(rest[j]) {
      ChunkLineIn(xs, k, j + 1);
      var i :| 0 <= i < |xs| && xs[i] == c[j + 1];
    }
  }

  /** The first line of a run is the bare marker when it is a `Name:` line, and
      otherwise an idea heading that is not `Name:`. */
  lemma RunHead(xs: seq<Line>, k: nat)
    requires NamesTagged(xs) && NamesBare(xs) && k < |Chunks(xs)|
    ensures var x := Chunks(xs)[k][0];
      (x.name ==> x.text == NameHeading && !x.idea) && (!x.name ==> x.text != NameHeading)
  {
    ChunkLineIn(xs, k, 0);
    var x := Chunks(xs)[k][0];
    var i :| 0 <= i < |xs| && xs[i] == x;
    BareMarker();
  }

  lemma BareFirst(rest: seq<string>)
    ensures FirstNameLine([NameHeading] + rest) == Some(NameHeading)
  {
    BareMarker();
    assert ([NameHeading] + rest)[0] == NameHeading;
  }

  /** The lines of a reply after normalisation: their `Name:` lines are tagged as
      such and are bare markers. */
  lemma NormalizedNames(raw: string)
    ensures var xs := ClassifyAll(NormalizedLines(raw));
      NamesTagged(xs) && NamesBare(xs)
  {
    var ls := NormalizedLines(raw);
    NamesOnTheirOwnLine(raw);
    BareMarker();
    forall i | 0 <= i < |ls| && IsNameLine(ls[i]) ensures IsNameHead(ls[i]) {
      NameLineIsNameHead(ls[i]);
    }
  }

  /** A block that the pipeline shows holds a `Name:` line only when it was opened
      by one, and then that line is the bare marker. */
  lemma BlockNameLines(raw: string, k: nat)
    requires k < |IdeaBlocks(raw)|
    ensures var b := IdeaBlocks(raw)[k];
      FirstNameLine(b.body) == if b.heading == NameHeading then Some(NameHeading) else None
  {
    var ls := NormalizedLines(raw);
    var xs := ClassifyAll(ls);
    IdeaBlocksAreGroups(raw);
    NormalizedNames(raw);
    if Segment(xs) == [] && ls != [] {
      FallbackNoName(ls);
      assert |FallbackHeading| != |NameHeading|;
    } else {
      GroupNameLines(xs, k);
    }
  }

  /** Without any group, no line is a `Name:` line. */
  lemma FallbackNoName(ls: seq<string>)
    requires Segment(ClassifyAll(ls)) == [] && NamesTagged(ClassifyAll(ls))
    ensures FirstNameLine(ls) == None
  {
    var xs := ClassifyAll(ls);
    SegmentEmpty(xs);
    assert forall i :: 0 <= i < |ls| ==> xs[i].text == ls[i] && !xs[i].name;
  }

  /** The explicit-name tier of the title (app.js:208-212) never gives a name:
      the only `Name:` line a shown block holds is the bare marker. */
  lemma ExplicitNameUnused(raw: string, k: nat)
    requires k < |IdeaBlocks(raw)|
    ensures ExplicitName(IdeaBlocks(raw)[k].body) == []
  {
    BlockNameLines(raw, k);
    BareMarkerNamesNothing();
  }

  /** A card whose block was opened by a `Name:` line is titled `Name:`. */
  lemma NameCardTitle(raw: string, k: nat)
    requires k < |Cards(raw)| && IdeaBlocks(raw)[k].heading == NameHeading
    ensures Cards(raw)[k].title == NameHeading
  {
    BlockNameLines(raw, k);
    CardOf(raw, k);
    NameBlockTitle(IdeaBlocks(raw)[k], k);
  }

  /** Every section of every card is N/A or holds a single item (app.js:228-240). */
  lemma SectionsSingleItem(raw: string, k: nat, j: nat)
    requires k < |Cards(raw)| && j < |Labels|
    ensures var c := Cards(raw)[k].sections[j].content;
      c.NA? || |c.items| == 1
  {
    var b := IdeaBlocks(raw)[k];
    CardOf(raw, k);
    SectionOfCard(b, k, j);
    SectionOneLine(Labels[j], IdeaText(b));
  }

  /** Section `j` of a card holds what the pattern of label `j` extracts from
      the idea text. */
  lemma SectionOfCard(b: Block, idx: nat, j: nat)
    requires j < |Labels|
    ensures RenderCard(b, idx).sections[j].content == ExtractSection(Labels[j], IdeaText(b))
  {
  }

  /** The card at position `k` is the card of the block at position `k`. */
  lemma CardOf(raw: string, k: nat)
    requires k < |Cards(raw)|
    ensures k < |IdeaBlocks(raw)| && Cards(raw)[k] == RenderCard(IdeaBlocks(raw)[k], k)
  {
    var bs := IdeaBlocks(raw);
    assert Cards(raw) == RenderCards(Kept(bs));
  }
}
