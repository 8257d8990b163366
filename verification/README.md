# Idea-card formatter, modelled in Dafny

The web page of this project sends a prompt to a language model and shows the
reply as at most three "idea cards". `formatOutput` (app.js:109-257) turns the
free text of the reply into those cards, in these steps:

1. **Normalisation** (app.js:111-127). Carriage returns and asterisks are deleted.
   Pipes become spaces. Runs of three or more dashes are removed, and the text is
   trimmed. Newlines are then forced around every idea heading (`Idea 3 -`) and
   around every `Name:` marker. In `Project Idea 2:` the newline lands inside
   the heading, between `Project` and `Idea 2:` (see below).
2. **Lines and preamble** (app.js:134-138). The text is cut into trimmed,
   non-empty lines. Everything before the first line that opens a block is dropped.
   A line opens a block when it is an idea heading, a numbered item or a `Name:`
   line.
3. **Grouping** (app.js:141-153). Each opening line starts a new block. The other
   lines join the open block.
4. **Rescue pass** (app.js:156-177). When there are fewer than three blocks, a
   block that holds several `Name:` lines is split at each of them.
5. **Fallback and cut** (app.js:180-185). A text without any block becomes one
   block headed `Project Idea 1:`. Only the first three blocks are kept.
6. **Rendering** (app.js:204-254). Each block becomes a card with two parts:
   - A title, from the first of four tiers that gives one: the explicit `Name:`
     value, the heading without its ordinal, the first plain body line, or a
     numbered placeholder.
   - Six sections, in a fixed order. Each section is found with a regular
     expression built from its label.

The model follows the code. Each regular expression is written out as a scanning
function that follows JavaScript's rules:
- leftmost match;
- greedy and lazy quantifiers;
- `^` and `$` under the `m` flag;
- ASCII case folding under the `i` flag;
- the exact `\s` class;
- global replacement, including the empty match that follows a non-empty one.

Modules:
- `Text`: character classes, `trim`, splitting into lines.
- `Markers`: the heading, numbered-item and `Name:` patterns.
- `Cleanup`: normalisation.
- `Blocks`: preamble, grouping and the rescue pass.
- `Titles`: the card title.
- `Sections`: section patterns and their content.
- `Format`: the whole pipeline and the facts about the cards it produces.

Grouping and the rescue pass are methods with loops (`Blocks.GroupBlocks`,
`Blocks.RescueSplit`, `Blocks.SliceAtNames`). Each is proved equal to a
function that specifies it. `Format.FormatOutput` runs the steps one after the
other, as the source does, and is proved equal to `Format.Cards`. The other
steps are pure functions. The pattern matchers work on positions of the string
they are given, and each is proved to give the longest match of its pattern
(`Markers.HeadLenMatch`, `Markers.NumberedLenMatch`, `Markers.MarkerLenMatch`).

### What the code does, as written

Following the code exactly gives several results that its comments
(app.js:121-127) do not lead one to expect. The lemma named with each result
proves it; where a step follows from a definition alone, the text says so:

- **`Project Idea 1:` is split.** app.js:124 puts a newline before the `Idea 1:`
  inside `Project Idea 1:` (`Markers.InnerHead`, `Cleanup.ProjectIdeaSplit`), so
  `Project` ends up on a line of its own once app.js:134 splits the text. That
  line is either preamble or the last body line of the previous block. The
  model proves the line break; it does not prove that the later passes and the
  split then give `Project` as a line of its own.
- **The explicit name is never used.** app.js:127 leaves `Name:` alone on its
  line, and its value moves to the next line. So the explicit-name title tier
  always gives nothing (`Format.ExplicitNameUnused`), and a block opened by a
  `Name:` line is titled `Name:` (`Format.NameCardTitle`).
- **The rescue pass never splits anything.** A `Name:` line always opens a new
  block, so no block holds two of them (`Blocks.RescueIsIdentity`,
  `Format.IdeaBlocksAreGroups`).
- **A section holds at most one line.** Under the `m` flag, `$` holds before
  every newline, and the other stop alternatives all begin with a newline
  (`Sections.CaptureEndIsLineEnd`, `Format.SectionsSingleItem`). When nothing
  follows the label on its line, the greedy `\s*` crosses the newline and the
  next line is captured.
- **Numbered items are found anywhere in a line.** The numbered-item alternative
  of `ideaHeadRE` (app.js:130) has no `^`, so any line containing `2. ` opens a
  block (`Markers.IdeaHeadMeaning`, `Markers.ContainsNumberedAt`).
- **Untitled blocks.** The placeholder is `Project Idea k` (app.js:250). An Idea
  block without any body text is titled `Project Idea` (`Titles.NoTextTitle`).
  There are no label aliases and no keyword-based fallback for sections: a
  missing label gives N/A (`Sections.MissingSection`).

## Model

| member | source | states |
|---|---|---|
| `Text.WsRun` | app.js:124 | the run of JavaScript whitespace that begins a string: every character counted is `\s` and the next one is not |
| `Text.Trim` | app.js:119 | `trim` gives a trimmed slice of the input that starts after the leading whitespace and leaves only whitespace behind; it is empty exactly when the input is blank |
| `Text.TrimOfTrimmed` | app.js:134 | trimming a trimmed string changes nothing |
| `Text.NonBlank` | app.js:134 | `.map(trim).filter(Boolean)` keeps every piece that is not blank, trimmed, and only non-empty trimmed lines; a single piece gives itself trimmed, or nothing when blank |
| `Text.NonBlankAppend` | app.js:134 | the filter goes piece by piece: filtering two runs of pieces one after the other is filtering each, in order (with the single-piece case of `NonBlank` this settles every result) |
| `Text.SplitLinesJoin` | app.js:134 | `split("\n")` loses nothing: joining its pieces with newlines gives the text back |
| `Text.LinesChars` | app.js:134 | no line of the split holds a newline, and every character of every line comes from the text |
| `Text.LinesOfOneLine` | app.js:235 | a text without a newline splits into nothing when blank, else into itself trimmed |
| `Text.DecimalString` | app.js:250 | the decimal form of a number is non-empty, all digits, without a leading zero, and denotes the number |
| `Markers.HeadLenMatch` | app.js:130 | the heading matcher gives the longest match at the start of a string of `Project\s*Idea` or `Idea`, then `\s*\d+\s*[:\-.)]?` (flag `i`), and 0 exactly when there is none |
| `Markers.NumberedLenMatch` | app.js:130 | the numbered-item matcher gives the longest match of `\d+\s*[.)]\s+` at the start of a string, and 0 exactly when there is none |
| `Markers.MarkerLenMatch` | app.js:131 | the `Name\s*:` matcher gives the one match at the start of a string, and 0 exactly when there is none |
| `Markers.ContainsNumberedAt` | app.js:130 | the unanchored alternative holds exactly when a numbered item starts at some position of the line |
| `Markers.IdeaHeadMeaning` | app.js:130 | `ideaHeadRE` accepts a line exactly when the heading pattern matches at its start or a numbered item matches anywhere in it |
| `Markers.NameHeadMeaning` | app.js:131 | `nameHeadRE` accepts a line exactly when `Name\s*:` matches after some leading whitespace |
| `Markers.InnerHead` | app.js:124 | the `Idea n` inside a `Project Idea n` heading, after the whitespace that follows `Project`, is a heading of its own |
| `Markers.NameLineIsNameHead` | app.js:131 | a line that the unpadded `/^Name\s*:/i` accepts is also accepted by `nameHeadRE` |
| `Markers.NoDigitNoNumbered` | app.js:130 | a line without a digit contains no numbered item |
| `Markers.BareMarker` | app.js:127 | the bare `Name:` line opens a block as a `Name:` line and is no idea heading |
| `Markers.MarkerPrefix` | app.js:131 | a `Name:` match at the start of a string keeps its length however the string goes on |
| `Cleanup.DenoiseClean` | app.js:114-117 | the result holds no carriage return, asterisk or pipe; text without them comes through unchanged; a pipe becomes one space and a carriage return or an asterisk goes (with `DenoiseAppend` this settles every result) |
| `Cleanup.DenoiseAppend` | app.js:114-117 | the character-level deletions and replacements distribute over concatenation |
| `Cleanup.StripRules` | app.js:118 | no three dashes are left in a row, a run of fewer than three dashes at the start is kept, and the characters other than dashes are those of the input, in order |
| `Cleanup.StripRulesClean` | app.js:118 | removing dashes brings in no noise, and text without three dashes in a row is unchanged |
| `Cleanup.ProjectIdeaSplit` | app.js:124 | at a `Project Idea n` heading, one line break goes before `Project`, which is kept as written, and another before its `Idea n`, in place of any whitespace between the two words |
| `Cleanup.BreakInert` | app.js:124 | characters that are neither whitespace nor able to begin a heading are copied as they stand |
| `Cleanup.BreakBeforeHeadsClean` | app.js:124 | the line breaks before idea headings bring in no noise |
| `Cleanup.BreakBeforeHeadsKeepsText` | app.js:124 | the line breaks before idea headings only trade whitespace for newlines: the visible text is unchanged |
| `Cleanup.IsolateHeadsClean` | app.js:125 | the newlines around idea headings bring in no noise |
| `Cleanup.IsolateHeadsKeepsText` | app.js:125 | the newlines around idea headings leave the visible text unchanged |
| `Cleanup.BreakBeforeNamesClean` | app.js:126 | the line breaks before `Name:` markers bring in no noise |
| `Cleanup.BreakBeforeNamesKeepsText` | app.js:126 | the line breaks before `Name:` markers leave the visible text unchanged |
| `Cleanup.IsolateNamesClean` | app.js:127 | replacing each marker by a bare `Name:` line brings in no noise |
| `Cleanup.NormalizedClean` | app.js:111-134 | the normalised text holds no noise, and every line passed on is non-empty, trimmed and free of noise |
| `Cleanup.NamesOnTheirOwnLine` | app.js:127 | after normalisation, every line that `nameHeadRE` accepts is exactly `Name:` |
| `Blocks.FirstStart` | app.js:135 | `findIndex` gives the first line that opens a block, or -1 when no line does |
| `Blocks.DropPreamble` | app.js:136-138 | the lines kept are a suffix of the lines |
| `Blocks.PreambleDropped` | app.js:135-138 | only lines that open no block are dropped; what is kept begins with an opening line when there is one; without one nothing is dropped |
| `Blocks.PreambleIgnored` | app.js:135-138 | dropping the preamble does not change the blocks |
| `Blocks.Chunks` | app.js:141-153 | every run of lines that makes a block begins with an opening line and holds no other |
| `Blocks.GroupBlocks` | app.js:141-153 | the grouping loop gives exactly the blocks of the runs of the classified lines |
| `Blocks.SegmentSnoc` | app.js:144-152 | grouping one more line is one more iteration of the loop body: an opening line opens a block, any other line joins the open one |
| `Blocks.ChunksPartition` | app.js:141-153 | grouping loses and repeats no line: the runs, one after the other, are the lines from the first opening line on |
| `Blocks.SegmentEmpty` | app.js:153 | there is no block exactly when no line opens one |
| `Blocks.SegmentCount` | app.js:145-153 | there is one block per opening line |
| `Blocks.ChunkLineIn` | app.js:141-153 | every line of every run is one of the lines grouped |
| `Blocks.NameIndices` | app.js:160-163 | the positions of `Name:` lines are valid, strictly increasing indices of the body |
| `Blocks.NameIndicesExact` | app.js:160-163 | a position is listed exactly when the body line there is a `Name:` line |
| `Blocks.SliceAtNames` | app.js:166-171 | the slicing loop gives one block headed `Name:` per listed position, from that position up to the next |
| `Blocks.RescueSplit` | app.js:156-177 | the rescue loop splits each block with more than one `Name:` line at those lines and keeps the other blocks, in order |
| `Blocks.SlicesCover` | app.js:166-171 | the slices of a split block give back its body from its first `Name:` line on |
| `Blocks.SlicesOneName` | app.js:166-171 | each slice of a split block opens with a `Name:` line and holds no other |
| `Blocks.KeptWhole` | app.js:165-174 | a block with no `Name:` line after its first body line is kept whole |
| `Blocks.RunKept` | app.js:145-174 | the block of a run holds no second `Name:` line, so the rescue pass keeps it |
| `Blocks.RescueKeepsSegment` | app.js:156-177 | when every `Name:` line opens a block, the rescue pass returns the blocks unchanged |
| `Blocks.RescueIsIdentity` | app.js:156-177 | the rescue pass returns the grouped blocks unchanged, for any lines |
| `Titles.StripNameMarker` | app.js:211 | from a `Name:` line exactly the marker `Name\s*:` and the whitespace after it are removed, leaving a suffix that starts with no whitespace; any other line is left as it is |
| `Titles.FirstNameLine` | app.js:209 | `find` gives the first `Name:` line of the body, or none when there is no such line |
| `Titles.ExplicitName` | app.js:208-212 | the explicit name is empty when the body has no `Name:` line, else the trimmed rest of the first `Name:` line after its marker |
| `Titles.HeadingName` | app.js:214-217 | the heading tier gives the piece of the heading from the first visible character after the ordinal and the list number to the last visible one; it is empty exactly when nothing visible is left there; a heading with neither ordinal nor number is only trimmed |
| `Titles.OrdinalEnd` | app.js:215 | the first replacement removes the heading match and the whitespace after it, and nothing when the heading does not begin with an idea ordinal |
| `Titles.HeadingCut` | app.js:215-216 | after the ordinal, the second replacement removes the longest match of `\d+\s*[.)]\s+`, and nothing exactly when there is none |
| `Titles.FirstPlain` | app.js:221 | `find` gives the first body line that is neither a `Name:` line nor a generic opener, or none |
| `Titles.CutAtDelimiter` | app.js:222 | `split(/[.:;-]/)[0]` is the longest prefix without a delimiter |
| `Titles.CutWithoutDelimiter` | app.js:222 | a text without a delimiter is not cut |
| `Titles.BodyName` | app.js:219-224 | the last tier gives the piece of the first plain body line (or of `Project Idea` when that line is missing or empty) from its first visible character to the last visible one before its first delimiter and within 120 characters; it is empty exactly when that prefix is blank |
| `Titles.DisplayTitle` | app.js:250 | the title shown is never empty: it is the resolved name when there is one, else `Project Idea k` |
| `Titles.UnnamedBlock` | app.js:208-226 | the name is empty, so app.js:250 shows the placeholder, exactly when there is no explicit name, no heading text, and the first plain body line is non-empty but blank before its first delimiter |
| `Titles.BareMarkerNamesNothing` | app.js:211 | the bare `Name:` line gives an empty explicit name |
| `Titles.NameHeadingName` | app.js:214-217 | the heading `Name:` is kept whole by the heading tier |
| `Titles.NameBlockTitle` | app.js:207-226 | a block headed `Name:` whose first `Name:` line is bare is titled `Name:` |
| `Titles.NoTextTitle` | app.js:219-224 | with no name, no heading text and only generic body lines, the title is `Project Idea` |
| `Sections.EscapeRoundTrip` | app.js:196 | reading the escaped text back, a backslash standing for the character after it, gives the text itself |
| `Sections.Escape` | app.js:196 | `esc` of a single character puts a backslash before it exactly when it is special, and leaves it alone otherwise |
| `Sections.EscapeAppend` | app.js:196 | `esc` works character by character: it distributes over concatenation (with the single-character case of `Escape` this settles every result) |
| `Sections.EscapePlain` | app.js:196 | a text without special characters is not changed by `esc` |
| `Sections.LabelsUnescaped` | app.js:188-196 | `esc` leaves each of the six labels as it is |
| `Sections.FindLabel` | app.js:229-233 | the match found is the leftmost line start where the label follows optional whitespace, ignoring case; no match means no such line start |
| `Sections.AfterLabel` | app.js:230 | `\s*:?\s*` skips whitespace around at most one colon, ends at the first visible character, and leaves no colon it could have taken |
| `Sections.CaptureEndFirstStop` | app.js:198-201 | the lazy capture ends at the first position where the stop lookahead holds |
| `Sections.CaptureEndIsLineEnd` | app.js:198-201 | the capture always ends at the end of its line |
| `Sections.BulletItemMeaning` | app.js:237 | a line is a list item exactly when it starts with a non-empty run of list marks, perhaps a `.` or `)`, and then whitespace |
| `Sections.StripBullet` | app.js:238 | exactly the leading run of `[-•\d. )]` and the whitespace after it are removed, leaving a suffix that starts with no whitespace; a line without such a run is unchanged and a list item always gets shorter |
| `Sections.ContentOf` | app.js:235-240 | no line gives N/A; a list exactly when some line is a list item, each item the line with its marks stripped; otherwise one paragraph per line, each the line itself |
| `Sections.MissingSection` | app.js:233-236 | a label that begins no line gives N/A |
| `Sections.SectionTextOneLine` | app.js:229-234 | the captured text holds no newline and is trimmed |
| `Sections.ContentOfOne` | app.js:236-240 | a single line is a one-item list when it is a list item, else one paragraph |
| `Sections.SectionOneLine` | app.js:228-241 | a section is N/A, a one-item list or one paragraph, decided by its single captured line |
| `Format.RenderCard` | app.js:204-254 | every card has a non-empty title and the six sections in the order of the labels |
| `Format.Kept` | app.js:185 | `slice(0, 3)` keeps the first blocks, at most three |
| `Format.Cards` | app.js:185-254 | at most three cards are shown, each well formed |
| `Format.BuildBlocks` | app.js:141-182 | grouping, the rescue pass when there are fewer than three blocks and the fallback, step by step, give `WithFallback(Rescued(Segment(ClassifyAll(lines))), lines)` |
| `Format.FormatOutput` | app.js:109-257 | the whole pipeline, step by step, gives exactly `Cards(raw)`: at most three well-formed cards |
| `Format.IdeaBlocksAreGroups` | app.js:134-182 | the blocks shown are the groups of all the normalised lines, or the whole text as one block when no line opens one |
| `Format.CardCount` | app.js:141-185 | there is one card per opening line, up to three; one card when there are lines but none opens a block; none for an empty text |
| `Format.NoCardsIffEmpty` | app.js:180-185 | no card is shown exactly when the normalised reply has no line |
| `Format.NormalizedNames` | app.js:127-131 | every normalised `Name:` line is tagged as opening a block and is the bare marker |
| `Format.GroupNameLines` | app.js:145-150 | a group opened by a bare `Name:` line has it as its only `Name:` line; any other group has none |
| `Format.BlockNameLines` | app.js:141-182 | a block shown holds a `Name:` line only when one opened it, and then that line is the bare marker |
| `Format.ExplicitNameUnused` | app.js:208-212 | the explicit-name tier of the title gives nothing for any block shown |
| `Format.NameCardTitle` | app.js:207-250 | a card whose block was opened by a `Name:` line is titled `Name:` |
| `Format.SectionsSingleItem` | app.js:228-241 | every section of every card is N/A or holds a single item |

## Left out

- app.js:112-113 (stripping code fences and HTML tags) are not modelled. The model
  starts from the reply as it stands after those two passes.
- The HTML markup around titles, sections and cards (app.js:236-256) is not
  modelled. A card is its title plus its labelled sections, and a section's
  content is `NA`, a list of items or a list of paragraphs.
- Everything outside `formatOutput` is not part of this model: the page, the
  sliders, the request to the model and the event handlers. They are I/O and
  user interface.
- Characters are Unicode scalar values, while JavaScript counts UTF-16 code
  units. The 120-character cut of app.js:223 therefore differs from the source
  for text outside the Basic Multilingual Plane.
- Blocks are values. The source mutates `cur` only before pushing it, so no
  aliasing is lost. The grouping loop tests each line against the two patterns
  once and keeps the results as tags on the line (`Blocks.Line`).
- `Blocks.DropPreamble`: its own contract says only that it keeps a suffix. What
  it drops and keeps is stated by `Blocks.PreambleDropped`.
