/** `splitBlocks`, `parseParagraphToBlock` and `parseLyricsToBlocks` (songs-import.ts). */
module LyricsToBlocks {
  import opened Seqs
  import opened Text
  import opened Options
  import opened Multiline
  import opened Blocks
  import opened Headings
  import opened Sections
  import opened RepeatingChunk
  import opened RepeatBlocks

  // ---------------------------------------------------------------- paragraphs

  function SpaceRun(s: string): (k: nat)
    ensures k <= |s| && AllSpace(s[..k])
  {
    if s != [] && IsSpace(s[0]) then
      var k := SpaceRun(s[1..]);
      assert s[..k + 1] == [s[0]] + s[1..][..k];
      k + 1
    else 0
  }

  /** One past the last line break among the first `k` characters, or 0. */
  function LastBreak(s: string, k: nat): (n: nat)
    requires k <= |s|
    ensures n <= k && (n > 0 ==> s[n - 1] == '\n')
  {
    if k == 0 then 0 else if s[k - 1] == '\n' then k else LastBreak(s, k - 1)
  }

  /** The length of the match of `/\n\s*\n/` at the start of `s`, or 0. */
  function Separator(s: string): (n: nat)
    ensures n <= |s|
  {
    if s == [] || s[0] != '\n' then 0
    else
      var n := LastBreak(s, SpaceRun(s));
      if n > 1 then n else 0
  }

  /** `.split(/\n\s*\n/g)` */
  function SplitParagraphs(s: string): (r: seq<string>)
    ensures r != []
    decreases |s|
  {
    if s == [] then [[]]
    else if Separator(s) > 0 then [[]] + SplitParagraphs(s[Separator(s)..])
    else
      var r := SplitParagraphs(s[1..]);
      [[s[0]] + r[0]] + r[1..]
  }

  function TrimmedNonEmpty(parts: seq<string>): seq<string> {
    if parts == [] then []
    else (if Trim(parts[0]) == [] then [] else [Trim(parts[0])]) + TrimmedNonEmpty(parts[1..])
  }

  /** `splitBlocks` */
  function SplitBlocks(text: string): seq<string> {
    TrimmedNonEmpty(SplitParagraphs(NormalizeMultiline(text)))
  }

  function AllContent(parts: seq<string>): seq<string> {
    if parts == [] then [] else Content(parts[0]) + AllContent(parts[1..])
  }

  lemma SeparatorParts(s: string)
    requires Separator(s) > 0
    ensures var n := Separator(s);
            s == "\n" + (s[1..n] + s[n..]) && AllSpace(s[1..n])
  {
    hide IsSpace;
    var n := Separator(s);
    var k := SpaceRun(s);
    assert s[..k] == [s[0]] + (s[1..n] + s[n..k]);
    AllSpaceParts([s[0]], s[1..n] + s[n..k]);
    AllSpaceParts(s[1..n], s[n..k]);
  }

  /** Cutting at blank lines loses no line: it is what `KeptFrom` reads, paragraph by paragraph. */
  lemma {:induction false} SplitParagraphsKeeps(cur: string, s: string)
    ensures var r := SplitParagraphs(s);
            KeptFrom(Trim, cur, s) == KeptFrom(Trim, cur, r[0]) + AllContent(r[1..])
    decreases |s|
  {
    hide IsSpace, Trim, Separator, Content;
    var r := SplitParagraphs(s);
    if s == [] {
      assert r[1..] == [];
    } else if Separator(s) > 0 {
      var n := Separator(s);
      var rest := SplitParagraphs(s[n..]);
      SeparatorParts(s);
      KeptFromBreak(Trim, cur, s[1..n] + s[n..]);
      EmptyIsSpace();
      SpacePrefixUnseen([], s[1..n], s[n..]);
      SplitParagraphsKeeps([], s[n..]);
      Cons([], rest);
      ContentFrom(rest[0]);
      assert KeptFrom(Trim, cur, []) == Emit(Trim, cur);
    } else {
      var rest := SplitParagraphs(s[1..]);
      Cons([s[0]] + rest[0], rest[1..]);
      Cons(s[0], rest[0]);
      if s[0] == '\n' {
        SplitParagraphsKeeps([], s[1..]);
        Assoc(Emit(Trim, cur), KeptFrom(Trim, [], rest[0]), AllContent(rest[1..]));
      } else {
        SplitParagraphsKeeps(cur + [s[0]], s[1..]);
      }
    }
  }

  lemma EmptyIsSpace()
    ensures AllSpace([])
  {
  }

  lemma ContentFrom(s: string)
    ensures KeptFrom(Trim, [], s) == Content(s)
  {
    KeptOf(Trim, s);
  }

  lemma {:induction false} TrimmedKeeps(parts: seq<string>)
    ensures AllContent(TrimmedNonEmpty(parts)) == AllContent(parts)
  {
    hide Trim, Content;
    if parts != [] {
      TrimmedKeeps(parts[1..]);
      TrimKeepsContent(parts[0]);
      if Trim(parts[0]) == [] {
        EmptyContent();
        assert [] + TrimmedNonEmpty(parts[1..]) == TrimmedNonEmpty(parts[1..]);
        assert [] + AllContent(parts[1..]) == AllContent(parts[1..]);
      } else {
        Cons(Trim(parts[0]), TrimmedNonEmpty(parts[1..]));
      }
    }
  }

  lemma SplitBlocksKeeps(text: string)
    ensures AllContent(SplitBlocks(text)) == Content(NormalizeMultiline(text))
  {
    hide NormalizeMultiline, SplitParagraphs, TrimmedNonEmpty, Content;
    var s := NormalizeMultiline(text);
    var r := SplitParagraphs(s);
    SplitParagraphsKeeps([], s);
    ContentFrom(s);
    ContentFrom(r[0]);
    TrimmedKeeps(r);
  }

  // ---------------------------------------------------------------- one block per paragraph

  function TrimAll(lines: seq<string>): seq<string> {
    seq(|lines|, i requires 0 <= i < |lines| => Trim(lines[i]))
  }

  /** `parseParagraphToBlock` */
  function ParagraphBlock(paragraph: string, idx: nat): Block {
    var lines := TrimAll(Split(paragraph));
    match ParseSectionHeading(lines[0], idx + 1)
    case None =>
      Block(idx + 1, VERSE, Label(VERSE) + " " + Decimal(idx + 1), NormalizeMultiline(Join(lines)))
    case Some(h) =>
      var body := (if h.inline != [] then [h.inline] else []) + lines[1..];
      Block(idx + 1, h.kind, h.title, NormalizeMultiline(Join(body)))
  }

  /** The blocks of paragraphs that are numbered on from `from`. */
  function BlocksFrom(parts: seq<string>, from: nat): seq<Block> {
    if parts == [] then [] else [ParagraphBlock(parts[0], from)] + BlocksFrom(parts[1..], from + 1)
  }

  function ParagraphBlocks(paragraphs: seq<string>): seq<Block> {
    BlocksFrom(paragraphs, 0)
  }

  function NonEmptyOnly(blocks: seq<Block>): seq<Block> {
    if blocks == [] then []
    else (if blocks[0].content == [] then [] else [blocks[0]]) + NonEmptyOnly(blocks[1..])
  }

  function WholeText(content: string): seq<Block> {
    [Block(1, VERSE, "Couplet 1", content)]
  }

  // ---------------------------------------------------------------- conservation, branch by branch

  function LinesOf(lyrics: string): seq<string> {
    Split(NormalizeMultiline(lyrics))
  }

  /** What the lyrics say: the trimmed non-blank lines, headings replaced by their inline text. */
  function Said(lyrics: string): seq<string> {
    SpokenLines(LinesOf(lyrics), |LinesOf(lyrics)|)
  }

  function HeadingsOf(lyrics: string): nat {
    HeadingCount(LinesOf(lyrics), |LinesOf(lyrics)|)
  }

  /** The same lines up to canonical form. */
  predicate SameUpToCanon(canon: string -> string, a: seq<string>, b: seq<string>) {
    |a| == |b| && forall i | 0 <= i < |a| :: canon(a[i]) == canon(b[i])
  }

  /** The blocks say what the lyrics say: to the letter when nothing repeats, and line by line up to
      canonical form in any case. */
  ghost predicate Conserves(canon: string -> string, lyrics: string, blocks: seq<Block>) {
    || BlocksContent(blocks) == Said(lyrics)
    || (HasRepetition(canon, Said(lyrics)) && SameUpToCanon(canon, BlocksContent(blocks), Said(lyrics)))
  }

  /** There are headings, and nothing is said under any of them. */
  predicate HeadingsOnly(lyrics: string) {
    Said(lyrics) == [] && HeadingsOf(lyrics) > 0
  }

  /** More than one paragraph, each of a single line. */
  predicate OneLineParagraphs(lyrics: string) {
    |SplitBlocks(lyrics)| > 1 && forall p | p in SplitBlocks(lyrics) :: |Split(p)| == 1
  }

  /** No line is a heading, whatever the fallback number. */
  predicate NoHeading(lines: seq<string>) {
    forall i | 0 <= i < |lines| :: ParseSectionHeading(lines[i], 1).None?
  }

  lemma KeptSnoc(lines: seq<string>, n: nat)
    requires 0 < n <= |lines|
    ensures Kept(Trim, lines[..n])
         == Kept(Trim, lines[..n - 1]) + (if Trim(lines[n - 1]) == [] then [] else [Trim(lines[n - 1])])
  {
    hide Trim;
    InitLast(lines[..n]);
    assert lines[..n][..n - 1] == lines[..n - 1];
    KeptAppend(Trim, lines[..n - 1], [lines[n - 1]]);
    TrimEmpty(lines[n - 1]);
    assert [lines[n - 1]][1..] == [];
    assert Kept(Trim, [lines[n - 1]]) == Emit(Trim, lines[n - 1]) + Kept(Trim, [lines[n - 1]][1..]);
  }

  lemma {:induction false} WithoutHeadings(lines: seq<string>, n: nat)
    requires n <= |lines| && HeadingCount(lines, n) == 0
    ensures SpokenLines(lines, n) == Kept(Trim, lines[..n]) && NoHeading(Kept(Trim, lines[..n]))
  {
    hide ParseSectionHeading, Trim, Kept;
    if n > 0 {
      WithoutHeadings(lines, n - 1);
      KeptSnoc(lines, n);
    } else {
      KeptNone();
    }
  }

  /** Every line is a heading without inline text. */
  predicate AllBare(lines: seq<string>) {
    forall i | 0 <= i < |lines| ::
      ParseSectionHeading(lines[i], 1).Some? && ParseSectionHeading(lines[i], 1).value.inline == []
  }

  lemma AllBareSnoc(lines: seq<string>, raw: string)
    requires AllBare(lines) && Spoken(raw) == []
    ensures var line := Trim(raw);
      && AllBare(lines + (if line == [] then [] else [line]))
      && |if line == [] then [] else [line]| == (if IsHeading(raw) then 1 else 0)
  {
    hide ParseSectionHeading, Trim;
  }

  lemma {:induction false} NothingSaid(lines: seq<string>, n: nat)
    requires n <= |lines| && SpokenLines(lines, n) == []
    ensures AllBare(Kept(Trim, lines[..n])) && |Kept(Trim, lines[..n])| == HeadingCount(lines, n)
  {
    hide Trim, Kept, Spoken, IsHeading, AllBare;
    if n > 0 {
      NothingSaid(lines, n - 1);
      KeptSnoc(lines, n);
      AllBareSnoc(Kept(Trim, lines[..n - 1]), lines[n - 1]);
    } else {
      KeptNone();
      NothingIsBare();
    }
  }

  lemma NothingIsBare()
    ensures AllBare([])
  {}

  lemma OnlyBareHeadings(lyrics: string)
    requires HeadingsOnly(lyrics)
    ensures AllBare(Content(NormalizeMultiline(lyrics))) && |Content(NormalizeMultiline(lyrics))| > 0
  {
    hide NormalizeMultiline, SpokenLines, HeadingCount, AllBare, Kept;
    var lines := LinesOf(lyrics);
    NothingSaid(lines, |lines|);
    assert lines[..|lines|] == lines;
  }

  lemma SaidWithoutHeadings(lyrics: string)
    requires HeadingsOf(lyrics) == 0
    ensures Said(lyrics) == Content(NormalizeMultiline(lyrics)) && NoHeading(Said(lyrics))
  {
    hide NormalizeMultiline, SpokenLines, HeadingCount, NoHeading, Kept;
    var lines := LinesOf(lyrics);
    WithoutHeadings(lines, |lines|);
    assert lines[..|lines|] == lines;
  }

  lemma OneBlock(content: string)
    ensures BlocksContent(WholeText(content)) == Content(content) && Numbered(WholeText(content))
  {
    NoBlocks();
    BlocksContentSnoc([], Block(1, VERSE, "Couplet 1", content));
    assert [] + WholeText(content) == WholeText(content);
  }

  lemma EmptyLyrics(canon: string -> string, lyrics: string)
    requires NormalizeMultiline(lyrics) == []
    ensures Conserves(canon, lyrics, WholeText([])) && !HeadingsOnly(lyrics) && Numbered(WholeText([])) && WholeText([]) != []
  {
    hide SpokenLines, BlocksContent, Content, ParseSectionHeading;
    OneBlock([]);
    EmptyContent();
    assert Split([]) == [[]];
    BlankLineIsNoHeading();
    SaidWithoutHeadings(lyrics);
  }

  lemma BlankLineIsNoHeading()
    ensures HeadingCount([[]], 1) == 0
  {
    TrimOfSpace([]);
    assert !IsHeading([[]][0]);
    assert HeadingCount([[]], 0) == 0;
  }

  lemma WholeBranch(canon: string -> string, lyrics: string)
    requires Said(lyrics) != [] ==> HeadingsOf(lyrics) == 0
    requires |SplitBlocks(lyrics)| <= 1
    ensures Conserves(canon, lyrics, WholeText(NormalizeMultiline(lyrics))) <==> !HeadingsOnly(lyrics) || OneLineParagraphs(lyrics)
    ensures Numbered(WholeText(NormalizeMultiline(lyrics))) && WholeText(NormalizeMultiline(lyrics)) != []
  {
    hide SpokenLines, BlocksContent, Content, HeadingCount, NormalizeMultiline, SplitBlocks, AllBare;
    OneBlock(NormalizeMultiline(lyrics));
    if HeadingsOf(lyrics) == 0 { SaidWithoutHeadings(lyrics); } else { OnlyBareHeadings(lyrics); }
  }

  lemma HeadingBranch(canon: string -> string, lyrics: string)
    requires var end := Flush(Run(LinesOf(lyrics), |LinesOf(lyrics)|)); end.headings != 0 && end.blocks != []
    ensures var end := Flush(Run(LinesOf(lyrics), |LinesOf(lyrics)|));
            Conserves(canon, lyrics, Renumber(end.blocks)) && !HeadingsOnly(lyrics) && Numbered(Renumber(end.blocks))
  {
    hide Run, Flush, SpokenLines, BlocksContent, HeadingCount, NormalizeMultiline;
    HeadingsConserveLyrics(lyrics);
  }

  /** The heading parser gives up only when there is no heading or nothing is said. */
  lemma NoExplicitHeadings(lyrics: string)
    requires var end := Flush(Run(LinesOf(lyrics), |LinesOf(lyrics)|)); end.headings == 0 || end.blocks == []
    ensures Said(lyrics) != [] ==> HeadingsOf(lyrics) == 0
  {
    hide Run, Flush, SpokenLines, BlocksContent, HeadingCount, NormalizeMultiline;
    HeadingsConserveLyrics(lyrics);
  }

  lemma {:induction false} FlatIsContent(c: Chunk, blocks: seq<Block>)
    requires WellMade(c, blocks)
    ensures BlocksContent(blocks) == Flat(blocks)
  {
    hide AllTidy, VerseTitle, ChorusTitle, CountOf, Split, BlocksContent;
    if blocks == [] {
      NoBlocks();
    } else {
      var before, b := blocks[..|blocks| - 1], blocks[|blocks| - 1];
      FlatIsContent(c, before);
      InitLast(blocks);
      BlocksContentSnoc(before, b);
      KeptOfTidy(Split(b.content));
    }
  }

  lemma RepeatBranch(canon: string -> string, lyrics: string, c: Chunk, blocks: seq<Block>)
    requires Said(lyrics) != [] ==> HeadingsOf(lyrics) == 0
    requires |SplitBlocks(lyrics)| <= 1
    requires Partition(canon, LyricLines(NormalizeMultiline(lyrics)), c, blocks)
    ensures (Conserves(canon, lyrics, blocks) <==> !HeadingsOnly(lyrics) || OneLineParagraphs(lyrics)) && Numbered(blocks)
  {
    hide SpokenLines, HeadingCount, NormalizeMultiline, SplitBlocks, AllBare, WellMade, Repeats, Flat, Content, BlocksContent, CountOf;
    var lines := LyricLines(NormalizeMultiline(lyrics));
    PartitionIsNumbered(canon, lines, c, blocks);
    FlatIsContent(c, blocks);
    NormalizeMultilineFixpoint(lyrics);
    if HeadingsOf(lyrics) == 0 {
      SaidWithoutHeadings(lyrics);
      assert Repeats(canon, lines, c.length, c.indices);
    } else {
      OnlyBareHeadings(lyrics);
    }
  }

  // ------------------------------------------------ paragraphs

  lemma {:induction false} ParagraphsNoReturn(s: string, i: nat)
    requires NoReturn(s) && i < |SplitParagraphs(s)|
    ensures NoReturn(SplitParagraphs(s)[i])
    decreases |s|
  {
    hide Separator;
    if s != [] {
      var n := Separator(s);
      assert NoReturn(s[n..]) by { assert forall k | 0 <= k < |s[n..]| :: s[n..][k] == s[n + k]; }
      assert NoReturn(s[1..]) by { assert forall k | 0 <= k < |s[1..]| :: s[1..][k] == s[1 + k]; }
      if n > 0 {
        if i > 0 { ParagraphsNoReturn(s[n..], i - 1); }
      } else {
        ParagraphsNoReturn(s[1..], i);
      }
    }
  }

  /** A paragraph: trimmed, not empty, free of carriage returns. */
  predicate Paragraph(p: string) {
    p != [] && Tight(p) && NoReturn(p)
  }

  predicate AllParagraphs(parts: seq<string>) {
    forall i | 0 <= i < |parts| :: Paragraph(parts[i])
  }

  lemma {:induction false} TrimmedAreParagraphs(parts: seq<string>)
    requires forall i | 0 <= i < |parts| :: NoReturn(parts[i])
    ensures AllParagraphs(TrimmedNonEmpty(parts))
  {
    hide Tight, Trim, NoReturn;
    if parts != [] {
      TrimmedAreParagraphs(parts[1..]);
      TrimIsTight(parts[0]);
      TrimNoReturn(parts[0]);
    }
  }

  lemma TrimNoReturn(s: string)
    requires NoReturn(s)
    ensures NoReturn(Trim(s))
  {
    hide Trim;
    var a, b := TrimParts(s);
    var r := Trim(s);
    assert forall i | 0 <= i < |r| :: r[i] == (a + r + b)[|a| + i];
  }

  lemma SplitBlocksAreParagraphs(text: string)
    ensures AllParagraphs(SplitBlocks(text))
  {
    hide SplitParagraphs, TrimmedNonEmpty, AllParagraphs, NormalizeMultiline;
    var s := NormalizeMultiline(text);
    NormalizeReachesNormal(text);
    forall i | 0 <= i < |SplitParagraphs(s)| ensures NoReturn(SplitParagraphs(s)[i]) { ParagraphsNoReturn(s, i); }
    TrimmedAreParagraphs(SplitParagraphs(s));
  }

  lemma {:induction false} KeptOfTrimmed(lines: seq<string>)
    ensures Kept(Trim, TrimAll(lines)) == Kept(Trim, lines)
  {
    hide Trim;
    if lines != [] {
      var r := TrimAll(lines);
      assert r[1..] == TrimAll(lines[1..]);
      KeptOfTrimmed(lines[1..]);
      TrimEmpty(lines[0]);
      TrimIsTight(lines[0]);
      TrimOfTight(r[0]);
      TrimEmpty(r[0]);
    }
  }

  lemma TrimAllPending(p: string)
    requires NoReturn(p)
    ensures Pending(TrimAll(Split(p)))
  {
    hide Trim, Tidy;
    forall i | 0 <= i < |Split(p)| ensures Trim(Split(p)[i]) == [] || Tidy(Trim(Split(p)[i])) {
      ReturnFree(p, i);
      TrimEmpty(Split(p)[i]);
      if Trim(Split(p)[i]) != [] { TrimmedLineIsTidy(Split(p)[i]); }
    }
  }

  /** The first line of a paragraph is a line of its content. */
  lemma FirstLineIsContent(p: string)
    requires Paragraph(p)
    ensures Content(p) != [] && Content(p)[0] == TrimAll(Split(p))[0]
  {
    hide IsSpace, Trim;
    BreakIsSpace();
    var rest := Split(p[1..]);
    assert Split(p)[0] == [p[0]] + rest[0];
    assert !AllSpace(Split(p)[0]) by { assert Split(p)[0][0] == p[0]; }
  }

  /** A paragraph as a section: a heading on its first line names it, and its inline text is said first. */
  function ParagraphSection(p: string, idx: nat): Section {
    if Content(p) == [] then Section(VERSE, "Couplet " + Decimal(idx + 1), [])
    else match ParseSectionHeading(Content(p)[0], idx + 1)
         case None => Section(VERSE, "Couplet " + Decimal(idx + 1), Content(p))
         case Some(h) => Section(h.kind, h.title, (if h.inline != [] then [h.inline] else []) + Content(p)[1..])
  }

  function ParagraphSections(parts: seq<string>, from: nat): seq<Section> {
    if parts == [] then [] else [ParagraphSection(parts[0], from)] + ParagraphSections(parts[1..], from + 1)
  }

  lemma {:induction false} SectionOfParagraph(parts: seq<string>, from: nat)
    ensures var sections, blocks := ParagraphSections(parts, from), BlocksFrom(parts, from);
            && |sections| == |blocks| == |parts|
            && forall i | 0 <= i < |parts| ::
                 sections[i] == ParagraphSection(parts[i], from + i) && blocks[i] == ParagraphBlock(parts[i], from + i)
  {
    hide ParagraphSection, ParagraphBlock;
    if parts != [] {
      SectionOfParagraph(parts[1..], from + 1);
      var sections, blocks := ParagraphSections(parts[1..], from + 1), BlocksFrom(parts[1..], from + 1);
      assert ParagraphSections(parts, from) == [ParagraphSection(parts[0], from)] + sections;
      assert BlocksFrom(parts, from) == [ParagraphBlock(parts[0], from)] + blocks;
      hide ParagraphSections, BlocksFrom;
      forall i | 0 <= i < |parts|
        ensures ParagraphSections(parts, from)[i] == ParagraphSection(parts[i], from + i)
             && BlocksFrom(parts, from)[i] == ParagraphBlock(parts[i], from + i)
      {
        if i > 0 { assert parts[1..][i - 1] == parts[i] && sections[i - 1] == ParagraphSection(parts[1..][i - 1], from + i); }
      }
    }
  }

  lemma PendingParts(a: seq<string>, b: seq<string>)
    requires Pending(a) && Pending(b)
    ensures Pending(a + b) && Kept(Trim, a + b) == Kept(Trim, a) + Kept(Trim, b)
  {
    hide Tidy;
    KeptAppend(Trim, a, b);
  }

  /** The lines of a paragraph after its first. */
  lemma LaterLines(p: string)
    requires Paragraph(p)
    ensures var lines := TrimAll(Split(p));
            && Pending(lines) && Pending(lines[1..]) && Plain(lines[0])
            && Kept(Trim, lines) == Content(p) && Kept(Trim, lines[1..]) == Content(p)[1..]
  {
    FirstLineIsContent(p);
    hide Trim, Tidy, Split;
    var lines := TrimAll(Split(p));
    TrimAllPending(p);
    KeptOfTrimmed(Split(p));
    assert Kept(Trim, lines) == Emit(Trim, lines[0]) + Kept(Trim, lines[1..]);
    FirstLineShows(p);
    Cons(Trim(lines[0]), Kept(Trim, lines[1..]));
    ReturnFree(p, 0);
    TrimPlain(Split(p)[0]);
  }

  lemma ContentOfNothing(lines: seq<string>)
    requires Pending(lines)
    ensures var content := NormalizeMultiline(Join(lines)); Content(content) == Kept(Trim, lines) && (content == [] <==> Content(content) == [])
  {
    hide Pending, Kept, NormalizeMultiline, Normal;
    var content := NormalizeMultiline(Join(lines));
    JoinedContent(lines);
    EmptyContent();
    NormalizeReachesNormal(Join(lines));
    NormalIsTight(content);
    if content != [] { NormalHasContent(content); }
  }

  lemma PlainParts(p: string, idx: nat)
    requires Content(p) != [] && Content(p)[0] == TrimAll(Split(p))[0]
    requires ParseSectionHeading(TrimAll(Split(p))[0], idx + 1).None?
    ensures ParagraphBlock(p, idx) == Block(idx + 1, VERSE, "Couplet " + Decimal(idx + 1), NormalizeMultiline(Join(TrimAll(Split(p)))))
    ensures ParagraphSection(p, idx) == Section(VERSE, "Couplet " + Decimal(idx + 1), Content(p))
  {
    hide Trim, NormalizeMultiline, ParseSectionHeading, Content, Join, Split, Decimal, TrimAll;
    assert "Couplet" + " " + Decimal(idx + 1) == "Couplet " + Decimal(idx + 1);
  }

  lemma HeadedParts(p: string, idx: nat)
    requires Content(p) != [] && Content(p)[0] == TrimAll(Split(p))[0]
    requires ParseSectionHeading(TrimAll(Split(p))[0], idx + 1).Some?
    ensures var lines := TrimAll(Split(p));
            var h := ParseSectionHeading(lines[0], idx + 1).value;
            var inline := if h.inline != [] then [h.inline] else [];
            && ParagraphBlock(p, idx) == Block(idx + 1, h.kind, h.title, NormalizeMultiline(Join(inline + lines[1..])))
            && ParagraphSection(p, idx) == Section(h.kind, h.title, inline + Content(p)[1..])
  {
    hide Trim, NormalizeMultiline, ParseSectionHeading, Content, Join, Split, TrimAll;
  }

  lemma PlainShows(p: string, idx: nat)
    requires Paragraph(p) && Content(p) != [] && Content(p)[0] == TrimAll(Split(p))[0]
    requires ParseSectionHeading(TrimAll(Split(p))[0], idx + 1).None?
    ensures Shows(ParagraphBlock(p, idx), ParagraphSection(p, idx))
    ensures ParagraphBlock(p, idx).content == [] <==> ParagraphSection(p, idx).said == []
  {
    hide Paragraph, ParagraphBlock, ParagraphSection, ParseSectionHeading, NormalizeMultiline, Content, Kept, Join, Split, Pending, TrimAll,
         Plain, Decimal;
    LaterLines(p);
    PlainParts(p, idx);
    ContentOfNothing(TrimAll(Split(p)));
  }

  lemma HeadedShows(p: string, idx: nat)
    requires Paragraph(p) && Content(p) != [] && Content(p)[0] == TrimAll(Split(p))[0]
    requires ParseSectionHeading(TrimAll(Split(p))[0], idx + 1).Some?
    ensures Shows(ParagraphBlock(p, idx), ParagraphSection(p, idx))
    ensures ParagraphBlock(p, idx).content == [] <==> ParagraphSection(p, idx).said == []
  {
    hide Paragraph, ParagraphBlock, ParagraphSection, ParseSectionHeading, NormalizeMultiline, Content, Kept, Join, Split, Pending,
         Plain, Decimal, Trim;
    var lines := TrimAll(Split(p));
    var h := ParseSectionHeading(lines[0], idx + 1).value;
    var inline := if h.inline != [] then [h.inline] else [];
    LaterLines(p);
    HeadedParts(p, idx);
    InlineIsPending(lines[0], idx + 1);
    PendingParts(inline, lines[1..]);
    ContentOfNothing(inline + lines[1..]);
  }

  /** The block of a paragraph shows its section. */
  lemma ParagraphShows(p: string, idx: nat)
    requires Paragraph(p)
    ensures Shows(ParagraphBlock(p, idx), ParagraphSection(p, idx))
    ensures ParagraphBlock(p, idx).content == [] <==> ParagraphSection(p, idx).said == []
  {
    FirstLineIsContent(p);
    hide *;
    if ParseSectionHeading(TrimAll(Split(p))[0], idx + 1).None? { PlainShows(p, idx); } else { HeadedShows(p, idx); }
  }

  lemma ParagraphKeepsContent(p: string, idx: nat)
    requires Paragraph(p) && NoHeading(Content(p))
    ensures Content(ParagraphBlock(p, idx).content) == Content(p)
    ensures ParagraphSection(p, idx) == Section(VERSE, "Couplet " + Decimal(idx + 1), Content(p))
  {
    FirstLineIsContent(p);
    hide ParseSectionHeading, Split, Decimal, Paragraph, ParagraphBlock;
    HeadingIgnoresFallback(Content(p)[0], idx + 1, 1);
    ParagraphShows(p, idx);
  }

  /** A paragraph of bare headings loses its first line, and keeps the others as if they were lyrics. */
  lemma ParagraphDropsHeading(p: string, idx: nat)
    requires Paragraph(p) && AllBare(Content(p))
    ensures Content(ParagraphBlock(p, idx).content) == Content(p)[1..]
  {
    FirstLineIsContent(p);
    hide ParseSectionHeading, Split, Decimal, Paragraph, ParagraphBlock;
    HeadingIgnoresFallback(Content(p)[0], idx + 1, 1);
    ParagraphShows(p, idx);
    assert [] + Content(p)[1..] == Content(p)[1..];
  }

  lemma {:induction false} SayingCons(s: Section, rest: seq<Section>)
    ensures Saying([s] + rest) == (if s.said == [] then [] else [s]) + Saying(rest)
  {
    if rest == [] {
      assert [s] + [] == [] + [s];
      SayingSnoc([], s);
      assert (if s.said == [] then [] else [s]) + [] == [] + (if s.said == [] then [] else [s]);
    } else {
      var k := |rest| - 1;
      SayingCons(s, rest[..k]);
      InitLast(rest);
      Assoc([s], rest[..k], [rest[k]]);
      SayingSnoc([s] + rest[..k], rest[k]);
      SayingSnoc(rest[..k], rest[k]);
    }
  }

  lemma {:induction false} NonEmptyOnlyShows(blocks: seq<Block>, sections: seq<Section>)
    requires ShowAll(blocks, sections)
    requires forall i | 0 <= i < |blocks| :: blocks[i].content == [] <==> sections[i].said == []
    ensures ShowAll(NonEmptyOnly(blocks), Saying(sections))
  {
    if blocks != [] {
      hide Shows, Saying;
      NonEmptyOnlyShows(blocks[1..], sections[1..]);
      SayingCons(sections[0], sections[1..]);
      HeadTail(sections);
    }
  }

  lemma FirstLineShows(p: string)
    requires Paragraph(p)
    ensures !AllSpace(TrimAll(Split(p))[0])
  {
    FirstLineIsContent(p);
    hide Trim, IsSpace;
    var first := Split(p)[0];
    BreakIsSpace();
    assert first[0] == p[0];
    TrimEmpty(first);
    TrimIsTight(first);
  }

  /** What is left of paragraphs of bare headings. */
  function Tails(parts: seq<string>): seq<string> {
    if parts == [] then []
    else (if Content(parts[0]) == [] then [] else Content(parts[0])[1..]) + Tails(parts[1..])
  }

  lemma {:induction false} ParagraphsDropHeadings(parts: seq<string>, from: nat)
    requires AllParagraphs(parts) && AllBare(AllContent(parts))
    ensures BlocksContent(BlocksFrom(parts, from)) == Tails(parts)
  {
    hide Content, ParagraphBlock, Paragraph, ParseSectionHeading;
    var bs := BlocksFrom(parts, from);
    if parts != [] {
      var tail := parts[1..];
      assert forall i | 0 <= i < |Content(parts[0])| :: Content(parts[0])[i] == AllContent(parts)[i];
      assert forall i | 0 <= i < |AllContent(tail)| :: AllContent(tail)[i] == AllContent(parts)[|Content(parts[0])| + i];
      FirstLineIsContent(parts[0]);
      ParagraphDropsHeading(parts[0], from);
      ParagraphsDropHeadings(tail, from + 1);
      Cons(bs[0], BlocksFrom(tail, from + 1));
    }
  }

  lemma {:induction false} NothingLeft(parts: seq<string>)
    requires AllParagraphs(parts)
    ensures Tails(parts) == [] <==> forall p | p in parts :: |Split(p)| == 1
  {
    hide Content, Split, Paragraph;
    if parts != [] {
      HeadTail(parts);
      FirstLineIsContent(parts[0]);
      OneLineOnce(parts[0]);
      NothingLeft(parts[1..]);
    }
  }

  /** A paragraph of one line shows one line, and one of several shows at least its first and its last. */
  lemma OneLineOnce(p: string)
    requires Paragraph(p)
    ensures |Content(p)| == 1 <==> |Split(p)| == 1
  {
    FirstLineIsContent(p);
    LastLineShows(p);
    hide Trim, IsSpace, Split, Paragraph;
    var lines := Split(p);
    var k := |lines| - 1;
    if k == 0 {
      assert Kept(Trim, lines[1..]) == [];
    } else {
      FirstLineShows(p);
      KeptSnoc(lines, |lines|);
      assert lines[..|lines|] == lines;
      TrimEmpty(lines[k]);
      TrimEmpty(lines[0]);
      assert lines[..k][0] == lines[0];
      FirstLineCounts(p);
      assert Kept(Trim, lines[..k]) == Emit(Trim, lines[..k][0]) + Kept(Trim, lines[..k][1..]);
    }
  }

  lemma FirstLineCounts(p: string)
    requires Paragraph(p)
    ensures !AllSpace(Split(p)[0])
  {
    BreakIsSpace();
    hide IsSpace;
    assert Split(p)[0][0] == p[0];
  }

  lemma {:induction false} LastLineShows(s: string)
    requires s != [] && !IsSpace(s[|s| - 1])
    ensures !AllSpace(Split(s)[|Split(s)| - 1])
    decreases |s|
  {
    BreakIsSpace();
    hide IsSpace;
    var r := Split(s);
    if |s| == 1 {
      assert Split(s[1..]) == [[]];
      assert r[0][0] == s[0];
    } else {
      LastLineShows(s[1..]);
      var rest := Split(s[1..]);
      if s[0] != '\n' && |rest| == 1 {
        var i :| 0 <= i < |rest[0]| && !IsSpace(rest[0][i]);
        assert r[0][i + 1] == rest[0][i];
      }
    }
  }

  lemma {:induction false} ParagraphsKeepContent(parts: seq<string>, from: nat)
    requires AllParagraphs(parts) && NoHeading(AllContent(parts))
    ensures BlocksContent(BlocksFrom(parts, from)) == AllContent(parts)
  {
    hide Content, ParagraphBlock, Paragraph, ParseSectionHeading;
    var bs := BlocksFrom(parts, from);
    if parts != [] {
      var tail := parts[1..];
      assert forall i | 0 <= i < |Content(parts[0])| :: Content(parts[0])[i] == AllContent(parts)[i];
      assert forall i | 0 <= i < |AllContent(tail)| :: AllContent(tail)[i] == AllContent(parts)[|Content(parts[0])| + i];
      ParagraphKeepsContent(parts[0], from);
      ParagraphsKeepContent(tail, from + 1);
      Cons(bs[0], BlocksFrom(tail, from + 1));
    }
  }

  lemma {:induction false} NonEmptyOnlyKeeps(blocks: seq<Block>)
    ensures BlocksContent(NonEmptyOnly(blocks)) == BlocksContent(blocks)
  {
    hide Content;
    if blocks != [] {
      NonEmptyOnlyKeeps(blocks[1..]);
      EmptyContent();
      Cons(blocks[0], NonEmptyOnly(blocks[1..]));
      assert [] + NonEmptyOnly(blocks[1..]) == NonEmptyOnly(blocks[1..]);
      assert [] + BlocksContent(blocks[1..]) == BlocksContent(blocks[1..]);
    }
  }

  function KeptParagraphs(paragraphs: seq<string>): seq<Block> {
    var all := ParagraphBlocks(paragraphs);
    Renumber(if NonEmptyOnly(all) != [] then NonEmptyOnly(all) else all)
  }

  // ---------------------------------------------------------------- which parser answers

  /** Something is said, and there are headings. */
  predicate SaidUnderHeadings(lyrics: string) {
    HeadingsOf(lyrics) > 0 && Said(lyrics) != []
  }

  predicate SeveralParagraphs(lyrics: string) {
    !SaidUnderHeadings(lyrics) && |SplitBlocks(lyrics)| > 1
  }

  ghost predicate RepeatsItself(canon: string -> string, lyrics: string) {
    && !SaidUnderHeadings(lyrics) && |SplitBlocks(lyrics)| <= 1
    && |LyricLines(lyrics)| >= 6 && HasRepetition(canon, LyricLines(lyrics))
  }

  /** The paragraphs that say something, or all of them when none does. */
  predicate CutAtParagraphs(parts: seq<string>, blocks: seq<Block>) {
    var sections := ParagraphSections(parts, 0);
    ShowAll(blocks, if Saying(sections) != [] then Saying(sections) else sections)
  }

  /** One verse per paragraph, with its lines. */
  predicate VersePerParagraph(parts: seq<string>, blocks: seq<Block>) {
    && |blocks| == |parts|
    && forall i | 0 <= i < |blocks| ::
         blocks[i].kind == VERSE && blocks[i].title == "Couplet " + Decimal(i + 1) && Content(blocks[i].content) == Content(parts[i])
  }

  /** The blocks are titled in order and cut at the kept starts of a chunk that beats every repetition of the lines. */
  ghost predicate CutAtBestChunk(canon: string -> string, lines: seq<string>, blocks: seq<Block>) {
    Titled(blocks) && exists c :: Partition(canon, lines, c, blocks) && forall len, starts | Repeats(canon, lines, len, starts) :: Beats(Some(c), len, starts)
  }

  lemma {:induction false} ParagraphsShow(parts: seq<string>, from: nat)
    requires AllParagraphs(parts)
    ensures var blocks, sections := BlocksFrom(parts, from), ParagraphSections(parts, from);
            && |blocks| == |sections| == |parts| && ShowAll(blocks, sections)
            && forall i | 0 <= i < |parts| :: blocks[i].content == [] <==> sections[i].said == []
  {
    hide ParagraphBlock, ParagraphSection, Shows, Paragraph, ParagraphSections, BlocksFrom;
    SectionOfParagraph(parts, from);
    forall i | 0 <= i < |parts|
      ensures var b, s := ParagraphBlock(parts[i], from + i), ParagraphSection(parts[i], from + i);
              Shows(b, s) && (b.content == [] <==> s.said == [])
    {
      ParagraphShows(parts[i], from + i);
    }
  }

  lemma RenumberShows(blocks: seq<Block>, sections: seq<Section>)
    requires ShowAll(blocks, sections)
    ensures ShowAll(Renumber(blocks), sections)
  {
    hide Content;
    assert forall i | 0 <= i < |blocks| :: Shows(blocks[i], sections[i]);
  }

  lemma ParagraphsCut(lyrics: string)
    ensures CutAtParagraphs(SplitBlocks(lyrics), KeptParagraphs(SplitBlocks(lyrics)))
  {
    hide SplitBlocks, ParagraphBlock, ParagraphSection, Shows, AllParagraphs, ShowAll, Saying, NonEmptyOnly, BlocksFrom, ParagraphSections;
    var parts := SplitBlocks(lyrics);
    var all, sections := ParagraphBlocks(parts), ParagraphSections(parts, 0);
    SplitBlocksAreParagraphs(lyrics);
    ParagraphsShow(parts, 0);
    NonEmptyOnlyShows(all, sections);
    SameLength(NonEmptyOnly(all), Saying(sections));
    RenumberShows(if NonEmptyOnly(all) != [] then NonEmptyOnly(all) else all, if Saying(sections) != [] then Saying(sections) else sections);
  }

  lemma SameLength(blocks: seq<Block>, sections: seq<Section>)
    requires ShowAll(blocks, sections)
    ensures |blocks| == |sections|
  {}

  lemma {:induction false} AllSaying(sections: seq<Section>)
    requires forall i | 0 <= i < |sections| :: sections[i].said != []
    ensures Saying(sections) == sections
  {
    if sections != [] {
      AllSaying(sections[..|sections| - 1]);
      InitLast(sections);
    }
  }

  lemma {:induction false} PlainParagraph(parts: seq<string>, i: nat)
    requires i < |parts| && NoHeading(AllContent(parts))
    ensures NoHeading(Content(parts[i]))
  {
    hide Content, ParseSectionHeading;
    var first, rest := Content(parts[0]), AllContent(parts[1..]);
    assert forall k | 0 <= k < |first| :: first[k] == AllContent(parts)[k];
    assert forall k | 0 <= k < |rest| :: rest[k] == AllContent(parts)[|first| + k];
    if i > 0 { PlainParagraph(parts[1..], i - 1); }
  }

  lemma PlainParagraphs(parts: seq<string>)
    requires AllParagraphs(parts) && NoHeading(AllContent(parts))
    ensures forall i | 0 <= i < |parts| ::
              ParagraphSection(parts[i], i) == Section(VERSE, "Couplet " + Decimal(i + 1), Content(parts[i])) && Content(parts[i]) != []
  {
    hide Content, ParseSectionHeading, NoHeading, Paragraph, ParagraphSection, Decimal, AllContent;
    forall i | 0 <= i < |parts|
      ensures ParagraphSection(parts[i], i) == Section(VERSE, "Couplet " + Decimal(i + 1), Content(parts[i])) && Content(parts[i]) != []
    {
      PlainParagraph(parts, i);
      FirstLineIsContent(parts[i]);
      ParagraphKeepsContent(parts[i], i);
    }
  }

  lemma CutAll(parts: seq<string>, blocks: seq<Block>)
    requires CutAtParagraphs(parts, blocks) && Saying(ParagraphSections(parts, 0)) == ParagraphSections(parts, 0)
    ensures ShowAll(blocks, ParagraphSections(parts, 0))
  {
    hide ShowAll, Saying, ParagraphSections;
  }

  lemma VersesShow(parts: seq<string>, sections: seq<Section>, blocks: seq<Block>)
    requires ShowAll(blocks, sections) && |sections| == |parts|
    requires forall i | 0 <= i < |parts| :: sections[i] == Section(VERSE, "Couplet " + Decimal(i + 1), Content(parts[i]))
    ensures VersePerParagraph(parts, blocks)
  {
    hide Content, Decimal;
    assert forall i | 0 <= i < |blocks| :: Shows(blocks[i], sections[i]);
  }

  lemma VersesAreParagraphs(parts: seq<string>, blocks: seq<Block>)
    requires AllParagraphs(parts) && NoHeading(AllContent(parts)) && CutAtParagraphs(parts, blocks)
    ensures VersePerParagraph(parts, blocks)
  {
    hide *;
    var sections := ParagraphSections(parts, 0);
    PlainParagraphs(parts);
    SectionOfParagraph(parts, 0);
    forall i | 0 <= i < |parts| ensures sections[i] == Section(VERSE, "Couplet " + Decimal(i + 1), Content(parts[i])) && sections[i].said != [] {
      assert sections[i] == ParagraphSection(parts[i], i);
    }
    AllSaying(sections);
    CutAll(parts, blocks);
    VersesShow(parts, sections, blocks);
  }

  /** Without a heading each paragraph is one verse. */
  lemma ParagraphsAreVerses(lyrics: string, blocks: seq<Block>)
    requires HeadingsOf(lyrics) == 0 && CutAtParagraphs(SplitBlocks(lyrics), blocks)
    ensures VersePerParagraph(SplitBlocks(lyrics), blocks)
  {
    hide *;
    SplitBlocksKeeps(lyrics);
    SplitBlocksAreParagraphs(lyrics);
    SaidWithoutHeadings(lyrics);
    VersesAreParagraphs(SplitBlocks(lyrics), blocks);
  }

  lemma ParagraphBranch(canon: string -> string, lyrics: string)
    requires Said(lyrics) != [] ==> HeadingsOf(lyrics) == 0
    requires |SplitBlocks(lyrics)| > 1
    ensures var blocks := KeptParagraphs(SplitBlocks(lyrics));
            && blocks != [] && Numbered(blocks)
            && (Conserves(canon, lyrics, blocks) <==> !HeadingsOnly(lyrics) || OneLineParagraphs(lyrics))
  {
    hide SpokenLines, HeadingCount, NormalizeMultiline, SplitBlocks, ParagraphBlock, Content, BlocksContent,
         NonEmptyOnly, AllContent, NoHeading, AllParagraphs, AllBare, Tails, Split;
    var parts := SplitBlocks(lyrics);
    var all := ParagraphBlocks(parts);
    var base := if NonEmptyOnly(all) != [] then NonEmptyOnly(all) else all;
    SplitBlocksKeeps(lyrics);
    SplitBlocksAreParagraphs(lyrics);
    NonEmptyOnlyKeeps(all);
    BlocksContentByContent(Renumber(base), base);
    if HeadingsOf(lyrics) == 0 {
      SaidWithoutHeadings(lyrics);
      ParagraphsKeepContent(parts, 0);
    } else {
      OnlyBareHeadings(lyrics);
      ParagraphsDropHeadings(parts, 0);
      NothingLeft(parts);
    }
  }

  /** What the four parsers give. */
  ghost predicate Answers(canon: string -> string, lyrics: string, blocks: seq<Block>) {
    && (SaidUnderHeadings(lyrics) ==> ShowAll(blocks, Saying(SectionsOf(lyrics))))
    && (SeveralParagraphs(lyrics) ==> CutAtParagraphs(SplitBlocks(lyrics), blocks))
    && (SeveralParagraphs(lyrics) && HeadingsOf(lyrics) == 0 ==> VersePerParagraph(SplitBlocks(lyrics), blocks))
    && (RepeatsItself(canon, lyrics) ==> CutAtBestChunk(canon, LyricLines(lyrics), blocks))
    && (!SaidUnderHeadings(lyrics) && !SeveralParagraphs(lyrics) && !RepeatsItself(canon, lyrics) ==>
          blocks == [Block(1, VERSE, "Couplet 1", NormalizeMultiline(lyrics))])
  }

  lemma HeadingsAnswer(canon: string -> string, lyrics: string)
    requires var end := Flush(Run(LinesOf(lyrics), |LinesOf(lyrics)|)); end.headings != 0 && end.blocks != []
    ensures Answers(canon, lyrics, Renumber(Flush(Run(LinesOf(lyrics), |LinesOf(lyrics)|)).blocks))
  {
    hide NormalizeMultiline, Run, Flush, SpokenLines, HeadingCount, ShowAll, SectionsOf, Saying, CutAtParagraphs, VersePerParagraph,
         CutAtBestChunk, BlocksContent, Split, Renumber;
    HeadingsConserveLyrics(lyrics);
    BlocksAreSections(lyrics);
  }

  lemma ParagraphsAnswer(canon: string -> string, lyrics: string)
    requires Said(lyrics) != [] ==> HeadingsOf(lyrics) == 0
    requires |SplitBlocks(lyrics)| > 1
    ensures Answers(canon, lyrics, KeptParagraphs(SplitBlocks(lyrics)))
  {
    hide NormalizeMultiline, SpokenLines, HeadingCount, ShowAll, SectionsOf, Saying, CutAtParagraphs, VersePerParagraph,
         CutAtBestChunk, SplitBlocks, KeptParagraphs;
    ParagraphsCut(lyrics);
    if HeadingsOf(lyrics) == 0 { ParagraphsAreVerses(lyrics, KeptParagraphs(SplitBlocks(lyrics))); }
  }

  lemma RepetitionAnswers(canon: string -> string, lyrics: string, c: Chunk, blocks: seq<Block>)
    requires Said(lyrics) != [] ==> HeadingsOf(lyrics) == 0
    requires |SplitBlocks(lyrics)| <= 1
    requires |LyricLines(lyrics)| >= 6 && HasRepetition(canon, LyricLines(lyrics))
    requires Partition(canon, LyricLines(lyrics), c, blocks)
    requires forall len, starts | Repeats(canon, LyricLines(lyrics), len, starts) :: Beats(Some(c), len, starts)
    ensures Answers(canon, lyrics, blocks)
  {
    PartitionIsTitled(canon, LyricLines(lyrics), c, blocks);
    hide NormalizeMultiline, SpokenLines, HeadingCount, ShowAll, SectionsOf, Saying, CutAtParagraphs, VersePerParagraph,
         SplitBlocks, LyricLines, Partition, Repeats, Beats, HasRepetition, Titled;
  }

  lemma PartitionIsTitled(canon: string -> string, lines: seq<string>, c: Chunk, blocks: seq<Block>)
    requires Partition(canon, lines, c, blocks)
    ensures Titled(blocks)
  {
    WellMadeIsTitled(c, blocks);
  }

  lemma WholeTextAnswers(canon: string -> string, lyrics: string)
    requires Said(lyrics) != [] ==> HeadingsOf(lyrics) == 0
    requires |SplitBlocks(lyrics)| <= 1
    requires !(|LyricLines(lyrics)| >= 6 && HasRepetition(canon, LyricLines(lyrics)))
    ensures Answers(canon, lyrics, WholeText(NormalizeMultiline(lyrics)))
  {
    hide NormalizeMultiline, SpokenLines, HeadingCount, ShowAll, SectionsOf, Saying, CutAtParagraphs, VersePerParagraph,
         SplitBlocks, LyricLines, CutAtBestChunk, HasRepetition;
  }

  lemma EmptyAnswers(canon: string -> string, lyrics: string)
    requires NormalizeMultiline(lyrics) == []
    ensures Answers(canon, lyrics, WholeText(NormalizeMultiline(lyrics)))
  {
    hide *;
    NothingInEmpty(lyrics);
    WholeTextAnswers(canon, lyrics);
  }

  lemma NothingInEmpty(lyrics: string)
    requires NormalizeMultiline(lyrics) == []
    ensures HeadingsOf(lyrics) == 0 && |SplitBlocks(lyrics)| <= 1 && |LyricLines(lyrics)| < 6
  {
    hide NormalizeMultiline, Content, HeadingCount;
    assert Split([]) == [[]];
    BlankLineIsNoHeading();
    EmptyContent();
  }

  /** `parseLyricsToBlocks`. When something is said under headings the blocks are cut at the headings; otherwise
      at blank lines when there are several paragraphs; otherwise at the best repetition when there are six
      lines and one repeats; and otherwise the whole text is one verse. Whatever branch is taken there is at
      least one block, the blocks are numbered from 1, and no lyric line is lost, invented or moved, unless the
      lyrics are headings and nothing else and two of them share a paragraph or there is one paragraph only. */
  method ParseLyricsToBlocks(canon: string -> string, lyrics: string) returns (blocks: seq<Block>)
    requires LineLike(canon)
    ensures blocks != [] && Numbered(blocks)
    ensures Answers(canon, lyrics, blocks)
    ensures Conserves(canon, lyrics, blocks) <==> !HeadingsOnly(lyrics) || OneLineParagraphs(lyrics)
  {
    hide *;
    var normalized := NormalizeMultiline(lyrics);
    if normalized == [] {
      EmptyLyrics(canon, lyrics);
      EmptyAnswers(canon, lyrics);
      return WholeText([]);
    }
    var explicit := ParseLyricsByHeadings(normalized);
    SameLines(lyrics);
    if explicit.Some? && |explicit.value| > 0 {
      HeadingBranch(canon, lyrics);
      HeadingsAnswer(canon, lyrics);
      return explicit.value;
    }
    NoExplicitHeadings(lyrics);
    var paragraphs := SplitBlocks(lyrics);
    if |paragraphs| > 1 {
      ParagraphBranch(canon, lyrics);
      ParagraphsAnswer(canon, lyrics);
      return KeptParagraphs(paragraphs);
    }
    var repeating, chunk := ParseLyricsByRepeatingChunk(canon, normalized);
    if repeating.Some? && |repeating.value| > 0 {
      RepeatBranch(canon, lyrics, chunk.value, repeating.value);
      RepetitionAnswers(canon, lyrics, chunk.value, repeating.value);
      return repeating.value;
    }
    WholeBranch(canon, lyrics);
    WholeTextAnswers(canon, lyrics);
    return WholeText(normalized);
  }

  /** The failing family at its smallest: a heading and nothing else is kept as a lyric line. */
  lemma HeadingAloneIsReadAsLyrics(canon: string -> string, line: string)
    requires Tidy(line) && AllBare([line])
    ensures HeadingsOnly(line) && !OneLineParagraphs(line)
    ensures BlocksContent(WholeText(NormalizeMultiline(line))) == [line]
    ensures !Conserves(canon, line, WholeText(NormalizeMultiline(line)))
  {
    TidyLinesSurvive([line]);
    OneLineSaid(line);
    OneBlock(line);
    hide Tidy, NormalizeMultiline, Content, BlocksContent, SpokenLines, HeadingCount, SplitBlocks, AllParagraphs;
    SplitBlocksKeeps(line);
    SplitBlocksAreParagraphs(line);
    NoMoreThanLines(SplitBlocks(line));
  }

  lemma OneLineSaid(line: string)
    requires Tidy(line) && AllBare([line]) && NormalizeMultiline(line) == line && Split(line) == [line]
    ensures Said(line) == [] && HeadingsOf(line) == 1
  {
    hide NormalizeMultiline, ParseSectionHeading, Split, Trim;
    TrimOfTight(line);
    assert [line][0] == line;
    assert Spoken(line) == [] && IsHeading(line);
    assert SpokenLines([line], 0) == [] && HeadingCount([line], 0) == 0;
  }

  lemma {:induction false} NoMoreThanLines(parts: seq<string>)
    requires AllParagraphs(parts)
    ensures |parts| <= |AllContent(parts)|
  {
    hide Content, Paragraph;
    if parts != [] {
      FirstLineIsContent(parts[0]);
      NoMoreThanLines(parts[1..]);
    }
  }

  /** The word "Refrain" is such a line. */
  lemma RefrainAloneIsReadAsLyrics(canon: string -> string)
    ensures HeadingsOnly("Refrain") && !OneLineParagraphs("Refrain")
    ensures !Conserves(canon, "Refrain", WholeText(NormalizeMultiline("Refrain")))
  {
    hide *;
    RefrainIsBare();
    HeadingAloneIsReadAsLyrics(canon, "Refrain");
  }

  lemma RefrainIsBare()
    ensures Tidy("Refrain") && AllBare(["Refrain"])
  {
    var line := "Refrain";
    RefrainIsWord();
    hide Keyword, StartsWord, Trim, TrimStart, DigitRun, IsTerminator;
    NothingAfterKeyword(line[7..]);
    hide AfterKeyword;
    assert ParseSectionHeading(line, 1) == Some(Heading(CHORUS, "Refrain", []));
  }

  lemma RefrainIsWord()
    ensures Keyword("Refrain") == Some(("refrain", CHORUS))
  {
    assert StartsWord("Refrain", "refrain");
    hide StartsWord;
  }

  lemma NothingAfterKeyword(rest: string)
    requires rest == []
    ensures AfterKeyword(rest) == Some(([], []))
  {
    assert TrimStart([]) == [] && DigitRun([]) == 0 && Trim([]) == [];
  }

  lemma SameLines(lyrics: string)
    ensures Split(NormalizeMultiline(NormalizeMultiline(lyrics))) == LinesOf(lyrics)
    ensures LyricLines(NormalizeMultiline(lyrics)) == LyricLines(lyrics)
  {
    NormalizeMultilineFixpoint(lyrics);
  }
}
