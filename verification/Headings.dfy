/** `parseSectionHeading` and `parseLyricsByHeadings` (songs-import.ts). */
module Headings {
  import opened Seqs
  import opened Text
  import opened Options
  import opened Multiline
  import opened Blocks

  datatype Heading = Heading(kind: Kind, title: string, inline: string)

  // ---------------------------------------------------------------- one heading line

  /** `line` starts with `word`, ignoring the case of ASCII letters. */
  predicate StartsWord(line: string, word: string) {
    |word| <= |line| && forall i | 0 <= i < |word| :: LowerChar(line[i]) == word[i]
  }

  function Keyword(line: string): (r: Option<(string, Kind)>)
    ensures r.Some? ==> |r.value.0| <= |line|
  {
    if StartsWord(line, "refrain") then Some(("refrain", CHORUS))
    else if StartsWord(line, "chorus") then Some(("chorus", CHORUS))
    else if StartsWord(line, "couplet") then Some(("couplet", VERSE))
    else if StartsWord(line, "verse") then Some(("verse", VERSE))
    else if StartsWord(line, "pont") then Some(("pont", BRIDGE))
    else if StartsWord(line, "bridge") then Some(("bridge", BRIDGE))
    else None
  }

  function DigitRun(s: string): (k: nat)
    ensures k <= |s| && AllDigits(s[..k])
  {
    if s != [] && IsDigit(s[0]) then
      var k := DigitRun(s[1..]);
      assert s[..k + 1] == [s[0]] + s[1..][..k];
      k + 1
    else 0
  }

  predicate IsSeparator(c: char) {
    c == ':' || c == '-' || c == '\U{2013}' || c == '\U{2014}'
  }

  /** What the expression matches after the keyword: the digits and the trimmed remainder, or nothing
      when the remainder spans a line terminator. */
  function AfterKeyword(rest: string): Option<(string, string)> {
    var a := TrimStart(rest);
    var k := DigitRun(a);
    var b := TrimStart(a[k..]);
    var c := TrimStart(if b != [] && IsSeparator(b[0]) then b[1..] else b);
    if exists i :: 0 <= i < |c| && IsTerminator(c[i]) then None else Some((a[..k], Trim(c)))
  }

  function ParseSectionHeading(line: string, fallback: nat): Option<Heading> {
    match Keyword(line)
    case None => None
    case Some((word, kind)) =>
      match AfterKeyword(line[|word|..])
      case None => None
      case Some((digits, inline)) =>
        var number := if digits != [] then digits else if kind.VERSE? then Decimal(fallback) else [];
        Some(Heading(kind, if number == [] then Label(kind) else Label(kind) + " " + number, inline))
  }

  function Label(kind: Kind): string {
    match kind
    case VERSE => "Couplet"
    case CHORUS => "Refrain"
    case BRIDGE => "Pont"
  }

  /** Whether a line is a heading, and its inline text, do not depend on the fallback number. */
  lemma HeadingIgnoresFallback(line: string, m: nat, n: nat)
    ensures var h, k := ParseSectionHeading(line, m), ParseSectionHeading(line, n);
            (h.Some? <==> k.Some?) && (h.Some? ==> h.value.inline == k.value.inline && h.value.kind == k.value.kind)
  {
  }

  /** `/^couplet\s+\d+$/i` on the titles made here, and the digits it would find. */
  function CoupletNumber(title: string): Option<nat> {
    if |title| > 8 && title[..8] == "Couplet " && AllDigits(title[8..]) then Some(NumberOf(title[8..])) else None
  }

  // ---------------------------------------------------------------- the line loop

  /** The local variables of `parseLyricsByHeadings`. */
  datatype State = State(
    headings: nat, counter: nat, kind: Kind, title: string, current: seq<string>, blocks: seq<Block>)

  const START := State(0, 0, VERSE, "", [], [])

  /** `flushCurrent` */
  function Flush(st: State): State {
    var content := NormalizeMultiline(Join(st.current));
    if content == [] then st
    else
      var title := if st.title != [] then st.title else Label(VERSE) + " " + Decimal(if st.counter > 1 then st.counter else 1);
      st.(blocks := st.blocks + [Block(|st.blocks| + 1, st.kind, title, content)], current := [])
  }

  function CounterAfter(counter: nat, h: Heading): nat {
    if !h.kind.VERSE? then counter
    else match CoupletNumber(h.title)
         case None => counter + 1
         case Some(n) => if n > counter then n else counter
  }

  /** One turn of the loop. */
  function Turn(st: State, raw: string): State {
    var line := Trim(raw);
    if line == [] then
      if st.current != [] then st.(current := st.current + [[]]) else st
    else
      match ParseSectionHeading(line, st.counter + 1)
      case Some(h) =>
        var f := Flush(st);
        State(f.headings + 1, CounterAfter(f.counter, h), h.kind, h.title, if h.inline != [] then [h.inline] else [], f.blocks)
      case None =>
        var n := if st.title == [] then st.(counter := st.counter + 1, kind := VERSE, title := Label(VERSE) + " " + Decimal(st.counter + 1)) else st;
        n.(current := n.current + [line])
  }

  /** The state after the first `n` lines. */
  function Run(lines: seq<string>, n: nat): State
    requires n <= |lines|
  {
    if n == 0 then START else Turn(Run(lines, n - 1), lines[n - 1])
  }

  method ParseLyricsByHeadings(lyrics: string) returns (result: Option<seq<Block>>)
    ensures var lines := Split(NormalizeMultiline(lyrics));
            var end := Flush(Run(lines, |lines|));
            result == if end.headings == 0 || end.blocks == [] then None else Some(Renumber(end.blocks))
  {
    hide *;
    var lines := Split(NormalizeMultiline(lyrics));
    var headingCount, verseCounter, currentKind, currentTitle := 0, 0, VERSE, "";
    var currentLines: seq<string> := [];
    var blocks: seq<Block> := [];
    RunStarts(lines);
    for i := 0 to |lines|
      invariant State(headingCount, verseCounter, currentKind, currentTitle, currentLines, blocks) == Run(lines, i)
    {
      RunStep(lines, i);
      headingCount, verseCounter, currentKind, currentTitle, currentLines, blocks :=
        TakeLine(headingCount, verseCounter, currentKind, currentTitle, currentLines, blocks, lines[i]);
    }
    currentLines, blocks := FlushCurrent(headingCount, verseCounter, currentKind, currentTitle, currentLines, blocks);
    if headingCount == 0 || |blocks| == 0 { return None; }
    return Some(Renumber(blocks));
  }

  lemma RunStarts(lines: seq<string>)
    ensures Run(lines, 0) == State(0, 0, VERSE, "", [], [])
  {
  }

  lemma RunStep(lines: seq<string>, n: nat)
    requires n < |lines|
    ensures Run(lines, n + 1) == Turn(Run(lines, n), lines[n])
  {
  }

  /** The body of the loop. */
  method TakeLine(
    headings: nat, counter: nat, kind: Kind, title: string, current: seq<string>, blocks: seq<Block>, raw: string)
    returns (headings': nat, counter': nat, kind': Kind, title': string, current': seq<string>, blocks': seq<Block>)
    ensures State(headings', counter', kind', title', current', blocks')
         == Turn(State(headings, counter, kind, title, current, blocks), raw)
  {
    hide NormalizeMultiline, Trim, ParseSectionHeading, CoupletNumber, Join, Decimal, Flush;
    headings', counter', kind', title', current', blocks' := headings, counter, kind, title, current, blocks;
    var line := Trim(raw);
    if line == [] {
      if current != [] { current' := current + [[]]; }
      return;
    }
    var heading := ParseSectionHeading(line, counter + 1);
    if heading.Some? {
      current', blocks' := FlushCurrent(headings, counter, kind, title, current, blocks);
      headings' := headings + 1;
      if heading.value.kind.VERSE? {
        var number := CoupletNumber(heading.value.title);
        if number.None? {
          counter' := counter + 1;
        } else if number.value > counter {
          counter' := number.value;
        }
      }
      kind', title' := heading.value.kind, heading.value.title;
      current' := if heading.value.inline != [] then [heading.value.inline] else [];
    } else {
      if title == [] {
        counter' := counter + 1;
        kind', title' := VERSE, Label(VERSE) + " " + Decimal(counter');
      }
      current' := current + [line];
    }
  }

  method FlushCurrent(headings: nat, counter: nat, kind: Kind, title: string, current: seq<string>, blocks: seq<Block>)
    returns (current': seq<string>, blocks': seq<Block>)
    ensures State(headings, counter, kind, title, current', blocks') == Flush(State(headings, counter, kind, title, current, blocks))
  {
    current', blocks' := current, blocks;
    var content := NormalizeMultiline(Join(current));
    if content == [] { return; }
    var shown := if title != [] then title else Label(VERSE) + " " + Decimal(if counter > 1 then counter else 1);
    blocks' := blocks + [Block(|blocks| + 1, kind, shown, content)];
    current' := [];
  }

  // ---------------------------------------------------------------- conservation

  /** What one raw line contributes to the lyrics: nothing when blank, the inline text of a heading,
      the trimmed line otherwise. */
  function Spoken(raw: string): seq<string> {
    var line := Trim(raw);
    if line == [] then []
    else match ParseSectionHeading(line, 1)
         case Some(h) => if h.inline != [] then [h.inline] else []
         case None => [line]
  }

  function SpokenLines(lines: seq<string>, n: nat): seq<string>
    requires n <= |lines|
  {
    if n == 0 then [] else SpokenLines(lines, n - 1) + Spoken(lines[n - 1])
  }

  predicate IsHeading(raw: string) {
    Trim(raw) != [] && ParseSectionHeading(Trim(raw), 1).Some?
  }

  function HeadingCount(lines: seq<string>, n: nat): nat
    requires n <= |lines|
  {
    if n == 0 then 0 else HeadingCount(lines, n - 1) + (if IsHeading(lines[n - 1]) then 1 else 0)
  }

  lemma SlicePlain(a: string, r: string, b: string)
    requires Plain(a + r + b)
    ensures Plain(r)
  {
    assert forall i | 0 <= i < |r| :: r[i] == (a + r + b)[|a| + i];
  }

  lemma TrimPlain(line: string)
    requires Plain(line)
    ensures Plain(Trim(line))
  {
    hide Plain, Trim;
    var a, b := TrimParts(line);
    SlicePlain(a, Trim(line), b);
  }

  lemma TrimStartPlain(line: string)
    requires Plain(line)
    ensures Plain(TrimStart(line))
  {
    hide Plain, TrimStart;
    var a := TrimStartParts(line);
    assert a + TrimStart(line) + [] == line;
    SlicePlain(a, TrimStart(line), []);
  }

  lemma DropPlain(line: string, k: nat)
    requires Plain(line) && k <= |line|
    ensures Plain(line[k..])
  {
    hide Plain;
    assert line[..k] + line[k..] + [] == line;
    SlicePlain(line[..k], line[k..], []);
  }

  lemma InlinePlain(line: string, fallback: nat)
    requires Plain(line) && ParseSectionHeading(line, fallback).Some?
    ensures var h := ParseSectionHeading(line, fallback).value; Plain(h.inline) && Tight(h.inline)
  {
    hide Plain, Tight, AfterKeyword, Decimal;
    var k := |Keyword(line).value.0|;
    DropPlain(line, k);
    AfterKeywordPlain(line[k..]);
  }

  lemma AfterKeywordPlain(rest: string)
    requires Plain(rest) && AfterKeyword(rest).Some?
    ensures Plain(AfterKeyword(rest).value.1) && Tight(AfterKeyword(rest).value.1)
  {
    hide Plain, Tight, TrimStart, Trim, IsTerminator, IsSeparator, DigitRun;
    TrimStartPlain(rest);
    var a := TrimStart(rest);
    DropPlain(a, DigitRun(a));
    TrimStartPlain(a[DigitRun(a)..]);
    var b := TrimStart(a[DigitRun(a)..]);
    if b != [] { DropPlain(b, 1); }
    var c := TrimStart(if b != [] && IsSeparator(b[0]) then b[1..] else b);
    TrimStartPlain(if b != [] && IsSeparator(b[0]) then b[1..] else b);
    TrimPlain(c);
    TrimIsTight(c);
  }

  lemma SpokenIsTidy(raw: string)
    requires Plain(raw)
    ensures AllTidy(Spoken(raw))
  {
    hide Tight, Trim, ParseSectionHeading, IsSpace;
    TrimPlain(raw);
    TrimIsTight(raw);
    var line := Trim(raw);
    if ParseSectionHeading(line, 1).Some? { InlinePlain(line, 1); }
  }

  /** The pending lines: blank or tidy. */
  predicate Pending(current: seq<string>) {
    forall i | 0 <= i < |current| :: current[i] == [] || Tidy(current[i])
  }

  lemma PendingSnoc(current: seq<string>, line: string)
    requires Pending(current) && (line == [] || Tidy(line))
    ensures Pending(current + [line])
    ensures Kept(Trim, current + [line]) == Kept(Trim, current) + (if line == [] then [] else [line])
  {
    hide Tidy, Trim;
    KeptAppend(Trim, current, [line]);
    KeptOne(line);
  }

  predicate NonEmpty(blocks: seq<Block>) {
    forall i | 0 <= i < |blocks| :: blocks[i].content != []
  }

  lemma JoinedContent(current: seq<string>)
    requires Pending(current)
    ensures Content(NormalizeMultiline(Join(current))) == Kept(Trim, current)
  {
    hide Tidy, Trim, NormalizeMultiline, UnifyBreaks, Kept;
    var s := Join(current);
    NormalizeKeepsContent(s);
    PendingPlain(current);
    JoinPlain(current);
    UnifyBreaksClean(s);
    if current == [] {
      assert Content(s) == Kept(Trim, [[]]) by { assert Split(s) == [[]]; }
      KeptOne([]);
      assert Kept(Trim, current) == [] by { KeptNone(); }
    } else {
      SplitJoin(current);
    }
  }

  lemma PendingPlain(current: seq<string>)
    requires Pending(current)
    ensures AllPlain(current)
  {
  }

  /** Flushing moves the pending lines into a block, which is never empty. */
  lemma FlushConserves(st: State)
    requires Pending(st.current)
    ensures var f := Flush(st);
            && BlocksContent(f.blocks) == BlocksContent(st.blocks) + Kept(Trim, st.current)
            && f.counter == st.counter && f.headings == st.headings
            && (NonEmpty(st.blocks) ==> NonEmpty(f.blocks))
  {
    hide Pending, Kept, Decimal, NormalizeMultiline, Trim, Split, Join;
    JoinedContent(st.current);
    var content := NormalizeMultiline(Join(st.current));
    var f := Flush(st);
    if content == [] {
      EmptyContent();
      assert BlocksContent(st.blocks) + [] == BlocksContent(st.blocks);
    } else {
      var b := f.blocks[|st.blocks|];
      assert f.blocks == st.blocks + [b] && b.content == content;
      BlocksContentSnoc(st.blocks, b);
    }
  }

  /** One line of the loop conserves the lyrics. */
  lemma TurnConserves(st: State, raw: string)
    requires Plain(raw) && Pending(st.current)
    ensures var t := Turn(st, raw);
            && Pending(t.current)
            && BlocksContent(t.blocks) + Kept(Trim, t.current)
               == BlocksContent(st.blocks) + Kept(Trim, st.current) + Spoken(raw)
            && t.headings == st.headings + (if IsHeading(raw) then 1 else 0)
            && (NonEmpty(st.blocks) ==> NonEmpty(t.blocks))
  {
    hide Flush, Trim, ParseSectionHeading, Kept, BlocksContent, Pending, Tidy, Plain, CounterAfter, Decimal;
    var line := Trim(raw);
    var before, kept := BlocksContent(st.blocks), Kept(Trim, st.current);
    SpokenIsTidy(raw);
    assert before + kept + [] == before + kept;
    if line == [] {
      if st.current != [] {
        PendingSnoc(st.current, []);
        assert kept + [] == kept;
      }
    } else {
      HeadingIgnoresFallback(line, st.counter + 1, 1);
      var h := ParseSectionHeading(line, st.counter + 1);
      if h.Some? {
        FlushConserves(st);
        var inline := h.value.inline;
        var f := Flush(st);
        NothingPending();
        if inline != [] {
          assert Spoken(raw) == [inline];
          OneTidy(inline);
          KeptOne(inline);
        }
      } else {
        assert Spoken(raw) == [line];
        OneTidy(line);
        PendingSnoc(st.current, line);
        Assoc(before, kept, [line]);
      }
    }
  }

  lemma NothingPending()
    ensures Pending([]) && Kept(Trim, []) == []
  {
  }

  lemma OneTidy(line: string)
    requires AllTidy([line])
    ensures Tidy(line) && Pending([line])
  {
    assert Tidy([line][0]);
  }

  /** The loop conserves the lyrics: at any point the blocks and the pending lines hold exactly what
      the lines so far say, and the heading counter counts them. */
  lemma {:induction false} RunConserves(lines: seq<string>, n: nat)
    requires AllPlain(lines) && n <= |lines|
    ensures var st := Run(lines, n);
            && Pending(st.current)
            && BlocksContent(st.blocks) + Kept(Trim, st.current) == SpokenLines(lines, n)
            && st.headings == HeadingCount(lines, n)
            && NonEmpty(st.blocks)
  {
    hide Turn, Kept, BlocksContent, Pending, Plain, Spoken, IsHeading;
    if n == 0 {
      NothingPending();
      NoBlocks();
    } else {
      RunConserves(lines, n - 1);
      assert Plain(lines[n - 1]);
      TurnConserves(Run(lines, n - 1), lines[n - 1]);
    }
  }

  lemma NoBlocks()
    ensures BlocksContent([]) == [] && NonEmpty([])
  {
  }

  // ---------------------------------------------------------------- the whole result

  lemma {:induction false} NoContentMeansSpace(cur: string, s: string)
    requires KeptFrom(Trim, cur, s) == []
    ensures AllSpace(cur) && AllSpace(s)
    decreases |s|
  {
    hide IsSpace, Trim;
    if s != [] {
      BreakIsSpace();
      HeadTail(s);
      if s[0] == '\n' {
        NoContentMeansSpace([], s[1..]);
        AllSpaceParts([s[0]], s[1..]);
      } else {
        NoContentMeansSpace(cur + [s[0]], s[1..]);
        AllSpaceParts(cur, [s[0]]);
        AllSpaceParts([s[0]], s[1..]);
      }
    }
  }

  lemma NormalHasContent(s: string)
    requires Tight(s) && s != []
    ensures Content(s) != []
  {
    KeptOf(Trim, s);
    if Content(s) == [] { NoContentMeansSpace([], s); }
  }

  lemma {:induction false} BlocksWithContent(blocks: seq<Block>)
    requires forall i | 0 <= i < |blocks| :: Content(blocks[i].content) != []
    ensures BlocksContent(blocks) == [] <==> blocks == []
  {
  }

  /** Every block of a run holds a normal text. */
  predicate NormalBlocks(blocks: seq<Block>) {
    forall i | 0 <= i < |blocks| :: Normal(blocks[i].content) && blocks[i].content != []
  }

  lemma FlushNormal(st: State)
    requires NormalBlocks(st.blocks)
    ensures NormalBlocks(Flush(st).blocks)
  {
    hide NormalizeMultiline, Normal, Decimal;
    NormalizeReachesNormal(Join(st.current));
  }

  lemma {:induction false} RunNormal(lines: seq<string>, n: nat)
    requires n <= |lines|
    ensures NormalBlocks(Run(lines, n).blocks)
  {
    hide Flush, NormalBlocks, ParseSectionHeading, CounterAfter, Decimal;
    if n == 0 {
      assert NormalBlocks([]) by { NoNormalBlocks(); }
    } else {
      RunNormal(lines, n - 1);
      FlushNormal(Run(lines, n - 1));
    }
  }

  lemma NoNormalBlocks()
    ensures NormalBlocks([])
  {
  }

  lemma NormalLinesArePlain(lyrics: string)
    ensures AllPlain(Split(NormalizeMultiline(lyrics)))
  {
    var s := NormalizeMultiline(lyrics);
    NormalizeReachesNormal(lyrics);
    forall i | 0 <= i < |Split(s)| ensures Plain(Split(s)[i]) { ReturnFree(s, i); }
  }

  /** What the heading-based parser returns: blocks 1..n, none of them empty, that read exactly what the
      lines say with the headings taken out; and nothing at all exactly when there is no heading or
      nothing is said. */
  lemma HeadingsConserveLyrics(lyrics: string)
    ensures var lines := Split(NormalizeMultiline(lyrics));
            var end := Flush(Run(lines, |lines|));
            && BlocksContent(Renumber(end.blocks)) == SpokenLines(lines, |lines|)
            && NonEmpty(Renumber(end.blocks)) && Numbered(Renumber(end.blocks))
            && end.headings == HeadingCount(lines, |lines|)
            && (end.blocks == [] <==> SpokenLines(lines, |lines|) == [])
  {
    hide Run, Flush, SpokenLines, HeadingCount, Normal, BlocksContent, NormalizeMultiline, Pending;
    var lines := Split(NormalizeMultiline(lyrics));
    NormalLinesArePlain(lyrics);
    RunConserves(lines, |lines|);
    var st := Run(lines, |lines|);
    FlushConserves(st);
    RunNormal(lines, |lines|);
    FlushNormal(st);
    var blocks := Flush(st).blocks;
    BlocksContentByContent(Renumber(blocks), blocks);
    forall i | 0 <= i < |blocks| ensures Content(blocks[i].content) != [] {
      NormalIsTight(blocks[i].content);
      NormalHasContent(blocks[i].content);
    }
    BlocksWithContent(blocks);
  }

  lemma NormalIsTight(s: string)
    requires Normal(s)
    ensures Tight(s)
  {
  }

  // ---------------------------------------------------------------- verse numbers

  /** The number of the verse that is open, if a titled verse is. */
  function SectionNumber(st: State): Option<nat> {
    if st.kind.VERSE? && st.title != [] then CoupletNumber(st.title) else None
  }

  /** An open verse has a number, and the counter has reached it. */
  predicate CounterReached(st: State) {
    st.kind.VERSE? && st.title != [] ==>
      CoupletNumber(st.title).Some? && CoupletNumber(st.title).value <= st.counter
  }

  lemma CoupletNumberOf(digits: string)
    requires digits != [] && AllDigits(digits)
    ensures CoupletNumber(Label(VERSE) + " " + digits) == Some(NumberOf(digits))
  {
    var title := Label(VERSE) + " " + digits;
    assert title[..8] == "Couplet " && title[8..] == digits;
  }

  lemma VerseHeadingNumber(line: string, fallback: nat)
    requires ParseSectionHeading(line, fallback).Some? && ParseSectionHeading(line, fallback).value.kind.VERSE?
    ensures var title := ParseSectionHeading(line, fallback).value.title;
            title != [] && CoupletNumber(title).Some? && (Unnumbered(line) ==> CoupletNumber(title) == Some(fallback))
  {
    hide CoupletNumber, StartsWord, IsTerminator, IsSeparator, TrimStart, Trim;
    var digits := AfterKeyword(line[|Keyword(line).value.0|..]).value.0;
    NumberOfDecimal(fallback);
    CoupletNumberOf(if digits != [] then digits else Decimal(fallback));
  }

  /** The heading carries no number of its own. */
  predicate Unnumbered(line: string) {
    match Keyword(line)
    case None => false
    case Some((word, kind)) =>
      match AfterKeyword(line[|word|..])
      case None => false
      case Some((digits, inline)) => digits == []
  }

  lemma TurnReaches(st: State, raw: string)
    requires CounterReached(st)
    ensures CounterReached(Turn(st, raw)) && Turn(st, raw).counter >= st.counter
  {
    hide ParseSectionHeading, CoupletNumber, Trim, Decimal, NormalizeMultiline, Join;
    var line := Trim(raw);
    var h := ParseSectionHeading(line, st.counter + 1);
    if h.Some? {
      if h.value.kind.VERSE? { VerseHeadingNumber(line, st.counter + 1); }
    } else {
      NumberOfDecimal(st.counter + 1);
      CoupletNumberOf(Decimal(st.counter + 1));
    }
  }

  lemma {:induction false} RunReaches(lines: seq<string>, i: nat, n: nat)
    requires i <= n <= |lines|
    ensures CounterReached(Run(lines, n)) && Run(lines, i).counter <= Run(lines, n).counter
    decreases n
  {
    hide Turn, CounterReached;
    if n == 0 {
      assert CounterReached(START) by { StartReached(); }
    } else {
      RunReaches(lines, if i < n then i else n - 1, n - 1);
      TurnReaches(Run(lines, n - 1), lines[n - 1]);
    }
  }

  lemma StartReached()
    ensures CounterReached(START)
  {
  }

  /** An unnumbered verse heading gets a number above that of every verse opened before it. */
  lemma UnnumberedVerseIsHighest(lines: seq<string>, i: nat, j: nat)
    requires i <= j < |lines| && Unnumbered(Trim(lines[j]))
    requires var h := ParseSectionHeading(Trim(lines[j]), 1); h.Some? && h.value.kind.VERSE?
    ensures SectionNumber(Run(lines, j + 1)).Some?
    ensures SectionNumber(Run(lines, i)).Some? ==>
              SectionNumber(Run(lines, i)).value < SectionNumber(Run(lines, j + 1)).value
  {
    hide ParseSectionHeading, CoupletNumber, Trim, Decimal, NormalizeMultiline, Join, Unnumbered;
    var st := Run(lines, j);
    var line := Trim(lines[j]);
    RunReaches(lines, i, j);
    RunReaches(lines, 0, i);
    HeadingIgnoresFallback(line, st.counter + 1, 1);
    VerseHeadingNumber(line, st.counter + 1);
    assert line != [] by { EmptyIsNoHeading(); }
  }

  lemma EmptyIsNoHeading()
    ensures ParseSectionHeading([], 1).None?
  {
  }
}
