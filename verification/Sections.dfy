/** What `parseLyricsByHeadings` (songs-import.ts) returns, said by sections: a section opens at every heading
    and holds what is said up to the next one. */
module Sections {
  import opened Seqs
  import opened Text
  import opened Options
  import opened Multiline
  import opened Blocks
  import opened Headings

  datatype Section = Section(kind: Kind, title: string, said: seq<string>)

  /** The highest number of a verse among the sections. */
  function Highest(sections: seq<Section>): nat {
    if sections == [] then 0
    else
      var before, last := Highest(sections[..|sections| - 1]), sections[|sections| - 1];
      var n := if last.kind.VERSE? && CoupletNumber(last.title).Some? then CoupletNumber(last.title).value else 0;
      if n > before then n else before
  }

  /** A lyric line goes to the section that is open, and opens "Couplet 1" when none is. */
  function Say(sections: seq<Section>, line: string): seq<Section> {
    if sections == [] then [Section(VERSE, "Couplet 1", [line])]
    else
      var k := |sections| - 1;
      sections[..k] + [sections[k].(said := sections[k].said + [line])]
  }

  /** One line: nothing when blank, a new section when a heading; a verse without a number gets one more than
      the highest so far. */
  function Next(before: seq<Section>, raw: string): seq<Section> {
    var line := Trim(raw);
    if line == [] then before
    else match ParseSectionHeading(line, Highest(before) + 1)
         case Some(h) => before + [Section(h.kind, h.title, if h.inline != [] then [h.inline] else [])]
         case None => Say(before, line)
  }

  /** The sections of the first `n` lines. */
  function SectionsTo(lines: seq<string>, n: nat): seq<Section>
    requires n <= |lines|
  {
    if n == 0 then [] else Next(SectionsTo(lines, n - 1), lines[n - 1])
  }

  /** The sections under which something is said. */
  function Saying(sections: seq<Section>): seq<Section> {
    if sections == [] then []
    else
      var k := |sections| - 1;
      Saying(sections[..k]) + (if sections[k].said == [] then [] else [sections[k]])
  }

  predicate Shows(b: Block, s: Section) {
    b.kind == s.kind && b.title == s.title && Content(b.content) == s.said
  }

  predicate ShowAll(blocks: seq<Block>, sections: seq<Section>) {
    |blocks| == |sections| && forall i | 0 <= i < |blocks| :: Shows(blocks[i], sections[i])
  }

  // ---------------------------------------------------------------- the loop keeps the sections

  /** The section that is open at `st`. */
  ghost predicate Open(st: State, s: Section) {
    st.kind == s.kind && st.title == s.title != [] && Pending(st.current) && Kept(Trim, st.current) == s.said
  }

  /** The closed sections that say something are in the blocks, and the last one is open. */
  ghost predicate Tracks(st: State, sections: seq<Section>) {
    && st.counter == Highest(sections)
    && (sections == [] ==> st.title == [] && st.current == [] && st.blocks == [])
    && (sections != [] ==>
          Open(st, sections[|sections| - 1]) && ShowAll(st.blocks, Saying(sections[..|sections| - 1])))
  }

  lemma FlushShows(st: State, s: Section)
    requires Open(st, s)
    ensures var f := Flush(st);
            && f.blocks == st.blocks + f.blocks[|st.blocks|..] && f.counter == st.counter && f.kind == st.kind
            && ShowAll(f.blocks[|st.blocks|..], if s.said == [] then [] else [s])
  {
    hide Pending, Kept, Decimal, NormalizeMultiline, Normal, Trim, Split, Join;
    JoinedContent(st.current);
    var content := NormalizeMultiline(Join(st.current));
    if content == [] {
      EmptyContent();
    } else {
      NormalizeReachesNormal(Join(st.current));
      NormalIsTight(content);
      NormalHasContent(content);
    }
  }

  lemma SayingSnoc(sections: seq<Section>, s: Section)
    ensures Saying(sections + [s]) == Saying(sections) + (if s.said == [] then [] else [s])
    ensures var n := if s.kind.VERSE? && CoupletNumber(s.title).Some? then CoupletNumber(s.title).value else 0;
            Highest(sections + [s]) == if n > Highest(sections) then n else Highest(sections)
  {
    hide CoupletNumber;
    InitOfAppend(sections, [s]);
  }

  lemma ShowMore(blocks: seq<Block>, sections: seq<Section>, b: seq<Block>, s: seq<Section>)
    requires ShowAll(blocks, sections) && ShowAll(b, s)
    ensures ShowAll(blocks + b, sections + s)
  {
    hide Shows;
  }

  /** Closing the open section, if there is one. */
  lemma CloseSection(st: State, sections: seq<Section>)
    requires Tracks(st, sections)
    ensures ShowAll(Flush(st).blocks, Saying(sections)) && Flush(st).counter == st.counter
  {
    hide Flush, Highest, Pending, Kept, ShowAll, Saying;
    if sections == [] {
      NothingToFlush(st);
    } else {
      var k := |sections| - 1;
      InitLast(sections);
      FlushShows(st, sections[k]);
      SayingSnoc(sections[..k], sections[k]);
      ShowMore(st.blocks, Saying(sections[..k]), Flush(st).blocks[|st.blocks|..], if sections[k].said == [] then [] else [sections[k]]);
    }
  }

  lemma NothingToFlush(st: State)
    requires st.current == [] && st.blocks == []
    ensures ShowAll(Flush(st).blocks, Saying([])) && Flush(st).counter == st.counter
  {
    NormalizeMultilineFixpoint([]);
    assert Normal([]) by { EmptyIsNormal(); }
    NormalIsFixed([]);
  }

  lemma HeadingOpens(st: State, h: Heading, sections: seq<Section>, line: string)
    requires ShowAll(Flush(st).blocks, Saying(sections)) && Flush(st).counter == st.counter == Highest(sections)
    requires ParseSectionHeading(line, st.counter + 1) == Some(h) && Plain(line)
    ensures var f := Flush(st);
            Tracks(State(f.headings + 1, CounterAfter(f.counter, h), h.kind, h.title, if h.inline != [] then [h.inline] else [], f.blocks),
                   sections + [Section(h.kind, h.title, if h.inline != [] then [h.inline] else [])])
  {
    hide Flush, Highest, Pending, Kept, ShowAll, Saying, ParseSectionHeading, Plain, Tight, CoupletNumber, Decimal, Tidy;
    var current := if h.inline != [] then [h.inline] else [];
    SayingSnoc(sections, Section(h.kind, h.title, current));
    InitOfAppend(sections, [Section(h.kind, h.title, current)]);
    InlineIsPending(line, st.counter + 1);
    TitleIsSet(line, st.counter + 1);
    if h.kind.VERSE? { VerseHeadingNumber(line, st.counter + 1); }
  }

  lemma InlineIsPending(line: string, fallback: nat)
    requires Plain(line) && ParseSectionHeading(line, fallback).Some?
    ensures var inline := ParseSectionHeading(line, fallback).value.inline;
            var current := if inline != [] then [inline] else [];
            Pending(current) && Kept(Trim, current) == current
  {
    InlinePlain(line, fallback);
    hide Trim, Kept, ParseSectionHeading, Tight, IsSpace;
    NothingPending();
    if ParseSectionHeading(line, fallback).value.inline != [] { KeptOne(ParseSectionHeading(line, fallback).value.inline); }
  }

  lemma TitleIsSet(line: string, fallback: nat)
    requires ParseSectionHeading(line, fallback).Some?
    ensures ParseSectionHeading(line, fallback).value.title != []
  {
    hide AfterKeyword, Keyword, Decimal;
  }

  lemma SayTracks(st: State, sections: seq<Section>, line: string)
    requires Tracks(st, sections) && Tidy(line)
    ensures var n := if st.title == [] then st.(counter := st.counter + 1, kind := VERSE, title := Label(VERSE) + " " + Decimal(st.counter + 1)) else st;
            Tracks(n.(current := n.current + [line]), Say(sections, line))
  {
    assert line != [];
    hide Kept, ShowAll, Tidy, CoupletNumber, Pending, Decimal;
    if sections == [] {
      FirstVerse();
      NothingPending();
      PendingSnoc([], line);
      var first := Section(VERSE, "Couplet 1", [line]);
      assert [] + [line] == [line] && [] + [first] == [first];
      SayingSnoc([], first);
      InitOfAppend<Section>([], [first]);
      NothingShown();
    } else {
      var k := |sections| - 1;
      var last := sections[k];
      PendingSnoc(st.current, line);
      InitLast(sections);
      SayingSnoc(sections[..k], last);
      SayingSnoc(sections[..k], last.(said := last.said + [line]));
      InitOfAppend(sections[..k], [last.(said := last.said + [line])]);
    }
  }

  lemma NothingShown()
    ensures ShowAll([], Saying([]))
  {}

  lemma FirstVerse()
    ensures Label(VERSE) + " " + Decimal(1) == "Couplet 1" && CoupletNumber("Couplet 1") == Some(1)
  {
    NumberOfDecimal(1);
    CoupletNumberOf(Decimal(1));
  }

  lemma BlankTracks(st: State, sections: seq<Section>)
    requires Tracks(st, sections)
    ensures Tracks(if st.current != [] then st.(current := st.current + [[]]) else st, sections)
  {
    hide Kept, ShowAll, Highest, Pending;
    if sections != [] && st.current != [] {
      PendingSnoc(st.current, []);
      assert Kept(Trim, st.current) + [] == Kept(Trim, st.current);
    }
  }

  lemma TurnTracks(st: State, raw: string, sections: seq<Section>)
    requires Plain(raw) && Tracks(st, sections)
    ensures Tracks(Turn(st, raw), Next(sections, raw))
  {
    hide Plain, Trim, ParseSectionHeading, CounterAfter, Flush, Tracks, Highest, ShowAll, Saying, Tidy, Say, Decimal;
    var line := Trim(raw);
    TrimPlain(raw);
    CounterIsHighest(st, sections);
    if line == [] {
      BlankTracks(st, sections);
    } else if ParseSectionHeading(line, st.counter + 1).Some? {
      CloseSection(st, sections);
      HeadingOpens(st, ParseSectionHeading(line, st.counter + 1).value, sections, line);
    } else {
      TrimIsTight(raw);
      LineIsTidy(line);
      SayTracks(st, sections, line);
    }
  }

  lemma LineIsTidy(line: string)
    requires Plain(line) && Tight(line) && line != []
    ensures Tidy(line)
  {}

  lemma CounterIsHighest(st: State, sections: seq<Section>)
    requires Tracks(st, sections)
    ensures st.counter == Highest(sections)
  {}

  lemma {:induction false} RunTracks(lines: seq<string>, n: nat)
    requires AllPlain(lines) && n <= |lines|
    ensures Tracks(Run(lines, n), SectionsTo(lines, n))
  {
    hide Turn, Tracks, Next, Plain;
    if n == 0 {
      StartTracks();
    } else {
      RunTracks(lines, n - 1);
      assert Plain(lines[n - 1]);
      TurnTracks(Run(lines, n - 1), lines[n - 1], SectionsTo(lines, n - 1));
    }
  }

  lemma StartTracks()
    ensures Tracks(START, [])
  {}

  /** The sections of the lyrics. */
  function SectionsOf(lyrics: string): seq<Section> {
    var lines := Split(NormalizeMultiline(lyrics));
    SectionsTo(lines, |lines|)
  }

  /** The blocks of the heading parser are the sections that say something, in order, each with its kind, its
      title and exactly its lines. */
  lemma BlocksAreSections(lyrics: string)
    ensures var lines := Split(NormalizeMultiline(lyrics));
            ShowAll(Renumber(Flush(Run(lines, |lines|)).blocks), Saying(SectionsOf(lyrics)))
  {
    hide NormalizeMultiline, Run, Flush, SectionsTo, Saying, Tracks, Content;
    var lines := Split(NormalizeMultiline(lyrics));
    NormalLinesArePlain(lyrics);
    RunTracks(lines, |lines|);
    CloseSection(Run(lines, |lines|), SectionsTo(lines, |lines|));
  }

  // ---------------------------------------------------------------- the sections, by position

  lemma {:induction false} HighestBounds(sections: seq<Section>)
    ensures forall k | 0 <= k < |sections| && sections[k].kind.VERSE? && CoupletNumber(sections[k].title).Some? ::
              CoupletNumber(sections[k].title).value <= Highest(sections)
    ensures Highest(sections) > 0 ==>
              exists k :: 0 <= k < |sections| && sections[k].kind.VERSE? && CoupletNumber(sections[k].title) == Some(Highest(sections))
  {
    hide CoupletNumber;
    if sections != [] {
      var init := sections[..|sections| - 1];
      HighestBounds(init);
      assert forall k | 0 <= k < |init| :: init[k] == sections[k];
      if 0 < Highest(sections) == Highest(init) {
        var k :| 0 <= k < |init| && init[k].kind.VERSE? && CoupletNumber(init[k].title) == Some(Highest(init));
        assert sections[k] == init[k];
      }
    }
  }

  lemma NextOfLyric(sections: seq<Section>, raw: string)
    requires !IsHeading(raw) && sections != []
    ensures var k := |sections| - 1;
            Next(sections, raw) == sections[..k] + [sections[k].(said := sections[k].said + Spoken(raw))]
  {
    hide ParseSectionHeading, Trim, Highest;
    HeadingIgnoresFallback(Trim(raw), Highest(sections) + 1, 1);
    InitLast(sections);
    var k := |sections| - 1;
    assert sections[k].said + [] == sections[k].said;
  }

  lemma NextOfHeading(sections: seq<Section>, raw: string)
    requires IsHeading(raw)
    ensures var h := ParseSectionHeading(Trim(raw), Highest(sections) + 1);
            h.Some? && Next(sections, raw) == sections + [Section(h.value.kind, h.value.title, Spoken(raw))]
  {
    hide ParseSectionHeading, Trim, Highest;
    HeadingIgnoresFallback(Trim(raw), Highest(sections) + 1, 1);
  }

  /** What lines `i` to `j` say. */
  function SaidBetween(lines: seq<string>, i: nat, j: nat): seq<string>
    requires i <= j <= |lines|
    decreases j
  {
    if i == j then [] else SaidBetween(lines, i, j - 1) + Spoken(lines[j - 1])
  }

  /** The section that opens at a heading. */
  function SectionAt(lines: seq<string>, i: nat, j: nat): (s: Section)
    requires i < j <= |lines| && IsHeading(lines[i])
  {
    NextOfHeading(SectionsTo(lines, i), lines[i]);
    var h := ParseSectionHeading(Trim(lines[i]), Highest(SectionsTo(lines, i)) + 1).value;
    Section(h.kind, h.title, SaidBetween(lines, i, j))
  }

  /** Before the first heading there is one verse, if anything is said there. */
  lemma {:induction false} BeforeHeadings(lines: seq<string>, n: nat)
    requires n <= |lines| && forall k | 0 <= k < n :: !IsHeading(lines[k])
    ensures SectionsTo(lines, n) == if SaidBetween(lines, 0, n) == [] then [] else [Section(VERSE, "Couplet 1", SaidBetween(lines, 0, n))]
  {
    hide IsHeading, Spoken, Next;
    if n > 0 {
      BeforeHeadings(lines, n - 1);
      if SectionsTo(lines, n - 1) == [] {
        NextOfFirst(lines[n - 1]);
        assert [] + Spoken(lines[n - 1]) == Spoken(lines[n - 1]);
      } else {
        NextOfLyric(SectionsTo(lines, n - 1), lines[n - 1]);
      }
    }
  }

  lemma NextOfFirst(raw: string)
    requires !IsHeading(raw)
    ensures Next([], raw) == if Spoken(raw) == [] then [] else [Section(VERSE, "Couplet 1", Spoken(raw))]
  {
    hide ParseSectionHeading, Trim;
    HeadingIgnoresFallback(Trim(raw), 1, 1);
  }

  /** A heading opens one section, which holds what is said up to the next heading. */
  lemma {:induction false} HeadingToHeading(lines: seq<string>, i: nat, j: nat)
    requires i < j <= |lines| && IsHeading(lines[i]) && forall k | i < k < j :: !IsHeading(lines[k])
    ensures SectionsTo(lines, j) == SectionsTo(lines, i) + [SectionAt(lines, i, j)]
    decreases j
  {
    hide IsHeading, Spoken, Next, Highest, ParseSectionHeading;
    NextOfHeading(SectionsTo(lines, i), lines[i]);
    var before := SectionsTo(lines, i);
    if j == i + 1 {
      assert SaidBetween(lines, i, i) == [];
      assert [] + Spoken(lines[i]) == Spoken(lines[i]);
    } else {
      HeadingToHeading(lines, i, j - 1);
      NextOfLyric(SectionsTo(lines, j - 1), lines[j - 1]);
      InitOfAppend(before, [SectionAt(lines, i, j - 1)]);
    }
  }

  /** A verse heading without a number is titled one above every verse before it, and no higher. */
  lemma UnnumberedVerseIsNext(lines: seq<string>, i: nat, j: nat)
    requires i < j <= |lines| && IsHeading(lines[i]) && Unnumbered(Trim(lines[i]))
    requires SectionAt(lines, i, j).kind.VERSE?
    ensures var n, before := CoupletNumber(SectionAt(lines, i, j).title), SectionsTo(lines, i);
            && n.Some?
            && (forall k | 0 <= k < |before| && before[k].kind.VERSE? && CoupletNumber(before[k].title).Some? ::
                  CoupletNumber(before[k].title).value < n.value)
            && (n.value > 1 ==> exists k :: 0 <= k < |before| && before[k].kind.VERSE? && CoupletNumber(before[k].title) == Some((n.value - 1) as nat))
  {
    var before := SectionsTo(lines, i);
    hide CoupletNumber, ParseSectionHeading, Unnumbered, Highest, Trim, SectionsTo;
    NextOfHeading(before, lines[i]);
    VerseHeadingNumber(Trim(lines[i]), Highest(before) + 1);
    HighestBounds(before);
  }
}
