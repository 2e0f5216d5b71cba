/** `parseLyricsByRepeatingChunk` (songs-import.ts): cutting the lyrics at the kept repetitions. */
module RepeatBlocks {
  import opened Seqs
  import opened Text
  import opened Options
  import opened Multiline
  import opened Blocks
  import opened RepeatingChunk

  function CountOf(blocks: seq<Block>, kind: Kind): nat {
    if blocks == [] then 0
    else CountOf(blocks[..|blocks| - 1], kind) + (if blocks[|blocks| - 1].kind == kind then 1 else 0)
  }

  function VerseTitle(n: nat): string {
    "Couplet " + Decimal(n)
  }

  function ChorusTitle(n: nat): string {
    if n > 1 then "Refrain " + Decimal(n) else "Refrain"
  }

  /** The lines of all blocks, in order. */
  function Flat(blocks: seq<Block>): seq<string> {
    if blocks == [] then [] else Flat(blocks[..|blocks| - 1]) + Split(blocks[|blocks| - 1].content)
  }

  /** `out` reads like the first lines of `lines`: exactly outside the kept chunks, up to canonical
      form inside them. */
  ghost predicate ReadsLike(canon: string -> string, lines: seq<string>, c: Chunk, out: seq<string>) {
    && |out| <= |lines|
    && forall p | 0 <= p < |out| ::
         canon(out[p]) == canon(lines[p]) && (!CoveredBy(c.indices, c.length, p) ==> out[p] == lines[p])
  }

  /** The block that may follow `before`: numbered on from it, verses and choruses counted apart, a
      chorus holding the chunk and standing where a kept occurrence starts. */
  predicate MadeAfter(c: Chunk, before: seq<Block>, b: Block) {
    && b.order == |before| + 1
    && b.content != [] && AllTidy(Split(b.content))
    && match b.kind
       case VERSE => b.title == VerseTitle(CountOf(before, VERSE) + 1)
       case CHORUS => b.title == ChorusTitle(CountOf(before, CHORUS) + 1)
                      && b.content == Join(c.lines) && |Flat(before)| in c.indices
       case BRIDGE => false
  }

  /** Every block is made after the ones before it. */
  predicate WellMade(c: Chunk, blocks: seq<Block>) {
    blocks == []
    || (WellMade(c, blocks[..|blocks| - 1]) && MadeAfter(c, blocks[..|blocks| - 1], blocks[|blocks| - 1]))
  }

  lemma {:induction false} WellMadeIsNumbered(c: Chunk, blocks: seq<Block>)
    requires WellMade(c, blocks)
    ensures Numbered(blocks)
  {
    hide MadeAfter;
    if blocks != [] {
      var before := blocks[..|blocks| - 1];
      WellMadeIsNumbered(c, before);
      LastOrder(c, blocks);
      assert forall i | 0 <= i < |before| :: blocks[i] == before[i];
    }
  }

  lemma LastOrder(c: Chunk, blocks: seq<Block>)
    requires blocks != [] && MadeAfter(c, blocks[..|blocks| - 1], blocks[|blocks| - 1])
    ensures blocks[|blocks| - 1].order == |blocks|
  {
  }

  /** Verses and choruses are counted apart, and the first chorus has no number. */
  predicate TitledAfter(before: seq<Block>, b: Block) {
    var n := CountOf(before, b.kind) + 1;
    match b.kind
    case VERSE => b.title == "Couplet " + Decimal(n)
    case CHORUS => b.title == if n == 1 then "Refrain" else "Refrain " + Decimal(n)
    case BRIDGE => false
  }

  predicate Titled(blocks: seq<Block>) {
    forall i | 0 <= i < |blocks| :: TitledAfter(blocks[..i], blocks[i])
  }

  lemma MadeIsTitled(c: Chunk, before: seq<Block>, b: Block)
    requires MadeAfter(c, before, b)
    ensures TitledAfter(before, b)
  {
    hide CountOf, Flat, AllTidy, Decimal;
  }

  lemma {:induction false} WellMadeIsTitled(c: Chunk, blocks: seq<Block>)
    requires WellMade(c, blocks)
    ensures Titled(blocks)
  {
    hide MadeAfter, TitledAfter;
    if blocks != [] {
      var k := |blocks| - 1;
      WellMadeIsTitled(c, blocks[..k]);
      MadeIsTitled(c, blocks[..k], blocks[k]);
      forall i | 0 <= i < k ensures TitledAfter(blocks[..i], blocks[i]) {
        assert blocks[..k][..i] == blocks[..i] && TitledAfter(blocks[..k][..i], blocks[..k][i]);
      }
    }
  }

  /** The number of kept starts before `cursor`. */
  function StartsBefore(indices: seq<nat>, cursor: nat): nat {
    if indices == [] then 0
    else StartsBefore(indices[..|indices| - 1], cursor) + (if indices[|indices| - 1] < cursor then 1 else 0)
  }

  lemma {:induction false} StartsBeforeEnd(indices: seq<nat>, n: nat)
    requires forall a | 0 <= a < |indices| :: indices[a] < n
    ensures StartsBefore(indices, n) == |indices|
  {
    if indices != [] { StartsBeforeEnd(indices[..|indices| - 1], n); }
  }

  lemma {:induction false} StartsBeforeZero(indices: seq<nat>)
    ensures StartsBefore(indices, 0) == 0
  {
    if indices != [] { StartsBeforeZero(indices[..|indices| - 1]); }
  }

  lemma {:induction false} StartsBeforeSame(indices: seq<nat>, a: nat, b: nat)
    requires a <= b && forall i | 0 <= i < |indices| :: !(a <= indices[i] < b)
    ensures StartsBefore(indices, a) == StartsBefore(indices, b)
  {
    if indices != [] { StartsBeforeSame(indices[..|indices| - 1], a, b); }
  }

  /** Jumping over a kept occurrence passes exactly one start. */
  lemma {:induction false} StartsBeforeJump(indices: seq<nat>, len: nat, cursor: nat)
    requires Spaced(indices, len) && len > 0 && cursor in indices
    ensures StartsBefore(indices, cursor + len) == StartsBefore(indices, cursor) + 1
  {
    var k := |indices| - 1;
    assert Spaced(indices[..k], len);
    if indices[k] == cursor {
      forall i | 0 <= i < k ensures !(cursor <= indices[..k][i] < cursor + len) {
        SpacedMonotone(indices, len, i, k - 1);
      }
      StartsBeforeSame(indices[..k], cursor, cursor + len);
    } else {
      var a :| 0 <= a < |indices| && indices[a] == cursor;
      assert indices[..k][a] == cursor;
      SpacedMonotone(indices, len, a + 1, k);
      StartsBeforeJump(indices[..k], len, cursor);
    }
  }

  lemma NoStartInside(c: Chunk, cursor: nat, p: nat)
    requires Spaced(c.indices, c.length) && c.length > 0
    requires cursor in c.indices && cursor <= p < cursor + c.length
    ensures CoveredBy(c.indices, c.length, p)
  {
    var a :| 0 <= a < |c.indices| && c.indices[a] == cursor;
  }

  /** One more block at the end. */
  lemma PushBlock(blocks: seq<Block>, b: Block)
    ensures Flat(blocks + [b]) == Flat(blocks) + Split(b.content)
    ensures forall k: Kind :: CountOf(blocks + [b], k) == CountOf(blocks, k) + (if b.kind == k then 1 else 0)
  {
    InitOfAppend(blocks, [b]);
    assert blocks + [b][..0] == blocks;
  }

  lemma PushWellMade(c: Chunk, blocks: seq<Block>, b: Block)
    requires WellMade(c, blocks) && MadeAfter(c, blocks, b)
    ensures WellMade(c, blocks + [b])
  {
    hide MadeAfter;
    InitOfAppend(blocks, [b]);
    assert blocks + [b][..0] == blocks;
  }

  /** The state of the walk: everything before `cursor` is in the blocks or in the pending verse. */
  ghost predicate Walked(
    canon: string -> string, lines: seq<string>, c: Chunk, cursor: nat, blocks: seq<Block>, verse: seq<string>)
  {
    && WellMade(c, blocks) && AllTidy(verse)
    && cursor == |Flat(blocks)| + |verse|
    && ReadsLike(canon, lines, c, Flat(blocks) + verse)
    && CountOf(blocks, CHORUS) == StartsBefore(c.indices, cursor)
  }

  lemma FlushStep(
    canon: string -> string, lines: seq<string>, c: Chunk, cursor: nat, blocks: seq<Block>, verse: seq<string>)
    requires Walked(canon, lines, c, cursor, blocks, verse) && verse != []
    ensures NormalizeMultiline(Join(verse)) == Join(verse) != []
    ensures Walked(canon, lines, c, cursor,
                   blocks + [Block(|blocks| + 1, VERSE, VerseTitle(CountOf(blocks, VERSE) + 1), Join(verse))], [])
  {
    hide WellMade, ReadsLike, AllTidy, NormalizeMultiline;
    TidyLinesSurvive(verse);
    var b := Block(|blocks| + 1, VERSE, VerseTitle(CountOf(blocks, VERSE) + 1), Join(verse));
    PushBlock(blocks, b);
    PushWellMade(c, blocks, b);
    assert Flat(blocks) + verse + [] == Flat(blocks) + verse;
    assert AllTidy([]) by { NothingIsTidy(); }
  }

  lemma NothingIsTidy()
    ensures AllTidy([])
  {
  }

  lemma LineStep(
    canon: string -> string, lines: seq<string>, c: Chunk, cursor: nat, blocks: seq<Block>, verse: seq<string>)
    requires Walked(canon, lines, c, cursor, blocks, verse)
    requires AllTidy(lines) && cursor < |lines| && cursor !in c.indices
    ensures Walked(canon, lines, c, cursor + 1, blocks, verse + [lines[cursor]])
  {
    hide WellMade, Tidy;
    Assoc(Flat(blocks), verse, [lines[cursor]]);
    StartsBeforeSame(c.indices, cursor, cursor + 1);
  }

  lemma ChunkReads(canon: string -> string, lines: seq<string>, c: Chunk, cursor: nat)
    requires IsChunkOf(canon, lines, c) && cursor in c.indices
    ensures |c.lines| == c.length && cursor + c.length <= |lines|
    ensures forall d | 0 <= d < c.length :: canon(c.lines[d]) == canon(lines[cursor + d])
  {
    hide Voiced, Spaced, Passes, Saturated;
    var a :| 0 <= a < |c.indices| && c.indices[a] == cursor;
    assert SameChunk(canon, lines, c.indices[0], c.indices[a], c.length);
    forall d | 0 <= d < c.length ensures canon(c.lines[d]) == canon(lines[cursor + d]) {
      SameLine(canon, lines, c.indices[0], cursor, c.length, d);
      assert c.lines[d] == lines[c.indices[0] + d];
    }
  }

  lemma SameLine(canon: string -> string, lines: seq<string>, i: nat, j: nat, len: nat, d: nat)
    requires i + len <= |lines| && j + len <= |lines| && SameChunk(canon, lines, i, j, len) && d < len
    ensures canon(lines[i + d]) == canon(lines[j + d])
  {
    assert CanonLines(canon, lines, i, len)[d] == CanonLines(canon, lines, j, len)[d];
  }

  lemma ChunkIsTidy(canon: string -> string, lines: seq<string>, c: Chunk)
    requires IsChunkOf(canon, lines, c) && AllTidy(lines)
    ensures c.lines != [] && AllTidy(c.lines)
  {
    hide Tidy;
    assert forall d | 0 <= d < c.length :: c.lines[d] == lines[c.indices[0] + d];
  }

  function ChorusBlock(c: Chunk, blocks: seq<Block>): Block {
    Block(|blocks| + 1, CHORUS, ChorusTitle(CountOf(blocks, CHORUS) + 1), Join(c.lines))
  }

  lemma ChunkFits(canon: string -> string, lines: seq<string>, c: Chunk, cursor: nat)
    requires IsChunkOf(canon, lines, c) && cursor in c.indices
    ensures |c.lines| == c.length && cursor + c.length <= |lines|
  {
    hide *;
    ChunkReads(canon, lines, c, cursor);
  }

  lemma ChorusBlockIs(c: Chunk, blocks: seq<Block>)
    ensures ChorusBlock(c, blocks)
         == Block(|blocks| + 1, CHORUS, ChorusTitle(CountOf(blocks, CHORUS) + 1), Join(c.lines))
  {}

  lemma ChorusStep(canon: string -> string, lines: seq<string>, c: Chunk, cursor: nat, blocks: seq<Block>)
    requires Walked(canon, lines, c, cursor, blocks, []) && IsChunkOf(canon, lines, c)
    requires AllTidy(lines) && cursor in c.indices
    ensures NormalizeMultiline(Join(c.lines)) == Join(c.lines) && cursor + c.length <= |lines|
    ensures Walked(canon, lines, c, cursor + c.length,
                   blocks + [Block(|blocks| + 1, CHORUS, ChorusTitle(CountOf(blocks, CHORUS) + 1), Join(c.lines))], [])
  {
    hide *;
    ChorusBlockIs(c, blocks);
    WalkedParts(canon, lines, c, cursor, blocks);
    ChunkIsTidy(canon, lines, c);
    TidyLinesSurvive(c.lines);
    ChunkFits(canon, lines, c, cursor);
    ChorusReads(canon, lines, c, cursor, blocks);
    ChorusCounts(canon, lines, c, cursor, blocks);
    ChorusIsMade(c, blocks);
    WalkedWhole(canon, lines, c, cursor + c.length, blocks + [ChorusBlock(c, blocks)]);
  }

  lemma WalkedParts(canon: string -> string, lines: seq<string>, c: Chunk, cursor: nat, blocks: seq<Block>)
    requires Walked(canon, lines, c, cursor, blocks, [])
    ensures WellMade(c, blocks) && cursor == |Flat(blocks)| && ReadsLike(canon, lines, c, Flat(blocks))
    ensures CountOf(blocks, CHORUS) == StartsBefore(c.indices, cursor)
  {
    hide WellMade, ReadsLike, CountOf, StartsBefore, Flat;
    assert Flat(blocks) + [] == Flat(blocks);
  }

  lemma WalkedWhole(canon: string -> string, lines: seq<string>, c: Chunk, cursor: nat, blocks: seq<Block>)
    requires WellMade(c, blocks) && cursor == |Flat(blocks)| && ReadsLike(canon, lines, c, Flat(blocks))
    requires CountOf(blocks, CHORUS) == StartsBefore(c.indices, cursor)
    ensures Walked(canon, lines, c, cursor, blocks, [])
  {
    hide WellMade, ReadsLike, CountOf, StartsBefore, Flat;
    assert Flat(blocks) + [] == Flat(blocks);
    NothingIsTidy();
  }

  lemma ChorusReads(canon: string -> string, lines: seq<string>, c: Chunk, cursor: nat, blocks: seq<Block>)
    requires IsChunkOf(canon, lines, c) && cursor in c.indices && cursor == |Flat(blocks)|
    requires Split(Join(c.lines)) == c.lines && |c.lines| == c.length && ReadsLike(canon, lines, c, Flat(blocks))
    ensures var after := blocks + [ChorusBlock(c, blocks)];
            |Flat(after)| == cursor + c.length && ReadsLike(canon, lines, c, Flat(after))
  {
    hide IsChunkOf, ReadsLike, Flat, CountOf, Split, Join, ChorusTitle;
    PushBlock(blocks, ChorusBlock(c, blocks));
    ReadsFurther(canon, lines, c, cursor, Flat(blocks));
  }

  lemma ChorusCounts(canon: string -> string, lines: seq<string>, c: Chunk, cursor: nat, blocks: seq<Block>)
    requires IsChunkOf(canon, lines, c) && cursor in c.indices
    requires CountOf(blocks, CHORUS) == StartsBefore(c.indices, cursor)
    ensures CountOf(blocks + [ChorusBlock(c, blocks)], CHORUS) == StartsBefore(c.indices, cursor + c.length)
  {
    hide IsChunkOf, Flat, CountOf, StartsBefore, Spaced, ChorusTitle, Join;
    PushBlock(blocks, ChorusBlock(c, blocks));
    ChunkHasLength(canon, lines, c);
    StartsBeforeJump(c.indices, c.length, cursor);
  }

  lemma ChorusIsMade(c: Chunk, blocks: seq<Block>)
    requires WellMade(c, blocks) && |Flat(blocks)| in c.indices
    requires Join(c.lines) != [] && AllTidy(c.lines) && Split(Join(c.lines)) == c.lines
    ensures WellMade(c, blocks + [ChorusBlock(c, blocks)])
  {
    hide WellMade, Flat, CountOf, Split, Join, ChorusTitle, AllTidy;
    PushWellMade(c, blocks, ChorusBlock(c, blocks));
  }

  lemma ChunkHasLength(canon: string -> string, lines: seq<string>, c: Chunk)
    requires IsChunkOf(canon, lines, c)
    ensures c.length > 0 && Spaced(c.indices, c.length) && c.indices != []
    ensures forall a | 0 <= a < |c.indices| :: c.indices[a] < |lines|
    ensures |c.indices| >= 2
  {
  }

  lemma ReadsFurther(canon: string -> string, lines: seq<string>, c: Chunk, cursor: nat, out: seq<string>)
    requires IsChunkOf(canon, lines, c) && cursor in c.indices && cursor == |out|
    requires ReadsLike(canon, lines, c, out)
    ensures ReadsLike(canon, lines, c, out + c.lines)
  {
    hide IsChunkOf, CoveredBy;
    ChunkReads(canon, lines, c, cursor);
    ChunkHasLength(canon, lines, c);
    var r := out + c.lines;
    forall p | 0 <= p < |r|
      ensures canon(r[p]) == canon(lines[p]) && (!CoveredBy(c.indices, c.length, p) ==> r[p] == lines[p])
    {
      if p >= |out| {
        NoStartInside(c, cursor, p);
        assert r[p] == c.lines[p - |out|];
      } else {
        assert r[p] == out[p];
      }
    }
  }

  /** The lyric lines that the walk works on. */
  function LyricLines(lyrics: string): seq<string> {
    Content(NormalizeMultiline(lyrics))
  }

  lemma LyricLinesAreTidy(lyrics: string)
    ensures AllTidy(LyricLines(lyrics))
  {
    NormalizeReachesNormal(lyrics);
    ContentIsTidy(NormalizeMultiline(lyrics));
  }

  /** The blocks partition the lyric lines: read back in order they give every line, exactly outside the
      kept repetitions and up to canonical form inside them, with one chorus per kept repetition. */
  ghost predicate Partition(canon: string -> string, lines: seq<string>, c: Chunk, blocks: seq<Block>) {
    && IsChunkOf(canon, lines, c)
    && WellMade(c, blocks)
    && |Flat(blocks)| == |lines| && ReadsLike(canon, lines, c, Flat(blocks))
    && CountOf(blocks, CHORUS) == |c.indices|
  }

  lemma {:induction false} CountBound(blocks: seq<Block>, kind: Kind)
    ensures CountOf(blocks, kind) <= |blocks|
  {
    if blocks != [] { CountBound(blocks[..|blocks| - 1], kind); }
  }

  ghost predicate HasRepetition(canon: string -> string, lines: seq<string>) {
    exists len, starts :: Repeats(canon, lines, len, starts)
  }

  lemma NoRepetition(canon: string -> string, lines: seq<string>, best: Option<Chunk>)
    requires best.Some? ==> IsChunkOf(canon, lines, best.value)
    requires forall len, starts | Repeats(canon, lines, len, starts) :: Beats(best, len, starts)
    ensures best.Some? <==> HasRepetition(canon, lines)
  {
    hide Repeats;
    if best.Some? { assert Repeats(canon, lines, best.value.length, best.value.indices); }
  }

  /** Cuts the lyrics at the best repetition; gives up exactly when there are too few lines or nothing
      repeats. */
  method ParseLyricsByRepeatingChunk(canon: string -> string, lyrics: string)
    returns (result: Option<seq<Block>>, ghost chunk: Option<Chunk>)
    requires LineLike(canon)
    ensures result.Some? <==> |LyricLines(lyrics)| >= 6 && HasRepetition(canon, LyricLines(lyrics))
    ensures result.Some? ==> chunk.Some? && Partition(canon, LyricLines(lyrics), chunk.value, result.value) && |result.value| >= 2
    ensures result.Some? ==>
              forall len, starts | Repeats(canon, LyricLines(lyrics), len, starts) :: Beats(chunk, len, starts)
  {
    hide *;
    var lines := LyricLines(lyrics);
    LyricLinesAreTidy(lyrics);
    chunk := None;
    if |lines| < 6 { return None, None; }
    var repeating := FindBestRepeatingChunk(canon, lines);
    chunk := repeating;
    NoRepetition(canon, lines, repeating);
    if repeating.None? { return None, None; }
    var blocks := Walk(canon, lines, repeating.value);
    if |blocks| <= 1 { return None, None; }
    result := Some(Renumber(blocks));
    assert result.value == blocks by { PartitionIsNumbered(canon, lines, repeating.value, blocks); RenumberOfNumbered(blocks); }
  }

  lemma RenumberOfNumbered(blocks: seq<Block>)
    requires Numbered(blocks)
    ensures Renumber(blocks) == blocks
  {
  }

  lemma PartitionIsNumbered(canon: string -> string, lines: seq<string>, c: Chunk, blocks: seq<Block>)
    requires Partition(canon, lines, c, blocks)
    ensures Numbered(blocks)
  {
    WellMadeIsNumbered(c, blocks);
  }

  /** The loop of `parseLyricsByRepeatingChunk`. */
  method Walk(canon: string -> string, lines: seq<string>, c: Chunk) returns (blocks: seq<Block>)
    requires AllTidy(lines) && IsChunkOf(canon, lines, c)
    ensures Partition(canon, lines, c, blocks) && |blocks| >= 2
  {
    hide *;
    blocks := [];
    var verseCounter, chorusCounter, cursor := 0, 0, 0;
    var verse: seq<string> := [];
    WalkStarts(canon, lines, c);
    ChunkHasLength(canon, lines, c);
    while cursor < |lines|
      invariant cursor <= |lines|
      invariant Walked(canon, lines, c, cursor, blocks, verse)
      invariant verseCounter == CountOf(blocks, VERSE) && chorusCounter == CountOf(blocks, CHORUS)
      decreases |lines| - cursor
    {
      if cursor in c.indices {
        blocks, verse, verseCounter := FlushVerse(canon, lines, c, cursor, blocks, verse, verseCounter);
        ChorusStep(canon, lines, c, cursor, blocks);
        chorusCounter := chorusCounter + 1;
        var b := Block(|blocks| + 1, CHORUS, ChorusTitle(chorusCounter), NormalizeMultiline(Join(c.lines)));
        PushBlock(blocks, b);
        blocks := blocks + [b];
        cursor := cursor + c.length;
      } else {
        LineStep(canon, lines, c, cursor, blocks, verse);
        verse := verse + [lines[cursor]];
        cursor := cursor + 1;
      }
    }
    blocks, verse, verseCounter := FlushVerse(canon, lines, c, cursor, blocks, verse, verseCounter);
    WalkEnds(canon, lines, c, blocks);
  }

  lemma WalkStarts(canon: string -> string, lines: seq<string>, c: Chunk)
    ensures Walked(canon, lines, c, 0, [], [])
    ensures CountOf([], VERSE) == CountOf([], CHORUS) == 0
  {
    StartsBeforeZero(c.indices);
  }

  lemma WalkEnds(canon: string -> string, lines: seq<string>, c: Chunk, blocks: seq<Block>)
    requires IsChunkOf(canon, lines, c) && Walked(canon, lines, c, |lines|, blocks, [])
    ensures Partition(canon, lines, c, blocks) && |blocks| >= 2
  {
    hide WellMade, IsChunkOf, ReadsLike;
    ChunkHasLength(canon, lines, c);
    StartsBeforeEnd(c.indices, |lines|);
    CountBound(blocks, CHORUS);
    assert Flat(blocks) + [] == Flat(blocks);
  }

  /** `flushVerse` */
  method FlushVerse(
    ghost canon: string -> string, ghost lines: seq<string>, ghost c: Chunk, ghost cursor: nat,
    blocks: seq<Block>, verse: seq<string>, verseCounter: nat)
    returns (blocks': seq<Block>, verse': seq<string>, verseCounter': nat)
    requires Walked(canon, lines, c, cursor, blocks, verse) && verseCounter == CountOf(blocks, VERSE)
    ensures Walked(canon, lines, c, cursor, blocks', verse') && verseCounter' == CountOf(blocks', VERSE)
    ensures verse' == [] && CountOf(blocks', CHORUS) == CountOf(blocks, CHORUS)
  {
    hide *;
    blocks', verse', verseCounter' := blocks, verse, verseCounter;
    if verse == [] { return; }
    var content := NormalizeMultiline(Join(verse));
    FlushStep(canon, lines, c, cursor, blocks, verse);
    verseCounter' := verseCounter + 1;
    var b := Block(|blocks| + 1, VERSE, VerseTitle(verseCounter'), content);
    PushBlock(blocks, b);
    blocks' := blocks + [b];
    verse' := [];
  }
}
