/** Lyric blocks and the lines they carry. */
module Blocks {
  import opened Seqs
  import opened Text
  import opened Multiline

  datatype Kind = VERSE | CHORUS | BRIDGE

  datatype Block = Block(order: nat, kind: Kind, title: string, content: string)

  /** Decimal notation. */
  function Decimal(n: nat): (r: string)
    ensures r != [] && AllDigits(r)
  {
    if n < 10 then [DigitChar(n)] else Decimal(n / 10) + [DigitChar(n % 10)]
  }

  function DigitChar(d: nat): char
    requires d < 10
  {
    "0123456789"[d]
  }

  predicate IsDigit(c: char) {
    '0' <= c <= '9'
  }

  predicate AllDigits(s: string) {
    forall i | 0 <= i < |s| :: IsDigit(s[i])
  }

  /** `Number(s)` for a string of digits. */
  function NumberOf(s: string): nat
    requires AllDigits(s)
  {
    if s == [] then 0 else 10 * NumberOf(s[..|s| - 1]) + (s[|s| - 1] as int - '0' as int)
  }

  lemma {:induction false} NumberOfDecimal(n: nat)
    ensures NumberOf(Decimal(n)) == n
  {
    if n < 10 {
      assert Decimal(n)[..0] == [];
    } else {
      NumberOfDecimal(n / 10);
      InitOfAppend(Decimal(n / 10), [DigitChar(n % 10)]);
      assert Decimal(n / 10) + [DigitChar(n % 10)][..0] == Decimal(n / 10);
    }
  }

  predicate Numbered(blocks: seq<Block>) {
    forall i | 0 <= i < |blocks| :: blocks[i].order == i + 1
  }

  /** `blocks.map((block, idx) => ({ ...block, order: idx + 1 }))` */
  function Renumber(blocks: seq<Block>): (r: seq<Block>)
    ensures |r| == |blocks| && Numbered(r)
    ensures forall i | 0 <= i < |r| :: r[i] == blocks[i].(order := i + 1)
  {
    seq(|blocks|, i requires 0 <= i < |blocks| => blocks[i].(order := i + 1))
  }

  /** The trimmed non-blank lines of all blocks, in order. */
  function BlocksContent(blocks: seq<Block>): seq<string> {
    if blocks == [] then [] else Content(blocks[0].content) + BlocksContent(blocks[1..])
  }

  lemma {:induction false} BlocksContentAppend(a: seq<Block>, b: seq<Block>)
    ensures BlocksContent(a + b) == BlocksContent(a) + BlocksContent(b)
  {
    if a == [] {
      assert a + b == b;
    } else {
      BlocksContentAppend(a[1..], b);
      TailOfAppend(a, b);
      Assoc(Content(a[0].content), BlocksContent(a[1..]), BlocksContent(b));
    }
  }

  lemma BlocksContentSnoc(a: seq<Block>, b: Block)
    ensures BlocksContent(a + [b]) == BlocksContent(a) + Content(b.content)
  {
    BlocksContentAppend(a, [b]);
    assert [b][1..] == [];
    assert BlocksContent([b]) == Content(b.content) + BlocksContent([b][1..]) == Content(b.content);
  }

  lemma {:induction false} BlocksContentByContent(a: seq<Block>, b: seq<Block>)
    requires |a| == |b| && forall i | 0 <= i < |a| :: a[i].content == b[i].content
    ensures BlocksContent(a) == BlocksContent(b)
  {
    if a != [] { BlocksContentByContent(a[1..], b[1..]); }
  }

  // ---------------------------------------------------------------- tidy lines

  /** A line as it comes out of `.split("\n").map(trim).filter(Boolean)` on a normal text. */
  predicate Tidy(line: string) {
    line != [] && Tight(line) && HasNoBreak(line) && NoReturn(line)
  }

  predicate AllTidy(lines: seq<string>) {
    forall i | 0 <= i < |lines| :: Tidy(lines[i])
  }

  lemma ReturnFree(s: string, i: nat)
    requires NoReturn(s) && i < |Split(s)|
    ensures NoReturn(Split(s)[i])
    decreases |s|
  {
    if s != [] {
      var r := Split(s[1..]);
      assert NoReturn(s[1..]) by { assert forall k | 0 <= k < |s[1..]| :: s[1..][k] == s[k + 1]; }
      if s[0] == '\n' {
        if i > 0 { ReturnFree(s[1..], i - 1); }
      } else {
        ReturnFree(s[1..], i);
      }
    }
  }

  lemma TrimmedLineIsTidy(line: string)
    requires HasNoBreak(line) && NoReturn(line) && !AllSpace(line)
    ensures Tidy(Trim(line))
  {
    hide IsSpace, Trim, AllSpace;
    TrimIsTight(line);
    TrimEmpty(line);
    var a, b := TrimParts(line);
    var r := Trim(line);
    assert forall i | 0 <= i < |r| :: r[i] == (a + r + b)[|a| + i];
  }

  lemma {:induction false} KeptIsTidy(lines: seq<string>)
    requires forall i | 0 <= i < |lines| :: HasNoBreak(lines[i]) && NoReturn(lines[i])
    ensures AllTidy(Kept(Trim, lines))
  {
    hide Tidy, AllSpace, Trim, HasNoBreak, NoReturn;
    if lines != [] {
      KeptIsTidy(lines[1..]);
      if !AllSpace(lines[0]) { TrimmedLineIsTidy(lines[0]); }
    }
  }

  lemma ContentIsTidy(s: string)
    requires NoReturn(s)
    ensures AllTidy(Content(s))
  {
    forall i | 0 <= i < |Split(s)| ensures HasNoBreak(Split(s)[i]) && NoReturn(Split(s)[i]) {
      ReturnFree(s, i);
    }
    KeptIsTidy(Split(s));
  }

  /** Tidy lines joined by line breaks are in normal form. */
  lemma {:induction false} TidyJoinIsNormal(lines: seq<string>)
    requires lines != [] && AllTidy(lines)
    ensures Normal(Join(lines)) && Join(lines) != [] && Join(lines)[0] == lines[0][0]
  {
    assert Tidy(lines[0]);
    if |lines| == 1 {
      TidyIsNormal(lines[0]);
    } else {
      assert AllTidy(lines[1..]);
      TidyJoinIsNormal(lines[1..]);
      TidyPair(lines[0], Join(lines[1..]));
    }
  }

  lemma TidyIsNormal(line: string)
    requires Tidy(line)
    ensures Normal(line)
  {
  }

  lemma TidyPair(line: string, rest: string)
    requires Tidy(line) && Normal(rest) && rest != []
    ensures Normal(line + "\n" + rest)
  {
    hide IsSpace;
    TidyIsNormal(line);
    hide NoReturn, NoPadBeforeBreak, NoTripleBreak;
    BrokenNormal(rest);
    CleanAppend(line, "\n" + rest);
    Assoc(line, "\n", rest);
    TightEnds(line, "\n", rest);
  }

  /** A block made of tidy lines is stored as they are and reads back as those lines. */
  lemma TidyLinesSurvive(lines: seq<string>)
    requires lines != [] && AllTidy(lines)
    ensures NormalizeMultiline(Join(lines)) == Join(lines) != []
    ensures Split(Join(lines)) == lines && Content(Join(lines)) == lines
  {
    hide IsSpace, NormalizeMultiline, Normal;
    TidyJoinIsNormal(lines);
    NormalIsFixed(Join(lines));
    SplitJoin(lines);
    KeptOfTidy(lines);
  }

  lemma {:induction false} KeptOfTidy(lines: seq<string>)
    requires AllTidy(lines)
    ensures Kept(Trim, lines) == lines
  {
    hide IsSpace, Trim;
    if lines != [] {
      assert Tidy(lines[0]);
      KeptOfTidy(lines[1..]);
      TrimOfTight(lines[0]);
      TrimEmpty(lines[0]);
      HeadTail(lines);
    }
  }

  /** A line without line breaks or carriage returns. */
  predicate Plain(line: string) {
    HasNoBreak(line) && NoReturn(line)
  }

  predicate AllPlain(lines: seq<string>) {
    forall i | 0 <= i < |lines| :: Plain(lines[i])
  }

  lemma {:induction false} JoinPlain(lines: seq<string>)
    requires AllPlain(lines)
    ensures NoReturn(Join(lines))
  {
    if |lines| > 1 {
      assert Plain(lines[0]) && AllPlain(lines[1..]);
      JoinPlain(lines[1..]);
    } else if |lines| == 1 {
      assert Plain(lines[0]);
    }
  }

  lemma KeptOne(line: string)
    requires line == [] || Tidy(line)
    ensures Kept(Trim, [line]) == if line == [] then [] else [line]
  {
    hide Trim, IsSpace;
    assert [line][1..] == [];
    assert Kept(Trim, [line]) == Emit(Trim, line) + Kept(Trim, [line][1..]);
    if line != [] {
      TrimOfTight(line);
      TrimEmpty(line);
    }
  }

  lemma EmptyContent()
    ensures Content([]) == []
  {
    KeptOne([]);
  }
}
