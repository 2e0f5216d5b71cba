/** What `splitBlocks` (songs-import.ts) cuts: the paragraphs are the runs of lines that are not blank. */
module ParagraphRuns {
  import opened Seqs
  import opened Text
  import opened Multiline
  import opened Headings
  import opened LyricsToBlocks

  /** The runs of non-blank lines, each line trimmed; `run` is the run that is open. */
  function Runs(run: seq<string>, lines: seq<string>): seq<seq<string>>
    decreases |lines|
  {
    if lines == [] then Closed(run)
    else if AllSpace(lines[0]) then Closed(run) + Runs([], lines[1..])
    else Runs(run + [Trim(lines[0])], lines[1..])
  }

  function Closed(run: seq<string>): seq<seq<string>> {
    if run == [] then [] else [run]
  }

  /** `Runs`, read character by character; `cur` is the line that is open. */
  function RunsFrom(run: seq<string>, cur: string, s: string): seq<seq<string>>
    decreases |s|
  {
    if s == [] then (if AllSpace(cur) then Closed(run) else Closed(run + [Trim(cur)]))
    else if s[0] != '\n' then RunsFrom(run, cur + [s[0]], s[1..])
    else if AllSpace(cur) then Closed(run) + RunsFrom([], [], s[1..])
    else RunsFrom(run + [Trim(cur)], [], s[1..])
  }

  lemma {:induction false} RunsOfSplit(run: seq<string>, cur: string, s: string)
    ensures var r := Split(s); RunsFrom(run, cur, s) == Runs(run, [cur + r[0]] + r[1..])
    decreases |s|
  {
    hide IsSpace, AllSpace, Trim;
    var r := Split(s);
    if s == [] {
      assert cur + [] == cur;
      assert [cur][1..] == [] && [cur] + r[1..] == [cur];
    } else if s[0] == '\n' {
      var t := Split(s[1..]);
      assert r == [[]] + t && r[1..] == t && cur + [] == cur;
      TailOfAppend([cur], t);
      assert [cur][1..] + t == t;
      Cons([] + t[0], t[1..]);
      assert [[] + t[0]] + t[1..] == t by { assert [] + t[0] == t[0]; HeadTail(t); }
      RunsOfSplit(if AllSpace(cur) then [] else run + [Trim(cur)], [], s[1..]);
    } else {
      var t := Split(s[1..]);
      RunsOfSplit(run, cur + [s[0]], s[1..]);
      Assoc(cur, [s[0]], t[0]);
    }
  }

  /** The runs of several texts, one after the other. */
  function RunsOfAll(parts: seq<string>): seq<seq<string>> {
    if parts == [] then [] else RunsFrom([], [], parts[0]) + RunsOfAll(parts[1..])
  }

  lemma OneTurn(run: seq<string>, cur: string, a: string, t: string)
    requires AllSpace(cur) && AllSpace(a) && a != [] && a[|a| - 1] == '\n'
    ensures AllSpace(a[1..]) && (a[1..] != [] ==> a[1..][|a[1..]| - 1] == '\n')
    ensures a[1..] == [] ==> a[0] == '\n' && a[1..] + t == t
    ensures AllSpace(cur + [a[0]]) && AllSpace([])
    ensures RunsFrom(run, cur, a + t)
         == if a[0] == '\n' then Closed(run) + RunsFrom([], [], a[1..] + t) else RunsFrom(run, cur + [a[0]], a[1..] + t)
  {
    EmptyIsSpace();
    assert AllSpace([a[0]]);
    hide IsSpace, AllSpace, Trim;
    HeadTail(a);
    TailOfAppend(a, t);
    AllSpaceParts([a[0]], a[1..]);
    AllSpaceParts(cur, [a[0]]);
  }

  /** Blanks that end in a line break close the open run, and open none. */
  lemma {:induction false} BlanksCloseRun(run: seq<string>, cur: string, a: string, t: string)
    requires AllSpace(cur) && AllSpace(a) && a != [] && a[|a| - 1] == '\n'
    ensures RunsFrom(run, cur, a + t) == Closed(run) + RunsFrom([], [], t)
    decreases |a|
  {
    hide AllSpace, RunsFrom;
    OneTurn(run, cur, a, t);
    if a[1..] != [] {
      if a[0] == '\n' { BlanksCloseRun([], [], a[1..], t); } else { BlanksCloseRun(run, cur + [a[0]], a[1..], t); }
    }
    assert Closed([]) + RunsFrom([], [], t) == RunsFrom([], [], t);
  }

  lemma SeparatorEnds(s: string)
    requires Separator(s) > 0
    ensures Separator(s) > 1 && s[Separator(s) - 1] == '\n'
  {}

  /** Cutting at the separators cuts no run in two and joins no two runs. */
  lemma {:induction false} SplitParagraphsRuns(run: seq<string>, cur: string, s: string)
    ensures var r := SplitParagraphs(s); RunsFrom(run, cur, s) == RunsFrom(run, cur, r[0]) + RunsOfAll(r[1..])
    decreases |s|
  {
    hide IsSpace, AllSpace, Trim, Separator;
    var r := SplitParagraphs(s);
    if s == [] {
      assert RunsFrom(run, cur, []) + [] == RunsFrom(run, cur, []);
    } else if Separator(s) > 0 {
      var n := Separator(s);
      SeparatorParts(s);
      SeparatorEnds(s);
      EmptyIsSpace();
      SplitParagraphsRuns([], [], s[n..]);
      Cons([], SplitParagraphs(s[n..]));
      var gap := s[1..n];
      assert s[1..] == gap + s[n..] && gap[|gap| - 1] == '\n';
      BlanksCloseRun([], [], gap, s[n..]);
      assert Closed([]) + RunsFrom([], [], s[n..]) == RunsFrom([], [], s[n..]);
      BlanksCloseRun(run + [Trim(cur)], [], gap, s[n..]);
    } else {
      var rest := SplitParagraphs(s[1..]);
      Cons([s[0]] + rest[0], rest[1..]);
      Cons(s[0], rest[0]);
      if s[0] != '\n' {
        SplitParagraphsRuns(run, cur + [s[0]], s[1..]);
      } else if AllSpace(cur) {
        SplitParagraphsRuns([], [], s[1..]);
        Assoc(Closed(run), RunsFrom([], [], rest[0]), RunsOfAll(rest[1..]));
      } else {
        SplitParagraphsRuns(run + [Trim(cur)], [], s[1..]);
      }
    }
  }

  // ---------------------------------------------------------------- no part holds a blank line between others

  /** A blank line ends within `s`: its blanks run up to a line break. */
  predicate BlankLineFirst(s: string) {
    exists j :: 0 <= j < |s| && s[j] == '\n' && AllSpace(s[..j])
  }

  /** No line break in `s` is followed by a blank line that ends within it. */
  predicate Unbroken(s: string) {
    forall k | 0 <= k < |s| && s[k] == '\n' :: !BlankLineFirst(s[k + 1..])
  }

  lemma {:induction false} SpaceRunIsLongest(s: string, j: nat)
    requires j <= |s| && AllSpace(s[..j])
    ensures j <= SpaceRun(s)
  {
    hide IsSpace;
    if j > 0 {
      assert s[..j][0] == s[0];
      var t := s[1..][..j - 1];
      forall i | 0 <= i < |t| ensures IsSpace(t[i]) { assert t[i] == s[..j][i + 1]; }
      SpaceRunIsLongest(s[1..], j - 1);
    }
  }

  lemma {:induction false} LastBreakIsLast(s: string, k: nat, j: nat)
    requires j < k <= |s| && s[j] == '\n'
    ensures j < LastBreak(s, k)
  {
    if s[k - 1] != '\n' { LastBreakIsLast(s, k - 1, j); }
  }

  /** Where no separator starts, no blank line follows. */
  lemma NoSeparator(s: string)
    requires s != [] && s[0] == '\n' && Separator(s) == 0
    ensures !BlankLineFirst(s[1..])
  {
    if BlankLineFirst(s[1..]) {
      var j :| 0 <= j < |s[1..]| && s[1..][j] == '\n' && AllSpace(s[1..][..j]);
      BreakIsSpace();
      hide IsSpace;
      assert forall i | 0 <= i < j :: s[..j + 2][i + 1] == s[1..][..j][i];
      SpaceRunIsLongest(s, j + 2);
      LastBreakIsLast(s, SpaceRun(s), j + 1);
    }
  }

  lemma PrefixKeepsFirst(p: string, s: string)
    requires p <= s && BlankLineFirst(p)
    ensures BlankLineFirst(s)
  {
    hide IsSpace, AllSpace;
    var j :| 0 <= j < |p| && p[j] == '\n' && AllSpace(p[..j]);
    assert s[..j] == p[..j];
  }

  lemma {:induction false} PartsAreUnbroken(s: string)
    ensures forall i | 0 <= i < |SplitParagraphs(s)| :: Unbroken(SplitParagraphs(s)[i])
    ensures SplitParagraphs(s)[0] <= s
    decreases |s|
  {
    hide Separator, Unbroken;
    NothingUnbroken();
    if s != [] && Separator(s) > 0 {
      PartsAreUnbroken(s[Separator(s)..]);
    } else if s != [] {
      PartsAreUnbroken(s[1..]);
      HeadTail(s);
      OneMore(s, SplitParagraphs(s[1..])[0]);
    }
  }

  lemma NothingUnbroken()
    ensures Unbroken([])
  {}

  lemma OneMore(s: string, p: string)
    requires s != [] && Separator(s) == 0 && p <= s[1..] && Unbroken(p)
    ensures Unbroken([s[0]] + p)
  {
    hide Separator, BlankLineFirst;
    var q := [s[0]] + p;
    forall k | 0 <= k < |q| && q[k] == '\n' ensures !BlankLineFirst(q[k + 1..]) {
      if k == 0 {
        assert q[1..] == p;
        NoSeparator(s);
        if BlankLineFirst(p) { PrefixKeepsFirst(p, s[1..]); }
      } else {
        assert q[k + 1..] == p[k..] && q[k] == p[k - 1];
      }
    }
  }

  lemma UnbrokenTail(s: string)
    requires s != [] && Unbroken(s)
    ensures Unbroken(s[1..]) && (s[0] == '\n' ==> !BlankLineFirst(s[1..]))
  {
    hide BlankLineFirst;
    assert s[0] == '\n' ==> s[0 + 1..] == s[1..];
    forall k | 0 <= k < |s[1..]| && s[1..][k] == '\n' ensures !BlankLineFirst(s[1..][k + 1..]) {
      assert s[1..][k + 1..] == s[k + 2..] && s[k + 1] == '\n';
    }
  }

  lemma FirstOfTail(s: string)
    requires s != [] && IsSpace(s[0]) && BlankLineFirst(s[1..])
    ensures BlankLineFirst(s)
  {
    hide IsSpace;
    var j :| 0 <= j < |s[1..]| && s[1..][j] == '\n' && AllSpace(s[1..][..j]);
    assert forall i | 0 <= i < j :: s[..j + 1][i + 1] == s[1..][..j][i];
    assert AllSpace(s[..j + 1]) && s[j + 1] == '\n';
  }

  lemma BreakFirst(s: string)
    requires s != [] && s[0] == '\n'
    ensures BlankLineFirst(s)
  {
    assert AllSpace(s[..0]);
  }

  /** A text without a blank line between others is one run at most. */
  lemma {:induction false} UnbrokenIsOneRun(run: seq<string>, cur: string, s: string)
    requires Unbroken(s) && (run != [] && AllSpace(cur) ==> !BlankLineFirst(s))
    ensures RunsFrom(run, cur, s) == Closed(run + KeptFrom(Trim, cur, s))
    decreases |s|
  {
    hide Trim, IsSpace, Unbroken, BlankLineFirst;
    TrimEmpty(cur);
    assert run + [] == run;
    if s != [] {
      UnbrokenTail(s);
      if s[0] != '\n' {
        AllSpaceParts(cur, [s[0]]);
        if AllSpace(cur + [s[0]]) && BlankLineFirst(s[1..]) {
          assert IsSpace([s[0]][0]);
          FirstOfTail(s);
        }
        UnbrokenIsOneRun(run, cur + [s[0]], s[1..]);
      } else {
        BreakFirst(s);
        var more := if AllSpace(cur) then [] else [Trim(cur)];
        UnbrokenIsOneRun(run + more, [], s[1..]);
        Assoc(run, more, KeptFrom(Trim, [], s[1..]));
      }
    }
  }

  // ---------------------------------------------------------------- the paragraphs

  function Contents(parts: seq<string>): seq<seq<string>> {
    if parts == [] then [] else [Content(parts[0])] + Contents(parts[1..])
  }

  lemma NothingShows(p: string)
    ensures Trim(p) == [] <==> Content(p) == []
  {
    hide IsSpace, Trim;
    TrimEmpty(p);
    KeptOf(Trim, p);
    if Content(p) == [] { NoContentMeansSpace([], p); }
    if AllSpace(p) {
      TrimKeepsContent(p);
      assert Content([]) == [] by { NothingInNothing(); }
    }
  }

  lemma NothingInNothing()
    ensures Content([]) == []
  {
    TrimOfSpace([]);
    var none := Split([]);
    assert none[1..] == [];
  }

  lemma {:induction false} UnbrokenParts(parts: seq<string>)
    requires forall i | 0 <= i < |parts| :: Unbroken(parts[i])
    ensures RunsOfAll(parts) == Contents(TrimmedNonEmpty(parts))
  {
    hide Trim, Unbroken, Content, AllSpace;
    if parts != [] {
      UnbrokenParts(parts[1..]);
      UnbrokenIsOneRun([], [], parts[0]);
      ContentFrom(parts[0]);
      assert [] + Content(parts[0]) == Content(parts[0]);
      NothingShows(parts[0]);
      TrimKeepsContent(parts[0]);
      var rest := TrimmedNonEmpty(parts[1..]);
      Cons(Trim(parts[0]), rest);
      assert [] + rest == rest && [] + RunsOfAll(parts[1..]) == RunsOfAll(parts[1..]);
    }
  }

  /** The paragraphs are the runs of lines that are not blank: each is one run, and they come in order. */
  lemma ParagraphsAreRuns(text: string)
    ensures Contents(SplitBlocks(text)) == Runs([], Split(NormalizeMultiline(text)))
  {
    hide NormalizeMultiline, SplitParagraphs, TrimmedNonEmpty, Unbroken, RunsFrom, Runs, Contents;
    var s := NormalizeMultiline(text);
    var parts := SplitParagraphs(s);
    SplitParagraphsRuns([], [], s);
    PartsAreUnbroken(s);
    UnbrokenParts(parts);
    RunsOfSplit([], [], s);
    assert [[] + Split(s)[0]] + Split(s)[1..] == Split(s) by { assert [] + Split(s)[0] == Split(s)[0]; HeadTail(Split(s)); }
  }
}
