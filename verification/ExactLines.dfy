/** When `normalizeMultiline` keeps the non-blank lines of a text to the letter. */
module ExactLines {
  import opened Seqs
  import opened Text
  import opened Multiline
  import opened Blocks

  function StripTail(s: string): string {
    if s != [] && IsPad(s[|s| - 1]) then StripTail(s[..|s| - 1]) else s
  }

  function Same(s: string): string {
    s
  }

  /** The non-blank lines, untouched. */
  function NonBlank(lines: seq<string>): seq<string> {
    Kept(Same, lines)
  }

  predicate PadlessEnd(line: string) {
    line != [] ==> !IsPad(line[|line| - 1])
  }

  predicate AllPadlessEnds(lines: seq<string>) {
    forall i | 0 <= i < |lines| :: PadlessEnd(lines[i])
  }

  lemma {:induction false} StripTailPads(x: string, p: string)
    requires AllPad(p)
    ensures StripTail(x + p) == StripTail(x)
  {
    if p == [] {
      assert x + p == x;
    } else {
      InitOfAppend(x, p);
      StripTailPads(x, p[..|p| - 1]);
    }
  }

  lemma StripTailIsPadBlind()
    ensures PadBlind(StripTail)
  {
    forall x: string, p: string | AllPad(p) ensures StripTail(x + p) == StripTail(x) { StripTailPads(x, p); }
  }

  lemma {:induction false} StripTailOfPadless(lines: seq<string>)
    requires AllPadlessEnds(lines)
    ensures Kept(StripTail, lines) == NonBlank(lines)
  {
    if lines != [] {
      assert PadlessEnd(lines[0]);
      StripTailOfPadless(lines[1..]);
    }
  }

  // ------------------------------------------------ trimming a text whose outer lines are tight

  predicate StartsTightly(r: seq<string>) {
    r == [] || (r[0] != [] && !IsSpace(r[0][0]))
  }

  predicate EndsTightly(r: seq<string>) {
    r == [] || (r[|r| - 1] != [] && !IsSpace(r[|r| - 1][|r[|r| - 1]| - 1]))
  }

  lemma {:induction false} StripTailHead(s: string)
    requires !AllSpace(s)
    ensures StripTail(s) != [] && StripTail(s)[0] == s[0]
  {
    hide IsSpace;
    if IsPad(s[|s| - 1]) {
      InitLast(s);
      assert AllSpace([s[|s| - 1]]) by { PadIsSpace(s[|s| - 1]); }
      AllSpaceParts(s[..|s| - 1], [s[|s| - 1]]);
      StripTailHead(s[..|s| - 1]);
    }
  }

  lemma {:induction false} LeadingUnseen(cur: string, x: string, t: string)
    requires AllSpace(cur) && StartsTightly(KeptFrom(StripTail, cur + x, t))
    ensures KeptFrom(StripTail, x, t) == KeptFrom(StripTail, cur + x, t)
    decreases |t|
  {
    if cur == [] {
      assert cur + x == x;
    } else {
      hide IsSpace, StripTail;
      AllSpaceParts(cur, x);
      if t == [] || t[0] == '\n' {
        if !AllSpace(cur + x) {
          StripTailHead(cur + x);
          LeadingSpaceShows(cur, x, t);
        }
      } else {
        Assoc(cur, x, [t[0]]);
        LeadingUnseen(cur, x + [t[0]], t[1..]);
      }
    }
  }

  lemma LeadingSpaceShows(cur: string, x: string, t: string)
    requires AllSpace(cur) && cur != [] && !AllSpace(cur + x) && (t == [] || t[0] == '\n')
    requires StripTail(cur + x) != [] && StripTail(cur + x)[0] == (cur + x)[0]
    ensures !StartsTightly(KeptFrom(StripTail, cur + x, t))
  {
    hide IsSpace, StripTail;
    assert (cur + x)[0] == cur[0];
  }

  lemma {:induction false} PrefixUnseen(cur: string, a: string, t: string)
    requires AllSpace(cur) && AllSpace(a) && StartsTightly(KeptFrom(StripTail, cur, a + t))
    ensures KeptFrom(StripTail, [], t) == KeptFrom(StripTail, cur, a + t)
    decreases |a|
  {
    hide IsSpace, StripTail;
    if a == [] {
      assert a + t == t;
      assert cur + [] == cur;
      assert KeptFrom(StripTail, cur + [], t) == KeptFrom(StripTail, cur, a + t);
      LeadingUnseen(cur, [], t);
    } else {
      TailOfAppend(a, t);
      PrefixUnseen(if a[0] == '\n' then [] else cur + [a[0]], a[1..], t);
    }
  }

  lemma {:induction false} SpaceKeepsNothing(cur: string, b: string)
    requires AllSpace(cur) && AllSpace(b)
    ensures KeptFrom(StripTail, cur, b) == []
    decreases |b|
  {
    hide IsSpace;
    if b != [] { SpaceKeepsNothing(if b[0] == '\n' then [] else cur + [b[0]], b[1..]); }
  }

  lemma {:induction false} SpaceAfterLine(cur: string, b: string)
    requires AllSpace(b) && EndsTightly(KeptFrom(StripTail, cur, b))
    ensures KeptFrom(StripTail, cur, b) == Emit(StripTail, cur)
    decreases |b|
  {
    hide IsSpace;
    if b != [] {
      if b[0] == '\n' {
        SpaceKeepsNothing([], b[1..]);
      } else {
        SpaceAfterLine(cur + [b[0]], b[1..]);
        AllSpaceParts(cur, [b[0]]);
        InitOfAppend(cur, [b[0]]);
        assert cur + [b[0]][..0] == cur;
      }
    }
  }

  lemma {:induction false} SuffixUnseen(cur: string, t: string, b: string)
    requires AllSpace(b) && EndsTightly(KeptFrom(StripTail, cur, t + b))
    ensures KeptFrom(StripTail, cur, t + b) == KeptFrom(StripTail, cur, t)
    decreases |t|
  {
    if t == [] {
      assert t + b == b;
      SpaceAfterLine(cur, b);
    } else {
      hide IsSpace, StripTail;
      TailOfAppend(t, b);
      if t[0] == '\n' { LastOfTail(Emit(StripTail, cur), KeptFrom(StripTail, [], t[1..] + b)); }
      SuffixUnseen(if t[0] == '\n' then [] else cur + [t[0]], t[1..], b);
    }
  }

  lemma LastOfTail(a: seq<string>, r: seq<string>)
    requires EndsTightly(a + r)
    ensures EndsTightly(r)
  {
    hide IsSpace;
    if r != [] { InitOfAppend(a, r); }
  }

  lemma TrimKeepsExactLines(s: string)
    requires var k := Kept(StripTail, Split(s)); StartsTightly(k) && EndsTightly(k)
    ensures Kept(StripTail, Split(Trim(s))) == Kept(StripTail, Split(s))
  {
    hide IsSpace, Trim, AllSpace, KeptFrom, Kept, Split, StripTail, StartsTightly, EndsTightly;
    var a, b := TrimParts(s);
    var r := Trim(s);
    KeptOf(StripTail, s);
    KeptOf(StripTail, r);
    KeptOf(StripTail, r + b);
    Assoc(a, r, b);
    NothingIsSpace();
    PrefixUnseen([], a, r + b);
    SuffixUnseen([], r, b);
  }

  lemma NothingIsSpace()
    ensures AllSpace([])
  {
  }

  // ------------------------------------------------ normal texts

  lemma {:induction false} PadlessLines(s: string, i: nat)
    requires NoPadBeforeBreak(s) && PadlessEnd(s) && i < |Split(s)|
    ensures PadlessEnd(Split(s)[i])
    decreases |s|
  {
    hide IsPad;
    if s != [] {
      var r := Split(s[1..]);
      assert NoPadBeforeBreak(s[1..]) && PadlessEnd(s[1..]) by {
        assert forall k | 0 <= k < |s[1..]| :: s[1..][k] == s[k + 1];
      }
      if s[0] == '\n' {
        if i > 0 { PadlessLines(s[1..], i - 1); }
      } else {
        PadlessLines(s[1..], i);
        if i == 0 && r[0] == [] { EmptyFirstLine(s[1..]); }
      }
    }
  }

  lemma EmptyFirstLine(s: string)
    requires Split(s)[0] == []
    ensures s == [] || s[0] == '\n'
  {
  }

  lemma NormalHasPadlessLines(s: string)
    requires Normal(s)
    ensures AllPadlessEnds(Split(s))
  {
    hide IsSpace, IsPad;
    if s != [] { PadIsSpace(s[|s| - 1]); }
    forall i | 0 <= i < |Split(s)| ensures PadlessEnd(Split(s)[i]) { PadlessLines(s, i); }
  }

  /** The outer non-blank lines of a normal text are tight on the outside. */
  lemma NormalIsTightOutside(s: string)
    requires Tight(s)
    ensures StartsTightly(NonBlank(Split(s))) && EndsTightly(NonBlank(Split(s)))
  {
    hide IsSpace, NonBlank, StartsTightly, EndsTightly, Split;
    if s == [] {
      EmptyIsTightOutside();
    } else {
      BreakIsSpace();
      FirstLineStarts(s);
      StartOfKept(Split(s));
      LastLineEnds(s);
      EndOfKept(Split(s));
    }
  }

  lemma EmptyIsTightOutside()
    ensures StartsTightly(NonBlank(Split([]))) && EndsTightly(NonBlank(Split([])))
  {
    assert Split([]) == [[]];
    KeptLast([]);
  }

  lemma StartOfKept(lines: seq<string>)
    requires lines != [] && lines[0] != [] && !IsSpace(lines[0][0])
    ensures StartsTightly(NonBlank(lines))
  {
    hide IsSpace;
  }

  lemma EndOfKept(lines: seq<string>)
    requires lines != []
    requires var l := lines[|lines| - 1]; l != [] && !IsSpace(l[|l| - 1])
    ensures EndsTightly(NonBlank(lines))
  {
    hide IsSpace;
    var init, l := lines[..|lines| - 1], lines[|lines| - 1];
    InitLast(lines);
    KeptAppend(Same, init, [l]);
    KeptLast(l);
    assert !AllSpace(l);
    InitOfAppend(Kept(Same, init), [l]);
  }

  lemma KeptLast(line: string)
    ensures Kept(Same, [line]) == Emit(Same, line)
  {
    assert [line][1..] == [];
    assert Kept(Same, [line]) == Emit(Same, line) + Kept(Same, [line][1..]);
  }

  lemma FirstLineStarts(s: string)
    requires s != [] && s[0] != '\n'
    ensures Split(s)[0] != [] && Split(s)[0][0] == s[0]
  {
  }

  lemma {:induction false} LastLineEnds(s: string)
    requires s != [] && s[|s| - 1] != '\n'
    ensures var l := Split(s)[|Split(s)| - 1]; l != [] && l[|l| - 1] == s[|s| - 1]
  {
    if |s| > 1 {
      LastLineEnds(s[1..]);
    } else {
      assert s[1..] == [];
      assert Split([]) == [[]];
    }
  }

  /** Joining plain lines and normalising the result keeps the non-blank lines to the letter, provided
      none of them ends in blanks or tabs and the outer ones are tight on the outside. */
  lemma NormalizeKeepsExactLines(lines: seq<string>)
    requires lines != [] && AllPlain(lines)
    requires Kept(StripTail, lines) == NonBlank(lines)
    requires StartsTightly(NonBlank(lines)) && EndsTightly(NonBlank(lines))
    ensures NonBlank(Split(NormalizeMultiline(Join(lines)))) == NonBlank(lines)
  {
    hide Split, Join, Kept, NonBlank, StripTail, StartsTightly, EndsTightly, UnifyBreaks, StripPads, LimitBreaks,
         KeptFrom, Trim, Normal;
    var u := Join(lines);
    JoinPlain(lines);
    UnifyBreaksClean(u);
    assert forall i | 0 <= i < |lines| :: HasNoBreak(lines[i]) by { assert forall i | 0 <= i < |lines| :: Plain(lines[i]); }
    SplitJoin(lines);
    StripTailIsPadBlind();
    KeptOf(StripTail, u);
    StripPadsKeeps(StripTail, [], u);
    LimitBreaksKeeps(StripTail, [], StripPads(u));
    KeptOf(StripTail, LimitBreaks(StripPads(u)));
    TrimKeepsExactLines(LimitBreaks(StripPads(u)));
    NormalizeReachesNormal(u);
    NormalHasPadlessLines(NormalizeMultiline(u));
    StripTailOfPadless(Split(NormalizeMultiline(u)));
  }
}
