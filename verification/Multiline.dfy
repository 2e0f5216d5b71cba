/** `normalizeMultiline` (songs-meta.ts), its fixed points, and what it does to the lines of a text. */
module Multiline {
  import opened Seqs
  import opened Text

  // ---------------------------------------------------------------- the four passes

  /** `value.replace(/\r\n?/g, "\n")` */
  function UnifyBreaks(s: string): string {
    if s == [] then []
    else if s[0] == '\r' then "\n" + UnifyBreaks(s[if |s| > 1 && s[1] == '\n' then 2 else 1..])
    else [s[0]] + UnifyBreaks(s[1..])
  }

  /** Length of the run of blanks and tabs that `s` starts with. */
  function PadRun(s: string): (k: nat)
    ensures k <= |s| && AllPad(s[..k]) && (k < |s| ==> !IsPad(s[k]))
  {
    if s != [] && IsPad(s[0]) then
      var k := PadRun(s[1..]);
      assert s[..k + 1] == [s[0]] + s[1..][..k];
      k + 1
    else 0
  }

  predicate PadsThenBreak(s: string) {
    PadRun(s) < |s| && s[PadRun(s)] == '\n'
  }

  /** `.replace(/[ \t]+\n/g, "\n")` */
  function StripPads(s: string): string
    decreases |s|
  {
    if s == [] then []
    else if PadsThenBreak(s) then "\n" + StripPads(s[PadRun(s) + 1..])
    else [s[0]] + StripPads(s[1..])
  }

  /** Length of the run of line breaks that `s` starts with. */
  function BreakRun(s: string): (k: nat)
    ensures k <= |s| && (forall i | 0 <= i < k :: s[i] == '\n') && (k < |s| ==> s[k] != '\n')
  {
    if s != [] && s[0] == '\n' then 1 + BreakRun(s[1..]) else 0
  }

  /** `.replace(/\n{3,}/g, "\n\n")` */
  function LimitBreaks(s: string): string
    decreases |s|
  {
    if s == [] then []
    else if BreakRun(s) >= 3 then "\n\n" + LimitBreaks(s[BreakRun(s)..])
    else [s[0]] + LimitBreaks(s[1..])
  }

  function NormalizeMultiline(s: string): string {
    Trim(LimitBreaks(StripPads(UnifyBreaks(s))))
  }

  // ---------------------------------------------------------------- fixed points

  predicate NoReturn(s: string) {
    forall i | 0 <= i < |s| :: s[i] != '\r'
  }

  predicate NoPadBeforeBreak(s: string) {
    forall i | 0 <= i < |s| - 1 && IsPad(s[i]) :: s[i + 1] != '\n'
  }

  predicate NoTripleBreak(s: string) {
    forall i | 0 <= i < |s| - 2 && s[i] == '\n' :: !(s[i + 1] == '\n' && s[i + 2] == '\n')
  }

  /** The normal form. */
  predicate Normal(s: string) {
    Tight(s) && NoReturn(s) && NoPadBeforeBreak(s) && NoTripleBreak(s)
  }

  lemma EmptyIsNormal()
    ensures Normal([])
  {}

  /** Texts are unified apart, unless a cut falls inside `\r\n`. */
  lemma {:induction false} UnifyAppend(a: string, t: string)
    requires a == [] || t == [] || a[|a| - 1] != '\r' || t[0] != '\n'
    ensures UnifyBreaks(a + t) == UnifyBreaks(a) + UnifyBreaks(t)
    decreases |a|
  {
    if a == [] {
      assert a + t == t;
    } else {
      var k := if a[0] == '\r' && |a| > 1 && a[1] == '\n' then 2 else 1;
      UnifyAppend(a[k..], t);
      FirstsOfAppend(a, t, k);
      UnifyStep(a, k);
      UnifyStep(a + t, k);
      hide UnifyBreaks;
      Assoc([if a[0] == '\r' then '\n' else a[0]], UnifyBreaks(a[k..]), UnifyBreaks(t));
    }
  }

  lemma FirstsOfAppend(a: string, t: string, k: nat)
    requires 0 < k <= |a|
    ensures (a + t)[0] == a[0] && (a + t)[k..] == a[k..] + t
    ensures |a| > 1 ==> (a + t)[1] == a[1]
    ensures |a| == 1 && t != [] ==> (a + t)[1] == t[0]
  {}

  lemma UnifyStep(s: string, k: nat)
    requires s != [] && k == if s[0] == '\r' && |s| > 1 && s[1] == '\n' then 2 else 1
    ensures UnifyBreaks(s) == [if s[0] == '\r' then '\n' else s[0]] + UnifyBreaks(s[k..])
  {}

  /** `\r\n` and a lone `\r` each become one break; a lone `\n` is one. */
  lemma BreaksAreUnified(a: string, b: string)
    ensures UnifyBreaks(a + ("\r\n" + b)) == UnifyBreaks(a) + ("\n" + UnifyBreaks(b))
    ensures b == [] || b[0] != '\n' ==> UnifyBreaks(a + ("\r" + b)) == UnifyBreaks(a) + ("\n" + UnifyBreaks(b))
    ensures a == [] || a[|a| - 1] != '\r' ==> UnifyBreaks(a + ("\n" + b)) == UnifyBreaks(a) + ("\n" + UnifyBreaks(b))
  {
    UnifyAppend(a, "\r\n" + b);
    UnifyAppend(a, "\r" + b);
    if a == [] || a[|a| - 1] != '\r' { UnifyAppend(a, "\n" + b); }
    assert ("\r\n" + b)[2..] == b && ("\r" + b)[1..] == b && ("\n" + b)[1..] == b;
    assert b != [] ==> ("\r" + b)[1] == b[0];
  }

  lemma {:induction false} UnifyBreaksClean(s: string)
    ensures NoReturn(UnifyBreaks(s))
    ensures NoReturn(s) ==> UnifyBreaks(s) == s
    decreases |s|
  {
    if s != [] {
      UnifyBreaksClean(s[1..]);
      if |s| > 1 { UnifyBreaksClean(s[2..]); }
      assert s == [s[0]] + s[1..];
    }
  }

  lemma {:induction false} StripPadsClean(s: string)
    requires NoReturn(s)
    ensures NoReturn(StripPads(s)) && NoPadBeforeBreak(StripPads(s))
    ensures StripPads(s) != [] ==> (StripPads(s)[0] == '\n' <==> PadsThenBreak(s))
    ensures s != [] ==> StripPads(s) != []
    decreases |s|
  {
    if s != [] {
      hide IsPad;
      var rest := if PadsThenBreak(s) then s[PadRun(s) + 1..] else s[1..];
      StripPadsClean(rest);
      BreakIsNotPad();
      ConsClean(if PadsThenBreak(s) then '\n' else s[0], StripPads(rest));
    }
  }

  lemma ConsClean(c: char, q: string)
    requires c != '\r' && NoReturn(q) && NoPadBeforeBreak(q)
    requires IsPad(c) && q != [] ==> q[0] != '\n'
    ensures NoReturn([c] + q) && NoPadBeforeBreak([c] + q)
  {
    hide IsPad;
    var r := [c] + q;
    assert forall i | 1 <= i < |r| :: r[i] == q[i - 1];
  }

  lemma {:induction false} StripPadsFixes(s: string)
    requires NoPadBeforeBreak(s)
    ensures StripPads(s) == s
  {
    if s != [] {
      StripPadsFixes(s[1..]);
      var k := PadRun(s);
      if 0 < k < |s| {
        assert IsPad(s[..k][k - 1]) && s[k - 1] == s[..k][k - 1];
        assert s[k] != '\n';
      }
      assert s == [s[0]] + s[1..];
    }
  }

  lemma {:induction false} LimitBreaksClean(s: string)
    requires NoReturn(s) && NoPadBeforeBreak(s)
    ensures var r := LimitBreaks(s);
            NoReturn(r) && NoPadBeforeBreak(r) && NoTripleBreak(r)
            && BreakRun(r) == (if BreakRun(s) < 2 then BreakRun(s) else 2)
            && (r == [] <==> s == []) && (s != [] ==> r[0] == s[0])
    decreases |s|
  {
    if s != [] {
      var k := BreakRun(s);
      var rest := if k >= 3 then s[k..] else s[1..];
      LimitBreaksClean(rest);
      var q := LimitBreaks(rest);
      BreakIsNotPad();
      if k >= 3 {
        ConsClean('\n', q);
        ConsLimited('\n', q);
        ConsClean('\n', ['\n'] + q);
        ConsLimited('\n', ['\n'] + q);
        assert "\n\n" + q == ['\n'] + (['\n'] + q);
      } else {
        ConsClean(s[0], q);
        ConsLimited(s[0], q);
      }
    }
  }

  lemma ConsLimited(c: char, q: string)
    requires NoTripleBreak(q) && (c == '\n' ==> BreakRun(q) < 2)
    ensures NoTripleBreak([c] + q)
    ensures BreakRun([c] + q) == if c == '\n' then 1 + BreakRun(q) else 0
  {
    var r := [c] + q;
    Cons(c, q);
    assert forall i | 1 <= i < |r| :: r[i] == q[i - 1];
    if c == '\n' && |r| >= 3 { BreakRunAtLeast(q, 2); }
  }

  lemma {:induction false} BreakRunAtLeast(s: string, k: nat)
    requires k <= |s|
    ensures (forall i | 0 <= i < k :: s[i] == '\n') ==> BreakRun(s) >= k
  {
  }

  lemma {:induction false} LimitBreaksFixes(s: string)
    requires NoTripleBreak(s)
    ensures LimitBreaks(s) == s
  {
    if s != [] {
      LimitBreaksFixes(s[1..]);
      assert |s| >= 3 ==> !(s[0] == '\n' && s[1] == '\n' && s[2] == '\n');
      assert s == [s[0]] + s[1..];
    }
  }

  /** `normalizeMultiline` always reaches the normal form and fixes exactly the normal forms;
      in particular it is idempotent. */
  lemma NormalizeMultilineFixpoint(s: string)
    ensures Normal(NormalizeMultiline(s))
    ensures NormalizeMultiline(s) == s <==> Normal(s)
    ensures NormalizeMultiline(NormalizeMultiline(s)) == NormalizeMultiline(s)
  {
    NormalizeReachesNormal(s);
    NormalIsFixed(NormalizeMultiline(s));
    if Normal(s) { NormalIsFixed(s); }
  }

  lemma NormalizeReachesNormal(s: string)
    ensures Normal(NormalizeMultiline(s))
  {
    var u := UnifyBreaks(s);
    UnifyBreaksClean(s);
    StripPadsClean(u);
    LimitBreaksClean(StripPads(u));
    var l := LimitBreaks(StripPads(u));
    var a, b := TrimParts(l);
    TrimIsTight(l);
    SliceKeepsClean(a, Trim(l), b);
  }

  lemma SliceKeepsClean(a: string, r: string, b: string)
    requires NoReturn(a + r + b) && NoPadBeforeBreak(a + r + b) && NoTripleBreak(a + r + b)
    ensures NoReturn(r) && NoPadBeforeBreak(r) && NoTripleBreak(r)
  {
    hide IsPad;
    var l := a + r + b;
    assert forall i | 0 <= i < |r| :: r[i] == l[|a| + i];
  }

  lemma NormalIsFixed(s: string)
    requires Normal(s)
    ensures NormalizeMultiline(s) == s
  {
    UnifyBreaksClean(s);
    StripPadsFixes(s);
    LimitBreaksFixes(s);
    TrimOfTight(s);
  }

  /** What is clean stays clean when it is appended to a text that ends in a letter. */
  lemma CleanAppend(a: string, b: string)
    requires NoReturn(a) && NoPadBeforeBreak(a) && NoTripleBreak(a) && a != [] && !IsSpace(a[|a| - 1])
    requires NoReturn(b) && NoPadBeforeBreak(b) && NoTripleBreak(b)
    ensures NoReturn(a + b) && NoPadBeforeBreak(a + b) && NoTripleBreak(a + b)
  {
    hide IsSpace, IsPad;
    var s := a + b;
    assert !IsPad(a[|a| - 1]) && a[|a| - 1] != '\n' by { PadIsSpace(a[|a| - 1]); BreakIsSpace(); }
    assert NoPadBeforeBreak(s) by { hide NoTripleBreak, NoReturn; }
    assert NoTripleBreak(s) by { hide NoPadBeforeBreak, NoReturn; }
  }

  /** A normal text after one line break. */
  lemma BrokenNormal(b: string)
    requires Normal(b) && b != []
    ensures NoReturn("\n" + b) && NoPadBeforeBreak("\n" + b) && NoTripleBreak("\n" + b) && BreakRun("\n" + b) == 1
  {
    hide IsSpace;
    BreakIsSpace();
    BreakIsNotPad();
    ConsClean('\n', b);
    ConsLimited('\n', b);
  }

  /** Normal texts joined by a blank line are normal. */
  lemma NormalPair(a: string, b: string)
    requires Normal(a) && Normal(b) && a != [] && b != []
    ensures Normal(a + "\n\n" + b)
  {
    hide IsSpace, NoReturn, NoPadBeforeBreak, NoTripleBreak;
    BrokenNormal(b);
    BreakIsNotPad();
    ConsClean('\n', "\n" + b);
    ConsLimited('\n', "\n" + b);
    CleanAppend(a, ['\n'] + ("\n" + b));
    TightEnds(a, "\n\n", b);
    DoubleBreak(a, b);
  }

  lemma TightEnds(a: string, x: string, b: string)
    requires Tight(a) && Tight(b) && a != [] && b != []
    ensures Tight(a + x + b)
  {
    hide IsSpace;
    var s := a + x + b;
    assert s[0] == a[0] && s[|s| - 1] == b[|b| - 1];
  }

  lemma DoubleBreak(a: string, b: string)
    ensures a + "\n\n" + b == a + (['\n'] + ("\n" + b))
  {
    assert "\n\n" + b == ['\n'] + ("\n" + b);
    Assoc(a, "\n\n", b);
  }

  lemma PadIsSpace(c: char)
    ensures IsPad(c) ==> IsSpace(c)
  {
  }

  lemma BreakIsNotPad()
    ensures !IsPad('\n')
  {
  }

  lemma BreakIsSpace()
    ensures IsSpace('\n')
  {
  }

  // ---------------------------------------------------------------- lines that survive

  /** The non-blank lines of `lines`, each passed through `f`. */
  function Kept(f: string -> string, lines: seq<string>): seq<string> {
    if lines == [] then [] else Emit(f, lines[0]) + Kept(f, lines[1..])
  }

  function Emit(f: string -> string, line: string): seq<string> {
    if AllSpace(line) then [] else [f(line)]
  }

  /** The trimmed non-blank lines of a text: what a reader sees of it. */
  function Content(s: string): seq<string> {
    Kept(Trim, Split(s))
  }

  lemma KeptNone()
    ensures Kept(Trim, []) == []
  {}

  lemma {:induction false} KeptAppend(f: string -> string, a: seq<string>, b: seq<string>)
    ensures Kept(f, a + b) == Kept(f, a) + Kept(f, b)
  {
    if a == [] {
      assert a + b == b;
    } else {
      KeptAppend(f, a[1..], b);
      TailOfAppend(a, b);
      Assoc(Emit(f, a[0]), Kept(f, a[1..]), Kept(f, b));
    }
  }

  /** `Kept` of `cur + s`, read character by character. */
  ghost function KeptFrom(f: string -> string, cur: string, s: string): seq<string>
    decreases |s|
  {
    if s == [] then Emit(f, cur)
    else if s[0] == '\n' then Emit(f, cur) + KeptFrom(f, [], s[1..])
    else KeptFrom(f, cur + [s[0]], s[1..])
  }

  lemma {:induction false} KeptFromSplit(f: string -> string, cur: string, s: string)
    ensures KeptFrom(f, cur, s) == Emit(f, cur + Split(s)[0]) + Kept(f, Split(s)[1..])
    decreases |s|
  {
    if s == [] {
      assert cur + [] == cur;
    } else if s[0] == '\n' {
      KeptFromSplit(f, [], s[1..]);
      var r := Split(s[1..]);
      assert ([[]] + r)[1..] == r && cur + [] == cur && [] + r[0] == r[0];
    } else {
      KeptFromSplit(f, cur + [s[0]], s[1..]);
      var r := Split(s[1..]);
      assert (cur + [s[0]]) + r[0] == cur + ([s[0]] + r[0]);
    }
  }

  lemma KeptOf(f: string -> string, s: string)
    ensures KeptFrom(f, [], s) == Kept(f, Split(s))
  {
    KeptFromSplit(f, [], s);
    assert [] + Split(s)[0] == Split(s)[0];
  }

  /** `f` does not see blanks and tabs at the end of a line. */
  ghost predicate PadBlind(f: string -> string) {
    forall x, p | AllPad(p) :: f(x + p) == f(x)
  }

  lemma {:induction false} StripPadsKeeps(f: string -> string, cur: string, s: string)
    requires PadBlind(f)
    ensures KeptFrom(f, cur, StripPads(s)) == KeptFrom(f, cur, s)
    decreases |s|
  {
    if s != [] {
      if PadsThenBreak(s) {
        var k := PadRun(s);
        StripPadsKeeps(f, [], s[k + 1..]);
        PaddedBreak(f, cur, s, k);
        KeptFromBreak(f, cur, StripPads(s[k + 1..]));
      } else {
        StripPadsKeeps(f, [], s[1..]);
        StripPadsKeeps(f, cur + [s[0]], s[1..]);
        Cons(s[0], StripPads(s[1..]));
      }
    }
  }

  lemma PaddedBreak(f: string -> string, cur: string, s: string, k: nat)
    requires PadBlind(f) && k < |s| && AllPad(s[..k]) && s[k] == '\n'
    ensures KeptFrom(f, cur, s) == Emit(f, cur) + KeptFrom(f, [], s[k + 1..])
  {
    hide IsPad, IsSpace;
    KeptFromPads(f, cur, s, k);
    HeadTail(s[k..]);
    KeptFromBreak(f, cur + s[..k], s[k + 1..]);
    assert f(cur + s[..k]) == f(cur);
    assert AllSpace(s[..k]) by {
      forall i | 0 <= i < k ensures IsSpace(s[..k][i]) { PadIsSpace(s[..k][i]); }
    }
    AllSpaceParts(cur, s[..k]);
  }

  lemma {:induction false} KeptFromPads(f: string -> string, cur: string, s: string, k: nat)
    requires k <= |s| && AllPad(s[..k])
    ensures KeptFrom(f, cur, s) == KeptFrom(f, cur + s[..k], s[k..])
    decreases k
  {
    if k == 0 {
      assert cur + s[..0] == cur && s[0..] == s;
    } else {
      assert s[..k][0] == s[0];
      assert s[1..][..k - 1] == s[..k][1..] && s[1..][k - 1..] == s[k..];
      KeptFromPads(f, cur + [s[0]], s[1..], k - 1);
      assert cur + [s[0]] + s[1..][..k - 1] == cur + s[..k];
    }
  }

  lemma {:induction false} LimitBreaksKeeps(f: string -> string, cur: string, s: string)
    ensures KeptFrom(f, cur, LimitBreaks(s)) == KeptFrom(f, cur, s)
    decreases |s|
  {
    if s != [] {
      var k := BreakRun(s);
      if k >= 3 {
        LimitBreaksKeeps(f, [], s[k..]);
        LimitedBreaks(f, cur, s, k);
      } else {
        LimitBreaksKeeps(f, [], s[1..]);
        LimitBreaksKeeps(f, cur + [s[0]], s[1..]);
        Cons(s[0], LimitBreaks(s[1..]));
      }
    }
  }

  lemma LimitedBreaks(f: string -> string, cur: string, s: string, k: nat)
    requires 3 <= k <= |s| && k == BreakRun(s)
    requires KeptFrom(f, [], LimitBreaks(s[k..])) == KeptFrom(f, [], s[k..])
    ensures KeptFrom(f, cur, LimitBreaks(s)) == KeptFrom(f, cur, s)
  {
    LimitedIs(s, k);
    hide *;
    var q := LimitBreaks(s[k..]);
    OtherBreaks(f, s, k);
    KeptFromBreak(f, cur, "\n" + q);
    KeptFromBreak(f, [], q);
    HeadTail(s);
    KeptFromBreak(f, cur, s[1..]);
  }

  lemma OtherBreaks(f: string -> string, s: string, k: nat)
    requires 0 < k <= |s| && k == BreakRun(s)
    ensures KeptFrom(f, [], s[1..]) == KeptFrom(f, [], s[k..])
  {
    hide *;
    KeptFromBreaks(f, s[1..], k - 1);
    assert s[1..][k - 1..] == s[k..];
  }

  lemma LimitedIs(s: string, k: nat)
    requires 3 <= k <= |s| && k == BreakRun(s)
    ensures LimitBreaks(s) == "\n" + ("\n" + LimitBreaks(s[k..])) && s[0] == '\n'
  {
    hide BreakRun;
    TwoBreaks(LimitBreaks(s[k..]));
  }

  lemma TwoBreaks(q: string)
    ensures "\n\n" + q == "\n" + ("\n" + q)
  {
    hide *;
    Assoc("\n", "\n", q);
    assert "\n" + "\n" == "\n\n";
  }

  lemma KeptFromBreak(f: string -> string, cur: string, q: string)
    ensures KeptFrom(f, cur, "\n" + q) == Emit(f, cur) + KeptFrom(f, [], q)
    ensures cur == [] ==> KeptFrom(f, cur, "\n" + q) == KeptFrom(f, [], q)
  {
    Cons('\n', q);
  }

  lemma {:induction false} KeptFromBreaks(f: string -> string, s: string, k: nat)
    requires k <= |s| && forall i | 0 <= i < k :: s[i] == '\n'
    ensures KeptFrom(f, [], s) == KeptFrom(f, [], s[k..])
  {
    if k > 0 {
      KeptFromBreaks(f, s[1..], k - 1);
      assert s[1..][k - 1..] == s[k..];
      assert Emit(f, []) == [];
    } else {
      assert s[0..] == s;
    }
  }

  // ------------------------------------------------ the final trim, for trimmed lines

  lemma {:induction false} LeadingSpaceUnseen(cur: string, x: string, t: string)
    requires AllSpace(cur)
    ensures KeptFrom(Trim, cur + x, t) == KeptFrom(Trim, x, t)
    decreases |t|
  {
    hide IsSpace, Trim;
    TrimIgnoresLeft(cur, x);
    TrimEmpty(x);
    TrimEmpty(cur + x);
    if t != [] {
      LeadingSpaceUnseen(cur, x + [t[0]], t[1..]);
      Assoc(cur, x, [t[0]]);
    }
  }

  lemma {:induction false} SpacePrefixUnseen(cur: string, a: string, t: string)
    requires AllSpace(cur) && AllSpace(a)
    ensures KeptFrom(Trim, cur, a + t) == KeptFrom(Trim, [], t)
    decreases |a|
  {
    if a == [] {
      assert a + t == t && cur + [] == cur;
      LeadingSpaceUnseen(cur, [], t);
    } else {
      TailOfAppend(a, t);
      SpacePrefixUnseen(if a[0] == '\n' then [] else cur + [a[0]], a[1..], t);
    }
  }

  lemma {:induction false} SpaceSuffixUnseen(cur: string, t: string, b: string)
    requires AllSpace(b)
    ensures KeptFrom(Trim, cur, t + b) == KeptFrom(Trim, cur, t)
    decreases |t|, |b|
  {
    hide IsSpace, Trim;
    if t != [] {
      TailOfAppend(t, b);
      SpaceSuffixUnseen(if t[0] == '\n' then [] else cur + [t[0]], t[1..], b);
    } else if b != [] {
      assert t + b == b && [] + b[1..] == b[1..];
      SpaceSuffixUnseen(if b[0] == '\n' then [] else cur + [b[0]], [], b[1..]);
      TrimIgnoresRight(cur, [b[0]]);
      TrimEmpty(cur);
      TrimEmpty(cur + [b[0]]);
    } else {
      assert t + b == t;
    }
  }

  lemma TrimIsPadBlind()
    ensures PadBlind(Trim)
  {
    forall x: string, p: string | AllPad(p) ensures Trim(x + p) == Trim(x) {
      TrimIgnoresRight(x, p);
    }
  }

  lemma TrimKeepsContent(s: string)
    ensures Content(Trim(s)) == Content(s)
  {
    hide IsSpace, Trim, AllSpace, KeptFrom, Kept, Split;
    var a, b := TrimParts(s);
    var r := Trim(s);
    KeptOf(Trim, s);
    KeptOf(Trim, r);
    Assoc(a, r, b);
    SpacePrefixUnseen([], a, r + b);
    SpaceSuffixUnseen([], r, b);
  }

  /** `normalizeMultiline` never loses, adds or reorders a non-blank line. */
  lemma NormalizeKeepsContent(s: string)
    ensures Content(NormalizeMultiline(s)) == Content(UnifyBreaks(s))
  {
    var u := UnifyBreaks(s);
    TrimIsPadBlind();
    KeptOf(Trim, u);
    StripPadsKeeps(Trim, [], u);
    LimitBreaksKeeps(Trim, [], StripPads(u));
    KeptOf(Trim, LimitBreaks(StripPads(u)));
    TrimKeepsContent(LimitBreaks(StripPads(u)));
  }
}
