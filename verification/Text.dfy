/** The string operations that the song import and export code relies on.

    Strings are sequences of Unicode scalar values; `\n` is the only line separator left
    once carriage returns have been replaced. */
module Text {
  import opened Seqs

  /** JavaScript's `\s`, which is also what `String.prototype.trim` removes. */
  predicate IsSpace(c: char) {
    || '\t' <= c <= '\r' || c == ' ' || c == '\U{00A0}' || c == '\U{1680}'
    || '\U{2000}' <= c <= '\U{200A}' || c == '\U{2028}' || c == '\U{2029}'
    || c == '\U{202F}' || c == '\U{205F}' || c == '\U{3000}' || c == '\U{FEFF}'
  }

  /** The class `[ \t]` of `normalizeMultiline`. */
  predicate IsPad(c: char) {
    c == ' ' || c == '\t'
  }

  /** The characters that `.` does not match in a regular expression. */
  predicate IsTerminator(c: char) {
    c == '\n' || c == '\r' || c == '\U{2028}' || c == '\U{2029}'
  }

  /** Lower-casing on ASCII. */
  function LowerChar(c: char): char {
    if 'A' <= c <= 'Z' then ((c as int) - ('A' as int) + ('a' as int)) as char else c
  }

  predicate AllSpace(s: string) {
    forall i | 0 <= i < |s| :: IsSpace(s[i])
  }

  predicate AllPad(s: string) {
    forall i | 0 <= i < |s| :: IsPad(s[i])
  }

  /** Neither end of `s` is a space. */
  predicate Tight(s: string) {
    s != [] ==> !IsSpace(s[0]) && !IsSpace(s[|s| - 1])
  }

  function TrimStart(s: string): (r: string)
    ensures |r| <= |s|
    ensures r != [] ==> !IsSpace(r[0])
    ensures s != [] && IsSpace(s[0]) ==> |r| < |s|
  {
    if s != [] && IsSpace(s[0]) then TrimStart(s[1..]) else s
  }

  function TrimEnd(s: string): (r: string)
    ensures r != [] ==> !IsSpace(r[|r| - 1])
  {
    if s != [] && IsSpace(s[|s| - 1]) then TrimEnd(s[..|s| - 1]) else s
  }

  /** `s.trim()` */
  function Trim(s: string): string {
    TrimEnd(TrimStart(s))
  }

  lemma AllSpaceParts(a: string, b: string)
    ensures AllSpace(a + b) <==> AllSpace(a) && AllSpace(b)
  {
    hide IsSpace;
    assert forall i | 0 <= i < |a| :: (a + b)[i] == a[i];
    assert forall i | 0 <= i < |b| :: (a + b)[|a| + i] == b[i];
  }

  lemma {:induction false} TrimStartSkips(a: string, t: string)
    requires AllSpace(a)
    ensures TrimStart(a + t) == TrimStart(t)
  {
    hide IsSpace;
    if a == [] {
      assert a + t == t;
    } else {
      TailOfAppend(a, t);
      TrimStartSkips(a[1..], t);
    }
  }

  lemma {:induction false} TrimEndSkips(t: string, b: string)
    requires AllSpace(b)
    ensures TrimEnd(t + b) == TrimEnd(t)
  {
    hide IsSpace;
    if b == [] {
      assert t + b == t;
    } else {
      InitOfAppend(t, b);
      TrimEndSkips(t, b[..|b| - 1]);
    }
  }

  lemma {:induction false} TrimStartParts(s: string) returns (a: string)
    ensures s == a + TrimStart(s) && AllSpace(a)
  {
    hide IsSpace;
    if s != [] && IsSpace(s[0]) {
      var x := TrimStartParts(s[1..]);
      a := [s[0]] + x;
      HeadTail(s);
      Assoc([s[0]], x, TrimStart(s));
    } else {
      a := [];
    }
  }

  lemma {:induction false} TrimEndParts(s: string) returns (b: string)
    ensures s == TrimEnd(s) + b && AllSpace(b)
  {
    hide IsSpace;
    if s != [] && IsSpace(s[|s| - 1]) {
      var x := TrimEndParts(s[..|s| - 1]);
      b := x + [s[|s| - 1]];
      InitLast(s);
      Assoc(TrimEnd(s), x, [s[|s| - 1]]);
    } else {
      b := [];
    }
  }

  lemma TrimIsTight(s: string)
    ensures Tight(Trim(s))
  {
    hide IsSpace, TrimStart, TrimEnd;
    var t := TrimStart(s);
    var b := TrimEndParts(t);
    assert TrimEnd(t) != [] ==> t[0] == TrimEnd(t)[0];
  }

  lemma TrimOfTight(s: string)
    requires Tight(s)
    ensures Trim(s) == s
  {
    hide IsSpace;
  }

  /** How `Trim` takes its argument apart. */
  lemma TrimParts(s: string) returns (a: string, b: string)
    ensures s == a + Trim(s) + b && AllSpace(a) && AllSpace(b)
  {
    hide IsSpace, AllSpace, TrimStart, TrimEnd;
    a := TrimStartParts(s);
    b := TrimEndParts(TrimStart(s));
    Assoc(a, Trim(s), b);
  }

  lemma TrimIgnoresLeft(a: string, s: string)
    requires AllSpace(a)
    ensures Trim(a + s) == Trim(s)
  {
    TrimStartSkips(a, s);
  }

  lemma TrimIgnoresRight(s: string, b: string)
    requires AllSpace(b)
    ensures Trim(s + b) == Trim(s)
  {
    hide IsSpace, AllSpace, TrimStart, TrimEnd;
    var a, c := TrimParts(s);
    var r := Trim(s);
    TrimIsTight(s);
    Assoc(a + r, c, b);
    Assoc(a, r, c + b);
    TrimStartSkips(a, r + (c + b));
    AllSpaceParts(c, b);
    assert Trim(s + b) == Trim(r + (c + b));
    if r == [] {
      assert r + (c + b) == c + b;
      TrimOfSpace(c + b);
    } else {
      assert TrimStart(r + (c + b)) == r + (c + b) by { StartsTight(r, c + b); }
      TrimEndSkips(r, c + b);
      TrimOfTight(r);
      assert TrimStart(r) == r by { StartsTight(r, []); assert r + [] == r; }
    }
  }

  lemma StartsTight(r: string, x: string)
    requires r != [] && Tight(r)
    ensures TrimStart(r + x) == r + x
  {
    hide IsSpace;
    assert (r + x)[0] == r[0];
  }

  lemma TrimOfSpace(s: string)
    requires AllSpace(s)
    ensures Trim(s) == []
  {
    hide IsSpace;
    TrimStartSkips(s, []);
    assert s + [] == s;
  }

  lemma TrimEmpty(s: string)
    ensures Trim(s) == [] <==> AllSpace(s)
  {
    hide IsSpace, AllSpace, Trim;
    if AllSpace(s) {
      TrimOfSpace(s);
    } else {
      var a, b := TrimParts(s);
      AllSpaceParts(a, b);
      assert a + [] == a;
    }
  }

  // ---------------------------------------------------------------- lines

  predicate HasNoBreak(s: string) {
    forall i | 0 <= i < |s| :: s[i] != '\n'
  }

  /** `s.split("\n")` */
  function Split(s: string): (r: seq<string>)
    ensures |r| >= 1
    ensures forall i | 0 <= i < |r| :: HasNoBreak(r[i])
  {
    if s == [] then [[]]
    else if s[0] == '\n' then [[]] + Split(s[1..])
    else var r := Split(s[1..]); [[s[0]] + r[0]] + r[1..]
  }

  /** `lines.join("\n")` */
  function Join(lines: seq<string>): string {
    if lines == [] then []
    else if |lines| == 1 then lines[0]
    else lines[0] + "\n" + Join(lines[1..])
  }

  lemma {:induction false} SplitAppend(a: string, b: string)
    ensures Split(a + "\n" + b) == Split(a) + Split(b)
  {
    Assoc(a, "\n", b);
    var t := "\n" + b;
    if a == [] {
      assert a + t == t;
      Cons('\n', b);
    } else {
      TailOfAppend(a, t);
      SplitAppend(a[1..], b);
      Assoc(a[1..], "\n", b);
      var r := Split(a[1..]);
      if a[0] == '\n' {
        Assoc([[]], r, Split(b));
      } else {
        TailOfAppend(r, Split(b));
        Assoc([[a[0]] + r[0]], r[1..], Split(b));
      }
    }
  }

  lemma {:induction false} SplitOfLine(s: string)
    requires HasNoBreak(s)
    ensures Split(s) == [s]
  {
    if s != [] {
      assert HasNoBreak(s[1..]) by {
        forall i | 0 <= i < |s[1..]| ensures s[1..][i] != '\n' { assert s[1..][i] == s[i + 1]; }
      }
      SplitOfLine(s[1..]);
      assert [s[0]] + s[1..] == s;
    }
  }

  /** Splitting undoes joining. */
  lemma {:induction false} SplitJoin(lines: seq<string>)
    requires lines != [] && forall i | 0 <= i < |lines| :: HasNoBreak(lines[i])
    ensures Split(Join(lines)) == lines
  {
    SplitOfLine(lines[0]);
    if |lines| == 1 {
      assert lines == [lines[0]];
    } else {
      SplitJoin(lines[1..]);
      SplitAppend(lines[0], Join(lines[1..]));
      HeadTail(lines);
    }
  }

  /** Joining undoes splitting. */
  lemma {:induction false} JoinSplit(s: string)
    ensures Join(Split(s)) == s
  {
    if s != [] {
      JoinSplit(s[1..]);
      HeadTail(s);
      var r := Split(s[1..]);
      if s[0] == '\n' {
        Cons([], r);
        assert [] + "\n" == "\n";
      } else {
        JoinCons(s[0], r);
      }
    }
  }

  lemma JoinCons(c: char, r: seq<string>)
    requires r != []
    ensures Join([[c] + r[0]] + r[1..]) == [c] + Join(r)
  {
    Cons([c] + r[0], r[1..]);
    if |r| > 1 {
      Assoc([c], r[0], "\n");
      Assoc([c], r[0] + "\n", Join(r[1..]));
    }
  }

  lemma {:induction false} JoinAppend(a: seq<string>, b: seq<string>)
    requires a != [] && b != []
    ensures Join(a + b) == Join(a) + "\n" + Join(b)
  {
    TailOfAppend(a, b);
    if |a| == 1 {
      assert a[1..] + b == b;
    } else {
      JoinAppend(a[1..], b);
      Assoc(Join(a[1..]), "\n", Join(b));
      Assoc(a[0] + "\n", Join(a[1..]), "\n" + Join(b));
      Assoc(Join(a), "\n", Join(b));
    }
  }

  // ---------------------------------------------------------------- whitespace

  /** `value.replace(/\s+/g, " ")` */
  function CollapseSpaces(s: string): string
    decreases |s|
  {
    if s == [] then []
    else if !IsSpace(s[0]) then [s[0]] + CollapseSpaces(s[1..])
    else " " + CollapseSpaces(TrimStart(s))
  }

  /** `normalizeWhitespace` */
  function NormalizeWhitespace(s: string): string {
    Trim(CollapseSpaces(s))
  }

  /** The only spaces are single blanks. */
  predicate SingleSpaced(s: string) {
    forall i | 0 <= i < |s| && IsSpace(s[i]) :: s[i] == ' ' && (i + 1 < |s| ==> !IsSpace(s[i + 1]))
  }

  lemma {:induction false} CollapsedIsSingleSpaced(s: string)
    ensures SingleSpaced(CollapseSpaces(s))
    ensures s != [] && !IsSpace(s[0]) ==> CollapseSpaces(s) != [] && CollapseSpaces(s)[0] == s[0]
    decreases |s|
  {
    if s != [] {
      var rest := if IsSpace(s[0]) then TrimStart(s) else s[1..];
      CollapsedIsSingleSpaced(rest);
      var q := CollapseSpaces(rest);
      var r := CollapseSpaces(s);
      assert r == [r[0]] + q;
      forall i | 0 <= i < |r| && IsSpace(r[i]) ensures r[i] == ' ' && (i + 1 < |r| ==> !IsSpace(r[i + 1])) {
        if i > 0 { assert r[i] == q[i - 1]; }
        if i + 1 < |r| { assert r[i + 1] == q[i]; }
      }
    }
  }

  lemma {:induction false} CollapseFixesSingleSpaced(s: string)
    requires SingleSpaced(s)
    ensures CollapseSpaces(s) == s
  {
    hide IsSpace;
    if s != [] {
      assert SingleSpaced(s[1..]) by {
        forall i | 0 <= i < |s[1..]| && IsSpace(s[1..][i])
          ensures s[1..][i] == ' ' && (i + 1 < |s[1..]| ==> !IsSpace(s[1..][i + 1]))
        {
          assert s[1..][i] == s[i + 1];
          if i + 1 < |s[1..]| { assert s[1..][i + 1] == s[i + 2]; }
        }
      }
      CollapseFixesSingleSpaced(s[1..]);
      if IsSpace(s[0]) {
        assert TrimStart(s) == s[1..];
        assert s == " " + s[1..];
      }
    }
  }

  lemma SliceSingleSpaced(a: string, r: string, b: string)
    requires SingleSpaced(a + r + b)
    ensures SingleSpaced(r)
  {
    hide IsSpace;
    assert forall i | 0 <= i < |r| :: r[i] == (a + r + b)[|a| + i];
  }

  /** `normalizeWhitespace` fixes exactly the tight, single-spaced strings, and always yields one. */
  lemma NormalizeWhitespaceFixpoint(s: string)
    ensures Tight(NormalizeWhitespace(s)) && SingleSpaced(NormalizeWhitespace(s))
    ensures NormalizeWhitespace(s) == s <==> Tight(s) && SingleSpaced(s)
  {
    hide IsSpace, AllSpace, Trim, CollapseSpaces;
    var c := CollapseSpaces(s);
    CollapsedIsSingleSpaced(s);
    TrimIsTight(c);
    var a, b := TrimParts(c);
    SliceSingleSpaced(a, Trim(c), b);
    if Tight(s) && SingleSpaced(s) {
      CollapseFixesSingleSpaced(s);
      TrimOfTight(s);
    }
  }

  // ---------------------------------------------------------------- words

  function Emitted(word: string): seq<string> { if word == [] then [] else [word] }

  /** The words of `cur + s`, where `cur` is the word under way. */
  function WordsFrom(cur: string, s: string): seq<string>
    decreases |s|
  {
    if s == [] then Emitted(cur)
    else if IsSpace(s[0]) then Emitted(cur) + WordsFrom([], s[1..])
    else WordsFrom(cur + [s[0]], s[1..])
  }

  /** The maximal stretches without space, in order. */
  function WordsOf(s: string): seq<string> { WordsFrom([], s) }

  lemma {:induction false} WordsAfterSpace(s: string)
    ensures WordsFrom([], TrimStart(s)) == WordsFrom([], s)
  {
    hide IsSpace;
    if s != [] && IsSpace(s[0]) {
      WordsAfterSpace(s[1..]);
      assert Emitted([]) + WordsFrom([], s[1..]) == WordsFrom([], s[1..]);
    }
  }

  lemma {:induction false} WordsBeforeSpace(cur: string, t: string, b: string)
    requires AllSpace(b)
    ensures WordsFrom(cur, t + b) == WordsFrom(cur, t)
    decreases |t|, |b|
  {
    hide IsSpace;
    if t != [] {
      TailOfAppend(t, b);
      WordsBeforeSpace(if IsSpace(t[0]) then [] else cur + [t[0]], t[1..], b);
    } else if b != [] {
      assert [] + b == b && [] + b[1..] == b[1..];
      assert AllSpace(b[1..]) by { assert forall i | 0 <= i < |b[1..]| :: b[1..][i] == b[i + 1]; }
      WordsBeforeSpace([], [], b[1..]);
    } else {
      assert t + b == t;
    }
  }

  lemma {:induction false} CollapseKeepsWords(cur: string, s: string)
    ensures WordsFrom(cur, CollapseSpaces(s)) == WordsFrom(cur, s)
    decreases |s|
  {
    hide IsSpace;
    if s != [] {
      if IsSpace(s[0]) {
        CollapseKeepsWords([], TrimStart(s));
        WordsAfterSpace(s);
        assert Emitted([]) + WordsFrom([], s[1..]) == WordsFrom([], s[1..]);
        BlankSpaces();
        Cons(' ', CollapseSpaces(TrimStart(s)));
      } else {
        CollapseKeepsWords(cur + [s[0]], s[1..]);
        Cons(s[0], CollapseSpaces(s[1..]));
      }
    }
  }

  lemma BlankSpaces()
    ensures IsSpace(' ')
  {}

  /** `normalizeWhitespace` keeps every word, in order, and nothing else but the blanks between them. */
  lemma NormalizeKeepsWords(s: string)
    ensures WordsOf(NormalizeWhitespace(s)) == WordsOf(s)
  {
    hide IsSpace, AllSpace, TrimStart, TrimEnd, CollapseSpaces, WordsFrom;
    var c := CollapseSpaces(s);
    CollapseKeepsWords([], s);
    WordsAfterSpace(c);
    var b := TrimEndParts(TrimStart(c));
    WordsBeforeSpace([], TrimEnd(TrimStart(c)), b);
  }
}
