/** What `parseSectionHeading` (songs-import.ts) reads: six words, a number, a separator and inline text. */
module HeadingWords {
  import opened Seqs
  import opened Text
  import opened Options
  import opened Blocks
  import opened Headings

  /** The six words and what each of them opens. */
  predicate Opens(word: string, kind: Kind) {
    match kind
    case CHORUS => word == "refrain" || word == "chorus"
    case VERSE => word == "couplet" || word == "verse"
    case BRIDGE => word == "pont" || word == "bridge"
  }

  predicate NoTerminator(s: string) {
    forall i | 0 <= i < |s| :: !IsTerminator(s[i])
  }

  /** What may follow the word: blanks, a number, blanks, one separator, blanks and the inline text. Without a
      number or a separator the blanks after it are left empty, and a text that would itself be read as a number
      or a separator does not qualify. */
  datatype Tail = Tail(gap: string, digits: string, gap2: string, sep: string, gap3: string, inline: string)
  {
    function After(): string { sep + (gap3 + inline) }

    function Text(): string { gap + (digits + (gap2 + After())) }

    predicate Valid() {
      && AllSpace(gap) && AllSpace(gap2) && AllSpace(gap3)
      && AllDigits(digits) && Tight(inline) && NoTerminator(inline)
      && (sep == [] || (|sep| == 1 && IsSeparator(sep[0])))
      && (sep == [] ==> gap3 == [] && (inline != [] ==> !IsSeparator(inline[0])))
      && (digits == [] ==> gap2 == [])
      && (sep == [] && gap2 == [] && inline != [] ==> !IsDigit(inline[0]))
    }
  }

  lemma {:induction false} DigitsEnd(digits: string, rest: string)
    requires AllDigits(digits) && (rest != [] ==> !IsDigit(rest[0]))
    ensures DigitRun(digits + rest) == |digits|
  {
    if digits == [] {
      assert digits + rest == rest;
    } else {
      TailOfAppend(digits, rest);
      DigitsEnd(digits[1..], rest);
    }
  }

  lemma SkipGap(gap: string, rest: string)
    requires AllSpace(gap) && (rest != [] ==> !IsSpace(rest[0]))
    ensures TrimStart(gap + rest) == rest
  {
    TrimStartSkips(gap, rest);
  }

  lemma NotSpace(c: char)
    requires IsDigit(c) || IsSeparator(c)
    ensures !IsSpace(c)
  {}

  lemma SpaceIsNoDigit(c: char)
    requires IsSpace(c) || IsSeparator(c)
    ensures !IsDigit(c)
  {}

  lemma AfterStarts(t: Tail)
    requires t.Valid()
    ensures t.After() != [] ==> !IsSpace(t.After()[0])
    ensures t.gap2 + t.After() != [] ==> !IsDigit((t.gap2 + t.After())[0])
    ensures t.digits + (t.gap2 + t.After()) != [] ==> !IsSpace((t.digits + (t.gap2 + t.After()))[0])
    ensures t.sep == [] ==> t.After() == t.inline
  {
    hide IsSpace, IsDigit, IsSeparator, IsTerminator;
    if t.sep == [] {
      assert [] + ([] + t.inline) == t.inline;
    } else {
      NotSpace(t.sep[0]);
      SpaceIsNoDigit(t.sep[0]);
    }
    if t.gap2 != [] { SpaceIsNoDigit(t.gap2[0]); }
    if t.digits != [] {
      NotSpace(t.digits[0]);
    } else {
      assert [] + t.After() == t.After();
      assert [] + (t.gap2 + t.After()) == t.After();
    }
  }

  lemma TailReads(t: Tail)
    requires t.Valid()
    ensures AfterKeyword(t.Text()) == Some((t.digits, t.inline))
  {
    AfterStarts(t);
    hide IsSpace, IsDigit, IsTerminator, TrimStart, Trim, DigitRun;
    var rest := t.gap2 + t.After();
    SkipGap(t.gap, t.digits + rest);
    DigitsEnd(t.digits, rest);
    assert (t.digits + rest)[|t.digits|..] == rest && (t.digits + rest)[..|t.digits|] == t.digits;
    SkipGap(t.gap2, t.After());
    SkipGap(t.gap3, t.inline);
    TrimOfTight(t.inline);
    if t.sep == [] {
      SkipGap([], t.inline);
      assert [] + t.inline == t.inline;
    } else {
      assert t.After()[1..] == t.gap3 + t.inline;
    }
  }

  lemma SameLetters(line: string, w: string, word: string)
    requires StartsWord(line, w) && StartsWord(line, word) && |w| >= 2 && |word| >= 2
    ensures w[0] == word[0] && w[1] == word[1]
  {
    assert LowerChar(line[0]) == w[0] && LowerChar(line[1]) == w[1];
  }

  lemma LineStarts(head: string, rest: string, word: string)
    requires |head| == |word| && StartsWord(head, word)
    ensures StartsWord(head + rest, word)
  {
    assert forall i | 0 <= i < |head| :: (head + rest)[i] == head[i];
  }

  lemma WordIsKeyword(head: string, rest: string, word: string, kind: Kind)
    requires Opens(word, kind) && |head| == |word| && StartsWord(head, word)
    ensures Keyword(head + rest) == Some((word, kind))
  {
    var line := head + rest;
    LineStarts(head, rest, word);
    hide StartsWord, LowerChar, Opens, Keyword;
    forall w: string, k | Opens(w, k) && StartsWord(line, w) ensures w == word && k == kind {
      LettersTell(w, k, word, kind);
      SameLetters(line, w, word);
    }
    KeywordIs(line, word, kind);
  }

  /** The first two letters tell the words apart. */
  lemma LettersTell(w: string, k: Kind, word: string, kind: Kind)
    requires Opens(w, k) && Opens(word, kind)
    ensures |w| >= 2 && |word| >= 2
    ensures w[0] == word[0] && w[1] == word[1] ==> w == word && k == kind
  {}

  lemma KeywordIs(line: string, word: string, kind: Kind)
    requires Opens(word, kind) && StartsWord(line, word)
    requires forall w: string, k | Opens(w, k) && StartsWord(line, w) :: w == word && k == kind
    ensures Keyword(line) == Some((word, kind))
  {
    hide StartsWord;
    assert Opens("refrain", CHORUS) && Opens("chorus", CHORUS) && Opens("couplet", VERSE) && Opens("verse", VERSE)
        && Opens("pont", BRIDGE) && Opens("bridge", BRIDGE);
    hide Opens;
    OneOfSix(word, kind);
  }

  lemma OneOfSix(word: string, kind: Kind)
    requires Opens(word, kind)
    ensures word == "refrain" || word == "chorus" || word == "couplet" || word == "verse" || word == "pont" || word == "bridge"
  {}

  /** A line that begins with one of the six words, in any ASCII case, is a heading with the kind of the word, a
      title made of the French name and the number, and the text after it. */
  lemma HeadingReads(head: string, word: string, kind: Kind, t: Tail, fallback: nat)
    requires Opens(word, kind) && |head| == |word| && StartsWord(head, word) && t.Valid()
    ensures var title := match kind
                         case CHORUS => "Refrain" + (if t.digits == [] then "" else " " + t.digits)
                         case BRIDGE => "Pont" + (if t.digits == [] then "" else " " + t.digits)
                         case VERSE => "Couplet " + (if t.digits == [] then Decimal(fallback) else t.digits);
            ParseSectionHeading(head + t.Text(), fallback) == Some(Heading(kind, title, t.inline))
  {
    WordIsKeyword(head, t.Text(), word, kind);
    TailReads(t);
    assert (head + t.Text())[|head|..] == t.Text();
    hide Keyword, AfterKeyword, StartsWord, Decimal;
    assert "Couplet" + " " == "Couplet " && "Couplet" + " " + t.digits == "Couplet " + t.digits;
    assert "Refrain" + " " + t.digits == "Refrain" + (" " + t.digits) && "Refrain" + "" == "Refrain";
    assert "Pont" + " " + t.digits == "Pont" + (" " + t.digits) && "Pont" + "" == "Pont";
  }

  /** Nothing else is a heading. */
  lemma OnlyTheSixWords(line: string, fallback: nat)
    requires ParseSectionHeading(line, fallback).Some?
    ensures exists word :: Opens(word, ParseSectionHeading(line, fallback).value.kind) && StartsWord(line, word)
  {
    hide AfterKeyword, Decimal, StartsWord;
    var (word, kind) := Keyword(line).value;
    assert Opens(word, kind);
  }
}
