/** Exporting a song to Word (`buildWordLyrics`, `buildSongWordDocument` in songs-export.ts) and
    importing the text again (`parseSongText`). A document is its list of paragraphs. */
module WordRoundTrip {
  import opened Text
  import opened Options
  import opened Multiline
  import opened Blocks
  import opened Labels
  import opened SongText
  import opened ExactLines

  /** `WordSongSource`; the empty string stands for a missing value. */
  datatype Source = Source(title: string, artist: string, album: string, year: string, tags: string, contents: seq<string>)

  // ---------------------------------------------------------------- export

  /** `parts.filter(Boolean).join("\n\n")` of the normalised contents. */
  function BuildWordLyrics(contents: seq<string>): string {
    if contents == [] then []
    else
      var first, rest := NormalizeMultiline(contents[0]), BuildWordLyrics(contents[1..]);
      if first == [] then rest else if rest == [] then first else first + "\n\n" + rest
  }

  function ExportedTitle(song: Source): string {
    NormalizeWhitespace(if song.title != [] then song.title else "Sans titre")
  }

  function ExportedYear(song: Source): string {
    if NormalizeYear(song.year) != [] then NormalizeYear(song.year) else NormalizeYear(song.tags)
  }

  function Header(song: Source): seq<string> {
    ["Titre : " + ExportedTitle(song), "Auteur : " + NormalizeWhitespace(song.artist),
     "Annee de parution : " + ExportedYear(song), "Album : " + NormalizeWhitespace(song.album), "", "Paroles :"]
  }

  /** The paragraphs of the Word document. */
  function Document(song: Source): seq<string> {
    Header(song) + Split(BuildWordLyrics(song.contents))
  }

  /** The exported lyrics are a fixed point of `normalizeMultiline`. */
  lemma {:induction false} ExportedLyricsAreNormal(contents: seq<string>)
    ensures Normal(BuildWordLyrics(contents))
  {
    hide Normal, NormalizeMultiline;
    if contents == [] {
      EmptyIsNormal();
    } else {
      ExportedLyricsAreNormal(contents[1..]);
      NormalizeReachesNormal(contents[0]);
      var first, rest := NormalizeMultiline(contents[0]), BuildWordLyrics(contents[1..]);
      if first != [] && rest != [] { NormalPair(first, rest); }
    }
  }

  /** Exporting says what the blocks say, whatever line breaks they are stored with. */
  lemma {:induction false} ExportKeepsContent(contents: seq<string>)
    ensures Content(BuildWordLyrics(contents)) == ContentOf(contents)
  {
    hide Content, NormalizeMultiline, UnifyBreaks;
    EmptyContent();
    if contents != [] {
      ExportKeepsContent(contents[1..]);
      NormalizeKeepsContent(contents[0]);
      var first, rest := NormalizeMultiline(contents[0]), BuildWordLyrics(contents[1..]);
      assert Content(first) + [] == Content(first);
      if first == [] { assert [] + Content(rest) == Content(rest); }
      if first != [] && rest != [] { PairContent(first, rest); }
    }
  }

  /** The lines of all blocks, `\r\n` and `\r` being line breaks too. */
  function ContentOf(contents: seq<string>): seq<string> {
    if contents == [] then [] else Content(UnifyBreaks(contents[0])) + ContentOf(contents[1..])
  }

  lemma PairContent(a: string, b: string)
    ensures Content(a + "\n\n" + b) == Content(a) + Content(b)
  {
    hide Kept, Split, Trim;
    DoubleBreak(a, b);
    assert a + (['\n'] + ("\n" + b)) == a + "\n" + ("\n" + b);
    SplitAppend(a, "\n" + b);
    SplitAppend([], b);
    assert [] + "\n" + b == "\n" + b;
    KeptAppend(Trim, Split(a), Split([]) + Split(b));
    KeptAppend(Trim, Split([]), Split(b));
    EmptyContent();
    assert [] + Content(b) == Content(b);
  }

  // ---------------------------------------------------------------- text extraction

  /** `lines` are the paragraphs in order, with blank lines inserted anywhere. */
  predicate Padded(paragraphs: seq<string>, lines: seq<string>) {
    if lines == [] then paragraphs == []
    else
      || (paragraphs != [] && lines[0] == paragraphs[0] && Padded(paragraphs[1..], lines[1..]))
      || (Plain(lines[0]) && AllSpace(lines[0]) && Padded(paragraphs, lines[1..]))
  }

  lemma {:induction false} PaddedIsPlain(paragraphs: seq<string>, lines: seq<string>)
    requires Padded(paragraphs, lines) && AllPlain(paragraphs)
    ensures AllPlain(lines)
  {
    hide Plain, AllSpace;
    if lines != [] {
      if paragraphs != [] && lines[0] == paragraphs[0] && Padded(paragraphs[1..], lines[1..]) {
        PaddedIsPlain(paragraphs[1..], lines[1..]);
      } else {
        PaddedIsPlain(paragraphs, lines[1..]);
      }
    }
  }

  lemma {:induction false} PaddedKeepsNonBlank(paragraphs: seq<string>, lines: seq<string>)
    requires Padded(paragraphs, lines)
    ensures NonBlank(lines) == NonBlank(paragraphs)
    ensures Kept(StripTail, lines) == Kept(StripTail, paragraphs)
    ensures paragraphs != [] ==> lines != []
  {
    hide Plain, AllSpace, StripTail;
    if lines != [] {
      if paragraphs != [] && lines[0] == paragraphs[0] && Padded(paragraphs[1..], lines[1..]) {
        PaddedKeepsNonBlank(paragraphs[1..], lines[1..]);
      } else {
        PaddedKeepsNonBlank(paragraphs, lines[1..]);
        assert [] + NonBlank(paragraphs) == NonBlank(paragraphs);
        assert [] + Kept(StripTail, paragraphs) == Kept(StripTail, paragraphs);
      }
    }
  }

  // ---------------------------------------------------------------- the header lines

  lemma BlankStep(fold: string -> string, st: State, raw: string)
    requires FoldsAscii(fold) && AllSpace(raw) && !st.started
    ensures TakeLine(fold, st, raw) == st
  {
    TrimOfSpace(raw);
    BlankHasNoLabel(fold);
    hide Classify, Trim, AllSpace, NormalizeWhitespace;
  }

  lemma BlankHasNoLabel(fold: string -> string)
    requires FoldsAscii(fold)
    ensures Classify(fold, []) == None && StripColon([]) == [] && MatchField([]) == None
  {
  }

  /** A label made of ASCII letters and blanks, as the export writes it, with a blank after it. */
  predicate HeaderLabel(name: string) {
    && AsciiThenBlank(name) && 2 < |name| <= 120
    && !IsSpace(name[0]) && IsAlnum(LowerChar(name[0])) && IsAlnum(LowerChar(name[1]))
    && (forall i | 0 <= i < |name| :: !IsColon(name[i]))
    && LowerChar(name[0]) != 'l' && LowerChar(name[0]) != 'p'
    && !(LowerChar(name[0]) == 't' && LowerChar(name[1]) == 'e')
  }

  lemma NotLyrics(fold: string -> string, name: string, rest: string)
    requires FoldsAscii(fold) && HeaderLabel(name)
    ensures Classify(fold, name + rest) != Some(LYRICS)
  {
    hide IsSpace, IsColon;
    var x, y := LowerChar(name[0]), LowerChar(name[1]);
    var s := Lower(name) + fold(rest);
    assert s[0] == x && s[1] == y;
    assert s[1..][0] == y;
    var tail := Slug(s[1..][1..]);
    assert Slug(s) == [x] + ([y] + tail);
    StartsWithTwo(x, y, tail);
    hide Slug, Trim, FoldsAscii;
    LyricsNames(CanonicalLabel(fold, name + rest));
  }

  lemma LyricsNames(name: string)
    requires |name| >= 2 && name[0] != 'l' && name[0] != 'p' && !(name[0] == 't' && name[1] == 'e')
    ensures ClassifyLabel(name) != Some(LYRICS)
  {
    hide Contains;
  }

  lemma StartsWithTwo(x: char, y: char, tail: string)
    requires IsAlnum(x) && IsAlnum(y)
    ensures var r := Trim([x] + ([y] + tail)); |r| >= 2 && r[0] == x && r[1] == y
  {
    AlnumIsNoSpace(x);
    AlnumIsNoSpace(y);
    hide IsSpace, IsAlnum, TrimEnd;
    var s := [x] + ([y] + tail);
    assert s[0] == x && s[1] == y;
    assert TrimStart(s) == s;
    var b := TrimEndParts(s);
    var r := TrimEnd(s);
    assert forall i | |r| <= i < |s| :: s[i] == b[i - |r|];
  }

  lemma AlnumIsNoSpace(c: char)
    requires IsAlnum(c)
    ensures !IsSpace(c)
  {
  }

  /** A normalised value has no line terminator. */
  lemma SingleSpacedHasNoTerminator(value: string)
    requires SingleSpaced(value)
    ensures !SongText.HasTerminator(value)
  {
  }

  /** A header line sets its field to the normalised value. */
  lemma HeaderStep(fold: string -> string, st: State, name: string, value: string, field: Field)
    requires FoldsAscii(fold) && !st.started && HeaderLabel(name)
    requires Classify(fold, name) == Some(field)
    requires Tight(value) && SingleSpaced(value)
    ensures TakeLine(fold, st, name + ": " + value) == SetField(st, field, value)
  {
    var raw := name + ": " + value;
    HeaderTrim(name, value);
    var line := Trim(raw);
    HeaderIsNoLyrics(fold, name, value);
    HeaderMatches(name, value);
    NormalizeWhitespaceFixpoint(value);
    hide Trim, Classify, StripColon, MatchField, HeaderLabel, FoldsAscii, NormalizeWhitespace, SetField;
  }

  /** The trimmed header line: the blank after the colon goes when there is no value. */
  function HeaderLine(name: string, value: string): string {
    name + ":" + (if value == [] then [] else " " + value)
  }

  lemma HeaderTrim(name: string, value: string)
    requires HeaderLabel(name) && Tight(value)
    ensures Trim(name + ": " + value) == HeaderLine(name, value) != []
  {
    var line := HeaderLine(name, value);
    assert Tight(line) by { assert line[0] == name[0]; HeaderLineEnd(name, value); }
    hide IsSpace, HeaderLabel;
    TrimOfTight(line);
    if value == [] {
      assert name + ": " + value == line + " ";
      assert AllSpace(" ") by { BlankIsSpace(); }
      TrimIgnoresRight(line, " ");
    } else {
      assert name + ": " + value == line;
    }
  }

  lemma HeaderLineEnd(name: string, value: string)
    requires Tight(value)
    ensures var line := HeaderLine(name, value); !IsSpace(line[|line| - 1])
  {
    hide IsSpace;
    var line := HeaderLine(name, value);
    if value != [] {
      assert line[|line| - 1] == value[|value| - 1];
    } else {
      assert line[|line| - 1] == ':';
      ColonIsNoSpace();
    }
  }

  lemma ColonIsNoSpace()
    ensures !IsSpace(':')
  {
  }

  lemma HeaderIsNoLyrics(fold: string -> string, name: string, value: string)
    requires FoldsAscii(fold) && HeaderLabel(name) && Tight(value)
    ensures Classify(fold, StripColon(HeaderLine(name, value))) != Some(LYRICS)
  {
    hide IsSpace, HeaderLabel, FoldsAscii, Classify;
    var line := HeaderLine(name, value);
    HeaderLineEnd(name, value);
    assert TrimEnd(line) == line;
    var s := StripColon(line);
    var rest := s[|name|..];
    assert s == name + rest;
    NotLyrics(fold, name, rest);
  }

  lemma HeaderMatches(name: string, value: string)
    requires HeaderLabel(name) && Tight(value) && SingleSpaced(value)
    ensures MatchField(HeaderLine(name, value)) == Some((name, value))
  {
    SingleSpacedHasNoTerminator(value);
    var gap := if value == [] then [] else " ";
    assert AllSpace(gap) by { BlankIsSpace(); }
    assert gap + value == if value == [] then [] else " " + value;
    hide IsSpace, AllSpace, SongText.HasTerminator, ColonIndex, MatchField, TrimStart, SingleSpaced, LowerChar, IsAlnum;
    FieldReads(name, ':', gap, value);
  }

  // ---------------------------------------------------------------- walking through the paragraphs

  /** Inserted blank lines do not matter while the header is being read. */
  lemma {:induction false} PaddedStep(
    fold: string -> string, st: State, paragraphs: seq<string>, lines: seq<string>) returns (rest: seq<string>)
    requires FoldsAscii(fold) && !st.started && paragraphs != [] && Padded(paragraphs, lines)
    ensures Padded(paragraphs[1..], rest)
    ensures TakeLines(fold, st, lines) == TakeLines(fold, TakeLine(fold, st, paragraphs[0]), rest)
    decreases |lines|
  {
    hide TakeLine, FoldsAscii, AllSpace, Plain;
    if lines[0] == paragraphs[0] && Padded(paragraphs[1..], lines[1..]) {
      rest := lines[1..];
    } else {
      BlankStep(fold, st, lines[0]);
      rest := PaddedStep(fold, st, paragraphs, lines[1..]);
    }
  }

  /** The four metadata lines, as label, value and field. */
  lemma HeaderSteps(fold: string -> string, song: Source)
    requires FoldsAscii(fold)
    ensures var t, a, y, b := ExportedTitle(song), NormalizeWhitespace(song.artist), ExportedYear(song), NormalizeWhitespace(song.album);
            var s1 := START.(title := t);
            var s2 := s1.(artist := a);
            var s3 := s2.(year := y);
            && TakeLine(fold, START, Header(song)[0]) == s1
            && TakeLine(fold, s1, Header(song)[1]) == s2
            && TakeLine(fold, s2, Header(song)[2]) == s3
            && TakeLine(fold, s3, Header(song)[3]) == s3.(album := b)
  {
    hide FoldsAscii, TakeLine, Classify, NormalizeWhitespace, NormalizeYear, HeaderLabel;
    ValuesAreNormal(song);
    LabelsAreHeaders();
    LabelTitre(fold); LabelAuteur(fold); LabelAlbum(fold); LabelAnnee(fold);
    var t, a, y, b := ExportedTitle(song), NormalizeWhitespace(song.artist), ExportedYear(song), NormalizeWhitespace(song.album);
    var s1 := START.(title := t);
    var s2 := s1.(artist := a);
    var s3 := s2.(year := y);
    assert Header(song)[0] == "Titre " + ": " + t;
    HeaderStep(fold, START, "Titre ", t, TITLE);
    assert Header(song)[1] == "Auteur " + ": " + a;
    HeaderStep(fold, s1, "Auteur ", a, ARTIST);
    assert Header(song)[2] == "Annee de parution " + ": " + y;
    HeaderStep(fold, s2, "Annee de parution ", y, YEAR);
    assert Header(song)[3] == "Album " + ": " + b;
    HeaderStep(fold, s3, "Album ", b, ALBUM);
  }

  lemma LabelsAreHeaders()
    ensures HeaderLabel("Titre ") && HeaderLabel("Auteur ") && HeaderLabel("Annee de parution ") && HeaderLabel("Album ")
  {
    hide HeaderLabel;
    ShortLabelsAreHeaders();
    LongLabelIsHeader();
  }

  lemma ShortLabelsAreHeaders()
    ensures HeaderLabel("Titre ") && HeaderLabel("Auteur ") && HeaderLabel("Album ")
  {
  }

  lemma LongLabelIsHeader()
    ensures HeaderLabel("Annee de parution ")
  {
  }

  lemma ValuesAreNormal(song: Source)
    ensures Tight(ExportedTitle(song)) && SingleSpaced(ExportedTitle(song))
    ensures Tight(NormalizeWhitespace(song.artist)) && SingleSpaced(NormalizeWhitespace(song.artist))
    ensures Tight(NormalizeWhitespace(song.album)) && SingleSpaced(NormalizeWhitespace(song.album))
    ensures Tight(ExportedYear(song)) && SingleSpaced(ExportedYear(song))
    ensures NormalizeYear(ExportedYear(song)) == ExportedYear(song)
  {
    hide NormalizeWhitespace, NormalizeYear, Tight, SingleSpaced;
    NormalizeWhitespaceFixpoint(if song.title != [] then song.title else "Sans titre");
    NormalizeWhitespaceFixpoint(song.artist);
    NormalizeWhitespaceFixpoint(song.album);
    NormalizeYearFixpoint(song.year);
    NormalizeYearFixpoint(song.tags);
    DigitsAreTight(ExportedYear(song));
  }

  lemma LyricsStep(fold: string -> string, st: State)
    requires FoldsAscii(fold) && !st.started
    ensures TakeLine(fold, st, "") == st
    ensures TakeLine(fold, st, "Paroles :") == st.(started := true)
  {
    hide FoldsAscii, Classify, IsSpace;
    assert AllSpace("");
    BlankStep(fold, st, "");
    ColonIsNoSpace();
    assert !IsSpace('P') by { LetterIsNoSpace(); }
    TrimOfTight("Paroles :");
    assert TrimEnd("Paroles :") == "Paroles :";
    assert StripColon("Paroles :") == "Paroles ";
    LabelParoles(fold);
  }

  lemma LetterIsNoSpace()
    ensures !IsSpace('P')
  {
  }

  /** Reading the extracted lines ends with the four fields set and the lyric paragraphs collected. */
  lemma ReadsBack(fold: string -> string, song: Source, lines: seq<string>) returns (rest: seq<string>)
    requires FoldsAscii(fold) && Padded(Document(song), lines)
    ensures Padded(Split(BuildWordLyrics(song.contents)), rest)
    ensures TakeLines(fold, START, lines)
         == State(ExportedTitle(song), NormalizeWhitespace(song.artist), NormalizeWhitespace(song.album),
                  ExportedYear(song), [], [], true, rest)
  {
    hide FoldsAscii, TakeLine, TakeLines, NormalizeWhitespace, ExportedTitle, ExportedYear, Split, Padded, Header;
    HeaderSteps(fold, song);
    var d := Document(song);
    var st := START;
    rest := lines;
    HeaderShape(song);
    rest := PaddedStep(fold, st, d, rest);
    st := TakeLine(fold, st, d[0]);
    rest := PaddedStep(fold, st, d[1..], rest);
    st := TakeLine(fold, st, d[1]);
    rest := PaddedStep(fold, st, d[2..], rest);
    st := TakeLine(fold, st, d[2]);
    rest := PaddedStep(fold, st, d[3..], rest);
    st := TakeLine(fold, st, d[3]);
    LyricsStep(fold, st);
    rest := PaddedStep(fold, st, d[4..], rest);
    rest := PaddedStep(fold, st, d[5..], rest);
    st := st.(started := true);
    StartedTakesAll(fold, st, rest);
    assert [] + rest == rest;
  }

  lemma HeaderShape(song: Source)
    ensures var d, h := Document(song), Header(song);
            && |d| >= 6 && d[0] == h[0] && d[1] == h[1] && d[2] == h[2] && d[3] == h[3] && d[4] == "" && d[5] == "Paroles :"
            && d[1..][1..] == d[2..] && d[2..][1..] == d[3..] && d[3..][1..] == d[4..] && d[4..][1..] == d[5..]
            && d[5..][1..] == Split(BuildWordLyrics(song.contents))
  {
  }

  lemma SingleSpacedIsPlain(name: string, value: string)
    requires Plain(name) && SingleSpaced(value)
    ensures Plain(name + value)
  {
  }

  lemma DocumentIsPlain(song: Source)
    ensures AllPlain(Document(song))
  {
    hide AllPlain, Header, Split;
    HeaderIsPlain(song);
    ExportedLyricsAreNormal(song.contents);
    NormalLinesPlain(BuildWordLyrics(song.contents));
    AllPlainAppend(Header(song), Split(BuildWordLyrics(song.contents)));
  }

  lemma AllPlainAppend(a: seq<string>, b: seq<string>)
    requires AllPlain(a) && AllPlain(b)
    ensures AllPlain(a + b)
  {
    hide Plain;
  }

  lemma HeaderIsPlain(song: Source)
    ensures AllPlain(Header(song))
  {
    hide NormalizeWhitespace, NormalizeYear, SingleSpaced, Tight, IsSpace, Plain, ExportedTitle, ExportedYear;
    ValuesAreNormal(song);
    LiteralsArePlain();
    SingleSpacedIsPlain("Titre : ", ExportedTitle(song));
    SingleSpacedIsPlain("Auteur : ", NormalizeWhitespace(song.artist));
    SingleSpacedIsPlain("Annee de parution : ", ExportedYear(song));
    SingleSpacedIsPlain("Album : ", NormalizeWhitespace(song.album));
  }

  lemma LiteralsArePlain()
    ensures Plain("Titre : ") && Plain("Auteur : ") && Plain("Album : ") && Plain("Paroles :") && Plain("")
    ensures Plain("Annee de parution : ")
  {
  }

  /** Exporting to Word and importing again, through any extraction that keeps the paragraphs in order
      and may insert blank lines, gives back the normalised title (a blank one is replaced), artist,
      album and year, and exactly the non-blank lyric lines. */
  lemma WordRoundTrip(fold: string -> string, song: Source, lines: seq<string>, fallback: string)
    requires FoldsAscii(fold) && Padded(Document(song), lines)
    ensures var back := Parsed(fold, Join(lines), fallback);
            && back.title == (if ExportedTitle(song) != [] then ExportedTitle(song) else NormalizeWhitespace(TitleOr([], fallback)))
            && back.artist == NormalizeWhitespace(song.artist)
            && back.album == NormalizeWhitespace(song.album)
            && back.year == ExportedYear(song)
            && back.language == [] && back.tags == []
            && NonBlank(Split(back.lyrics)) == NonBlank(Split(BuildWordLyrics(song.contents)))
  {
    hide FoldsAscii, Padded, NonBlank, Split, Join, TakeLines, NormalizeWhitespace, NormalizeMultiline, NormalizeYear,
         BuildWordLyrics, ExportedTitle, ExportedYear, UnifyBreaks, Document, Normal, AllPlain;
    SplitRaw(song, lines);
    var rest := ReadsBack(fold, song, lines);
    LyricsComeBack(song, rest);
    FieldsAreFixed(song);
  }

  /** The import of an exported song warns of a blank title, when there is a file name to replace it, and of
      missing lyrics, and of nothing else. */
  lemma RoundTripWarnings(fold: string -> string, song: Source, lines: seq<string>, fallback: string)
    requires FoldsAscii(fold) && Padded(Document(song), lines)
    ensures Warnings(Heard(fold, Join(lines)), fallback)
         == (if ExportedTitle(song) == [] && fallback != [] then [TITLE_FROM_FILE] else [])
            + (if BuildWordLyrics(song.contents) == [] then [NO_LYRICS] else [])
  {
    hide FoldsAscii, Padded, NonBlank, Split, Join, TakeLines, NormalizeWhitespace, NormalizeMultiline, NormalizeYear,
         BuildWordLyrics, ExportedTitle, ExportedYear, UnifyBreaks, Document, Normal, AllPlain;
    SplitRaw(song, lines);
    var rest := ReadsBack(fold, song, lines);
    LyricsComeBack(song, rest);
    FieldsAreFixed(song);
    NormalizeReachesNormal(Join(rest));
    ExportedLyricsAreNormal(song.contents);
    BlankOnlyWhenEmpty(NormalizeMultiline(Join(rest)));
    BlankOnlyWhenEmpty(BuildWordLyrics(song.contents));
  }

  lemma BlankOnlyWhenEmpty(s: string)
    requires Normal(s)
    ensures NonBlank(Split(s)) == [] <==> s == []
  {
    hide IsSpace;
    BreakIsSpace();
    var lines := Split(s);
    assert Kept(Same, lines) == Emit(Same, lines[0]) + Kept(Same, lines[1..]);
    if s != [] {
      FirstLineStarts(s);
      assert !AllSpace(lines[0]);
    }
  }

  lemma SplitRaw(song: Source, lines: seq<string>)
    requires Padded(Document(song), lines)
    ensures Split(UnifyBreaks(Join(lines))) == lines
  {
    hide Padded, Split, Join, UnifyBreaks, Document;
    DocumentIsPlain(song);
    PaddedIsPlain(Document(song), lines);
    JoinPlain(lines);
    UnifyBreaksClean(Join(lines));
    PaddedKeepsNonBlank(Document(song), lines);
    assert Document(song) != [] by { HeaderShape(song); }
    assert forall i | 0 <= i < |lines| :: HasNoBreak(lines[i]) by { assert forall i | 0 <= i < |lines| :: Plain(lines[i]); }
    SplitJoin(lines);
  }

  lemma LyricsComeBack(song: Source, rest: seq<string>)
    requires Padded(Split(BuildWordLyrics(song.contents)), rest)
    ensures NonBlank(Split(NormalizeMultiline(Join(rest)))) == NonBlank(Split(BuildWordLyrics(song.contents)))
  {
    hide Padded, NonBlank, Kept, Split, Join, NormalizeMultiline, BuildWordLyrics, StartsTightly, EndsTightly, AllPlain,
         StripTail, AllPadlessEnds, Tight;
    var l := BuildWordLyrics(song.contents);
    ExportedLyricsAreNormal(song.contents);
    PaddedKeepsNonBlank(Split(l), rest);
    NormalLinesPlain(l);
    PaddedIsPlain(Split(l), rest);
    NormalHasPadlessLines(l);
    StripTailOfPadless(Split(l));
    NormalIsTightOutside(l);
    NormalizeKeepsExactLines(rest);
  }

  lemma NormalLinesPlain(l: string)
    requires NoReturn(l)
    ensures AllPlain(Split(l))
  {
    forall i | 0 <= i < |Split(l)| ensures Plain(Split(l)[i]) { ReturnFree(l, i); }
  }

  lemma FieldsAreFixed(song: Source)
    ensures NormalizeWhitespace(ExportedTitle(song)) == ExportedTitle(song)
    ensures NormalizeWhitespace(NormalizeWhitespace(song.artist)) == NormalizeWhitespace(song.artist)
    ensures NormalizeWhitespace(NormalizeWhitespace(song.album)) == NormalizeWhitespace(song.album)
    ensures NormalizeYear(ExportedYear(song)) == ExportedYear(song)
    ensures NormalizeWhitespace([]) == []
  {
    hide NormalizeYear, Tight, SingleSpaced, ExportedTitle, ExportedYear;
    ValuesAreNormal(song);
    NormalizeWhitespaceFixpoint(ExportedTitle(song));
    NormalizeWhitespaceFixpoint(NormalizeWhitespace(song.artist));
    NormalizeWhitespaceFixpoint(NormalizeWhitespace(song.album));
  }
}
