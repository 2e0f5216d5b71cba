/** `normalizeYear` (songs-meta.ts) and `parseSongText` (songs-import.ts). */
module SongText {
  import opened Seqs
  import opened Text
  import opened Options
  import opened Multiline
  import opened Blocks
  import opened Labels
  import opened LyricsToBlocks

  // ---------------------------------------------------------------- years

  predicate IsWordChar(c: char) {
    'a' <= c <= 'z' || 'A' <= c <= 'Z' || IsDigit(c) || c == '_'
  }

  /** `\b(19\d{2}|20\d{2}|21\d{2})\b` matches at `i`. */
  predicate YearAt(s: string, i: nat) {
    && i + 4 <= |s| && AllDigits(s[i..i + 4])
    && (s[i..i + 2] == "19" || s[i..i + 2] == "20" || s[i..i + 2] == "21")
    && (i == 0 || !IsWordChar(s[i - 1]))
    && (i + 4 == |s| || !IsWordChar(s[i + 4]))
  }

  function FirstYear(s: string, i: nat): Option<string>
    requires i <= |s|
    decreases |s| - i
  {
    if YearAt(s, i) then Some(s[i..i + 4]) else if i == |s| then None else FirstYear(s, i + 1)
  }

  /** `clean.replace(/\D/g, "")` */
  function DigitsOf(s: string): string {
    if s == [] then [] else (if IsDigit(s[0]) then [s[0]] else []) + DigitsOf(s[1..])
  }

  /** `normalizeYear`, with the empty string for `undefined`: callers test it for truth only. */
  function NormalizeYear(value: string): string {
    if value == [] then []
    else
      var clean := NormalizeWhitespace(value);
      match FirstYear(clean, 0)
      case Some(year) => year
      case None => if |DigitsOf(clean)| == 4 then DigitsOf(clean) else []
  }

  /** The year is the first one that stands alone; without one, the digits count when they are four. */
  lemma {:induction false} FirstYearAt(s: string, from: nat, i: nat)
    requires from <= i && i + 4 <= |s| && YearAt(s, i) && forall k: nat | from <= k < i :: !YearAt(s, k)
    ensures FirstYear(s, from) == Some(s[i..i + 4])
    decreases i - from
  {
    hide YearAt;
    if from < i { FirstYearAt(s, from + 1, i); }
  }

  lemma {:induction false} NoYearAt(s: string, from: nat)
    requires from <= |s| && forall k: nat | from <= k <= |s| :: !YearAt(s, k)
    ensures FirstYear(s, from) == None
    decreases |s| - from
  {
    hide YearAt;
    if from < |s| { NoYearAt(s, from + 1); }
  }

  /** `normalizeYear` by position: the first year of the 20th to the 22nd century that is a word of its own,
      and failing that the digits of the value when there are four of them. */
  lemma YearIsFirst(value: string)
    ensures var clean := NormalizeWhitespace(value);
            && (forall i: nat | i + 4 <= |clean| && YearAt(clean, i) && (forall k: nat | k < i :: !YearAt(clean, k)) ::
                  NormalizeYear(value) == clean[i..i + 4])
            && ((forall k: nat | k <= |clean| :: !YearAt(clean, k)) && value != [] ==>
                  NormalizeYear(value) == if |DigitsOf(clean)| == 4 then DigitsOf(clean) else [])
  {
    hide YearAt, NormalizeWhitespace, DigitsOf;
    var clean := NormalizeWhitespace(value);
    if value == [] { NothingNormalises(); }
    forall i: nat | i + 4 <= |clean| && YearAt(clean, i) && (forall k: nat | k < i :: !YearAt(clean, k))
      ensures NormalizeYear(value) == clean[i..i + 4]
    {
      FirstYearAt(clean, 0, i);
    }
    if forall k: nat | k <= |clean| :: !YearAt(clean, k) { NoYearAt(clean, 0); }
  }

  lemma NothingNormalises()
    ensures NormalizeWhitespace([]) == []
  {}

  predicate IsYear(s: string) {
    |s| == 4 && AllDigits(s)
  }

  lemma {:induction false} DigitsAreDigits(s: string)
    ensures AllDigits(DigitsOf(s))
    ensures AllDigits(s) ==> DigitsOf(s) == s
  {
    if s != [] {
      DigitsAreDigits(s[1..]);
      HeadTail(s);
      assert AllDigits(s) ==> AllDigits(s[1..]);
    }
  }

  lemma {:induction false} FirstYearIsYear(s: string, i: nat)
    requires i <= |s|
    ensures FirstYear(s, i).Some? ==> IsYear(FirstYear(s, i).value)
    ensures |s| == 4 && FirstYear(s, i).Some? ==> FirstYear(s, i).value == s
    decreases |s| - i
  {
    if !YearAt(s, i) && i < |s| { FirstYearIsYear(s, i + 1); }
    assert |s| == 4 ==> s[0..4] == s;
  }

  /** A normalised year is empty or four digits, and normalising it again changes nothing. */
  lemma NormalizeYearFixpoint(value: string)
    ensures NormalizeYear(value) == [] || IsYear(NormalizeYear(value))
    ensures NormalizeYear(NormalizeYear(value)) == NormalizeYear(value)
  {
    FirstYearIsYear(NormalizeWhitespace(value), 0);
    DigitsAreDigits(NormalizeWhitespace(value));
    if NormalizeYear(value) != [] { YearIsFixed(NormalizeYear(value)); }
  }

  lemma YearIsFixed(year: string)
    requires IsYear(year)
    ensures NormalizeYear(year) == year
  {
    hide IsSpace, NormalizeWhitespace, FirstYear;
    assert Tight(year) && SingleSpaced(year) by { DigitsAreTight(year); }
    NormalizeWhitespaceFixpoint(year);
    FirstYearIsYear(year, 0);
    DigitsAreDigits(year);
  }

  lemma DigitsAreTight(s: string)
    requires AllDigits(s)
    ensures Tight(s) && SingleSpaced(s)
  {
  }

  // ---------------------------------------------------------------- one line of a song text

  predicate IsColon(c: char) {
    c == ':' || c == '\U{FF1A}'
  }

  /** `line.replace(/[:\uFF1A]\s*$/, "")` */
  function StripColon(line: string): string {
    var t := TrimEnd(line);
    if t != [] && IsColon(t[|t| - 1]) then t[..|t| - 1] else line
  }

  function ColonIndex(s: string, i: nat): (r: Option<nat>)
    requires i <= |s|
    ensures r.Some? ==> i <= r.value < |s|
    decreases |s| - i
  {
    if i == |s| then None else if IsColon(s[i]) then Some(i) else ColonIndex(s, i + 1)
  }

  predicate HasTerminator(s: string) {
    exists i :: 0 <= i < |s| && IsTerminator(s[i])
  }

  /** `line.match(/^([^:\uFF1A]{1,120})\s*[:\uFF1A]\s*(.*)$/)` */
  function MatchField(line: string): Option<(string, string)> {
    match ColonIndex(line, 0)
    case None => None
    case Some(c) =>
      var value := TrimStart(line[c + 1..]);
      if c == 0 || HasTerminator(value) then None
      else if c <= 120 then Some((line[..c], value))
      else if AllSpace(line[120..c]) then Some((line[..120], value))
      else None
  }

  lemma {:induction false} ColonAt(s: string, i: nat, c: nat)
    requires i <= c < |s| && IsColon(s[c]) && forall k | i <= k < c :: !IsColon(s[k])
    ensures ColonIndex(s, i) == Some(c)
    decreases c - i
  {
    if i < c { ColonAt(s, i + 1, c); }
  }

  /** A name of up to 120 characters, a colon, blanks and a value on one line. */
  lemma FieldReads(name: string, colon: char, gap: string, value: string)
    requires 1 <= |name| <= 120 && IsColon(colon) && forall k | 0 <= k < |name| :: !IsColon(name[k])
    requires AllSpace(gap) && (value != [] ==> !IsSpace(value[0])) && !HasTerminator(value)
    ensures MatchField(name + [colon] + (gap + value)) == Some((name, value))
  {
    var line := name + [colon] + (gap + value);
    assert forall k | 0 <= k < |name| :: line[k] == name[k];
    hide IsColon, IsSpace, HasTerminator, TrimStart;
    assert line[|name|] == colon;
    ColonAt(line, 0, |name|);
    assert line[..|name|] == name && line[|name| + 1..] == gap + value;
    TrimStartSkips(gap, value);
    ValueStarts(value);
  }

  lemma ValueStarts(value: string)
    requires value != [] ==> !IsSpace(value[0])
    ensures TrimStart(value) == value
  {}

  /** A line without a colon carries no field on it. */
  lemma {:induction false} NoColonNoField(s: string, i: nat)
    requires i <= |s| && forall k | i <= k < |s| :: !IsColon(s[k])
    ensures ColonIndex(s, i) == None && (i == 0 ==> MatchField(s) == None)
    decreases |s| - i
  {
    if i < |s| { NoColonNoField(s, i + 1); }
  }

  // ---------------------------------------------------------------- the line loop

  /** The local variables of `parseSongText`; an empty field is one not set yet. */
  datatype State = State(
    title: string, artist: string, album: string, year: string, language: string, tags: string,
    started: bool, lyrics: seq<string>)

  const START := State([], [], [], [], [], [], false, [])

  function First(old_: string, value: string): string {
    if old_ == [] then value else old_
  }

  function SetField(st: State, field: Field, value: string): State {
    match field
    case TITLE => st.(title := First(st.title, value))
    case ARTIST => st.(artist := First(st.artist, value))
    case ALBUM => st.(album := First(st.album, value))
    case YEAR => st.(year := First(st.year, value))
    case LANGUAGE => st.(language := First(st.language, value))
    case TAGS => st.(tags := First(st.tags, value))
    case LYRICS => st.(started := true, lyrics := st.lyrics + (if value != [] then [value] else []))
  }

  /** One turn of the loop. */
  function TakeLine(fold: string -> string, st: State, raw: string): State {
    var line := Trim(raw);
    if st.started then st.(lyrics := st.lyrics + [raw])
    else if Classify(fold, StripColon(line)) == Some(LYRICS) then st.(started := true)
    else
      var field := match MatchField(line) case None => None case Some((name, _)) => Classify(fold, name);
      if field.Some? then SetField(st, field.value, NormalizeWhitespace(MatchField(line).value.1))
      else if line != [] then st.(started := true, lyrics := st.lyrics + [raw])
      else st
  }

  function TakeLines(fold: string -> string, st: State, lines: seq<string>): State
    decreases |lines|
  {
    if lines == [] then st else TakeLines(fold, TakeLine(fold, st, lines[0]), lines[1..])
  }

  lemma {:induction false} StartedTakesAll(fold: string -> string, st: State, lines: seq<string>)
    requires st.started
    ensures TakeLines(fold, st, lines) == st.(lyrics := st.lyrics + lines)
    decreases |lines|
  {
    if lines == [] {
      assert st.lyrics + lines == st.lyrics;
    } else {
      StartedTakesAll(fold, TakeLine(fold, st, lines[0]), lines[1..]);
      HeadTail(lines);
      Assoc(st.lyrics, [lines[0]], lines[1..]);
    }
  }

  // ---------------------------------------------------------------- what the lines say

  /** What a raw line is before the lyrics have begun. */
  datatype LineKind = BLANK | LABELLED(field: Field, value: string) | OPENS(inline: string) | LYRIC

  function KindOf(fold: string -> string, raw: string): LineKind {
    var line := Trim(raw);
    var field := match MatchField(line) case None => None case Some((name, _)) => Classify(fold, name);
    if Classify(fold, StripColon(line)) == Some(LYRICS) then OPENS([])
    else if field == Some(LYRICS) then OPENS(NormalizeWhitespace(MatchField(line).value.1))
    else if field.Some? then LABELLED(field.value, NormalizeWhitespace(MatchField(line).value.1))
    else if line == [] then BLANK
    else LYRIC
  }

  predicate IsHeader(kind: LineKind) { kind.BLANK? || kind.LABELLED? }

  /** The first non-empty value under label `f` before the lyrics begin. */
  function FirstValue(fold: string -> string, lines: seq<string>, f: Field): string {
    if lines == [] then []
    else match KindOf(fold, lines[0])
      case BLANK => FirstValue(fold, lines[1..], f)
      case LABELLED(g, v) => if g == f && v != [] then v else FirstValue(fold, lines[1..], f)
      case _ => []
  }

  /** The lyric lines: an inline value first, or the line that is no header, and then all that follows. */
  function LyricsFrom(fold: string -> string, lines: seq<string>): seq<string> {
    if lines == [] then []
    else match KindOf(fold, lines[0])
      case OPENS(v) => (if v != [] then [v] else []) + lines[1..]
      case LYRIC => lines
      case _ => LyricsFrom(fold, lines[1..])
  }

  function FieldOf(st: State, f: Field): string {
    match f
    case TITLE => st.title case ARTIST => st.artist case ALBUM => st.album case YEAR => st.year
    case LANGUAGE => st.language case TAGS => st.tags case LYRICS => []
  }

  /** One header line changes at most its own field, and only when that is still empty. */
  lemma HeaderTurn(fold: string -> string, st: State, raw: string)
    requires !st.started
    ensures var after, kind := TakeLine(fold, st, raw), KindOf(fold, raw);
      && (IsHeader(kind) ==> !after.started && after.lyrics == st.lyrics)
      && (IsHeader(kind) ==> forall f: Field | f != LYRICS ::
            FieldOf(after, f) == if kind.LABELLED? && kind.field == f && FieldOf(st, f) == [] then kind.value else FieldOf(st, f))
      && (!IsHeader(kind) ==> after.started && forall f: Field :: FieldOf(after, f) == FieldOf(st, f))
      && (kind.OPENS? ==> after.lyrics == st.lyrics + (if kind.inline != [] then [kind.inline] else []))
      && (kind.LYRIC? ==> after.lyrics == st.lyrics + [raw])
  {
    hide Classify, StripColon, MatchField, NormalizeWhitespace, Trim;
  }

  /** The loop sets each field to the first non-empty value under its label, and collects the lyrics. */
  lemma {:induction false} LoopReads(fold: string -> string, st: State, lines: seq<string>)
    requires !st.started
    ensures var after := TakeLines(fold, st, lines);
      && (forall f: Field | f != LYRICS ::
            FieldOf(after, f) == if FieldOf(st, f) != [] then FieldOf(st, f) else FirstValue(fold, lines, f))
      && after.lyrics == st.lyrics + LyricsFrom(fold, lines)
    decreases |lines|
  {
    if lines == [] {
      assert st.lyrics + [] == st.lyrics;
    } else {
      HeaderTurn(fold, st, lines[0]);
      var next := TakeLine(fold, st, lines[0]);
      hide TakeLine, KindOf;
      if IsHeader(KindOf(fold, lines[0])) {
        LoopReads(fold, next, lines[1..]);
      } else {
        StartedTakesAll(fold, next, lines[1..]);
        HeadTail(lines);
        Assoc(st.lyrics, [lines[0]], lines[1..]);
        var v := if KindOf(fold, lines[0]).OPENS? && KindOf(fold, lines[0]).inline != [] then [KindOf(fold, lines[0]).inline] else [];
        Assoc(st.lyrics, v, lines[1..]);
      }
    }
  }

  /** `FirstValue`, said by position. */
  lemma {:induction false} FirstValueAt(fold: string -> string, lines: seq<string>, f: Field, i: nat)
    requires i < |lines| && forall j | 0 <= j <= i :: IsHeader(KindOf(fold, lines[j]))
    requires KindOf(fold, lines[i]).LABELLED? && KindOf(fold, lines[i]).field == f && KindOf(fold, lines[i]).value != []
    requires forall j | 0 <= j < i && KindOf(fold, lines[j]).LABELLED? && KindOf(fold, lines[j]).field == f ::
               KindOf(fold, lines[j]).value == []
    ensures FirstValue(fold, lines, f) == KindOf(fold, lines[i]).value
    decreases i
  {
    hide KindOf;
    if i > 0 {
      assert forall j | 0 <= j < |lines| - 1 :: lines[1..][j] == lines[j + 1];
      FirstValueAt(fold, lines[1..], f, i - 1);
    }
  }

  lemma {:induction false} NoValue(fold: string -> string, lines: seq<string>, f: Field, k: nat)
    requires k <= |lines| && forall j | 0 <= j < k :: IsHeader(KindOf(fold, lines[j]))
    requires k == |lines| || !IsHeader(KindOf(fold, lines[k]))
    requires forall j | 0 <= j < k && KindOf(fold, lines[j]).LABELLED? && KindOf(fold, lines[j]).field == f ::
               KindOf(fold, lines[j]).value == []
    ensures FirstValue(fold, lines, f) == []
    decreases k
  {
    hide KindOf;
    if k > 0 {
      assert forall j | 0 <= j < |lines| - 1 :: lines[1..][j] == lines[j + 1];
      NoValue(fold, lines[1..], f, k - 1);
    }
  }

  /** `LyricsFrom`, said by position: `k` header lines, and then the lyrics. */
  lemma {:induction false} LyricsAt(fold: string -> string, lines: seq<string>, k: nat)
    requires k <= |lines| && forall j | 0 <= j < k :: IsHeader(KindOf(fold, lines[j]))
    requires k == |lines| || !IsHeader(KindOf(fold, lines[k]))
    ensures k == |lines| ==> LyricsFrom(fold, lines) == []
    ensures k < |lines| && KindOf(fold, lines[k]).LYRIC? ==> LyricsFrom(fold, lines) == lines[k..]
    ensures k < |lines| && KindOf(fold, lines[k]).OPENS? ==>
              var v := KindOf(fold, lines[k]).inline; LyricsFrom(fold, lines) == (if v != [] then [v] else []) + lines[k + 1..]
    decreases k
  {
    hide KindOf;
    if k > 0 {
      assert forall j | 0 <= j < |lines| - 1 :: lines[1..][j] == lines[j + 1];
      LyricsAt(fold, lines[1..], k - 1);
      if k < |lines| { assert lines[1..][k - 1..] == lines[k..] && lines[1..][k..] == lines[k + 1..]; }
    }
  }

  /** The first line that is not blank carries no label. */
  predicate Unlabelled(fold: string -> string, lines: seq<string>) {
    exists i :: 0 <= i < |lines| && KindOf(fold, lines[i]).LYRIC? && forall j | 0 <= j < i :: KindOf(fold, lines[j]).BLANK?
  }

  /** The fields of `ParsedSongTextResult`, the empty string standing for `undefined`. */
  datatype Song = Song(title: string, artist: string, album: string, year: string, language: string, tags: string, lyrics: string)

  /** `title || fallbackTitle || "Sans titre"`, where `fallback` is the file name without its extension. */
  function TitleOr(title: string, fallback: string): string {
    if title != [] then title else if fallback != [] then fallback else "Sans titre"
  }

  function Finish(st: State, fallback: string): Song {
    Song(NormalizeWhitespace(TitleOr(st.title, fallback)), NormalizeWhitespace(st.artist), NormalizeWhitespace(st.album),
         NormalizeYear(st.year), NormalizeWhitespace(st.language), NormalizeWhitespace(st.tags),
         NormalizeMultiline(Join(st.lyrics)))
  }

  /** The variables after the loop. */
  function Heard(fold: string -> string, raw: string): State {
    TakeLines(fold, START, Split(UnifyBreaks(raw)))
  }

  function Parsed(fold: string -> string, raw: string, fallback: string): Song {
    Finish(Heard(fold, raw), fallback)
  }

  datatype Warning = TITLE_FROM_FILE | YEAR_IGNORED(year: string) | NO_LYRICS

  function Warnings(st: State, fallback: string): seq<Warning> {
    (if st.title == [] && fallback != [] then [TITLE_FROM_FILE] else [])
    + (if st.year != [] && NormalizeYear(st.year) == [] then [YEAR_IGNORED(st.year)] else [])
    + (if NormalizeMultiline(Join(st.lyrics)) == [] then [NO_LYRICS] else [])
  }

  // ---------------------------------------------------------------- what the song holds

  lemma {:induction false} LyricsArePlain(fold: string -> string, lines: seq<string>)
    requires AllPlain(lines)
    ensures AllPlain(LyricsFrom(fold, lines))
    decreases |lines|
  {
    hide Plain, NormalizeWhitespace, MatchField, Classify, StripColon;
    if lines != [] {
      LyricsArePlain(fold, lines[1..]);
      if KindOf(fold, lines[0]).OPENS? { InlineIsPlain(MatchField(Trim(lines[0]))); }
      EmptyIsPlain();
    }
  }

  lemma EmptyIsPlain()
    ensures Plain([])
  {}

  lemma InlineIsPlain(m: Option<(string, string)>)
    ensures m.Some? ==> Plain(NormalizeWhitespace(m.value.1))
  {
    if m.Some? {
      NormalizeWhitespaceFixpoint(m.value.1);
      SingleSpacedHasNoBreak(NormalizeWhitespace(m.value.1));
    }
    hide NormalizeWhitespace;
  }

  lemma SingleSpacedHasNoBreak(s: string)
    requires SingleSpaced(s)
    ensures Plain(s)
  {}

  /** Normalising joined lines keeps what they say. */
  lemma JoinedSays(lines: seq<string>)
    requires AllPlain(lines)
    ensures Content(NormalizeMultiline(Join(lines))) == Kept(Trim, lines)
  {
    hide Trim, NormalizeMultiline, UnifyBreaks, Kept, Plain;
    var s := Join(lines);
    NormalizeKeepsContent(s);
    JoinPlain(lines);
    UnifyBreaksClean(s);
    if lines == [] {
      assert Split(s) == [[]];
      KeptOne([]);
      assert Kept(Trim, []) == [] by { KeptNone(); }
    } else {
      assert forall i | 0 <= i < |lines| :: HasNoBreak(lines[i]) by { NoBreaks(lines); }
      SplitJoin(lines);
    }
  }

  lemma NoBreaks(lines: seq<string>)
    requires AllPlain(lines)
    ensures forall i | 0 <= i < |lines| :: HasNoBreak(lines[i])
  {}

  function RawLines(raw: string): seq<string> { Split(UnifyBreaks(raw)) }

  lemma RawLinesArePlain(raw: string)
    ensures AllPlain(RawLines(raw))
  {
    hide UnifyBreaks;
    var s := UnifyBreaks(raw);
    UnifyBreaksClean(raw);
    forall i | 0 <= i < |Split(s)| ensures Plain(Split(s)[i]) { ReturnFree(s, i); }
  }

  /** Each field is the first non-empty value under its label, and the lyrics read as the lines from where they
      begin. */
  lemma SongReads(fold: string -> string, raw: string, fallback: string)
    ensures var song, lines := Parsed(fold, raw, fallback), RawLines(raw);
      var title := FirstValue(fold, lines, TITLE);
      && song.title == NormalizeWhitespace(if title != [] then title else if fallback != [] then fallback else "Sans titre")
      && song.artist == NormalizeWhitespace(FirstValue(fold, lines, ARTIST))
      && song.album == NormalizeWhitespace(FirstValue(fold, lines, ALBUM))
      && song.year == NormalizeYear(FirstValue(fold, lines, YEAR))
      && song.language == NormalizeWhitespace(FirstValue(fold, lines, LANGUAGE))
      && song.tags == NormalizeWhitespace(FirstValue(fold, lines, TAGS))
      && Content(song.lyrics) == Kept(Trim, LyricsFrom(fold, lines))
  {
    hide TakeLines, FirstValue, LyricsFrom, NormalizeWhitespace, NormalizeYear, NormalizeMultiline, Join, Split, UnifyBreaks,
         Content, Kept;
    var lines := RawLines(raw);
    LoopReads(fold, START, lines);
    RawLinesArePlain(raw);
    LyricsArePlain(fold, lines);
    JoinedSays(LyricsFrom(fold, lines));
    assert [] + LyricsFrom(fold, lines) == LyricsFrom(fold, lines);
    var st := TakeLines(fold, START, lines);
    assert FieldOf(st, TITLE) == FirstValue(fold, lines, TITLE) && FieldOf(st, ARTIST) == FirstValue(fold, lines, ARTIST);
    assert FieldOf(st, ALBUM) == FirstValue(fold, lines, ALBUM) && FieldOf(st, YEAR) == FirstValue(fold, lines, YEAR);
    assert FieldOf(st, LANGUAGE) == FirstValue(fold, lines, LANGUAGE) && FieldOf(st, TAGS) == FirstValue(fold, lines, TAGS);
  }

  lemma {:induction false} BlankLinesSayNothing(lines: seq<string>, k: nat)
    requires k <= |lines| && forall j | 0 <= j < k :: Trim(lines[j]) == []
    ensures Kept(Trim, lines[k..]) == Kept(Trim, lines)
    decreases k
  {
    hide Trim;
    if k > 0 {
      assert forall j | 0 <= j < |lines| - 1 :: lines[1..][j] == lines[j + 1];
      BlankLinesSayNothing(lines[1..], k - 1);
      assert lines[1..][k - 1..] == lines[k..];
      TrimEmpty(lines[0]);
      assert [] + Kept(Trim, lines[1..]) == Kept(Trim, lines[1..]);
    } else {
      assert lines[0..] == lines;
    }
  }

  /** Blank lines, and then a line without a label. */
  predicate BlankThenLyric(fold: string -> string, lines: seq<string>, k: nat) {
    && k < |lines| && KindOf(fold, lines[k]).LYRIC?
    && forall j | 0 <= j < k :: IsHeader(KindOf(fold, lines[j])) && Trim(lines[j]) == []
  }

  lemma FirstLyric(fold: string -> string, lines: seq<string>) returns (k: nat)
    requires Unlabelled(fold, lines)
    ensures BlankThenLyric(fold, lines, k)
  {
    k :| 0 <= k < |lines| && KindOf(fold, lines[k]).LYRIC? && forall j | 0 <= j < k :: KindOf(fold, lines[j]).BLANK?;
    forall j | 0 <= j < k ensures IsHeader(KindOf(fold, lines[j])) && Trim(lines[j]) == [] {
      assert KindOf(fold, lines[j]).BLANK?;
      BlankSays(fold, lines[j]);
      hide KindOf, Trim;
    }
  }

  lemma BlankSays(fold: string -> string, raw: string)
    requires KindOf(fold, raw).BLANK?
    ensures Trim(raw) == []
  {
    hide Trim, Classify, MatchField, StripColon, NormalizeWhitespace;
  }

  /** Text that begins without a label is lyrics from its first line on. */
  lemma UnlabelledTextIsLyrics(fold: string -> string, raw: string, fallback: string)
    requires Unlabelled(fold, RawLines(raw))
    ensures Content(Parsed(fold, raw, fallback).lyrics) == Content(UnifyBreaks(raw))
  {
    hide KindOf, Trim, Parsed, Kept, UnifyBreaks, Split, LyricsFrom, NormalizeWhitespace, NormalizeYear, FirstValue, Unlabelled;
    SongReads(fold, raw, fallback);
    var lines := RawLines(raw);
    var k := FirstLyric(fold, lines);
    LyricsAt(fold, lines, k);
    BlankLinesSayNothing(lines, k);
  }

  /** The line loop of `parseSongText`. */
  method ReadLines(fold: string -> string, raw: string) returns (st: State)
    ensures st == Heard(fold, raw)
  {
    var rawLines := Split(UnifyBreaks(raw));
    st := START;
    assert rawLines[0..] == rawLines;
    for i := 0 to |rawLines|
      invariant TakeLines(fold, START, rawLines) == TakeLines(fold, st, rawLines[i..])
    {
      hide TakeLine;
      assert rawLines[i..][1..] == rawLines[i + 1..];
      st := TakeLine(fold, st, rawLines[i]);
    }
  }

  /** The end of `parseSongText`: the result object and its warnings. */
  method FinishSong(st: State, fallback: string) returns (song: Song, warnings: seq<Warning>)
    ensures song == Finish(st, fallback) && warnings == Warnings(st, fallback)
  {
    hide NormalizeWhitespace, NormalizeYear, NormalizeMultiline, Join, TitleOr;
    song := Finish(st, fallback);
    warnings := if st.title == [] && fallback != [] then [TITLE_FROM_FILE] else [];
    if st.year != [] && song.year == [] { warnings := warnings + [YEAR_IGNORED(st.year)]; }
    if song.lyrics == [] { warnings := warnings + [NO_LYRICS]; }
  }

  /** Each warning is given exactly when its reason holds. */
  lemma WarningsSay(fold: string -> string, raw: string, fallback: string)
    ensures var song, warnings := Parsed(fold, raw, fallback), Warnings(Heard(fold, raw), fallback);
      && (TITLE_FROM_FILE in warnings <==> FirstValue(fold, RawLines(raw), TITLE) == [] && fallback != [])
      && (forall y :: YEAR_IGNORED(y) in warnings <==> y == FirstValue(fold, RawLines(raw), YEAR) && y != [] && song.year == [])
      && (NO_LYRICS in warnings <==> song.lyrics == [])
  {
    hide TakeLines, FirstValue, LyricsFrom, NormalizeWhitespace, NormalizeYear, NormalizeMultiline, Join, Split, UnifyBreaks, TitleOr;
    LoopReads(fold, START, RawLines(raw));
    var st := TakeLines(fold, START, RawLines(raw));
    assert FieldOf(st, TITLE) == FirstValue(fold, RawLines(raw), TITLE) && FieldOf(st, YEAR) == FirstValue(fold, RawLines(raw), YEAR);
  }

  lemma HeardIsParsed(fold: string -> string, raw: string, fallback: string)
    ensures Parsed(fold, raw, fallback) == Finish(Heard(fold, raw), fallback)
  {}

  /** `parseSongText`. Each field is the first non-empty value under its label and the lyrics read as the
      lines from where they begin; the blocks are those of the lyrics: numbered, cut as `Answers` states, and
      saying what the lyrics say exactly when no heading is read as a lyric line. */
  method ParseSongText(fold: string -> string, raw: string, fallback: string)
    returns (song: Song, blocks: seq<Block>, warnings: seq<Warning>)
    ensures song == Parsed(fold, raw, fallback) && warnings == Warnings(Heard(fold, raw), fallback)
    ensures var title := FirstValue(fold, RawLines(raw), TITLE);
      song.title == NormalizeWhitespace(if title != [] then title else if fallback != [] then fallback else "Sans titre")
    ensures song.artist == NormalizeWhitespace(FirstValue(fold, RawLines(raw), ARTIST))
    ensures song.album == NormalizeWhitespace(FirstValue(fold, RawLines(raw), ALBUM))
    ensures song.year == NormalizeYear(FirstValue(fold, RawLines(raw), YEAR))
    ensures song.language == NormalizeWhitespace(FirstValue(fold, RawLines(raw), LANGUAGE))
    ensures song.tags == NormalizeWhitespace(FirstValue(fold, RawLines(raw), TAGS))
    ensures Content(song.lyrics) == Kept(Trim, LyricsFrom(fold, RawLines(raw)))
    ensures Unlabelled(fold, RawLines(raw)) ==> Content(song.lyrics) == Content(UnifyBreaks(raw))
    ensures TITLE_FROM_FILE in warnings <==> FirstValue(fold, RawLines(raw), TITLE) == [] && fallback != []
    ensures forall y :: YEAR_IGNORED(y) in warnings <==> y == FirstValue(fold, RawLines(raw), YEAR) && y != [] && song.year == []
    ensures NO_LYRICS in warnings <==> song.lyrics == []
    ensures blocks != [] && Numbered(blocks) && Answers(Canon(fold), song.lyrics, blocks)
    ensures Conserves(Canon(fold), song.lyrics, blocks) <==> !HeadingsOnly(song.lyrics) || OneLineParagraphs(song.lyrics)
  {
    hide *;
    var st := ReadLines(fold, raw);
    song, warnings := FinishSong(st, fallback);
    HeardIsParsed(fold, raw, fallback);
    SongReads(fold, raw, fallback);
    WarningsSay(fold, raw, fallback);
    if Unlabelled(fold, RawLines(raw)) { UnlabelledTextIsLyrics(fold, raw, fallback); }
    CanonicalIsLineLike(fold);
    blocks := ParseLyricsToBlocks(Canon(fold), song.lyrics);
  }
}
