/** `canonicalLabel` and `classifyMetadataLabel` (songs-import.ts). */
module Labels {
  import opened Seqs
  import opened Text
  import opened Options
  import opened RepeatingChunk

  // ---------------------------------------------------------------- canonicalLabel

  function Lower(s: string): string {
    seq(|s|, i requires 0 <= i < |s| => LowerChar(s[i]))
  }

  /** Starts out in ASCII and ends in a blank, where nothing that follows can combine with it. */
  predicate AsciiThenBlank(p: string) {
    p != [] && p[|p| - 1] == ' ' && forall i | 0 <= i < |p| :: p[i] < '\U{0080}'
  }

  /** What is asked of `fold`, the composition of canonical decomposition, removal of combining marks and
      lower-casing: it leaves the empty text alone and lower-cases a leading ASCII part on its own. */
  ghost predicate FoldsAscii(fold: string -> string) {
    && fold([]) == []
    && forall p, rest | AsciiThenBlank(p) :: fold(p + rest) == Lower(p) + fold(rest)
  }

  predicate IsAlnum(c: char) {
    'a' <= c <= 'z' || '0' <= c <= '9'
  }

  function OtherRun(s: string): (k: nat)
    ensures k <= |s|
  {
    if s != [] && !IsAlnum(s[0]) then 1 + OtherRun(s[1..]) else 0
  }

  /** `.replace(/[^a-z0-9]+/g, " ")` */
  function Slug(s: string): string
    decreases |s|
  {
    if s == [] then []
    else if IsAlnum(s[0]) then [s[0]] + Slug(s[1..])
    else " " + Slug(s[OtherRun(s)..])
  }

  function CanonicalLabel(fold: string -> string, value: string): string {
    Trim(Slug(fold(value)))
  }

  lemma {:induction false} SlugHasNoBreak(s: string)
    ensures HasNoBreak(Slug(s))
    decreases |s|
  {
    if s != [] {
      if IsAlnum(s[0]) { SlugHasNoBreak(s[1..]); } else { SlugHasNoBreak(s[OtherRun(s)..]); }
    }
  }

  /** `normalizeLineForRepeatMatch` */
  function Canon(fold: string -> string): string -> string {
    v => CanonicalLabel(fold, v)
  }

  /** Canonical labels never contain a line break, so they can be joined by line breaks as map keys. */
  lemma CanonicalIsLineLike(fold: string -> string)
    ensures LineLike(Canon(fold))
  {
    forall v: string ensures HasNoBreak(CanonicalLabel(fold, v)) {
      var s := Slug(fold(v));
      SlugHasNoBreak(fold(v));
      var a, b := TrimParts(s);
      assert HasNoBreak(a + Trim(s) + b);
      SliceHasNoBreak(a, Trim(s), b);
    }
  }

  lemma SliceHasNoBreak(a: string, r: string, b: string)
    requires HasNoBreak(a + r + b)
    ensures HasNoBreak(r)
  {
    assert forall i | 0 <= i < |r| :: r[i] == (a + r + b)[|a| + i];
  }

  // ---------------------------------------------------------------- classifyMetadataLabel

  datatype Field = TITLE | ARTIST | ALBUM | YEAR | LANGUAGE | TAGS | LYRICS

  predicate Contains(s: string, part: string) {
    exists i :: 0 <= i <= |s| && part <= s[i..]
  }

  function ClassifyLabel(name: string): Option<Field> {
    if name == [] then None
    else if name == "title" || "titre" <= name || name == "nom" then Some(TITLE)
    else if name == "artist" || "auteur" <= name || Contains(name, "interprete") || Contains(name, "compositeur")
      then Some(ARTIST)
    else if "album" <= name then Some(ALBUM)
    else if name == "year" || Contains(name, "annee") || Contains(name, "published")
            || Contains(name, "release year") || Contains(name, "sortie") then Some(YEAR)
    else if name == "lang" || name == "language" || "langue" <= name then Some(LANGUAGE)
    else if "tag" <= name then Some(TAGS)
    else if name == "lyrics" || "paroles" <= name || name == "texte" then Some(LYRICS)
    else None
  }

  function Classify(fold: string -> string, raw: string): Option<Field> {
    ClassifyLabel(CanonicalLabel(fold, raw))
  }

  /** Lower-case words separated by single blanks. */
  predicate Words(s: string) {
    forall i | 0 <= i < |s| :: IsAlnum(s[i]) || (s[i] == ' ' && (i + 1 < |s| ==> IsAlnum(s[i + 1])))
  }

  lemma {:induction false} SlugOfWords(s: string)
    requires Words(s)
    ensures Slug(s) == s
  {
    if s != [] {
      assert Words(s[1..]) by {
        assert forall i | 0 <= i < |s[1..]| :: s[1..][i] == s[i + 1];
      }
      SlugOfWords(s[1..]);
      HeadTail(s);
      if !IsAlnum(s[0]) {
        assert OtherRun(s) == 1;
      }
    }
  }

  /** The canonical form of an ASCII label followed by a blank, given its lower-case words. */
  lemma AsciiLabel(fold: string -> string, raw: string, word: string)
    requires FoldsAscii(fold) && AsciiThenBlank(raw)
    requires Lower(raw) == word + " " && Words(word + " ") && Tight(word)
    ensures CanonicalLabel(fold, raw) == word
  {
    hide IsSpace, Slug, Words, IsAlnum, Trim, Lower, AsciiThenBlank;
    assert raw + [] == raw;
    assert Lower(raw) + [] == Lower(raw);
    SlugOfWords(word + " ");
    assert AllSpace(" ") by { BlankIsSpace(); }
    TrimIgnoresRight(word, " ");
    TrimOfTight(word);
  }

  lemma BlankIsSpace()
    ensures IsSpace(' ')
  {
  }

  lemma LettersAreTight(word: string)
    requires word == [] || (IsAlnum(word[0]) && IsAlnum(word[|word| - 1]))
    ensures Tight(word)
  {
  }

  lemma LabelTitre(fold: string -> string)
    requires FoldsAscii(fold)
    ensures Classify(fold, "Titre ") == Some(TITLE)
  {
    hide FoldsAscii, CanonicalLabel, IsSpace;
    assert Lower("Titre ") == "titre" + " ";
    LettersAreTight("titre");
    AsciiLabel(fold, "Titre ", "titre");
  }

  lemma LabelAuteur(fold: string -> string)
    requires FoldsAscii(fold)
    ensures Classify(fold, "Auteur ") == Some(ARTIST)
  {
    hide FoldsAscii, CanonicalLabel, IsSpace;
    assert Lower("Auteur ") == "auteur" + " ";
    LettersAreTight("auteur");
    AsciiLabel(fold, "Auteur ", "auteur");
  }

  lemma Absent(name: string, part: string)
    requires |part| > |name|
    ensures !Contains(name, part)
  {
  }

  lemma LabelAlbum(fold: string -> string)
    requires FoldsAscii(fold)
    ensures Classify(fold, "Album ") == Some(ALBUM)
  {
    hide FoldsAscii, CanonicalLabel, IsSpace, Contains;
    assert Lower("Album ") == "album" + " ";
    LettersAreTight("album");
    AsciiLabel(fold, "Album ", "album");
    Absent("album", "interprete");
    Absent("album", "compositeur");
  }

  lemma LabelParoles(fold: string -> string)
    requires FoldsAscii(fold)
    ensures Classify(fold, "Paroles ") == Some(LYRICS)
  {
    hide FoldsAscii, CanonicalLabel, IsSpace, Contains;
    assert Lower("Paroles ") == "paroles" + " ";
    LettersAreTight("paroles");
    AsciiLabel(fold, "Paroles ", "paroles");
    Absent("paroles", "interprete");
    Absent("paroles", "compositeur");
    Absent("paroles", "published");
    Absent("paroles", "release year");
    LetterMissing("paroles", "annee", 1);
    LetterMissing("paroles", "sortie", 3);
  }

  lemma ContainedLetter(name: string, part: string, k: nat)
    requires Contains(name, part) && k < |part|
    ensures part[k] in name
  {
    var i :| 0 <= i <= |name| && part <= name[i..];
    assert name[i..][k] == part[k] && name[i..][k] == name[i + k];
  }

  /** A letter of `part` that `name` lacks. */
  lemma LetterMissing(name: string, part: string, k: nat)
    requires k < |part| && part[k] !in name
    ensures !Contains(name, part)
  {
    if Contains(name, part) { ContainedLetter(name, part, k); }
  }

  predicate Adjacent(name: string, x: char, y: char) {
    exists i :: 0 <= i < |name| - 1 && name[i] == x && name[i + 1] == y
  }

  lemma ContainedPair(name: string, part: string)
    requires Contains(name, part) && |part| >= 2
    ensures Adjacent(name, part[0], part[1])
  {
    var i :| 0 <= i <= |name| && part <= name[i..];
    assert name[i..][0] == part[0] && name[i..][0] == name[i];
    assert name[i..][1] == part[1] && name[i..][1] == name[i + 1];
  }

  const PARUTION := "annee de parution"

  lemma ParutionHasNoInter()
    ensures !Contains(PARUTION, "interprete")
  {
    OnlyOneI();
    hide Contains;
    if Contains(PARUTION, "interprete") { ContainedPair(PARUTION, "interprete"); }
  }

  lemma OnlyOneI()
    ensures !Adjacent(PARUTION, 'i', 'n')
  {
    var head, tail := "annee de ", "parution";
    assert PARUTION == head + tail;
    assert 'i' !in head;
    assert !Adjacent(tail, 'i', 'n');
    if Adjacent(PARUTION, 'i', 'n') {
      var i :| 0 <= i < |PARUTION| - 1 && PARUTION[i] == 'i' && PARUTION[i + 1] == 'n';
      PairBeyond(head, tail, i);
    }
  }

  lemma PairBeyond(head: string, tail: string, i: nat)
    requires i + 1 < |head + tail| && (head + tail)[i] == 'i' && (head + tail)[i + 1] == 'n' && 'i' !in head
    ensures Adjacent(tail, 'i', 'n')
  {
    assert i >= |head|;
    assert tail[i - |head|] == 'i' && tail[i - |head| + 1] == 'n';
  }

  lemma ParutionWords()
    ensures Words(PARUTION + " ") && Tight(PARUTION)
  {
    LettersAreTight(PARUTION);
  }

  lemma ParutionLower()
    ensures Lower("Annee de parution ") == PARUTION + " "
  {
  }

  lemma LabelAnnee(fold: string -> string)
    requires FoldsAscii(fold)
    ensures Classify(fold, "Annee de parution ") == Some(YEAR)
  {
    hide FoldsAscii, CanonicalLabel, IsSpace, Words, Lower, ClassifyLabel;
    ParutionLower();
    ParutionWords();
    AsciiLabel(fold, "Annee de parution ", PARUTION);
    ParutionIsYear();
  }

  lemma ParutionIsYear()
    ensures ClassifyLabel(PARUTION) == Some(YEAR)
  {
    hide Contains, Adjacent;
    assert PARUTION[0] == 'a' && PARUTION[1] == 'n' && |PARUTION| == 17;
    assert "annee" <= PARUTION;
    ContainsPrefix(PARUTION, "annee");
    LetterMissing(PARUTION, "compositeur", 2);
    ParutionHasNoInter();
  }

  lemma ContainsPrefix(name: string, part: string)
    requires part <= name
    ensures Contains(name, part)
  {
    assert part <= name[0..];
  }
}
