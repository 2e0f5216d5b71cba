/** The labels that `classifyMetadataLabel` (songs-import.ts) knows, in their canonical form. */
module LabelTable {
  import opened Options
  import opened Labels

  /** The parts that are looked for anywhere in a label. */
  predicate HasNoPart(name: string) {
    && !Contains(name, "interprete") && !Contains(name, "compositeur")
    && !Contains(name, "annee") && !Contains(name, "published") && !Contains(name, "release year") && !Contains(name, "sortie")
  }

  lemma ShortLabel(name: string)
    requires |name| < 5
    ensures HasNoPart(name)
  {}

  lemma NoLongPart(name: string)
    requires |name| < 9
    ensures !Contains(name, "interprete") && !Contains(name, "compositeur")
         && !Contains(name, "published") && !Contains(name, "release year")
  {}

  /** A label of five to eight letters that lacks a letter of each short part. */
  lemma MediumLabel(name: string, j: nat, k: nat)
    requires |name| < 9 && j < 5 && k < 6
    requires "annee"[j] !in name && "sortie"[k] !in name
    ensures HasNoPart(name)
  {
    NoLongPart(name);
    LetterMissing(name, "annee", j);
    LetterMissing(name, "sortie", k);
  }

  /** The first two letters rule out most of the fixed words and prefixes. */
  lemma FirstTwo(name: string, x: char, y: char)
    requires |name| >= 2 && name[0] == x && name[1] == y
    ensures !(x == 't' && y == 'i') ==> name != "title" && !("titre" <= name)
    ensures !(x == 'n' && y == 'o') ==> name != "nom"
    ensures !(x == 'a' && y == 'r') ==> name != "artist"
    ensures !(x == 'a' && y == 'u') ==> !("auteur" <= name)
    ensures !(x == 'a' && y == 'l') ==> !("album" <= name)
    ensures !(x == 'y' && y == 'e') ==> name != "year"
    ensures !(x == 'l' && y == 'a') ==> name != "lang" && name != "language" && !("langue" <= name)
    ensures !(x == 't' && y == 'a') ==> !("tag" <= name)
  {}

  lemma Artists()
    ensures ClassifyLabel("artist") == ClassifyLabel("auteur") == Some(ARTIST)
  {
    FirstTwo("artist", 'a', 'r');
    FirstTwo("auteur", 'a', 'u');
    hide Contains;
  }

  lemma ContainedArtists()
    ensures ClassifyLabel("interprete") == ClassifyLabel("compositeur") == Some(ARTIST)
  {
    FirstTwo("interprete", 'i', 'n');
    FirstTwo("compositeur", 'c', 'o');
    ContainsPrefix("interprete", "interprete");
    ContainsPrefix("compositeur", "compositeur");
    hide Contains;
  }

  lemma Albums()
    ensures ClassifyLabel("album") == Some(ALBUM)
  {
    FirstTwo("album", 'a', 'l');
    NoLongPart("album");
    hide Contains;
  }

  lemma Years()
    ensures ClassifyLabel("year") == ClassifyLabel("annee") == ClassifyLabel("sortie") == Some(YEAR)
  {
    FirstTwo("year", 'y', 'e');
    FirstTwo("annee", 'a', 'n');
    FirstTwo("sortie", 's', 'o');
    ShortLabel("year");
    NoLongPart("annee");
    NoLongPart("sortie");
    ContainsPrefix("annee", "annee");
    ContainsPrefix("sortie", "sortie");
    hide Contains;
  }

  /** "annee" has two adjacent n's, which the labels of the language do not. */
  lemma NoDoubleN(name: string)
    requires Contains(name, "annee")
    ensures Adjacent(name, 'n', 'n')
  {
    var i :| 0 <= i <= |name| && "annee" <= name[i..];
    assert name[i..][1] == 'n' && name[i..][1] == name[i + 1];
    assert name[i..][2] == 'n' && name[i..][2] == name[i + 2];
  }

  lemma LanguageHasNoPart(name: string)
    requires |name| < 9 && !Adjacent(name, 'n', 'n') && 's' !in name
    ensures HasNoPart(name)
  {
    NoLongPart(name);
    LetterMissing(name, "sortie", 0);
    if Contains(name, "annee") { NoDoubleN(name); }
  }

  lemma Languages()
    ensures ClassifyLabel("lang") == ClassifyLabel("langue") == ClassifyLabel("language") == Some(LANGUAGE)
  {
    FirstTwo("lang", 'l', 'a');
    FirstTwo("langue", 'l', 'a');
    FirstTwo("language", 'l', 'a');
    ShortLabel("lang");
    LanguageHasNoPart("langue");
    LanguageHasNoPart("language");
    hide Contains, Adjacent;
  }

  lemma Tags()
    ensures ClassifyLabel("tag") == ClassifyLabel("tags") == Some(TAGS)
  {
    FirstTwo("tag", 't', 'a');
    FirstTwo("tags", 't', 'a');
    ShortLabel("tag");
    ShortLabel("tags");
    hide Contains;
  }

  lemma Lyrics()
    ensures ClassifyLabel("lyrics") == ClassifyLabel("paroles") == ClassifyLabel("texte") == Some(LYRICS)
  {
    FirstTwo("lyrics", 'l', 'y');
    FirstTwo("paroles", 'p', 'a');
    FirstTwo("texte", 't', 'e');
    MediumLabel("lyrics", 0, 1);
    MediumLabel("paroles", 1, 3);
    MediumLabel("texte", 0, 0);
    hide Contains;
  }

  lemma Titles()
    ensures ClassifyLabel("title") == ClassifyLabel("titre") == ClassifyLabel("nom") == Some(TITLE)
  {
    hide Contains;
  }

  /** The canonical labels of the metadata fields. */
  lemma KnownLabels()
    ensures ClassifyLabel("title") == ClassifyLabel("titre") == ClassifyLabel("nom") == Some(TITLE)
    ensures ClassifyLabel("artist") == ClassifyLabel("auteur") == ClassifyLabel("interprete") == ClassifyLabel("compositeur") == Some(ARTIST)
    ensures ClassifyLabel("album") == Some(ALBUM)
    ensures ClassifyLabel("year") == ClassifyLabel("annee") == ClassifyLabel("sortie") == Some(YEAR)
    ensures ClassifyLabel("lang") == ClassifyLabel("langue") == ClassifyLabel("language") == Some(LANGUAGE)
    ensures ClassifyLabel("tag") == ClassifyLabel("tags") == Some(TAGS)
    ensures ClassifyLabel("lyrics") == ClassifyLabel("paroles") == ClassifyLabel("texte") == Some(LYRICS)
  {
    hide *;
    Titles();
    Artists();
    ContainedArtists();
    Albums();
    Years();
    Languages();
    Tags();
    Lyrics();
  }
}
