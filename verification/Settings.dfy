/** settings.json and the queue of patches to it (readSettingsConfig, writeSettingsConfig, patchSettingsConfig
    in settings.ts). */
module Settings {
  import opened Options
  import opened Seqs
  import opened Json
  import opened Sanitizers
  import opened ProfileList
  import opened SettingsShape

  datatype Name = APP | FILES | PROJECTION | SHORTCUTS | TEMPLATES | PROFILES

  /** A `SettingsConfig`: the version and the sections that are present. */
  datatype Config = Config(version: int, sections: map<Name, Json>)

  /** The file as `JSON.parse` sees it: missing, unreadable or not JSON, some value other than an object, or
      an object. Fields that are no section do not survive a rewrite and are not modelled. */
  datatype File = Absent | Garbled | Other(j: Json) | Holds(version: Option<Json>, sections: map<Name, Json>)

  const SETTINGS_VERSION: int := 1

  // ---------------------------------------------------------------- reading and writing

  function Sanitise(name: Name, j: Json, clock: Clock): Option<Json> {
    match name
    case APP => App(j)
    case FILES => Files(j)
    case PROJECTION => Projection(j)
    case SHORTCUTS => Shortcuts(j)
    case TEMPLATES => Templates(j)
    case PROFILES => Profiles(j, clock)
  }

  function Version(j: Option<Json>): int {
    if j.Some? && j.value.Num? then (if Trunc(j.value.n) > 1 then Trunc(j.value.n) else 1) else SETTINGS_VERSION
  }

  function Sections(raw: map<Name, Json>, clock: Clock): map<Name, Json> {
    map n | n in raw && Sanitise(n, raw[n], clock).Some? :: Sanitise(n, raw[n], clock).value
  }

  /** `readSettingsConfig` */
  function Read(file: File, clock: Clock): Config {
    if file.Holds? then Config(Version(file.version), Sections(file.sections, clock))
    else Config(SETTINGS_VERSION, map[])
  }

  function Stored(sections: map<Name, Json>): map<Name, Json> {
    map n | n in sections :: Stringify(sections[n])
  }

  /** `writeSettingsConfig`: the version is always the current one. */
  function Write(cfg: Config): File {
    Holds(Some(Num(SETTINGS_VERSION as real)), Stored(cfg.sections))
  }

  // ---------------------------------------------------------------- what a section goes through

  /** Every section reads back as it was read, whatever the time of the second reading. */
  lemma SanitisedSectionIsFixed(name: Name, j: Json, clock: Clock, later: Clock)
    requires Sanitise(name, j, clock).Some?
    ensures Sanitise(name, Sanitise(name, j, clock).value, later) == Sanitise(name, j, clock)
    ensures Stringify(Sanitise(name, j, clock).value) == Sanitise(name, j, clock).value
  {
    AppAndFilesSettle();
    ProjectionSettles();
    ShortcutsSettle();
    TemplatesSettle();
    if name.PROFILES? { ProfilesAreFixed(j, clock, later); }
    hide App, Files, Projection, Shortcuts, Templates, Profiles, Clean, Stringify;
    StringifyOfClean(Sanitise(name, j, clock).value);
  }

  /** The values that are valid for a section, field by field. */
  predicate WellFormed(name: Name, v: Json) {
    match name
    case APP => AppOk(v)
    case FILES => FilesOk(v)
    case PROJECTION => ProjectionOk(v)
    case SHORTCUTS => ShortcutsOk(v)
    case TEMPLATES => TemplatesOk(v)
    case PROFILES => ProfilesOk(v)
  }

  /** The sanitisers leave alone exactly the valid values. */
  lemma FixedExactlyWhenWellFormed(name: Name, v: Json, clock: Clock)
    ensures Sanitise(name, v, clock) == Some(v) <==> WellFormed(name, v)
  {
    AppRead(v);
    FilesRead(v);
    ProjectionRead(v);
    ShortcutsRead(v);
    var at := TemplatesRead(v);
    ProfilesRead(v, clock);
    hide App, Files, Projection, Shortcuts, Templates, Profiles, AppOk, FilesOk, ProjectionOk, ShortcutsOk, TemplatesOk,
         ProfilesOk, HasScreen, ScreensOf, Picked;
  }

  /** Whatever is read back is valid. */
  lemma SanitisedIsWellFormed(name: Name, j: Json, clock: Clock)
    requires Sanitise(name, j, clock).Some?
    ensures WellFormed(name, Sanitise(name, j, clock).value)
  {
    hide Sanitise, WellFormed;
    SanitisedSectionIsFixed(name, j, clock, clock);
    FixedExactlyWhenWellFormed(name, Sanitise(name, j, clock).value, clock);
  }

  /** The version read is a whole number from 1 up, and the one in the file if that is one. */
  lemma VersionIs(j: Option<Json>, n: int)
    ensures Version(j) >= 1
    ensures n >= 1 && j == Some(Num(n as real)) ==> Version(j) == n
    ensures (j == None || !j.value.Num?) ==> Version(j) == 1
  {
    if j.Some? && j.value.Num? { TruncIs(j.value.n); }
  }

  /** A configuration that was read and written back unchanged reads the same ever after. */
  lemma RewriteKeepsConfig(file: File, clock: Clock, later: Clock)
    ensures Read(Write(Read(file, clock)), later) == Config(SETTINGS_VERSION, Read(file, clock).sections)
  {
    hide Sanitise, Stringify;
    var cfg := Read(file, clock);
    forall n | n in cfg.sections
      ensures Stringify(cfg.sections[n]) == cfg.sections[n] && Sanitise(n, cfg.sections[n], later) == Some(cfg.sections[n])
    {
      assert file.Holds? && cfg.sections[n] == Sanitise(n, file.sections[n], clock).value;
      SanitisedSectionIsFixed(n, file.sections[n], clock, later);
    }
    assert Stored(cfg.sections) == cfg.sections;
    assert Sections(cfg.sections, later) == cfg.sections;
    TruncOfInt(1);
  }

  // ---------------------------------------------------------------- patches

  /** What a patcher does to the configuration it is given; None when it throws. */
  type Patch = Config -> Option<Config>

  /** `(s) => ({ ...s, name: value })` */
  function SetSection(name: Name, value: Json): Patch {
    (cfg: Config) => Some(cfg.(sections := cfg.sections[name := value]))
  }

  /** How a patch of the queue ended. A write that breaks off midway leaves a file that is no JSON. */
  datatype Outcome = DONE | FAILED | TORN

  /** A finished patch: what it does, the clock at its read and its end. */
  datatype Entry = Entry(patch: Patch, clock: Clock, outcome: Outcome)

  function Effect(file: File, e: Entry): File {
    match e.outcome
    case FAILED => file
    case TORN => Garbled
    case DONE =>
      match e.patch(Read(file, e.clock))
      case Some(cfg) => Write(cfg)
      case None => file
  }

  /** The file after the patches of `log`, one after the other. */
  function Fold(file: File, log: seq<Entry>): File {
    if log == [] then file else Effect(Fold(file, log[..|log| - 1]), log[|log| - 1])
  }

  /** The patches that did what they were asked to do. */
  function Successful(log: seq<Entry>): seq<Entry> {
    if log == [] then []
    else if log[|log| - 1].outcome.DONE? then Successful(log[..|log| - 1]) + [log[|log| - 1]]
    else Successful(log[..|log| - 1])
  }

  predicate Intact(log: seq<Entry>) {
    forall i | 0 <= i < |log| :: !log[i].outcome.TORN?
  }

  /** A failed patch leaves nothing behind: the others have the same effect without it. */
  lemma {:induction false} FailedPatchesDoNothing(file: File, log: seq<Entry>)
    requires Intact(log)
    ensures Fold(file, Successful(log)) == Fold(file, log)
  {
    if log != [] {
      var before, last := log[..|log| - 1], log[|log| - 1];
      assert Intact(before) && !last.outcome.TORN?;
      FailedPatchesDoNothing(file, before);
      InitOfAppend(Successful(before), [last]);
      assert Successful(before) + [last][..0] == Successful(before);
    }
  }

  /** The patches after the last write that broke off. */
  function SinceTorn(log: seq<Entry>): seq<Entry> {
    if log == [] then []
    else if log[|log| - 1].outcome.TORN? then []
    else SinceTorn(log[..|log| - 1]) + [log[|log| - 1]]
  }

  /** The file that those patches start from. */
  function Base(file: File, log: seq<Entry>): File {
    if Intact(log) then file else Garbled
  }

  /** The general case: a torn write takes every earlier patch with it, and the fold starts again from a file
      that is no JSON. */
  lemma {:induction false} TornWriteRestarts(file: File, log: seq<Entry>)
    ensures Fold(file, log) == Fold(Base(file, log), Successful(SinceTorn(log)))
    ensures Intact(SinceTorn(log)) && (Intact(log) ==> SinceTorn(log) == log)
  {
    FoldSinceTorn(file, log);
    FailedPatchesDoNothing(Base(file, log), SinceTorn(log));
  }

  lemma {:induction false} FoldSinceTorn(file: File, log: seq<Entry>)
    ensures Fold(file, log) == Fold(Base(file, log), SinceTorn(log))
    ensures Intact(SinceTorn(log)) && (Intact(log) ==> SinceTorn(log) == log)
  {
    if log != [] {
      var before, last := log[..|log| - 1], log[|log| - 1];
      FoldSinceTorn(file, before);
      InitLast(log);
      IntactSnoc(before, last);
      hide Intact, Effect;
      if !last.outcome.TORN? {
        IntactSnoc(SinceTorn(before), last);
        InitOfAppend(SinceTorn(before), [last]);
        assert SinceTorn(before) + [last][..0] == SinceTorn(before);
      } else {
        TornGarbles(Fold(file, before), last);
        NothingIsIntact();
      }
    }
  }

  lemma IntactSnoc(log: seq<Entry>, e: Entry)
    ensures Intact(log + [e]) <==> Intact(log) && !e.outcome.TORN?
  {
    var all := log + [e];
    assert all[|log|] == e && forall i | 0 <= i < |log| :: all[i] == log[i];
  }

  lemma NothingIsIntact()
    ensures Intact([])
  {}

  lemma TornGarbles(file: File, e: Entry)
    requires e.outcome.TORN?
    ensures Effect(file, e) == Garbled
  {}

  /** After a torn write every section is gone until somebody writes it anew. */
  lemma TornWriteLosesEverySection(file: File, log: seq<Entry>, e: Entry, clock: Clock)
    requires e.outcome.TORN?
    ensures Read(Fold(file, log + [e]), clock) == Config(SETTINGS_VERSION, map[])
  {
    InitOfAppend(log, [e]);
    assert log + [e][..0] == log;
  }

  /** The patch leaves section `name` as it finds it, as every writer of another section does. */
  ghost predicate Spares(patch: Patch, name: Name) {
    forall cfg: Config | patch(cfg).Some? ::
      && (name in patch(cfg).value.sections <==> name in cfg.sections)
      && (name in cfg.sections ==> patch(cfg).value.sections[name] == cfg.sections[name])
  }

  lemma OtherSectionsAreSpared(name: Name, other: Name, value: Json)
    requires other != name
    ensures Spares(SetSection(other, value), name)
  {}

  function Lookup(cfg: Config, name: Name): Option<Json> {
    if name in cfg.sections then Some(cfg.sections[name]) else None
  }

  ghost predicate Sparing(log: seq<Entry>, name: Name) {
    forall e | e in log :: !e.outcome.TORN? && Spares(e.patch, name)
  }

  /** The clock of the first patch that rewrote the file, or of the final reading when none has. */
  function FirstClock(file: File, log: seq<Entry>, final: Clock): Clock {
    if log == [] then final
    else if log[0].outcome.DONE? && log[0].patch(Read(file, log[0].clock)).Some? then log[0].clock
    else FirstClock(file, log[1..], final)
  }

  lemma {:induction false} FoldCons(file: File, e: Entry, log: seq<Entry>)
    ensures Fold(file, [e] + log) == Fold(Effect(file, e), log)
  {
    if log == [] {
      assert [e] + log == [e] && [e][..0] == [];
    } else {
      var k := |log| - 1;
      FoldCons(file, e, log[..k]);
      InitOfAppend([e], log);
    }
  }

  /** One more rewrite: the section that the patch spared reads as it did for the patch. */
  lemma SparedSectionReadsBack(file: File, e: Entry, name: Name, later: Clock)
    requires Spares(e.patch, name) && e.outcome.DONE? && e.patch(Read(file, e.clock)).Some?
    ensures Lookup(Read(Effect(file, e), later), name) == Lookup(Read(file, e.clock), name)
  {
    hide Sanitise, Stringify;
    var cfg, next := Read(file, e.clock), e.patch(Read(file, e.clock)).value;
    if name in cfg.sections {
      SanitisedSectionIsFixed(name, file.sections[name], e.clock, later);
    }
  }

  /** A section that no later patch touches keeps reading as it did the first time it was read. */
  lemma {:induction false} UntouchedSectionReadsBack(file: File, log: seq<Entry>, name: Name, final: Clock)
    requires Sparing(log, name)
    ensures Lookup(Read(Fold(file, log), final), name) == Lookup(Read(file, FirstClock(file, log, final)), name)
    decreases |log|
  {
    if log != [] {
      var e, rest := log[0], log[1..];
      HeadTail(log);
      FoldCons(file, e, rest);
      assert e in log;
      assert Sparing(rest, name) by { forall x | x in rest ensures !x.outcome.TORN? && Spares(x.patch, name) { assert x in log; } }
      hide Read, Effect, Spares;
      UntouchedSectionReadsBack(Effect(file, e), rest, name, final);
      EffectIsRewrite(file, e);
      if e.outcome.DONE? && e.patch(Read(file, e.clock)).Some? {
        SparedSectionReadsBack(file, e, name, FirstClock(Effect(file, e), rest, final));
      }
    }
  }

  lemma EffectIsRewrite(file: File, e: Entry)
    ensures !e.outcome.TORN? && !(e.outcome.DONE? && e.patch(Read(file, e.clock)).Some?) ==> Effect(file, e) == file
  {}

  /** What a section holds at the end is the last value written to it, sanitised: once, at its first reading. */
  lemma LastWriteReadsBack(file: File, name: Name, value: Json, clock: Clock, after: seq<Entry>, final: Clock)
    requires Sparing(after, name)
    ensures var write := Entry(SetSection(name, value), clock, DONE);
      var first := FirstClock(Effect(file, write), after, final);
      Lookup(Read(Fold(file, [write] + after), final), name) == Sanitise(name, Stringify(value), first)
  {
    var write := Entry(SetSection(name, value), clock, DONE);
    FoldCons(file, write, after);
    UntouchedSectionReadsBack(Effect(file, write), after, name, final);
    hide Sanitise, Stringify, Fold, FirstClock, Sparing;
  }

  /** A valid value reads back as exactly itself, through any later patches of other sections. */
  lemma ValidWriteReadsBack(file: File, name: Name, value: Json, clock: Clock, after: seq<Entry>, final: Clock)
    requires Sparing(after, name) && WellFormed(name, value)
    ensures Lookup(Read(Fold(file, [Entry(SetSection(name, value), clock, DONE)] + after), final), name) == Some(value)
  {
    hide Sanitise, WellFormed, Stringify, Fold, FirstClock, Sparing, Read, Lookup, Effect;
    var write := Entry(SetSection(name, value), clock, DONE);
    var first := FirstClock(Effect(file, write), after, final);
    FixedExactlyWhenWellFormed(name, value, first);
    SanitisedSectionIsFixed(name, value, first, first);
    LastWriteReadsBack(file, name, value, clock, after, final);
  }
}
