/** The sanitisers between settings.json and the program (settings.ts): what they let through, and that they
    leave their own output alone. */
module Sanitizers {
  import opened Options
  import opened Text
  import opened Json

  const SCREENS: set<string> := {"A", "B", "C"}

  const PREFS: map<string, Check> := map[
    "textScale" := FINITE, "titleTextScale" := FINITE, "textFont" := TEXT, "textFontPath" := TEXT,
    "background" := TEXT, "backgroundMode" := ONE_OF({"SOLID", "GRADIENT_LINEAR", "GRADIENT_RADIAL"}),
    "backgroundGradientFrom" := TEXT, "backgroundGradientTo" := TEXT, "backgroundGradientAngle" := FINITE,
    "backgroundImage" := TEXT, "logoPath" := TEXT,
    "logoPosition" := ONE_OF({"bottom-right", "bottom-left", "top-right", "top-left", "center"}),
    "logoOpacity" := FINITE, "logoScale" := FINITE, "foreground" := TEXT,
    "foregroundMode" := ONE_OF({"SOLID", "GRADIENT"}),
    "foregroundGradientFrom" := TEXT, "foregroundGradientTo" := TEXT]

  const ITEM_KINDS: set<string> := {
    "ANNOUNCEMENT_TEXT", "ANNOUNCEMENT_IMAGE", "ANNOUNCEMENT_PDF", "ANNOUNCEMENT_VIDEO", "VERSE_MANUAL",
    "BIBLE_VERSE", "BIBLE_PASSAGE", "SONG_BLOCK", "TIMER"}

  const BINDING: map<string, Check> := map["key" := TEXT, "ctrlKey" := FLAG, "shiftKey" := FLAG]

  const ITEM: map<string, Check> := map[
    "kind" := ONE_OF(ITEM_KINDS), "title" := TEXT_OR_NULL, "content" := TEXT_OR_NULL, "refId" := TEXT_OR_NULL,
    "refSubId" := TEXT_OR_NULL, "mediaPath" := TEXT_OR_NULL]

  // ---------------------------------------------------------------- helpers on fields

  predicate IsText(rec: map<string, Json>, k: string) {
    k in rec && rec[k].Str? && rec[k].s != ""
  }

  function NonEmpty(out: map<string, Json>): Option<Json> {
    if out == map[] then None else Some(Obj(out))
  }

  // ---------------------------------------------------------------- the sections without times

  /** The theme of the `app` section. */
  function App(j: Json): Option<Json> {
    if j.Obj? && "theme" in j.fields && Passes(ONE_OF({"light", "dark"}), j.fields["theme"]) then
      Some(Obj(map["theme" := j.fields["theme"]]))
    else None
  }

  function Files(j: Json): Option<Json> {
    if j.Obj? && "libraryDir" in j.fields && j.fields["libraryDir"].Str? then
      Some(Obj(map["libraryDir" := j.fields["libraryDir"]]))
    else None
  }

  /** `sanitizeProjectionAppearancePrefs` */
  function Prefs(j: Json): Option<Json> {
    if j.Obj? then NonEmpty(Keep(j.fields, PREFS)) else None
  }

  /** `sanitizeProjectionConfig` */
  function Projection(j: Json): Option<Json> {
    if j.Obj? && "screens" in j.fields && j.fields["screens"].Obj? then
      match NonEmpty(Entries(j.fields["screens"].fields, SCREENS, Prefs))
      case Some(screens) => Some(Obj(map["screens" := screens]))
      case None => None
    else None
  }

  /** `sanitizeScreenMirrorMode` */
  function MirrorMode(j: Json): Option<Json> {
    if j.Obj? && "kind" in j.fields && j.fields["kind"] == Str("FREE") then
      Some(Obj(map["kind" := Str("FREE")]))
    else if j.Obj? && "kind" in j.fields && j.fields["kind"] == Str("MIRROR")
            && "from" in j.fields && Passes(ONE_OF(SCREENS), j.fields["from"]) then
      Some(Obj(map["kind" := Str("MIRROR"), "from" := j.fields["from"]]))
    else None
  }

  /** `sanitizeMirrorsConfig` */
  function Mirrors(j: Json): Option<Json> {
    if j.Obj? then NonEmpty(Entries(j.fields, SCREENS, MirrorMode)) else None
  }

  /** `sanitizeKeyBinding` */
  function Binding(j: Json): Option<Json> {
    if j.Obj? && IsText(j.fields, "key") then Some(Obj(Keep(j.fields, BINDING))) else None
  }

  function Bindings(j: Json): Option<Json> {
    if j.Arr? && Items(j.items, Binding) != [] then Some(Arr(Items(j.items, Binding))) else None
  }

  /** `sanitizeShortcutOverrides` on an object; anything else counts as no section. */
  function Shortcuts(j: Json): Option<Json> {
    if j.Obj? then Some(Obj(Entries(j.fields, j.fields.Keys, Bindings))) else None
  }

  /** `sanitizeTemplateItem` */
  function Item(j: Json): Option<Json> {
    if j.Obj? && "kind" in j.fields && Passes(ONE_OF(ITEM_KINDS), j.fields["kind"]) then
      Some(Obj(Keep(j.fields, ITEM)))
    else None
  }

  /** `sanitizePlanTemplate` */
  function Template(j: Json): Option<Json> {
    if j.Obj? && IsText(j.fields, "id") && IsText(j.fields, "name") && IsText(j.fields, "createdAt")
       && "items" in j.fields && j.fields["items"].Arr? then
      Some(TemplateOf(j.fields["id"], j.fields["name"], Arr(Items(j.fields["items"].items, Item)), j.fields["createdAt"]))
    else None
  }

  function TemplateOf(id: Json, name: Json, items: Json, createdAt: Json): Json {
    Obj(map["id" := id, "name" := name, "items" := items, "createdAt" := createdAt])
  }

  /** `sanitizePlanTemplates` on an array; anything else counts as no section. */
  function Templates(j: Json): Option<Json> {
    if j.Arr? then Some(Arr(Items(j.items, Template))) else None
  }

  // ---------------------------------------------------------------- they settle

  lemma AppAndFilesSettle()
    ensures Settles(App) && Settles(Files)
  {}

  lemma PrefsSettle()
    ensures Settles(Prefs)
  {
    forall j | Prefs(j).Some? ensures Prefs(Prefs(j).value) == Prefs(j) && Clean(Prefs(j).value) {
      KeepIsFixed(j.fields, PREFS);
      hide Keep, Clean;
    }
  }

  lemma MirrorModeSettles()
    ensures Settles(MirrorMode)
  {}

  lemma BindingSettles()
    ensures Settles(Binding)
  {
    forall j | Binding(j).Some? ensures Binding(Binding(j).value) == Binding(j) && Clean(Binding(j).value) {
      KeepIsFixed(j.fields, BINDING);
      KeepsField(j.fields, BINDING, "key");
      hide Keep, Clean;
    }
  }

  lemma ItemSettles()
    ensures Settles(Item)
  {
    forall j | Item(j).Some? ensures Item(Item(j).value) == Item(j) && Clean(Item(j).value) {
      KeepIsFixed(j.fields, ITEM);
      KeepsField(j.fields, ITEM, "kind");
      hide Keep, Clean;
    }
  }

  lemma KeepsField(rec: map<string, Json>, checks: map<string, Check>, k: string)
    requires k in rec && k in checks && Passes(checks[k], rec[k])
    ensures k in Keep(rec, checks) && Keep(rec, checks)[k] == rec[k]
  {}

  lemma ProjectionSettles()
    ensures Settles(Projection)
  {
    PrefsSettle();
    forall j | Projection(j).Some?
      ensures Projection(Projection(j).value) == Projection(j) && Clean(Projection(j).value)
    {
      hide Prefs, Entries;
      EntriesAreFixed(j.fields["screens"].fields, SCREENS, Prefs);
      EntriesWithin(j.fields["screens"].fields, SCREENS, Prefs);
      hide Clean;
      CleanRecord("screens", Obj(Entries(j.fields["screens"].fields, SCREENS, Prefs)));
    }
  }

  lemma CleanRecord(k: string, j: Json)
    requires Clean(j)
    ensures Clean(Obj(map[k := j]))
  {}

  lemma MirrorsSettle()
    ensures Settles(Mirrors)
  {
    MirrorModeSettles();
    forall j | Mirrors(j).Some? ensures Mirrors(Mirrors(j).value) == Mirrors(j) && Clean(Mirrors(j).value) {
      hide MirrorMode, Entries;
      EntriesAreFixed(j.fields, SCREENS, MirrorMode);
      EntriesWithin(j.fields, SCREENS, MirrorMode);
    }
  }

  lemma EntriesWithin(rec: map<string, Json>, keys: set<string>, san: Json -> Option<Json>)
    ensures Entries(rec, keys, san).Keys <= keys
  {}

  lemma BindingsSettle()
    ensures Settles(Bindings)
  {
    BindingSettles();
    forall j | Bindings(j).Some? ensures Bindings(Bindings(j).value) == Bindings(j) && Clean(Bindings(j).value) {
      hide Binding, Items;
      ItemsSettle(j.items, Binding);
    }
  }

  lemma ShortcutsSettle()
    ensures Settles(Shortcuts)
  {
    BindingsSettle();
    forall j | Shortcuts(j).Some? ensures Shortcuts(Shortcuts(j).value) == Shortcuts(j) && Clean(Shortcuts(j).value) {
      hide Bindings, Entries;
      EntriesAreFixed(j.fields, j.fields.Keys, Bindings);
    }
  }

  lemma TemplateSettles()
    ensures Settles(Template)
  {
    ItemSettles();
    forall j | Template(j).Some? ensures Template(Template(j).value) == Template(j) && Clean(Template(j).value) {
      hide Item, Items, TemplateOf, Clean;
      ItemsSettle(j.fields["items"].items, Item);
      TemplateFields(j.fields["id"], j.fields["name"], Arr(Items(j.fields["items"].items, Item)), j.fields["createdAt"]);
    }
  }

  lemma TemplateFields(id: Json, name: Json, items: Json, createdAt: Json)
    ensures var t := TemplateOf(id, name, items, createdAt);
      && t.Obj? && "id" in t.fields && t.fields["id"] == id && "name" in t.fields && t.fields["name"] == name
      && "items" in t.fields && t.fields["items"] == items
      && "createdAt" in t.fields && t.fields["createdAt"] == createdAt
    ensures id.Str? && name.Str? && createdAt.Str? && Clean(items) ==> Clean(TemplateOf(id, name, items, createdAt))
  {}

  lemma TemplatesSettle()
    ensures Settles(Templates)
  {
    TemplateSettles();
    forall j | Templates(j).Some? ensures Templates(Templates(j).value) == Templates(j) && Clean(Templates(j).value) {
      hide Template, Items;
      ItemsSettle(j.items, Template);
    }
  }

  // ---------------------------------------------------------------- profiles

  /** `Math.trunc` */
  function Trunc(x: real): int {
    if x >= 0.0 then x.Floor else -((-x).Floor)
  }

  lemma TruncOfInt(n: int)
    ensures Trunc(n as real) == n
  {}

  function Time(rec: map<string, Json>, k: string, fallback: int): int {
    if k in rec && rec[k].Num? then Trunc(rec[k].n) else fallback
  }

  predicate IsName(rec: map<string, Json>, k: string) {
    k in rec && rec[k].Str? && Trim(rec[k].s) != ""
  }

  /** The `files` of a profile: unlike the section of that name, a blank directory does not count. */
  function ProfileFiles(j: Json): Option<Json> {
    if j.Obj? && IsName(j.fields, "libraryDir") then Some(Obj(map["libraryDir" := j.fields["libraryDir"]])) else None
  }

  function Part(rec: map<string, Json>, k: string, san: Json -> Option<Json>): Option<Json> {
    if k in rec then san(rec[k]) else None
  }

  /** A profile object; absent parts leave no field. */
  function ProfileOf(id: string, name: string, createdAt: int, updatedAt: int,
                     files: Option<Json>, projection: Option<Json>, mirrors: Option<Json>): Json {
    var head := map["id" := Str(id), "name" := Str(name), "createdAt" := Num(createdAt as real), "updatedAt" := Num(updatedAt as real)];
    var filed := if files.Some? then head["files" := files.value] else head;
    var projected := if projection.Some? then filed["projection" := projection.value] else filed;
    Obj(if mirrors.Some? then projected["mirrors" := mirrors.value] else projected)
  }

  /** `sanitizeSettingsProfile`; `now` is its reading of the clock. */
  function Profile(j: Json, now: int): Option<Json> {
    if j.Obj? && IsName(j.fields, "id") && IsName(j.fields, "name") then
      var createdAt := Time(j.fields, "createdAt", now);
      Some(ProfileOf(
        Trim(j.fields["id"].s), Trim(j.fields["name"].s), createdAt, Time(j.fields, "updatedAt", createdAt),
        Part(j.fields, "files", ProfileFiles), Part(j.fields, "projection", Projection), Part(j.fields, "mirrors", Mirrors)))
    else None
  }

  lemma ProfileFilesSettle()
    ensures Settles(ProfileFiles)
  {}

  predicate HasPart(j: Json, k: string, part: Option<Json>) {
    j.Obj? && (k in j.fields <==> part.Some?) && (k in j.fields ==> part == Some(j.fields[k]))
  }

  lemma ProfileFields(id: string, name: string, createdAt: int, updatedAt: int,
                      files: Option<Json>, projection: Option<Json>, mirrors: Option<Json>)
    ensures var p := ProfileOf(id, name, createdAt, updatedAt, files, projection, mirrors);
      && HasPart(p, "id", Some(Str(id))) && HasPart(p, "name", Some(Str(name)))
      && HasPart(p, "createdAt", Some(Num(createdAt as real))) && HasPart(p, "updatedAt", Some(Num(updatedAt as real)))
      && HasPart(p, "files", files) && HasPart(p, "projection", projection) && HasPart(p, "mirrors", mirrors)
  {}

  lemma ProfileIsClean(id: string, name: string, createdAt: int, updatedAt: int,
                       files: Option<Json>, projection: Option<Json>, mirrors: Option<Json>)
    requires forall part | part in {files, projection, mirrors} :: part.Some? ==> Clean(part.value)
    ensures Clean(ProfileOf(id, name, createdAt, updatedAt, files, projection, mirrors))
  {
    assert files in {files, projection, mirrors} && projection in {files, projection, mirrors} && mirrors in {files, projection, mirrors};
  }

  lemma PartSettles(rec: map<string, Json>, k: string, san: Json -> Option<Json>, out: Json)
    requires Settles(san) && HasPart(out, k, Part(rec, k, san))
    ensures Part(out.fields, k, san) == Part(rec, k, san)
    ensures Part(rec, k, san).Some? ==> Clean(Part(rec, k, san).value)
  {}

  lemma TimeSettles(out: Json, k: string, n: int, fallback: int)
    requires HasPart(out, k, Some(Num(n as real)))
    ensures Time(out.fields, k, fallback) == n
  {
    TruncOfInt(n);
  }

  lemma NameSettles(rec: map<string, Json>, k: string, out: Json)
    requires IsName(rec, k) && HasPart(out, k, Some(Str(Trim(rec[k].s))))
    ensures IsName(out.fields, k) && Trim(out.fields[k].s) == Trim(rec[k].s)
  {
    hide Trim, Tight;
    TrimIsTight(rec[k].s);
    TrimOfTight(Trim(rec[k].s));
  }

  /** A sanitised profile is left alone by every later reading, whatever the clock says. */
  lemma ProfileIsFixed(j: Json, now: int, later: int)
    requires Profile(j, now).Some?
    ensures Profile(Profile(j, now).value, later) == Profile(j, now) && Clean(Profile(j, now).value)
  {
    ProfileFilesSettle();
    ProjectionSettles();
    MirrorsSettle();
    hide ProfileFiles, Projection, Mirrors, Trim, Trunc, Time, IsName, Part, HasPart, ProfileOf, Clean, Settles;
    var rec, out := j.fields, Profile(j, now).value;
    var createdAt := Time(rec, "createdAt", now);
    var updatedAt := Time(rec, "updatedAt", createdAt);
    var files, projection, mirrors := Part(rec, "files", ProfileFiles), Part(rec, "projection", Projection), Part(rec, "mirrors", Mirrors);
    assert IsName(rec, "id") && IsName(rec, "name");
    NameIsText(rec, "id");
    NameIsText(rec, "name");
    ProfileFields(Trim(rec["id"].s), Trim(rec["name"].s), createdAt, updatedAt, files, projection, mirrors);
    NameSettles(rec, "id", out);
    NameSettles(rec, "name", out);
    TimeSettles(out, "createdAt", createdAt, later);
    TimeSettles(out, "updatedAt", updatedAt, createdAt);
    PartSettles(rec, "files", ProfileFiles, out);
    PartSettles(rec, "projection", Projection, out);
    PartSettles(rec, "mirrors", Mirrors, out);
    ProfileIsClean(Trim(rec["id"].s), Trim(rec["name"].s), createdAt, updatedAt, files, projection, mirrors);
  }

  /** Two readings at different times agree exactly when the profile says when it was created. */
  lemma UndatedProfileDrifts(j: Json, now: int, later: int)
    requires Profile(j, now).Some? && now != later
    ensures Profile(j, now) == Profile(j, later) <==> "createdAt" in j.fields && j.fields["createdAt"].Num?
  {
    hide Trim, Trunc, ProfileFiles, Projection, Mirrors, ProfileOf, Part;
    var rec := j.fields;
    var id, name := Trim(rec["id"].s), Trim(rec["name"].s);
    var files, projection, mirrors := Part(rec, "files", ProfileFiles), Part(rec, "projection", Projection), Part(rec, "mirrors", Mirrors);
    var first, second := Time(rec, "createdAt", now), Time(rec, "createdAt", later);
    ProfileFields(id, name, first, Time(rec, "updatedAt", first), files, projection, mirrors);
    ProfileFields(id, name, second, Time(rec, "updatedAt", second), files, projection, mirrors);
  }

  lemma NameIsText(rec: map<string, Json>, k: string)
    requires IsName(rec, k)
    ensures k in rec && rec[k].Str?
  {}
}
