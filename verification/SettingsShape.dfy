/** Which settings are valid, written out field by field, and that the sanitisers of settings.ts let through exactly
    these: a valid value comes out as itself, and of any other value the valid parts do, unchanged. */
module SettingsShape {
  import opened Options
  import opened Text
  import opened Json
  import opened Sanitizers
  import opened ProfileList

  // ---------------------------------------------------------------- appearance

  predicate OneOf(x: Json, names: set<string>) { x.Str? && x.s in names }

  /** A field of the appearance of a screen, with its value. */
  predicate PrefOk(k: string, x: Json) {
    || (x.Num? && k in {"textScale", "titleTextScale", "backgroundGradientAngle", "logoOpacity", "logoScale"})
    || (x.Str? && k in {"textFont", "textFontPath", "background", "backgroundGradientFrom", "backgroundGradientTo",
                        "backgroundImage", "logoPath", "foreground", "foregroundGradientFrom", "foregroundGradientTo"})
    || (k == "backgroundMode" && OneOf(x, {"SOLID", "GRADIENT_LINEAR", "GRADIENT_RADIAL"}))
    || (k == "logoPosition" && OneOf(x, {"bottom-right", "bottom-left", "top-right", "top-left", "center"}))
    || (k == "foregroundMode" && OneOf(x, {"SOLID", "GRADIENT"}))
  }

  predicate PrefsOk(v: Json) {
    v.Obj? && v.fields != map[] && forall k | k in v.fields :: PrefOk(k, v.fields[k])
  }

  /** `v` holds exactly the fields of `j` that are valid, with their values. */
  ghost predicate ValidPart(j: Json, v: Json, ok: (string, Json) -> bool) {
    && j.Obj? && v.Obj? && (forall k | k in v.fields :: k in j.fields && v.fields[k] == j.fields[k])
    && forall k | k in j.fields :: k in v.fields <==> ok(k, j.fields[k])
  }

  predicate HasPref(j: Json) {
    j.Obj? && exists k :: k in j.fields && PrefOk(k, j.fields[k])
  }

  predicate ScreensOk(v: Json) {
    v.Obj? && v.fields != map[] && forall k | k in v.fields :: k in {"A", "B", "C"} && PrefsOk(v.fields[k])
  }

  predicate ProjectionOk(v: Json) {
    v.Obj? && "screens" in v.fields && v.fields == map["screens" := v.fields["screens"]] && ScreensOk(v.fields["screens"])
  }

  lemma PrefIs(k: string, x: Json)
    ensures PrefOk(k, x) <==> k in PREFS && Passes(PREFS[k], x)
  {}

  lemma KeepAll(rec: map<string, Json>, checks: map<string, Check>)
    ensures Keep(rec, checks) == rec <==> forall k | k in rec :: k in checks && Passes(checks[k], rec[k])
  {
    var out := Keep(rec, checks);
    if forall k | k in rec :: k in checks && Passes(checks[k], rec[k]) { assert out == rec; }
    if out == rec { forall k | k in rec ensures k in checks && Passes(checks[k], rec[k]) { assert k in out; } }
  }

  /** What is left of a record of appearance fields: exactly the valid ones, as they are, or nothing. */
  lemma PrefsRead(j: Json)
    ensures Prefs(j).Some? <==> HasPref(j)
    ensures Prefs(j).Some? ==> ValidPart(j, Prefs(j).value, PrefOk)
    ensures Prefs(j) == Some(j) <==> PrefsOk(j)
  {
    forall k, x ensures PrefOk(k, x) <==> k in PREFS && Passes(PREFS[k], x) { PrefIs(k, x); }
    hide PrefOk, Passes;
    if j.Obj? {
      KeepAll(j.fields, PREFS);
      var out := Keep(j.fields, PREFS);
      assert forall k :: k in out <==> k in j.fields && PrefOk(k, j.fields[k]);
      if k :| k in j.fields && PrefOk(k, j.fields[k]) { assert k in out; }
      if out != map[] { var k :| k in out; }
    }
  }

  // ---------------------------------------------------------------- members one by one

  lemma EntriesAll(rec: map<string, Json>, keys: set<string>, san: Json -> Option<Json>)
    ensures Entries(rec, keys, san) == rec <==> forall k | k in rec :: k in keys && san(rec[k]) == Some(rec[k])
  {
    var out := Entries(rec, keys, san);
    if forall k | k in rec :: k in keys && san(rec[k]) == Some(rec[k]) { assert out == rec; }
    if out == rec { forall k | k in rec ensures k in keys && san(rec[k]) == Some(rec[k]) { assert k in out; } }
  }

  lemma {:induction false} ItemsAll(arr: seq<Json>, san: Json -> Option<Json>)
    ensures |Items(arr, san)| <= |arr|
    ensures Items(arr, san) == arr <==> forall i | 0 <= i < |arr| :: san(arr[i]) == Some(arr[i])
  {
    if arr != [] {
      var n := |arr| - 1;
      ItemsAll(arr[..n], san);
      assert arr == arr[..n] + [arr[n]];
      assert forall i | 0 <= i < n :: arr[..n][i] == arr[i];
      if san(arr[n]).Some? {
        var last := san(arr[n]).value;
        assert Items(arr, san) == Items(arr[..n], san) + [last];
        if Items(arr, san) == arr {
          assert |Items(arr[..n], san)| == n && last == arr[n];
          assert Items(arr[..n], san) == (Items(arr[..n], san) + [last])[..n];
        }
      }
    }
  }

  /** `out` holds the accepted members of `arr`, in their order: `at` says where each comes from. */
  predicate Picked(arr: seq<Json>, san: Json -> Option<Json>, out: seq<Json>, at: seq<nat>) {
    && |at| == |out| && (forall a, b | 0 <= a < b < |at| :: at[a] < at[b])
    && (forall a | 0 <= a < |at| :: at[a] < |arr| && san(arr[at[a]]) == Some(out[a]))
    && forall i | 0 <= i < |arr| :: san(arr[i]).Some? <==> i in at
  }

  lemma PickedSnoc(arr: seq<Json>, san: Json -> Option<Json>, out: seq<Json>, at: seq<nat>, x: Json)
    requires Picked(arr, san, out, at)
    ensures san(x).Some? ==> Picked(arr + [x], san, out + [san(x).value], at + [|arr|])
    ensures san(x).None? ==> Picked(arr + [x], san, out, at)
  {
    var more := arr + [x];
    assert more[|arr|] == x && forall i | 0 <= i < |arr| :: more[i] == arr[i];
    var with := at + [|arr|];
    assert with[|at|] == |arr|;
    assert forall i: nat :: i in with <==> i in at || i == |arr|;
    assert forall i: nat | i in at :: i < |arr|;
  }

  lemma {:induction false} ItemsPick(arr: seq<Json>, san: Json -> Option<Json>) returns (at: seq<nat>)
    ensures Picked(arr, san, Items(arr, san), at)
  {
    if arr == [] {
      at := [];
    } else {
      var n := |arr| - 1;
      var before := ItemsPick(arr[..n], san);
      hide Picked;
      PickedSnoc(arr[..n], san, Items(arr[..n], san), before, arr[n]);
      assert arr == arr[..n] + [arr[n]];
      at := if san(arr[n]).Some? then before + [n] else before;
    }
  }

  lemma ItemsRead(arr: seq<Json>, san: Json -> Option<Json>) returns (at: seq<nat>)
    ensures Picked(arr, san, Items(arr, san), at)
    ensures Items(arr, san) != [] <==> exists i :: 0 <= i < |arr| && san(arr[i]).Some?
    ensures Items(arr, san) == arr <==> forall i | 0 <= i < |arr| :: san(arr[i]) == Some(arr[i])
  {
    at := ItemsPick(arr, san);
    ItemsAll(arr, san);
    hide Items;
    if i :| 0 <= i < |arr| && san(arr[i]).Some? { assert i in at; }
    if at != [] { assert san(arr[at[0]]).Some?; }
  }

  // ---------------------------------------------------------------- the small sections

  predicate AppOk(v: Json) {
    v == Obj(map["theme" := Str("light")]) || v == Obj(map["theme" := Str("dark")])
  }

  lemma AppRead(j: Json)
    ensures App(j).Some? <==> j.Obj? && "theme" in j.fields && (j.fields["theme"] == Str("light") || j.fields["theme"] == Str("dark"))
    ensures App(j).Some? ==> App(j).value == Obj(map["theme" := j.fields["theme"]])
    ensures App(j) == Some(j) <==> AppOk(j)
  {}

  predicate FilesOk(v: Json) {
    v.Obj? && "libraryDir" in v.fields && v.fields["libraryDir"].Str? && v.fields == map["libraryDir" := v.fields["libraryDir"]]
  }

  lemma FilesRead(j: Json)
    ensures Files(j).Some? <==> j.Obj? && "libraryDir" in j.fields && j.fields["libraryDir"].Str?
    ensures Files(j).Some? ==> Files(j).value == Obj(map["libraryDir" := j.fields["libraryDir"]])
    ensures Files(j) == Some(j) <==> FilesOk(j)
  {}

  predicate HasScreen(j: Json) {
    j.Obj? && "screens" in j.fields && j.fields["screens"].Obj?
    && exists k :: k in j.fields["screens"].fields && k in {"A", "B", "C"} && HasPref(j.fields["screens"].fields[k])
  }

  /** The screens with a valid field keep exactly their valid fields. */
  ghost predicate ScreensOf(rec: map<string, Json>, screens: Json) {
    && screens.Obj?
    && (forall k :: k in screens.fields <==> k in rec && k in {"A", "B", "C"} && HasPref(rec[k]))
    && (forall k | k in screens.fields :: ValidPart(rec[k], screens.fields[k], PrefOk))
  }

  lemma ScreensRead(rec: map<string, Json>)
    ensures ScreensOf(rec, Obj(Entries(rec, SCREENS, Prefs)))
    ensures Entries(rec, SCREENS, Prefs) != map[] <==> exists k :: k in rec && k in {"A", "B", "C"} && HasPref(rec[k])
    ensures Entries(rec, SCREENS, Prefs) == rec <==> forall k | k in rec :: k in {"A", "B", "C"} && PrefsOk(rec[k])
  {
    var out := Entries(rec, SCREENS, Prefs);
    hide Prefs, PrefOk, HasPref, PrefsOk, ValidPart, ScreensOf, Entries;
    forall k | k in rec
      ensures k in out <==> k in {"A", "B", "C"} && HasPref(rec[k])
      ensures k in out ==> ValidPart(rec[k], out[k], PrefOk)
      ensures Prefs(rec[k]) == Some(rec[k]) <==> PrefsOk(rec[k])
    {
      PrefsRead(rec[k]);
      EntryIs(rec, SCREENS, Prefs, k);
    }
    EntriesWithin(rec, SCREENS, Prefs);
    EntriesFrom(rec, SCREENS, Prefs);
    EntriesAll(rec, SCREENS, Prefs);
    ScreensAre(rec, out);
  }

  lemma EntryIs(rec: map<string, Json>, keys: set<string>, san: Json -> Option<Json>, k: string)
    requires k in rec
    ensures k in Entries(rec, keys, san) <==> k in keys && san(rec[k]).Some?
    ensures k in Entries(rec, keys, san) ==> Entries(rec, keys, san)[k] == san(rec[k]).value
  {}

  lemma EntriesFrom(rec: map<string, Json>, keys: set<string>, san: Json -> Option<Json>)
    ensures Entries(rec, keys, san).Keys <= rec.Keys
  {}

  lemma ScreensAre(rec: map<string, Json>, out: map<string, Json>)
    requires out.Keys <= rec.Keys
    requires forall k | k in rec :: k in out <==> k in {"A", "B", "C"} && HasPref(rec[k])
    requires forall k | k in rec && k in out :: ValidPart(rec[k], out[k], PrefOk)
    ensures ScreensOf(rec, Obj(out))
    ensures out != map[] <==> exists k :: k in rec && k in {"A", "B", "C"} && HasPref(rec[k])
  {
    hide PrefOk, HasPref, PrefsOk, ValidPart;
    assert forall k | k in out :: k in out.Keys && k in rec;
    if out != map[] { var k :| k in out; assert k in rec && HasPref(rec[k]); }
  }

  lemma ProjectionRead(j: Json)
    ensures Projection(j).Some? <==> HasScreen(j)
    ensures Projection(j).Some? ==> Projection(j).value.Obj? && "screens" in Projection(j).value.fields
    ensures Projection(j).Some? ==> Projection(j).value == Obj(map["screens" := Projection(j).value.fields["screens"]])
    ensures Projection(j).Some? ==> ScreensOf(j.fields["screens"].fields, Projection(j).value.fields["screens"])
    ensures Projection(j) == Some(j) <==> ProjectionOk(j)
  {
    hide Prefs, PrefOk, HasPref, PrefsOk, ScreensOf;
    if j.Obj? && "screens" in j.fields && j.fields["screens"].Obj? {
      ScreensRead(j.fields["screens"].fields);
      hide Entries;
    }
  }

  predicate MirrorOk(v: Json) {
    v == Obj(map["kind" := Str("FREE")])
    || exists from: string :: from in {"A", "B", "C"} && v == Obj(map["kind" := Str("MIRROR"), "from" := Str(from)])
  }

  lemma MirrorRead(j: Json)
    ensures MirrorMode(j).Some? <==> (
              j.Obj? && "kind" in j.fields
              && (j.fields["kind"] == Str("FREE")
                  || (j.fields["kind"] == Str("MIRROR") && "from" in j.fields && OneOf(j.fields["from"], {"A", "B", "C"}))))
    ensures MirrorMode(j).Some? && j.fields["kind"] == Str("FREE") ==>
              MirrorMode(j).value == Obj(map["kind" := Str("FREE")])
    ensures MirrorMode(j).Some? && j.fields["kind"] != Str("FREE") ==>
              MirrorMode(j).value == Obj(map["kind" := Str("MIRROR"), "from" := j.fields["from"]])
    ensures MirrorMode(j) == Some(j) <==> MirrorOk(j)
  {
    if MirrorMode(j) == Some(j) && j != Obj(map["kind" := Str("FREE")]) {
      var from := j.fields["from"].s;
      assert from in {"A", "B", "C"} && j == Obj(map["kind" := Str("MIRROR"), "from" := Str(from)]);
    }
  }

  predicate MirrorsOk(v: Json) {
    v.Obj? && v.fields != map[] && forall k | k in v.fields :: k in {"A", "B", "C"} && MirrorOk(v.fields[k])
  }

  lemma MirrorsRead(j: Json)
    ensures Mirrors(j).Some? <==> j.Obj? && exists k :: k in j.fields && k in {"A", "B", "C"} && MirrorMode(j.fields[k]).Some?
    ensures Mirrors(j).Some? ==> Mirrors(j).value.Obj?
    ensures Mirrors(j).Some? ==> forall k | k in Mirrors(j).value.fields ::
      k in {"A", "B", "C"} && k in j.fields && MirrorMode(j.fields[k]) == Some(Mirrors(j).value.fields[k])
    ensures Mirrors(j).Some? ==> forall k | k in {"A", "B", "C"} && k in j.fields && MirrorMode(j.fields[k]).Some? ::
      k in Mirrors(j).value.fields
    ensures Mirrors(j) == Some(j) <==> MirrorsOk(j)
  {
    forall x ensures MirrorMode(x) == Some(x) <==> MirrorOk(x) { MirrorRead(x); }
    hide MirrorMode, MirrorOk;
    if j.Obj? {
      var out := Entries(j.fields, SCREENS, MirrorMode);
      EntriesAll(j.fields, SCREENS, MirrorMode);
      assert forall k :: k in out <==> k in j.fields && k in {"A", "B", "C"} && MirrorMode(j.fields[k]).Some?;
      if k :| k in j.fields && k in {"A", "B", "C"} && MirrorMode(j.fields[k]).Some? { assert k in out; }
      if out != map[] { var k :| k in out; }
    }
  }

  // ---------------------------------------------------------------- shortcuts

  predicate BindingFieldOk(k: string, x: Json) {
    (k == "key" && x.Str?) || (k in {"ctrlKey", "shiftKey"} && x.Bool?)
  }

  predicate BindingOk(v: Json) {
    && v.Obj? && "key" in v.fields && v.fields["key"].Str? && v.fields["key"].s != ""
    && forall k | k in v.fields :: BindingFieldOk(k, v.fields[k])
  }

  lemma BindingRead(j: Json)
    ensures Binding(j).Some? <==> j.Obj? && "key" in j.fields && j.fields["key"].Str? && j.fields["key"].s != ""
    ensures Binding(j).Some? ==> ValidPart(j, Binding(j).value, BindingFieldOk)
    ensures Binding(j) == Some(j) <==> BindingOk(j)
  {
    if j.Obj? { KeepAll(j.fields, BINDING); }
  }

  predicate BindingsOk(v: Json) {
    v.Arr? && v.items != [] && forall i | 0 <= i < |v.items| :: BindingOk(v.items[i])
  }

  /** An action keeps its valid bindings in order, and is dropped without any. */
  lemma BindingsRead(j: Json) returns (at: seq<nat>)
    ensures Bindings(j).Some? <==> j.Arr? && exists i :: 0 <= i < |j.items| && Binding(j.items[i]).Some?
    ensures Bindings(j).Some? ==> Bindings(j).value.Arr? && Picked(j.items, Binding, Bindings(j).value.items, at)
    ensures Bindings(j) == Some(j) <==> BindingsOk(j)
  {
    at := [];
    hide Binding, BindingOk, Items, Picked;
    if j.Arr? {
      at := ItemsRead(j.items, Binding);
      forall i | 0 <= i < |j.items| ensures Binding(j.items[i]) == Some(j.items[i]) <==> BindingOk(j.items[i]) {
        BindingRead(j.items[i]);
      }
    }
  }

  predicate ShortcutsOk(v: Json) {
    v.Obj? && forall k | k in v.fields :: BindingsOk(v.fields[k])
  }

  /** The actions with a valid binding, and no others. */
  lemma ShortcutsRead(j: Json)
    ensures Shortcuts(j).Some? <==> j.Obj?
    ensures Shortcuts(j).Some? ==> Shortcuts(j).value.Obj?
    ensures Shortcuts(j).Some? ==> forall k | k in Shortcuts(j).value.fields ::
              k in j.fields && Bindings(j.fields[k]) == Some(Shortcuts(j).value.fields[k])
    ensures Shortcuts(j).Some? ==> forall k | k in j.fields && Bindings(j.fields[k]).Some? :: k in Shortcuts(j).value.fields
    ensures Shortcuts(j) == Some(j) <==> ShortcutsOk(j)
  {
    hide Bindings, BindingsOk;
    if j.Obj? {
      EntriesAll(j.fields, j.fields.Keys, Bindings);
      forall k | k in j.fields ensures Bindings(j.fields[k]) == Some(j.fields[k]) <==> BindingsOk(j.fields[k]) {
        var at := BindingsRead(j.fields[k]);
      }
    }
  }

  // ---------------------------------------------------------------- templates

  predicate ItemFieldOk(k: string, x: Json) {
    || (k == "kind" && OneOf(x, {"ANNOUNCEMENT_TEXT", "ANNOUNCEMENT_IMAGE", "ANNOUNCEMENT_PDF", "ANNOUNCEMENT_VIDEO",
                                 "VERSE_MANUAL", "BIBLE_VERSE", "BIBLE_PASSAGE", "SONG_BLOCK", "TIMER"}))
    || (k in {"title", "content", "refId", "refSubId", "mediaPath"} && (x.Str? || x.Null?))
  }

  predicate ItemOk(v: Json) {
    v.Obj? && "kind" in v.fields && forall k | k in v.fields :: ItemFieldOk(k, v.fields[k])
  }

  lemma ItemFieldIs(k: string, x: Json)
    ensures ItemFieldOk(k, x) <==> k in ITEM && Passes(ITEM[k], x)
  {}

  lemma ItemRead(j: Json)
    ensures Item(j).Some? <==> j.Obj? && "kind" in j.fields && ItemFieldOk("kind", j.fields["kind"])
    ensures Item(j).Some? ==> ValidPart(j, Item(j).value, ItemFieldOk)
    ensures Item(j) == Some(j) <==> ItemOk(j)
  {
    if j.Obj? {
      forall k | k in j.fields ensures ItemFieldOk(k, j.fields[k]) <==> k in ITEM && Passes(ITEM[k], j.fields[k]) {
        ItemFieldIs(k, j.fields[k]);
      }
      KeepAll(j.fields, ITEM);
      if "kind" in j.fields { assert ItemFieldOk("kind", j.fields["kind"]) <==> Passes(ONE_OF(ITEM_KINDS), j.fields["kind"]); }
    }
    hide ItemFieldOk;
  }

  predicate ItemsOk(v: Json) {
    v.Arr? && forall i | 0 <= i < |v.items| :: ItemOk(v.items[i])
  }

  predicate TextField(v: Json, k: string) {
    v.Obj? && k in v.fields && v.fields[k].Str? && v.fields[k].s != ""
  }

  predicate TemplateOk(v: Json) {
    && TextField(v, "id") && TextField(v, "name") && TextField(v, "createdAt")
    && "items" in v.fields && ItemsOk(v.fields["items"])
    && v == TemplateOf(v.fields["id"], v.fields["name"], v.fields["items"], v.fields["createdAt"])
  }

  /** A template keeps its id, name and date, and its valid items in order. */
  lemma TemplateRead(j: Json) returns (items: seq<Json>, at: seq<nat>)
    ensures Template(j).Some? <==>
            TextField(j, "id") && TextField(j, "name") && TextField(j, "createdAt") && "items" in j.fields && j.fields["items"].Arr?
    ensures Template(j).Some? ==> Picked(j.fields["items"].items, Item, items, at)
    ensures Template(j).Some? ==>
              Template(j).value == TemplateOf(j.fields["id"], j.fields["name"], Arr(items), j.fields["createdAt"])
    ensures Template(j) == Some(j) <==> TemplateOk(j)
  {
    items, at := [], [];
    hide Item, ItemOk, Items, TemplateOf, Picked;
    if Template(j).Some? {
      var arr := j.fields["items"].items;
      items := Items(arr, Item);
      at := ItemsRead(arr, Item);
      forall i | 0 <= i < |arr| ensures Item(arr[i]) == Some(arr[i]) <==> ItemOk(arr[i]) { ItemRead(arr[i]); }
      TemplateFields(j.fields["id"], j.fields["name"], Arr(items), j.fields["createdAt"]);
      TemplateFields(j.fields["id"], j.fields["name"], j.fields["items"], j.fields["createdAt"]);
    }
  }

  predicate TemplatesOk(v: Json) {
    v.Arr? && forall i | 0 <= i < |v.items| :: TemplateOk(v.items[i])
  }

  lemma TemplatesRead(j: Json) returns (at: seq<nat>)
    ensures Templates(j).Some? <==> j.Arr?
    ensures Templates(j).Some? ==> Templates(j).value.Arr? && Picked(j.items, Template, Templates(j).value.items, at)
    ensures Templates(j) == Some(j) <==> TemplatesOk(j)
  {
    at := [];
    hide Template, TemplateOk, Items, Picked;
    if j.Arr? {
      at := ItemsRead(j.items, Template);
      forall i | 0 <= i < |j.items| ensures Template(j.items[i]) == Some(j.items[i]) <==> TemplateOk(j.items[i]) {
        var items, from := TemplateRead(j.items[i]);
      }
    }
  }

  // ---------------------------------------------------------------- profiles

  predicate NameField(v: Json, k: string) {
    v.Obj? && k in v.fields && v.fields[k].Str? && v.fields[k].s != "" && Tight(v.fields[k].s)
  }

  predicate TimeField(v: Json, k: string) {
    v.Obj? && k in v.fields && v.fields[k].Num? && v.fields[k].n == v.fields[k].n.Floor as real
  }

  /** The directory of a profile: like the section of that name, but not blank. */
  predicate DirectoryOk(v: Json) {
    FilesOk(v) && !AllSpace(v.fields["libraryDir"].s)
  }

  predicate ProfileOk(v: Json) {
    && NameField(v, "id") && NameField(v, "name") && TimeField(v, "createdAt") && TimeField(v, "updatedAt")
    && ("files" in v.fields ==> DirectoryOk(v.fields["files"]))
    && ("projection" in v.fields ==> ProjectionOk(v.fields["projection"]))
    && ("mirrors" in v.fields ==> MirrorsOk(v.fields["mirrors"]))
    && forall k | k in v.fields :: k in {"id", "name", "createdAt", "updatedAt", "files", "projection", "mirrors"}
  }

  /** `Math.trunc` drops the fraction, towards zero. */
  lemma TruncIs(x: real)
    ensures x >= 0.0 ==> Trunc(x) as real <= x < Trunc(x) as real + 1.0
    ensures x <= 0.0 ==> Trunc(x) as real - 1.0 < x <= Trunc(x) as real
    ensures Trunc(x) as real == x <==> x.Floor as real == x
  {
    if x < 0.0 && x.Floor as real == x { TruncOfInt(x.Floor); }
    assert Trunc(x) as real == x ==> (Trunc(x) as real).Floor == Trunc(x);
  }

  lemma DirectoryRead(j: Json)
    ensures ProfileFiles(j).Some? <==> Files(j).Some? && !AllSpace(j.fields["libraryDir"].s)
    ensures ProfileFiles(j).Some? ==> ProfileFiles(j) == Files(j)
    ensures ProfileFiles(j) == Some(j) <==> DirectoryOk(j)
  {
    if Files(j).Some? { TrimEmpty(j.fields["libraryDir"].s); }
    hide Trim, AllSpace;
  }

  /** A profile needs an id and a name, which are trimmed; its times are truncated, a missing creation time is the
      time of the reading, a missing update time that of the creation; each part is that of the section it
      belongs to; and nothing else is kept. */
  lemma ProfileRead(j: Json, now: int)
    ensures Profile(j, now).Some? <==> (
              j.Obj? && "id" in j.fields && j.fields["id"].Str? && !AllSpace(j.fields["id"].s)
              && "name" in j.fields && j.fields["name"].Str? && !AllSpace(j.fields["name"].s))
    ensures Profile(j, now).Some? ==> ProfileFrom(j, now, Profile(j, now).value)
  {
    if j.Obj? {
      if "id" in j.fields && j.fields["id"].Str? { TrimEmpty(j.fields["id"].s); }
      if "name" in j.fields && j.fields["name"].Str? { TrimEmpty(j.fields["name"].s); }
    }
    hide Trim, Trunc, AllSpace, ProfileFiles, Projection, Mirrors, ProfileOf;
    if Profile(j, now).Some? {
      var rec := j.fields;
      var createdAt := Time(rec, "createdAt", now);
      var updatedAt := Time(rec, "updatedAt", createdAt);
      var files, projection, mirrors := Part(rec, "files", ProfileFiles), Part(rec, "projection", Projection), Part(rec, "mirrors", Mirrors);
      ProfileFields(Trim(rec["id"].s), Trim(rec["name"].s), createdAt, updatedAt, files, projection, mirrors);
      ProfileNames(Trim(rec["id"].s), Trim(rec["name"].s), createdAt, updatedAt, files, projection, mirrors);
    }
  }

  ghost predicate ProfileFrom(j: Json, now: int, v: Json)
    requires j.Obj? && "id" in j.fields && j.fields["id"].Str? && "name" in j.fields && j.fields["name"].Str?
  {
    var rec := j.fields;
    var createdAt := if "createdAt" in rec && rec["createdAt"].Num? then Trunc(rec["createdAt"].n) else now;
    var updatedAt := if "updatedAt" in rec && rec["updatedAt"].Num? then Trunc(rec["updatedAt"].n) else createdAt;
    && HasPart(v, "id", Some(Str(Trim(rec["id"].s)))) && HasPart(v, "name", Some(Str(Trim(rec["name"].s))))
    && HasPart(v, "createdAt", Some(Num(createdAt as real))) && HasPart(v, "updatedAt", Some(Num(updatedAt as real)))
    && HasPart(v, "files", if "files" in rec then ProfileFiles(rec["files"]) else None)
    && HasPart(v, "projection", if "projection" in rec then Projection(rec["projection"]) else None)
    && HasPart(v, "mirrors", if "mirrors" in rec then Mirrors(rec["mirrors"]) else None)
    && SevenNames(v)
  }

  predicate SevenNames(v: Json) {
    v.Obj? && forall k | k in v.fields :: k in {"id", "name", "createdAt", "updatedAt", "files", "projection", "mirrors"}
  }

  lemma ProfileNames(id: string, name: string, createdAt: int, updatedAt: int,
                     files: Option<Json>, projection: Option<Json>, mirrors: Option<Json>)
    ensures SevenNames(ProfileOf(id, name, createdAt, updatedAt, files, projection, mirrors))
  {}

  /** Two records with the seven names and the same parts are one. */
  lemma SameProfile(v: Json, w: Json)
    requires SevenNames(v) && SevenNames(w)
    requires forall k | k in {"id", "name", "createdAt", "updatedAt", "files", "projection", "mirrors"} ::
               (k in v.fields <==> k in w.fields) && (k in v.fields ==> v.fields[k] == w.fields[k])
    ensures v == w
  {
    assert forall k | k in v.fields :: k in w.fields && v.fields[k] == w.fields[k];
    assert forall k | k in w.fields :: k in v.fields;
    assert v.fields == w.fields;
  }

  /** What a valid profile has in the place of each part of `ProfileFrom`. */
  lemma NameIsFixed(v: Json, k: string)
    requires v.Obj? && k in v.fields && v.fields[k].Str?
    ensures NameField(v, k) <==> !AllSpace(v.fields[k].s) && Trim(v.fields[k].s) == v.fields[k].s
  {
    var s := v.fields[k].s;
    TrimEmpty(s);
    TrimIsTight(s);
    if Tight(s) { TrimOfTight(s); }
    hide Trim, Tight, AllSpace;
  }

  lemma TimeIsFixed(v: Json, k: string)
    requires v.Obj? && k in v.fields && v.fields[k].Num?
    ensures TimeField(v, k) <==> Num(Trunc(v.fields[k].n) as real) == v.fields[k]
  {
    TruncIs(v.fields[k].n);
    hide Trunc;
  }

  lemma PartsAreFixed(v: Json)
    requires v.Obj?
    ensures "files" in v.fields ==> (ProfileFiles(v.fields["files"]) == Some(v.fields["files"]) <==> DirectoryOk(v.fields["files"]))
    ensures "projection" in v.fields ==>
              (Projection(v.fields["projection"]) == Some(v.fields["projection"]) <==> ProjectionOk(v.fields["projection"]))
    ensures "mirrors" in v.fields ==> (Mirrors(v.fields["mirrors"]) == Some(v.fields["mirrors"]) <==> MirrorsOk(v.fields["mirrors"]))
  {
    if "files" in v.fields { DirectoryRead(v.fields["files"]); }
    if "projection" in v.fields { ProjectionRead(v.fields["projection"]); }
    if "mirrors" in v.fields { MirrorsRead(v.fields["mirrors"]); }
    hide ProfileFiles, DirectoryOk, Projection, ProjectionOk, Mirrors, MirrorsOk, HasScreen, ScreensOf;
  }

  lemma FixedProfileIsOk(v: Json, now: int)
    requires Profile(v, now) == Some(v)
    ensures ProfileOk(v)
  {
    ProfileRead(v, now);
    PartsAreFixed(v);
    NameIsFixed(v, "id");
    NameIsFixed(v, "name");
    hide Profile, Trim, Trunc, AllSpace, ProfileFiles, DirectoryOk, Projection, ProjectionOk, Mirrors, MirrorsOk, NameField, TimeField;
    TimeIsFixed(v, "createdAt");
    TimeIsFixed(v, "updatedAt");
  }

  lemma OkProfileIsFixed(v: Json, now: int)
    requires ProfileOk(v)
    ensures Profile(v, now) == Some(v)
  {
    ProfileRead(v, now);
    PartsAreFixed(v);
    NameIsFixed(v, "id");
    NameIsFixed(v, "name");
    TimeIsFixed(v, "createdAt");
    TimeIsFixed(v, "updatedAt");
    hide Profile, Trim, Trunc, AllSpace, ProfileFiles, DirectoryOk, Projection, ProjectionOk, Mirrors, MirrorsOk, NameField, TimeField;
    SameProfile(v, Profile(v, now).value);
  }

  // ---------------------------------------------------------------- the list of profiles

  predicate ProfilesOk(v: Json) {
    && v.Obj? && "activeProfileId" in v.fields && "entries" in v.fields && v.fields["entries"].Arr?
    && v == Section(v.fields["activeProfileId"], v.fields["entries"].items)
    && var active, entries := v.fields["activeProfileId"], v.fields["entries"].items;
       && (forall i | 0 <= i < |entries| :: ProfileOk(entries[i]))
       && (forall i, j | 0 <= i < j < |entries| :: IdOf(entries[i]) != IdOf(entries[j]))
       && (active.Null? || (active.Str? && (active.s == "" || exists i :: 0 <= i < |entries| && IdOf(entries[i]) == active.s)))
  }

  lemma ProfileHasId(v: Json)
    requires ProfileOk(v)
    ensures IdOf(v) != "" && Str(IdOf(v)) == v.fields["id"]
  {}

  lemma ProfileIsSanitised(v: Json)
    ensures Sanitised(v) <==> ProfileOk(v)
  {
    if ProfileOk(v) {
      forall now: int ensures Profile(v, now) == Some(v) { OkProfileIsFixed(v, now); }
      ProfileIsFixed(v, 0, 0);
    }
    hide Profile, Clean;
    if Sanitised(v) {
      assert Profile(v, 0) == Some(v);
      FixedProfileIsOk(v, 0);
    }
    hide ProfileOk;
  }

  /** `out` holds the accepted profiles, in order, each read at its own time. */
  predicate PickedAt(arr: seq<Json>, clock: Clock, out: seq<Json>, at: seq<nat>) {
    && |at| == |out| && (forall a, b | 0 <= a < b < |at| :: at[a] < at[b])
    && (forall a | 0 <= a < |at| :: at[a] < |arr| && Profile(arr[at[a]], clock(at[a])) == Some(out[a]))
    && forall i | 0 <= i < |arr| :: Profile(arr[i], clock(i)).Some? <==> i in at
  }

  lemma PickedAtSnoc(arr: seq<Json>, clock: Clock, out: seq<Json>, at: seq<nat>, x: Json)
    requires PickedAt(arr, clock, out, at)
    ensures Profile(x, clock(|arr|)).Some? ==>
              PickedAt(arr + [x], clock, out + [Profile(x, clock(|arr|)).value], at + [|arr|])
    ensures Profile(x, clock(|arr|)).None? ==> PickedAt(arr + [x], clock, out, at)
  {
    hide Profile;
    var more := arr + [x];
    assert more[|arr|] == x && forall i | 0 <= i < |arr| :: more[i] == arr[i];
    var with := at + [|arr|];
    assert with[|at|] == |arr|;
    assert forall i: nat :: i in with <==> i in at || i == |arr|;
    assert forall i: nat | i in at :: i < |arr|;
  }

  lemma {:induction false} ProfilesPick(arr: seq<Json>, clock: Clock) returns (at: seq<nat>)
    ensures PickedAt(arr, clock, ProfileEntries(arr, clock), at)
  {
    hide Profile;
    if arr == [] {
      at := [];
    } else {
      var n := |arr| - 1;
      var before := ProfilesPick(arr[..n], clock);
      hide PickedAt;
      PickedAtSnoc(arr[..n], clock, ProfileEntries(arr[..n], clock), before, arr[n]);
      assert arr == arr[..n] + [arr[n]];
      at := if Profile(arr[n], clock(n)).Some? then before + [n] else before;
    }
  }

  /** The entries and the active id of the section that is read. */
  lemma ProfilesFrom(j: Json, clock: Clock)
    requires j.Obj?
    ensures var v := Profiles(j, clock).value;
      var raw := if "entries" in j.fields && j.fields["entries"].Arr? then j.fields["entries"].items else [];
      var active := if "activeProfileId" in j.fields && j.fields["activeProfileId"].Str? then j.fields["activeProfileId"] else Null;
      var kept := FirstOfEach(ProfileEntries(raw, clock));
      v == Obj(map["activeProfileId" := Active(active, kept), "entries" := Arr(kept)])
  {
    hide ProfileEntries, FirstOfEach, Active;
  }

  lemma ProfilesRead(j: Json, clock: Clock)
    ensures Profiles(j, clock).Some? <==> j.Obj?
    ensures Profiles(j, clock) == Some(j) <==> ProfilesOk(j)
  {
    if Profiles(j, clock) == Some(j) { FixedListIsOk(j, clock); }
    if ProfilesOk(j) { OkListIsFixed(j, clock); }
    hide ProfilesOk;
  }

  lemma FixedListIsOk(j: Json, clock: Clock)
    requires Profiles(j, clock) == Some(j)
    ensures ProfilesOk(j)
  {
    var raw := if "entries" in j.fields && j.fields["entries"].Arr? then j.fields["entries"].items else [];
    var active := if "activeProfileId" in j.fields && j.fields["activeProfileId"].Str? then j.fields["activeProfileId"] else Null;
    var kept := FirstOfEach(ProfileEntries(raw, clock));
    EntriesAreSanitised(raw, clock);
    FirstOfEachIsDistinct(ProfileEntries(raw, clock));
    forall i | 0 <= i < |kept| ensures ProfileOk(kept[i]) {
      assert kept[i] in ProfileEntries(raw, clock);
      ProfileIsSanitised(kept[i]);
    }
    hide FirstOfEach, ProfileEntries, Sanitised, ProfileOk, Section;
    ActiveExists(active, kept);
    SectionFields(Active(active, kept), kept);
    hide Active;
  }

  lemma OkListIsFixed(j: Json, clock: Clock)
    requires ProfilesOk(j)
    ensures Profiles(j, clock) == Some(j)
  {
    var active, entries := j.fields["activeProfileId"], j.fields["entries"].items;
    forall x | x in entries ensures Sanitised(x) { ProfileIsSanitised(x); }
    forall i | 0 <= i < |entries| ensures IdOf(entries[i]) != "" { ProfileHasId(entries[i]); }
    hide ProfileOk, Sanitised, Section, FirstOfEach, ProfileEntries;
    SanitisedAreKept(entries, clock);
    DistinctIsKept(entries);
  }

  /** No earlier entry has the id of entry `i`. */
  predicate IsFirst(entries: seq<Json>, i: nat)
    requires i < |entries|
  {
    IdOf(entries[i]) != "" && forall j | 0 <= j < i :: IdOf(entries[j]) != IdOf(entries[i])
  }

  /** `out` holds the first entry of each id, in order: `at` says where each comes from. */
  predicate Chosen(entries: seq<Json>, out: seq<Json>, at: seq<nat>) {
    && |at| == |out| && (forall a, b | 0 <= a < b < |at| :: at[a] < at[b])
    && (forall a | 0 <= a < |at| :: at[a] < |entries| && out[a] == entries[at[a]])
    && forall i | 0 <= i < |entries| :: IsFirst(entries, i) <==> i in at
  }

  lemma ChosenSnoc(entries: seq<Json>, out: seq<Json>, at: seq<nat>, x: Json)
    requires Chosen(entries, out, at)
    ensures IdOf(x) != "" && !HasId(entries, IdOf(x)) ==> Chosen(entries + [x], out + [x], at + [|entries|])
    ensures IdOf(x) == "" || HasId(entries, IdOf(x)) ==> Chosen(entries + [x], out, at)
  {
    hide IdOf;
    var more := entries + [x];
    assert more[|entries|] == x && forall i | 0 <= i < |entries| :: more[i] == entries[i];
    assert IsFirst(more, |entries|) <==> IdOf(x) != "" && !HasId(entries, IdOf(x)) by {
      if i :| 0 <= i < |entries| && IdOf(entries[i]) == IdOf(x) { assert IdOf(more[i]) == IdOf(x); }
    }
    assert forall i | 0 <= i < |entries| :: IsFirst(more, i) <==> IsFirst(entries, i);
    var with := at + [|entries|];
    assert with[|at|] == |entries|;
    assert forall i: nat :: i in with <==> i in at || i == |entries|;
    assert forall i: nat | i in at :: i < |entries|;
    hide IsFirst, HasId;
  }

  lemma {:induction false} FirstStays(entries: seq<Json>) returns (at: seq<nat>)
    ensures Chosen(entries, FirstOfEach(entries), at)
  {
    if entries == [] {
      at := [];
    } else {
      var n := |entries| - 1;
      var before := FirstStays(entries[..n]);
      hide Chosen, HasId, IdOf;
      ChosenSnoc(entries[..n], FirstOfEach(entries[..n]), before, entries[n]);
      assert entries == entries[..n] + [entries[n]];
      at := if IdOf(entries[n]) != "" && !HasId(entries[..n], IdOf(entries[n])) then before + [n] else before;
    }
  }

  /** The active id stays when an entry has it, and otherwise becomes that of the first entry. */
  lemma ActiveIs(active: Json, kept: seq<Json>)
    requires active.Null? || active.Str?
    ensures active.Null? || active.s == "" || (exists i :: 0 <= i < |kept| && IdOf(kept[i]) == active.s) ==> Active(active, kept) == active
    ensures active.Str? && active.s != "" && (forall i | 0 <= i < |kept| :: IdOf(kept[i]) != active.s) ==>
              Active(active, kept) == if kept == [] then Null else Str(IdOf(kept[0]))
  {}
}
