/** The list of profiles: duplicates, the active one, and the whole section (normalizeProfilesConfig and
    sanitizeProfilesConfig in settings.ts). */
module ProfileList {
  import opened Options
  import opened Seqs
  import opened Json
  import opened Sanitizers

  /** `Date.now()` while entry `i` is being sanitised. */
  type Clock = nat -> int

  function IdOf(j: Json): string {
    if j.Obj? && "id" in j.fields && j.fields["id"].Str? then j.fields["id"].s else ""
  }

  predicate HasId(entries: seq<Json>, id: string) {
    exists i | 0 <= i < |entries| :: IdOf(entries[i]) == id
  }

  /** Each id's first entry, in order; an entry without an id is dropped. */
  function FirstOfEach(entries: seq<Json>): seq<Json> {
    if entries == [] then []
    else
      var before, last := entries[..|entries| - 1], entries[|entries| - 1];
      if IdOf(last) == "" || HasId(before, IdOf(last)) then FirstOfEach(before) else FirstOfEach(before) + [last]
  }

  /** The filter of `normalizeProfilesConfig`, with its set of ids seen so far. */
  method DropDuplicates(entries: seq<Json>) returns (kept: seq<Json>)
    ensures kept == FirstOfEach(entries)
  {
    var seen: set<string> := {};
    kept := [];
    for i := 0 to |entries|
      invariant kept == FirstOfEach(entries[..i])
      invariant forall id :: id in seen <==> id != "" && HasId(entries[..i], id)
    {
      assert entries[..i + 1] == entries[..i] + [entries[i]];
      var id := IdOf(entries[i]);
      HasIdOneMore(entries[..i], entries[i]);
      if id != "" && id !in seen {
        seen := seen + {id};
        kept := kept + [entries[i]];
      }
    }
    assert entries[..|entries|] == entries;
  }

  lemma HasIdOneMore(before: seq<Json>, last: Json)
    ensures forall id :: HasId(before + [last], id) <==> HasId(before, id) || id == IdOf(last)
    ensures var all := before + [last]; all[..|all| - 1] == before && all[|all| - 1] == last
  {
    var all := before + [last];
    forall id ensures HasId(all, id) <==> HasId(before, id) || id == IdOf(last) {
      if i :| 0 <= i < |before| && IdOf(before[i]) == id { assert IdOf(all[i]) == id; }
      if id == IdOf(last) { assert IdOf(all[|before|]) == id; }
      if i :| 0 <= i < |all| && IdOf(all[i]) == id { assert i < |before| ==> IdOf(before[i]) == id; }
    }
  }

  predicate DistinctIds(entries: seq<Json>) {
    && (forall i | 0 <= i < |entries| :: IdOf(entries[i]) != "")
    && forall i, j | 0 <= i < j < |entries| :: IdOf(entries[i]) != IdOf(entries[j])
  }

  /** No id is lost, none is left twice, and every entry kept is one of those given. */
  lemma {:induction false} FirstOfEachIsDistinct(entries: seq<Json>)
    ensures DistinctIds(FirstOfEach(entries))
    ensures forall id | id != "" :: HasId(FirstOfEach(entries), id) <==> HasId(entries, id)
    ensures forall x | x in FirstOfEach(entries) :: x in entries
  {
    if entries != [] {
      var before, last := entries[..|entries| - 1], entries[|entries| - 1];
      FirstOfEachIsDistinct(before);
      InitLast(entries);
      HasIdOneMore(before, last);
      HasIdOneMore(FirstOfEach(before), last);
      forall x | x in FirstOfEach(entries) ensures x in entries { assert x in FirstOfEach(before) || x == last; }
      forall i | 0 <= i < |FirstOfEach(before)| && IdOf(FirstOfEach(before)[i]) == IdOf(last)
        ensures HasId(FirstOfEach(before), IdOf(last))
      {}
    }
  }

  lemma {:induction false} DistinctIsKept(entries: seq<Json>)
    requires DistinctIds(entries)
    ensures FirstOfEach(entries) == entries
  {
    if entries != [] {
      var before, last := entries[..|entries| - 1], entries[|entries| - 1];
      DistinctIsKept(before);
      InitLast(entries);
      assert !HasId(before, IdOf(last)) by {
        forall i | 0 <= i < |before| ensures IdOf(before[i]) != IdOf(last) { assert before[i] == entries[i]; }
      }
    }
  }

  // ---------------------------------------------------------------- the active profile

  /** `activeProfileId` once the duplicates are gone. */
  function Active(active: Json, kept: seq<Json>): Json {
    if active.Str? && active.s != "" && !HasId(kept, active.s) then
      if kept == [] then Null else Str(IdOf(kept[0]))
    else active
  }

  /** A profile that is named as active exists. */
  lemma ActiveExists(active: Json, kept: seq<Json>)
    requires active.Null? || active.Str?
    ensures var a := Active(active, kept);
      && (a.Null? || (a.Str? && (a.s == "" || HasId(kept, a.s))))
      && Active(a, kept) == a
  {
    if kept != [] { assert HasId(kept, IdOf(kept[0])); }
  }

  // ---------------------------------------------------------------- the section

  function ProfileEntries(arr: seq<Json>, clock: Clock): seq<Json> {
    if arr == [] then []
    else
      var n := |arr| - 1;
      match Profile(arr[n], clock(n))
      case Some(p) => ProfileEntries(arr[..n], clock) + [p]
      case None => ProfileEntries(arr[..n], clock)
  }

  function Section(active: Json, entries: seq<Json>): Json {
    Obj(map["activeProfileId" := active, "entries" := Arr(entries)])
  }

  /** `sanitizeProfilesConfig` */
  function Profiles(j: Json, clock: Clock): Option<Json> {
    if !j.Obj? then None
    else
      var raw := if "entries" in j.fields && j.fields["entries"].Arr? then j.fields["entries"].items else [];
      var active := if "activeProfileId" in j.fields && j.fields["activeProfileId"].Str? then j.fields["activeProfileId"] else Null;
      var kept := FirstOfEach(ProfileEntries(raw, clock));
      Some(Section(Active(active, kept), kept))
  }

  ghost predicate Sanitised(j: Json) {
    Clean(j) && forall now :: Profile(j, now) == Some(j)
  }

  lemma {:induction false} EntriesAreSanitised(arr: seq<Json>, clock: Clock)
    ensures forall x | x in ProfileEntries(arr, clock) :: Sanitised(x)
  {
    hide Profile, Clean;
    if arr != [] {
      var n := |arr| - 1;
      EntriesAreSanitised(arr[..n], clock);
      if Profile(arr[n], clock(n)).Some? {
        var p := Profile(arr[n], clock(n)).value;
        forall now ensures Profile(p, now) == Some(p) { ProfileIsFixed(arr[n], clock(n), now); }
        ProfileIsFixed(arr[n], clock(n), 0);
        assert Sanitised(p);
        forall x | x in ProfileEntries(arr, clock) ensures Sanitised(x) { assert x in ProfileEntries(arr[..n], clock) || x == p; }
      }
    }
  }

  lemma {:induction false} SanitisedAreKept(arr: seq<Json>, clock: Clock)
    requires forall x | x in arr :: Sanitised(x)
    ensures ProfileEntries(arr, clock) == arr
  {
    hide Profile, Clean;
    if arr != [] {
      var n := |arr| - 1;
      SanitisedAreKept(arr[..n], clock);
      assert Sanitised(arr[n]);
      InitLast(arr);
    }
  }

  lemma SectionFields(active: Json, entries: seq<Json>)
    ensures var rec := Section(active, entries);
      && rec.Obj? && "activeProfileId" in rec.fields && rec.fields["activeProfileId"] == active
      && "entries" in rec.fields && rec.fields["entries"] == Arr(entries)
    ensures Clean(active) && (forall x | x in entries :: Clean(x)) ==> Clean(Section(active, entries))
  {}

  /** Reading a sanitised section again changes nothing, at whatever time. */
  lemma ProfilesAreFixed(j: Json, clock: Clock, later: Clock)
    requires Profiles(j, clock).Some?
    ensures Profiles(Profiles(j, clock).value, later) == Profiles(j, clock) && Clean(Profiles(j, clock).value)
  {
    hide Section, FirstOfEach, Active, ProfileEntries;
    var raw := if "entries" in j.fields && j.fields["entries"].Arr? then j.fields["entries"].items else [];
    var active := if "activeProfileId" in j.fields && j.fields["activeProfileId"].Str? then j.fields["activeProfileId"] else Null;
    var kept := FirstOfEach(ProfileEntries(raw, clock));
    EntriesAreSanitised(raw, clock);
    FirstOfEachIsDistinct(ProfileEntries(raw, clock));
    DistinctIsKept(kept);
    forall x | x in kept ensures Sanitised(x) { assert x in ProfileEntries(raw, clock); }
    SanitisedAreKept(kept, later);
    ActiveExists(active, kept);
    SectionFields(Active(active, kept), kept);
    forall x | x in kept ensures Clean(x) { assert Sanitised(x); }
  }
}
