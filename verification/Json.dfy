/** JSON values as `JSON.parse` gives them and `JSON.stringify` writes them, and the ways in which the settings
    sanitisers walk over them. */
module Json {
  import opened Options
  import opened Seqs

  /** An absent field is one that is not in the map. `Infinite` is a number that is not finite. */
  datatype Json =
    | Null
    | Bool(b: bool)
    | Num(n: real)
    | Infinite
    | Str(s: string)
    | Arr(items: seq<Json>)
    | Obj(fields: map<string, Json>)

  /** `JSON.parse(JSON.stringify(j))`: JSON has no way to write an infinite number. */
  function Stringify(j: Json): Json {
    match j
    case Infinite => Null
    case Arr(items) => Arr(seq(|items|, i requires 0 <= i < |items| => Stringify(items[i])))
    case Obj(fields) => Obj(map k | k in fields :: Stringify(fields[k]))
    case _ => j
  }

  predicate Clean(j: Json) {
    match j
    case Infinite => false
    case Arr(items) => forall x | x in items :: Clean(x)
    case Obj(fields) => forall k | k in fields :: Clean(fields[k])
    case _ => true
  }

  lemma {:induction false} StringifyOfClean(j: Json)
    requires Clean(j)
    ensures Stringify(j) == j
  {
    match j
    case Arr(items) =>
      forall i | 0 <= i < |items| ensures Stringify(items[i]) == items[i] { StringifyOfClean(items[i]); }
    case Obj(fields) =>
      forall k | k in fields ensures Stringify(fields[k]) == fields[k] { StringifyOfClean(fields[k]); }
      assert (map k | k in fields :: Stringify(fields[k])) == fields;
    case _ =>
  }

  // ---------------------------------------------------------------- fields that are kept or dropped

  datatype Check = FINITE | TEXT | FLAG | TEXT_OR_NULL | ONE_OF(names: set<string>)

  predicate Passes(c: Check, j: Json) {
    match c
    case FINITE => j.Num?
    case TEXT => j.Str?
    case FLAG => j.Bool?
    case TEXT_OR_NULL => j.Str? || j.Null?
    case ONE_OF(names) => j.Str? && j.s in names
  }

  function Keep(rec: map<string, Json>, checks: map<string, Check>): map<string, Json> {
    map k | k in rec && k in checks && Passes(checks[k], rec[k]) :: rec[k]
  }

  lemma KeepIsFixed(rec: map<string, Json>, checks: map<string, Check>)
    ensures Keep(Keep(rec, checks), checks) == Keep(rec, checks)
    ensures Clean(Obj(Keep(rec, checks)))
  {
    var out := Keep(rec, checks);
    forall k | k in out ensures Clean(out[k]) { assert Passes(checks[k], out[k]); }
  }

  // ---------------------------------------------------------------- members that are sanitised one by one

  /** A sanitiser accepts what it has produced, as it is, and produces nothing that JSON cannot write. */
  ghost predicate Settles(san: Json -> Option<Json>) {
    forall j :: san(j).Some? ==> san(san(j).value) == Some(san(j).value) && Clean(san(j).value)
  }

  predicate Fixed(j: Json, san: Json -> Option<Json>) {
    san(j) == Some(j) && Clean(j)
  }

  /** `forEach` over the names `keys` of a record. */
  function Entries(rec: map<string, Json>, keys: set<string>, san: Json -> Option<Json>): map<string, Json> {
    map k | k in rec && k in keys && san(rec[k]).Some? :: san(rec[k]).value
  }

  lemma EntriesAreFixed(rec: map<string, Json>, keys: set<string>, san: Json -> Option<Json>)
    requires Settles(san)
    ensures forall more: set<string> | Entries(rec, keys, san).Keys <= more ::
              Entries(Entries(rec, keys, san), more, san) == Entries(rec, keys, san)
    ensures Clean(Obj(Entries(rec, keys, san)))
  {
    var out := Entries(rec, keys, san);
    forall k | k in out ensures san(out[k]) == Some(out[k]) && Clean(out[k]) { assert out[k] == san(rec[k]).value; }
    forall more: set<string> | out.Keys <= more ensures Entries(out, more, san) == out {}
  }

  /** `map` and then `filter` over an array. */
  function Items(arr: seq<Json>, san: Json -> Option<Json>): seq<Json> {
    if arr == [] then []
    else match san(arr[|arr| - 1])
      case Some(v) => Items(arr[..|arr| - 1], san) + [v]
      case None => Items(arr[..|arr| - 1], san)
  }

  lemma {:induction false} ItemsAreFixed(arr: seq<Json>, san: Json -> Option<Json>)
    requires Settles(san)
    ensures forall x | x in Items(arr, san) :: Fixed(x, san)
  {
    if arr != [] {
      ItemsAreFixed(arr[..|arr| - 1], san);
      var last := arr[|arr| - 1];
      if san(last).Some? {
        assert Fixed(san(last).value, san);
        forall x | x in Items(arr, san) ensures Fixed(x, san) {
          assert x in Items(arr[..|arr| - 1], san) || x == san(last).value;
        }
      }
    }
  }

  lemma {:induction false} ItemsOfFixed(arr: seq<Json>, san: Json -> Option<Json>)
    requires forall x | x in arr :: Fixed(x, san)
    ensures Items(arr, san) == arr
  {
    if arr != [] {
      ItemsOfFixed(arr[..|arr| - 1], san);
      assert Fixed(arr[|arr| - 1], san);
      InitLast(arr);
    }
  }

  lemma ItemsSettle(arr: seq<Json>, san: Json -> Option<Json>)
    requires Settles(san)
    ensures Items(Items(arr, san), san) == Items(arr, san) && Clean(Arr(Items(arr, san)))
  {
    ItemsAreFixed(arr, san);
    ItemsOfFixed(Items(arr, san), san);
    forall x | x in Items(arr, san) ensures Clean(x) { assert Fixed(x, san); }
  }
}
