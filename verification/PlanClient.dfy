/** The client's optimistic copy of the item list (PlanContext.tsx) against the server's table. */
module PlanClient {
  import opened Seqs
  import opened Options
  import opened Reorder
  import opened Plans
  import opened PlanRuns

  // ---------------------------------------------------------------- the optimistic updates

  /** `items.filter((i) => !idSet.has(i.id))`, on the ids. */
  function Filtered(items: seq<Id>, ids: set<Id>): seq<Id> {
    if items == [] then [] else (if items[0] in ids then [] else [items[0]]) + Filtered(items[1..], ids)
  }

  /** `idxMap.get(id) ?? 0`, where the last occurrence wins. */
  function PlaceOf(ordered: seq<Id>, id: Id): nat {
    if ordered == [] then 0
    else if ordered[|ordered| - 1] == id then |ordered| - 1
    else PlaceOf(ordered[..|ordered| - 1], id)
  }

  /** Inserts behind everything that is not greater: a stable insertion. */
  function InsertBy(ordered: seq<Id>, sorted: seq<Id>, id: Id): seq<Id> {
    if sorted == [] then [id]
    else if PlaceOf(ordered, id) < PlaceOf(ordered, sorted[|sorted| - 1])
      then InsertBy(ordered, sorted[..|sorted| - 1], id) + [sorted[|sorted| - 1]]
    else sorted + [id]
  }

  /** `[...items].sort((a, b) => place(a) - place(b))`, a stable sort. */
  function SortedBy(ordered: seq<Id>, items: seq<Id>): seq<Id> {
    if items == [] then [] else InsertBy(ordered, SortedBy(ordered, items[..|items| - 1]), items[|items| - 1])
  }

  predicate InPlaces(ordered: seq<Id>, s: seq<Id>) {
    forall i, j | 0 <= i < j < |s| :: PlaceOf(ordered, s[i]) <= PlaceOf(ordered, s[j])
  }

  lemma {:induction false} InsertKeeps(ordered: seq<Id>, sorted: seq<Id>, id: Id)
    requires InPlaces(ordered, sorted)
    ensures InPlaces(ordered, InsertBy(ordered, sorted, id))
    ensures multiset(InsertBy(ordered, sorted, id)) == multiset(sorted) + multiset{id}
  {
    hide PlaceOf;
    if sorted != [] {
      var init, last := sorted[..|sorted| - 1], sorted[|sorted| - 1];
      InitLast(sorted);
      InsertKeeps(ordered, init, id);
      if PlaceOf(ordered, id) < PlaceOf(ordered, last) {
        var r := InsertBy(ordered, init, id);
        forall i | 0 <= i < |r| ensures PlaceOf(ordered, r[i]) <= PlaceOf(ordered, last) {
          assert r[i] in multiset(init) + multiset{id};
          if r[i] != id {
            assert r[i] in init;
            var j :| 0 <= j < |init| && init[j] == r[i];
            assert sorted[j] == r[i];
          }
        }
      }
    }
  }

  lemma {:induction false} SortKeeps(ordered: seq<Id>, items: seq<Id>)
    ensures InPlaces(ordered, SortedBy(ordered, items))
    ensures multiset(SortedBy(ordered, items)) == multiset(items)
  {
    hide PlaceOf;
    if items != [] {
      InitLast(items);
      SortKeeps(ordered, items[..|items| - 1]);
      InsertKeeps(ordered, SortedBy(ordered, items[..|items| - 1]), items[|items| - 1]);
    }
  }

  lemma {:induction false} PlaceInDistinct(ordered: seq<Id>, i: nat)
    requires Distinct(ordered) && i < |ordered|
    ensures PlaceOf(ordered, ordered[i]) == i
  {
    if i < |ordered| - 1 {
      var init := ordered[..|ordered| - 1];
      assert forall k | 0 <= k < |init| :: init[k] == ordered[k];
      PlaceInDistinct(init, i);
    }
  }

  /** Sorting by the places of a permutation of the ids gives that permutation. */
  lemma SortByPermutation(ordered: seq<Id>, items: seq<Id>)
    requires Distinct(items) && multiset(ordered) == multiset(items)
    ensures SortedBy(ordered, items) == ordered
  {
    var s := SortedBy(ordered, items);
    SortKeeps(ordered, items);
    DistinctByCounts(items, ordered);
    DistinctByCounts(items, s);
    forall i | 0 <= i < |s| ensures s[i] in ordered {
      assert s[i] in multiset(s);
    }
    SamePlaces(ordered, s);
  }

  /** A distinct sequence of members of `ordered`, in ascending places and of full length, is `ordered`. */
  lemma SamePlaces(ordered: seq<Id>, s: seq<Id>)
    requires Distinct(ordered) && Distinct(s) && |s| == |ordered| && InPlaces(ordered, s)
    requires forall i | 0 <= i < |s| :: s[i] in ordered
    ensures s == ordered
  {
    hide PlaceOf, InPlaces;
    forall i | 0 <= i < |s| ensures s[i] == ordered[i] {
      PlaceAtLeast(ordered, s, i);
      PlaceAtMost(ordered, s, i);
      PlaceIsIndex(ordered, s[i]);
    }
  }

  lemma PlaceIsIndex(ordered: seq<Id>, x: Id)
    requires Distinct(ordered) && x in ordered
    ensures PlaceOf(ordered, x) < |ordered| && ordered[PlaceOf(ordered, x)] == x
  {
    var i :| 0 <= i < |ordered| && ordered[i] == x;
    PlaceInDistinct(ordered, i);
  }

  lemma PlacesDiffer(ordered: seq<Id>, s: seq<Id>, i: nat)
    requires Distinct(ordered) && Distinct(s) && InPlaces(ordered, s) && i + 1 < |s|
    requires s[i] in ordered && s[i + 1] in ordered
    ensures PlaceOf(ordered, s[i]) < PlaceOf(ordered, s[i + 1])
  {
    hide PlaceOf;
    PlaceIsIndex(ordered, s[i]);
    PlaceIsIndex(ordered, s[i + 1]);
  }

  lemma {:induction false} PlaceAtLeast(ordered: seq<Id>, s: seq<Id>, i: nat)
    requires Distinct(ordered) && Distinct(s) && InPlaces(ordered, s) && i < |s|
    requires forall i | 0 <= i < |s| :: s[i] in ordered
    ensures PlaceOf(ordered, s[i]) >= i
  {
    hide PlaceOf, InPlaces;
    if i > 0 {
      PlaceAtLeast(ordered, s, i - 1);
      PlacesDiffer(ordered, s, i - 1);
    }
  }

  lemma {:induction false} PlaceAtMost(ordered: seq<Id>, s: seq<Id>, i: nat)
    requires Distinct(ordered) && Distinct(s) && InPlaces(ordered, s) && i < |s| == |ordered|
    requires forall i | 0 <= i < |s| :: s[i] in ordered
    ensures PlaceOf(ordered, s[i]) <= i
    decreases |s| - i
  {
    hide PlaceOf, InPlaces;
    if i + 1 < |s| {
      PlaceAtMost(ordered, s, i + 1);
      PlacesDiffer(ordered, s, i);
    } else {
      PlaceIsIndex(ordered, s[i]);
    }
  }

  lemma {:induction false} FilteredIsWithout(s: seq<Id>, ids: set<Id>)
    ensures Filtered(s, ids) == Without(s, ids)
  {
    if s != [] {
      FilteredIsWithout(s[..|s| - 1], ids);
      FilteredSnoc(s[..|s| - 1], s[|s| - 1], ids);
      InitLast(s);
    }
  }

  lemma {:induction false} FilteredSnoc(s: seq<Id>, x: Id, ids: set<Id>)
    ensures Filtered(s + [x], ids) == Filtered(s, ids) + (if x in ids then [] else [x])
  {
    if s == [] {
      assert s + [x] == [x] && [x][1..] == [];
      assert Filtered([x], ids) == (if x in ids then [] else [x]) + Filtered([x][1..], ids);
    } else {
      FilteredSnoc(s[1..], x, ids);
      TailOfAppend(s, [x]);
      Assoc(if s[0] in ids then [] else [s[0]], Filtered(s[1..], ids), if x in ids then [] else [x]);
    }
  }

  // ---------------------------------------------------------------- the client against the server

  /** The client's ids are the server's items of the plan, sorted by order. */
  predicate InStep(client: seq<Id>, db: Db, p: PlanId) {
    Represents(db, p, client)
  }

  /** The provider with its selected plan. Each call runs from its optimistic update to its settling with no other
      call in between; ClientRuns has the interleavings. */
  class PlanProvider {
    var plan: seq<Id>
    const selected: PlanId
    const server: PlanStore

    constructor (server: PlanStore, selected: PlanId)
      requires server.Valid()
      ensures this.server == server && this.selected == selected
      ensures Listing(server.items, selected, plan)
    {
      this.server, this.selected := server, selected;
      var listed := FindMany(server.items, selected);
      plan := listed;
    }

    method RefreshPlan()
      requires server.Valid()
      modifies this`plan
      ensures Listing(server.items, selected, plan)
    {
      plan := FindMany(server.items, selected);
    }

    /** `addItem`: refresh on success, nothing on failure. */
    method AddItem(id: Id, payload: string)
      requires server.Valid() && id !in server.items && InStep(plan, server.items, selected)
      modifies this`plan, server`items
      ensures server.Valid() && InStep(plan, server.items, selected)
      ensures plan == if selected in server.plans then old(plan) + [id] else old(plan)
    {
      ghost var db, before := server.items, plan;
      var table := server.items;
      var meanwhile := seq(20, _ => table);
      assert UniqueOrders(db) && Positive(db);
      hide *;
      SoundStill(db, id, meanwhile);
      var ok, tries := server.CreatePlanItemWithRetry(selected, id, payload, 20, meanwhile);
      StillThere(db, meanwhile);
      if selected in server.plans { AddedAlone(db, selected, before, id, payload, meanwhile, tries, ok, server.items); }
      if ok {
        RefreshPlan();
        InStepIsListed(server.items, selected, before + [id], plan);
      }
    }

    /** `removeItem`: filter first, refresh when the server refuses. */
    method RemoveItem(id: Id)
      requires server.Valid() && InStep(plan, server.items, selected)
      modifies this`plan, server`items
      ensures server.Valid() && InStep(plan, server.items, selected)
      ensures plan == Without(old(plan), {id})
    {
      ghost var db, before := server.items, plan;
      plan := Filtered(plan, {id});
      FilteredIsWithout(before, {id});
      var ok := server.RemoveItem(selected, id);
      if !ok {
        RefreshPlan();
        RepresentsIsListing(db, selected, before);
        ListingIsUnique(db, selected, plan, before);
        NothingToRemove(db, selected, before, {id});
      } else if id in db {
        ghost var s :| Removed(db, selected, {id}, s, server.items, server.mode);
        RemoveFilters(db, selected, before, {id}, s, server.items, server.mode);
      } else {
        NothingToRemove(db, selected, before, {id});
      }
    }

    /** `removeItems` */
    method RemoveItems(ids: set<Id>)
      requires server.Valid() && InStep(plan, server.items, selected)
      modifies this`plan, server`items
      ensures server.Valid() && InStep(plan, server.items, selected)
      ensures plan == Without(old(plan), ids) || (plan == old(plan) && exists x :: x in ids && x in old(server.items) && x !in old(plan))
    {
      if ids == {} {
        NothingRemoved(plan, ids);
        return;
      }
      ghost var db, before := server.items, plan;
      plan := Filtered(plan, ids);
      FilteredIsWithout(before, ids);
      var ok := server.RemoveItems(selected, ids);
      if ok {
        ghost var s :| Removed(db, selected, ids, s, server.items, server.mode);
        RemoveFilters(db, selected, before, ids, s, server.items, server.mode);
      } else {
        RefreshPlan();
        RepresentsIsListing(db, selected, before);
        ListingIsUnique(db, selected, plan, before);
        ghost var x :| x in ids && x in db && db[x].plan != selected;
        assert x !in ToSet(before);
      }
    }

    /** `reorder`: sort first, refresh when the server refuses or rolls back. */
    method Reorder(requested: seq<Id>)
      requires server.Valid() && InStep(plan, server.items, selected)
      modifies this`plan, server`items
      ensures server.Valid() && InStep(plan, server.items, selected)
      ensures plan == requested || plan == old(plan)
      ensures server.mode.AtCommit? && multiset(requested) == multiset(old(plan)) ==> plan == requested
    {
      ghost var db, before := server.items, plan;
      assert UniqueOrders(db);
      hide *;
      plan := SortedBy(requested, plan);
      var accepted, listed := server.CheckReorder(selected, requested);
      InStepIsListed(db, selected, before, listed);
      ValidateAcceptsPermutations(before, requested);
      var ok := false;
      if accepted {
        DistinctByCounts(before, requested);
        ok := server.RunUpdates(requested);
        SortByPermutation(requested, before);
        CommittedReorder(db, selected, before, requested, server.mode);
      }
      if !ok {
        RefreshPlan();
        InStepIsListed(db, selected, before, plan);
      }
    }
  }

  lemma StillThere(db: Db, meanwhile: seq<Db>)
    requires |meanwhile| == 20 && forall j | 0 <= j < 20 :: meanwhile[j] == db
    ensures Seen(db, meanwhile, 1) == db && Seen(db, meanwhile, 20) == db
  {}

  lemma InStepIsListed(db: Db, p: PlanId, before: seq<Id>, listed: seq<Id>)
    requires InStep(before, db, p) && Listing(db, p, listed)
    ensures listed == before && Distinct(before) && InStep(listed, db, p) && Represents(db, p, before)
  {
    RepresentsIsListing(db, p, before);
    ListingIsUnique(db, p, listed, before);
  }

  lemma CommittedReorder(db: Db, p: PlanId, before: seq<Id>, requested: seq<Id>, mode: Uniqueness)
    requires UniqueOrders(db) && Represents(db, p, before) && Validate(before, requested) == None
    ensures Commit(db, requested, mode).Some? ==> InStep(requested, Commit(db, requested, mode).value, p)
    ensures mode.AtCommit? ==> Commit(db, requested, mode).Some?
  {
    hide Commit, UniqueOrders, Validate, Renumber;
    UndisturbedReorder(db, p, before, requested);
    if mode.PerStatement? && Commit(db, requested, mode).Some? {
      RepresentedIsDistinct(db, p, before);
      forall x | x in before ensures db[x].plan == p {}
      ReorderPerStatement(db, p, before, before);
    }
  }

  lemma NothingRemoved(s: seq<Id>, ids: set<Id>)
    requires forall x | x in ids :: x !in s
    ensures Without(s, ids) == s
  {
    if s != [] {
      assert s[|s| - 1] in s;
      NothingRemoved(s[..|s| - 1], ids);
      InitLast(s);
    }
  }

  lemma NothingToRemove(db: Db, p: PlanId, s: seq<Id>, ids: set<Id>)
    requires Represents(db, p, s) && forall x | x in ids && x in db :: db[x].plan != p
    ensures Without(s, ids) == s
  {
    forall x | x in ids ensures x !in s { assert x in s ==> x in ToSet(s); }
    NothingRemoved(s, ids);
  }
}
