/** Reordering the items of a plan: `moveArray` and `reorderPlanItems` (reorder.ts) and the server's
    `validatePlanReorderPayload` (reorderValidation.ts). */
module Reorder {
  import opened Seqs
  import opened Options

  type Id = string

  datatype Item = Item(id: Id, order: nat, payload: string)

  predicate Distinct<T(==)>(s: seq<T>) {
    forall i, j | 0 <= i < j < |s| :: s[i] != s[j]
  }

  function ToSet<T(==)>(s: seq<T>): set<T> {
    set x | x in s
  }

  // ---------------------------------------------------------------- distinct sequences as multisets

  lemma {:induction false} CountsAreOne<T>(s: seq<T>)
    requires Distinct(s)
    ensures forall x :: multiset(s)[x] == if x in s then 1 else 0
  {
    if s != [] {
      var init, last := s[..|s| - 1], s[|s| - 1];
      CountsAreOne(init);
      InitLast(s);
      assert forall i | 0 <= i < |init| :: init[i] == s[i];
      assert last !in init;
    }
  }

  lemma {:induction false} CardinalityOfDistinct<T>(s: seq<T>)
    requires Distinct(s)
    ensures |ToSet(s)| == |s|
  {
    if s != [] {
      var init, last := s[..|s| - 1], s[|s| - 1];
      CardinalityOfDistinct(init);
      assert forall i | 0 <= i < |init| :: init[i] == s[i];
      assert ToSet(s) == ToSet(init) + {last} by { InitLast(s); }
    }
  }

  lemma {:induction false} CardinalityBound<T>(s: seq<T>)
    ensures |ToSet(s)| <= |s|
    ensures |ToSet(s)| == |s| ==> Distinct(s)
  {
    if s != [] {
      var init, last := s[..|s| - 1], s[|s| - 1];
      CardinalityBound(init);
      assert ToSet(s) == ToSet(init) + {last} by { InitLast(s); }
      assert forall i | 0 <= i < |init| :: init[i] == s[i];
      if last in init { assert ToSet(s) == ToSet(init); }
    }
  }

  lemma EqualCardinalitySubset<T>(a: set<T>, b: set<T>)
    requires a <= b && |a| == |b|
    ensures a == b
  {
    assert |b - a| == |b| - |a|;
    assert b - a == {};
  }

  /** Distinct sequences are permutations of each other exactly when they have the same elements. */
  lemma PermutationBySets<T>(a: seq<T>, b: seq<T>)
    requires Distinct(a) && Distinct(b)
    ensures multiset(a) == multiset(b) <==> ToSet(a) == ToSet(b)
  {
    CountsAreOne(a);
    CountsAreOne(b);
    if ToSet(a) == ToSet(b) {
      forall x ensures multiset(a)[x] == multiset(b)[x] { assert x in a <==> x in ToSet(a); assert x in b <==> x in ToSet(b); }
    } else {
      forall x ensures x in ToSet(a) <==> x in multiset(a) {}
      forall x ensures x in ToSet(b) <==> x in multiset(b) {}
    }
  }

  lemma DistinctByCounts<T>(a: seq<T>, b: seq<T>)
    requires Distinct(a) && multiset(a) == multiset(b)
    ensures Distinct(b) && |a| == |b|
  {
    CountsAreOne(a);
    assert |multiset(a)| == |a| && |multiset(b)| == |b|;
    forall i, j | 0 <= i < j < |b| ensures b[i] != b[j] {
      if b[i] == b[j] { TwiceCounts(b, i, j); }
    }
  }

  lemma TwiceCounts<T>(b: seq<T>, i: nat, j: nat)
    requires i < j < |b| && b[i] == b[j]
    ensures multiset(b)[b[i]] >= 2
  {
    assert b == b[..j] + b[j..];
    assert multiset(b) == multiset(b[..j]) + multiset(b[j..]);
    assert b[..j][i] == b[i] && b[j..][0] == b[j];
  }

  // ---------------------------------------------------------------- the server's check

  /** `validatePlanReorderPayload`: `None` when the payload is accepted. */
  function Validate(current: seq<Id>, requested: seq<Id>): Option<string> {
    if |requested| != |current| then Some("Invalid reorder payload size")
    else if |ToSet(requested)| != |requested| then Some("Duplicate item id in reorder payload")
    else if exists id :: id in ToSet(requested) && id !in ToSet(current)
      then Some("Reorder payload contains item outside target plan")
    else None
  }

  /** The server accepts exactly the permutations of the current ids. */
  lemma ValidateAcceptsPermutations(current: seq<Id>, requested: seq<Id>)
    requires Distinct(current)
    ensures Validate(current, requested) == None <==> multiset(requested) == multiset(current)
  {
    CardinalityBound(requested);
    CardinalityOfDistinct(current);
    if Validate(current, requested) == None {
      assert ToSet(requested) <= ToSet(current);
      EqualCardinalitySubset(ToSet(requested), ToSet(current));
      PermutationBySets(requested, current);
    } else if multiset(requested) == multiset(current) {
      DistinctByCounts(current, requested);
      CardinalityOfDistinct(requested);
      PermutationBySets(requested, current);
      assert false;
    }
  }

  // ---------------------------------------------------------------- moveArray

  /** `moveArray`: take out at `from`, put back at `to`. */
  function MoveArray<T>(s: seq<T>, from: nat, to: nat): seq<T>
    requires from < |s| && to < |s|
  {
    var rest := s[..from] + s[from + 1..];
    rest[..to] + [s[from]] + rest[to..]
  }

  /** The moved element stands at `to`, the others keep their order, and nothing is lost. */
  lemma MoveArrayIsOneMove<T>(s: seq<T>, from: nat, to: nat)
    requires from < |s| && to < |s|
    ensures var m := MoveArray(s, from, to);
            && |m| == |s| && m[to] == s[from]
            && m[..to] + m[to + 1..] == s[..from] + s[from + 1..]
            && multiset(m) == multiset(s)
  {
    var rest := s[..from] + s[from + 1..];
    var m := MoveArray(s, from, to);
    assert m[..to] == rest[..to] && m[to + 1..] == rest[to..];
    assert rest == rest[..to] + rest[to..];
    assert s == s[..from] + ([s[from]] + s[from + 1..]);
    calc {
      multiset(m);
      multiset(rest[..to]) + multiset([s[from]]) + multiset(rest[to..]);
      multiset(rest) + multiset([s[from]]);
      multiset(s[..from]) + multiset(s[from + 1..]) + multiset([s[from]]);
      multiset(s);
    }
  }

  // ---------------------------------------------------------------- the filtered case

  /** The mapped id list: hidden items stay, visible ones take the moved ids in turn; `None` stands for
      `undefined` when the moved ids run out. */
  function Weave(ids: seq<Id>, visible: set<Id>, moved: seq<Id>): seq<Option<Id>> {
    if ids == [] then []
    else if ids[0] !in visible then [Some(ids[0])] + Weave(ids[1..], visible, moved)
    else if moved == [] then [None] + Weave(ids[1..], visible, [])
    else [Some(moved[0])] + Weave(ids[1..], visible, moved[1..])
  }

  /** The elements of `values` that stand where `ids` is visible. */
  function AtVisible<T>(ids: seq<Id>, visible: set<Id>, values: seq<T>): seq<T>
    requires |values| == |ids|
  {
    if ids == [] then []
    else (if ids[0] in visible then [values[0]] else []) + AtVisible(ids[1..], visible, values[1..])
  }

  function AtHidden<T>(ids: seq<Id>, visible: set<Id>, values: seq<T>): seq<T>
    requires |values| == |ids|
  {
    if ids == [] then []
    else (if ids[0] !in visible then [values[0]] else []) + AtHidden(ids[1..], visible, values[1..])
  }

  function Somes(ids: seq<Id>): seq<Option<Id>> {
    seq(|ids|, i requires 0 <= i < |ids| => Some(ids[i]))
  }

  lemma {:induction false} SplitByVisibility(ids: seq<Id>, visible: set<Id>, values: seq<Id>)
    requires |values| == |ids|
    ensures multiset(values) == multiset(AtVisible(ids, visible, values)) + multiset(AtHidden(ids, visible, values))
    ensures forall x | x in AtVisible(ids, visible, values) :: x in values
  {
    if ids != [] {
      SplitByVisibility(ids[1..], visible, values[1..]);
      HeadTail(values);
    }
  }

  lemma SomesCons(head: Id, rest: seq<Id>)
    ensures Somes([head] + rest) == [Some(head)] + Somes(rest)
  {}

  /** When there are as many moved ids as visible positions, weaving puts them there in order and leaves
      the hidden positions alone. */
  lemma {:induction false} WeavePlaces(ids: seq<Id>, visible: set<Id>, moved: seq<Id>) returns (woven: seq<Id>)
    requires |AtVisible(ids, visible, ids)| == |moved|
    ensures Weave(ids, visible, moved) == Somes(woven) && |woven| == |ids|
    ensures forall i | 0 <= i < |ids| && ids[i] !in visible :: woven[i] == ids[i]
    ensures AtVisible(ids, visible, woven) == moved
    ensures AtHidden(ids, visible, woven) == AtHidden(ids, visible, ids)
  {
    if ids == [] {
      woven := [];
    } else {
      var head := if ids[0] in visible then moved[0] else ids[0];
      var rest := WeavePlaces(ids[1..], visible, if ids[0] in visible then moved[1..] else moved);
      woven := [head] + rest;
      Cons(head, rest);
      SomesCons(head, rest);
      forall i | 0 <= i < |ids| && ids[i] !in visible ensures woven[i] == ids[i] {
        if i > 0 { assert ids[1..][i - 1] == ids[i]; }
      }
      if ids[0] in visible { HeadTail(moved); }
    }
  }

  lemma {:induction false} VisibleInOrder(ids: seq<Id>, visible: set<Id>)
    requires Distinct(ids)
    ensures Distinct(AtVisible(ids, visible, ids))
    ensures ToSet(AtVisible(ids, visible, ids)) == visible * ToSet(ids)
  {
    if ids != [] {
      var rest := ids[1..];
      assert forall i | 0 <= i < |rest| :: rest[i] == ids[i + 1];
      VisibleInOrder(rest, visible);
      SplitByVisibility(rest, visible, rest);
      assert ids[0] !in rest;
      HeadTail(ids);
      assert ToSet(ids) == {ids[0]} + ToSet(rest);
      var v := AtVisible(rest, visible, rest);
      assert ids[0] !in v;
      if ids[0] in visible {
        DistinctCons(ids[0], v);
        assert ToSet([ids[0]] + v) == {ids[0]} + ToSet(v);
      } else {
        assert [] + v == v;
      }
    }
  }

  lemma DistinctCons<T>(x: T, s: seq<T>)
    requires Distinct(s) && x !in s
    ensures Distinct([x] + s)
  {
    var r := [x] + s;
    assert forall i | 1 <= i < |r| :: r[i] == s[i - 1];
  }

  /** Distinct ids and a distinct visible subset: the woven list is a permutation of the ids that keeps
      every hidden one in its place and reads `moved` at the visible places. */
  lemma WeaveIsPermutation(ids: seq<Id>, visibleIds: seq<Id>, moved: seq<Id>) returns (woven: seq<Id>)
    requires Distinct(ids) && Distinct(visibleIds) && ToSet(visibleIds) <= ToSet(ids)
    requires multiset(moved) == multiset(visibleIds)
    ensures Weave(ids, ToSet(visibleIds), moved) == Somes(woven)
    ensures multiset(woven) == multiset(ids)
    ensures |woven| == |ids| && forall i | 0 <= i < |ids| && ids[i] !in visibleIds :: woven[i] == ids[i]
    ensures AtVisible(ids, ToSet(visibleIds), woven) == moved
  {
    var visible := ToSet(visibleIds);
    var before := AtVisible(ids, visible, ids);
    VisibleInOrder(ids, visible);
    assert visible * ToSet(ids) == visible;
    PermutationBySets(before, visibleIds);
    DistinctByCounts(visibleIds, moved);
    DistinctByCounts(visibleIds, before);
    woven := WeavePlaces(ids, visible, moved);
    SplitByVisibility(ids, visible, ids);
    SplitByVisibility(ids, visible, woven);
  }

  // ---------------------------------------------------------------- reorderPlanItems

  function Ids(items: seq<Item>): seq<Id> {
    seq(|items|, i requires 0 <= i < |items| => items[i].id)
  }

  /** `ids.indexOf(id)`, with `None` for -1. */
  function IndexOf(ids: seq<Id>, id: Id): (r: Option<nat>)
    ensures r.Some? ==> r.value < |ids| && ids[r.value] == id
    ensures r.None? <==> id !in ids
  {
    if ids == [] then None
    else if ids[0] == id then Some(0)
    else match IndexOf(ids[1..], id) case None => None case Some(i) => Some(i + 1)
  }

  /** `new Map(items.map((item) => [item.id, item]))`: the last item wins. */
  function ById(items: seq<Item>): map<Id, Item> {
    if items == [] then map[] else ById(items[..|items| - 1])[items[|items| - 1].id := items[|items| - 1]]
  }

  /** The `reduce`: the items found, each with its place in `ordered` as order number. */
  function Collect(ordered: seq<Option<Id>>, byId: map<Id, Item>): seq<Item> {
    if ordered == [] then []
    else
      var last := ordered[|ordered| - 1];
      Collect(ordered[..|ordered| - 1], byId)
      + (if last.Some? && last.value in byId then [byId[last.value].(order := |ordered|)] else [])
  }

  datatype Reordered = Reordered(orderedIds: seq<Option<Id>>, newItems: seq<Item>)

  function OrderedIds(items: seq<Item>, visibleItems: seq<Item>, filter: bool, activeId: Id, overId: Id): Option<seq<Option<Id>>> {
    var pool := if filter then Ids(visibleItems) else Ids(items);
    match (IndexOf(pool, activeId), IndexOf(pool, overId))
    case (Some(from), Some(to)) =>
      var moved := MoveArray(pool, from, to);
      Some(if filter then Weave(Ids(items), ToSet(pool), moved) else Somes(moved))
    case _ => None
  }

  /** `reorderPlanItems` */
  function ReorderPlanItems(items: seq<Item>, visibleItems: seq<Item>, filter: bool, activeId: Id, overId: Id): Option<Reordered> {
    match OrderedIds(items, visibleItems, filter, activeId, overId)
    case None => None
    case Some(ordered) =>
      var newItems := Collect(ordered, ById(items));
      if |newItems| != |items| then None else Some(Reordered(ordered, newItems))
  }

  /** The loop over the items with its `cursor`. */
  method MapVisible(ids: seq<Id>, visible: set<Id>, moved: seq<Id>) returns (ordered: seq<Option<Id>>)
    ensures ordered == Weave(ids, visible, moved)
  {
    ordered := [];
    var cursor := 0;
    assert ids[0..] == ids && moved[0..] == moved && [] + Weave(ids, visible, moved) == Weave(ids, visible, moved);
    for i := 0 to |ids|
      invariant ordered + Weave(ids[i..], visible, if cursor <= |moved| then moved[cursor..] else []) == Weave(ids, visible, moved)
    {
      WeaveTurn(ids, visible, moved, i, cursor, ordered);
      if ids[i] !in visible {
        ordered := ordered + [Some(ids[i])];
      } else {
        ordered := ordered + [if cursor < |moved| then Some(moved[cursor]) else None];
        cursor := cursor + 1;
      }
    }
    assert ids[|ids|..] == [] && ordered + [] == ordered;
  }

  lemma WeaveTurn(ids: seq<Id>, visible: set<Id>, moved: seq<Id>, i: nat, cursor: nat, ordered: seq<Option<Id>>)
    requires i < |ids|
    ensures var left := if cursor <= |moved| then moved[cursor..] else [];
            var next := if ids[i] in visible then cursor + 1 else cursor;
            var left' := if next <= |moved| then moved[next..] else [];
            var x := if ids[i] !in visible then Some(ids[i]) else if cursor < |moved| then Some(moved[cursor]) else None;
            ordered + Weave(ids[i..], visible, left) == ordered + [x] + Weave(ids[i + 1..], visible, left')
  {
    assert ids[i..][1..] == ids[i + 1..];
    var left := if cursor <= |moved| then moved[cursor..] else [];
    if cursor < |moved| { assert left[1..] == moved[cursor + 1..]; }
    var x := if ids[i] !in visible then Some(ids[i]) else if cursor < |moved| then Some(moved[cursor]) else None;
    var next := if ids[i] in visible then cursor + 1 else cursor;
    Assoc(ordered, [x], Weave(ids[i + 1..], visible, if next <= |moved| then moved[next..] else []));
  }

  lemma {:induction false} ByIdFinds(items: seq<Item>, i: nat)
    requires i < |items| && Distinct(Ids(items))
    ensures Ids(items)[i] in ById(items) && ById(items)[Ids(items)[i]] == items[i]
  {
    var k := |items| - 1;
    if i < k {
      assert Ids(items[..k]) == Ids(items)[..k];
      assert Ids(items)[i] != Ids(items)[k];
      ByIdFinds(items[..k], i);
    }
  }

  lemma {:induction false} CollectAll(ids: seq<Id>, byId: map<Id, Item>)
    requires forall i | 0 <= i < |ids| :: ids[i] in byId
    ensures var r := Collect(Somes(ids), byId);
            |r| == |ids| && forall i | 0 <= i < |ids| :: r[i] == byId[ids[i]].(order := i + 1)
  {
    if ids != [] {
      var k := |ids| - 1;
      assert Somes(ids)[..k] == Somes(ids[..k]);
      CollectAll(ids[..k], byId);
    }
  }

  /** `newItems` holds the item of each id, with its place as order number and nothing else changed. */
  predicate Renumbered(items: seq<Item>, ordered: seq<Id>, newItems: seq<Item>) {
    |newItems| == |ordered| && forall i | 0 <= i < |ordered| ::
      exists j :: 0 <= j < |items| && items[j].id == ordered[i] && newItems[i] == items[j].(order := i + 1)
  }

  lemma CollectRenumbers(items: seq<Item>, ordered: seq<Id>)
    requires Distinct(Ids(items)) && ToSet(ordered) == ToSet(Ids(items))
    ensures Renumbered(items, ordered, Collect(Somes(ordered), ById(items)))
    ensures |Collect(Somes(ordered), ById(items))| == |ordered|
  {
    hide ById, Distinct;
    forall i | 0 <= i < |ordered|
      ensures ordered[i] in ById(items)
      ensures exists j :: 0 <= j < |items| && items[j].id == ordered[i] && ById(items)[ordered[i]] == items[j]
    {
      assert ordered[i] in ToSet(ordered);
      var j :| 0 <= j < |items| && Ids(items)[j] == ordered[i];
      ByIdFinds(items, j);
    }
    hide Collect;
    CollectAll(ordered, ById(items));
  }

  /** Dragging one item over another: for distinct item ids and a distinct visible subset that holds both
      ends of the drag, the result exists, is a permutation of the ids that keeps every hidden item in its
      place and applies one move to the visible ones, renumbers the items 1..n with their contents kept,
      and is accepted by the server. */
  lemma ReorderIsOneMove(items: seq<Item>, visibleItems: seq<Item>, filter: bool, activeId: Id, overId: Id)
    returns (ordered: seq<Id>)
    requires Distinct(Ids(items)) && Distinct(Ids(visibleItems)) && ToSet(Ids(visibleItems)) <= ToSet(Ids(items))
    requires var pool := if filter then Ids(visibleItems) else Ids(items); activeId in pool && overId in pool
    ensures var r := ReorderPlanItems(items, visibleItems, filter, activeId, overId);
            var pool := if filter then Ids(visibleItems) else Ids(items);
            var moved := MoveArray(pool, IndexOf(pool, activeId).value, IndexOf(pool, overId).value);
            && r.Some? && r.value.orderedIds == Somes(ordered)
            && multiset(ordered) == multiset(Ids(items))
            && |ordered| == |items| == |r.value.newItems|
            && (if filter
                then (forall i | 0 <= i < |items| && items[i].id !in pool :: ordered[i] == items[i].id)
                     && AtVisible(Ids(items), ToSet(pool), ordered) == moved
                else ordered == moved)
            && Renumbered(items, ordered, r.value.newItems)
            && Validate(Ids(items), ordered) == None
  {
    hide Weave, Collect, AtVisible, MoveArray, Validate, ById, Renumbered, Distinct, Somes;
    var ids := Ids(items);
    var pool := if filter then Ids(visibleItems) else ids;
    var from, to := IndexOf(pool, activeId).value, IndexOf(pool, overId).value;
    MoveArrayIsOneMove(pool, from, to);
    if filter {
      ordered := WeaveIsPermutation(ids, pool, MoveArray(pool, from, to));
    } else {
      ordered := MoveArray(pool, from, to);
    }
    DistinctByCounts(ids, ordered);
    PermutationBySets(ids, ordered);
    CollectRenumbers(items, ordered);
    ValidateAcceptsPermutations(ids, ordered);
  }

  /** Without both ends of the drag among the candidates there is no result. */
  lemma ReorderNeedsBothEnds(items: seq<Item>, visibleItems: seq<Item>, filter: bool, activeId: Id, overId: Id)
    requires Distinct(Ids(items)) && Distinct(Ids(visibleItems)) && ToSet(Ids(visibleItems)) <= ToSet(Ids(items))
    ensures var pool := if filter then Ids(visibleItems) else Ids(items);
            ReorderPlanItems(items, visibleItems, filter, activeId, overId).Some? <==> activeId in pool && overId in pool
  {
    hide Weave, Collect, MoveArray;
    var pool := if filter then Ids(visibleItems) else Ids(items);
    if activeId in pool && overId in pool {
      var ordered := ReorderIsOneMove(items, visibleItems, filter, activeId, overId);
    }
  }
}
