/** Every interleaving of the plan handlers, and the store they work on (plans.ts). */
module PlanRuns {
  import opened Options
  import opened Reorder
  import opened Plans

  // ---------------------------------------------------------------- the handlers

  class PlanStore {
    var items: Db
    var plans: set<PlanId>
    const mode: Uniqueness

    constructor (mode: Uniqueness)
      ensures items == map[] && plans == {} && this.mode == mode
    {
      items, plans := map[], {};
      this.mode := mode;
    }

    /** What the indexes of the schema guarantee, and that orders start at 1. */
    predicate Valid()
      reads this
    {
      UniqueOrders(items) && Positive(items)
    }

    /** `serviceItem.create`, inside its own transaction. */
    method Create(id: Id, row: Row) returns (ok: bool)
      requires Valid() && id !in items && row.order >= 1
      modifies this`items
      ensures Valid()
      ensures ok <==> row.plan in plans && !Taken(old(items), row.plan, row.order)
      ensures items == if ok then old(items)[id := row] else old(items)
    {
      ok := row.plan in plans && !Taken(items, row.plan, row.order);
      if ok { items := items[id := row]; }
    }

    /** The transactions of other handlers, whatever they are. */
    method Others(d: Db)
      requires UniqueOrders(d) && Positive(d)
      modifies this`items
      ensures Valid() && items == d
    {
      items := d;
    }

    /** `findFirst` by descending order, and 0 for a plan without items. */
    method FindLast(p: PlanId) returns (last: nat)
      requires UniqueOrders(items)
      ensures IsLastOrder(items, p, last)
    {
      var listed := FindMany(items, p);
      last := if listed == [] then 0 else items[listed[|listed| - 1]].order;
      LastOfListing(items, p, listed, last);
    }

    /** One attempt: read the last order, and create the row after it in the table as it is by then. */
    method Attempt(p: PlanId, id: Id, payload: string, now: Db) returns (ok: bool, ghost last: nat)
      requires Valid() && UniqueOrders(now) && Positive(now) && id !in now
      modifies this`items
      ensures Valid() && IsLastOrder(old(items), p, last) && (ok <==> p in plans && !Taken(now, p, last + 1))
      ensures items == if ok then now[id := Row(p, last + 1, payload)] else now
    {
      var found := FindLast(p);
      last := found;
      Others(now);
      ok := Create(id, Row(p, found + 1, payload));
    }

    /** `createPlanItemWithRetry`. `meanwhile[j]` is the table as others have left it when attempt `j`, having
        read the last order, creates its row; where the transaction is isolated that is the table it read.
        `tries` attempts meet a row at the order they computed; the next one, if any is left, creates the row
        there. Without the plan the first error is passed on. */
    method CreatePlanItemWithRetry(p: PlanId, id: Id, payload: string, maxRetries: nat, meanwhile: seq<Db>)
      returns (ok: bool, ghost tries: nat)
      requires Valid() && id !in items && |meanwhile| == maxRetries
      requires AllSound(meanwhile, id)
      modifies this`items
      ensures Valid() && tries <= maxRetries && (ok <==> p in plans && tries < maxRetries)
      ensures AllOvertaken(old(items), meanwhile, tries, p)
      ensures ok ==> CreatedNext(Seen(old(items), meanwhile, tries), meanwhile[tries], p, id, payload, items)
      ensures !ok && p in plans ==> items == Seen(old(items), meanwhile, maxRetries)
      ensures p !in plans ==> items == Seen(old(items), meanwhile, if maxRetries > 0 then 1 else 0)
    {
      NoneOvertaken(items, meanwhile, p);
      hide *;
      ghost var start := items;
      SeenFirst(start, meanwhile);
      for attempt := 0 to maxRetries
        invariant Valid() && items == Seen(start, meanwhile, attempt) && (p !in plans ==> attempt == 0)
        invariant AllOvertaken(start, meanwhile, attempt, p)
      {
        SoundAt(meanwhile, id, attempt);
        ghost var last: nat;
        ok, last := Attempt(p, id, payload, meanwhile[attempt]);
        SeenNext(start, meanwhile, attempt, p, id, payload, last);
        if ok || p !in plans { return ok, attempt; }
      }
      return false, maxRetries;
    }

    /** `plans:importFromFile` after the text has been read: one item a line. `ids` are the keys that the
        database will give out, `others[i]` the table as other handlers have left it when line `i` comes to be
        added, with the plan's items `lists[i]` at orders 1..n as in every run (OrdersStayDense). `after[i]` is
        the table once the line has been added. */
    method ImportLines(p: PlanId, lines: seq<string>, ids: seq<Id>, others: seq<Db>, ghost lists: seq<seq<Id>>)
      returns (added: Option<nat>, ghost after: seq<Db>)
      requires Valid() && |ids| == |lines| == |others| == |lists|
      requires forall i | 0 <= i < |lines| :: UniqueOrders(others[i]) && Positive(others[i]) && ids[i] !in others[i]
      requires forall i | 0 <= i < |lines| :: Represents(others[i], p, lists[i])
      modifies this`items
      ensures Valid()
      ensures added == if p in plans && lines != [] then Some(|lines|) else None
      ensures added.None? ==> items == old(items)
      ensures added.Some? ==> |after| == |lines| && items == after[|lines| - 1]
      ensures added.Some? ==> forall i | 0 <= i < |lines| :: AddedLast(others[i], p, lists[i], ids[i], lines[i], after[i])
    {
      after := [];
      if p !in plans || lines == [] { return None, after; }
      hide *;
      for i := 0 to |lines|
        invariant Valid() && |after| == i && (i > 0 ==> items == after[i - 1])
        invariant forall j | 0 <= j < i :: AddedLast(others[j], p, lists[j], ids[j], lines[j], after[j])
      {
        Others(others[i]);
        var meanwhile := seq(20, _ => others[i]);
        SoundStill(others[i], ids[i], meanwhile);
        var ok, tries := CreatePlanItemWithRetry(p, ids[i], lines[i], 20, meanwhile);
        AddedAlone(others[i], p, lists[i], ids[i], lines[i], meanwhile, tries, ok, items);
        after := after + [items];
      }
      added := Some(|lines|);
    }

    /** The updates of one transaction, one row at a time. */
    method RunUpdates(s: seq<Id>) returns (ok: bool)
      requires Valid() && Distinct(s)
      modifies this`items
      ensures Valid()
      ensures ok <==> Commit(old(items), s, mode).Some?
      ensures items == if ok then Commit(old(items), s, mode).value else old(items)
    {
      var before := items;
      for i := 0 to |s|
        invariant Renumber(before, s, i, mode) == Some(items) && Positive(items)
      {
        var updated := Update(items, s[i], i + 1, mode);
        if updated.None? {
          UpdateFails(before, s, i, mode);
          items := before;
          return false;
        }
        items := updated.value;
      }
      if !UniqueOrders(items) {
        items := before;
        return false;
      }
      return true;
    }

    /** The transaction of `plans:removeItem` and `plans:removeItems`. */
    method DeleteAndRenumber(p: PlanId, ids: set<Id>) returns (ghost listed: seq<Id>)
      requires Valid()
      modifies this`items
      ensures Valid() && Removed(old(items), p, ids, listed, items, mode)
    {
      items := items - ids;
      var remaining := FindMany(items, p);
      listed := remaining;
      ListingIsDistinct(items, p, remaining);
      RenumberMakesDense(items, p, remaining, mode);
      var ok := RunUpdates(remaining);
    }

    /** `plans:removeItem` */
    method RemoveItem(p: PlanId, id: Id) returns (ok: bool)
      requires Valid()
      modifies this`items
      ensures Valid() && (ok <==> id !in old(items) || old(items)[id].plan == p)
      ensures !ok || id !in old(items) ==> items == old(items)
      ensures ok && id in old(items) ==> exists s :: Removed(old(items), p, {id}, s, items, mode)
    {
      if id !in items { return true; }
      if items[id].plan != p { return false; }
      ghost var s := DeleteAndRenumber(p, {id});
      return true;
    }

    /** `plans:removeItems` */
    method RemoveItems(p: PlanId, ids: set<Id>) returns (ok: bool)
      requires Valid()
      modifies this`items
      ensures Valid() && (ok <==> forall x | x in ids && x in old(items) :: old(items)[x].plan == p)
      ensures !ok || ids == {} ==> items == old(items)
      ensures ok && ids != {} ==> exists s :: Removed(old(items), p, ids, s, items, mode)
    {
      if ids == {} { return true; }
      if exists x :: x in ids && x in items && items[x].plan != p { return false; }
      ghost var s := DeleteAndRenumber(p, ids);
      return true;
    }

    /** The first half of `plans:reorder`: read the current ids and check the request against them. */
    method CheckReorder(p: PlanId, requested: seq<Id>) returns (accepted: bool, ghost listed: seq<Id>)
      requires Valid()
      ensures Listing(items, p, listed) && (accepted <==> Validate(listed, requested) == None)
    {
      var current := FindMany(items, p);
      listed := current;
      accepted := Validate(current, requested) == None;
    }
  }

  // ---------------------------------------------------------------- appending a row

  /** The table that attempt `j` reads. */
  function Seen(start: Db, meanwhile: seq<Db>, j: nat): Db
    requires j <= |meanwhile|
  {
    if j == 0 then start else meanwhile[j - 1]
  }

  lemma SeenFirst(start: Db, meanwhile: seq<Db>)
    ensures Seen(start, meanwhile, 0) == start
  {}

  /** What the indexes guarantee of the tables in between, where the new key is still unused. */
  predicate AllSound(meanwhile: seq<Db>, id: Id) {
    forall j | 0 <= j < |meanwhile| :: UniqueOrders(meanwhile[j]) && Positive(meanwhile[j]) && id !in meanwhile[j]
  }

  lemma SoundAt(meanwhile: seq<Db>, id: Id, j: nat)
    requires AllSound(meanwhile, id) && j < |meanwhile|
    ensures UniqueOrders(meanwhile[j]) && Positive(meanwhile[j]) && id !in meanwhile[j]
  {
    hide UniqueOrders, Positive;
  }

  lemma SoundStill(db: Db, id: Id, meanwhile: seq<Db>)
    requires UniqueOrders(db) && Positive(db) && id !in db && forall j | 0 <= j < |meanwhile| :: meanwhile[j] == db
    ensures AllSound(meanwhile, id)
  {
    hide UniqueOrders, Positive;
  }

  ghost predicate AllOvertaken(start: Db, meanwhile: seq<Db>, tries: nat, p: PlanId)
    requires tries <= |meanwhile|
  {
    forall j | 0 <= j < tries :: Overtaken(Seen(start, meanwhile, j), meanwhile[j], p)
  }

  /** The row is created after the last order read, in the table as it is by then, where that order is free. */
  ghost predicate CreatedNext(read: Db, now: Db, p: PlanId, id: Id, payload: string, after: Db) {
    exists n: nat :: IsLastOrder(read, p, n) && !Taken(now, p, n + 1) && after == now[id := Row(p, n + 1, payload)]
  }

  lemma NoneOvertaken(start: Db, meanwhile: seq<Db>, p: PlanId)
    ensures AllOvertaken(start, meanwhile, 0, p)
  {}

  /** One attempt: either its order was taken meanwhile, or the row is created there. */
  lemma SeenNext(start: Db, meanwhile: seq<Db>, j: nat, p: PlanId, id: Id, payload: string, n: nat)
    requires j < |meanwhile| && IsLastOrder(Seen(start, meanwhile, j), p, n) && AllOvertaken(start, meanwhile, j, p)
    ensures Seen(start, meanwhile, j + 1) == meanwhile[j]
    ensures Taken(meanwhile[j], p, n + 1) ==> AllOvertaken(start, meanwhile, j + 1, p)
    ensures !Taken(meanwhile[j], p, n + 1) ==>
      CreatedNext(Seen(start, meanwhile, j), meanwhile[j], p, id, payload, meanwhile[j][id := Row(p, n + 1, payload)])
  {
    hide IsLastOrder, Taken;
    assert Taken(meanwhile[j], p, n + 1) ==> Overtaken(Seen(start, meanwhile, j), meanwhile[j], p);
    hide Overtaken;
  }

  predicate Taken(db: Db, p: PlanId, order: nat) {
    exists x :: x in db && db[x].plan == p && db[x].order == order
  }

  /** The order that an attempt computes from `read` is taken by the time it creates its row. */
  ghost predicate Overtaken(read: Db, now: Db, p: PlanId) {
    exists n: nat :: IsLastOrder(read, p, n) && Taken(now, p, n + 1)
  }

  /** `after` is `db` with one more item at the end of plan `p`. */
  predicate AddedLast(db: Db, p: PlanId, s: seq<Id>, id: Id, payload: string, after: Db) {
    after == db[id := Row(p, |s| + 1, payload)] && Represents(after, p, s + [id])
  }

  lemma IsolatedNeverClashes(db: Db, p: PlanId)
    ensures !Overtaken(db, db, p)
  {}

  /** An isolated call appends its row at the first attempt. */
  lemma AddedAlone(db: Db, p: PlanId, s: seq<Id>, id: Id, payload: string, meanwhile: seq<Db>, tries: nat, ok: bool, after: Db)
    requires Represents(db, p, s) && id !in db && |meanwhile| > 0 && tries <= |meanwhile|
    requires forall j | 0 <= j < |meanwhile| :: meanwhile[j] == db
    requires AllOvertaken(db, meanwhile, tries, p) && (ok <==> tries < |meanwhile|)
    requires ok ==> CreatedNext(Seen(db, meanwhile, tries), meanwhile[tries], p, id, payload, after)
    ensures ok && tries == 0 && AddedLast(db, p, s, id, payload, after)
  {
    hide Represents, IsLastOrder, Taken, Overtaken;
    IsolatedNeverClashes(db, p);
    assert Seen(db, meanwhile, 0) == db;
    assert Seen(db, meanwhile, tries) == db;
    var n: nat :| IsLastOrder(db, p, n) && after == db[id := Row(p, n + 1, payload)];
    LastOrderOfDense(db, p, s, n);
    AddAppends(db, p, s, id, payload);
  }

  /** Why the two steps belong in one transaction: the plan stays dense exactly when the order read is still the
      last one when the row is created. */
  lemma AppendStaysDense(now: Db, p: PlanId, s: seq<Id>, n: nat, id: Id, payload: string)
    requires Represents(now, p, s) && id !in now
    ensures Dense(now[id := Row(p, n + 1, payload)], p) <==> IsLastOrder(now, p, n)
  {
    var d := now[id := Row(p, n + 1, payload)];
    LastOfDense(now, p, s);
    hide Represents, IsLastOrder;
    if IsLastOrder(now, p, n) {
      LastOrderOfDense(now, p, s, n);
      AddAppends(now, p, s, id, payload);
      assert Represents(d, p, s + [id]);
    } else if t :| Represents(d, p, t) {
      OnlyTheNextFits(now, p, s, n, id, payload, t);
    }
  }

  lemma OnlyTheNextFits(now: Db, p: PlanId, s: seq<Id>, n: nat, id: Id, payload: string, t: seq<Id>)
    requires Represents(now, p, s) && id !in now && Represents(now[id := Row(p, n + 1, payload)], p, t)
    ensures n == |s|
  {
    var d := now[id := Row(p, n + 1, payload)];
    assert Members(d, p) == Members(now, p) + {id};
    CardinalityOfDistinct(s);
    CardinalityOfDistinct(t);
    assert |t| == |s| + 1;
    assert id in ToSet(t);
    var j :| 0 <= j < |t| && t[j] == id;
    assert j == n;
    forall i | 0 <= i < |s| ensures t[i] == s[i] {
      assert s[i] in ToSet(s);
      assert s[i] in ToSet(t);
      var k :| 0 <= k < |t| && t[k] == s[i];
      assert k == i;
    }
  }

  lemma LastOfDense(db: Db, p: PlanId, s: seq<Id>)
    requires Represents(db, p, s)
    ensures IsLastOrder(db, p, |s|)
  {
    forall x | x in db && db[x].plan == p ensures db[x].order <= |s| {
      assert x in Members(db, p);
      assert x in ToSet(s);
      var i :| 0 <= i < |s| && s[i] == x;
    }
    if s != [] {
      assert s[|s| - 1] in ToSet(s);
      assert s[|s| - 1] in Members(db, p);
    }
  }

  /** The table with the first `n` lines of a file appended after order `last`. */
  function Appended(db: Db, p: PlanId, last: nat, ids: seq<Id>, lines: seq<string>, n: nat): Db
    requires n <= |ids| == |lines|
  {
    if n == 0 then db else Appended(db, p, last, ids, lines, n - 1)[ids[n - 1] := Row(p, last + n, lines[n - 1])]
  }

  /** When no other handler runs between the lines, they follow the plan's items in the order of the file. */
  lemma {:induction false} UndisturbedImport(
    db: Db, p: PlanId, before: seq<Id>, ids: seq<Id>, lines: seq<string>, others: seq<Db>, lists: seq<seq<Id>>, after: seq<Db>, n: nat)
    requires n <= |ids| == |lines| == |others| == |lists| == |after| && Represents(db, p, before)
    requires forall i | 0 <= i < n :: others[i] == Seen(db, after, i) && Represents(others[i], p, lists[i])
    requires forall i | 0 <= i < n :: AddedLast(others[i], p, lists[i], ids[i], lines[i], after[i])
    ensures Seen(db, after, n) == Appended(db, p, |before|, ids, lines, n)
    ensures Represents(Seen(db, after, n), p, before + ids[..n])
  {
    hide Represents, AddedLast, Appended;
    if n == 0 {
      SeenFirst(db, after);
      assert before + ids[..0] == before;
      NothingAppended(db, p, |before|, ids, lines);
    } else {
      UndisturbedImport(db, p, before, ids, lines, others, lists, after, n - 1);
      UndisturbedLine(db, p, before, ids, lines, others[n - 1], lists[n - 1], after[n - 1], n);
    }
  }

  lemma NothingAppended(db: Db, p: PlanId, last: nat, ids: seq<Id>, lines: seq<string>)
    requires |ids| == |lines|
    ensures Appended(db, p, last, ids, lines, 0) == db
  {}

  lemma UndisturbedLine(
    db: Db, p: PlanId, before: seq<Id>, ids: seq<Id>, lines: seq<string>, now: Db, listed: seq<Id>, after: Db, n: nat)
    requires 0 < n <= |ids| == |lines| && now == Appended(db, p, |before|, ids, lines, n - 1)
    requires Represents(now, p, listed) && Represents(now, p, before + ids[..n - 1])
    requires AddedLast(now, p, listed, ids[n - 1], lines[n - 1], after)
    ensures after == Appended(db, p, |before|, ids, lines, n) && Represents(after, p, before + ids[..n])
  {
    var expected := before + ids[..n - 1];
    RepresentsIsListing(now, p, expected);
    RepresentsIsListing(now, p, listed);
    ListingIsUnique(now, p, listed, expected);
    hide Represents;
    assert expected + [ids[n - 1]] == before + ids[..n];
  }

  lemma LastOfListing(db: Db, p: PlanId, s: seq<Id>, last: nat)
    requires Listing(db, p, s) && last == (if s == [] then 0 else db[s[|s| - 1]].order)
    ensures IsLastOrder(db, p, last)
  {
    forall x | x in db && db[x].plan == p ensures db[x].order <= last && s != [] {
      var i := InListing(db, p, s, x);
    }
    if s != [] { assert s[|s| - 1] in ToSet(s); }
  }

  lemma {:induction false} UpdateFails(db: Db, s: seq<Id>, i: nat, mode: Uniqueness)
    requires i < |s| && Renumber(db, s, i, mode).Some? && Update(Renumber(db, s, i, mode).value, s[i], i + 1, mode).None?
    ensures Commit(db, s, mode).None?
  {
    RenumberStaysNone(db, s, i + 1, |s|, mode);
  }

  lemma {:induction false} RenumberStaysNone(db: Db, s: seq<Id>, i: nat, n: nat, mode: Uniqueness)
    requires i <= n <= |s| && Renumber(db, s, i, mode).None?
    ensures Renumber(db, s, n, mode).None?
    decreases n
  {
    if i < n { RenumberStaysNone(db, s, i, n - 1, mode); }
  }

  // ---------------------------------------------------------------- interleavings

  /** The table, the plan every id was created for, the checks that have passed and may commit, and the plans
      that have been read for duplication. */
  datatype Sys = Sys(
    db: Db, home: map<Id, PlanId>, removals: set<(PlanId, Id)>, reorders: set<(PlanId, seq<Id>)>, bases: set<seq<Entry>>)

  /** The atomic steps of the handlers; ids are never used twice. */
  datatype Event =
    | AddItem(p: PlanId, id: Id, payload: string, last: nat)
    | CheckRemove(p: PlanId, id: Id)
    | CommitRemove(p: PlanId, id: Id, listed: seq<Id>)
    | RemoveBatch(p: PlanId, ids: set<Id>, listed: seq<Id>)
    | SnapshotReorder(p: PlanId, requested: seq<Id>, current: seq<Id>)
    | CommitReorder(p: PlanId, requested: seq<Id>)
    | ReadBase(p: PlanId, listed: seq<Id>)
    | Duplicate(base: seq<Entry>, p: PlanId, made: seq<Id>)

  function Entries(db: Db, listed: seq<Id>): seq<Entry>
    requires forall i | 0 <= i < |listed| :: listed[i] in db
  {
    seq(|listed|, i requires 0 <= i < |listed| => Entry(db[listed[i]].order, db[listed[i]].payload))
  }

  /** The first `n` rows of the copy of `base` created in the new plan `p`. */
  function Copied(db: Db, base: seq<Entry>, p: PlanId, ids: seq<Id>, n: nat): Db
    requires n <= |base| == |ids|
  {
    if n == 0 then db
    else Copied(db, base, p, ids, n - 1)[ids[n - 1] := Row(p, base[n - 1].order, base[n - 1].payload)]
  }

  function Housed(home: map<Id, PlanId>, ids: seq<Id>, p: PlanId): map<Id, PlanId> {
    home + map x | x in ids :: p
  }

  predicate Fires(a: Sys, e: Event, b: Sys, mode: Uniqueness) {
    match e
    case AddItem(p, id, payload, last) =>
      && id !in a.home && IsLastOrder(a.db, p, last)
      && b == a.(db := a.db[id := Row(p, last + 1, payload)], home := a.home[id := p])
    case CheckRemove(p, id) =>
      id in a.db && a.db[id].plan == p && b == a.(removals := a.removals + {(p, id)})
    case CommitRemove(p, id, listed) =>
      (p, id) in a.removals && Removed(a.db, p, {id}, listed, b.db, mode) && b == a.(db := b.db)
    case RemoveBatch(p, ids, listed) =>
      && (forall x | x in ids && x in a.db :: a.db[x].plan == p)
      && Removed(a.db, p, ids, listed, b.db, mode) && b == a.(db := b.db)
    case SnapshotReorder(p, requested, current) =>
      && Listing(a.db, p, current) && Validate(current, requested) == None
      && b == a.(reorders := a.reorders + {(p, requested)})
    case CommitReorder(p, requested) =>
      && (p, requested) in a.reorders
      && b == a.(db := match Commit(a.db, requested, mode) case None => a.db case Some(d) => d)
    case ReadBase(p, listed) =>
      Listing(a.db, p, listed) && b == a.(bases := a.bases + {Entries(a.db, listed)})
    case Duplicate(base, p, ids) =>
      && base in a.bases && |ids| == |base| && Distinct(ids) && (forall x | x in ids :: x !in a.home)
      && (forall x | x in a.home :: a.home[x] != p)
      && b == a.(db := Copied(a.db, base, p, ids, |ids|), home := Housed(a.home, ids, p))
  }

  ghost predicate AllDense(db: Db) {
    forall p :: Dense(db, p)
  }

  /** Rows belong to the plan their id was made for, so do the ids in pending requests, and every plan read
      for duplication was dense. */
  predicate Homely(a: Sys) {
    && (forall x | x in a.db :: x in a.home && a.home[x] == a.db[x].plan)
    && (forall r | r in a.removals :: r.1 in a.home && a.home[r.1] == r.0)
    && (forall r | r in a.reorders :: Distinct(r.1) && forall x | x in r.1 :: x in a.home && a.home[x] == r.0)
    && (forall base | base in a.bases :: DenseEntries(base))
  }

  ghost predicate Inv(a: Sys) {
    UniqueOrders(a.db) && Positive(a.db) && AllDense(a.db) && Homely(a)
  }

  lemma OtherPlansStayDense(db: Db, d: Db, q: PlanId)
    requires Dense(db, q)
    requires forall x :: x in d && d[x].plan == q <==> x in db && db[x].plan == q
    requires forall x | x in db && db[x].plan == q :: d[x] == db[x]
    ensures Dense(d, q)
  {
    var s :| Represents(db, q, s);
    RepresentedIsDistinct(db, q, s);
    assert Members(d, q) == Members(db, q);
    assert Represents(d, q, s);
  }

  lemma UniqueAfterAdd(db: Db, id: Id, row: Row)
    requires UniqueOrders(db) && id !in db && row.order >= 1 && IsLastOrder(db, row.plan, row.order - 1)
    ensures UniqueOrders(db[id := row])
  {
  }

  lemma AddKeepsInv(a: Sys, e: Event, b: Sys, mode: Uniqueness)
    requires Inv(a) && e.AddItem? && Fires(a, e, b, mode)
    ensures Inv(b)
  {
    hide Represents, Listing, UniqueOrders, IsLastOrder;
    UniqueAfterAdd(a.db, e.id, Row(e.p, e.last + 1, e.payload));
    assert Dense(a.db, e.p);
    var s :| Represents(a.db, e.p, s);
    LastOrderOfDense(a.db, e.p, s, e.last);
    AddAppends(a.db, e.p, s, e.id, e.payload);
    forall q ensures Dense(b.db, q) {
      assert Dense(a.db, q);
      if q == e.p { assert Represents(b.db, q, s + [e.id]); } else { OtherPlansStayDense(a.db, b.db, q); }
    }
  }

  lemma RemoveKeepsInv(a: Sys, p: PlanId, ids: set<Id>, listed: seq<Id>, b: Sys, mode: Uniqueness)
    requires Inv(a) && Removed(a.db, p, ids, listed, b.db, mode) && b == a.(db := b.db)
    requires forall x | x in ids && x in a.db :: a.db[x].plan == p
    ensures Inv(b)
  {
    hide Represents, Listing, Removed, UniqueOrders, Positive;
    assert Dense(a.db, p);
    var s :| Represents(a.db, p, s);
    RemoveFilters(a.db, p, s, ids, listed, b.db, mode);
    forall q ensures Dense(b.db, q) {
      assert Dense(a.db, q);
      if q == p { assert Represents(b.db, q, listed); } else { OtherPlansStayDense(a.db, b.db, q); }
    }
  }

  lemma SnapshotKeepsInv(a: Sys, e: Event, b: Sys, mode: Uniqueness)
    requires Inv(a) && e.SnapshotReorder? && Fires(a, e, b, mode)
    ensures Inv(b)
  {
    ListingIsDistinct(a.db, e.p, e.current);
    ValidateAcceptsPermutations(e.current, e.requested);
    DistinctByCounts(e.current, e.requested);
    PermutationBySets(e.current, e.requested);
    forall x | x in e.requested ensures x in b.home && b.home[x] == e.p {
      assert x in ToSet(e.requested);
      assert x in ToSet(e.current);
      assert x in Members(a.db, e.p);
    }
  }

  lemma ReorderKeepsInv(a: Sys, e: Event, b: Sys, mode: Uniqueness)
    requires Inv(a) && e.CommitReorder? && Fires(a, e, b, mode)
    ensures Inv(b)
  {
    hide Represents, Listing, UniqueOrders, Commit, Positive;
    assert Dense(a.db, e.p);
    var s :| Represents(a.db, e.p, s);
    if Commit(a.db, e.requested, mode).Some? {
      if mode.PerStatement? {
        ReorderPerStatement(a.db, e.p, s, e.requested);
      } else {
        ReorderAtCommit(a.db, e.p, s, e.requested);
        var r := e.requested + s[|e.requested|..];
        forall q ensures Dense(b.db, q) {
          assert Dense(a.db, q);
          if q == e.p { assert Represents(b.db, q, r); } else { OtherPlansStayDense(a.db, b.db, q); }
        }
        DenseIsPositive(b.db);
      }
    }
  }

  lemma ReadKeepsInv(a: Sys, e: Event, b: Sys, mode: Uniqueness)
    requires Inv(a) && e.ReadBase? && Fires(a, e, b, mode)
    ensures Inv(b)
  {
    hide Listing, UniqueOrders, Positive;
    assert Dense(a.db, e.p);
    var s :| Represents(a.db, e.p, s);
    RepresentsIsListing(a.db, e.p, s);
    ListingIsUnique(a.db, e.p, e.listed, s);
    assert DenseEntries(Entries(a.db, s));
  }

  lemma {:induction false} CopiedRows(db: Db, base: seq<Entry>, p: PlanId, ids: seq<Id>, n: nat)
    requires n <= |base| == |ids| && Distinct(ids) && forall i | 0 <= i < |ids| :: ids[i] !in db
    ensures var d := Copied(db, base, p, ids, n);
      && (forall i | 0 <= i < n :: ids[i] in d && d[ids[i]] == Row(p, base[i].order, base[i].payload))
      && (forall x :: x in d <==> x in db || x in ids[..n])
      && (forall x | x in db :: d[x] == db[x])
  {
    if n > 0 { CopiedRows(db, base, p, ids, n - 1); }
  }

  /** The copy of a dense plan is dense, and no other plan notices. */
  lemma DuplicateKeepsInv(a: Sys, e: Event, b: Sys, mode: Uniqueness)
    requires Inv(a) && e.Duplicate? && Fires(a, e, b, mode)
    ensures Inv(b)
  {
    CopiedIsDense(a.db, e.base, e.p, e.made);
    CopiedIsHomely(a, e.base, e.p, e.made);
    DenseIsPositive(b.db);
    DenseIsUnique(b.db);
    hide *;
    InvIs(b);
  }

  lemma InvIs(a: Sys)
    requires UniqueOrders(a.db) && Positive(a.db) && AllDense(a.db) && Homely(a)
    ensures Inv(a)
  {}

  lemma CopiedIsHomely(a: Sys, base: seq<Entry>, p: PlanId, ids: seq<Id>)
    requires Homely(a) && |ids| == |base| && Distinct(ids) && forall x | x in ids :: x !in a.home
    ensures Homely(a.(db := Copied(a.db, base, p, ids, |ids|), home := Housed(a.home, ids, p)))
  {
    hide Distinct, DenseEntries;
    CopiedRows(a.db, base, p, ids, |ids|);
    var d, home := Copied(a.db, base, p, ids, |ids|), Housed(a.home, ids, p);
    assert ids[..|ids|] == ids;
    forall x | x in d ensures x in home && home[x] == d[x].plan {
      if x in ids { var i :| 0 <= i < |ids| && ids[i] == x; }
    }
  }

  lemma CopiedIsDense(db: Db, base: seq<Entry>, p: PlanId, ids: seq<Id>)
    requires AllDense(db) && |base| == |ids| && Distinct(ids) && DenseEntries(base)
    requires forall x | x in db :: db[x].plan != p && x !in ids
    ensures AllDense(Copied(db, base, p, ids, |ids|))
  {
    hide AllDense, Distinct, DenseEntries;
    CopiedRows(db, base, p, ids, |ids|);
    assert ids[..|ids|] == ids;
    CopyKeepsDense(db, Copied(db, base, p, ids, |ids|), base, p, ids);
  }

  lemma CopyKeepsDense(db: Db, d: Db, base: seq<Entry>, p: PlanId, ids: seq<Id>)
    requires AllDense(db) && |base| == |ids| && Distinct(ids) && DenseEntries(base)
    requires forall x | x in db :: db[x].plan != p && x in d && d[x] == db[x]
    requires forall x :: x in d <==> x in db || x in ids
    requires forall i | 0 <= i < |ids| :: ids[i] in d && d[ids[i]] == Row(p, base[i].order, base[i].payload)
    ensures AllDense(d)
  {
    CopyIsDense(db, d, base, p, ids);
    forall q ensures Dense(d, q) {
      hide Represents, Distinct, DenseEntries;
      assert Dense(db, q);
      if q == p { assert Represents(d, q, ids); } else { OtherPlansStayDense(db, d, q); }
    }
  }

  lemma CopyIsDense(db: Db, d: Db, base: seq<Entry>, p: PlanId, ids: seq<Id>)
    requires |base| == |ids| && Distinct(ids) && DenseEntries(base)
    requires forall x | x in db :: db[x].plan != p && x in d && d[x] == db[x]
    requires forall x :: x in d <==> x in db || x in ids
    requires forall i | 0 <= i < |ids| :: ids[i] in d && d[ids[i]] == Row(p, base[i].order, base[i].payload)
    ensures Represents(d, p, ids)
  {
    forall x ensures x in ToSet(ids) <==> x in Members(d, p) {
      if x in ids { var i :| 0 <= i < |ids| && ids[i] == x; }
    }
  }

  lemma DenseIsUnique(db: Db)
    requires AllDense(db)
    ensures UniqueOrders(db)
  {
    forall x, y | x in db && y in db && x != y && db[x].plan == db[y].plan ensures db[x].order != db[y].order {
      var p := db[x].plan;
      assert Dense(db, p);
      var s :| Represents(db, p, s);
      assert x in Members(db, p) && y in Members(db, p);
      var i :| 0 <= i < |s| && s[i] == x;
      var j :| 0 <= j < |s| && s[j] == y;
      assert db[s[i]].order == i + 1 && db[s[j]].order == j + 1;
    }
  }

  lemma DenseIsPositive(db: Db)
    requires AllDense(db)
    ensures Positive(db)
  {
    forall x | x in db ensures db[x].order >= 1 {
      var p := db[x].plan;
      assert Dense(db, p);
      var s :| Represents(db, p, s);
      assert x in Members(db, p);
      assert x in ToSet(s);
      var i :| 0 <= i < |s| && s[i] == x;
      assert db[s[i]].order == i + 1;
    }
  }

  lemma StepKeepsInv(a: Sys, e: Event, b: Sys, mode: Uniqueness)
    requires Inv(a) && Fires(a, e, b, mode)
    ensures Inv(b)
  {
    match e
    case AddItem(_, _, _, _) => AddKeepsInv(a, e, b, mode);
    case CheckRemove(_, _) =>
    case CommitRemove(p, id, listed) => RemoveKeepsInv(a, p, {id}, listed, b, mode);
    case RemoveBatch(p, ids, listed) => RemoveKeepsInv(a, p, ids, listed, b, mode);
    case SnapshotReorder(_, _, _) => SnapshotKeepsInv(a, e, b, mode);
    case CommitReorder(_, _) => ReorderKeepsInv(a, e, b, mode);
    case ReadBase(_, _) => ReadKeepsInv(a, e, b, mode);
    case Duplicate(_, _, _) => DuplicateKeepsInv(a, e, b, mode);
  }

  predicate IsRun(states: seq<Sys>, events: seq<Event>, mode: Uniqueness) {
    |states| == |events| + 1 && forall i | 0 <= i < |events| :: Fires(states[i], events[i], states[i + 1], mode)
  }

  /** In every interleaving of add, remove, batch remove, reorder and duplication, whichever way the index is
      checked, the orders of every plan are exactly 1..n after every transaction. */
  lemma {:induction false} OrdersStayDense(states: seq<Sys>, events: seq<Event>, mode: Uniqueness, n: nat, p: PlanId)
    requires IsRun(states, events, mode) && Inv(states[0]) && n < |states|
    ensures Inv(states[n]) && Dense(states[n].db, p)
  {
    hide Inv, Fires;
    if n > 0 {
      OrdersStayDense(states, events, mode, n - 1, p);
      assert Fires(states[n - 1], events[n - 1], states[n - 1 + 1], mode);
      StepKeepsInv(states[n - 1], events[n - 1], states[n], mode);
    }
    InvIsDense(states[n], p);
  }

  lemma InvIsDense(a: Sys, p: PlanId)
    requires Inv(a)
    ensures Dense(a.db, p)
  {
  }

  /** The empty database starts such runs. */
  lemma EmptyIsInv()
    ensures Inv(Sys(map[], map[], {}, {}, {}))
  {
    forall p ensures Dense(map[], p) { assert Represents(map[], p, []); }
  }

  /** A check that passed can go stale: an item removed between snapshot and commit makes the reorder fail
      and leaves the table as it was. */
  lemma StaleReorderRollsBack(db: Db, requested: seq<Id>, x: Id, mode: Uniqueness)
    requires Distinct(requested) && x in requested && x !in db
    ensures Commit(db, requested, mode).None?
  {
    RenumberResult(db, requested, |requested|, mode);
  }

  /** A reorder that the check accepts and that nothing interferes with: checked at commit it always
      succeeds and gives the requested list; checked per statement it succeeds only when the request is
      the present list. */
  lemma UndisturbedReorder(db: Db, p: PlanId, s: seq<Id>, requested: seq<Id>)
    requires UniqueOrders(db) && Represents(db, p, s) && Validate(s, requested) == None
    ensures Commit(db, requested, AtCommit).Some? && ReorderedTo(db, p, Commit(db, requested, AtCommit).value, requested)
    ensures Commit(db, requested, PerStatement).Some? <==> requested == s
  {
    hide Represents, UniqueOrders, Commit, Validate, ReorderedTo;
    RepresentedIsDistinct(db, p, s);
    ValidateAcceptsPermutations(s, requested);
    DistinctByCounts(s, requested);
    PermutationBySets(s, requested);
    forall x | x in requested && x in db ensures db[x].plan == p {
      assert x in ToSet(requested);
      var i :| 0 <= i < |s| && s[i] == x;
    }
    ReorderAtCommit(db, p, s, requested);
    assert s[..|requested|] == s && requested + s[|requested|..] == requested;
    ReorderPerStatement(db, p, s, requested);
  }
}
