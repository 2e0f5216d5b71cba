/** The item rows of the plans and the operations that number them (plans.ts, prisma/schema.prisma).

    The table has a unique index on (planId, order). `PerStatement` checks it at every row update, as
    SQLite does; `AtCommit` only when a transaction commits. */
module Plans {
  import opened Seqs
  import opened Options
  import opened Reorder

  type PlanId = string

  datatype Row = Row(plan: PlanId, order: nat, payload: string)

  type Db = map<Id, Row>

  datatype Uniqueness = PerStatement | AtCommit

  // ---------------------------------------------------------------- listings

  predicate UniqueOrders(db: Db) {
    forall x, y | x in db && y in db && x != y :: db[x].plan == db[y].plan ==> db[x].order != db[y].order
  }

  function Members(db: Db, p: PlanId): set<Id> {
    set x | x in db && db[x].plan == p
  }

  predicate Ascending(db: Db, s: seq<Id>)
    requires forall i | 0 <= i < |s| :: s[i] in db
  {
    forall i, j | 0 <= i < j < |s| :: db[s[i]].order < db[s[j]].order
  }

  /** `s` is `findMany({ where: { planId: p }, orderBy: { order: "asc" } })`. */
  predicate Listing(db: Db, p: PlanId, s: seq<Id>) {
    ToSet(s) == Members(db, p) && (forall i | 0 <= i < |s| :: s[i] in db) && Ascending(db, s)
  }

  /** The rows of plan `p` are `s` with orders exactly 1, 2, ..., |s|. */
  predicate Represents(db: Db, p: PlanId, s: seq<Id>) {
    && Distinct(s) && ToSet(s) == Members(db, p)
    && forall i | 0 <= i < |s| :: s[i] in db && db[s[i]].order == i + 1
  }

  /** A row of a plan as the duplication of the plan copies it. */
  datatype Entry = Entry(order: nat, payload: string)

  /** The entries of a plan whose orders are 1, 2, ..., n. */
  predicate DenseEntries(entries: seq<Entry>) {
    forall i | 0 <= i < |entries| :: entries[i].order == i + 1
  }

  /** The orders of plan `p` are exactly {1..n}. */
  ghost predicate Dense(db: Db, p: PlanId) {
    exists s :: Represents(db, p, s)
  }

  lemma RepresentsIsListing(db: Db, p: PlanId, s: seq<Id>)
    requires Represents(db, p, s)
    ensures Listing(db, p, s)
  {
  }

  lemma ListingIsDistinct(db: Db, p: PlanId, s: seq<Id>)
    requires Listing(db, p, s)
    ensures Distinct(s)
  {
  }

  lemma InListing(db: Db, p: PlanId, s: seq<Id>, x: Id) returns (i: nat)
    requires Listing(db, p, s) && x in db && db[x].plan == p
    ensures i < |s| && s[i] == x
  {
    assert x in ToSet(s);
    i :| 0 <= i < |s| && s[i] == x;
  }

  /** A plan has one listing only. */
  lemma {:induction false} ListingIsUnique(db: Db, p: PlanId, s: seq<Id>, t: seq<Id>)
    requires Listing(db, p, s) && Listing(db, p, t)
    ensures s == t
  {
    ListingIsDistinct(db, p, s);
    ListingIsDistinct(db, p, t);
    CardinalityOfDistinct(s);
    CardinalityOfDistinct(t);
    forall i | 0 <= i < |s| ensures s[i] == t[i] { SameAt(db, p, s, t, i); }
  }

  lemma {:induction false} SameAt(db: Db, p: PlanId, s: seq<Id>, t: seq<Id>, i: nat)
    requires Listing(db, p, s) && Listing(db, p, t) && |s| == |t| && i < |s|
    ensures s[i] == t[i]
  {
    forall k | 0 <= k < i ensures s[k] == t[k] { SameAt(db, p, s, t, k); }
    assert s[i] in ToSet(s) && t[i] in ToSet(t);
    ListingIsDistinct(db, p, s);
    ListingIsDistinct(db, p, t);
    var a := InListing(db, p, t, s[i]);
    var b := InListing(db, p, s, t[i]);
  }

  lemma SmallestOrder(db: Db, rest: set<Id>) returns (m: Id)
    requires rest != {} && forall x | x in rest :: x in db
    ensures m in rest && forall x | x in rest :: db[m].order <= db[x].order
  {
    m :| m in rest;
    var others := rest - {m};
    if others != {} {
      var n := SmallestOrder(db, others);
      if db[n].order < db[m].order { m := n; }
    }
  }

  /** All members but `rest` are listed, each before everything in `rest`. */
  predicate ListedSoFar(db: Db, p: PlanId, s: seq<Id>, rest: set<Id>) {
    && (forall x | x in rest :: x in db)
    && ToSet(s) == Members(db, p) - rest
    && (forall i | 0 <= i < |s| :: s[i] in db) && Ascending(db, s)
    && (forall i, x | 0 <= i < |s| && x in rest :: db[s[i]].order < db[x].order)
  }

  lemma ListNext(db: Db, p: PlanId, s: seq<Id>, rest: set<Id>, m: Id)
    requires UniqueOrders(db) && rest <= Members(db, p) && ListedSoFar(db, p, s, rest)
    requires m in rest && forall x | x in rest :: db[m].order <= db[x].order
    ensures ListedSoFar(db, p, s + [m], rest - {m})
  {
    assert forall x | x in rest - {m} :: db[m].order < db[x].order;
    assert ToSet(s + [m]) == ToSet(s) + {m};
  }

  /** `findMany` with its ordering. */
  method FindMany(db: Db, p: PlanId) returns (s: seq<Id>)
    requires UniqueOrders(db)
    ensures Listing(db, p, s)
  {
    var rest := Members(db, p);
    s := [];
    while rest != {}
      invariant rest <= Members(db, p) && ListedSoFar(db, p, s, rest)
      decreases rest
    {
      ghost var smallest := SmallestOrder(db, rest);
      var m :| m in rest && forall x | x in rest :: db[m].order <= db[x].order;
      ListNext(db, p, s, rest, m);
      rest := rest - {m};
      s := s + [m];
    }
  }

  // ---------------------------------------------------------------- row updates

  predicate Clashes(db: Db, id: Id, order: nat)
    requires id in db
  {
    exists x :: x in db && x != id && db[x].plan == db[id].plan && db[x].order == order
  }

  /** `update({ where: { id }, data: { order } })`: `None` is an error (no such row, or a clash when the
      index is checked per statement), which rolls the transaction back. */
  function Update(db: Db, id: Id, order: nat, mode: Uniqueness): Option<Db> {
    if id !in db || (mode.PerStatement? && Clashes(db, id, order)) then None
    else Some(db[id := db[id].(order := order)])
  }

  /** The first `n` updates of a renumbering of `s`. */
  function Renumber(db: Db, s: seq<Id>, n: nat, mode: Uniqueness): Option<Db>
    requires n <= |s|
  {
    if n == 0 then Some(db)
    else match Renumber(db, s, n - 1, mode)
         case None => None
         case Some(d) => Update(d, s[n - 1], n, mode)
  }

  /** A transaction that renumbers `s`. */
  function Commit(db: Db, s: seq<Id>, mode: Uniqueness): Option<Db> {
    match Renumber(db, s, |s|, mode)
    case None => None
    case Some(d) => if UniqueOrders(d) then Some(d) else None
  }

  /** What renumbering the first `n` of `s` does to a row. */
  predicate RenumberedTo(db: Db, s: seq<Id>, n: nat, d: Db)
    requires n <= |s|
  {
    && d.Keys == db.Keys
    && (forall x | x in db :: d[x].plan == db[x].plan && d[x].payload == db[x].payload)
    && (forall i | 0 <= i < n :: s[i] in db && d[s[i]].order == i + 1)
    && (forall x | x in db && x !in s[..n] :: d[x] == db[x])
  }

  lemma {:induction false} RenumberResult(db: Db, s: seq<Id>, n: nat, mode: Uniqueness)
    requires n <= |s| && Distinct(s)
    ensures Renumber(db, s, n, mode).Some? ==> RenumberedTo(db, s, n, Renumber(db, s, n, mode).value)
    ensures mode.AtCommit? ==> (Renumber(db, s, n, mode).Some? <==> forall i | 0 <= i < n :: s[i] in db)
  {
    if n > 0 {
      RenumberResult(db, s, n - 1, mode);
      InitLast(s[..n]);
      assert s[..n][..n - 1] == s[..n - 1];
      assert forall i | 0 <= i < n :: s[..n][i] == s[i];
    }
  }

  lemma OrderAtLeastPlace(db: Db, p: PlanId, s: seq<Id>, i: nat)
    requires Listing(db, p, s) && i < |s| && forall x | x in db :: db[x].order >= 1
    ensures db[s[i]].order >= i + 1
    decreases i
  {
    if i > 0 { OrderAtLeastPlace(db, p, s, i - 1); }
  }

  predicate Positive(db: Db) {
    forall x | x in db :: db[x].order >= 1
  }

  /** Renumbering a listing upwards never lets two items of a plan have the same order, not even midway. */
  lemma {:induction false} RenumberNeverClashes(db: Db, p: PlanId, s: seq<Id>, n: nat, mode: Uniqueness)
    requires UniqueOrders(db) && Positive(db) && Listing(db, p, s) && n <= |s|
    ensures Renumber(db, s, n, mode).Some? && UniqueOrders(Renumber(db, s, n, mode).value)
  {
    if n > 0 {
      RenumberNeverClashes(db, p, s, n - 1, mode);
      ListingIsDistinct(db, p, s);
      RenumberResult(db, s, n - 1, mode);
      var d := Renumber(db, s, n - 1, mode).value;
      hide *;
      ListedIsThere(db, p, s, n - 1);
      SameIds(db, s, n - 1, d);
      NobodyHasNext(db, p, s, n - 1, d);
      StillUnique(d, s[n - 1], n);
      RenumberStep(db, s, n, mode, d);
    }
  }

  lemma RenumberStep(db: Db, s: seq<Id>, n: nat, mode: Uniqueness, d: Db)
    requires 0 < n <= |s| && Renumber(db, s, n - 1, mode) == Some(d)
    requires s[n - 1] in d && !Clashes(d, s[n - 1], n)
    ensures Renumber(db, s, n, mode) == Some(d[s[n - 1] := d[s[n - 1]].(order := n)])
  {
    hide Clashes;
  }

  lemma SameIds(db: Db, s: seq<Id>, n: nat, d: Db)
    requires n <= |s| && RenumberedTo(db, s, n, d)
    ensures d.Keys == db.Keys
  {}

  lemma ListedIsThere(db: Db, p: PlanId, s: seq<Id>, i: nat)
    requires Listing(db, p, s) && i < |s|
    ensures s[i] in db && db[s[i]].plan == p
  {
    assert s[i] in ToSet(s);
  }

  lemma NobodyHasNext(db: Db, p: PlanId, s: seq<Id>, k: nat, d: Db)
    requires UniqueOrders(db) && Positive(db) && Listing(db, p, s) && k < |s| && Distinct(s)
    requires RenumberedTo(db, s, k, d)
    ensures !Clashes(d, s[k], k + 1)
  {
    OrderAtLeastPlace(db, p, s, k);
    assert s[k] in Members(db, p);
    forall x | x in d && x != s[k] && d[x].plan == p ensures d[x].order != k + 1 {
      var i := InListing(db, p, s, x);
      if i < k {
        assert d[s[i]].order == i + 1;
      } else {
        assert x !in s[..k] by { assert forall j | 0 <= j < k :: s[..k][j] == s[j]; }
        assert db[s[k]].order < db[s[i]].order;
      }
    }
  }

  lemma StillUnique(d: Db, id: Id, order: nat)
    requires UniqueOrders(d) && id in d && !Clashes(d, id, order)
    ensures UniqueOrders(d[id := d[id].(order := order)])
  {
  }

  /** After renumbering its listing a plan is dense, in the same sequence, and nothing else has changed. */
  lemma RenumberMakesDense(db: Db, p: PlanId, s: seq<Id>, mode: Uniqueness)
    requires UniqueOrders(db) && Positive(db) && Listing(db, p, s)
    ensures Commit(db, s, mode).Some?
    ensures var d := Commit(db, s, mode).value;
            && UniqueOrders(d) && Positive(d) && Represents(d, p, s) && d.Keys == db.Keys
            && (forall x | x in db && db[x].plan != p :: d[x] == db[x])
            && (forall x | x in db :: d[x].plan == db[x].plan && d[x].payload == db[x].payload)
  {
    ListingIsDistinct(db, p, s);
    RenumberNeverClashes(db, p, s, |s|, mode);
    RenumberResult(db, s, |s|, mode);
    var d := Commit(db, s, mode).value;
    assert s[..|s|] == s;
    assert Members(d, p) == Members(db, p);
    forall x | x in db && db[x].plan != p ensures x !in s { assert x !in ToSet(s); }
  }

  // ---------------------------------------------------------------- when a reorder commits

  lemma {:induction false} PerStatementPrefix(db: Db, p: PlanId, s: seq<Id>, requested: seq<Id>, n: nat)
    requires UniqueOrders(db) && Represents(db, p, s) && Distinct(requested) && n <= |requested|
    requires forall x | x in requested && x in db :: db[x].plan == p
    ensures Renumber(db, requested, n, PerStatement).Some? <==> n <= |s| && requested[..n] == s[..n]
    ensures Renumber(db, requested, n, PerStatement).Some? ==> Renumber(db, requested, n, PerStatement).value == db
  {
    if n > 0 {
      PerStatementPrefix(db, p, s, requested, n - 1);
      var x := requested[n - 1];
      assert requested[..n] == requested[..n - 1] + [x];
      if n <= |s| {
        assert s[..n] == s[..n - 1] + [s[n - 1]];
        assert s[n - 1] in ToSet(s);
        if x == s[n - 1] { assert db[x := db[x].(order := n)] == db; }
      }
      assert x !in requested[..n - 1] by { assert forall i | 0 <= i < n - 1 :: requested[..n - 1][i] == requested[i]; }
      assert x in db ==> x in Members(db, p);
      assert x in Members(db, p) ==> x in ToSet(s);
    }
  }

  /** With the index checked at every statement a reorder commits only when it changes nothing: its ids
      must be the first ones of the list, in their present order. */
  lemma ReorderPerStatement(db: Db, p: PlanId, s: seq<Id>, requested: seq<Id>)
    requires UniqueOrders(db) && Represents(db, p, s) && Distinct(requested)
    requires forall x | x in requested && x in db :: db[x].plan == p
    ensures Commit(db, requested, PerStatement).Some? <==> requested <= s
    ensures Commit(db, requested, PerStatement).Some? ==> Commit(db, requested, PerStatement).value == db
  {
    PerStatementPrefix(db, p, s, requested, |requested|);
    assert requested[..|requested|] == requested;
  }

  /** The rows of plan `p` after a reorder that has been applied in full. */
  predicate ReorderedTo(db: Db, p: PlanId, d: Db, s: seq<Id>) {
    && UniqueOrders(d) && Represents(d, p, s) && d.Keys == db.Keys
    && (forall x | x in db && db[x].plan != p :: d[x] == db[x])
    && (forall x | x in db :: d[x].plan == db[x].plan && d[x].payload == db[x].payload)
  }

  /** With the index checked at commit a reorder commits exactly when its ids are the first ones of the
      list, in any order; then they come first, as requested, and what was added since follows. */
  lemma ReorderAtCommit(db: Db, p: PlanId, s: seq<Id>, requested: seq<Id>)
    requires UniqueOrders(db) && Represents(db, p, s) && Distinct(requested)
    requires forall x | x in requested && x in db :: db[x].plan == p
    ensures Commit(db, requested, AtCommit).Some? <==>
              |requested| <= |s| && ToSet(requested) == ToSet(s[..|requested|])
    ensures Commit(db, requested, AtCommit).Some? ==>
              ReorderedTo(db, p, Commit(db, requested, AtCommit).value, requested + s[|requested|..])
  {
    var k := |requested|;
    RenumberResult(db, requested, k, AtCommit);
    assert requested[..k] == requested;
    if k <= |s| && ToSet(requested) == ToSet(s[..k]) {
      PrefixReorderCommits(db, p, s, requested);
    } else if Commit(db, requested, AtCommit).Some? {
      CommittedIsPrefix(db, p, s, requested);
    }
  }

  lemma CommittedIsPrefix(db: Db, p: PlanId, s: seq<Id>, requested: seq<Id>)
    requires Represents(db, p, s) && Distinct(requested)
    requires forall x | x in requested && x in db :: db[x].plan == p
    requires Commit(db, requested, AtCommit).Some?
    ensures |requested| <= |s| && ToSet(requested) == ToSet(s[..|requested|])
  {
    hide Represents, Commit, Renumber;
    var k := |requested|;
    CommitResult(db, requested);
    var d := Commit(db, requested, AtCommit).value;
    RequestedAreMembers(db, p, s, requested);
    CardinalityOfDistinct(requested);
    RepresentedIsDistinct(db, p, s);
    CardinalityOfDistinct(s);
    SubsetCardinality(ToSet(requested), ToSet(s));
    forall j | 0 <= j < k ensures s[j] in requested { SlotIsRequested(db, p, s, requested, d, j); }
    assert forall j | 0 <= j < k :: s[..k][j] == s[j];
    assert ToSet(s[..k]) <= ToSet(requested);
    CardinalityOfDistinct(s[..k]);
    EqualCardinalitySubset(ToSet(s[..k]), ToSet(requested));
  }

  lemma RepresentedIsDistinct(db: Db, p: PlanId, s: seq<Id>)
    requires Represents(db, p, s)
    ensures Distinct(s)
    ensures forall i | 0 <= i < |s| :: s[i] in db && db[s[i]].plan == p && db[s[i]].order == i + 1
  {
    forall i | 0 <= i < |s| ensures db[s[i]].plan == p { assert s[i] in ToSet(s); }
  }

  lemma SubsetCardinality<T>(a: set<T>, b: set<T>)
    requires a <= b
    ensures |a| <= |b|
  {
    assert |b - a| == |b| - |a|;
  }

  lemma CommitResult(db: Db, requested: seq<Id>)
    requires Distinct(requested) && Commit(db, requested, AtCommit).Some?
    ensures var d := Commit(db, requested, AtCommit).value;
            UniqueOrders(d) && RenumberedTo(db, requested, |requested|, d)
    ensures forall i | 0 <= i < |requested| :: requested[i] in db
  {
    RenumberResult(db, requested, |requested|, AtCommit);
  }

  lemma RequestedAreMembers(db: Db, p: PlanId, s: seq<Id>, requested: seq<Id>)
    requires Represents(db, p, s) && forall i | 0 <= i < |requested| :: requested[i] in db
    requires forall x | x in requested && x in db :: db[x].plan == p
    ensures ToSet(requested) <= ToSet(s)
  {
  }

  lemma SlotIsRequested(db: Db, p: PlanId, s: seq<Id>, requested: seq<Id>, d: Db, j: nat)
    requires Represents(db, p, s) && j < |requested| && j < |s|
    requires forall x | x in requested && x in db :: db[x].plan == p
    requires UniqueOrders(d) && RenumberedTo(db, requested, |requested|, d)
    ensures s[j] in requested
  {
    hide Represents;
    RepresentedIsDistinct(db, p, s);
    assert requested[..|requested|] == requested;
    var y := requested[j];
    assert y in requested && y in db && d[y].plan == p && d[y].order == j + 1;
    assert s[j] in d && d[s[j]].plan == p && db[s[j]].order == j + 1;
    if s[j] != y { assert d[s[j]].order != d[y].order; }
  }

  lemma PrefixReorderCommits(db: Db, p: PlanId, s: seq<Id>, requested: seq<Id>)
    requires UniqueOrders(db) && Represents(db, p, s) && Distinct(requested)
    requires |requested| <= |s| && ToSet(requested) == ToSet(s[..|requested|])
    ensures Commit(db, requested, AtCommit).Some?
    ensures ReorderedTo(db, p, Commit(db, requested, AtCommit).value, requested + s[|requested|..])
  {
    hide Represents, Renumber, UniqueOrders;
    var k := |requested|;
    RepresentedIsDistinct(db, p, s);
    forall i | 0 <= i < k ensures requested[i] in db && db[requested[i]].plan == p {
      assert requested[i] in ToSet(s[..k]);
      var j :| 0 <= j < k && s[..k][j] == requested[i];
      assert s[j] == requested[i];
    }
    RenumberResult(db, requested, k, AtCommit);
    var d := Renumber(db, requested, k, AtCommit).value;
    assert requested[..k] == requested;
    ReorderRepresents(db, p, s, requested, d);
    RepresentsKeepsUnique(db, p, d, requested + s[k..]);
  }

  lemma ReorderRepresents(db: Db, p: PlanId, s: seq<Id>, requested: seq<Id>, d: Db)
    requires Represents(db, p, s) && Distinct(requested) && |requested| <= |s|
    requires ToSet(requested) == ToSet(s[..|requested|]) && RenumberedTo(db, requested, |requested|, d)
    ensures Represents(d, p, requested + s[|requested|..])
    ensures forall x | x in db && db[x].plan != p :: d[x] == db[x]
  {
    var k := |requested|;
    var r := requested + s[k..];
    hide Represents, RenumberedTo, Members;
    RepresentedIsDistinct(db, p, s);
    SameElements(s, requested);
    SameMembers(db, p, s, requested, d);
    forall i | 0 <= i < |r| ensures r[i] in d && d[r[i]].order == i + 1 { SlotAfterReorder(db, p, s, requested, d, i); }
    RebuildRepresents(d, p, r);
    forall x | x in db && db[x].plan != p ensures d[x] == db[x] { OutsiderUntouched(db, p, s, requested, d, x); }
  }

  lemma RebuildRepresents(d: Db, p: PlanId, r: seq<Id>)
    requires ToSet(r) == Members(d, p) && forall i | 0 <= i < |r| :: r[i] in d && d[r[i]].order == i + 1
    ensures Represents(d, p, r)
  {
  }

  lemma SameElements(s: seq<Id>, requested: seq<Id>)
    requires |requested| <= |s| && ToSet(requested) == ToSet(s[..|requested|])
    ensures ToSet(requested + s[|requested|..]) == ToSet(s)
  {
    var k := |requested|;
    assert s == s[..k] + s[k..];
    assert ToSet(requested + s[k..]) == ToSet(requested) + ToSet(s[k..]);
    assert ToSet(s[..k] + s[k..]) == ToSet(s[..k]) + ToSet(s[k..]);
  }

  lemma SameMembers(db: Db, p: PlanId, s: seq<Id>, requested: seq<Id>, d: Db)
    requires Represents(db, p, s) && RenumberedTo(db, requested, |requested|, d)
    ensures Members(d, p) == Members(db, p) == ToSet(s)
  {
  }

  lemma SlotAfterReorder(db: Db, p: PlanId, s: seq<Id>, requested: seq<Id>, d: Db, i: nat)
    requires Represents(db, p, s) && |requested| <= |s| && i < |s|
    requires ToSet(requested) == ToSet(s[..|requested|]) && RenumberedTo(db, requested, |requested|, d)
    ensures var r := requested + s[|requested|..]; r[i] in d && d[r[i]].order == i + 1
  {
    hide Represents;
    RepresentedIsDistinct(db, p, s);
    var k := |requested|;
    assert requested[..k] == requested;
    if i >= k {
      TailNotInPrefix(s, k, i);
      assert s[i] !in ToSet(requested);
    }
  }

  lemma OutsiderUntouched(db: Db, p: PlanId, s: seq<Id>, requested: seq<Id>, d: Db, x: Id)
    requires Represents(db, p, s) && |requested| <= |s| && x in db && db[x].plan != p
    requires ToSet(requested) == ToSet(s[..|requested|]) && RenumberedTo(db, requested, |requested|, d)
    ensures d[x] == db[x]
  {
    assert x !in ToSet(s);
    assert forall y | y in s[..|requested|] :: y in s;
    assert x !in ToSet(s[..|requested|]);
    assert x !in ToSet(requested);
    assert requested[..|requested|] == requested;
  }

  lemma TailNotInPrefix(s: seq<Id>, k: nat, i: nat)
    requires Distinct(s) && k <= i < |s|
    ensures s[i] !in ToSet(s[..k])
  {
    assert forall j | 0 <= j < k :: s[..k][j] == s[j];
  }

  lemma RepresentsKeepsUnique(db: Db, p: PlanId, d: Db, r: seq<Id>)
    requires UniqueOrders(db) && Represents(d, p, r) && d.Keys == db.Keys
    requires forall x | x in db :: d[x].plan == db[x].plan
    requires forall x | x in db && db[x].plan != p :: d[x] == db[x]
    ensures UniqueOrders(d)
  {
    forall x, y | x in d && y in d && x != y && d[x].plan == d[y].plan ensures d[x].order != d[y].order {
      if d[x].plan == p {
        assert x in ToSet(r) && y in ToSet(r);
        var i :| 0 <= i < |r| && r[i] == x;
        var j :| 0 <= j < |r| && r[j] == y;
        assert d[r[i]].order == i + 1 && d[r[j]].order == j + 1;
      }
    }
  }

  // ---------------------------------------------------------------- adding and removing

  /** `n` is the last order of the plan, 0 when it has no item. */
  predicate IsLastOrder(db: Db, p: PlanId, n: nat) {
    && (forall x | x in db && db[x].plan == p :: db[x].order <= n)
    && (n > 0 ==> exists x :: x in db && db[x].plan == p && db[x].order == n)
  }

  lemma LastOrderOfDense(db: Db, p: PlanId, s: seq<Id>, n: nat)
    requires Represents(db, p, s) && IsLastOrder(db, p, n)
    ensures n == |s|
  {
    RepresentedIsDistinct(db, p, s);
    if n > 0 {
      var x :| x in db && db[x].plan == p && db[x].order == n;
      assert x in ToSet(s);
    }
    if |s| > 0 { assert db[s[|s| - 1]].order == |s|; }
  }

  lemma AddAppends(db: Db, p: PlanId, s: seq<Id>, id: Id, payload: string)
    requires Represents(db, p, s) && id !in db
    ensures Represents(db[id := Row(p, |s| + 1, payload)], p, s + [id])
  {
    var d := db[id := Row(p, |s| + 1, payload)];
    assert id !in s by { assert id !in ToSet(s); }
    assert ToSet(s + [id]) == ToSet(s) + {id};
    assert Members(d, p) == Members(db, p) + {id};
  }

  /** `s` without the removed ids, in the same order. */
  function Without(s: seq<Id>, ids: set<Id>): (r: seq<Id>)
    ensures forall x :: x in r <==> x in s && x !in ids
  {
    if s == [] then [] else Without(s[..|s| - 1], ids) + (if s[|s| - 1] in ids then [] else [s[|s| - 1]])
  }

  lemma {:induction false} WithoutAscends(db: Db, s: seq<Id>, ids: set<Id>)
    requires (forall i | 0 <= i < |s| :: s[i] in db) && Ascending(db, s)
    ensures (forall i | 0 <= i < |Without(s, ids)| :: Without(s, ids)[i] in db) && Ascending(db, Without(s, ids))
  {
    if s != [] {
      var init := s[..|s| - 1];
      assert forall i | 0 <= i < |init| :: init[i] == s[i];
      WithoutAscends(db, init, ids);
      var w := Without(init, ids);
      forall i | 0 <= i < |w| ensures db[w[i]].order < db[s[|s| - 1]].order {
        assert w[i] in init;
        var j :| 0 <= j < |init| && init[j] == w[i];
        assert s[j] == w[i];
      }
    }
  }

  /** What is left after a deletion is listed by filtering the old list. */
  lemma ListingAfterDelete(db: Db, p: PlanId, s: seq<Id>, ids: set<Id>)
    requires Listing(db, p, s)
    ensures Listing(db - ids, p, Without(s, ids))
  {
    WithoutAscends(db, s, ids);
    var w := Without(s, ids);
    assert ToSet(w) == Members(db - ids, p) by {
      forall x ensures x in ToSet(w) <==> x in Members(db - ids, p) { assert x in s <==> x in ToSet(s); }
    }
    assert forall i | 0 <= i < |w| :: w[i] in s && w[i] !in ids;
  }

  /** The transaction of `removeItem` and `removeItems`: delete, list what remains, renumber it. */
  predicate Removed(db: Db, p: PlanId, ids: set<Id>, s: seq<Id>, d: Db, mode: Uniqueness) {
    Listing(db - ids, p, s) && Commit(db - ids, s, mode) == Some(d)
  }

  lemma RemoveFilters(db: Db, p: PlanId, s: seq<Id>, ids: set<Id>, listed: seq<Id>, d: Db, mode: Uniqueness)
    requires UniqueOrders(db) && Positive(db) && Represents(db, p, s) && Removed(db, p, ids, listed, d, mode)
    ensures listed == Without(s, ids) && Represents(d, p, listed) && UniqueOrders(d) && Positive(d)
    ensures d.Keys == db.Keys - ids
    ensures forall x | x in d :: d[x].plan == db[x].plan && d[x].payload == db[x].payload
    ensures forall x | x in d && db[x].plan != p :: d[x] == db[x]
  {
    hide Renumber, Commit;
    RepresentsIsListing(db, p, s);
    ListingAfterDelete(db, p, s, ids);
    ListingIsUnique(db - ids, p, listed, Without(s, ids));
    RenumberMakesDense(db - ids, p, listed, mode);
  }
}
