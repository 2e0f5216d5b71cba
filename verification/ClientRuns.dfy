/** Every interleaving of the client's calls with the server's transactions: the calls of PlanContext.tsx cut at
    their awaits, and the handlers of plans.ts that answer them. */
module ClientRuns {
  import opened Options
  import opened Reorder
  import opened Plans
  import opened PlanRuns
  import opened PlanClient

  datatype Call = ADD(id: Id, payload: string) | REMOVE(item: Id) | REMOVE_MANY(items: set<Id>) | REORDER(requested: seq<Id>)

  /** How far a call is: on its way to the server, past the handler's check, answered, refreshing, and with the
      refreshed list on its way back. */
  datatype Stage = SENT | CHECKED | ANSWERED(ok: bool) | REFRESHING | READ(listed: seq<Id>)

  datatype Pending = Pending(call: Call, stage: Stage)

  /** The client's list, the server's table and the calls in flight. */
  datatype Desk = Desk(plan: seq<Id>, db: Db, calls: map<nat, Pending>)

  datatype Event =
    | Begin(t: nat, call: Call)
    | Checks(t: nat, current: seq<Id>)
    | Commits(t: nat, last: nat, remaining: seq<Id>)
    | Fails(t: nat)
    | Answers(t: nat)
    | Reads(t: nat, listed: seq<Id>)
    | Shows(t: nat)

  /** What the client shows before the server has answered. */
  function Optimistic(call: Call, plan: seq<Id>): seq<Id> {
    match call
    case ADD(_, _) => plan
    case REMOVE(id) => Filtered(plan, {id})
    case REMOVE_MANY(ids) => Filtered(plan, ids)
    case REORDER(requested) => SortedBy(requested, plan)
  }

  predicate At(a: Desk, t: nat, stage: Stage) {
    t in a.calls && a.calls[t].stage == stage
  }

  function Move(a: Desk, t: nat, stage: Stage): Desk
    requires t in a.calls
  {
    a.(calls := a.calls[t := Pending(a.calls[t].call, stage)])
  }

  /** An added item is refreshed, a refused change is rolled back by a refresh. */
  predicate Refreshes(call: Call, ok: bool) {
    ok == call.ADD?
  }

  /** The check that `plans:removeItem` and `plans:reorder` make before their transaction. */
  function Checked(call: Call, db: Db, p: PlanId, current: seq<Id>): Stage {
    match call
    case REMOVE(id) => if id !in db then ANSWERED(true) else if db[id].plan == p then CHECKED else ANSWERED(false)
    case REORDER(requested) => if Validate(current, requested) == None then CHECKED else ANSWERED(false)
    case _ => SENT
  }

  /** The transaction of a handler: it turns `db` into `d` and succeeds, or changes nothing and fails. */
  predicate Committed(call: Call, db: Db, p: PlanId, last: nat, remaining: seq<Id>, d: Db, ok: bool, mode: Uniqueness) {
    match call
    case ADD(id, payload) =>
      ok && id !in db && IsLastOrder(db, p, last) && d == db[id := Row(p, last + 1, payload)]
    case REMOVE(id) => ok && Removed(db, p, {id}, remaining, d, mode)
    case REMOVE_MANY(ids) =>
      && (ok <==> forall x | x in ids && x in db :: db[x].plan == p)
      && (if ok then Removed(db, p, ids, remaining, d, mode) else d == db)
    case REORDER(requested) =>
      && ok == Commit(db, requested, mode).Some?
      && d == (if ok then Commit(db, requested, mode).value else db)
  }

  ghost predicate Fires(a: Desk, e: Event, b: Desk, p: PlanId, mode: Uniqueness) {
    match e
    case Begin(t, call) =>
      && t !in a.calls && call != REMOVE_MANY({})
      && b == a.(plan := Optimistic(call, a.plan), calls := a.calls[t := Pending(call, SENT)])
    case Checks(t, current) =>
      && At(a, t, SENT) && (a.calls[t].call.REMOVE? || a.calls[t].call.REORDER?) && Listing(a.db, p, current)
      && b == Move(a, t, Checked(a.calls[t].call, a.db, p, current))
    case Commits(t, last, remaining) =>
      && t in a.calls
      && a.calls[t].stage == (if a.calls[t].call.REMOVE? || a.calls[t].call.REORDER? then CHECKED else SENT)
      && exists ok: bool ::
           && Committed(a.calls[t].call, a.db, p, last, remaining, b.db, ok, mode)
           && b == Move(a, t, ANSWERED(ok)).(db := b.db)
    case Fails(t) => (At(a, t, SENT) || At(a, t, CHECKED)) && b == Move(a, t, ANSWERED(false))
    case Answers(t) =>
      && t in a.calls && a.calls[t].stage.ANSWERED?
      && b == (if Refreshes(a.calls[t].call, a.calls[t].stage.ok) then Move(a, t, REFRESHING) else a.(calls := a.calls - {t}))
    case Reads(t, listed) => At(a, t, REFRESHING) && Listing(a.db, p, listed) && b == Move(a, t, READ(listed))
    case Shows(t) =>
      && t in a.calls && a.calls[t].stage.READ?
      && b == a.(plan := a.calls[t].stage.listed, calls := a.calls - {t})
  }

  /** At most `n` calls are in flight at a time, and all starts from a client in step with its server. */
  ghost predicate Run(n: nat, desks: seq<Desk>, events: seq<Event>, p: PlanId, mode: Uniqueness) {
    && |desks| == |events| + 1
    && desks[0].calls == map[] && AllDense(desks[0].db) && InStep(desks[0].plan, desks[0].db, p)
    && forall i | 0 <= i < |events| ::
         && Fires(desks[i], events[i], desks[i + 1], p, mode)
         && (events[i].Begin? ==> |desks[i].calls| < n)
  }

  // ---------------------------------------------------------------- the table stays dense

  /** The handlers' view of the table, with nothing pending. */
  function Alone(db: Db): Sys {
    Sys(db, map x | x in db :: db[x].plan, {}, {}, {})
  }

  lemma AloneIsInv(db: Db)
    requires AllDense(db)
    ensures Inv(Alone(db)) && UniqueOrders(db) && Positive(db)
  {
    DenseIsUnique(db);
    DenseIsPositive(db);
    hide AllDense, UniqueOrders, Positive;
  }

  lemma AddStaysDense(db: Db, p: PlanId, last: nat, id: Id, payload: string, mode: Uniqueness)
    requires AllDense(db) && id !in db && IsLastOrder(db, p, last)
    ensures AllDense(db[id := Row(p, last + 1, payload)])
  {
    AloneIsInv(db);
    var a := Alone(db);
    var e := AddItem(p, id, payload, last);
    var b := a.(db := db[id := Row(p, last + 1, payload)], home := a.home[id := p]);
    hide AllDense, UniqueOrders, Positive, IsLastOrder, Inv;
    assert PlanRuns.Fires(a, e, b, mode);
    AddKeepsInv(a, e, b, mode);
    InvIsAllDense(b);
  }

  lemma InvIsAllDense(a: Sys)
    requires Inv(a)
    ensures AllDense(a.db)
  {}

  lemma RemoveStaysDense(db: Db, p: PlanId, ids: set<Id>, remaining: seq<Id>, d: Db, mode: Uniqueness)
    requires AllDense(db) && Removed(db, p, ids, remaining, d, mode)
    requires forall x | x in ids && x in db :: db[x].plan == p
    ensures AllDense(d)
  {
    AloneIsInv(db);
    hide AllDense, UniqueOrders, Positive, Removed, Inv;
    RemoveKeepsInv(Alone(db), p, ids, remaining, Alone(db).(db := d), mode);
    InvIsAllDense(Alone(db).(db := d));
  }

  lemma ReorderStaysDense(db: Db, p: PlanId, before: seq<Id>, requested: seq<Id>, mode: Uniqueness)
    requires AllDense(db) && Represents(db, p, before) && Validate(before, requested) == None
    ensures Commit(db, requested, mode).Some? ==> AllDense(Commit(db, requested, mode).value)
  {
    AloneIsInv(db);
    RequestIsHome(db, p, before, requested);
    var a := Alone(db).(reorders := {(p, requested)});
    var e := CommitReorder(p, requested);
    var b := a.(db := match Commit(db, requested, mode) case None => db case Some(d) => d);
    hide AllDense, UniqueOrders, Positive, Commit, Represents, Validate, Distinct;
    assert PlanRuns.Fires(a, e, b, mode);
    ReorderKeepsInv(a, e, b, mode);
    InvIsAllDense(b);
  }

  lemma RequestIsHome(db: Db, p: PlanId, before: seq<Id>, requested: seq<Id>)
    requires Represents(db, p, before) && Validate(before, requested) == None
    ensures Distinct(requested) && Distinct(before) && forall x | x in requested :: x in db && db[x].plan == p
    ensures multiset(requested) == multiset(before)
  {
    RepresentedIsDistinct(db, p, before);
    ValidateAcceptsPermutations(before, requested);
    DistinctByCounts(before, requested);
    PermutationBySets(before, requested);
    hide Validate;
    forall x | x in requested ensures x in db && db[x].plan == p {
      assert x in ToSet(requested);
      assert x in ToSet(before);
      assert x in Members(db, p);
    }
  }

  // ---------------------------------------------------------------- one call at a time

  /** What a call in flight knows, by its stage. */
  ghost predicate OnItsWay(plan: seq<Id>, db: Db, p: PlanId, c: Pending) {
    match c.stage
    case SENT => exists before :: Represents(db, p, before) && plan == Optimistic(c.call, before)
    case CHECKED => exists before ::
      && Represents(db, p, before) && plan == Optimistic(c.call, before)
      && (c.call.REMOVE? ==> c.call.item in db && db[c.call.item].plan == p)
      && (c.call.REORDER? ==> Validate(before, c.call.requested) == None)
    case ANSWERED(ok) => Refreshes(c.call, ok) || Represents(db, p, plan)
    case REFRESHING => true
    case READ(listed) => Represents(db, p, listed)
  }

  ghost predicate Steady(a: Desk, p: PlanId) {
    && AllDense(a.db)
    && (forall t, u | t in a.calls && u in a.calls :: t == u)
    && (a.calls == map[] ==> InStep(a.plan, a.db, p))
    && (forall t | t in a.calls :: OnItsWay(a.plan, a.db, p, a.calls[t]))
  }

  /** The optimistic list is what the server's transaction makes of its own. */
  lemma CommitSettles(plan: seq<Id>, db: Db, p: PlanId, call: Call, before: seq<Id>, last: nat, remaining: seq<Id>, d: Db,
                      ok: bool, mode: Uniqueness)
    requires AllDense(db) && Represents(db, p, before) && plan == Optimistic(call, before)
    requires call.REMOVE? ==> call.item in db && db[call.item].plan == p
    requires call.REORDER? ==> Validate(before, call.requested) == None
    requires Committed(call, db, p, last, remaining, d, ok, mode)
    ensures AllDense(d) && (Refreshes(call, ok) || Represents(d, p, plan))
  {
    AloneIsInv(db);
    hide AllDense, UniqueOrders, Positive, Represents, Removed, Commit, IsLastOrder, Validate, Alone, Inv, Filtered, SortedBy, Without;
    match call
    case ADD(id, payload) => AddStaysDense(db, p, last, id, payload, mode);
    case REMOVE(id) =>
      RemoveStaysDense(db, p, {id}, remaining, d, mode);
      RemoveFilters(db, p, before, {id}, remaining, d, mode);
      FilteredIsWithout(before, {id});
    case REMOVE_MANY(ids) =>
      if ok {
        RemoveStaysDense(db, p, ids, remaining, d, mode);
        RemoveFilters(db, p, before, ids, remaining, d, mode);
        FilteredIsWithout(before, ids);
      }
    case REORDER(requested) =>
      ReorderStaysDense(db, p, before, requested, mode);
      RequestIsHome(db, p, before, requested);
      CommittedReorder(db, p, before, requested, mode);
      SortByPermutation(requested, before);
  }

  lemma CheckSettles(plan: seq<Id>, db: Db, p: PlanId, call: Call, before: seq<Id>, current: seq<Id>)
    requires Represents(db, p, before) && plan == Optimistic(call, before) && Listing(db, p, current)
    requires call.REMOVE? || call.REORDER?
    ensures OnItsWay(plan, db, p, Pending(call, Checked(call, db, p, current)))
  {
    RepresentsIsListing(db, p, before);
    ListingIsUnique(db, p, current, before);
    if call.REMOVE? && call.item !in db {
      NothingToRemove(db, p, before, {call.item});
      FilteredIsWithout(before, {call.item});
    }
    hide Represents, Listing, Validate, Filtered, SortedBy, Without;
  }

  lemma Only(a: Desk, t: nat)
    requires t in a.calls && forall u, w | u in a.calls && w in a.calls :: u == w
    ensures a.calls == map[t := a.calls[t]] && a.calls - {t} == map[]
  {}

  /** A step of the only call in flight: enough to look at that call. */
  lemma OneCall(b: Desk, p: PlanId, t: nat, c: Pending)
    requires AllDense(b.db) && b.calls == map[t := c] && OnItsWay(b.plan, b.db, p, c)
    ensures Steady(b, p)
  {
    hide AllDense, OnItsWay;
    assert t in b.calls;
  }

  lemma NoCall(b: Desk, p: PlanId)
    requires AllDense(b.db) && b.calls == map[] && Represents(b.db, p, b.plan)
    ensures Steady(b, p)
  {
    hide AllDense, Represents;
  }

  lemma BeginStaysSteady(a: Desk, e: Event, b: Desk, p: PlanId, mode: Uniqueness)
    requires Steady(a, p) && Fires(a, e, b, p, mode) && e.Begin? && a.calls == map[]
    ensures Steady(b, p)
  {
    hide AllDense, Represents, Optimistic;
    assert b.plan == Optimistic(e.call, a.plan) && Represents(a.db, p, a.plan);
    OneCall(b, p, e.t, Pending(e.call, SENT));
  }

  lemma ChecksStaysSteady(a: Desk, e: Event, b: Desk, p: PlanId, mode: Uniqueness)
    requires Steady(a, p) && Fires(a, e, b, p, mode) && e.Checks?
    ensures Steady(b, p)
  {
    hide AllDense, Represents, Optimistic, Listing, Checked;
    Only(a, e.t);
    var c := a.calls[e.t];
    var before :| Represents(a.db, p, before) && a.plan == Optimistic(c.call, before);
    CheckSettles(a.plan, a.db, p, c.call, before, e.current);
    OneCall(b, p, e.t, Pending(c.call, Checked(c.call, a.db, p, e.current)));
  }

  lemma CommitsStaysSteady(a: Desk, e: Event, b: Desk, p: PlanId, mode: Uniqueness)
    requires Steady(a, p) && Fires(a, e, b, p, mode) && e.Commits?
    ensures Steady(b, p)
  {
    hide AllDense, Represents, Optimistic, Committed, Validate;
    Only(a, e.t);
    var c := a.calls[e.t];
    var ok: bool :| Committed(c.call, a.db, p, e.last, e.remaining, b.db, ok, mode) && b == Move(a, e.t, ANSWERED(ok)).(db := b.db);
    assert OnItsWay(a.plan, a.db, p, c);
    var before :|
      && Represents(a.db, p, before) && a.plan == Optimistic(c.call, before)
      && (c.call.REMOVE? ==> c.call.item in a.db && a.db[c.call.item].plan == p)
      && (c.call.REORDER? ==> Validate(before, c.call.requested) == None);
    CommitSettles(a.plan, a.db, p, c.call, before, e.last, e.remaining, b.db, ok, mode);
    OneCall(b, p, e.t, Pending(c.call, ANSWERED(ok)));
  }

  /** A handler that fails leaves the table alone; the client of a failed addition is still in step. */
  lemma FailsStaysSteady(a: Desk, e: Event, b: Desk, p: PlanId, mode: Uniqueness)
    requires Steady(a, p) && Fires(a, e, b, p, mode) && e.Fails?
    ensures Steady(b, p)
  {
    hide AllDense, Represents, Validate;
    Only(a, e.t);
    var c := a.calls[e.t];
    assert OnItsWay(a.plan, a.db, p, c);
    var before :| Represents(a.db, p, before) && a.plan == Optimistic(c.call, before);
    OneCall(b, p, e.t, Pending(c.call, ANSWERED(false)));
  }

  lemma AnswerStaysSteady(a: Desk, e: Event, b: Desk, p: PlanId, mode: Uniqueness)
    requires Steady(a, p) && Fires(a, e, b, p, mode) && (e.Answers? || e.Reads? || e.Shows?)
    ensures Steady(b, p)
  {
    hide AllDense, Represents, Optimistic;
    Only(a, e.t);
    var c := a.calls[e.t];
    assert OnItsWay(a.plan, a.db, p, c);
    match e
    case Answers(t) =>
      if Refreshes(c.call, c.stage.ok) { OneCall(b, p, t, Pending(c.call, REFRESHING)); } else { NoCall(b, p); }
    case Reads(t, listed) =>
      DenseListing(a.db, p, listed);
      OneCall(b, p, t, Pending(c.call, READ(listed)));
    case Shows(t) => NoCall(b, p);
  }

  lemma DenseListing(db: Db, p: PlanId, listed: seq<Id>)
    requires AllDense(db) && Listing(db, p, listed)
    ensures Represents(db, p, listed)
  {
    assert Dense(db, p);
    var s :| Represents(db, p, s);
    RepresentsIsListing(db, p, s);
    ListingIsUnique(db, p, listed, s);
  }

  lemma StepStaysSteady(a: Desk, e: Event, b: Desk, p: PlanId, mode: Uniqueness)
    requires Steady(a, p) && Fires(a, e, b, p, mode) && (e.Begin? ==> a.calls == map[])
    ensures Steady(b, p)
  {
    hide *;
    match e
    case Begin(_, _) => BeginStaysSteady(a, e, b, p, mode);
    case Checks(_, _) => ChecksStaysSteady(a, e, b, p, mode);
    case Commits(_, _, _) => CommitsStaysSteady(a, e, b, p, mode);
    case Fails(_) => FailsStaysSteady(a, e, b, p, mode);
    case _ => AnswerStaysSteady(a, e, b, p, mode);
  }

  lemma {:induction false} RunsStaySteady(n: nat, desks: seq<Desk>, events: seq<Event>, p: PlanId, mode: Uniqueness, i: nat)
    requires n <= 1 && Run(n, desks, events, p, mode) && i <= |events|
    ensures Steady(desks[i], p)
  {
    hide AllDense, Fires, InStep, Steady;
    if i == 0 {
      StartsSteady(desks[0], p);
    } else {
      RunsStaySteady(n, desks, events, p, mode, i - 1);
      assert Fires(desks[i - 1], events[i - 1], desks[i - 1 + 1], p, mode);
      StepStaysSteady(desks[i - 1], events[i - 1], desks[i], p, mode);
    }
  }

  lemma StartsSteady(a: Desk, p: PlanId)
    requires a.calls == map[] && AllDense(a.db) && InStep(a.plan, a.db, p)
    ensures Steady(a, p)
  {
    hide AllDense, Represents;
  }

  /** Whenever no call is in flight, the client's list is the server's. */
  ghost predicate InStepAtRest(n: nat, p: PlanId, mode: Uniqueness) {
    forall desks: seq<Desk>, events: seq<Event> | Run(n, desks, events, p, mode) && desks[|events|].calls == map[] ::
      InStep(desks[|events|].plan, desks[|events|].db, p)
  }

  // ---------------------------------------------------------------- two calls at a time

  function Before(p: PlanId): Db { map["a" := Row(p, 1, "")] }

  function Between(p: PlanId): Db { Before(p)["d" := Row(p, 2, "")] }

  lemma BeforeIsDense(p: PlanId)
    ensures AllDense(Before(p)) && Represents(Before(p), p, ["a"]) && IsLastOrder(Before(p), p, 1)
  {
    var db := Before(p);
    assert ToSet(["a"]) == {"a"} == Members(db, p);
    forall q ensures Dense(db, q) {
      if q == p { assert Represents(db, q, ["a"]); } else { assert Represents(db, q, []); }
    }
    assert db["a"].order == 1;
  }

  lemma BetweenIsListed(p: PlanId)
    ensures Represents(Between(p), p, ["a", "d"]) && Listing(Between(p), p, ["a", "d"])
    ensures AllDense(Between(p))
  {
    BeforeIsDense(p);
    AddAppends(Before(p), p, ["a"], "d", "");
    assert ["a"] + ["d"] == ["a", "d"];
    RepresentsIsListing(Between(p), p, ["a", "d"]);
    AddStaysDense(Before(p), p, 1, "d", "", AtCommit);
  }

  /** What the removal leaves when it commits last. */
  lemma RemovalCommits(p: PlanId, mode: Uniqueness) returns (d: Db)
    ensures Removed(Between(p), p, {"a"}, ["d"], d, mode) && "a" !in d
  {
    BetweenIsListed(p);
    AloneIsInv(Between(p));
    var left := Between(p) - {"a"};
    assert ["d"][0] == "d" && left == map["d" := Row(p, 2, "")];
    assert ToSet(["d"]) == {"d"} == Members(left, p);
    assert Listing(left, p, ["d"]);
    assert UniqueOrders(left) && Positive(left);
    RenumberMakesDense(left, p, ["d"], mode);
    d := Commit(left, ["d"], mode).value;
  }

  /** The race: item "a" is removed and "d" added while the removal is still on its way; the addition commits and
      refreshes first, and the removal, which needs no refresh, settles without one. */
  function Race(p: PlanId): seq<Event> {
    [Begin(0, REMOVE("a")), Begin(1, ADD("d", "")), Commits(1, 1, []), Answers(1), Reads(1, ["a", "d"]), Shows(1),
     Checks(0, ["a", "d"]), Commits(0, 0, ["d"]), Answers(0)]
  }

  function RaceDesks(p: PlanId, d: Db): seq<Desk> {
    var remove, add := REMOVE("a"), ADD("d", "");
    [Desk(["a"], Before(p), map[]),
     Desk([], Before(p), map[0 := Pending(remove, SENT)]),
     Desk([], Before(p), map[0 := Pending(remove, SENT), 1 := Pending(add, SENT)]),
     Desk([], Between(p), map[0 := Pending(remove, SENT), 1 := Pending(add, ANSWERED(true))]),
     Desk([], Between(p), map[0 := Pending(remove, SENT), 1 := Pending(add, REFRESHING)]),
     Desk([], Between(p), map[0 := Pending(remove, SENT), 1 := Pending(add, READ(["a", "d"]))]),
     Desk(["a", "d"], Between(p), map[0 := Pending(remove, SENT)]),
     Desk(["a", "d"], Between(p), map[0 := Pending(remove, CHECKED)]),
     Desk(["a", "d"], d, map[0 := Pending(remove, ANSWERED(true))]),
     Desk(["a", "d"], d, map[])]
  }

  lemma RaceBegins(p: PlanId, d: Db, mode: Uniqueness)
    ensures var s, e := RaceDesks(p, d), Race(p);
      Fires(s[0], e[0], s[1], p, mode) && Fires(s[1], e[1], s[2], p, mode)
  {
    assert Filtered(["a"][1..], {"a"}) == [];
    assert Filtered(["a"], {"a"}) == [];
  }

  lemma RaceAdds(p: PlanId, d: Db, mode: Uniqueness)
    ensures var s, e := RaceDesks(p, d), Race(p);
      Fires(s[2], e[2], s[3], p, mode) && Fires(s[3], e[3], s[4], p, mode)
  {
    BeforeIsDense(p);
    hide IsLastOrder, AllDense, Represents;
    var s := RaceDesks(p, d);
    assert Committed(ADD("d", ""), Before(p), p, 1, [], Between(p), true, mode);
    assert s[3] == Move(s[2], 1, ANSWERED(true)).(db := Between(p));
  }

  lemma RaceRefreshes(p: PlanId, d: Db, mode: Uniqueness)
    ensures var s, e := RaceDesks(p, d), Race(p);
      Fires(s[4], e[4], s[5], p, mode) && Fires(s[5], e[5], s[6], p, mode) && Fires(s[6], e[6], s[7], p, mode)
  {
    BetweenIsListed(p);
    hide Listing, AllDense, Represents;
    var s := RaceDesks(p, d);
    assert s[5].calls - {1} == s[6].calls;
  }

  lemma RaceRemoves(p: PlanId, d: Db, mode: Uniqueness)
    requires Removed(Between(p), p, {"a"}, ["d"], d, mode)
    ensures var s, e := RaceDesks(p, d), Race(p);
      Fires(s[7], e[7], s[8], p, mode) && Fires(s[8], e[8], s[9], p, mode)
  {
    hide Removed, Between;
    var s := RaceDesks(p, d);
    assert Committed(REMOVE("a"), Between(p), p, 0, ["d"], d, true, mode);
    assert s[8] == Move(s[7], 0, ANSWERED(true)).(db := d);
    assert s[8].calls - {0} == map[];
  }

  lemma RaceShape(p: PlanId, d: Db)
    ensures var s, e := RaceDesks(p, d), Race(p);
      && |e| == 9 && |s| == 10 && |s[0].calls| == 0 && |s[1].calls| == 1
      && s[0].calls == map[] && s[0].plan == ["a"] && s[0].db == Before(p)
      && forall i | 2 <= i < 9 :: !e[i].Begin?
  {}

  lemma RaceIsRun(n: nat, p: PlanId, d: Db, mode: Uniqueness)
    requires n >= 2 && Removed(Between(p), p, {"a"}, ["d"], d, mode)
    ensures Run(n, RaceDesks(p, d), Race(p), p, mode)
  {
    hide Fires, AllDense, Represents, Before, Between, Removed, RaceDesks, Race;
    BeforeIsDense(p);
    RaceShape(p, d);
    RaceBegins(p, d, mode);
    RaceAdds(p, d, mode);
    RaceRefreshes(p, d, mode);
    RaceRemoves(p, d, mode);
  }

  lemma OverlappingCallsLoseStep(n: nat, p: PlanId, mode: Uniqueness)
    requires n >= 2
    ensures !InStepAtRest(n, p, mode)
  {
    hide Run, RaceDesks, Race, InStep, Between, Removed;
    var d := RemovalCommits(p, mode);
    RaceIsRun(n, p, d, mode);
    RaceShape(p, d);
    RaceEnds(p, d);
  }

  lemma RaceEnds(p: PlanId, d: Db)
    requires "a" !in d
    ensures var end := RaceDesks(p, d)[9]; end.calls == map[] && !InStep(end.plan, end.db, p)
  {
    assert ["a", "d"][0] == "a";
  }

  /** The client's list is the server's whenever no call is in flight, in every run, exactly when calls do not
      overlap. */
  lemma InStepExactlyWithoutOverlap(n: nat, p: PlanId, mode: Uniqueness)
    ensures InStepAtRest(n, p, mode) <==> n <= 1
  {
    if n <= 1 {
      hide Fires, AllDense, Represents, Run;
      forall desks: seq<Desk>, events: seq<Event> | Run(n, desks, events, p, mode) && |desks| == |events| + 1 && desks[|events|].calls == map[]
        ensures InStep(desks[|events|].plan, desks[|events|].db, p)
      {
        RunsStaySteady(n, desks, events, p, mode, |events|);
      }
      RunsHaveEnds(n, p, mode);
    } else {
      OverlappingCallsLoseStep(n, p, mode);
    }
  }

  lemma RunsHaveEnds(n: nat, p: PlanId, mode: Uniqueness)
    ensures forall desks: seq<Desk>, events: seq<Event> | Run(n, desks, events, p, mode) :: |desks| == |events| + 1
  {}
}
