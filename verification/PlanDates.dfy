/** Choosing the day of a new or duplicated plan (plans.ts). Days are day numbers, on which `addUtcDays`
    is addition; the unique index on the date covers soft-deleted plans too. */
module PlanDates {
  import opened Options
  import opened Reorder
  import opened Plans

  const MAX_ATTEMPTS := 3660

  /** `day` is the first free day at or after `from`, among the first `limit` of them. */
  predicate LeastFree(taken: set<int>, from: int, limit: nat, day: int) {
    from <= day < from + limit && day !in taken && forall d | from <= d < day :: d in taken
  }

  predicate AllTaken(taken: set<int>, from: int, limit: nat) {
    forall d | from <= d < from + limit :: d in taken
  }

  predicate DistinctOrders(entries: seq<Entry>) {
    forall i, j | 0 <= i < j < |entries| :: entries[i].order != entries[j].order
  }

  class PlanTable {
    var days: set<int>
    var copies: map<int, seq<Entry>>

    predicate Valid()
      reads this
    {
      copies.Keys <= days
    }

    constructor ()
      ensures Valid() && days == {} && copies == map[]
    {
      days, copies := {}, map[];
    }

    /** `plans:create` */
    method CreatePlan(requested: int) returns (day: Option<int>)
      requires Valid()
      modifies this
      ensures Valid() && copies == old(copies)
      ensures day.Some? ==> LeastFree(old(days), requested, MAX_ATTEMPTS, day.value) && days == old(days) + {day.value}
      ensures day.None? ==> AllTaken(old(days), requested, MAX_ATTEMPTS) && days == old(days)
    {
      var candidate := requested;
      for attempt := 0 to MAX_ATTEMPTS
        invariant days == old(days) && copies == old(copies) && candidate == requested + attempt
        invariant forall d | requested <= d < candidate :: d in days
      {
        if candidate !in days {
          days := days + {candidate};
          return Some(candidate);
        }
        candidate := candidate + 1;
      }
      return None;
    }

    /** One transaction of `duplicatePlanWithRetry`: create the plan, then its items one by one; a day or
        an order that is already there undoes everything. */
    method TryDuplicate(day: int, base: seq<Entry>) returns (ok: bool)
      requires Valid()
      modifies this
      ensures Valid() && (ok <==> day !in old(days) && DistinctOrders(base))
      ensures ok ==> days == old(days) + {day} && copies == old(copies)[day := base]
      ensures !ok ==> days == old(days) && copies == old(copies)
    {
      if day in days { return false; }
      var created: seq<Entry> := [];
      for i := 0 to |base|
        invariant created == base[..i] && DistinctOrders(base[..i])
        invariant days == old(days) && copies == old(copies)
      {
        if exists j :: 0 <= j < |created| && created[j].order == base[i].order {
          var j :| 0 <= j < |created| && created[j].order == base[i].order;
          assert base[j].order == base[i].order;
          return false;
        }
        assert forall j | 0 <= j < i :: base[..i][j] == created[j];
        assert base[..i + 1] == base[..i] + [base[i]];
        created := created + [base[i]];
      }
      assert base[..|base|] == base;
      days := days + {day};
      copies := copies[day := created];
      return true;
    }

    /** `duplicatePlanWithRetry` */
    method DuplicatePlan(from: int, base: seq<Entry>) returns (day: Option<int>)
      requires Valid()
      modifies this
      ensures Valid()
      ensures day.Some? <==> DistinctOrders(base) && !AllTaken(old(days), from, MAX_ATTEMPTS)
      ensures day.Some? ==> LeastFree(old(days), from, MAX_ATTEMPTS, day.value)
                            && days == old(days) + {day.value} && copies == old(copies)[day.value := base]
      ensures day.None? ==> days == old(days) && copies == old(copies)
    {
      var candidate := from;
      for attempt := 0 to MAX_ATTEMPTS
        invariant Valid() && days == old(days) && copies == old(copies) && candidate == from + attempt
        invariant DistinctOrders(base) ==> forall d | from <= d < candidate :: d in days
      {
        var ok := TryDuplicate(candidate, base);
        if ok { return Some(candidate); }
        if attempt == MAX_ATTEMPTS - 1 { return None; }
        candidate := candidate + 1;
      }
      return None;
    }
  }

  /** The day chosen is determined by the days taken, and it exists unless 3660 days in a row are taken. */
  lemma LeastFreeIsUnique(taken: set<int>, from: int, limit: nat, a: int, b: int)
    requires LeastFree(taken, from, limit, a) && LeastFree(taken, from, limit, b)
    ensures a == b && !AllTaken(taken, from, limit)
  {
  }

  lemma {:induction false} LeastFreeExists(taken: set<int>, from: int, limit: nat) returns (day: int)
    requires !AllTaken(taken, from, limit)
    ensures LeastFree(taken, from, limit, day)
    decreases limit
  {
    if from !in taken { day := from; } else { day := LeastFreeExists(taken, from + 1, limit - 1); }
  }

  /** Reading a dense plan by ascending order gives dense entries, which can always be copied. */
  lemma DensePlanReadsDense(db: Db, p: PlanId, s: seq<Id>, entries: seq<Entry>)
    requires Represents(db, p, s) && |entries| == |s|
    requires forall i | 0 <= i < |s| :: entries[i] == Entry(db[s[i]].order, db[s[i]].payload)
    ensures DenseEntries(entries) && DistinctOrders(entries)
  {
  }
}
