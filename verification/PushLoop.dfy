/** One loop of pushOfflineChanges, row by row (pushSync.ts): what has been sent and counted when some rows
    are left. */
module PushLoop {
  import opened Sync

  /** The queries that pushing a table takes: one to look up each changed row, one to create each missing one. */
  function Cost(local: Store, remote: Store, since: int): nat {
    |Changed(local, since)| + |Missing(local, remote, since)|
  }

  /** Queries spent while the rows other than `rows` were handled and `done` were created. */
  function Used(local: Store, since: int, rows: set<Id>, done: set<Id>): nat {
    |Changed(local, since) - rows| + |done|
  }

  ghost predicate Midway(local: Store, remote: Store, known: set<Id>, since: int,
                         rows: set<Id>, done: set<Id>, now: Store, pushed: nat, overwritten: nat) {
    var seen := Changed(local, since) - rows;
    && rows <= Changed(local, since) && done == seen * Missing(local, remote, since)
    && AllAccepted(local, remote, known, done) && now == Sent(local, remote, done)
    && pushed == |done| && overwritten == |seen * Beaten(local, remote, since)|
  }

  lemma MidwayStarts(local: Store, remote: Store, known: set<Id>, since: int)
    ensures Midway(local, remote, known, since, Changed(local, since), {}, remote, 0, 0)
    ensures Used(local, since, Changed(local, since), {}) == 0
  {
    hide Sent, Changed, Missing, Beaten;
    SentNothing(local, remote);
    assert Changed(local, since) - Changed(local, since) == {};
    assert {} * Missing(local, remote, since) == {} && {} * Beaten(local, remote, since) == {};
  }

  lemma MidwayIsPrefix(local: Store, remote: Store, known: set<Id>, since: int,
                       rows: set<Id>, done: set<Id>, now: Store, pushed: nat, overwritten: nat)
    requires Midway(local, remote, known, since, rows, done, now, pushed, overwritten)
    ensures Prefix(local, remote, known, since, done) && now == Sent(local, remote, done)
  {
    hide Sent, Accepts;
  }

  lemma MidwayEnds(local: Store, remote: Store, known: set<Id>, since: int,
                   done: set<Id>, now: Store, pushed: nat, overwritten: nat)
    requires Midway(local, remote, known, since, {}, done, now, pushed, overwritten)
    ensures done == Missing(local, remote, since) && AllAccepted(local, remote, known, done)
    ensures pushed == |done| && overwritten == |Beaten(local, remote, since)|
    ensures Used(local, since, {}, done) == Cost(local, remote, since)
  {
    hide Sent, Accepts;
    var all := Changed(local, since);
    assert all - {} == all;
    assert all * Missing(local, remote, since) == Missing(local, remote, since);
    assert all * Beaten(local, remote, since) == Beaten(local, remote, since);
  }

  /** One turn of the loop on a row that the server has. */
  lemma KnownRow(local: Store, remote: Store, known: set<Id>, since: int,
                  rows: set<Id>, done: set<Id>, now: Store, pushed: nat, overwritten: nat, id: Id)
    requires DatesDiffer(local) && Midway(local, remote, known, since, rows, done, now, pushed, overwritten) && id in rows
    requires id in now.heads
    ensures id in local.heads
    ensures var newer := local.heads[id].updatedAt > now.heads[id].updatedAt;
      Midway(local, remote, known, since, rows - {id}, done, now, pushed, if newer then overwritten + 1 else overwritten)
    ensures Used(local, since, rows - {id}, done) == Used(local, since, rows, done) + 1 <= Cost(local, remote, since)
  {
    RowIs(local, remote, known, since, rows, done, now, pushed, overwritten, id);
    hide AllAccepted, Accepts, Sent, Changed, Missing, Beaten, DatesDiffer;
    Turn(Changed(local, since), rows, Missing(local, remote, since), Beaten(local, remote, since), done, id);
  }

  /** One turn of the loop on a row that the server lacks. */
  lemma NewRow(local: Store, remote: Store, known: set<Id>, since: int,
                  rows: set<Id>, done: set<Id>, now: Store, pushed: nat, overwritten: nat, id: Id)
    requires DatesDiffer(local) && Midway(local, remote, known, since, rows, done, now, pushed, overwritten) && id in rows
    requires id !in now.heads
    ensures id in local.heads
    ensures Used(local, since, rows - {id}, done + {id}) == Used(local, since, rows, done) + 2 <= Cost(local, remote, since)
    ensures Accepts(local, now, known, id) ==>
      Midway(local, remote, known, since, rows - {id}, done + {id}, Sent(local, now, {id}), pushed + 1, overwritten)
    ensures !Accepts(local, now, known, id) ==> !AllAccepted(local, remote, known, Missing(local, remote, since))
  {
    RowIs(local, remote, known, since, rows, done, now, pushed, overwritten, id);
    NewRowFits(local, remote, known, done, now, id);
    hide Accepts, AllAccepted, Sent, Changed, Missing, Beaten, DatesDiffer;
    Turn(Changed(local, since), rows, Missing(local, remote, since), Beaten(local, remote, since), done, id);
    if !Accepts(local, remote, known, id) { Refused(local, remote, known, Missing(local, remote, since), id); }
  }

  lemma NewRowFits(local: Store, remote: Store, known: set<Id>, done: set<Id>, now: Store, id: Id)
    requires DatesDiffer(local) && now == Sent(local, remote, done) && id in local.heads && id !in done
    requires done !! remote.heads.Keys && done <= local.heads.Keys && AllAccepted(local, remote, known, done)
    ensures Accepts(local, now, known, id) <==> Accepts(local, remote, known, id)
    ensures Sent(local, now, {id}) == Sent(local, remote, done + {id})
    ensures Accepts(local, now, known, id) ==> AllAccepted(local, remote, known, done + {id})
  {
    AcceptsIsStable(local, remote, known, done, id);
    SentTwice(local, remote, done, {id});
    hide Accepts, Sent, DatesDiffer;
  }

  lemma Refused(local: Store, remote: Store, known: set<Id>, ids: set<Id>, id: Id)
    requires ids <= local.heads.Keys && id in ids && !Accepts(local, remote, known, id)
    ensures !AllAccepted(local, remote, known, ids)
  {
    hide Accepts;
  }

  lemma RowIs(local: Store, remote: Store, known: set<Id>, since: int,
              rows: set<Id>, done: set<Id>, now: Store, pushed: nat, overwritten: nat, id: Id)
    requires Midway(local, remote, known, since, rows, done, now, pushed, overwritten) && id in rows
    ensures id in local.heads && id !in done && (id in now.heads <==> id in remote.heads)
    ensures id in now.heads ==> now.heads[id] == remote.heads[id]
    ensures id in Missing(local, remote, since) <==> id !in now.heads
    ensures id in Beaten(local, remote, since) <==>
            id in now.heads && local.heads[id].updatedAt > now.heads[id].updatedAt
    ensures done !! remote.heads.Keys && done <= local.heads.Keys
    ensures Missing(local, remote, since) <= Changed(local, since)
    ensures Missing(local, remote, since) <= local.heads.Keys
  {
    hide Accepts;
  }

  lemma Turn(all: set<Id>, rows: set<Id>, missing: set<Id>, beaten: set<Id>, done: set<Id>, id: Id)
    requires rows <= all && missing <= all && done == (all - rows) * missing && id in rows
    ensures var seen := all - (rows - {id});
      && rows - {id} <= all && |seen| == |all - rows| + 1 <= |all| && |done| <= |missing|
      && (if id in missing then done + {id} == seen * missing && |done + {id}| == |done| + 1 <= |missing|
          else done == seen * missing)
      && |seen * beaten| == |(all - rows) * beaten| + if id in beaten then 1 else 0
  {
    var before := all - rows;
    assert all - (rows - {id}) == before + {id};
    OneMore(before, all, id);
    OneMore(before, missing, id);
    OneMore(before, beaten, id);
    Smaller(before + {id}, all);
    Smaller((before + {id}) * missing, missing);
  }

  lemma OneMore(before: set<Id>, s: set<Id>, id: Id)
    requires id !in before
    ensures (before + {id}) * s == if id in s then before * s + {id} else before * s
    ensures |(before + {id}) * s| == |before * s| + if id in s then 1 else 0
    ensures |before + {id}| == |before| + 1
  {
    assert (before + {id}) * s == if id in s then before * s + {id} else before * s;
  }

  lemma {:induction false} Smaller(a: set<Id>, b: set<Id>)
    requires a <= b
    ensures |a| <= |b|
  {
    assert b == (b - a) + a;
  }
}
