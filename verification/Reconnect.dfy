/** The replicas, the push and pull loops over them, and what a successful or interrupted reconnect leaves
    (pushSync.ts, pullSync.ts, syncState.ts and the middle of checkAndReconnect in syncManager.ts). */
module Reconnect {
  import opened Options
  import opened Sync
  import opened PushLoop

  datatype PushResult = PushResult(pushed: nat, overwritten: nat)

  /** sync.json: the two timestamps it may hold. */
  datatype SyncFile = SyncFile(lastPullAt: Option<int>, lastPushAt: Option<int>)

  /** `getLastPullTimestamp`: the epoch when the file is missing, unreadable or has no such entry. */
  function LastPull(file: Option<SyncFile>): int {
    if file.Some? && file.value.lastPullAt.Some? then file.value.lastPullAt.value else 0
  }

  /** The songs that the items of table `t` may point at. */
  function Known(db: Db, t: Table): set<Id> { if t.Songs? then {} else db.songs.heads.Keys }

  lemma FormOf(db: Db, t: Table)
    requires WellFormed(db)
    ensures DatesDiffer(Of(db, t))
  {}

  lemma WithSame(db: Db, t: Table)
    ensures With(db, t, Of(db, t)) == db
  {}

  lemma WithWith(db: Db, now: Db, t: Table, s: Store)
    requires now == With(db, t, Of(now, t))
    ensures With(now, t, s) == With(db, t, s) && Of(With(now, t, s), t) == s
    ensures Known(With(now, t, s), t) == Known(now, t)
  {}

  // ---------------------------------------------------------------- a whole push

  /** The songs on the server once every missing one has been created. */
  function SongIds(local: Db, remote: Db, since: int): set<Id> {
    remote.songs.heads.Keys + Missing(local.songs, remote.songs, since)
  }

  function Pushed(local: Db, remote: Db, since: int): Db {
    Db(Sent(local.songs, remote.songs, Missing(local.songs, remote.songs, since)),
       Sent(local.plans, remote.plans, Missing(local.plans, remote.plans, since)))
  }

  function Additions(local: Db, remote: Db, since: int): nat {
    |Missing(local.songs, remote.songs, since)| + |Missing(local.plans, remote.plans, since)|
  }

  function Conflicts(local: Db, remote: Db, since: int): nat {
    |Beaten(local.songs, remote.songs, since)| + |Beaten(local.plans, remote.plans, since)|
  }

  function Queries(local: Db, remote: Db, since: int): nat {
    Cost(local.songs, remote.songs, since) + Cost(local.plans, remote.plans, since)
  }

  /** Every missing row would be accepted by the server. */
  predicate Pushable(local: Db, remote: Db, since: int) {
    && AllAccepted(local.songs, remote.songs, {}, Missing(local.songs, remote.songs, since))
    && AllAccepted(local.plans, remote.plans, SongIds(local, remote, since), Missing(local.plans, remote.plans, since))
  }

  /** `after` is `before` with the rows that a push may have created before it stopped: songs come first. */
  predicate StoppedAt(local: Db, before: Db, after: Db, since: int, songs: set<Id>, plans: set<Id>) {
    && Prefix(local.songs, before.songs, {}, since, songs)
    && Prefix(local.plans, before.plans, SongIds(local, before, since), since, plans)
    && (plans != {} ==> songs == Missing(local.songs, before.songs, since))
    && after == Db(Sent(local.songs, before.songs, songs), Sent(local.plans, before.plans, plans))
  }

  ghost predicate Stopped(local: Db, before: Db, after: Db, since: int) {
    exists songs, plans :: StoppedAt(local, before, after, since, songs, plans)
  }

  // ---------------------------------------------------------------- the replicas

  class Replicas {
    var local: Db
    var remote: Db
    var file: Option<SyncFile>
    /** How many more queries the server answers before the connection drops. */
    var answers: nat

    constructor (local: Db, remote: Db, file: Option<SyncFile>, answers: nat)
      ensures this.local == local && this.remote == remote && this.file == file && this.answers == answers
    {
      this.local, this.remote, this.file, this.answers := local, remote, file, answers;
    }

    method Answered() returns (ok: bool)
      modifies this`answers
      ensures ok <==> old(answers) > 0
      ensures answers == if ok then old(answers) - 1 else 0
    {
      ok := answers > 0;
      if ok { answers := answers - 1; }
    }

    /** `pg.song.create` and `pg.servicePlan.create`: a row and its parts, or nothing. */
    method Create(t: Table, id: Id) returns (ok: bool)
      requires WellFormed(local) && WellFormed(remote)
      requires id in Of(local, t).heads && id !in Of(remote, t).heads
      modifies this`remote, this`answers
      ensures WellFormed(remote)
      ensures ok <==> old(answers) > 0 && Accepts(Of(local, t), Of(old(remote), t), Known(old(remote), t), id)
      ensures remote == if ok then With(old(remote), t, Sent(Of(local, t), Of(old(remote), t), {id})) else old(remote)
      ensures answers == if old(answers) > 0 then old(answers) - 1 else 0
    {
      ok := Answered();
      if ok {
        ok := Accepts(Of(local, t), Of(remote, t), Known(remote, t), id);
        if ok {
          SendingKeepsForm(Of(local, t), Of(remote, t), Known(remote, t), id);
          remote := With(remote, t, Sent(Of(local, t), Of(remote, t), {id}));
        }
      }
    }

    /** One of the two loops of `pushOfflineChanges`, whatever the order in which the rows come. */
    method PushTable(t: Table, since: int) returns (result: Option<PushResult>, ghost done: set<Id>)
      requires WellFormed(local) && WellFormed(remote)
      modifies this`remote, this`answers
      ensures WellFormed(remote)
      ensures Prefix(Of(local, t), Of(old(remote), t), Known(old(remote), t), since, done)
      ensures remote == With(old(remote), t, Sent(Of(local, t), Of(old(remote), t), done))
      ensures result.Some? ==> done == Missing(Of(local, t), Of(old(remote), t), since)
      ensures result.Some? ==> result.value == PushResult(|done|, |Beaten(Of(local, t), Of(old(remote), t), since)|)
      ensures result.Some? <==>
              && old(answers) >= Cost(Of(local, t), Of(old(remote), t), since)
              && AllAccepted(Of(local, t), Of(old(remote), t), Known(old(remote), t), Missing(Of(local, t), Of(old(remote), t), since))
      ensures result.Some? ==> answers == old(answers) - Cost(Of(local, t), Of(old(remote), t), since)
    {
      hide *;
      ghost var mine, before, known := Of(local, t), Of(remote, t), Known(remote, t);
      FormOf(local, t);
      WithSame(remote, t);
      var rows := Changed(Of(local, t), since);
      var pushed, overwritten := 0, 0;
      done := {};
      MidwayStarts(mine, before, known, since);
      while rows != {}
        invariant WellFormed(remote) && Known(remote, t) == known
        invariant Midway(mine, before, known, since, rows, done, Of(remote, t), pushed, overwritten)
        invariant remote == With(old(remote), t, Of(remote, t))
        invariant answers == old(answers) - Used(mine, since, rows, done)
        decreases rows
      {
        var id :| id in rows;
        MidwayIsPrefix(mine, before, known, since, rows, done, Of(remote, t), pushed, overwritten);
        if id in Of(remote, t).heads {
          KnownRow(mine, before, known, since, rows, done, Of(remote, t), pushed, overwritten, id);
        } else {
          NewRow(mine, before, known, since, rows, done, Of(remote, t), pushed, overwritten, id);
        }
        var answered := Answered();
        if !answered { return None, done; }
        if id !in Of(remote, t).heads {
          ghost var now := remote;
          var created := Create(t, id);
          if !created { return None, done; }
          WithWith(old(remote), now, t, Sent(mine, Of(now, t), {id}));
          done := done + {id};
          pushed := pushed + 1;
        } else if Of(local, t).heads[id].updatedAt > Of(remote, t).heads[id].updatedAt {
          overwritten := overwritten + 1;
        }
        rows := rows - {id};
      }
      MidwayIsPrefix(mine, before, known, since, rows, done, Of(remote, t), pushed, overwritten);
      MidwayEnds(mine, before, known, since, done, Of(remote, t), pushed, overwritten);
      result := Some(PushResult(pushed, overwritten));
    }

    /** `pushOfflineChanges`: it succeeds exactly when the line holds long enough and no row is refused. */
    method PushOfflineChanges(now: int) returns (result: Option<PushResult>)
      requires WellFormed(local) && WellFormed(remote)
      modifies this`remote, this`answers, this`file
      ensures WellFormed(remote)
      ensures Stopped(local, old(remote), remote, LastPull(old(file)))
      ensures result.Some? <==> old(answers) >= Queries(local, old(remote), LastPull(old(file)))
                                && Pushable(local, old(remote), LastPull(old(file)))
      ensures result.Some? ==> remote == Pushed(local, old(remote), LastPull(old(file)))
      ensures result.Some? ==> result.value.overwritten == Conflicts(local, old(remote), LastPull(old(file)))
      ensures result.Some? ==> result.value.pushed == Additions(local, old(remote), LastPull(old(file)))
      ensures result.Some? ==> answers == old(answers) - Queries(local, old(remote), LastPull(old(file)))
      ensures result.Some? ==> file.Some? && file.value.lastPushAt == Some(now) && LastPull(file) == LastPull(old(file))
      ensures result.None? ==> file == old(file)
    {
      hide *;
      ghost var before := remote;
      var since := LastPull(file);
      TotalsOf(local, before, since);
      var songs, songsDone := PushTable(Songs, since);
      ghost var mid := remote;
      SongsPushed(local, before, mid, since, songsDone);
      if songs.None? { return None; }
      var plans, plansDone := PushTable(Plans, since);
      PlansPushed(local, before, mid, remote, since, songsDone, plansDone);
      if plans.None? { return None; }
      SaveKeepsPull(file, Some(now));
      file := Some(SyncFile(if file.Some? then file.value.lastPullAt else None, Some(now)));
      result := Some(PushResult(songs.value.pushed + plans.value.pushed, songs.value.overwritten + plans.value.overwritten));
    }

    /** The insert loops of `replaceAll` for one table: heads, and the parts of each head after it. */
    method CopyTable(rows: Store) returns (copy: Store)
      requires PartsBelong(rows)
      ensures copy == rows
    {
      hide *;
      var left := rows.heads.Keys;
      copy := Store(map[], map[]);
      CopyStarts(rows);
      while left != {}
        invariant left <= rows.heads.Keys && copy == Copied(rows, left)
        decreases left
      {
        var id :| id in left;
        copy := copy.(heads := copy.heads[id := rows.heads[id]]);
        var mine := OwnedKeys(rows, id);
        ghost var all, before := mine, copy;
        PartsStart(before, rows, all);
        while mine != {}
          invariant mine <= all && copy == before.(parts := before.parts + Picked(rows.parts, all - mine))
          decreases mine
        {
          var k :| k in mine;
          assert k in all;
          PickOne(before.parts, rows.parts, all, mine, k);
          copy := copy.(parts := copy.parts[k := rows.parts[k]]);
          mine := mine - {k};
        }
        assert all - mine == all;
        CopyRow(rows, left, id, copy);
        left := left - {id};
      }
      CopyEnds(rows);
    }

    /** `pullFromPostgres`: both tables are read, then the local ones are replaced in one transaction. */
    method PullFromPostgres() returns (ok: bool)
      requires WellFormed(remote)
      modifies this`local, this`answers
      ensures ok <==> old(answers) >= 2
      ensures local == if ok then remote else old(local)
    {
      ok := Answered();
      if ok { ok := Answered(); }
      if ok {
        var songs := CopyTable(remote.songs);
        var plans := CopyTable(remote.plans);
        local := Db(songs, plans);
      }
    }

    /** The `try` block of `checkAndReconnect`. When it fails the local rows and the time of the last pull
        are what they were, so that the next call starts from the same changes. */
    method PushThenPull(pushedAt: int, pulledAt: int) returns (result: Option<PushResult>)
      requires WellFormed(local) && WellFormed(remote)
      modifies this
      ensures WellFormed(local) && WellFormed(remote)
      ensures Stopped(old(local), old(remote), remote, LastPull(old(file)))
      ensures result.Some? <==> old(answers) >= Queries(old(local), old(remote), LastPull(old(file))) + 2
                                && Pushable(old(local), old(remote), LastPull(old(file)))
      ensures result.Some? ==> remote == Pushed(old(local), old(remote), LastPull(old(file))) && local == remote
      ensures result.Some? ==> result.value.overwritten == Conflicts(old(local), old(remote), LastPull(old(file)))
      ensures result.Some? ==> file == Some(SyncFile(Some(pulledAt), Some(pushedAt)))
      ensures result.None? ==> local == old(local) && LastPull(file) == LastPull(old(file))
    {
      result := PushOfflineChanges(pushedAt);
      if result.Some? {
        var ok := PullFromPostgres();
        if !ok { return None; }
        file := Some(SyncFile(Some(pulledAt), file.value.lastPushAt));
      }
    }
  }

  // ---------------------------------------------------------------- the pull loops

  function Picked(parts: map<Id, Part>, keys: set<Id>): map<Id, Part> {
    map k | k in parts && k in keys :: parts[k]
  }

  function OwnedKeys(rows: Store, id: Id): (keys: set<Id>)
    ensures keys <= rows.parts.Keys
  {
    set k | k in rows.parts && rows.parts[k].owner == id
  }

  /** The copy when the heads in `left` are still to be inserted. */
  function Copied(rows: Store, left: set<Id>): Store {
    Store(Heads(rows, rows.heads.Keys - left), Owned(rows, rows.heads.Keys - left))
  }

  lemma CopyStarts(rows: Store)
    ensures Copied(rows, rows.heads.Keys) == Store(map[], map[])
  {
    assert Heads(rows, {}) == map[] && Owned(rows, {}) == map[];
  }

  lemma PartsStart(before: Store, rows: Store, all: set<Id>)
    ensures before.parts + Picked(rows.parts, all - all) == before.parts
  {
    assert Picked(rows.parts, all - all) == map[];
  }

  lemma PickOne(before: map<Id, Part>, parts: map<Id, Part>, all: set<Id>, mine: set<Id>, k: Id)
    requires k in parts && k in mine && mine <= all
    ensures (before + Picked(parts, all - mine))[k := parts[k]] == before + Picked(parts, all - (mine - {k}))
  {
    assert all - (mine - {k}) == (all - mine) + {k};
    assert Picked(parts, (all - mine) + {k}) == Picked(parts, all - mine)[k := parts[k]];
  }

  lemma CopyRow(rows: Store, left: set<Id>, id: Id, copy: Store)
    requires left <= rows.heads.Keys && id in left
    requires copy == Store(Copied(rows, left).heads[id := rows.heads[id]],
                           Copied(rows, left).parts + Picked(rows.parts, OwnedKeys(rows, id)))
    ensures copy == Copied(rows, left - {id})
  {
    var seen := rows.heads.Keys - left;
    assert rows.heads.Keys - (left - {id}) == seen + {id};
    assert Heads(rows, seen + {id}) == Heads(rows, seen)[id := rows.heads[id]];
    assert Owned(rows, seen + {id}) == Owned(rows, seen) + Picked(rows.parts, OwnedKeys(rows, id));
  }

  lemma CopyEnds(rows: Store)
    requires PartsBelong(rows)
    ensures Copied(rows, {}) == rows
  {
    assert Heads(rows, rows.heads.Keys - {}) == rows.heads;
    assert Owned(rows, rows.heads.Keys - {}) == rows.parts;
  }

  // ---------------------------------------------------------------- the push in two halves

  lemma TotalsOf(local: Db, remote: Db, since: int)
    ensures Queries(local, remote, since)
            == Cost(Of(local, Songs), Of(remote, Songs), since) + Cost(Of(local, Plans), Of(remote, Plans), since)
    ensures Conflicts(local, remote, since)
            == |Beaten(Of(local, Songs), Of(remote, Songs), since)| + |Beaten(Of(local, Plans), Of(remote, Plans), since)|
    ensures Additions(local, remote, since)
            == |Missing(Of(local, Songs), Of(remote, Songs), since)| + |Missing(Of(local, Plans), Of(remote, Plans), since)|
  {}

  lemma SongsPushed(local: Db, before: Db, mid: Db, since: int, songs: set<Id>)
    requires mid == With(before, Songs, Sent(Of(local, Songs), Of(before, Songs), songs))
    requires Prefix(Of(local, Songs), Of(before, Songs), Known(before, Songs), since, songs)
    ensures Stopped(local, before, mid, since) && Of(mid, Plans) == Of(before, Plans)
    ensures songs == Missing(Of(local, Songs), Of(before, Songs), since) ==> Known(mid, Plans) == SongIds(local, before, since)
    ensures Pushable(local, before, since) <==>
            && AllAccepted(Of(local, Songs), Of(before, Songs), Known(before, Songs), Missing(Of(local, Songs), Of(before, Songs), since))
            && AllAccepted(Of(local, Plans), Of(before, Plans), SongIds(local, before, since), Missing(Of(local, Plans), Of(before, Plans), since))
  {
    hide Accepts;
    SentNothing(local.plans, before.plans);
    assert StoppedAt(local, before, mid, since, songs, {});
    assert mid.songs.heads.Keys == before.songs.heads.Keys + Heads(local.songs, songs).Keys;
    assert songs <= local.songs.heads.Keys ==> Heads(local.songs, songs).Keys == songs;
  }

  lemma PlansPushed(local: Db, before: Db, mid: Db, after: Db, since: int, songs: set<Id>, plans: set<Id>)
    requires Prefix(Of(local, Songs), Of(before, Songs), Known(before, Songs), since, songs)
    requires songs == Missing(Of(local, Songs), Of(before, Songs), since)
    requires mid == With(before, Songs, Sent(Of(local, Songs), Of(before, Songs), songs))
    requires after == With(mid, Plans, Sent(Of(local, Plans), Of(mid, Plans), plans))
    requires Prefix(Of(local, Plans), Of(mid, Plans), Known(mid, Plans), since, plans)
    ensures Stopped(local, before, after, since)
    ensures plans == Missing(Of(local, Plans), Of(before, Plans), since) ==> after == Pushed(local, before, since)
  {
    SongsPushed(local, before, mid, since, songs);
    hide Accepts, AllAccepted, Sent, Missing;
    assert StoppedAt(local, before, after, since, songs, plans);
  }

  lemma SaveKeepsPull(file: Option<SyncFile>, at: Option<int>)
    ensures LastPull(Some(SyncFile(if file.Some? then file.value.lastPullAt else None, at))) == LastPull(file)
  {}
}
