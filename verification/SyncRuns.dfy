/** What the push and pull protocol guarantees over any number of failed and successful reconnects
    (pushSync.ts, pullSync.ts, syncManager.ts and the reconnect timer of main.ts). */
module SyncRuns {
  import opened Options
  import opened Sync
  import opened PushLoop
  import opened Reconnect

  // ---------------------------------------------------------------- one stop

  lemma SongIdsSettle(local: Db, before: Db, after: Db, since: int, songs: set<Id>)
    requires songs <= Missing(local.songs, before.songs, since)
    requires after.songs == Sent(local.songs, before.songs, songs)
    ensures SongIds(local, after, since) == SongIds(local, before, since)
  {
    assert songs <= local.songs.heads.Keys;
    assert after.songs.heads.Keys == before.songs.heads.Keys + songs;
  }

  /** A push that stopped after any prefix of its rows leaves the next push the same result, the same number
      of overwritten rows and the same chance of being refused. */
  lemma RetryIsOnePush(local: Db, before: Db, after: Db, since: int)
    requires WellFormed(local) && Stopped(local, before, after, since)
    ensures Pushed(local, after, since) == Pushed(local, before, since)
    ensures Conflicts(local, after, since) == Conflicts(local, before, since)
    ensures Pushable(local, after, since) <==> Pushable(local, before, since)
    ensures Queries(local, after, since) <= Queries(local, before, since)
  {
    var songs, plans :| StoppedAt(local, before, after, since, songs, plans);
    hide *;
    RetryFrom(local, before, after, since, songs, plans);
  }

  lemma RetryFrom(local: Db, before: Db, after: Db, since: int, songs: set<Id>, plans: set<Id>)
    requires WellFormed(local) && StoppedAt(local, before, after, since, songs, plans)
    ensures Pushed(local, after, since) == Pushed(local, before, since)
    ensures Conflicts(local, after, since) == Conflicts(local, before, since)
    ensures Pushable(local, after, since) <==> Pushable(local, before, since)
    ensures Queries(local, after, since) <= Queries(local, before, since)
  {
    hide AllAccepted, Sent, Missing, Beaten, Changed, SongIds, DatesDiffer, PartsBelong, SongsExist, Cost, Accepts;
    SongIdsSettle(local, before, after, since, songs);
    RetryTable(local.songs, before.songs, after.songs, {}, since, songs);
    RetryTable(local.plans, before.plans, after.plans, SongIds(local, before, since), since, plans);
  }

  lemma RetryTable(local: Store, before: Store, after: Store, known: set<Id>, since: int, done: set<Id>)
    requires DatesDiffer(local) && Prefix(local, before, known, since, done) && after == Sent(local, before, done)
    ensures Sent(local, after, Missing(local, after, since)) == Sent(local, before, Missing(local, before, since))
    ensures |Beaten(local, after, since)| == |Beaten(local, before, since)|
    ensures AllAccepted(local, after, known, Missing(local, after, since))
            <==> AllAccepted(local, before, known, Missing(local, before, since))
    ensures Cost(local, after, since) <= Cost(local, before, since)
  {
    hide AllAccepted, Prefix, Sent, Missing, Beaten, Changed, DatesDiffer;
    RetryFinishes(local, before, known, since, done);
    Smaller(Missing(local, after, since), Missing(local, before, since));
  }

  lemma PrefixAgain(local: Store, remote: Store, known: set<Id>, since: int, a: set<Id>, b: set<Id>)
    requires DatesDiffer(local) && Prefix(local, remote, known, since, a)
    requires Prefix(local, Sent(local, remote, a), known, since, b)
    ensures Prefix(local, remote, known, since, a + b)
    ensures Sent(local, Sent(local, remote, a), b) == Sent(local, remote, a + b)
    ensures a == Missing(local, remote, since) ==> b == {}
    ensures b == Missing(local, Sent(local, remote, a), since) ==> a + b == Missing(local, remote, since)
  {
    RetryFinishes(local, remote, known, since, a);
    SentTwice(local, remote, a, b);
    forall id | id in b ensures Accepts(local, remote, known, id) {
      AcceptsIsStable(local, remote, known, a, id);
    }
  }

  lemma StoppedAgain(local: Db, before: Db, mid: Db, after: Db, since: int)
    requires WellFormed(local) && Stopped(local, before, mid, since) && Stopped(local, mid, after, since)
    ensures Stopped(local, before, after, since)
  {
    var songs, plans :| StoppedAt(local, before, mid, since, songs, plans);
    var more, others :| StoppedAt(local, mid, after, since, more, others);
    SongIdsSettle(local, before, mid, since, songs);
    PrefixAgain(local.songs, before.songs, {}, since, songs, more);
    PrefixAgain(local.plans, before.plans, SongIds(local, before, since), since, plans, others);
    hide Prefix, Sent, Missing, SongIds, WellFormed;
    assert StoppedAt(local, before, after, since, songs + more, plans + others);
  }

  // ---------------------------------------------------------------- after a successful reconnect

  /** The server table after a whole push: the old one untouched, plus exactly the changed local rows whose ids
      were absent, with their parts. */
  ghost predicate AddsExactly(local: Store, before: Store, after: Store, since: int) {
    && (forall x | x in before.heads :: x in after.heads && after.heads[x] == before.heads[x])
    && (forall k | k in before.parts :: k in after.parts && after.parts[k] == before.parts[k])
    && (forall x :: x in after.heads && x !in before.heads <==>
                    x in local.heads && local.heads[x].updatedAt > since && x !in before.heads)
    && (forall x | x in after.heads && x !in before.heads :: after.heads[x] == local.heads[x])
    && (forall k :: k in after.parts && k !in before.parts <==>
                    k in local.parts && local.parts[k].owner in Missing(local, before, since))
    && (forall k | k in after.parts && k !in before.parts :: after.parts[k] == local.parts[k])
  }

  lemma ReconnectAddsExactly(local: Db, before: Db, since: int)
    requires Pushable(local, before, since)
    ensures AddsExactly(local.songs, before.songs, Pushed(local, before, since).songs, since)
    ensures AddsExactly(local.plans, before.plans, Pushed(local, before, since).plans, since)
  {
    hide Accepts, Sent;
    SentIsExact(local.songs, before.songs, {}, since);
    SentIsExact(local.plans, before.plans, SongIds(local, before, since), since);
  }

  /** A push straight after a reconnect, when the two sides agree, has nothing to send and nothing to report. */
  lemma PushAfterReconnectIsIdle(db: Db, since: int)
    ensures Pushed(db, db, since) == db && Additions(db, db, since) == 0 && Conflicts(db, db, since) == 0
    ensures Pushable(db, db, since)
  {
    NothingMissing(db.songs, since);
    NothingMissing(db.plans, since);
    SentNothing(db.songs, db.songs);
    SentNothing(db.plans, db.plans);
  }

  /** A plan made offline on a day that the server gave to another plan keeps every reconnect from succeeding. */
  lemma TakenDateBlocksReconnect(local: Db, remote: Db, since: int, mine: Id, theirs: Id)
    requires mine in Missing(local.plans, remote.plans, since) && theirs in remote.plans.heads
    requires local.plans.heads[mine].date.Some? && remote.plans.heads[theirs].date == local.plans.heads[mine].date
    ensures !Pushable(local, remote, since)
  {
    assert !Accepts(local.plans, remote.plans, SongIds(local, remote, since), mine);
  }

  // ---------------------------------------------------------------- the reconnect timer

  /** `checkAndReconnect` called again and again, with the line breaking anew after `lines[i]` queries, until
      one call succeeds; nobody else writes. The failures in between leave no trace in the outcome. */
  method KeepReconnecting(r: Replicas, lines: seq<nat>, pushedAt: int, pulledAt: int) returns (result: Option<PushResult>)
    requires WellFormed(r.local) && WellFormed(r.remote)
    modifies r
    ensures WellFormed(r.local) && WellFormed(r.remote)
    ensures result.Some? ==> r.remote == Pushed(old(r.local), old(r.remote), LastPull(old(r.file))) && r.local == r.remote
    ensures result.Some? ==> result.value.overwritten == Conflicts(old(r.local), old(r.remote), LastPull(old(r.file)))
    ensures result.Some? ==> LastPull(r.file) == pulledAt
    ensures result.None? ==> r.local == old(r.local) && LastPull(r.file) == LastPull(old(r.file))
    ensures result.Some? ==> Pushable(old(r.local), old(r.remote), LastPull(old(r.file)))
    ensures Pushable(old(r.local), old(r.remote), LastPull(old(r.file)))
            && (exists i | 0 <= i < |lines| :: lines[i] >= Queries(old(r.local), old(r.remote), LastPull(old(r.file))) + 2)
            ==> result.Some?
  {
    hide *;
    ghost var local, before, since := r.local, r.remote, LastPull(r.file);
    NotStarted(local, before, since);
    for i := 0 to |lines|
      invariant WellFormed(r.local) && WellFormed(r.remote)
      invariant r.local == local && LastPull(r.file) == since
      invariant Stopped(local, before, r.remote, since)
      invariant Pushable(local, before, since) ==>
                  forall j | 0 <= j < i :: lines[j] < Queries(local, before, since) + 2
    {
      r.answers := lines[i];
      ghost var mid := r.remote;
      RetryIsOnePush(local, before, mid, since);
      result := r.PushThenPull(pushedAt, pulledAt);
      StoppedAgain(local, before, mid, r.remote, since);
      if result.Some? { PullTime(r.file, pulledAt, pushedAt); return; }
    }
    result := None;
  }

  lemma NotStarted(local: Db, remote: Db, since: int)
    ensures Stopped(local, remote, remote, since)
  {
    SentNothing(local.songs, remote.songs);
    SentNothing(local.plans, remote.plans);
    assert StoppedAt(local, remote, remote, since, {}, {});
  }

  lemma PullTime(file: Option<SyncFile>, pulledAt: int, pushedAt: int)
    requires file == Some(SyncFile(Some(pulledAt), Some(pushedAt)))
    ensures LastPull(file) == pulledAt
  {}
}
