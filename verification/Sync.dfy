/** Push, pull and reconnect between the local SQLite tables and the PostgreSQL server (sync/pushSync.ts,
    sync/pullSync.ts, sync/syncState.ts). Songs with their blocks and plans with their items have one shape:
    head rows, and parts that each belong to a head. */
module Sync {
  import opened Options

  type Id = string

  /** `date` is the unique column of a plan; a song has none. `fields` stands for the other columns. */
  datatype Head = Head(updatedAt: int, date: Option<int>, fields: string)

  /** A song block or a plan item; only an item may point at a song. */
  datatype Part = Part(owner: Id, order: int, song: Option<Id>, fields: string)

  datatype Store = Store(heads: map<Id, Head>, parts: map<Id, Part>)
  datatype Db = Db(songs: Store, plans: Store)
  datatype Table = Songs | Plans

  function Of(db: Db, t: Table): Store { if t.Songs? then db.songs else db.plans }

  function With(db: Db, t: Table, s: Store): Db { if t.Songs? then db.(songs := s) else db.(plans := s) }

  // ---------------------------------------------------------------- what the schemas guarantee

  predicate DatesDiffer(s: Store) {
    forall x, y | x in s.heads && y in s.heads && s.heads[x].date.Some? && s.heads[x].date == s.heads[y].date :: x == y
  }

  predicate PartsBelong(s: Store) {
    forall k | k in s.parts :: s.parts[k].owner in s.heads
  }

  predicate SongsExist(s: Store, known: set<Id>) {
    forall k | k in s.parts && s.parts[k].song.Some? :: s.parts[k].song.value in known
  }

  /** Unique dates and foreign keys; primary keys are the keys of the maps. */
  predicate WellFormed(db: Db) {
    && DatesDiffer(db.songs) && PartsBelong(db.songs) && SongsExist(db.songs, {})
    && DatesDiffer(db.plans) && PartsBelong(db.plans) && SongsExist(db.plans, db.songs.heads.Keys)
  }

  // ---------------------------------------------------------------- what a push means

  function Owned(s: Store, ids: set<Id>): map<Id, Part> {
    map k | k in s.parts && s.parts[k].owner in ids :: s.parts[k]
  }

  function Heads(s: Store, ids: set<Id>): map<Id, Head> {
    map k | k in s.heads && k in ids :: s.heads[k]
  }

  /** The remote table once the rows `ids` of the local one have been created in it, parts included. */
  function Sent(local: Store, remote: Store, ids: set<Id>): Store {
    Store(remote.heads + Heads(local, ids), remote.parts + Owned(local, ids))
  }

  /** Rows that a push looks at, those that it creates, and those whose newer local version loses. */
  function Changed(local: Store, since: int): set<Id> {
    set k | k in local.heads && local.heads[k].updatedAt > since
  }

  function Missing(local: Store, remote: Store, since: int): set<Id> {
    set k | k in local.heads && local.heads[k].updatedAt > since && k !in remote.heads
  }

  function Beaten(local: Store, remote: Store, since: int): set<Id> {
    set k | k in local.heads && local.heads[k].updatedAt > since
            && k in remote.heads && local.heads[k].updatedAt > remote.heads[k].updatedAt
  }

  /** No unique index and no foreign key of the server refuses row `id`. */
  predicate Accepts(local: Store, remote: Store, known: set<Id>, id: Id)
    requires id in local.heads
  {
    && (forall k | k in local.parts && local.parts[k].owner == id ::
          k !in remote.parts && (local.parts[k].song.Some? ==> local.parts[k].song.value in known))
    && (local.heads[id].date.Some? ==> forall x | x in remote.heads :: remote.heads[x].date != local.heads[id].date)
  }

  predicate AllAccepted(local: Store, remote: Store, known: set<Id>, ids: set<Id>)
    requires ids <= local.heads.Keys
  {
    forall id | id in ids :: Accepts(local, remote, known, id)
  }

  /** Rows created before a push stopped: some of the missing ones, all accepted. */
  predicate Prefix(local: Store, remote: Store, known: set<Id>, since: int, done: set<Id>) {
    done <= Missing(local, remote, since) && AllAccepted(local, remote, known, done)
  }

  // ---------------------------------------------------------------- lemmas on one table

  lemma SentNothing(local: Store, remote: Store)
    ensures Sent(local, remote, {}) == remote
  {
    assert Heads(local, {}) == map[] && Owned(local, {}) == map[];
  }

  lemma SentTwice(local: Store, remote: Store, a: set<Id>, b: set<Id>)
    ensures Sent(local, Sent(local, remote, a), b) == Sent(local, remote, a + b)
  {
    assert Heads(local, a) + Heads(local, b) == Heads(local, a + b);
    assert Owned(local, a) + Owned(local, b) == Owned(local, a + b);
    assert (remote.heads + Heads(local, a)) + Heads(local, b) == remote.heads + (Heads(local, a) + Heads(local, b));
    assert (remote.parts + Owned(local, a)) + Owned(local, b) == remote.parts + (Owned(local, a) + Owned(local, b));
  }

  /** Creating other rows never makes the server accept or refuse a row. */
  lemma AcceptsIsStable(local: Store, remote: Store, known: set<Id>, done: set<Id>, id: Id)
    requires DatesDiffer(local) && id in local.heads && id !in done && done <= local.heads.Keys
    requires done !! remote.heads.Keys
    ensures Accepts(local, Sent(local, remote, done), known, id) <==> Accepts(local, remote, known, id)
  {
    var after := Sent(local, remote, done);
    forall k | k in local.parts && local.parts[k].owner == id
      ensures k in after.parts <==> k in remote.parts
    {}
    forall x | x in remote.heads ensures x in after.heads && after.heads[x] == remote.heads[x] {}
    forall x | x in after.heads
      ensures if x in remote.heads then after.heads[x] == remote.heads[x] else x in done && after.heads[x] == local.heads[x]
    {}
  }

  lemma SendingKeepsForm(local: Store, remote: Store, known: set<Id>, id: Id)
    requires id in local.heads && id !in remote.heads && Accepts(local, remote, known, id)
    requires DatesDiffer(remote) && PartsBelong(remote) && SongsExist(remote, known)
    ensures DatesDiffer(Sent(local, remote, {id})) && PartsBelong(Sent(local, remote, {id}))
    ensures SongsExist(Sent(local, remote, {id}), known)
  {}

  /** Sent, said row by row: what was there stays as it was, and the rest is what the local table holds. */
  lemma SentIsExact(local: Store, remote: Store, known: set<Id>, since: int)
    requires AllAccepted(local, remote, known, Missing(local, remote, since))
    ensures var after := Sent(local, remote, Missing(local, remote, since));
      && (forall x | x in remote.heads :: x in after.heads && after.heads[x] == remote.heads[x])
      && (forall k | k in remote.parts :: k in after.parts && after.parts[k] == remote.parts[k])
      && (forall x :: x in after.heads && x !in remote.heads <==>
                      x in local.heads && local.heads[x].updatedAt > since && x !in remote.heads)
      && (forall x | x in after.heads && x !in remote.heads :: after.heads[x] == local.heads[x])
      && (forall k :: k in after.parts && k !in remote.parts <==>
                      k in local.parts && local.parts[k].owner in Missing(local, remote, since))
      && (forall k | k in after.parts && k !in remote.parts :: after.parts[k] == local.parts[k])
  {
    var ids := Missing(local, remote, since);
    forall k | k in local.parts && local.parts[k].owner in ids ensures k !in remote.parts {
      assert Accepts(local, remote, known, local.parts[k].owner);
    }
  }

  /** A push that stopped anywhere leaves the next one the rest of the same work, and the same conflicts. */
  lemma RetryFinishes(local: Store, remote: Store, known: set<Id>, since: int, done: set<Id>)
    requires DatesDiffer(local) && Prefix(local, remote, known, since, done)
    ensures var stopped := Sent(local, remote, done);
      && Missing(local, stopped, since) == Missing(local, remote, since) - done
      && Beaten(local, stopped, since) == Beaten(local, remote, since)
      && Sent(local, stopped, Missing(local, stopped, since)) == Sent(local, remote, Missing(local, remote, since))
      && (AllAccepted(local, stopped, known, Missing(local, stopped, since))
          <==> AllAccepted(local, remote, known, Missing(local, remote, since)))
  {
    var stopped, all := Sent(local, remote, done), Missing(local, remote, since);
    assert Missing(local, stopped, since) == all - done;
    assert Beaten(local, stopped, since) == Beaten(local, remote, since);
    SentTwice(local, remote, done, all - done);
    assert done + (all - done) == all;
    forall id | id in all - done
      ensures Accepts(local, stopped, known, id) <==> Accepts(local, remote, known, id)
    {
      AcceptsIsStable(local, remote, known, done, id);
    }
  }

  lemma NothingMissing(s: Store, since: int)
    ensures Missing(s, s, since) == {} && Beaten(s, s, since) == {}
  {}
}
