/** A history after which a user's sparse index is stale and the count test does not see it. */
module StaleIndex {
  import opened Wrappers
  import opened Content
  import opened Store
  import opened Ladder
  import opened Invariant
  import opened SparseCache
  import Crashes
  import Documents
  import Isolation
  import Reachable
  import Retrieval

  /** The bytes of a job, read under its own name. */
  function ChunksOf(env: Env, job: Job): seq<string>
    requires job.fetched.Some? && env.Extract(job.item.key, job.fetched.value).Some?
  {
    env.Chunks(env.Extract(job.item.key, job.fetched.value).value)
  }

  lemma HeldIsInView(t: Tables, user: User)
    ensures Held(t, user) == Isolation.ViewOf(t, user).holds
  {
  }

  /** A sync of bytes new to the user adds exactly them to what is held. */
  lemma SyncAddsOne(env: Env, t: Tables, job: Job)
    requires env.Valid() && Inv(env, t) && job.fetched.Some? && !Live(t, job.File())
    requires env.Extract(job.item.key, job.fetched.value).Some?
    ensures var sha := env.hash(job.fetched.value);
      var u := SyncObject(env, t, job, NoFault).0;
      && Inv(env, u) && Held(u, job.user) == Held(t, job.user) + {sha}
      && ChunkRows(u, sha) == ChunksOf(env, job)
  {
    hide SyncObject, Inv, Isolation.ViewOf, Isolation.DecideAttach, ChunkRows;
    var sha := env.hash(job.fetched.value);
    var u := SyncObject(env, t, job, NoFault).0;
    Reachable.SyncKeeps(env, t, job, NoFault);
    Crashes.ReadyByName(env, t, job);
    Isolation.SyncSeen(env, t, job, NoFault, job.user);
    HeldIsInView(t, job.user);
    HeldIsInView(u, job.user);
    Isolation.HeldInView(u, job.user, sha);
    NotUnchanged(t, job);
    OneMoreHeld(env, t, job);
    Reachable.HeldHasText(env, u, job.user, sha);
    env.CanonIsOfTheBytes(job.fetched.value);
  }

  lemma NotUnchanged(t: Tables, job: Job)
    requires !Live(t, job.File())
    ensures !Isolation.UnchangedIn(Isolation.ViewOf(t, job.user), job)
  {
  }

  lemma OneMoreHeld(env: Env, t: Tables, job: Job)
    requires job.fetched.Some?
    ensures var sha := env.hash(job.fetched.value);
      var v := Isolation.ViewOf(t, job.user);
      var cached := Isolation.Cached(env, t, job);
      Isolation.Apply(env, v, job, Isolation.DecideAttach(env, v, sha, NoFault, cached)).holds == v.holds + {sha}
  {
    hide Isolation.ViewOf;
  }

  /**
   * A user syncs a document and searches, which builds the index; then removes the
   * document and syncs another with as many chunks. The index in force is still the first
   * one: it is not the rebuild, names nothing of the new document, and nothing that it
   * names is readable.
   */
  lemma SwapIsNotSeen<Index>(env: Env, first: Job, second: Job, cached: Built<Index>)
    requires env.Valid() && first.user == second.user
    requires first.fetched.Some? && second.fetched.Some? && first.fetched != second.fetched
    requires env.Extract(first.item.key, first.fetched.value).Some?
    requires env.Extract(second.item.key, second.fetched.value).Some?
    requires |ChunksOf(env, first)| == |ChunksOf(env, second)| > 0
    requires cached.chunks == UserChunks(Play(env, Empty, [Sync(first, NoFault)]), first.user)
    requires cached.count == |cached.chunks|
    ensures var user := first.user;
      var t := Play(env, Empty, [Sync(first, NoFault)]);
      var u := Play(env, t, [Remove(user, first.File()), Sync(second, NoFault)]);
      var rows := InForce(Some(cached), UserChunks(u, user));
      && rows == UserChunks(t, user) && rows != UserChunks(u, user) && rows != []
      && forall i :: 0 <= i < |rows| ==>
           && rows[i].sha != env.hash(second.fetched.value)
           && Documents.Readable(u, user, Retrieval.ChunkId(ChunkRef(rows[i].sha, rows[i].ordinal))) == None
  {
    hide UserChunks, Play, Step, Held, Inv, ChunkRows, Crashes.LastNameOf, Documents.Readable, ChunksOf;
    var user := first.user;
    var lost, gained := env.hash(first.fetched.value), env.hash(second.fetched.value);
    var t := Play(env, Empty, [Sync(first, NoFault)]);
    var u := Play(env, t, [Remove(user, first.File()), Sync(second, NoFault)]);
    AfterFirst(env, first);
    AfterSecond(env, t, first, second);
    SwappedRows(t, u, user, lost, gained);
    assert UserChunks(u, user)[0].sha != UserChunks(t, user)[0].sha;
  }

  lemma AfterFirst(env: Env, first: Job)
    requires env.Valid() && first.fetched.Some?
    requires env.Extract(first.item.key, first.fetched.value).Some? && ChunksOf(env, first) != []
    ensures var t := Play(env, Empty, [Sync(first, NoFault)]);
      var lost := env.hash(first.fetched.value);
      && Inv(env, t) && Held(t, first.user) == {lost} && ChunkRows(t, lost) == ChunksOf(env, first)
      && Crashes.LastNameOf(env, t, first)
      && forall id :: id in t.files ==> id == first.File()
  {
    hide SyncObject, Inv, ChunkRows, Crashes.LastNameOf;
    PlayOne(env, Empty, Sync(first, NoFault));
    EmptyIsSound(env);
    SyncAddsOne(env, Empty, first);
    Crashes.OneSyncGetsThere(env, first);
    Crashes.OnlyRow(env, first);
  }

  lemma PlayOne(env: Env, t: Tables, op: Op)
    ensures Play(env, t, [op]) == Step(env, t, op)
  {
    hide Step;
    assert [op][1..] == [];
    assert Play(env, Step(env, t, op), []) == Step(env, t, op);
  }

  lemma AfterSecond(env: Env, t: Tables, first: Job, second: Job)
    requires env.Valid() && Inv(env, t) && first.user == second.user
    requires first.fetched.Some? && second.fetched.Some?
    requires Held(t, first.user) == {env.hash(first.fetched.value)} && Crashes.LastNameOf(env, t, first)
    requires env.Extract(second.item.key, second.fetched.value).Some?
    requires forall id :: id in t.files ==> id == first.File()
    ensures var u := Play(env, t, [Remove(first.user, first.File()), Sync(second, NoFault)]);
      var gained := env.hash(second.fetched.value);
      && Held(u, first.user) == {gained} && ChunkRows(u, gained) == ChunksOf(env, second)
  {
    hide SyncObject, Inv, RemoveFile, ChunkRows, Held, Play, Crashes.LastNameOf, ChunksOf;
    var removed := RemoveFile(t, first.user, first.File());
    PlayTwo(env, t, Remove(first.user, first.File()), Sync(second, NoFault));
    RemovedLast(env, t, first);
    Reachable.StepKeeps(env, t, Remove(first.user, first.File()));
    SyncAddsOne(env, removed, second);
  }

  lemma PlayTwo(env: Env, t: Tables, a: Op, b: Op)
    ensures Play(env, t, [a, b]) == Step(env, Step(env, t, a), b)
  {
    hide Step;
    assert [a, b][1..] == [b];
    PlayOne(env, Step(env, t, a), b);
  }

  lemma RemovedLast(env: Env, t: Tables, first: Job)
    requires first.fetched.Some? && Crashes.LastNameOf(env, t, first)
    requires Held(t, first.user) == {env.hash(first.fetched.value)}
    ensures var removed := RemoveFile(t, first.user, first.File());
      && Held(removed, first.user) == {}
      && (forall id :: Live(removed, id) ==> Live(t, id) && id != first.File())
  {
    var user, id, sha := first.user, first.File(), env.hash(first.fetched.value);
    var deleted := SoftDelete(t, user, id);
    RemovalIs(env, t, first);
    assert deleted.holds == t.holds;
    hide RemoveFile, SoftDelete, References;
    DeletedIsDead(t, first);
    LastHeld(deleted, user, sha);
  }

  lemma RemovalIs(env: Env, t: Tables, first: Job)
    requires Crashes.LastNameOf(env, t, first)
    ensures var user, id, sha := first.user, first.File(), env.hash(first.fetched.value);
      RemoveFile(t, user, id) == RemoveHolding(DropEntries(SoftDelete(t, user, id), user, sha), user, sha)
  {
    hide References, SoftDelete, DropEntries, TextReady;
  }

  lemma DeletedIsDead(t: Tables, first: Job)
    ensures forall id :: Live(SoftDelete(t, first.user, first.File()), id) ==> Live(t, id) && id != first.File()
  {
  }

  lemma LastHeld(t: Tables, user: User, sha: Sha)
    requires Held(t, user) == {sha}
    ensures var u := RemoveHolding(DropEntries(t, user, sha), user, sha);
      Held(u, user) == {} && u.files == t.files
  {
    forall h | h in t.holds && h.user == user ensures h == Holding(user, sha) {
      assert h.sha in Held(t, user);
    }
  }
}
