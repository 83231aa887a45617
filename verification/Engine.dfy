/**
 * The engine as the source writes it: an object whose tables the sync loop, the
 * reap and the removal route update in place. Each method is proved against the
 * functions of Ladder, Removal and Runs.
 */
module Engine {
  import opened Wrappers
  import opened Extraction
  import opened Content
  import opened Store
  import opened Ladder
  import opened Removal
  import opened Runs
  import opened RunTable

  datatype Directory = Directory(user: User, datasource: Id)

  datatype RunRow = RunRow(user: User, directory: Id, state: RunState)

  class Platform {
    const env: Env

    var blobs: map<Sha, Blob>
    var chunks: map<Sha, seq<string>>
    var cache: map<CacheKey, Vector>
    var texts: map<string, string>
    var files: map<FileKey, FileRow>
    var holds: set<Holding>
    var collections: map<User, Collection>

    var datasources: map<Id, User>
    var directories: map<Id, Directory>
    var runs: map<Id, RunRow>
    var counters: map<Id, Counters>      // the counter columns of sync_runs

    constructor (env: Env)
      ensures this.env == env && Snapshot() == Empty
      ensures datasources == map[] && directories == map[] && runs == map[] && counters == map[]
    {
      this.env := env;
      blobs, chunks, cache, texts := map[], map[], map[], map[];
      files, holds, collections := map[], {}, map[];
      datasources, directories, runs, counters := map[], map[], map[], map[];
    }

    function Snapshot(): Tables
      reads this
    {
      Tables(blobs, chunks, cache, texts, files, holds, collections)
    }

    method TextChunksFor(sha: Sha, key: string, data: Bytes) returns (r: Attempt<seq<string>, SyncFault>)
      modifies this`blobs, this`chunks, this`texts
      ensures (Snapshot(), r) == TextChunks(env, old(Snapshot()), sha, key, data)
    {
      hide RelPath, Env.Chunks, Env.Extract;
      if sha in blobs && blobs[sha].extraction == Some(env.extraction) {
        var cached := if sha in chunks then chunks[sha] else [];
        if cached != [] {
          return Ok(cached);
        }
        var ref := blobs[sha].textRef.GetOr("");
        if ref == "" {
          return Raised(TextStoreError);
        }
        var text := if ref in texts then texts[ref] else "";
        if text != "" {
          var again := env.Chunks(text);
          chunks := chunks[sha := again];
          return Ok(again);
        }
      }
      var extracted := env.Extract(key, data);
      if extracted.None? {
        return Raised(ExtractError);
      }
      var pieces := env.Chunks(extracted.value);
      texts := texts[RelPath(sha) := extracted.value];
      if sha in blobs {
        blobs := blobs[sha := blobs[sha].(
          textRef := Some(RelPath(sha)), extraction := Some(env.extraction))];
      }
      chunks := chunks[sha := pieces];
      return Ok(pieces);
    }

    /** The cached vectors of one blob at the current version, by ordinal. */
    method GetCachedVectors(sha: Sha) returns (cached: map<nat, Vector>)
      ensures forall i :: i in cached <==> CacheKey(sha, i, env.embedding) in cache
      ensures forall i :: i in cached ==> cached[i] == cache[CacheKey(sha, i, env.embedding)]
    {
      cached := map key | key in cache && key.sha == sha && key.version == env.embedding :: key.ordinal := cache[key];
    }

    /** One transaction: an INSERT a vector, ON CONFLICT DO NOTHING. */
    method PutCachedVectors(sha: Sha, vectors: map<nat, Vector>)
      modifies this`cache
      ensures Snapshot() == PutCached(old(Snapshot()), sha, env.embedding, vectors)
    {
      hide PutCached;
      ghost var start := Snapshot();
      var rows := InsertAll(cache, sha, env.embedding, vectors);
      CacheWithAll(start, sha, env.embedding, vectors);
      cache := rows;
    }

    /** The vectors of all chunks, from the cache or newly embedded and cached. */
    method EmbedMissing(sha: Sha, pieces: seq<string>, fault: Fault)
      returns (r: Attempt<seq<Vector>, SyncFault>, count: nat)
      modifies this`cache
      ensures var missing := Missing(env, old(Snapshot()), sha, |pieces|);
        && count == |missing|
        && if missing != {} && fault.NeedsCall() then r == Raised(fault.Error()) && Snapshot() == old(Snapshot())
           else
             && r == Ok(AllVectors(env, old(Snapshot()), sha, pieces))
             && Snapshot() == PutCached(old(Snapshot()), sha, env.embedding, Fresh(env, pieces, missing))
    {
      hide PutCached, Missing, Fresh, AllVectors;
      ghost var start := Snapshot();
      var cached := GetCachedVectors(sha);
      var missing := set i: nat | i < |pieces| && i !in cached;
      MissingIs(env, start, sha, |pieces|, cached, missing);
      count := |missing|;
      if missing == {} {
        FreshOfNone(env, pieces);
        NothingToCache(start, sha, env.embedding, Fresh(env, pieces, missing));
        assert forall i: nat :: i < |pieces| ==> i !in missing && i in cached;
        var all := seq(|pieces|, i requires 0 <= i < |pieces| => env.single(cached[i]));
        VectorsAre(env, start, sha, pieces, cached, map[], all);
        return Ok(all), 0;
      }
      if fault.EmbedFails? {
        return Raised(EmbedError), count;
      }
      var computed := map i | i in missing :: env.single(env.embed(pieces[i]));
      if fault.CacheFails? {
        return Raised(CacheError), count;
      }
      FreshIs(env, pieces, missing, computed);
      PutCachedVectors(sha, computed);
      var vectors := seq(|pieces|, i requires 0 <= i < |pieces| =>
        if i in computed then computed[i] else assert i !in missing; env.single(cached[i]));
      VectorsAre(env, start, sha, pieces, cached, computed, vectors);
      return Ok(vectors), count;
    }

    method IndexBlobForUser(user: User, sha: Sha, pieces: seq<string>, fault: Fault)
      returns (r: Attempt<Split, SyncFault>)
      modifies this`cache, this`collections
      ensures (Snapshot(), r) == IndexBlob(env, old(Snapshot()), user, sha, pieces, fault)
    {
      hide PutCached, Missing, Entries, Fresh, AllVectors, IndexBlob;
      ghost var start := Snapshot();
      IndexSteps(env, start, user, sha, pieces, fault);
      if pieces == [] {
        return Ok(Split(0, 0));
      }
      EntriesAre(env, start, user, sha, pieces);
      var vectors, missing := EmbedMissing(sha, pieces, fault);
      if vectors.Raised? {
        return Raised(vectors.error);
      }
      if fault == UpsertFails {
        return Raised(VectorStoreError);
      }
      var entries := map i: nat | i < |pieces| :: ChunkRef(sha, i) :=
        Entry(vectors.value[i], pieces[i], user, sha, i);
      assert entries == Entries(env, start, user, sha, pieces);
      var collection := if user in collections then collections[user] else map[];
      collections := collections[user := collection + entries];
      return Ok(Split(missing, |pieces| - missing));
    }

    method Bump(run: Id, delta: Counters)
      requires run in counters
      modifies this`counters
      ensures counters == old(counters)[run := Plus(old(counters)[run], delta)]
    {
      counters := counters[run := Plus(counters[run], delta)];
    }

    method ProcessObject(run: Id, job: Job, fault: Fault) returns (r: Attempt<Outcome, SyncFault>)
      requires run in counters
      modifies this`blobs, this`chunks, this`texts, this`cache, this`collections, this`holds, this`files
      modifies this`counters
      ensures (Snapshot(), r) == Process(env, old(Snapshot()), job, fault)
      ensures counters ==
        old(counters)[run := Plus(old(counters)[run], Delta(r, BytesOf(old(Snapshot()), job)))]
    {
      hide Ingest, Plus, Delta;
      var id := job.File();
      if id in files && !files[id].deleted && files[id].state == Indexed && files[id].sha.Some?
         && files[id].stamp == job.item.stamp {
        Bump(run, Zero.(skipped := 1));
        DeltaOf(Ok(Skipped));
        return Ok(Skipped);
      }
      if job.fetched.None? {
        NoDelta(counters[run], FetchError);
        assert counters == counters[run := counters[run]];
        return Raised(FetchError);
      }
      r := IngestBytes(run, job, job.fetched.value, fault);
    }

    /** upsert_blob: ON CONFLICT DO NOTHING. */
    method InsertBlob(sha: Sha, size: nat)
      modifies this`blobs
      ensures Snapshot() == UpsertBlob(old(Snapshot()), sha, size)
    {
      if sha !in blobs {
        blobs := blobs[sha := Blob(size, None, None, None)];
      }
    }

    /** _process_object once the object is downloaded. */
    method IngestBytes(run: Id, job: Job, data: Bytes, fault: Fault) returns (r: Attempt<Outcome, SyncFault>)
      requires run in counters
      modifies this`blobs, this`chunks, this`texts, this`cache, this`collections, this`holds, this`files
      modifies this`counters
      ensures (Snapshot(), r) == Ingest(env, old(Snapshot()), job, data, fault)
      ensures counters == old(counters)[run := Plus(old(counters)[run], Delta(r, |data|))]
    {
      hide TextChunks, Attach, Plus, Delta;
      ghost var start, c := Snapshot(), counters[run];
      var sha := env.hash(data);
      Bump(run, Zero.(bytes := |data|));
      InsertBlob(sha, |data|);
      var text := TextChunksFor(sha, job.item.key, data);
      if text.Raised? {
        DeltaBytes(c, Raised(text.error), |data|);
        NoDelta(Plus(c, Zero.(bytes := |data|)), text.error);
        return Raised(text.error);
      }
      r := AttachObject(run, job, sha, text.value, fault);
      DeltaBytes(c, r, |data|);
    }

    /** The rungs of _process_object below the text. */
    method AttachObject(run: Id, job: Job, sha: Sha, pieces: seq<string>, fault: Fault)
      returns (r: Attempt<Outcome, SyncFault>)
      requires run in counters
      modifies this`blobs, this`cache, this`collections, this`holds, this`files, this`counters
      ensures (Snapshot(), r) == Attach(env, old(Snapshot()), job, sha, pieces, fault)
      ensures counters == old(counters)[run := Plus(old(counters)[run], Delta(r, 0))]
      ensures r.Ok? ==> r.value.Stored?
    {
      hide IndexBlob;
      var row := job.Row(Some(sha), None);
      if Holding(job.user, sha) in holds {
        files := files[job.File() := row];
        Bump(run, Zero.(added := 1, reused := |pieces|));
        return Ok(Stored(sha, Split(0, |pieces|)));
      }
      var result := IndexBlobForUser(job.user, sha, pieces, fault);
      if result.Raised? {
        assert counters == counters[run := Plus(counters[run], Zero)];
        return Raised(result.error);
      }
      holds := holds + {Holding(job.user, sha)};
      if sha in blobs {
        blobs := blobs[sha := blobs[sha].(embedding := Some(env.embedding))];
      }
      files := files[job.File() := row];
      Bump(run, Zero.(added := 1, embedded := result.value.embedded, reused := result.value.reused));
      return Ok(Stored(sha, result.value));
    }

    /** DELETE /files/{id}. */
    method RemoveOne(user: User, id: FileKey) returns (reply: Reply)
      modifies this`files, this`holds, this`collections
      ensures Snapshot() == RemoveFile(old(Snapshot()), user, id)
      ensures reply == ReplyOf(old(Snapshot()), user, id)
    {
      if id.user != user || id !in files || files[id].deleted {
        return NotFound;
      }
      var sha := files[id].sha;
      var dropped := ReapOne(user, id, sha);
      return Removed(dropped, sha.Some? && dropped == 0);
    }

    /** soft_delete_file. */
    method MarkDeleted(user: User, id: FileKey)
      modifies this`files
      ensures Snapshot() == SoftDelete(old(Snapshot()), user, id)
    {
      if id.user == user && id in files && !files[id].deleted {
        files := files[id := files[id].(state := Deleted, deleted := true)];
      }
    }

    /** drop_blob_for_user: find the ids by their hash, then delete them. */
    method DropBlob(user: User, sha: Sha) returns (dropped: nat)
      modifies this`collections
      ensures Snapshot() == DropEntries(old(Snapshot()), user, sha)
      ensures dropped == |EntriesOf(old(Snapshot()), user, sha)|
    {
      var collection := if user in collections then collections[user] else map[];
      var ids := set ref | ref in collection && collection[ref].sha == sha;
      collections := collections[user := collection - ids];
      return |ids|;
    }

    /** Soft delete a row, then drop the vectors behind it if it was the last name. */
    method ReapOne(user: User, id: FileKey, sha: Option<Sha>) returns (dropped: nat)
      modifies this`files, this`holds, this`collections
      ensures Snapshot() == ReapRow(old(Snapshot()), user, id, sha)
      ensures dropped == |Dropped(old(Snapshot()), Reap(user, id, sha))|
    {
      hide DropEntries, References, SoftDelete;
      dropped := 0;
      ghost var start := Snapshot();
      MarkDeleted(user, id);
      SameVectors(start, user, id, sha);
      if sha.Some? && !References(Snapshot(), user, sha.value) {
        dropped := DropBlob(user, sha.value);
        holds := holds - {Holding(user, sha.value)};
      }
    }

    /** ReapOne up to an error: after the soft delete, or after the drop. */
    method ReapHalf(user: User, id: FileKey, sha: Option<Sha>, halt: RemovalPoint)
      modifies this`files, this`collections
      ensures Snapshot() == CrashInReap(old(Snapshot()), user, id, sha, halt)
    {
      hide DropEntries, References, SoftDelete;
      MarkDeleted(user, id);
      if halt.AfterDrop? && sha.Some? && !References(Snapshot(), user, sha.value) {
        var _ := DropBlob(user, sha.value);
      }
    }

    /** _reap_deleted: read the directory's live rows once, then remove the unlisted ones. */
    method ReapDeleted(place: Place, seen: set<string>, escape: Escape) returns (deleted: nat, left: bool)
      modifies this`files, this`holds, this`collections
      ensures left <==> EscapesReap(old(Snapshot()), place, seen, escape)
      ensures left ==> LeftInReap(old(Snapshot()), place, seen, escape, Snapshot())
      ensures !left ==>
        && Snapshot() == RemoveSet(old(Snapshot()), place.user, Unlisted(old(Snapshot()), place, seen))
        && deleted == |Unlisted(old(Snapshot()), place, seen)|
    {
      hide RemoveSet, ReapRow, LeftInReap, CrashInReap, Dropped, RemoveFile, SoftDelete, References;
      ghost var start := Snapshot();
      var rows := map id | id in files && id.user == place.user && !files[id].deleted
                           && files[id].directory == place.directory :: files[id].sha;
      ghost var gone: set<FileKey> := {};
      var todo := rows.Keys;
      deleted := 0;
      RemoveNothing(start, place.user);
      while todo != {}
        invariant todo <= rows.Keys
        invariant gone == set id | id in rows && id !in todo && id.key !in seen
        invariant Snapshot() == RemoveSet(start, place.user, gone)
        invariant deleted == |gone| && (escape.InReap? ==> deleted <= escape.rows)
        decreases |todo|
      {
        var id :| id in todo;
        todo := todo - {id};
        if id.key in seen {
          continue;
        }
        if escape.InReap? && deleted == escape.rows {
          if escape.half.Some? {
            ReapHalf(place.user, id, rows[id], escape.half.value);
          }
          LeavesInReap(start, place, seen, escape, gone, id);
          return deleted, true;
        }
        OneMoreName(start, place.user, gone, id);
        var _ := ReapOne(place.user, id, rows[id]);
        deleted := deleted + 1;
        gone := gone + {id};
      }
      assert gone == Unlisted(start, place, seen);
      return deleted, false;
    }

    /**
     * run_sync on a claimed run. listing is None when the provider cannot be built
     * or the listing raises; visits carry what each fetch will return; escape is where an
     * error leaves the run, if it gets there.
     */
    method RunSync(run: Id, listing: Option<seq<Visit>>, escape: Escape)
      requires run in runs && run in counters
      modifies this
      ensures datasources == old(datasources) && directories == old(directories)
      ensures run in counters && counters == old(counters)[run := counters[run]]
      ensures var row := old(runs)[run];
        var start := old(Snapshot());
        var c := counters[run];
        if escape.InListing? then
          Snapshot() == start && counters == old(counters) && runs == old(runs)
        else if listing.None? || !old(Registered(row)) then
          Snapshot() == start && counters == old(counters) && runs == old(runs)[run := row.(state := Aborted)]
        else
          var place, visits := old(PlaceOf(row)), listing.value;
          var (synced, s) := Objects(env, start, place, visits);
          var report := RunListing(env, start, place, visits);
          && RunLeaves(env, start, place, visits, escape, Snapshot())
          && if EscapesLoop(env, start, place, visits, escape) then
               runs == old(runs) && c == Plus(old(counters)[run], LeftInLoop(env, start, place, visits, escape).1)
             else if EscapesReap(synced, place, Keys(visits), escape) then
               runs == old(runs) && c == Plus(old(counters)[run], s)
             else
               && runs == (if escape.AtEnd? then old(runs) else old(runs)[run := row.(state := report.state)])
               && c == Plus(old(counters)[run], if escape == AtEnd(false) then s else report.counters)
    {
      hide Objects, RemoveSet, Unlisted, Plus, EscapesLoop, LeftInLoop, LeftInReap, Keys;
      var row := runs[run];
      ghost var c0 := counters[run];
      assert counters == counters[run := c0];
      if escape.InListing? {
        return;
      }
      if !Registered(row) || listing.None? {
        runs := runs[run := row.(state := Aborted)];
        return;
      }
      var place := PlaceOf(row);
      ghost var c := Objects(env, Snapshot(), place, listing.value).1;
      ObjectsDeleteNothing(env, Snapshot(), place, listing.value);
      var failures, seenKeys, broken := SyncObjects(run, place, listing.value, escape);
      if broken {
        return;
      }
      var deleted, left := ReapDeleted(place, seenKeys, escape);
      if left {
        return;
      }
      DeletedCount(c0, c, deleted);
      if escape == AtEnd(false) {
        return;
      }
      if deleted > 0 {
        Bump(run, Zero.(deleted := deleted));
      }
      if escape.AtEnd? {
        return;
      }
      runs := runs[run := row.(state := if failures > 0 then Partial else Succeeded)];
    }

    /**
     * _process_object and its handler. halt is where an error leaves the handler: before
     * or after the object is counted as failed.
     */
    method VisitOne(run: Id, job: Job, fault: Fault, halt: Option<bool>) returns (failed: bool, left: bool)
      requires run in counters
      modifies this`blobs, this`chunks, this`texts, this`cache, this`collections, this`holds, this`files
      modifies this`counters
      ensures var r := Process(env, old(Snapshot()), job, fault).1;
        var done := Plus(old(counters)[run], Delta(r, BytesOf(old(Snapshot()), job)));
        && failed == r.Raised? && (left <==> r.Raised? && halt.Some?)
        && counters == old(counters)[
             run := if failed && halt != Some(false) then Plus(done, Zero.(failed := 1)) else done]
        && Snapshot() ==
             var after := Process(env, old(Snapshot()), job, fault).0;
             if failed && !left then UpsertFile(after, job.File(), job.Row(None, Some(r.error))) else after
    {
      hide Process, Plus, Delta, BytesOf;
      var result := ProcessObject(run, job, fault);
      if result.Ok? {
        return false, false;
      }
      if halt == Some(false) {
        return true, true;
      }
      Bump(run, Zero.(failed := 1));
      if halt.Some? {
        return true, true;
      }
      files := files[job.File() := job.Row(None, Some(result.error))];
      return true, false;
    }

    /** run_sync's loop over the listing. */
    method SyncObjects(run: Id, place: Place, visits: seq<Visit>, escape: Escape)
      returns (failures: nat, seenKeys: set<string>, left: bool)
      requires run in counters
      modifies this`blobs, this`chunks, this`texts, this`cache, this`collections, this`holds, this`files
      modifies this`counters
      ensures left <==> EscapesLoop(env, old(Snapshot()), place, visits, escape)
      ensures left ==>
        var (t, c) := LeftInLoop(env, old(Snapshot()), place, visits, escape);
        Snapshot() == t && counters == old(counters)[run := Plus(old(counters)[run], c)]
      ensures !left ==>
        var (t, c) := Objects(env, old(Snapshot()), place, visits);
        && Snapshot() == t
        && counters == old(counters)[run := Plus(old(counters)[run], c)]
        && failures == c.failed && seenKeys == Keys(visits)
    {
      hide SyncObject, Process, Plus, Tally, Objects, BytesOf, Delta, Keys, EscapesLoop, LeftInLoop;
      failures, seenKeys := 0, {};
      ObjectsNone(env, Snapshot(), place);
      assert visits[..0] == [];
      ghost var start, c0 := Snapshot(), counters[run];
      PlusZero(c0);
      assert counters == counters[run := c0];
      for index := 0 to |visits|
        invariant Snapshot() == Objects(env, start, place, visits[..index]).0
        invariant counters == old(counters)[run := Plus(c0, Objects(env, start, place, visits[..index]).1)]
        invariant failures == Objects(env, start, place, visits[..index]).1.failed
        invariant seenKeys == Keys(visits[..index])
        invariant escape.AtObject? || escape.InHandler? ==>
          escape.index < index ==> !EscapesLoop(env, start, place, visits, escape)
      {
        var visit := visits[index];
        var job := JobAt(place, visit);
        ghost var before, c := Snapshot(), Objects(env, start, place, visits[..index]).1;
        StepCounts(env, before, job, visit.fault, c0, c);
        LeftCounts(env, start, place, visits, index, c0);
        ObjectsSnoc(env, start, place, visits, index);
        if escape == AtObject(index, false) {
          return failures, seenKeys, true;
        }
        seenKeys := seenKeys + {visit.item.key};
        Bump(run, Zero.(seen := 1));
        if escape == AtObject(index, true) {
          return failures, seenKeys, true;
        }
        var failed, raised := VisitOne(
          run, job, visit.fault,
          if escape.InHandler? && escape.index == index then Some(escape.counted) else None);
        if raised {
          return failures, seenKeys, true;
        }
        if failed {
          failures := failures + 1;
        }
      }
      NotInLoop(env, start, place, visits, escape);
      assert visits[..|visits|] == visits;
      return failures, seenKeys, false;
    }

    /** The run's directory and its datasource both still exist and are the user's. */
    predicate Registered(row: RunRow)
      reads this
    {
      && row.directory in directories && directories[row.directory].user == row.user
      && directories[row.directory].datasource in datasources
      && datasources[directories[row.directory].datasource] == row.user
    }

    function PlaceOf(row: RunRow): Place
      requires Registered(row)
      reads this
    {
      Place(row.user, directories[row.directory].datasource, row.directory)
    }
  }

  // --- the statements of index_blob_for_user, one by one ---------------------------------------------

  method InsertAll(cache: map<CacheKey, Vector>, sha: Sha, version: string, vectors: map<nat, Vector>)
    returns (rows: map<CacheKey, Vector>)
    ensures rows == CacheWith(cache, sha, version, vectors, vectors.Keys)
  {
    hide CacheWith;
    rows := cache;
    var left, done: set<nat> := vectors.Keys, {};
    CacheWithNone(cache, sha, version, vectors);
    while left != {}
      invariant left <= vectors.Keys && done <= vectors.Keys && left + done == vectors.Keys && left !! done
      invariant rows == CacheWith(cache, sha, version, vectors, done)
      decreases |left|
    {
      var i :| i in left;
      CacheOneMore(cache, sha, version, vectors, done, i);
      if CacheKey(sha, i, version) !in rows {
        rows := rows[CacheKey(sha, i, version) := vectors[i]];
      }
      left, done := left - {i}, done + {i};
    }
    assert done == vectors.Keys;
  }

  lemma CacheWithNone(cache: map<CacheKey, Vector>, sha: Sha, version: string, vectors: map<nat, Vector>)
    ensures CacheWith(cache, sha, version, vectors, {}) == cache
  {
  }

  /** The cache once the vectors of done are inserted. */
  function CacheWith(
    cache: map<CacheKey, Vector>, sha: Sha, version: string, vectors: map<nat, Vector>, done: set<nat>)
    : map<CacheKey, Vector>
    requires done <= vectors.Keys
  {
    (map i | i in done :: CacheKey(sha, i, version) := vectors[i]) + cache
  }

  lemma CacheOneMore(
    cache: map<CacheKey, Vector>, sha: Sha, version: string, vectors: map<nat, Vector>, done: set<nat>, i: nat)
    requires done <= vectors.Keys && i in vectors && i !in done
    ensures var now := CacheWith(cache, sha, version, vectors, done);
      CacheWith(cache, sha, version, vectors, done + {i})
        == if CacheKey(sha, i, version) in now then now else now[CacheKey(sha, i, version) := vectors[i]]
  {
  }

  lemma CacheWithAll(t: Tables, sha: Sha, version: string, vectors: map<nat, Vector>)
    ensures t.(cache := CacheWith(t.cache, sha, version, vectors, vectors.Keys)) == PutCached(t, sha, version, vectors)
  {
  }

  lemma MissingIs(env: Env, t: Tables, sha: Sha, count: nat, cached: map<nat, Vector>, missing: set<nat>)
    requires forall i :: i in cached <==> CacheKey(sha, i, env.embedding) in t.cache
    requires missing == set i: nat | i < count && i !in cached
    ensures missing == Missing(env, t, sha, count)
    ensures forall i: nat :: i < count ==> (i in missing <==> i !in cached)
  {
  }

  lemma FreshIs(env: Env, pieces: seq<string>, missing: set<nat>, computed: map<nat, Vector>)
    requires forall i :: i in missing ==> i < |pieces|
    requires forall i :: i in computed <==> i in missing
    requires forall i :: i in missing ==> computed[i] == env.single(env.embed(pieces[i]))
    ensures computed == Fresh(env, pieces, missing)
  {
  }

  function AllVectors(env: Env, t: Tables, sha: Sha, pieces: seq<string>): (all: seq<Vector>)
    ensures |all| == |pieces|
  {
    seq(|pieces|, i requires 0 <= i < |pieces| => VectorFor(env, t, sha, pieces, i))
  }

  lemma FreshOfNone(env: Env, pieces: seq<string>)
    ensures Fresh(env, pieces, {}) == map[]
  {
  }

  lemma VectorsAre(
    env: Env, t: Tables, sha: Sha, pieces: seq<string>,
    cached: map<nat, Vector>, computed: map<nat, Vector>, all: seq<Vector>)
    requires forall i :: i in cached <==> CacheKey(sha, i, env.embedding) in t.cache
    requires forall i :: i in cached ==> cached[i] == t.cache[CacheKey(sha, i, env.embedding)]
    requires |all| == |pieces|
    requires forall i: nat :: i < |pieces| ==>
      if i in computed then i !in cached && all[i] == env.single(env.embed(pieces[i]))
      else i in cached && all[i] == env.single(cached[i])
    ensures all == AllVectors(env, t, sha, pieces)
  {
  }

  lemma EntriesAre(env: Env, t: Tables, user: User, sha: Sha, pieces: seq<string>)
    ensures Entries(env, t, user, sha, pieces) == map i: nat | i < |pieces| :: ChunkRef(sha, i) :=
      Entry(AllVectors(env, t, sha, pieces)[i], pieces[i], user, sha, i)
  {
  }

  /** What _process_object adds to the counters; the loop adds the rest. */
  function Delta(r: Attempt<Outcome, SyncFault>, bytes: nat): Counters {
    var d := Zero.(bytes := bytes);
    match r
    case Raised(_) => d
    case Ok(Skipped) => d.(skipped := 1)
    case Ok(Stored(_, split)) => d.(added := 1, embedded := split.embedded, reused := split.reused)
    case Ok(Broken(_)) => d
  }

  lemma DeltaOf(r: Attempt<Outcome, SyncFault>)
    ensures r == Ok(Skipped) ==> Delta(r, 0) == Zero.(skipped := 1)
  {
  }

  lemma NoDelta(c: Counters, error: SyncFault)
    ensures Plus(c, Delta(Raised(error), 0)) == c
  {
  }

  lemma DeltaBytes(c: Counters, r: Attempt<Outcome, SyncFault>, bytes: nat)
    ensures Plus(Plus(c, Zero.(bytes := bytes)), Delta(r, 0)) == Plus(c, Delta(r, bytes))
  {
  }

  lemma PlusZero(c: Counters)
    ensures Plus(c, Zero) == c
  {
  }

  /** The loop's bumps and _process_object's together make one tally. */
  lemma StepCounts(env: Env, t: Tables, job: Job, fault: Fault, c0: Counters, c: Counters)
    ensures var (u, outcome) := SyncObject(env, t, job, fault);
      var r := Process(env, t, job, fault).1;
      var bumped := Plus(Plus(Plus(c0, c), Zero.(seen := 1)), Delta(r, BytesOf(t, job)));
      && Plus(c0, Tally(c, outcome, BytesOf(t, job))) ==
           (if r.Raised? then Plus(bumped, Zero.(failed := 1)) else bumped)
      && u == (if r.Raised? then UpsertFile(Process(env, t, job, fault).0, job.File(), job.Row(None, Some(r.error)))
               else Process(env, t, job, fault).0)
      && Tally(c, outcome, BytesOf(t, job)).failed == c.failed + (if r.Raised? then 1 else 0)
  {
    hide Ingest;
    IngestStores(env, t, job, fault);
  }

  lemma SameVectors(t: Tables, user: User, id: FileKey, sha: Option<Sha>)
    ensures sha.Some? ==> EntriesOf(SoftDelete(t, user, id), user, sha.value) == EntriesOf(t, user, sha.value)
  {
  }

  /** What the bumps of the loop come to at each point where an error may leave it. */
  lemma LeftCounts(env: Env, t: Tables, place: Place, visits: seq<Visit>, index: nat, c0: Counters)
    requires index < |visits|
    ensures var (before, c) := Objects(env, t, place, visits[..index]);
      var job := JobAt(place, visits[index]);
      var (u, r) := Process(env, before, job, visits[index].fault);
      var seen := Plus(Plus(c0, c), Zero.(seen := 1));
      var bumped := Plus(seen, Delta(r, BytesOf(before, job)));
      && EscapesLoop(env, t, place, visits, AtObject(index, false))
      && LeftInLoop(env, t, place, visits, AtObject(index, false)) == (before, c)
      && EscapesLoop(env, t, place, visits, AtObject(index, true))
      && LeftInLoop(env, t, place, visits, AtObject(index, true)) == (before, c.(seen := c.seen + 1))
      && Plus(c0, c.(seen := c.seen + 1)) == seen
      && (EscapesLoop(env, t, place, visits, InHandler(index, false)) <==> r.Raised?)
      && (EscapesLoop(env, t, place, visits, InHandler(index, true)) <==> r.Raised?)
      && (r.Raised? ==>
            var (a, d) := LeftInLoop(env, t, place, visits, InHandler(index, false));
            var (b, e) := LeftInLoop(env, t, place, visits, InHandler(index, true));
            a == b == u && Plus(c0, d) == bumped && Plus(c0, e) == Plus(bumped, Zero.(failed := 1)))
  {
    hide Process, Objects, BytesOf;
  }

  lemma NotInLoop(env: Env, t: Tables, place: Place, visits: seq<Visit>, escape: Escape)
    ensures !(escape.AtObject? || escape.InHandler?) ==> !EscapesLoop(env, t, place, visits, escape)
    ensures escape.AtObject? || escape.InHandler? ==>
      escape.index >= |visits| ==> !EscapesLoop(env, t, place, visits, escape)
  {
  }

  lemma LeavesInReap(
    t: Tables, place: Place, seen: set<string>, escape: Escape, gone: set<FileKey>, id: FileKey)
    requires escape.InReap? && gone <= Unlisted(t, place, seen) && |gone| == escape.rows
    requires id in Unlisted(t, place, seen) && id !in gone
    ensures EscapesReap(t, place, seen, escape)
    ensures LeftInReap(t, place, seen, escape,
      HalfReaped(RemoveSet(t, place.user, gone), place.user, id, t.files[id].sha, escape.half))
  {
    hide RemoveSet, HalfReaped;
    SmallerSet(gone + {id}, Unlisted(t, place, seen));
  }

  lemma {:induction false} SmallerSet<T>(a: set<T>, b: set<T>)
    requires a <= b
    ensures |a| <= |b|
  {
    if a != {} {
      var x :| x in a;
      SmallerSet(a - {x}, b - {x});
    }
  }

  lemma ObjectsNone(env: Env, t: Tables, place: Place)
    ensures Objects(env, t, place, []) == (t, Zero) && Keys([]) == {}
  {
  }

  lemma ObjectsSnoc(env: Env, t: Tables, place: Place, visits: seq<Visit>, index: nat)
    requires index < |visits|
    ensures var (before, c) := Objects(env, t, place, visits[..index]);
      var job := JobAt(place, visits[index]);
      var (after, outcome) := SyncObject(env, before, job, visits[index].fault);
      Objects(env, t, place, visits[..index + 1]) == (after, Tally(c, outcome, BytesOf(before, job)))
    ensures Keys(visits[..index + 1]) == Keys(visits[..index]) + {visits[index].item.key}
  {
    hide SyncObject;
    assert visits[..index + 1][..index] == visits[..index];
    forall k | k in Keys(visits[..index]) ensures k in Keys(visits[..index + 1]) {
      var v :| v in visits[..index] && v.item.key == k;
      assert v in visits[..index + 1];
    }
    assert visits[index] in visits[..index + 1];
  }

  lemma IngestStores(env: Env, t: Tables, job: Job, fault: Fault)
    ensures var r := Process(env, t, job, fault).1; r.Ok? ==> !r.value.Broken?
  {
    hide TextChunks, IndexBlob;
  }

  lemma ObjectsDeleteNothing(env: Env, t: Tables, place: Place, visits: seq<Visit>)
    ensures Objects(env, t, place, visits).1.deleted == 0
  {
    hide SyncObject;
    if visits != [] {
      ObjectsDeleteNothing(env, t, place, visits[..|visits| - 1]);
    }
  }

  lemma DeletedCount(c0: Counters, c: Counters, deleted: nat)
    requires c.deleted == 0
    ensures Plus(Plus(c0, c), Zero.(deleted := deleted)) == Plus(c0, c.(deleted := deleted))
    ensures c.(deleted := 0) == c
  {
  }

  function Plus(a: Counters, b: Counters): Counters {
    Counters(
      a.seen + b.seen, a.added + b.added, a.skipped + b.skipped, a.failed + b.failed,
      a.deleted + b.deleted, a.embedded + b.embedded, a.reused + b.reused, a.bytes + b.bytes)
  }
}
