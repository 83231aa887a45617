/**
 * packages/core/sync.py and packages/core/vectors.py as functions from tables to
 * tables: what one object step, one reaped row and one removal do, and where a
 * crash can leave them.
 */
module Ladder {
  import opened Wrappers
  import opened Extraction
  import opened Content
  import opened Store

  // --- text and chunks: rung 1 -----------------------------------------------------

  predicate Marked(env: Env, t: Tables, sha: Sha) {
    sha in t.blobs && t.blobs[sha].extraction == Some(env.extraction)
  }

  function TextRef(t: Tables, sha: Sha): string {
    if sha in t.blobs then t.blobs[sha].textRef.GetOr("") else ""
  }

  /** read_text, where a missing file and an empty one lead to the same branch. */
  function StoredText(t: Tables, sha: Sha): string {
    if TextRef(t, sha) in t.texts then t.texts[TextRef(t, sha)] else ""
  }

  predicate UsesRows(env: Env, t: Tables, sha: Sha) {
    Marked(env, t, sha) && ChunkRows(t, sha) != []
  }

  predicate UsesStoredText(env: Env, t: Tables, sha: Sha) {
    && Marked(env, t, sha) && ChunkRows(t, sha) == []
    && TextRef(t, sha) != "" && StoredText(t, sha) != ""
  }

  /** An empty ref names the store's own directory, which cannot be opened. */
  predicate RefUnreadable(env: Env, t: Tables, sha: Sha) {
    Marked(env, t, sha) && ChunkRows(t, sha) == [] && TextRef(t, sha) == ""
  }

  function TextChunks(env: Env, t: Tables, sha: Sha, key: string, data: Bytes)
    : (r: (Tables, Attempt<seq<string>, SyncFault>))
    ensures r.0.(blobs := t.blobs, chunks := t.chunks, texts := t.texts) == t
  {
    if UsesRows(env, t, sha) then (t, Ok(ChunkRows(t, sha)))
    else if RefUnreadable(env, t, sha) then (t, Raised(TextStoreError))
    else if UsesStoredText(env, t, sha) then
      var chunks := env.Chunks(StoredText(t, sha));
      (ReplaceChunks(t, sha, chunks), Ok(chunks))
    else match env.Extract(key, data)
      case None => (t, Raised(ExtractError))
      case Some(text) => (ExtractAfresh(env, t, sha, text), Ok(env.Chunks(text)))
  }

  function ExtractAfresh(env: Env, t: Tables, sha: Sha, text: string): Tables {
    ReplaceChunks(
      MarkExtracted(WriteText(t, sha, text), sha, RelPath(sha), env.extraction),
      sha, env.Chunks(text))
  }

  // --- vectors: rung 3 ----------------------------------------------------------------

  /**
   * What an operation outside the ladder's control does to it. CacheFails: the embedding
   * call is made and paid for, and then writing the cache raises.
   */
  datatype Fault = NoFault | EmbedFails | CacheFails | UpsertFails {
    /** Can it only strike when an embedding call is needed? */
    predicate NeedsCall() {
      EmbedFails? || CacheFails?
    }

    function Error(): SyncFault {
      if EmbedFails? then EmbedError else if CacheFails? then CacheError else VectorStoreError
    }
  }

  datatype Split = Split(embedded: nat, reused: nat)

  function Missing(env: Env, t: Tables, sha: Sha, count: nat): set<nat> {
    set i: nat | i < count && CacheKey(sha, i, env.embedding) !in t.cache
  }

  function Fresh(env: Env, chunks: seq<string>, missing: set<nat>): map<nat, Vector> {
    map i | i in missing && i < |chunks| :: env.single(env.embed(chunks[i]))
  }

  /** The vector the collection ends up holding, fresh or from the cache. */
  function VectorFor(env: Env, t: Tables, sha: Sha, chunks: seq<string>, i: nat): Vector
    requires i < |chunks|
  {
    var key := CacheKey(sha, i, env.embedding);
    env.single(if key in t.cache then t.cache[key] else env.embed(chunks[i]))
  }

  function Entries(env: Env, t: Tables, user: User, sha: Sha, chunks: seq<string>): Collection {
    map i: nat | i < |chunks| ::
      ChunkRef(sha, i) := Entry(VectorFor(env, t, sha, chunks, i), chunks[i], user, sha, i)
  }

  function IndexBlob(env: Env, t: Tables, user: User, sha: Sha, chunks: seq<string>, fault: Fault)
    : (Tables, Attempt<Split, SyncFault>)
  {
    var missing := Missing(env, t, sha, |chunks|);
    if chunks == [] then (t, Ok(Split(0, 0)))
    else if missing != {} && fault.NeedsCall() then (t, Raised(fault.Error()))
    else
      var cached := PutCached(t, sha, env.embedding, Fresh(env, chunks, missing));
      if fault == UpsertFails then (cached, Raised(VectorStoreError))
      else
        MissingWithin(env, t, sha, |chunks|);
        (UpsertEntries(cached, user, Entries(env, t, user, sha, chunks)),
         Ok(Split(|missing|, |chunks| - |missing|)))
  }

  lemma MissingWithin(env: Env, t: Tables, sha: Sha, count: nat)
    ensures |Missing(env, t, sha, count)| <= count
  {
    BoundedSet(Missing(env, t, sha, count), count);
  }

  lemma BoundedSet(s: set<nat>, count: nat)
    requires forall i :: i in s ==> i < count
    ensures |s| <= count
  {
    if count > 0 {
      BoundedSet(s - {count - 1}, count - 1);
    } else {
      assert s == {};
    }
  }

  /** The writes behind IndexBlob, one table at a time. */
  lemma IndexSteps(env: Env, t: Tables, user: User, sha: Sha, pieces: seq<string>, fault: Fault)
    ensures var missing := Missing(env, t, sha, |pieces|);
      var cached := PutCached(t, sha, env.embedding, Fresh(env, pieces, missing));
      && |missing| <= |pieces|
      && cached == t.(cache := cached.cache) && (missing == {} ==> cached == t)
      && IndexBlob(env, t, user, sha, pieces, fault) ==
        if pieces == [] then (t, Ok(Split(0, 0)))
        else if missing != {} && fault.NeedsCall() then (t, Raised(fault.Error()))
        else if fault == UpsertFails then (cached, Raised(VectorStoreError))
        else
          (cached.(collections := t.collections[user := CollectionOf(t, user) + Entries(env, t, user, sha, pieces)]),
           Ok(Split(|missing|, |pieces| - |missing|)))
  {
    hide Entries, Missing;
    MissingWithin(env, t, sha, |pieces|);
    var missing := Missing(env, t, sha, |pieces|);
    if missing == {} {
      NothingToCache(t, sha, env.embedding, Fresh(env, pieces, missing));
    }
  }

  lemma IndexTouches(env: Env, t: Tables, user: User, sha: Sha, chunks: seq<string>, fault: Fault)
    ensures var u := IndexBlob(env, t, user, sha, chunks, fault).0;
      u == t.(cache := u.cache, collections := u.collections)
  {
    IndexSteps(env, t, user, sha, chunks, fault);
    hide IndexBlob, PutCached, Missing, Fresh, Entries;
  }

  lemma NothingToCache(t: Tables, sha: Sha, version: string, vectors: map<nat, Vector>)
    requires vectors == map[]
    ensures PutCached(t, sha, version, vectors) == t
  {
  }

  // --- one object: the whole ladder ---------------------------------------------------

  /** fetched is None when the download raises. */
  datatype Job = Job(
    user: User, datasource: Id, directory: Id, item: ListedObject, fetched: Option<Bytes>)
  {
    function File(): FileKey {
      FileKey(user, datasource, item.key)
    }

    function Row(sha: Option<Sha>, error: Option<SyncFault>): FileRow {
      FileRow(directory, item.stamp, sha, if error.None? then Indexed else Failed, error, false)
    }
  }

  datatype Outcome =
    | Skipped
    | Stored(sha: Sha, split: Split)
    | Broken(fault: SyncFault)

  /** Rung 0: does the recorded row still describe the object exactly? */
  predicate Unchanged(t: Tables, job: Job) {
    && Live(t, job.File())
    && t.files[job.File()].state == Indexed
    && t.files[job.File()].sha.Some?
    && t.files[job.File()].stamp == job.item.stamp
  }

  predicate Downloads(t: Tables, job: Job) {
    !Unchanged(t, job) && job.fetched.Some?
  }

  /** Rungs 2 and 3: attribution only, or vectors, possession and attribution. */
  function Attach(env: Env, t: Tables, job: Job, sha: Sha, chunks: seq<string>, fault: Fault)
    : (Tables, Attempt<Outcome, SyncFault>)
  {
    if Holding(job.user, sha) in t.holds then
      (UpsertFile(t, job.File(), job.Row(Some(sha), None)), Ok(Stored(sha, Split(0, |chunks|))))
    else
      var (indexed, result) := IndexBlob(env, t, job.user, sha, chunks, fault);
      match result
      case Raised(error) => (indexed, Raised(error))
      case Ok(split) =>
        (UpsertFile(
           MarkEmbedded(AddHolding(indexed, job.user, sha), sha, env.embedding),
           job.File(), job.Row(Some(sha), None)),
         Ok(Stored(sha, split)))
  }

  /** Rungs 1 to 3, on downloaded bytes. */
  function Ingest(env: Env, t: Tables, job: Job, data: Bytes, fault: Fault)
    : (Tables, Attempt<Outcome, SyncFault>)
  {
    var sha := env.hash(data);
    var (texted, text) := TextChunks(env, UpsertBlob(t, sha, |data|), sha, job.item.key, data);
    match text
    case Raised(error) => (texted, Raised(error))
    case Ok(chunks) => Attach(env, texted, job, sha, chunks, fault)
  }

  /** _process_object; an exception leaves whatever was committed before it. */
  function Process(env: Env, t: Tables, job: Job, fault: Fault): (Tables, Attempt<Outcome, SyncFault>) {
    if Unchanged(t, job) then (t, Ok(Skipped))
    else if job.fetched.None? then (t, Raised(FetchError))
    else Ingest(env, t, job, job.fetched.value, fault)
  }

  /** One turn of run_sync's loop: _process_object and its per-file handler. */
  function SyncObject(env: Env, t: Tables, job: Job, fault: Fault): (Tables, Outcome) {
    var (after, result) := Process(env, t, job, fault);
    match result
    case Ok(outcome) => (after, outcome)
    case Raised(error) => (UpsertFile(after, job.File(), job.Row(None, Some(error))), Broken(error))
  }

  // --- removal ------------------------------------------------------------------------

  /** Drop a blob from one knowledge base once its last live name is gone. */
  function Unreference(t: Tables, user: User, sha: Sha): Tables {
    if References(t, user, sha) then t
    else RemoveHolding(DropEntries(t, user, sha), user, sha)
  }

  /** One turn of _reap_deleted's loop, on a row read earlier in the same reap. */
  function ReapRow(t: Tables, user: User, id: FileKey, sha: Option<Sha>): Tables {
    var deleted := SoftDelete(t, user, id);
    if sha.Some? then Unreference(deleted, user, sha.value) else deleted
  }

  /** The last write of that turn that survived: soft_delete_file, or drop_blob_for_user. */
  datatype RemovalPoint = AfterDelete | AfterDrop

  /** A death in the middle of the turn. One that never drops dies at the soft delete. */
  function CrashInReap(t: Tables, user: User, id: FileKey, sha: Option<Sha>, point: RemovalPoint): Tables {
    var deleted := SoftDelete(t, user, id);
    if point.AfterDrop? && sha.Some? && !References(deleted, user, sha.value)
    then DropEntries(deleted, user, sha.value)
    else deleted
  }

  /** DELETE /files/{id}; a row that is absent, deleted or another user's is a 404. */
  function RemoveFile(t: Tables, user: User, id: FileKey): Tables {
    if id.user == user && Live(t, id) then ReapRow(t, user, id, t.files[id].sha) else t
  }

  // --- crashes inside an object step --------------------------------------------------

  /**
   * The last write that survived. InWrite leaves arbitrary contents in the file;
   * AfterEmbedding is the window in which vectors are paid for and not yet cached.
   */
  datatype CrashPoint =
    | AfterBlob
    | InWrite(written: string)
    | AfterWrite
    | AfterMark
    | AfterChunks
    | AfterEmbedding
    | AfterCache
    | AfterVectors
    | AfterHolding
    | AfterEmbeddingMark

  /** A step that never reaches the point is taken to die at the last write before it. */
  function CrashIn(env: Env, t: Tables, job: Job, point: CrashPoint): Tables {
    if !Downloads(t, job) then t
    else
      var data := job.fetched.value;
      var sha := env.hash(data);
      var start := UpsertBlob(t, sha, |data|);
      if point.AfterBlob? then start
      else if point.InWrite? || point.AfterWrite? || point.AfterMark? then
        CrashInText(env, start, sha, env.Extract(job.item.key, data), point)
      else
        var (texted, text) := TextChunks(env, start, sha, job.item.key, data);
        match text
        case Raised(_) => t
        case Ok(chunks) => CrashInAttach(env, texted, job, sha, chunks, point)
  }

  function CrashInText(env: Env, start: Tables, sha: Sha, extracted: Option<string>, point: CrashPoint)
    : Tables
  {
    if UsesRows(env, start, sha) || RefUnreadable(env, start, sha) || UsesStoredText(env, start, sha)
    then start
    else match extracted
      case None => start
      case Some(text) =>
        if point.InWrite? then WriteText(start, sha, point.written)
        else if point.AfterWrite? then WriteText(start, sha, text)
        else MarkExtracted(WriteText(start, sha, text), sha, RelPath(sha), env.extraction)
  }

  function CrashInAttach(env: Env, t: Tables, job: Job, sha: Sha, chunks: seq<string>, point: CrashPoint)
    : Tables
  {
    if point.AfterChunks? || point.AfterEmbedding? || Holding(job.user, sha) in t.holds then t
    else
      var fault := if point.AfterCache? then UpsertFails else NoFault;
      var (indexed, _) := IndexBlob(env, t, job.user, sha, chunks, fault);
      if point.AfterCache? || point.AfterVectors? then indexed
      else if point.AfterHolding? then AddHolding(indexed, job.user, sha)
      else MarkEmbedded(AddHolding(indexed, job.user, sha), sha, env.embedding)
  }

  // --- histories ----------------------------------------------------------------------

  datatype Op =
    | Sync(job: Job, fault: Fault)
    | Crash(job: Job, point: CrashPoint)
    | Reap(user: User, id: FileKey, sha: Option<Sha>)
    | Remove(user: User, id: FileKey)
    | CrashReap(user: User, id: FileKey, sha: Option<Sha>, halt: RemovalPoint)
  {
    function Actor(): User {
      if Sync? || Crash? then job.user else user
    }
  }

  function Step(env: Env, t: Tables, op: Op): Tables {
    match op
    case Sync(job, fault) => SyncObject(env, t, job, fault).0
    case Crash(job, point) => CrashIn(env, t, job, point)
    case Reap(user, id, sha) => ReapRow(t, user, id, sha)
    case Remove(user, id) => RemoveFile(t, user, id)
    case CrashReap(user, id, sha, halt) => CrashInReap(t, user, id, sha, halt)
  }

  function Play(env: Env, t: Tables, ops: seq<Op>): Tables
    decreases |ops|
  {
    if ops == [] then t else Play(env, Step(env, t, ops[0]), ops[1..])
  }

  lemma {:induction false} PlaySnoc(env: Env, t: Tables, ops: seq<Op>, op: Op)
    ensures Play(env, t, ops + [op]) == Step(env, Play(env, t, ops), op)
    decreases |ops|
  {
    hide Step;
    if ops == [] {
      assert ([] + [op])[1..] == [];
      assert Play(env, Step(env, t, op), []) == Step(env, t, op);
    } else {
      assert (ops + [op])[1..] == ops[1..] + [op];
      PlaySnoc(env, Step(env, t, ops[0]), ops[1..], op);
    }
  }

  /** The state in which the i-th operation runs. */
  function At(env: Env, t: Tables, ops: seq<Op>, i: nat): Tables
    requires i <= |ops|
  {
    Play(env, t, ops[..i])
  }

  lemma NothingPlayed(env: Env, t: Tables, ops: seq<Op>)
    ensures At(env, t, ops, 0) == t
  {
  }

  lemma AtNext(env: Env, t: Tables, ops: seq<Op>, i: nat)
    requires i < |ops|
    ensures At(env, t, ops, i + 1) == Step(env, At(env, t, ops, i), ops[i])
  {
    hide Step;
    assert ops[..i + 1] == ops[..i] + [ops[i]];
    PlaySnoc(env, t, ops[..i], ops[i]);
  }
}
