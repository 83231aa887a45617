/** The invariant over whole histories, crashes included, and what it says to a user. */
module Reachable {
  import opened Wrappers
  import opened Extraction
  import opened Content
  import opened Store
  import opened Ladder
  import opened Invariant

  lemma IndexedKeeps(env: Env, t: Tables, job: Job, sha: Sha, fault: Fault)
    requires env.Valid() && Inv(env, t) && Marked(env, t, sha) && ChunkRows(t, sha) == env.Canon(sha)
    ensures var (u, r) := IndexBlob(env, t, job.user, sha, env.Canon(sha), fault);
      && Inv(env, u)
      && (r.Ok? ==>
            var held := AddHolding(u, job.user, sha);
            var embedded := MarkEmbedded(held, sha, env.embedding);
            && Inv(env, held) && Inv(env, embedded)
            && Inv(env, UpsertFile(embedded, job.File(), job.Row(Some(sha), None))))
  {
    IndexBlobKeeps(env, t, job.user, sha, fault);
    var (u, r) := IndexBlob(env, t, job.user, sha, env.Canon(sha), fault);
    if r.Ok? {
      HoldingKeeps(env, u, job.user, sha);
      var held := AddHolding(u, job.user, sha);
      EmbeddingMarkKeeps(env, held, sha);
      UpsertFileKeeps(env, MarkEmbedded(held, sha, env.embedding), job.File(), job.Row(Some(sha), None));
    }
  }

  lemma AttachKeeps(env: Env, t: Tables, job: Job, sha: Sha, fault: Fault)
    requires env.Valid() && Inv(env, t) && Marked(env, t, sha) && ChunkRows(t, sha) == env.Canon(sha)
    ensures Inv(env, Attach(env, t, job, sha, env.Canon(sha), fault).0)
  {
    if Holding(job.user, sha) in t.holds {
      UpsertFileKeeps(env, t, job.File(), job.Row(Some(sha), None));
    } else {
      IndexedKeeps(env, t, job, sha, fault);
    }
  }

  lemma CrashInAttachKeeps(env: Env, t: Tables, job: Job, sha: Sha, point: CrashPoint)
    requires env.Valid() && Inv(env, t) && Marked(env, t, sha) && ChunkRows(t, sha) == env.Canon(sha)
    ensures Inv(env, CrashInAttach(env, t, job, sha, env.Canon(sha), point))
  {
    hide Inv, IndexBlob, AddHolding, MarkEmbedded, UpsertFile, ChunkRows, Marked;
    NoFaultIndexes(env, t, job.user, sha, env.Canon(sha));
    IndexedKeeps(env, t, job, sha, UpsertFails);
    IndexedKeeps(env, t, job, sha, NoFault);
  }

  lemma NoFaultIndexes(env: Env, t: Tables, user: User, sha: Sha, chunks: seq<string>)
    ensures IndexBlob(env, t, user, sha, chunks, NoFault).1.Ok?
  {
  }

  lemma ProcessKeeps(env: Env, t: Tables, job: Job, fault: Fault)
    requires env.Valid() && Inv(env, t)
    ensures Inv(env, Process(env, t, job, fault).0)
  {
    if Downloads(t, job) {
      var data := job.fetched.value;
      var sha := env.hash(data);
      UpsertBlobKeeps(env, t, sha, |data|);
      TextChunksExact(env, UpsertBlob(t, sha, |data|), sha, job.item.key, data);
      var (texted, text) := TextChunks(env, UpsertBlob(t, sha, |data|), sha, job.item.key, data);
      if text.Ok? {
        AttachKeeps(env, texted, job, sha, fault);
      }
    }
  }

  lemma SyncKeeps(env: Env, t: Tables, job: Job, fault: Fault)
    requires env.Valid() && Inv(env, t)
    ensures Inv(env, SyncObject(env, t, job, fault).0)
  {
    ProcessKeeps(env, t, job, fault);
    var (after, result) := Process(env, t, job, fault);
    if result.Raised? {
      UpsertFileKeeps(env, after, job.File(), job.Row(None, Some(result.error)));
    }
  }

  lemma CrashInTextKeeps(env: Env, t: Tables, sha: Sha, extracted: Option<string>, point: CrashPoint)
    requires Inv(env, t) && sha in t.blobs
    requires extracted.Some? ==> env.CanonText(sha) == extracted
    ensures Inv(env, CrashInText(env, t, sha, extracted, point))
  {
    assert TextOk(env, t, sha);
    if Marked(env, t, sha) {
      MarkedIsCached(env, t, sha);
    } else if extracted.Some? {
      WriteTextKeeps(env, t, sha, if point.InWrite? then point.written else extracted.value);
      MarkKeeps(env, t, sha, extracted.value);
    }
  }

  lemma CrashKeeps(env: Env, t: Tables, job: Job, point: CrashPoint)
    requires env.Valid() && Inv(env, t)
    ensures Inv(env, CrashIn(env, t, job, point))
  {
    if Downloads(t, job) {
      var data := job.fetched.value;
      var sha := env.hash(data);
      var start := UpsertBlob(t, sha, |data|);
      UpsertBlobKeeps(env, t, sha, |data|);
      if point.InWrite? || point.AfterWrite? || point.AfterMark? {
        env.CanonIsOfTheBytes(data);
        CrashInTextKeeps(env, start, sha, env.Extract(job.item.key, data), point);
      } else if !point.AfterBlob? {
        TextChunksExact(env, start, sha, job.item.key, data);
        var (texted, text) := TextChunks(env, start, sha, job.item.key, data);
        if text.Ok? {
          CrashInAttachKeeps(env, texted, job, sha, point);
        }
      }
    }
  }

  lemma ReapKeeps(env: Env, t: Tables, user: User, id: FileKey, sha: Option<Sha>)
    requires Inv(env, t)
    ensures Inv(env, ReapRow(t, user, id, sha))
  {
    SoftDeleteKeeps(env, t, user, id);
    if sha.Some? {
      UnreferenceKeeps(env, SoftDelete(t, user, id), user, sha.value);
    }
  }

  lemma CrashReapKeeps(env: Env, t: Tables, user: User, id: FileKey, sha: Option<Sha>, halt: RemovalPoint)
    requires Inv(env, t)
    ensures Inv(env, CrashInReap(t, user, id, sha, halt))
  {
    hide Inv, SoftDelete, DropEntries, References;
    SoftDeleteKeeps(env, t, user, id);
    if sha.Some? {
      DropKeeps(env, SoftDelete(t, user, id), user, sha.value);
    }
  }

  lemma StepKeeps(env: Env, t: Tables, op: Op)
    requires env.Valid() && Inv(env, t)
    ensures Inv(env, Step(env, t, op))
  {
    match op
    case Sync(job, fault) => SyncKeeps(env, t, job, fault);
    case Crash(job, point) => CrashKeeps(env, t, job, point);
    case Reap(user, id, sha) => ReapKeeps(env, t, user, id, sha);
    case Remove(user, id) =>
      if id.user == user && Live(t, id) {
        ReapKeeps(env, t, user, id, t.files[id].sha);
      }
    case CrashReap(user, id, sha, halt) => CrashReapKeeps(env, t, user, id, sha, halt);
  }

  lemma {:induction false} PlayKeeps(env: Env, t: Tables, ops: seq<Op>)
    requires env.Valid() && Inv(env, t)
    ensures Inv(env, Play(env, t, ops))
    decreases |ops|
  {
    if ops != [] {
      StepKeeps(env, t, ops[0]);
      PlayKeeps(env, Step(env, t, ops[0]), ops[1..]);
    }
  }

  lemma HeldHasText(env: Env, t: Tables, user: User, sha: Sha)
    requires Inv(env, t) && Holding(user, sha) in t.holds
    ensures env.CanonText(sha).Some? && Marked(env, t, sha)
    ensures ChunkRows(t, sha) == env.Chunks(env.CanonText(sha).value) == env.Canon(sha)
  {
    assert HasText(env, t, sha) && TextOk(env, t, sha);
  }

  /** Of possessed bytes, having all vectors is having them all right. */
  lemma IndexedExactly(env: Env, t: Tables, user: User, sha: Sha)
    requires Inv(env, t) && Holding(user, sha) in t.holds
    ensures AllIndexed(env, t, user, sha) <==> HasVectors(env, t, user, sha)
  {
    HeldHasText(env, t, user, sha);
    if HasVectors(env, t, user, sha) {
      EntriesOfHeld(env, t, user, sha);
    }
    hide Inv, CollectionOf, ChunkRows, Resolve;
  }

  lemma EntriesOfHeld(env: Env, t: Tables, user: User, sha: Sha)
    requires EntriesSound(env, t) && HasText(env, t, sha) && HasVectors(env, t, user, sha)
    requires Holding(user, sha) in t.holds
    ensures AllIndexed(env, t, user, sha)
  {
    hide ChunkRows, CollectionOf, Marked;
    forall i: nat | i < |env.Canon(sha)|
      ensures EntryOk(env, t, user, ChunkRef(sha, i)) && ChunkRef(sha, i) in CollectionOf(t, user)
    {
    }
  }

  /** Each chunk row of the blob is in the collection with the vector of its text, and resolves to it. */
  ghost predicate AllIndexed(env: Env, t: Tables, user: User, sha: Sha) {
    forall i: nat :: i < |ChunkRows(t, sha)| ==>
      var ref := ChunkRef(sha, i);
      && ref in CollectionOf(t, user)
      && CollectionOf(t, user)[ref]
           == Entry(env.single(env.embed(ChunkRows(t, sha)[i])), ChunkRows(t, sha)[i], user, sha, i)
      && Resolve(t, user, ref) == Some(ChunkRows(t, sha)[i])
  }

  /**
   * Text-cache transparency: after any history, with crashes between (or inside)
   * the writes of the text, the mark and the chunk rows, all branches return the
   * chunks of extract-then-chunk whenever that extraction succeeds. A name with an
   * unsupported suffix gets them too, exactly when the blob is already marked.
   */
  lemma TextCacheTransparent(env: Env, ops: seq<Op>, key: string, data: Bytes)
    requires env.Valid()
    ensures var sha := env.hash(data);
      var t := UpsertBlob(Play(env, Empty, ops), sha, |data|);
      var (after, result) := TextChunks(env, t, sha, key, data);
      && (env.Extract(key, data).Some? ==>
            && result == Ok(env.Chunks(env.Extract(key, data).value))
            && ChunkRows(after, sha) == env.Chunks(env.Extract(key, data).value))
      && (env.Extract(key, data).None? ==>
            if env.TextOf(data).Some? && Marked(env, t, sha)
            then result == Ok(env.Chunks(env.TextOf(data).value))
            else result == Raised(ExtractError))
  {
    var sha := env.hash(data);
    EmptyIsSound(env);
    PlayKeeps(env, Empty, ops);
    var t := Play(env, Empty, ops);
    UpsertBlobKeeps(env, t, sha, |data|);
    TextChunksExact(env, UpsertBlob(t, sha, |data|), sha, key, data);
  }

  /** Nothing else is there: a collection holds its owner's canonical vectors only. */
  lemma CollectionsHoldOwnVectors(env: Env, ops: seq<Op>, user: User, ref: ChunkRef)
    requires env.Valid()
    ensures var vectors := CollectionOf(Play(env, Empty, ops), user);
      ref in vectors ==>
        && ref.ordinal < |env.Canon(ref.sha)|
        && vectors[ref] == CanonEntry(env, user, ref)
  {
    EmptyIsSound(env);
    PlayKeeps(env, Empty, ops);
    assert ref in CollectionOf(Play(env, Empty, ops), user) ==> EntryOk(env, Play(env, Empty, ops), user, ref);
  }

  /** Rung 2: of bytes already possessed and chunked, a new name costs a row. */
  lemma HeldBytesAreAttributed(env: Env, t: Tables, job: Job)
    requires job.fetched.Some? && !Live(t, job.File())
    requires var sha := env.hash(job.fetched.value);
      Marked(env, t, sha) && ChunkRows(t, sha) != [] && Holding(job.user, sha) in t.holds
    ensures var sha := env.hash(job.fetched.value);
      SyncObject(env, t, job, NoFault) ==
        (UpsertFile(t, job.File(), job.Row(Some(sha), None)), Stored(sha, Split(0, |ChunkRows(t, sha)|)))
  {
    var sha := env.hash(job.fetched.value);
    MarkedServesRows(env, t, sha, job.item.key, job.fetched.value);
    hide TextChunks;
    assert UpsertBlob(t, sha, |job.fetched.value|) == t;
  }

  lemma MarkedServesRows(env: Env, t: Tables, sha: Sha, key: string, data: Bytes)
    requires Marked(env, t, sha) && ChunkRows(t, sha) != []
    ensures TextChunks(env, t, sha, key, data) == (t, Ok(ChunkRows(t, sha)))
  {
  }
}
