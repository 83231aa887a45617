/**
 * The embedding bill: what the cache changes (nothing anyone can read), what the
 * platform pays for over the whole history of all its users, and what is paid twice.
 */
module EmbedOnce {
  import opened Wrappers
  import opened Content
  import opened Store
  import opened Ladder
  import opened Invariant

  /** Whatever part of the blob is cached, the collection ends as if none of it were. */
  lemma CacheIsInvisible(env: Env, t: Tables, user: User, sha: Sha)
    requires env.Valid() && CacheSound(env, t)
    ensures CollectionOf(IndexBlob(env, t, user, sha, env.Canon(sha), NoFault).0, user)
      == CollectionOf(IndexBlob(env, t.(cache := map[]), user, sha, env.Canon(sha), NoFault).0, user)
  {
    hide IndexBlob, CacheSound;
    NothingCached(env, t);
    CollectionAfterIndexing(env, t, user, sha);
    CollectionAfterIndexing(env, t.(cache := map[]), user, sha);
  }

  lemma NothingCached(env: Env, t: Tables)
    ensures CacheSound(env, t.(cache := map[]))
  {
  }

  lemma CollectionAfterIndexing(env: Env, t: Tables, user: User, sha: Sha)
    requires env.Valid() && CacheSound(env, t)
    ensures CollectionOf(IndexBlob(env, t, user, sha, env.Canon(sha), NoFault).0, user)
      == CollectionOf(t, user) + CanonEntries(env, user, sha)
  {
    EntriesAreCanonical(env, t, user, sha);
    CollectionGains(env, t, user, sha, env.Canon(sha));
    hide IndexBlob, Entries, CanonEntries, CollectionOf, CacheSound;
  }

  lemma CollectionGains(env: Env, t: Tables, user: User, sha: Sha, chunks: seq<string>)
    ensures CollectionOf(IndexBlob(env, t, user, sha, chunks, NoFault).0, user)
      == CollectionOf(t, user) + Entries(env, t, user, sha, chunks)
  {
    IndexSteps(env, t, user, sha, chunks, NoFault);
    NoEntries(env, t, user, sha);
    hide IndexBlob, Entries, Missing, Fresh, PutCached;
  }

  lemma NoEntries(env: Env, t: Tables, user: User, sha: Sha)
    ensures Entries(env, t, user, sha, []) == map[]
  {
  }

  // --- what a step pays for ----------------------------------------------------------------

  function KeysOf(env: Env, sha: Sha, count: nat): set<CacheKey> {
    set i: nat | i < count :: CacheKey(sha, i, env.embedding)
  }

  function AttachWants(env: Env, t: Tables, job: Job, sha: Sha, chunks: seq<string>, fault: Fault)
    : set<CacheKey>
  {
    if Holding(job.user, sha) in t.holds || fault == EmbedFails then {} else KeysOf(env, sha, |chunks|)
  }

  /** The chunks whose vectors the step needs, if the embedding model answers. */
  function JobWants(env: Env, t: Tables, job: Job, fault: Fault): set<CacheKey> {
    if !Downloads(t, job) then {}
    else
      var data := job.fetched.value;
      var sha := env.hash(data);
      var (texted, text) := TextChunks(env, UpsertBlob(t, sha, |data|), sha, job.item.key, data);
      match text
      case Raised(_) => {}
      case Ok(chunks) => AttachWants(env, texted, job, sha, chunks, fault)
  }

  predicate PastCaching(point: CrashPoint) {
    point.AfterCache? || point.AfterVectors? || point.AfterHolding? || point.AfterEmbeddingMark?
  }

  function Wanted(env: Env, t: Tables, op: Op): set<CacheKey> {
    match op
    case Sync(job, fault) => JobWants(env, t, job, fault)
    case Crash(job, point) =>
      if point.AfterEmbedding? || PastCaching(point) then JobWants(env, t, job, NoFault) else {}
    case Reap(_, _, _) => {}
    case Remove(_, _) => {}
    case CrashReap(_, _, _, _) => {}
  }

  /** The embedding calls made: every vector needed that the cache does not have. */
  function Paid(env: Env, t: Tables, op: Op): set<CacheKey> {
    NotCached(Wanted(env, t, op), t.cache)
  }

  function NotCached(keys: set<CacheKey>, cache: map<CacheKey, Vector>): set<CacheKey> {
    keys - cache.Keys
  }

  ghost predicate Adds(before: map<CacheKey, Vector>, after: map<CacheKey, Vector>, keys: set<CacheKey>) {
    after.Keys == before.Keys + keys
  }

  lemma AddsNothing(cache: map<CacheKey, Vector>)
    ensures Adds(cache, cache, {}) && NotCached({}, cache) == {}
  {
  }

  /** Between the call and the cache: the step dies, or the cache cannot be written. */
  predicate StopsBeforeCaching(op: Op) {
    (op.Sync? && op.fault == CacheFails) || (op.Crash? && op.point.AfterEmbedding?)
  }

  function Cached(env: Env, t: Tables, op: Op): set<CacheKey> {
    if StopsBeforeCaching(op) then {} else Paid(env, t, op)
  }

  /** What chunks_embedded is bumped by. */
  function Counted(env: Env, t: Tables, op: Op): nat {
    if op.Sync? then
      var outcome := SyncObject(env, t, op.job, op.fault).1;
      if outcome.Stored? then outcome.split.embedded else 0
    else 0
  }

  /** Cached and then not counted: the step failed or died later on. */
  predicate LostReceipt(env: Env, t: Tables, op: Op) {
    Cached(env, t, op) != {} && !(op.Sync? && SyncObject(env, t, op.job, op.fault).1.Stored?)
  }

  lemma {:induction false} KeysOfMissing(sha: Sha, version: string, missing: set<nat>)
    ensures |set i | i in missing :: CacheKey(sha, i, version)| == |missing|
  {
    if missing != {} {
      var i :| i in missing;
      KeysOfMissing(sha, version, missing - {i});
      assert (set j | j in missing :: CacheKey(sha, j, version))
        == (set j | j in missing - {i} :: CacheKey(sha, j, version)) + {CacheKey(sha, i, version)};
    } else {
      assert (set i | i in missing :: CacheKey(sha, i, version)) == {};
    }
  }

  /** The keys to embed: one for each missing ordinal. */
  lemma MissingKeysExact(env: Env, t: Tables, sha: Sha, count: nat)
    ensures var missing := Missing(env, t, sha, count);
      && NotCached(KeysOf(env, sha, count), t.cache) == (set i | i in missing :: CacheKey(sha, i, env.embedding))
      && |NotCached(KeysOf(env, sha, count), t.cache)| == |missing|
  {
    var missing := Missing(env, t, sha, count);
    KeysOfMissing(sha, env.embedding, missing);
    assert NotCached(KeysOf(env, sha, count), t.cache) == set i | i in missing :: CacheKey(sha, i, env.embedding);
  }

  lemma CacheAdds(env: Env, t: Tables, sha: Sha, chunks: seq<string>)
    ensures Adds(
      t.cache, PutCached(t, sha, env.embedding, Fresh(env, chunks, Missing(env, t, sha, |chunks|))).cache,
      KeysOf(env, sha, |chunks|))
  {
    MissingKeysExact(env, t, sha, |chunks|);
    PutCachedGrows(env, t, sha, chunks);
    hide PutCached, KeysOf, Fresh, Missing;
  }

  lemma PutCachedGrows(env: Env, t: Tables, sha: Sha, chunks: seq<string>)
    ensures PutCached(t, sha, env.embedding, Fresh(env, chunks, Missing(env, t, sha, |chunks|))).cache.Keys
      == t.cache.Keys
        + (set i | i in Missing(env, t, sha, |chunks|) :: CacheKey(sha, i, env.embedding))
  {
  }

  /** The keys one indexing adds, and the counter it returns. */
  lemma IndexGrows(env: Env, t: Tables, user: User, sha: Sha, chunks: seq<string>, fault: Fault)
    ensures var (u, r) := IndexBlob(env, t, user, sha, chunks, fault);
      var keys := KeysOf(env, sha, |chunks|);
      && Adds(t.cache, u.cache, if fault.NeedsCall() then {} else keys)
      && (r.Ok? ==> r.value.embedded == |NotCached(keys, t.cache)|)
      && (r.Ok? && fault.NeedsCall() ==> |NotCached(keys, t.cache)| == 0)
  {
    IndexSteps(env, t, user, sha, chunks, fault);
    MissingKeysExact(env, t, sha, |chunks|);
    CacheAdds(env, t, sha, chunks);
    AddsNothing(t.cache);
    NoKeys(env, sha);
    hide IndexBlob, Entries, PutCached, Fresh, Missing, KeysOf, Adds, NotCached;
  }

  lemma NoKeys(env: Env, sha: Sha)
    ensures KeysOf(env, sha, 0) == {}
  {
  }

  lemma AttachGrows(env: Env, t: Tables, job: Job, sha: Sha, chunks: seq<string>, fault: Fault)
    ensures var (u, r) := Attach(env, t, job, sha, chunks, fault);
      var wants := AttachWants(env, t, job, sha, chunks, fault);
      && Adds(t.cache, u.cache, if fault == CacheFails then {} else wants)
      && (r.Ok? ==> r.value.Stored? && r.value.split.embedded == |NotCached(wants, t.cache)|)
      && (r.Ok? && fault == CacheFails ==> |NotCached(wants, t.cache)| == 0)
  {
    IndexGrows(env, t, job.user, sha, chunks, fault);
    AddsNothing(t.cache);
    hide IndexBlob, KeysOf, Adds, NotCached;
  }

  lemma SyncGrows(env: Env, t: Tables, job: Job, fault: Fault)
    ensures var (u, outcome) := SyncObject(env, t, job, fault);
      var wants := JobWants(env, t, job, fault);
      && Adds(t.cache, u.cache, if fault == CacheFails then {} else wants)
      && (outcome.Stored? ==> outcome.split.embedded == |NotCached(wants, t.cache)|)
      && (outcome.Stored? && fault == CacheFails ==> |NotCached(wants, t.cache)| == 0)
      && (outcome.Skipped? ==> wants == {})
  {
    hide Attach, AttachWants, TextChunks, Unchanged, Adds, NotCached;
    AddsNothing(t.cache);
    if Downloads(t, job) {
      var data := job.fetched.value;
      var sha := env.hash(data);
      assert UpsertBlob(t, sha, |data|).cache == t.cache;
      var (texted, text) := TextChunks(env, UpsertBlob(t, sha, |data|), sha, job.item.key, data);
      if text.Ok? {
        AttachGrows(env, texted, job, sha, text.value, fault);
      }
    }
  }

  lemma CrashInAttachGrows(env: Env, t: Tables, job: Job, sha: Sha, chunks: seq<string>, point: CrashPoint)
    requires !BeforeChunks(point)
    ensures Adds(t.cache, CrashInAttach(env, t, job, sha, chunks, point).cache,
      if PastCaching(point) then AttachWants(env, t, job, sha, chunks, NoFault) else {})
  {
    IndexGrows(env, t, job.user, sha, chunks, UpsertFails);
    IndexGrows(env, t, job.user, sha, chunks, NoFault);
    AddsNothing(t.cache);
    hide IndexBlob, KeysOf, Adds;
  }

  predicate BeforeChunks(point: CrashPoint) {
    point.AfterBlob? || point.InWrite? || point.AfterWrite? || point.AfterMark?
  }

  lemma CrashInTextKeepsCache(env: Env, t: Tables, sha: Sha, extracted: Option<string>, point: CrashPoint)
    ensures CrashInText(env, t, sha, extracted, point).cache == t.cache
  {
  }

  lemma EarlyCrashKeepsCache(env: Env, t: Tables, job: Job, point: CrashPoint)
    requires BeforeChunks(point)
    ensures CrashIn(env, t, job, point).cache == t.cache
  {
    hide CrashInText, TextChunks, Unchanged, CrashInAttach;
    if Downloads(t, job) {
      var data := job.fetched.value;
      var start := UpsertBlob(t, env.hash(data), |data|);
      CrashInTextKeepsCache(env, start, env.hash(data), env.Extract(job.item.key, data), point);
    }
  }

  lemma LateCrashGrows(env: Env, t: Tables, job: Job, point: CrashPoint)
    requires !BeforeChunks(point)
    ensures Adds(t.cache, CrashIn(env, t, job, point).cache,
      if PastCaching(point) then JobWants(env, t, job, NoFault) else {})
  {
    hide CrashInAttach, AttachWants, TextChunks, Unchanged, CrashInText, Adds;
    AddsNothing(t.cache);
    if Downloads(t, job) {
      var data := job.fetched.value;
      var sha := env.hash(data);
      var (texted, text) := TextChunks(env, UpsertBlob(t, sha, |data|), sha, job.item.key, data);
      assert texted.cache == t.cache;
      if text.Ok? {
        CrashInAttachGrows(env, texted, job, sha, text.value, point);
      }
    }
  }

  lemma CrashGrows(env: Env, t: Tables, job: Job, point: CrashPoint)
    ensures Adds(t.cache, CrashIn(env, t, job, point).cache,
      if PastCaching(point) then JobWants(env, t, job, NoFault) else {})
  {
    hide CrashIn, JobWants, Adds;
    if BeforeChunks(point) {
      EarlyCrashKeepsCache(env, t, job, point);
      AddsNothing(t.cache);
    } else {
      LateCrashGrows(env, t, job, point);
    }
  }

  lemma AddsNotCached(before: map<CacheKey, Vector>, after: map<CacheKey, Vector>, keys: set<CacheKey>)
    requires Adds(before, after, keys)
    ensures Adds(before, after, NotCached(keys, before))
    ensures NotCached(keys, before) !! before.Keys
  {
  }

  /** The cache grows by what was paid for, unless the step stopped before caching it. */
  lemma StepGrows(env: Env, t: Tables, op: Op)
    ensures Adds(t.cache, Step(env, t, op).cache, Cached(env, t, op))
    ensures Cached(env, t, op) !! t.cache.Keys
    ensures Counted(env, t, op) == if LostReceipt(env, t, op) then 0 else |Cached(env, t, op)|
  {
    hide SyncObject, CrashIn, JobWants, ReapRow, CrashInReap, SoftDelete, Unreference, Adds, NotCached;
    AddsNothing(t.cache);
    match op
    case Sync(job, fault) =>
      SyncGrows(env, t, job, fault);
      AddsNotCached(t.cache, SyncObject(env, t, job, fault).0.cache,
        if fault == CacheFails then {} else JobWants(env, t, job, fault));
    case Crash(job, point) =>
      CrashGrows(env, t, job, point);
      AddsNotCached(t.cache, CrashIn(env, t, job, point).cache,
        if PastCaching(point) then JobWants(env, t, job, NoFault) else {});
    case Reap(user, id, sha) => ReapKeepsCache(t, user, id, sha);
    case Remove(user, id) =>
      if Live(t, id) {
        ReapKeepsCache(t, user, id, t.files[id].sha);
      }
    case CrashReap(user, id, sha, halt) => CrashReapKeepsCache(t, user, id, sha, halt);
  }

  lemma ReapKeepsCache(t: Tables, user: User, id: FileKey, sha: Option<Sha>)
    ensures ReapRow(t, user, id, sha).cache == t.cache
  {
  }

  lemma CrashReapKeepsCache(t: Tables, user: User, id: FileKey, sha: Option<Sha>, halt: RemovalPoint)
    ensures CrashInReap(t, user, id, sha, halt).cache == t.cache
  {
  }

  // --- over a history -------------------------------------------------------------------

  function PaidAt(env: Env, t: Tables, ops: seq<Op>, i: nat): set<CacheKey>
    requires i < |ops|
  {
    Paid(env, At(env, t, ops, i), ops[i])
  }

  /** A vector is cached exactly when some earlier step paid for it and lived to cache it. */
  lemma {:induction false} CachedExactly(env: Env, t: Tables, ops: seq<Op>, n: nat, key: CacheKey)
    requires n <= |ops|
    ensures key in At(env, t, ops, n).cache <==>
      || key in t.cache
      || exists k: nat :: k < n && key in PaidAt(env, t, ops, k) && !StopsBeforeCaching(ops[k])
  {
    hide Step, Paid, StopsBeforeCaching, At, PaidAt;
    if n == 0 {
      NothingPlayed(env, t, ops);
    } else {
      CachedExactly(env, t, ops, n - 1, key);
      CachedNext(env, t, ops, n - 1, key);
    }
  }

  lemma CachedNext(env: Env, t: Tables, ops: seq<Op>, n: nat, key: CacheKey)
    requires n < |ops|
    ensures key in At(env, t, ops, n + 1).cache <==>
      || key in At(env, t, ops, n).cache
      || (key in PaidAt(env, t, ops, n) && !StopsBeforeCaching(ops[n]))
  {
    hide Step, Paid, StopsBeforeCaching, At;
    AtNext(env, t, ops, n);
    StepGrows(env, At(env, t, ops, n), ops[n]);
  }

  /**
   * Who pays, exactly. A step pays for a chunk if and only if it needs the vector, the
   * history did not start with it, and every earlier step that paid for it stopped
   * before caching it.
   */
  lemma PaidExactly(env: Env, t: Tables, ops: seq<Op>, i: nat, key: CacheKey)
    requires i < |ops|
    ensures key in PaidAt(env, t, ops, i) <==>
      && key in Wanted(env, At(env, t, ops, i), ops[i])
      && key !in t.cache
      && forall k: nat :: k < i && key in PaidAt(env, t, ops, k) ==> StopsBeforeCaching(ops[k])
  {
    hide Wanted, StopsBeforeCaching, At;
    CachedExactly(env, t, ops, i, key);
  }

  /**
   * Embed once, ever, but for what was lost: a chunk paid for at i is paid for again at j
   * exactly when j needs it and every step from i on that paid for it stopped before
   * caching it, the one at i included.
   */
  lemma PaidAgainExactly(env: Env, t: Tables, ops: seq<Op>, i: nat, j: nat, key: CacheKey)
    requires i < j < |ops|
    ensures key in PaidAt(env, t, ops, i) ==>
      (key in PaidAt(env, t, ops, j) <==>
         && key in Wanted(env, At(env, t, ops, j), ops[j])
         && forall k: nat :: i <= k < j && key in PaidAt(env, t, ops, k) ==> StopsBeforeCaching(ops[k]))
    ensures key in PaidAt(env, t, ops, i) && key in PaidAt(env, t, ops, j) ==> StopsBeforeCaching(ops[i])
  {
    hide PaidAt, Wanted, StopsBeforeCaching, At;
    PaidExactly(env, t, ops, i, key);
    PaidExactly(env, t, ops, j, key);
  }

  /** No step stops between the call and the cache: then no chunk is ever paid for twice. */
  lemma EmbedOnceEver(env: Env, t: Tables, ops: seq<Op>, i: nat, j: nat)
    requires i < j < |ops| && forall op :: op in ops ==> !StopsBeforeCaching(op)
    ensures PaidAt(env, t, ops, i) !! PaidAt(env, t, ops, j)
  {
    hide PaidAt, StopsBeforeCaching;
    forall key | key in PaidAt(env, t, ops, i) ensures key !in PaidAt(env, t, ops, j) {
      PaidAgainExactly(env, t, ops, i, j, key);
      assert ops[i] in ops;
    }
  }

  function PaidTotal(env: Env, t: Tables, ops: seq<Op>): nat {
    if ops == [] then 0
    else
      var front, last := ops[..|ops| - 1], ops[|ops| - 1];
      PaidTotal(env, t, front) + |Paid(env, Play(env, t, front), last)|
  }

  /** The part of it that was lost on the way to the cache. */
  function LostTotal(env: Env, t: Tables, ops: seq<Op>): nat {
    if ops == [] then 0
    else
      var front, last := ops[..|ops| - 1], ops[|ops| - 1];
      LostTotal(env, t, front) + if StopsBeforeCaching(last) then |Paid(env, Play(env, t, front), last)| else 0
  }

  /** The sum of all bumps of chunks_embedded. */
  function Bill(env: Env, t: Tables, ops: seq<Op>): nat {
    if ops == [] then 0
    else
      var front, last := ops[..|ops| - 1], ops[|ops| - 1];
      Bill(env, t, front) + Counted(env, Play(env, t, front), last)
  }

  ghost predicate ReceiptLost(env: Env, t: Tables, ops: seq<Op>) {
    exists i :: 0 <= i < |ops| && LostReceipt(env, At(env, t, ops, i), ops[i])
  }

  /**
   * The calls made are the rows the cache gains and the calls that were lost. The
   * counters never add up to more than the rows gained, and fall short of them exactly
   * when some step failed or died after caching.
   */
  lemma {:induction false} BillIsCovered(env: Env, t: Tables, ops: seq<Op>)
    ensures |Play(env, t, ops).cache| + LostTotal(env, t, ops) == |t.cache| + PaidTotal(env, t, ops)
    ensures |t.cache| + Bill(env, t, ops) <= |Play(env, t, ops).cache|
    ensures |t.cache| + Bill(env, t, ops) == |Play(env, t, ops).cache| <==> !ReceiptLost(env, t, ops)
  {
    hide Step, Paid, Counted, LostReceipt, Play, StopsBeforeCaching, Adds, ReceiptLost;
    if ops == [] {
      NothingPlayed(env, t, ops);
      NoReceipts(env, t);
    } else {
      var n := |ops| - 1;
      var front, last := ops[..n], ops[n];
      var before := Play(env, t, front);
      BillIsCovered(env, t, front);
      AtNext(env, t, ops, n);
      assert ops[..n + 1] == ops;
      StepGrows(env, before, last);
      var after := Step(env, before, last);
      AddsCounts(before.cache, after.cache, Cached(env, before, last));
      LostIsReal(env, before, last);
      ReceiptsOfFront(env, t, ops);
    }
  }

  lemma NoReceipts(env: Env, t: Tables)
    ensures !ReceiptLost(env, t, [])
  {
  }

  lemma AddsCounts(before: map<CacheKey, Vector>, after: map<CacheKey, Vector>, keys: set<CacheKey>)
    requires Adds(before, after, keys) && keys !! before.Keys
    ensures |after| == |before| + |keys|
  {
    assert |before.Keys + keys| == |before.Keys| + |keys|;
  }

  lemma ReceiptsOfFront(env: Env, t: Tables, ops: seq<Op>)
    requires ops != []
    ensures var n := |ops| - 1;
      ReceiptLost(env, t, ops) <==> ReceiptLost(env, t, ops[..n]) || LostReceipt(env, Play(env, t, ops[..n]), ops[n])
  {
    hide LostReceipt, Play;
    var n := |ops| - 1;
    forall i | 0 <= i < n ensures At(env, t, ops[..n], i) == At(env, t, ops, i) && ops[..n][i] == ops[i] {
      assert ops[..n][..i] == ops[..i];
    }
    assert At(env, t, ops, n) == Play(env, t, ops[..n]);
  }

  lemma LostIsReal(env: Env, t: Tables, op: Op)
    ensures LostReceipt(env, t, op) ==> |Cached(env, t, op)| > 0
  {
    hide SyncObject, Cached;
    if LostReceipt(env, t, op) {
      var key :| key in Cached(env, t, op);
    }
  }

  // --- a history that pays twice ---------------------------------------------------------------

  /**
   * A worker dies between the embedding call and the cache, and the next sync of the same
   * object pays for every chunk of it again.
   */
  lemma LostCallsArePaidAgain(env: Env, job: Job)
    requires env.Valid() && job.fetched.Some? && env.Extract(job.item.key, job.fetched.value).Some?
    ensures var sha := env.hash(job.fetched.value);
      var history := [Crash(job, AfterEmbedding), Sync(job, NoFault)];
      var all := KeysOf(env, sha, |env.Chunks(env.Extract(job.item.key, job.fetched.value).value)|);
      && PaidAt(env, Empty, history, 0) == PaidAt(env, Empty, history, 1) == all
  {
    hide KeysOf, Step, JobWants, At, Inv;
    var history := [Crash(job, AfterEmbedding), Sync(job, NoFault)];
    var crashed := Step(env, Empty, history[0]);
    NothingPlayed(env, Empty, history);
    AtNext(env, Empty, history, 0);
    EmptyIsSound(env);
    FreshWants(env, Empty, job);
    CrashBeforeCaching(env, job);
    FreshWants(env, crashed, job);
  }

  /** Bytes that nobody possesses want all of their vectors. */
  lemma FreshWants(env: Env, t: Tables, job: Job)
    requires env.Valid() && Inv(env, t) && job.fetched.Some?
    requires env.Extract(job.item.key, job.fetched.value).Some?
    requires job.File() !in t.files && Holding(job.user, env.hash(job.fetched.value)) !in t.holds
    ensures JobWants(env, t, job, NoFault)
      == KeysOf(env, env.hash(job.fetched.value),
                |env.Chunks(env.Extract(job.item.key, job.fetched.value).value)|)
  {
    hide TextChunks, Inv, KeysOf;
    var data := job.fetched.value;
    var sha := env.hash(data);
    UpsertBlobKeeps(env, t, sha, |data|);
    TextChunksExact(env, UpsertBlob(t, sha, |data|), sha, job.item.key, data);
  }

  lemma CrashBeforeCaching(env: Env, job: Job)
    requires env.Valid() && job.fetched.Some? && env.Extract(job.item.key, job.fetched.value).Some?
    ensures var t := Step(env, Empty, Crash(job, AfterEmbedding));
      && Inv(env, t) && t.cache == map[] && job.File() !in t.files
      && Holding(job.user, env.hash(job.fetched.value)) !in t.holds
  {
    hide TextChunks, Inv;
    var data := job.fetched.value;
    var sha := env.hash(data);
    EmptyIsSound(env);
    UpsertBlobKeeps(env, Empty, sha, |data|);
    TextChunksExact(env, UpsertBlob(Empty, sha, |data|), sha, job.item.key, data);
  }
}
