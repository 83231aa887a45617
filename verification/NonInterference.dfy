/** The isolation theorem over whole interleavings, and exactly where it stops. */
module NonInterference {
  import opened Wrappers
  import opened Extraction
  import opened Content
  import opened Store
  import opened Ladder
  import opened Invariant
  import opened Reachable
  import opened Isolation

  /** The operations of one user, in order. */
  function Own(ops: seq<Op>, user: User): seq<Op> {
    if ops == [] then []
    else (if ops[0].Actor() == user then [ops[0]] else []) + Own(ops[1..], user)
  }

  /** A supported name, and no failure that strikes only when an embedding call is needed. */
  predicate Careful(op: Op) {
    && (op.Sync? ==> Supported(op.job.item.key) && !op.fault.NeedsCall())
    && (op.Crash? ==> Supported(op.job.item.key))
  }

  /** What the user's own object steps reported, in order. */
  function Receipts(env: Env, t: Tables, ops: seq<Op>, user: User): seq<Receipt>
    decreases |ops|
  {
    if ops == [] then []
    else
      (if ops[0].Sync? && ops[0].Actor() == user
       then [Merge(SyncObject(env, t, ops[0].job, ops[0].fault).1)] else [])
      + Receipts(env, Step(env, t, ops[0]), ops[1..], user)
  }

  lemma StepUnseen(env: Env, t: Tables, op: Op, user: User)
    requires env.Valid() && Inv(env, t) && op.Actor() != user
    ensures ViewOf(Step(env, t, op), user) == ViewOf(t, user)
  {
    hide ViewOf, Inv, SyncObject, CrashIn, ReapRow, CrashInReap;
    match op
    case Sync(job, fault) => SyncSeen(env, t, job, fault, user);
    case Crash(job, point) => CrashSeen(env, t, job, point, user);
    case Reap(actor, id, sha) => ReapSeen(t, t, actor, id, sha, user);
    case Remove(actor, id) =>
      if id.user == actor && Live(t, id) {
        ReapSeen(t, t, actor, id, t.files[id].sha, user);
      }
    case CrashReap(actor, id, sha, halt) => CrashReapSeen(t, t, actor, id, sha, halt, user);
  }

  /** With a supported name, the shared tables have nothing to say about a text. */
  lemma ReadyIsOfTheBytes(env: Env, t: Tables, job: Job)
    requires Supported(job.item.key)
    ensures Ready(env, t, job) <==> job.fetched.Some? && env.TextOf(job.fetched.value).Some?
  {
  }

  lemma LiveSeen(s: Tables, t: Tables, id: FileKey)
    requires ViewOf(s, id.user) == ViewOf(t, id.user)
    ensures Live(s, id) <==> Live(t, id)
    ensures Live(s, id) ==> s.files[id] == t.files[id]
  {
    assert id in ViewOf(s, id.user).files <==> id in s.files;
    assert id in ViewOf(t, id.user).files <==> id in t.files;
    assert id in s.files ==> ViewOf(s, id.user).files[id] == s.files[id];
    assert id in t.files ==> ViewOf(t, id.user).files[id] == t.files[id];
  }

  lemma StepSeen(env: Env, s: Tables, t: Tables, op: Op, user: User)
    requires env.Valid() && Inv(env, s) && Inv(env, t)
    requires op.Actor() == user && Careful(op) && ViewOf(s, user) == ViewOf(t, user)
    ensures ViewOf(Step(env, s, op), user) == ViewOf(Step(env, t, op), user)
    ensures op.Sync? ==>
      Merge(SyncObject(env, s, op.job, op.fault).1) == Merge(SyncObject(env, t, op.job, op.fault).1)
  {
    hide ViewOf, Inv, SyncObject, CrashIn, ReapRow, RemoveFile, Live, Supported, CrashInReap;
    match op
    case Sync(job, fault) => SyncStepSeen(env, s, t, job, fault);
    case Crash(job, point) => CrashStepSeen(env, s, t, job, point);
    case Reap(actor, id, sha) => ReapSeen(s, t, actor, id, sha, user);
    case Remove(actor, id) => RemoveStepSeen(s, t, actor, id);
    case CrashReap(actor, id, sha, halt) => CrashReapSeen(s, t, actor, id, sha, halt, user);
  }

  lemma SyncStepSeen(env: Env, s: Tables, t: Tables, job: Job, fault: Fault)
    requires env.Valid() && Inv(env, s) && Inv(env, t)
    requires Supported(job.item.key) && !fault.NeedsCall() && ViewOf(s, job.user) == ViewOf(t, job.user)
    ensures ViewOf(SyncObject(env, s, job, fault).0, job.user) == ViewOf(SyncObject(env, t, job, fault).0, job.user)
    ensures Merge(SyncObject(env, s, job, fault).1) == Merge(SyncObject(env, t, job, fault).1)
  {
    ReadyIsOfTheBytes(env, s, job);
    ReadyIsOfTheBytes(env, t, job);
    hide ViewOf, Inv, SyncObject, Ready, Cached, Supported;
    SyncSeen(env, s, job, fault, job.user);
    SyncSeen(env, t, job, fault, job.user);
    CacheUnread(env, ViewOf(t, job.user), job, fault, Ready(env, t, job));
  }

  /** Unless an embedding call fails, it does not matter whether one must be made. */
  lemma CacheUnread(env: Env, v: View, job: Job, fault: Fault, ready: bool)
    requires !fault.NeedsCall()
    ensures Decide(env, v, job, fault, ready, true) == Decide(env, v, job, fault, ready, false)
  {
  }

  lemma CrashStepSeen(env: Env, s: Tables, t: Tables, job: Job, point: CrashPoint)
    requires env.Valid() && Inv(env, s) && Inv(env, t)
    requires Supported(job.item.key) && ViewOf(s, job.user) == ViewOf(t, job.user)
    ensures ViewOf(CrashIn(env, s, job, point), job.user) == ViewOf(CrashIn(env, t, job, point), job.user)
  {
    ReadyIsOfTheBytes(env, s, job);
    ReadyIsOfTheBytes(env, t, job);
    hide ViewOf, Inv, CrashIn, Ready, Supported, CrashEffect;
    CrashSeen(env, s, job, point, job.user);
    CrashSeen(env, t, job, point, job.user);
  }

  lemma RemoveStepSeen(s: Tables, t: Tables, user: User, id: FileKey)
    requires ViewOf(s, user) == ViewOf(t, user)
    ensures ViewOf(RemoveFile(s, user, id), user) == ViewOf(RemoveFile(t, user, id), user)
  {
    hide ViewOf, ReapRow;
    if id.user == user {
      LiveSeen(s, t, id);
      if Live(s, id) {
        ReapSeen(s, t, user, id, t.files[id].sha, user);
      }
    }
  }

  lemma {:induction false} SameViewsStaySame(env: Env, s: Tables, t: Tables, ops: seq<Op>, user: User)
    requires env.Valid() && Inv(env, s) && Inv(env, t) && ViewOf(s, user) == ViewOf(t, user)
    requires forall op :: op in ops && op.Actor() == user ==> Careful(op)
    ensures ViewOf(Play(env, s, ops), user) == ViewOf(Play(env, t, Own(ops, user)), user)
    ensures Receipts(env, s, ops, user) == Receipts(env, t, Own(ops, user), user)
    decreases |ops|
  {
    hide ViewOf, Inv, Step, SyncObject, Careful;
    if ops != [] {
      var op, rest := ops[0], ops[1..];
      assert op in ops && forall o :: o in rest ==> o in ops;
      StepKeeps(env, s, op);
      if op.Actor() == user {
        StepKeeps(env, t, op);
        StepSeen(env, s, t, op, user);
        SameViewsStaySame(env, Step(env, s, op), Step(env, t, op), rest, user);
        assert Own(ops, user)[1..] == Own(rest, user);
      } else {
        StepUnseen(env, s, op, user);
        SameViewsStaySame(env, Step(env, s, op), t, rest, user);
        assert Own(ops, user) == Own(rest, user);
        assert Receipts(env, s, ops, user) == Receipts(env, Step(env, s, op), rest, user);
      }
    }
  }

  /** Possessed text is the text of the bytes, so it is the same in any two states. */
  lemma ResolvedTextSeen(env: Env, s: Tables, t: Tables, user: User, ref: ChunkRef)
    requires Inv(env, s) && Inv(env, t) && ViewOf(s, user) == ViewOf(t, user)
    ensures Resolve(s, user, ref) == Resolve(t, user, ref)
  {
    hide ViewOf;
    HeldInView(s, user, ref.sha);
    HeldInView(t, user, ref.sha);
    if Holding(user, ref.sha) in s.holds {
      assert HasText(env, s, ref.sha) && HasText(env, t, ref.sha);
    }
  }

  /**
   * Non-interference. Let any users do anything, in any interleaving, failing as they
   * like and crashing at any write of a step, a reap or a removal. As long as user's own
   * steps are careful, user's rows, possession, collection, readable text and run receipts
   * are those of a platform on which user's operations are the only ones that ever ran.
   */
  lemma NonInterference(env: Env, ops: seq<Op>, user: User)
    requires env.Valid()
    requires forall op :: op in ops && op.Actor() == user ==> Careful(op)
    ensures var shared, alone := Play(env, Empty, ops), Play(env, Empty, Own(ops, user));
      && ViewOf(shared, user) == ViewOf(alone, user)
      && Receipts(env, Empty, ops, user) == Receipts(env, Empty, Own(ops, user), user)
      && forall ref :: Resolve(shared, user, ref) == Resolve(alone, user, ref)
  {
    hide ViewOf, Inv, Play, Own, Careful, Receipts, Resolve;
    EmptyIsSound(env);
    SameViewsStaySame(env, Empty, Empty, ops, user);
    PlayKeeps(env, Empty, ops);
    PlayKeeps(env, Empty, Own(ops, user));
    forall ref {
      ResolvedTextSeen(env, Play(env, Empty, ops), Play(env, Empty, Own(ops, user)), user, ref);
    }
  }

  // --- exactly where it stops -------------------------------------------------------------

  /** The embedding call is reached and made. */
  ghost predicate MustEmbed(env: Env, t: Tables, job: Job) {
    && Ready(env, t, job) && !Cached(env, t, job)
    && Holding(job.user, env.hash(job.fetched.value)) !in t.holds
  }

  /**
   * Between two platforms that agree on a user, one step of that user keeps them
   * in agreement if and only if they agree on the two bits the ladder reads from
   * the shared tables: is there a text for these bytes, and, when embedding calls or
   * the writing of their results fail, must one be made.
   */
  lemma StepAgreesExactly(env: Env, s: Tables, t: Tables, job: Job, fault: Fault)
    requires env.Valid() && Inv(env, s) && Inv(env, t) && ViewOf(s, job.user) == ViewOf(t, job.user)
    ensures
      (ViewOf(SyncObject(env, s, job, fault).0, job.user) == ViewOf(SyncObject(env, t, job, fault).0, job.user))
      <==>
      (Downloads(t, job) ==>
         && (Ready(env, s, job) <==> Ready(env, t, job))
         && (fault.NeedsCall() ==> (MustEmbed(env, s, job) <==> MustEmbed(env, t, job))))
  {
    hide ViewOf, Inv, SyncObject, Ready, Cached;
    SyncSeen(env, s, job, fault, job.user);
    SyncSeen(env, t, job, fault, job.user);
    DownloadsSeen(t, job);
    var sha := env.hash(job.fetched.GetOr([]));
    HeldInView(s, job.user, sha);
    HeldInView(t, job.user, sha);
    EmptyIsCached(env, s, job);
    EmptyIsCached(env, t, job);
    var a := Decide(env, ViewOf(s, job.user), job, fault, Ready(env, s, job), Cached(env, s, job));
    var b := Decide(env, ViewOf(t, job.user), job, fault, Ready(env, t, job), Cached(env, t, job));
    VerdictShows(env, ViewOf(t, job.user), job, a);
    VerdictShows(env, ViewOf(t, job.user), job, b);
    ReadyNeedsBytes(env, s, job);
    ReadyNeedsBytes(env, t, job);
  }

  lemma DownloadsSeen(t: Tables, job: Job)
    ensures Downloads(t, job) <==> !UnchangedIn(ViewOf(t, job.user), job) && job.fetched.Some?
  {
  }

  lemma ReadyNeedsBytes(env: Env, t: Tables, job: Job)
    ensures Ready(env, t, job) ==> job.fetched.Some?
  {
  }

  lemma EmptyIsCached(env: Env, t: Tables, job: Job)
    ensures job.fetched.Some? && env.Canon(env.hash(job.fetched.value)) == [] ==> Cached(env, t, job)
  {
    if job.fetched.Some? && env.Canon(env.hash(job.fetched.value)) == [] {
      assert Missing(env, t, env.hash(job.fetched.value), 0) == {};
    }
  }

  /** The row a step leaves tells its verdict apart from every other that it could be. */
  lemma VerdictShows(env: Env, v: View, job: Job, verdict: Verdict)
    ensures !verdict.Keep? ==>
      && job.File() in Apply(env, v, job, verdict).files
      && Apply(env, v, job, verdict).files[job.File()] ==
           if verdict.Reject? then job.Row(None, Some(verdict.fault)) else job.Row(Some(verdict.sha), None)
  {
  }

  /**
   * The suffix test is skipped on a cache hit, so an unsupported name shows whether
   * some other user has synced the same bytes under a supported one: the same step
   * of the same user is indexed in the first case and fails in the second.
   */
  lemma UnsupportedNameShowsTheCache(env: Env, other: Job, mine: Job)
    requires env.Valid() && other.user != mine.user
    requires other.fetched.Some? && mine.fetched == other.fetched
    requires Supported(other.item.key) && !Supported(mine.item.key)
    requires env.TextOf(mine.fetched.value).Some?
    ensures var alone := SyncObject(env, Empty, mine, NoFault).0;
      var shared := SyncObject(env, SyncObject(env, Empty, other, NoFault).0, mine, NoFault).0;
      && mine.File() in alone.files && mine.File() in shared.files
      && alone.files[mine.File()] == mine.Row(None, Some(ExtractError))
      && shared.files[mine.File()] == mine.Row(Some(env.hash(mine.fetched.value)), None)
  {
    hide Inv, SyncObject, TextReady;
    EmptyIsSound(env);
    SyncedIsMarked(env, other);
    SyncKeeps(env, Empty, other, NoFault);
    FreshSync(env, Empty, mine);
    FreshSync(env, SyncObject(env, Empty, other, NoFault).0, mine);
    ReadyByMark(env, Empty, mine);
    ReadyByMark(env, SyncObject(env, Empty, other, NoFault).0, mine);
  }

  lemma ReadyByMark(env: Env, t: Tables, job: Job)
    requires job.fetched.Some? && !Supported(job.item.key) && env.TextOf(job.fetched.value).Some?
    ensures TextReady(env, t, job.item.key, job.fetched.value) <==> Marked(env, t, env.hash(job.fetched.value))
  {
  }

  lemma SyncedIsMarked(env: Env, job: Job)
    requires env.Valid() && job.fetched.Some?
    requires Supported(job.item.key) && env.TextOf(job.fetched.value).Some?
    ensures var t := SyncObject(env, Empty, job, NoFault).0;
      && Marked(env, t, env.hash(job.fetched.value))
      && forall id :: id in t.files ==> id.user == job.user
  {
    var data := job.fetched.value;
    var sha := env.hash(data);
    EmptyIsSound(env);
    UpsertBlobKeeps(env, Empty, sha, |data|);
    TextChunksExact(env, UpsertBlob(Empty, sha, |data|), sha, job.item.key, data);
    var (texted, _) := TextChunks(env, UpsertBlob(Empty, sha, |data|), sha, job.item.key, data);
    IndexTouches(env, texted, job.user, sha, env.Canon(sha), NoFault);
    hide TextChunks, IndexBlob, Inv, UpsertBlob;
    assert UpsertBlob(Empty, sha, |data|).files == map[] && UpsertBlob(Empty, sha, |data|).holds == {} by {
      BlobOnEmpty(sha, |data|);
    }
  }

  lemma BlobOnEmpty(sha: Sha, size: nat)
    ensures UpsertBlob(Empty, sha, size).files == map[] && UpsertBlob(Empty, sha, size).holds == {}
  {
  }

  lemma FreshSync(env: Env, t: Tables, job: Job)
    requires env.Valid() && Inv(env, t) && job.fetched.Some? && !Live(t, job.File())
    ensures var u := SyncObject(env, t, job, NoFault).0;
      && job.File() in u.files
      && u.files[job.File()] ==
           if TextReady(env, t, job.item.key, job.fetched.value)
           then job.Row(Some(env.hash(job.fetched.value)), None)
           else job.Row(None, Some(ExtractError))
  {
    hide SyncObject, Inv, TextReady;
    SyncSeen(env, t, job, NoFault, job.user);
    var u := SyncObject(env, t, job, NoFault).0;
    assert job.File() in ViewOf(u, job.user).files;
    assert ViewOf(u, job.user).files[job.File()] == u.files[job.File()];
  }
}
