/**
 * The one crash that no later step repairs by itself: a removal that dies after dropping
 * the vectors and before giving up possession. Exactly when it does harm, how long the
 * harm lasts, what it makes the platform say, and what undoes it.
 */
module Crashes {
  import opened Wrappers
  import opened Extraction
  import opened Content
  import opened Store
  import opened Ladder
  import opened Invariant
  import opened Reachable
  import opened Isolation
  import opened Vectors
  import NonInterference
  import Removal
  import Runs

  // --- when it does harm, and for how long ------------------------------------------------

  ghost predicate AllSearchable(env: Env, t: Tables) {
    forall h :: h in t.holds ==> HasVectors(env, t, h.user, h.sha)
  }

  /** The turn drops the last name of bytes that the user possesses and that have chunks. */
  predicate DropsHeldVectors(t: Tables, user: User, id: FileKey, sha: Option<Sha>) {
    && sha.Some? && !References(SoftDelete(t, user, id), user, sha.value)
    && Holding(user, sha.value) in t.holds && ChunkRows(t, sha.value) != []
  }

  /** Of possessed bytes that can be found some no longer can, exactly when the turn had vectors to drop. */
  lemma RemovalCrashExactly(
    env: Env, t: Tables, user: User, id: FileKey, sha: Option<Sha>, halt: RemovalPoint)
    requires Inv(env, t) && AllSearchable(env, t)
    ensures var u := CrashInReap(t, user, id, sha, halt);
      && Inv(env, u)
      && (AllSearchable(env, u) <==> !(halt.AfterDrop? && DropsHeldVectors(t, user, id, sha)))
  {
    var u := CrashInReap(t, user, id, sha, halt);
    CrashReapKeeps(env, t, user, id, sha, halt);
    CrashReapHolds(t, user, id, sha, halt);
    var lost := halt.AfterDrop? && DropsHeldVectors(t, user, id, sha);
    forall h | h in t.holds
      ensures HasVectors(env, u, h.user, h.sha) <==> !(lost && h == Holding(user, sha.value))
    {
      CrashLeaves(env, t, user, id, sha, halt, h);
    }
    hide Inv, HasVectors, References, SoftDelete, ChunkRows, CrashInReap;
    if lost {
      assert Holding(user, sha.value) in u.holds;
    }
  }

  lemma CrashLeaves(
    env: Env, t: Tables, user: User, id: FileKey, sha: Option<Sha>, halt: RemovalPoint, h: Holding)
    requires Inv(env, t) && h in t.holds && HasVectors(env, t, h.user, h.sha)
    ensures HasVectors(env, CrashInReap(t, user, id, sha, halt), h.user, h.sha)
      <==> !(halt.AfterDrop? && DropsHeldVectors(t, user, id, sha) && h == Holding(user, sha.value))
  {
    var u := CrashInReap(t, user, id, sha, halt);
    if h.user == user {
      CrashReapDrops(env, t, user, id, sha, halt, h.sha);
    } else {
      CrashReapSeen(t, t, user, id, sha, halt, h.user);
      AlikeIsSame(ViewOf(t, h.user), ViewOf(u, h.user), h.sha);
    }
    hide Inv, CrashInReap, ViewOf, References, SoftDelete, ChunkRows, HasVectors, Bare;
    if SameVectors(ViewOf(t, h.user), ViewOf(u, h.user), h.sha) {
      SameVectorsMeans(env, t, u, h.user, h.sha);
    }
  }

  lemma AlikeIsSame(v: View, w: View, sha: Sha)
    ensures v == w ==> SameVectors(v, w, sha)
  {
  }

  /** The entry is gone, or as it was. */
  predicate NothingNew(t: Tables, u: Tables, user: User, ref: ChunkRef) {
    ref in CollectionOf(u, user) ==>
      ref in CollectionOf(t, user) && CollectionOf(u, user)[ref] == CollectionOf(t, user)[ref]
  }

  /** No operation, under any version, writes a vector of bytes that its owner possesses already. */
  lemma StepWritesNothing(env: Env, t: Tables, op: Op, user: User, ref: ChunkRef)
    requires Holding(user, ref.sha) in t.holds
    ensures NothingNew(t, Step(env, t, op), user, ref)
  {
    hide TextChunks, IndexBlob, Unchanged, SoftDelete, References;
    match op
    case Sync(job, fault) =>
      if Downloads(t, job) {
        IngestWritesNothing(env, t, job, job.fetched.value, fault, user, ref);
      }
    case Crash(job, point) => CrashWritesNothing(env, t, job, point, user, ref);
    case Reap(actor, id, sha) => ReapWritesNothing(t, actor, id, sha, user, ref);
    case Remove(actor, id) =>
      if id.user == actor && Live(t, id) {
        ReapWritesNothing(t, actor, id, t.files[id].sha, user, ref);
      }
    case CrashReap(actor, id, sha, halt) => CrashReapWritesNothing(t, actor, id, sha, halt, user, ref);
  }

  lemma IndexAddsOwn(
    env: Env, t: Tables, actor: User, sha: Sha, chunks: seq<string>, fault: Fault, user: User, ref: ChunkRef)
    requires actor != user || sha != ref.sha
    ensures NothingNew(t, IndexBlob(env, t, actor, sha, chunks, fault).0, user, ref)
  {
    IndexSteps(env, t, actor, sha, chunks, fault);
    EntriesNameTheBlob(env, t, actor, sha, chunks);
    hide IndexBlob, PutCached, Fresh, Missing, Entries;
  }

  lemma EntriesNameTheBlob(env: Env, t: Tables, user: User, sha: Sha, chunks: seq<string>)
    ensures forall ref :: ref in Entries(env, t, user, sha, chunks) ==> ref.sha == sha
  {
  }

  lemma IngestWritesNothing(
    env: Env, t: Tables, job: Job, data: Bytes, fault: Fault, user: User, ref: ChunkRef)
    requires Holding(user, ref.sha) in t.holds
    ensures NothingNew(t, Ingest(env, t, job, data, fault).0, user, ref)
  {
    hide TextChunks, Attach, CollectionOf;
    var sha := env.hash(data);
    var (texted, text) := TextChunks(env, UpsertBlob(t, sha, |data|), sha, job.item.key, data);
    assert texted.holds == t.holds && texted.collections == t.collections;
    SameCollections(t, texted, user);
    if text.Ok? {
      AttachWritesNothing(env, texted, job, sha, text.value, fault, user, ref);
    }
  }

  lemma AttachWritesNothing(
    env: Env, t: Tables, job: Job, sha: Sha, chunks: seq<string>, fault: Fault, user: User, ref: ChunkRef)
    requires Holding(user, ref.sha) in t.holds
    ensures NothingNew(t, Attach(env, t, job, sha, chunks, fault).0, user, ref)
  {
    hide IndexBlob;
    if Holding(job.user, sha) !in t.holds {
      IndexAddsOwn(env, t, job.user, sha, chunks, fault, user, ref);
    }
  }

  lemma CrashWritesNothing(env: Env, t: Tables, job: Job, point: CrashPoint, user: User, ref: ChunkRef)
    requires Holding(user, ref.sha) in t.holds
    ensures NothingNew(t, CrashIn(env, t, job, point), user, ref)
  {
    hide TextChunks, Unchanged, CrashInText, CrashInAttach, CollectionOf;
    if Downloads(t, job) {
      var data := job.fetched.value;
      var sha := env.hash(data);
      var start := UpsertBlob(t, sha, |data|);
      TextCrashKeepsCollections(env, start, sha, env.Extract(job.item.key, data), point);
      var (texted, text) := TextChunks(env, start, sha, job.item.key, data);
      assert texted.holds == t.holds && texted.collections == t.collections;
      SameCollections(t, start, user);
      SameCollections(t, texted, user);
      SameCollections(t, CrashInText(env, start, sha, env.Extract(job.item.key, data), point), user);
      if text.Ok? {
        AttachCrashWritesNothing(env, texted, job, sha, text.value, point, user, ref);
      }
    }
  }

  lemma SameCollections(t: Tables, u: Tables, user: User)
    ensures t.collections == u.collections ==> CollectionOf(t, user) == CollectionOf(u, user)
  {
  }

  lemma AttachCrashWritesNothing(
    env: Env, t: Tables, job: Job, sha: Sha, chunks: seq<string>, point: CrashPoint, user: User, ref: ChunkRef)
    requires Holding(user, ref.sha) in t.holds
    ensures NothingNew(t, CrashInAttach(env, t, job, sha, chunks, point), user, ref)
  {
    hide IndexBlob;
    if Holding(job.user, sha) !in t.holds {
      IndexAddsOwn(env, t, job.user, sha, chunks, UpsertFails, user, ref);
      IndexAddsOwn(env, t, job.user, sha, chunks, NoFault, user, ref);
    }
  }

  lemma TextCrashKeepsCollections(env: Env, t: Tables, sha: Sha, extracted: Option<string>, point: CrashPoint)
    ensures CrashInText(env, t, sha, extracted, point).collections == t.collections
  {
  }

  lemma ReapWritesNothing(t: Tables, actor: User, id: FileKey, sha: Option<Sha>, user: User, ref: ChunkRef)
    ensures NothingNew(t, ReapRow(t, actor, id, sha), user, ref)
  {
    var deleted := SoftDelete(t, actor, id);
    assert deleted.collections == t.collections;
    hide SoftDelete, References;
    if sha.Some? && !References(deleted, actor, sha.value) {
      DropShrinks(deleted, actor, sha.value, user, ref);
    }
  }

  lemma CrashReapWritesNothing(
    t: Tables, actor: User, id: FileKey, sha: Option<Sha>, halt: RemovalPoint, user: User, ref: ChunkRef)
    ensures NothingNew(t, CrashInReap(t, actor, id, sha, halt), user, ref)
  {
    var deleted := SoftDelete(t, actor, id);
    assert deleted.collections == t.collections;
    hide SoftDelete, References;
    if sha.Some? {
      DropShrinks(deleted, actor, sha.value, user, ref);
      assert RemoveHolding(DropEntries(deleted, actor, sha.value), actor, sha.value).collections
        == DropEntries(deleted, actor, sha.value).collections;
    }
  }

  lemma DropShrinks(t: Tables, actor: User, sha: Sha, user: User, ref: ChunkRef)
    ensures NothingNew(t, RemoveHolding(DropEntries(t, actor, sha), actor, sha), user, ref)
  {
    hide EntriesOf;
  }

  /**
   * For as long as the user possesses the bytes, whatever anybody syncs, removes or crashes,
   * an entry of theirs stays what it is or goes, and never comes back.
   */
  lemma {:induction false} HeldEntriesStay(env: Env, t: Tables, ops: seq<Op>, user: User, ref: ChunkRef)
    requires forall k :: 0 <= k < |ops| ==> Holding(user, ref.sha) in Play(env, t, ops[..k]).holds
    ensures NothingNew(t, Play(env, t, ops), user, ref)
  {
    hide Step, CollectionOf;
    if ops != [] {
      var n := |ops| - 1;
      assert forall k :: 0 <= k < n ==> ops[..n][..k] == ops[..k];
      HeldEntriesStay(env, t, ops[..n], user, ref);
      assert ops == ops[..n] + [ops[n]];
      PlaySnoc(env, t, ops[..n], ops[n]);
      StepWritesNothing(env, Play(env, t, ops[..n]), ops[n], user, ref);
    }
  }

  /** So a vector that is lost stays away. */
  lemma LossLasts(env: Env, t: Tables, ops: seq<Op>, user: User, ref: ChunkRef)
    requires ref !in CollectionOf(t, user)
    requires forall k :: 0 <= k < |ops| ==> Holding(user, ref.sha) in Play(env, t, ops[..k]).holds
    ensures ref !in CollectionOf(Play(env, t, ops), user)
  {
    hide CollectionOf, Play;
    HeldEntriesStay(env, t, ops, user, ref);
  }

  /** What undoes it: once the last name of the bytes is removed or reaped, all that is possessed is found. */
  lemma LastNameHeals(env: Env, t: Tables, user: User, id: FileKey, sha: Sha)
    requires Inv(env, t) && !References(SoftDelete(t, user, id), user, sha)
    requires forall h :: h in t.holds && h != Holding(user, sha) ==> HasVectors(env, t, h.user, h.sha)
    ensures var u := ReapRow(t, user, id, Some(sha));
      Inv(env, u) && Holding(user, sha) !in u.holds && AllSearchable(env, u)
  {
    var u := ReapRow(t, user, id, Some(sha));
    ReapKeeps(env, t, user, id, Some(sha));
    ReapTakesPossession(t, user, id, sha);
    hide Inv, ReapRow, References, SoftDelete, HasVectors;
    forall h | h in u.holds ensures HasVectors(env, u, h.user, h.sha) {
      ReapLeaves(env, t, user, id, Some(sha), h);
    }
  }

  lemma ReapTakesPossession(t: Tables, user: User, id: FileKey, sha: Sha)
    requires !References(SoftDelete(t, user, id), user, sha)
    ensures ReapRow(t, user, id, Some(sha)).holds == t.holds - {Holding(user, sha)}
  {
    assert SoftDelete(t, user, id).holds == t.holds;
    hide SoftDelete, References, EntriesOf;
  }

  lemma ReapLeaves(env: Env, t: Tables, user: User, id: FileKey, sha: Option<Sha>, h: Holding)
    requires Inv(env, t) && h in t.holds && h in ReapRow(t, user, id, sha).holds
    requires HasVectors(env, t, h.user, h.sha)
    ensures HasVectors(env, ReapRow(t, user, id, sha), h.user, h.sha)
  {
    var u := ReapRow(t, user, id, sha);
    HeldInView(t, h.user, h.sha);
    HeldInView(u, h.user, h.sha);
    if h.user == user {
      OfInv(env, t);
      ReapFreshOrSame(env, t, user, id, sha, h.sha);
    } else {
      ReapSeen(t, t, user, id, sha, h.user);
      AlikeIsSame(ViewOf(t, h.user), ViewOf(u, h.user), h.sha);
    }
    hide Inv, ReapRow, ViewOf, HasVectors, Bare, SameVectors;
    SameVectorsMeans(env, t, u, h.user, h.sha);
  }

  // --- a history that loses vectors, and one that gets them back --------------------------------

  /** The job's name is the last one its user has for the bytes it is about to download again. */
  ghost predicate LastNameOf(env: Env, t: Tables, job: Job) {
    && job.fetched.Some? && TextReady(env, t, job.item.key, job.fetched.value)
    && Live(t, job.File()) && t.files[job.File()].sha == Some(env.hash(job.fetched.value))
    && !References(SoftDelete(t, job.user, job.File()), job.user, env.hash(job.fetched.value))
    && ChunkRows(t, env.hash(job.fetched.value)) != []
  }

  /** Such states are reached: sync one document with a chunk on an empty platform. */
  lemma OneSyncGetsThere(env: Env, job: Job)
    requires env.Valid() && job.fetched.Some?
    requires env.Extract(job.item.key, job.fetched.value).Some?
    requires env.Chunks(env.Extract(job.item.key, job.fetched.value).value) != []
    ensures LastNameOf(env, Play(env, Empty, [Sync(job, NoFault)]), job)
  {
    var t := SyncObject(env, Empty, job, NoFault).0;
    assert [Sync(job, NoFault)][1..] == [];
    assert Play(env, t, []) == t;
    assert Play(env, Empty, [Sync(job, NoFault)]) == Play(env, Step(env, Empty, Sync(job, NoFault)), []) by {
      hide Step;
    }
    hide SyncObject, Inv, TextReady, Play, Step;
    EmptyIsSound(env);
    ReadyByName(env, Empty, job);
    NonInterference.FreshSync(env, Empty, job);
    NonInterference.SyncedIsMarked(env, job);
    SyncKeeps(env, Empty, job, NoFault);
    ReadyByName(env, t, job);
    OnlyRow(env, job);
    var sha := env.hash(job.fetched.value);
    LiveIsHeld(env, t, job.File());
    HeldHasText(env, t, job.user, sha);
    env.CanonIsOfTheBytes(job.fetched.value);
  }

  lemma ReadyByName(env: Env, t: Tables, job: Job)
    requires job.fetched.Some? && env.Extract(job.item.key, job.fetched.value).Some?
    ensures TextReady(env, t, job.item.key, job.fetched.value)
  {
  }

  lemma OnlyRow(env: Env, job: Job)
    ensures var t := SyncObject(env, Empty, job, NoFault).0;
      && (forall id :: id in t.files ==> id == job.File())
      && forall sha :: !References(SoftDelete(t, job.user, job.File()), job.user, sha)
  {
    hide TextChunks, IndexBlob;
    FilesOfOneSync(env, Empty, job);
  }

  lemma FilesOfOneSync(env: Env, t: Tables, job: Job)
    ensures forall id :: id in SyncObject(env, t, job, NoFault).0.files ==> id in t.files || id == job.File()
  {
    hide SyncObject;
    Runs.SyncRow(env, t, job, NoFault);
  }

  /**
   * The removal of the last name crashes halfway. The next sync of the same bytes stops at
   * rung 2: the file is live and indexed, and no search finds it. A removal of that name
   * and one more sync bring every vector back.
   */
  lemma CrashInRemovalLosesVectors(env: Env, t: Tables, job: Job)
    requires env.Valid() && Inv(env, t) && AllSearchable(env, t) && LastNameOf(env, t, job)
    ensures var sha := env.hash(job.fetched.value);
      var crashed := CrashInReap(t, job.user, job.File(), Some(sha), AfterDrop);
      var (synced, outcome) := SyncObject(env, crashed, job, NoFault);
      var removed := RemoveFile(synced, job.user, job.File());
      var again := SyncObject(env, removed, job, NoFault).0;
      && outcome == Stored(sha, Split(0, |ChunkRows(t, sha)|))
      && Live(synced, job.File()) && synced.files[job.File()].state == Indexed
      && Bare(synced, job.user, sha)
      && AllSearchable(env, removed) && AllSearchable(env, again)
      && Live(again, job.File()) && again.files[job.File()].sha == Some(sha)
      && AllIndexed(env, again, job.user, sha)
  {
    var sha := env.hash(job.fetched.value);
    var crashed := CrashInReap(t, job.user, job.File(), Some(sha), AfterDrop);
    AfterCrash(env, t, job);
    HeldBytesAreAttributed(env, crashed, job);
    AttributedAfterCrash(env, crashed, job);
    hide SyncObject, TextReady, References, SoftDelete, CrashInReap, RemoveFile;
    hide AllIndexed, Bare, ChunkRows, HasVectors;
    var synced := SyncObject(env, crashed, job, NoFault).0;
    var removed := RemoveFile(synced, job.user, job.File());
    SyncFinds(env, removed, job);
    var again := SyncObject(env, removed, job, NoFault).0;
    hide AllSearchable, Inv;
    LiveIsHeld(env, again, job.File());
    IndexedExactly(env, again, job.user, sha);
    SearchableFrom(env, again, job.user, sha);
  }

  lemma SearchableFrom(env: Env, t: Tables, user: User, sha: Sha)
    requires AllSearchable(env, t) && Holding(user, sha) in t.holds
    ensures HasVectors(env, t, user, sha)
  {
  }

  /** A sync where everything is found leaves everything to be found. */
  lemma SyncFinds(env: Env, t: Tables, job: Job)
    requires env.Valid() && Inv(env, t) && AllSearchable(env, t) && !Live(t, job.File())
    requires job.fetched.Some? && TextReady(env, t, job.item.key, job.fetched.value)
    ensures var u := SyncObject(env, t, job, NoFault).0;
      && Inv(env, u) && AllSearchable(env, u)
      && Live(u, job.File()) && u.files[job.File()].sha == Some(env.hash(job.fetched.value))
  {
    hide SyncObject, Inv, HasVectors, TextReady;
    SyncKeeps(env, t, job, NoFault);
    NonInterference.FreshSync(env, t, job);
    var u := SyncObject(env, t, job, NoFault).0;
    assert Step(env, t, Sync(job, NoFault)) == u;
    forall h | h in u.holds ensures HasVectors(env, u, h.user, h.sha) {
      hide Step;
      StepVectors(env, t, Sync(job, NoFault), h.user, h.sha);
    }
  }

  lemma AfterCrash(env: Env, t: Tables, job: Job)
    requires Inv(env, t) && LastNameOf(env, t, job)
    ensures var sha := env.hash(job.fetched.value);
      var crashed := CrashInReap(t, job.user, job.File(), Some(sha), AfterDrop);
      && Inv(env, crashed) && Bare(crashed, job.user, sha)
      && !Live(crashed, job.File()) && !References(crashed, job.user, sha)
      && Marked(env, crashed, sha) && Holding(job.user, sha) in crashed.holds
      && ChunkRows(crashed, sha) == ChunkRows(t, sha)
      && TextReady(env, crashed, job.item.key, job.fetched.value)
      && (AllSearchable(env, t) ==>
            forall h :: h in crashed.holds && h != Holding(job.user, sha) ==> HasVectors(env, crashed, h.user, h.sha))
  {
    var sha := env.hash(job.fetched.value);
    var crashed := CrashInReap(t, job.user, job.File(), Some(sha), AfterDrop);
    LiveIsHeld(env, t, job.File());
    HeldHasText(env, t, job.user, sha);
    CrashReapKeeps(env, t, job.user, job.File(), Some(sha), AfterDrop);
    CrashReapDrops(env, t, job.user, job.File(), Some(sha), AfterDrop, sha);
    var deleted := SoftDelete(t, job.user, job.File());
    assert !Live(deleted, job.File()) && deleted == t.(files := deleted.files);
    assert crashed == deleted.(collections := crashed.collections);
    Removal.ReferencesFrame(deleted, crashed, job.user, sha);
    if AllSearchable(env, t) {
      forall h | h in crashed.holds && h != Holding(job.user, sha)
        ensures HasVectors(env, crashed, h.user, h.sha)
      {
        hide Inv, CrashInReap, HasVectors, References, SoftDelete;
        CrashLeaves(env, t, job.user, job.File(), Some(sha), AfterDrop, h);
      }
    }
    hide Inv, HasVectors, References, SoftDelete, Bare;
  }

  /** After the sync that finds nothing its name is again the last one, and going heals. */
  lemma AttributedAfterCrash(env: Env, crashed: Tables, job: Job)
    requires Inv(env, crashed) && job.fetched.Some?
    requires var sha := env.hash(job.fetched.value);
      && !References(crashed, job.user, sha) && Holding(job.user, sha) in crashed.holds
      && TextReady(env, crashed, job.item.key, job.fetched.value)
      && forall h :: h in crashed.holds && h != Holding(job.user, sha) ==> HasVectors(env, crashed, h.user, h.sha)
    ensures var sha := env.hash(job.fetched.value);
      var synced := UpsertFile(crashed, job.File(), job.Row(Some(sha), None));
      var removed := RemoveFile(synced, job.user, job.File());
      && CollectionOf(synced, job.user) == CollectionOf(crashed, job.user)
      && Live(synced, job.File()) && synced.files[job.File()].state == Indexed
      && Inv(env, removed) && AllSearchable(env, removed) && !Live(removed, job.File())
      && TextReady(env, removed, job.item.key, job.fetched.value)
  {
    var sha := env.hash(job.fetched.value);
    var synced := UpsertFile(crashed, job.File(), job.Row(Some(sha), None));
    UpsertFileKeeps(env, crashed, job.File(), job.Row(Some(sha), None));
    NoOtherName(crashed, job, sha);
    assert synced == crashed.(files := synced.files);
    hide Inv, References, HasVectors;
    forall h | h in synced.holds && h != Holding(job.user, sha) ensures HasVectors(env, synced, h.user, h.sha) {
      SameCollectionFinds(env, crashed, synced, h);
    }
    LastNameHeals(env, synced, job.user, job.File(), sha);
    assert RemoveFile(synced, job.user, job.File()) == ReapRow(synced, job.user, job.File(), Some(sha));
  }

  lemma SameCollectionFinds(env: Env, t: Tables, u: Tables, h: Holding)
    requires t.collections == u.collections && HasVectors(env, t, h.user, h.sha)
    ensures HasVectors(env, u, h.user, h.sha)
  {
  }

  lemma NoOtherName(t: Tables, job: Job, sha: Sha)
    requires !References(t, job.user, sha)
    ensures var u := UpsertFile(t, job.File(), job.Row(Some(sha), None));
      !References(SoftDelete(u, job.user, job.File()), job.user, sha)
  {
    var u := SoftDelete(UpsertFile(t, job.File(), job.Row(Some(sha), None)), job.user, job.File());
    assert u.files[job.File()].deleted;
    assert forall id :: id in u.files && id != job.File() ==> id in t.files && t.files[id] == u.files[id];
  }

  /**
   * And the reply to a removal of that name says that other references keep the content,
   * though there is no other and the content has chunks.
   */
  lemma CrashMakesTheReplyMislead(env: Env, t: Tables, job: Job)
    requires env.Valid() && Inv(env, t) && LastNameOf(env, t, job)
    ensures var sha := env.hash(job.fetched.value);
      var crashed := CrashInReap(t, job.user, job.File(), Some(sha), AfterDrop);
      var synced := SyncObject(env, crashed, job, NoFault).0;
      && !Removal.NamedElsewhere(synced, job.user, job.File(), sha) && ChunkRows(synced, sha) != []
      && Removal.ReplyOf(synced, job.user, job.File()) == Removal.Removed(0, true)
  {
    var sha := env.hash(job.fetched.value);
    var crashed := CrashInReap(t, job.user, job.File(), Some(sha), AfterDrop);
    AfterCrash(env, t, job);
    HeldBytesAreAttributed(env, crashed, job);
    NoOtherName(crashed, job, sha);
    hide SyncObject, TextReady, References, SoftDelete, CrashInReap, Bare, Inv;
    var synced := SyncObject(env, crashed, job, NoFault).0;
    Removal.ElsewhereMeans(synced, job.user, job.File(), sha);
    Removal.RetainedExactly(synced, job.user, job.File());
    NothingThere(env, crashed, synced, job.user, sha);
  }

  lemma NothingThere(env: Env, t: Tables, u: Tables, user: User, sha: Sha)
    requires Inv(env, t) && Bare(t, user, sha) && u.collections == t.collections
    ensures EntriesOf(u, user, sha) == {}
  {
    OwnEntries(env, t, user);
    assert ViewOf(t, user).vectors == CollectionOf(u, user);
  }
}
