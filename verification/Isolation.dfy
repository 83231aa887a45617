/**
 * The claim behind a cache shared between tenants: what a user can observe is a
 * function of that user's own operations.
 */
module Isolation {
  import opened Wrappers
  import opened Content
  import opened Store
  import opened Ladder
  import opened Invariant

  /** Everything the platform keeps about one user. */
  datatype View = View(files: map<FileKey, FileRow>, holds: set<Sha>, vectors: Collection)

  function ViewOf(t: Tables, user: User): View {
    View(
      map id | id in t.files && id.user == user :: t.files[id],
      set h | h in t.holds && h.user == user :: h.sha,
      CollectionOf(t, user))
  }

  lemma HeldInView(t: Tables, user: User, sha: Sha)
    ensures sha in ViewOf(t, user).holds <==> Holding(user, sha) in t.holds
  {
    if sha in ViewOf(t, user).holds {
      var h :| h in t.holds && h.user == user && h.sha == sha;
      assert h == Holding(user, sha);
    }
  }

  // --- what one object step does to a view ----------------------------------------------

  /** How a step ends, as far as its user can tell. */
  datatype Verdict = Keep | Reject(fault: SyncFault) | Attribute(sha: Sha) | Index(sha: Sha)

  predicate UnchangedIn(v: View, job: Job) {
    && job.File() in v.files && !v.files[job.File()].deleted
    && v.files[job.File()].state == Indexed
    && v.files[job.File()].sha.Some?
    && v.files[job.File()].stamp == job.item.stamp
  }

  /** What the last two rungs decide, once there is a text. */
  ghost function DecideAttach(env: Env, v: View, sha: Sha, fault: Fault, cached: bool): Verdict {
    if sha in v.holds then Attribute(sha)
    else if env.Canon(sha) == [] then Index(sha)
    else if fault.NeedsCall() && !cached then Reject(fault.Error())
    else if fault == UpsertFails then Reject(VectorStoreError)
    else Index(sha)
  }

  /**
   * The ladder from the user's side. Two bits come from the shared tables: whether
   * there is a text for the bytes, and whether every vector is already cached.
   */
  ghost function Decide(env: Env, v: View, job: Job, fault: Fault, ready: bool, cached: bool): Verdict {
    if UnchangedIn(v, job) then Keep
    else if job.fetched.None? then Reject(FetchError)
    else if !ready then Reject(ExtractError)
    else
      DecideAttach(env, v, env.hash(job.fetched.value), fault, cached)
  }

  ghost function Apply(env: Env, v: View, job: Job, verdict: Verdict): View {
    match verdict
    case Keep => v
    case Reject(fault) => v.(files := v.files[job.File() := job.Row(None, Some(fault))])
    case Attribute(sha) => v.(files := v.files[job.File() := job.Row(Some(sha), None)])
    case Index(sha) => View(
        v.files[job.File() := job.Row(Some(sha), None)],
        v.holds + {sha},
        v.vectors + CanonEntries(env, job.user, sha))
  }

  /** The outcome a run records, with the embedded/reused split merged. */
  datatype Receipt = SkippedFile | NewFile(sha: Sha, chunks: nat) | BrokenFile(fault: SyncFault)

  function Merge(outcome: Outcome): Receipt {
    match outcome
    case Skipped => SkippedFile
    case Stored(sha, split) => NewFile(sha, split.embedded + split.reused)
    case Broken(fault) => BrokenFile(fault)
  }

  ghost function ReceiptOf(env: Env, verdict: Verdict): Receipt {
    match verdict
    case Keep => SkippedFile
    case Reject(fault) => BrokenFile(fault)
    case Attribute(sha) => NewFile(sha, |env.Canon(sha)|)
    case Index(sha) => NewFile(sha, |env.Canon(sha)|)
  }

  ghost predicate Ready(env: Env, t: Tables, job: Job) {
    job.fetched.Some? && TextReady(env, t, job.item.key, job.fetched.value)
  }

  ghost predicate Cached(env: Env, t: Tables, job: Job) {
    job.fetched.Some? ==>
      var sha := env.hash(job.fetched.value);
      Missing(env, t, sha, |env.Canon(sha)|) == {}
  }

  lemma ViewAfterUpsertFile(t: Tables, id: FileKey, row: FileRow, user: User)
    ensures ViewOf(UpsertFile(t, id, row), user) ==
      if id.user == user then ViewOf(t, user).(files := ViewOf(t, user).files[id := row])
      else ViewOf(t, user)
  {
  }

  lemma ViewAfterHolding(t: Tables, owner: User, sha: Sha, user: User)
    ensures ViewOf(AddHolding(t, owner, sha), user) ==
      if owner == user then ViewOf(t, user).(holds := ViewOf(t, user).holds + {sha})
      else ViewOf(t, user)
  {
    var u := AddHolding(t, owner, sha);
    forall s ensures s in ViewOf(u, user).holds <==> s in ViewOf(t, user).holds || (owner == user && s == sha) {
      HeldInView(u, user, s);
      HeldInView(t, user, s);
    }
    assert ViewOf(u, user).files == ViewOf(t, user).files;
  }

  lemma IndexResult(env: Env, t: Tables, owner: User, sha: Sha, chunks: seq<string>, fault: Fault)
    ensures var r := IndexBlob(env, t, owner, sha, chunks, fault).1;
      var noEmbedding := fault.NeedsCall() && Missing(env, t, sha, |chunks|) != {};
      && (r.Raised? <==> (chunks != [] && (noEmbedding || fault == UpsertFails)))
      && (r.Raised? ==> r.error == fault.Error())
      && (r.Ok? ==> r.value.embedded + r.value.reused == |chunks|)
  {
    MissingWithin(env, t, sha, |chunks|);
  }

  lemma ViewAfterUpsertEntries(t: Tables, owner: User, entries: Collection, user: User)
    ensures ViewOf(UpsertEntries(t, owner, entries), user) ==
      if owner == user then ViewOf(t, user).(vectors := ViewOf(t, user).vectors + entries)
      else ViewOf(t, user)
  {
  }

  lemma ViewAfterIndexBlob(env: Env, t: Tables, owner: User, sha: Sha, fault: Fault, user: User)
    requires env.Valid() && CacheSound(env, t)
    ensures var (u, r) := IndexBlob(env, t, owner, sha, env.Canon(sha), fault);
      ViewOf(u, user) ==
        if owner == user && r.Ok? then
          ViewOf(t, user).(vectors := ViewOf(t, user).vectors + CanonEntries(env, user, sha))
        else ViewOf(t, user)
  {
    var chunks := env.Canon(sha);
    var entries := Entries(env, t, owner, sha, chunks);
    var cached := PutCached(t, sha, env.embedding, Fresh(env, chunks, Missing(env, t, sha, |chunks|)));
    EntriesAreCanonical(env, t, owner, sha);
    IndexSteps(env, t, owner, sha, chunks, fault);
    EmptyEntries(env, t, user, sha);
    hide IndexBlob, PutCached, Fresh, Missing, Entries, CanonEntries;
    assert ViewOf(cached, user) == ViewOf(t, user);
    ViewAfterUpsertEntries(cached, owner, entries, user);
  }

  lemma ViewAfterFinish(env: Env, t: Tables, job: Job, sha: Sha, user: User)
    ensures
      var marked := MarkEmbedded(AddHolding(t, job.user, sha), sha, env.embedding);
      var v := ViewOf(t, user);
      ViewOf(UpsertFile(marked, job.File(), job.Row(Some(sha), None)), user) ==
        if user == job.user then
          v.(files := v.files[job.File() := job.Row(Some(sha), None)], holds := v.holds + {sha})
        else v
  {
    var held := AddHolding(t, job.user, sha);
    var marked := MarkEmbedded(held, sha, env.embedding);
    ViewAfterHolding(t, job.user, sha, user);
    assert ViewOf(marked, user) == ViewOf(held, user);
    ViewAfterUpsertFile(marked, job.File(), job.Row(Some(sha), None), user);
  }

  lemma ViewAfterRung3(env: Env, t: Tables, job: Job, sha: Sha, fault: Fault, user: User)
    requires env.Valid() && CacheSound(env, t) && Holding(job.user, sha) !in t.holds
    ensures var (u, r) := Attach(env, t, job, sha, env.Canon(sha), fault);
      && (r.Raised? ==> ViewOf(u, user) == ViewOf(t, user))
      && (r.Ok? && user == job.user ==> ViewOf(u, user) == Apply(env, ViewOf(t, user), job, Index(sha)))
      && (user != job.user ==> ViewOf(u, user) == ViewOf(t, user))
      && r == (match IndexBlob(env, t, job.user, sha, env.Canon(sha), fault).1
               case Ok(split) => Ok(Stored(sha, split))
               case Raised(e) => Raised(e))
  {
    ViewAfterIndexBlob(env, t, job.user, sha, fault, user);
    ViewAfterFinish(env, IndexBlob(env, t, job.user, sha, env.Canon(sha), fault).0, job, sha, user);
  }

  lemma ViewAfterAttach(env: Env, t: Tables, job: Job, sha: Sha, fault: Fault, user: User)
    requires env.Valid() && CacheSound(env, t)
    ensures var (u, r) := Attach(env, t, job, sha, env.Canon(sha), fault);
      var verdict :=
        DecideAttach(env, ViewOf(t, job.user), sha, fault, Missing(env, t, sha, |env.Canon(sha)|) == {});
      && (r.Raised? ==> verdict == Reject(r.error) && ViewOf(u, user) == ViewOf(t, user))
      && (r.Ok? ==> !verdict.Reject? && Merge(r.value) == ReceiptOf(env, verdict))
      && (r.Ok? && user == job.user ==> ViewOf(u, user) == Apply(env, ViewOf(t, user), job, verdict))
      && (user != job.user ==> ViewOf(u, user) == ViewOf(t, user))
  {
    hide ViewOf, IndexBlob;
    HeldInView(t, job.user, sha);
    if Holding(job.user, sha) in t.holds {
      ViewAfterUpsertFile(t, job.File(), job.Row(Some(sha), None), user);
    } else {
      ViewAfterRung3(env, t, job, sha, fault, user);
      IndexResult(env, t, job.user, sha, env.Canon(sha), fault);
    }
  }

  lemma ViewAfterText(env: Env, t: Tables, job: Job, user: User)
    requires env.Valid() && Inv(env, t) && job.fetched.Some?
    ensures var data := job.fetched.value;
      var sha := env.hash(data);
      var (texted, text) := TextChunks(env, UpsertBlob(t, sha, |data|), sha, job.item.key, data);
      && ViewOf(texted, user) == ViewOf(t, user)
      && CacheSound(env, texted) && texted.cache == t.cache
      && (text.Ok? <==> Ready(env, t, job))
      && (text.Ok? ==> text.value == env.Canon(sha))
      && (text.Raised? ==> text.error == ExtractError)
  {
    var data := job.fetched.value;
    var sha := env.hash(data);
    UpsertBlobKeeps(env, t, sha, |data|);
    TextChunksExact(env, UpsertBlob(t, sha, |data|), sha, job.item.key, data);
  }

  lemma IngestSeen(env: Env, t: Tables, job: Job, fault: Fault, user: User)
    requires env.Valid() && Inv(env, t) && job.fetched.Some?
    ensures var (u, r) := Ingest(env, t, job, job.fetched.value, fault);
      var v := ViewOf(t, job.user);
      var verdict := if !Ready(env, t, job) then Reject(ExtractError)
        else DecideAttach(env, v, env.hash(job.fetched.value), fault, Cached(env, t, job));
      && (r.Raised? ==> verdict == Reject(r.error) && ViewOf(u, user) == ViewOf(t, user))
      && (r.Ok? ==> !verdict.Reject? && Merge(r.value) == ReceiptOf(env, verdict))
      && (r.Ok? && user == job.user ==> ViewOf(u, user) == Apply(env, v, job, verdict))
      && (user != job.user ==> ViewOf(u, user) == ViewOf(t, user))
  {
    hide ViewOf, Attach, TextChunks, TextReady, Ready, Inv;
    var data := job.fetched.value;
    var sha := env.hash(data);
    ViewAfterText(env, t, job, user);
    ViewAfterText(env, t, job, job.user);
    var (texted, text) := TextChunks(env, UpsertBlob(t, sha, |data|), sha, job.item.key, data);
    if text.Ok? {
      ViewAfterAttach(env, texted, job, sha, fault, user);
      assert Missing(env, texted, sha, |env.Canon(sha)|) == Missing(env, t, sha, |env.Canon(sha)|);
    }
  }

  lemma UnchangedSeen(t: Tables, job: Job)
    ensures UnchangedIn(ViewOf(t, job.user), job) <==> Unchanged(t, job)
  {
  }

  lemma ProcessSeen(env: Env, t: Tables, job: Job, fault: Fault, user: User)
    requires env.Valid() && Inv(env, t)
    ensures var (u, r) := Process(env, t, job, fault);
      var v := ViewOf(t, job.user);
      var verdict := Decide(env, v, job, fault, Ready(env, t, job), Cached(env, t, job));
      && (r.Raised? ==> verdict == Reject(r.error) && ViewOf(u, user) == ViewOf(t, user))
      && (r.Ok? ==> !verdict.Reject? && Merge(r.value) == ReceiptOf(env, verdict))
      && (r.Ok? && user == job.user ==> ViewOf(u, user) == Apply(env, v, job, verdict))
      && (user != job.user ==> ViewOf(u, user) == ViewOf(t, user))
  {
    UnchangedSeen(t, job);
    hide ViewOf, Ingest, Ready, Inv, Cached, DecideAttach;
    if Downloads(t, job) {
      IngestSeen(env, t, job, fault, user);
    }
  }

  /**
   * One object step, exactly: its user's view moves by the verdict, the recorded
   * receipt is the verdict's, and no other user's view moves at all.
   */
  lemma SyncSeen(env: Env, t: Tables, job: Job, fault: Fault, user: User)
    requires env.Valid() && Inv(env, t)
    ensures var (u, outcome) := SyncObject(env, t, job, fault);
      var v := ViewOf(t, job.user);
      var verdict := Decide(env, v, job, fault, Ready(env, t, job), Cached(env, t, job));
      && Merge(outcome) == ReceiptOf(env, verdict)
      && ViewOf(u, user) == if user == job.user then Apply(env, v, job, verdict) else ViewOf(t, user)
  {
    var (after, result) := Process(env, t, job, fault);
    ProcessSeen(env, t, job, fault, user);
    if result.Raised? {
      ViewAfterUpsertFile(after, job.File(), job.Row(None, Some(result.error)), user);
    }
  }

  // --- crashes and removals ---------------------------------------------------------------

  /** What a crash in an object step leaves in its user's view. */
  ghost function CrashEffect(env: Env, v: View, job: Job, point: CrashPoint, ready: bool): View {
    if UnchangedIn(v, job) || job.fetched.None? || !ready then v
    else
      var sha := env.hash(job.fetched.value);
      if sha in v.holds then v
      else if point.AfterVectors? then v.(vectors := v.vectors + CanonEntries(env, job.user, sha))
      else if point.AfterHolding? || point.AfterEmbeddingMark? then
        v.(vectors := v.vectors + CanonEntries(env, job.user, sha), holds := v.holds + {sha})
      else v
  }

  lemma CrashInTextSeen(env: Env, t: Tables, sha: Sha, extracted: Option<string>, point: CrashPoint, user: User)
    ensures ViewOf(CrashInText(env, t, sha, extracted, point), user) == ViewOf(t, user)
  {
  }

  lemma CrashInAttachSeen(env: Env, t: Tables, job: Job, sha: Sha, point: CrashPoint, user: User)
    requires env.Valid() && CacheSound(env, t)
    requires sha == env.hash(job.fetched.GetOr([])) && job.fetched.Some?
    requires !point.AfterBlob? && !point.InWrite? && !point.AfterWrite? && !point.AfterMark?
    requires !UnchangedIn(ViewOf(t, job.user), job)
    ensures ViewOf(CrashInAttach(env, t, job, sha, env.Canon(sha), point), user) ==
      if user == job.user then CrashEffect(env, ViewOf(t, user), job, point, true) else ViewOf(t, user)
  {
    hide ViewOf, IndexBlob;
    HeldInView(t, job.user, sha);
    if !point.AfterChunks? && !point.AfterEmbedding? && Holding(job.user, sha) !in t.holds {
      var fault := if point.AfterCache? then UpsertFails else NoFault;
      ViewAfterIndexBlob(env, t, job.user, sha, fault, user);
      IndexResult(env, t, job.user, sha, env.Canon(sha), fault);
      var indexed := IndexBlob(env, t, job.user, sha, env.Canon(sha), fault).0;
      ViewAfterHolding(indexed, job.user, sha, user);
      ViewAfterMarkEmbedded(AddHolding(indexed, job.user, sha), sha, env.embedding, user);
      EmptyEntries(env, t, job.user, sha);
    }
  }

  lemma ViewAfterMarkEmbedded(t: Tables, sha: Sha, version: string, user: User)
    ensures ViewOf(MarkEmbedded(t, sha, version), user) == ViewOf(t, user)
  {
  }

  lemma EmptyEntries(env: Env, t: Tables, user: User, sha: Sha)
    ensures env.Canon(sha) == [] ==>
      ViewOf(t, user).vectors + CanonEntries(env, user, sha) == ViewOf(t, user).vectors
  {
  }

  lemma CrashSeen(env: Env, t: Tables, job: Job, point: CrashPoint, user: User)
    requires env.Valid() && Inv(env, t)
    ensures ViewOf(CrashIn(env, t, job, point), user) ==
      if user == job.user then CrashEffect(env, ViewOf(t, user), job, point, Ready(env, t, job))
      else ViewOf(t, user)
  {
    UnchangedSeen(t, job);
    if Downloads(t, job) {
      var data := job.fetched.value;
      var sha := env.hash(data);
      var start := UpsertBlob(t, sha, |data|);
      assert ViewOf(start, user) == ViewOf(t, user);
      CrashInTextSeen(env, start, sha, env.Extract(job.item.key, data), point, user);
      ViewAfterText(env, t, job, user);
      ViewAfterText(env, t, job, job.user);
      CrashStages(env, t, job, point, user);
    }
  }

  lemma CrashStages(env: Env, t: Tables, job: Job, point: CrashPoint, user: User)
    requires env.Valid() && Downloads(t, job) && !UnchangedIn(ViewOf(t, job.user), job)
    requires var data := job.fetched.value;
      var sha := env.hash(data);
      var start := UpsertBlob(t, sha, |data|);
      var (texted, text) := TextChunks(env, start, sha, job.item.key, data);
      && ViewOf(start, user) == ViewOf(t, user) == ViewOf(texted, user)
      && ViewOf(texted, job.user) == ViewOf(t, job.user)
      && ViewOf(CrashInText(env, start, sha, env.Extract(job.item.key, data), point), user) == ViewOf(t, user)
      && CacheSound(env, texted)
      && (text.Ok? <==> Ready(env, t, job)) && (text.Ok? ==> text.value == env.Canon(sha))
    ensures ViewOf(CrashIn(env, t, job, point), user) ==
      if user == job.user then CrashEffect(env, ViewOf(t, user), job, point, Ready(env, t, job))
      else ViewOf(t, user)
  {
    hide ViewOf, TextChunks, CrashInText, CrashInAttach, Ready, UpsertBlob, CacheSound;
    var data := job.fetched.value;
    var sha := env.hash(data);
    var (texted, text) := TextChunks(env, UpsertBlob(t, sha, |data|), sha, job.item.key, data);
    if !point.AfterBlob? && !point.InWrite? && !point.AfterWrite? && !point.AfterMark? && text.Ok? {
      CrashInAttachSeen(env, texted, job, sha, point, user);
    }
  }

  /** A removal reads and writes nothing outside its user's view. */
  lemma ReapSeen(s: Tables, t: Tables, actor: User, id: FileKey, sha: Option<Sha>, user: User)
    ensures actor != user ==> ViewOf(ReapRow(t, actor, id, sha), user) == ViewOf(t, user)
    ensures actor == user && ViewOf(s, user) == ViewOf(t, user) ==>
      ViewOf(ReapRow(s, actor, id, sha), user) == ViewOf(ReapRow(t, actor, id, sha), user)
  {
    SoftDeleteSeen(s, t, actor, id, user);
    if sha.Some? {
      UnreferenceSeen(SoftDelete(s, actor, id), SoftDelete(t, actor, id), actor, sha.value, user);
    }
  }

  lemma SoftDeleteSeen(s: Tables, t: Tables, actor: User, id: FileKey, user: User)
    ensures actor != user ==> ViewOf(SoftDelete(t, actor, id), user) == ViewOf(t, user)
    ensures actor == user && ViewOf(s, user) == ViewOf(t, user) ==>
      ViewOf(SoftDelete(s, actor, id), user) == ViewOf(SoftDelete(t, actor, id), user)
  {
    assert id.user == user ==> (id in ViewOf(t, user).files <==> id in t.files);
    assert id.user == user ==> (id in ViewOf(s, user).files <==> id in s.files);
    assert id.user == user && id in t.files ==> ViewOf(t, user).files[id] == t.files[id];
    assert id.user == user && id in s.files ==> ViewOf(s, user).files[id] == s.files[id];
    if actor == user && id.user == user {
      FilesAfterSoftDelete(s, user, id);
      FilesAfterSoftDelete(t, user, id);
    }
  }

  lemma FilesAfterSoftDelete(t: Tables, user: User, id: FileKey)
    requires id.user == user
    ensures var v := ViewOf(t, user);
      ViewOf(SoftDelete(t, user, id), user) ==
        if id in v.files && !v.files[id].deleted then
          v.(files := v.files[id := v.files[id].(state := Deleted, deleted := true)])
        else v
  {
  }

  lemma ReferencesSeen(t: Tables, user: User, sha: Sha)
    ensures References(t, user, sha) <==>
      exists id :: id in ViewOf(t, user).files && ViewOf(t, user).files[id].sha == Some(sha)
                   && !ViewOf(t, user).files[id].deleted
  {
    if References(t, user, sha) {
      var id :| id in t.files && id.user == user && t.files[id].sha == Some(sha) && !t.files[id].deleted;
      assert id in ViewOf(t, user).files;
    }
  }

  lemma UnreferenceSeen(s: Tables, t: Tables, actor: User, sha: Sha, user: User)
    ensures actor != user ==> ViewOf(Unreference(t, actor, sha), user) == ViewOf(t, user)
    ensures actor == user && ViewOf(s, user) == ViewOf(t, user) ==>
      ViewOf(Unreference(s, actor, sha), user) == ViewOf(Unreference(t, actor, sha), user)
  {
    ReferencesSeen(s, user, sha);
    ReferencesSeen(t, user, sha);
    ViewAfterDrop(s, actor, sha, user);
    ViewAfterDrop(t, actor, sha, user);
  }

  /** Nor does a crash in the middle of one. */
  lemma CrashReapSeen(
    s: Tables, t: Tables, actor: User, id: FileKey, sha: Option<Sha>, halt: RemovalPoint, user: User)
    ensures actor != user ==> ViewOf(CrashInReap(t, actor, id, sha, halt), user) == ViewOf(t, user)
    ensures actor == user && ViewOf(s, user) == ViewOf(t, user) ==>
      ViewOf(CrashInReap(s, actor, id, sha, halt), user) == ViewOf(CrashInReap(t, actor, id, sha, halt), user)
  {
    SoftDeleteSeen(s, t, actor, id, user);
    if sha.Some? {
      var before, after := SoftDelete(s, actor, id), SoftDelete(t, actor, id);
      ReferencesSeen(before, user, sha.value);
      ReferencesSeen(after, user, sha.value);
      ViewAfterDropEntries(before, actor, sha.value, user);
      ViewAfterDropEntries(after, actor, sha.value, user);
      hide ViewOf, SoftDelete, DropEntries, References;
    }
  }

  lemma ViewAfterDropEntries(t: Tables, actor: User, sha: Sha, user: User)
    ensures var v := ViewOf(t, user);
      ViewOf(DropEntries(t, actor, sha), user) ==
        if actor == user then
          v.(vectors := v.vectors - (set ref | ref in v.vectors && v.vectors[ref].sha == sha))
        else v
  {
    var u := DropEntries(t, actor, sha);
    assert ViewOf(u, user).files == ViewOf(t, user).files && ViewOf(u, user).holds == ViewOf(t, user).holds;
    assert EntriesOf(t, user, sha)
      == set ref | ref in ViewOf(t, user).vectors && ViewOf(t, user).vectors[ref].sha == sha;
  }

  lemma ViewAfterDrop(t: Tables, actor: User, sha: Sha, user: User)
    ensures var v := ViewOf(t, user);
      ViewOf(RemoveHolding(DropEntries(t, actor, sha), actor, sha), user) ==
        if actor == user then
          v.(holds := v.holds - {sha},
             vectors := v.vectors - (set ref | ref in v.vectors && v.vectors[ref].sha == sha))
        else v
  {
    var u := RemoveHolding(DropEntries(t, actor, sha), actor, sha);
    forall s ensures s in ViewOf(u, user).holds <==>
      s in ViewOf(t, user).holds && !(actor == user && s == sha)
    {
      HeldInView(u, user, s);
      HeldInView(t, user, s);
    }
    assert ViewOf(u, user).files == ViewOf(t, user).files;
    assert EntriesOf(t, user, sha)
      == set ref | ref in ViewOf(t, user).vectors && ViewOf(t, user).vectors[ref].sha == sha;
  }
}
