/**
 * Possession that no name accounts for. A removal gives up the bytes of the last name, but
 * other ways to lose a name give up nothing: exactly which operations leave bytes possessed
 * that no live row names, and what an edit followed by a removal leaves behind.
 */
module Unnamed {
  import opened Wrappers
  import opened Content
  import opened Store
  import opened Ladder
  import opened Invariant
  import opened Reachable
  import opened Isolation
  import opened Removal
  import opened Vectors
  import Crashes
  import NonInterference
  import Runs

  /** Every possessed blob of the user has a live name. */
  ghost predicate AllNamed(t: Tables, user: User) {
    forall sha :: Holding(user, sha) in t.holds ==> References(t, user, sha)
  }

  /** The row is the only live name the user has for the bytes. */
  predicate OnlyName(t: Tables, user: User, id: FileKey, sha: Sha) {
    id.user == user && Live(t, id) && t.files[id].sha == Some(sha) && !NamedElsewhere(t, user, id, sha)
  }

  /**
   * The operation takes the last name of the bytes and leaves them possessed, or possesses
   * them and dies before it names them. A sync does if the object of the only name no longer
   * matches its row and cannot be fetched or has other bytes.
   */
  ghost predicate Strays(env: Env, t: Tables, op: Op, user: User, sha: Sha) {
    op.Actor() == user &&
      match op
      case Sync(job, fault) =>
        && OnlyName(t, user, job.File(), sha) && !Unchanged(t, job)
        && (job.fetched.None? || env.hash(job.fetched.value) != sha)
      case Crash(job, point) =>
        && (point.AfterHolding? || point.AfterEmbeddingMark?) && Downloads(t, job) && Ready(env, t, job)
        && sha == env.hash(job.fetched.value) && Holding(user, sha) !in t.holds
      case Reap(_, id, gone) => OnlyName(t, user, id, sha) && gone != Some(sha)
      case Remove(_, _) => false
      case CrashReap(_, id, _, _) => OnlyName(t, user, id, sha)
  }

  predicate StoredUnder(outcome: Outcome, sha: Sha) {
    outcome.Stored? && outcome.sha == sha
  }

  // --- names after one operation ------------------------------------------------------------

  lemma NamesAfterUpsert(t: Tables, id: FileKey, row: FileRow, user: User, sha: Sha)
    requires id.user == user && !row.deleted
    ensures References(UpsertFile(t, id, row), user, sha) <==> row.sha == Some(sha) || NamedElsewhere(t, user, id, sha)
  {
    var u := UpsertFile(t, id, row);
    assert u.files[id] == row;
    assert forall other :: other != id ==> (other in u.files <==> other in t.files);
    assert forall other :: other != id && other in t.files ==> u.files[other] == t.files[other];
    if NamedElsewhere(t, user, id, sha) {
      var other :| other in t.files && other != id && other.user == user
        && !t.files[other].deleted && t.files[other].sha == Some(sha);
      assert other in u.files;
    }
  }

  lemma NamedOnceOrElsewhere(t: Tables, user: User, id: FileKey, sha: Sha)
    requires id.user == user
    ensures References(t, user, sha) <==> NamedElsewhere(t, user, id, sha) || OnlyName(t, user, id, sha)
  {
  }

  lemma SyncHolds(env: Env, t: Tables, job: Job, fault: Fault, sha: Sha)
    requires env.Valid() && Inv(env, t)
    ensures var (u, outcome) := SyncObject(env, t, job, fault);
      Holding(job.user, sha) in u.holds <==> Holding(job.user, sha) in t.holds || StoredUnder(outcome, sha)
  {
    var (u, outcome) := SyncObject(env, t, job, fault);
    SyncSeen(env, t, job, fault, job.user);
    HeldInView(t, job.user, sha);
    HeldInView(u, job.user, sha);
    ApplyHolds(env, ViewOf(t, job.user), job, fault, Ready(env, t, job), Isolation.Cached(env, t, job), sha);
    StoredMeans(outcome, sha);
    hide SyncObject, Inv, ViewOf, Ready, Isolation.Cached, Decide, Apply, ReceiptOf, Merge, StoredUnder;
  }

  lemma ApplyHolds(env: Env, v: View, job: Job, fault: Fault, ready: bool, cached: bool, sha: Sha)
    ensures var verdict := Decide(env, v, job, fault, ready, cached);
      sha in Apply(env, v, job, verdict).holds
      <==> sha in v.holds || (ReceiptOf(env, verdict).NewFile? && ReceiptOf(env, verdict).sha == sha)
  {
  }

  lemma StoredMeans(outcome: Outcome, sha: Sha)
    ensures StoredUnder(outcome, sha) <==> Merge(outcome).NewFile? && Merge(outcome).sha == sha
  {
  }

  lemma SyncNames(env: Env, t: Tables, job: Job, fault: Fault, sha: Sha)
    ensures var (u, outcome) := SyncObject(env, t, job, fault);
      if Unchanged(t, job) then u == t && outcome == Skipped
      else References(u, job.user, sha) <==> StoredUnder(outcome, sha) || NamedElsewhere(t, job.user, job.File(), sha)
  {
    var (u, outcome) := SyncObject(env, t, job, fault);
    Runs.SyncRow(env, t, job, fault);
    SkippedIsUnchanged(env, t, job, fault);
    hide SyncObject, References, NamedElsewhere, Unchanged;
    if outcome.Stored? {
      var row := job.Row(Some(outcome.sha), None);
      NamesAfterUpsert(t, job.File(), row, job.user, sha);
      ReferencesFrame(u, UpsertFile(t, job.File(), row), job.user, sha);
    } else if outcome.Broken? {
      var row := job.Row(None, Some(outcome.fault));
      NamesAfterUpsert(t, job.File(), row, job.user, sha);
      ReferencesFrame(u, UpsertFile(t, job.File(), row), job.user, sha);
    }
  }

  lemma SkippedIsUnchanged(env: Env, t: Tables, job: Job, fault: Fault)
    ensures Unchanged(t, job) ==> SyncObject(env, t, job, fault) == (t, Skipped)
  {
  }

  lemma SyncStrays(env: Env, t: Tables, job: Job, fault: Fault, sha: Sha)
    requires env.Valid() && Inv(env, t) && AllNamed(t, job.user)
    ensures var u := SyncObject(env, t, job, fault).0;
      (Holding(job.user, sha) in u.holds && !References(u, job.user, sha))
      <==> Strays(env, t, Sync(job, fault), job.user, sha)
  {
    SyncHolds(env, t, job, fault, sha);
    SyncNames(env, t, job, fault, sha);
    NamedOnceOrElsewhere(t, job.user, job.File(), sha);
    NameIsHeld(env, t, job.user, job.File(), sha);
    if Holding(job.user, sha) in t.holds {
      HeldIsStoredExactly(env, t, job, fault, sha);
    }
    hide SyncObject, Inv, References, NamedElsewhere, Unchanged, Live;
  }

  /** Possessed bytes that are downloaded again are stored again, whatever fails on the way. */
  lemma HeldIsStoredExactly(env: Env, t: Tables, job: Job, fault: Fault, sha: Sha)
    requires env.Valid() && Inv(env, t) && Holding(job.user, sha) in t.holds
    ensures !Unchanged(t, job) ==>
      (StoredUnder(SyncObject(env, t, job, fault).1, sha)
       <==> job.fetched.Some? && env.hash(job.fetched.value) == sha)
  {
    var outcome := SyncObject(env, t, job, fault).1;
    SyncSeen(env, t, job, fault, job.user);
    StoredMeans(outcome, sha);
    HeldInView(t, job.user, sha);
    UnchangedSeen(t, job);
    HeldIsReady(env, t, job, sha);
    hide SyncObject, Inv, ViewOf, Ready, Isolation.Cached, Decide, ReceiptOf, Merge, StoredUnder, Unchanged, Apply;
    if !Unchanged(t, job) {
      HeldIsAttributed(
        env, ViewOf(t, job.user), job, fault, Ready(env, t, job), Isolation.Cached(env, t, job), sha);
    }
  }

  lemma HeldIsReady(env: Env, t: Tables, job: Job, sha: Sha)
    requires env.Valid() && Inv(env, t) && Holding(job.user, sha) in t.holds
    ensures job.fetched.Some? && env.hash(job.fetched.value) == sha ==> Ready(env, t, job)
  {
    HeldHasText(env, t, job.user, sha);
    if job.fetched.Some? {
      env.CanonIsOfTheBytes(job.fetched.value);
    }
    hide Inv, Marked, ChunkRows, Env.TextOf;
  }

  lemma HeldIsAttributed(env: Env, v: View, job: Job, fault: Fault, ready: bool, cached: bool, sha: Sha)
    requires sha in v.holds && !UnchangedIn(v, job)
    requires job.fetched.Some? && env.hash(job.fetched.value) == sha ==> ready
    ensures var receipt := ReceiptOf(env, Decide(env, v, job, fault, ready, cached));
      (receipt.NewFile? && receipt.sha == sha) <==> job.fetched.Some? && env.hash(job.fetched.value) == sha
  {
  }

  lemma NameIsHeld(env: Env, t: Tables, user: User, id: FileKey, sha: Sha)
    requires Inv(env, t)
    ensures OnlyName(t, user, id, sha) ==> Holding(user, sha) in t.holds
    ensures References(t, user, sha) ==> Holding(user, sha) in t.holds
  {
    if References(t, user, sha) {
      var other :| other in t.files && other.user == user && t.files[other].sha == Some(sha) && !t.files[other].deleted;
      LiveIsHeld(env, t, other);
    }
    if OnlyName(t, user, id, sha) {
      LiveIsHeld(env, t, id);
    }
  }

  lemma CrashStrays(env: Env, t: Tables, job: Job, point: CrashPoint, sha: Sha)
    requires env.Valid() && Inv(env, t) && AllNamed(t, job.user)
    ensures var u := CrashIn(env, t, job, point);
      (Holding(job.user, sha) in u.holds && !References(u, job.user, sha))
      <==> Strays(env, t, Crash(job, point), job.user, sha)
  {
    var u := CrashIn(env, t, job, point);
    CrashSeen(env, t, job, point, job.user);
    HeldInView(t, job.user, sha);
    HeldInView(u, job.user, sha);
    ReferencesSeen(t, job.user, sha);
    ReferencesSeen(u, job.user, sha);
    NameIsHeld(env, t, job.user, job.File(), sha);
    NonInterference.DownloadsSeen(t, job);
    CrashKeepsFiles(env, ViewOf(t, job.user), job, point, Ready(env, t, job), sha);
    hide CrashIn, Inv, ViewOf, Ready, References, CrashEffect, Downloads, Live, NamedElsewhere;
  }

  lemma CrashKeepsFiles(env: Env, v: View, job: Job, point: CrashPoint, ready: bool, sha: Sha)
    ensures var w := CrashEffect(env, v, job, point, ready);
      && w.files == v.files
      && (sha in w.holds <==>
            || sha in v.holds
            || (!UnchangedIn(v, job) && job.fetched.Some? && ready && (point.AfterHolding? || point.AfterEmbeddingMark?)
                && sha == env.hash(job.fetched.value)))
  {
  }

  /** A name that is deleted: the others stay. */
  lemma NamesAfterDelete(t: Tables, user: User, id: FileKey, sha: Sha)
    ensures var u := SoftDelete(t, user, id);
      References(u, user, sha) <==> References(t, user, sha) && !OnlyName(t, user, id, sha)
  {
    if id.user == user {
      ElsewhereMeans(t, user, id, sha);
      NamedOnceOrElsewhere(t, user, id, sha);
    }
    hide References, NamedElsewhere;
  }

  lemma ReapStrays(env: Env, t: Tables, user: User, id: FileKey, gone: Option<Sha>, sha: Sha)
    requires Inv(env, t) && AllNamed(t, user)
    ensures var u := ReapRow(t, user, id, gone);
      (Holding(user, sha) in u.holds && !References(u, user, sha)) <==> OnlyName(t, user, id, sha) && gone != Some(sha)
  {
    var deleted, u := SoftDelete(t, user, id), ReapRow(t, user, id, gone);
    NamesAfterDelete(t, user, id, sha);
    NameIsHeld(env, t, user, id, sha);
    SoftDeleteTouchesFiles(t, user, id);
    assert u.files == deleted.files;
    ReferencesFrame(deleted, u, user, sha);
    hide References, SoftDelete, NamedElsewhere, Inv, Live;
  }

  lemma CrashReapStrays(
    env: Env, t: Tables, user: User, id: FileKey, gone: Option<Sha>, halt: RemovalPoint, sha: Sha)
    requires Inv(env, t) && AllNamed(t, user)
    ensures var u := CrashInReap(t, user, id, gone, halt);
      (Holding(user, sha) in u.holds && !References(u, user, sha)) <==> OnlyName(t, user, id, sha)
  {
    var deleted, u := SoftDelete(t, user, id), CrashInReap(t, user, id, gone, halt);
    NamesAfterDelete(t, user, id, sha);
    NameIsHeld(env, t, user, id, sha);
    CrashReapHolds(t, user, id, gone, halt);
    assert u.files == deleted.files;
    ReferencesFrame(deleted, u, user, sha);
    hide References, SoftDelete, NamedElsewhere, Inv, Live, CrashInReap;
  }

  lemma RemoveStrays(env: Env, t: Tables, user: User, id: FileKey, sha: Sha)
    requires Inv(env, t) && AllNamed(t, user)
    ensures var u := RemoveFile(t, user, id);
      !(Holding(user, sha) in u.holds && !References(u, user, sha))
  {
    if id.user == user && Live(t, id) {
      ReapStrays(env, t, user, id, t.files[id].sha, sha);
    }
    hide References, ReapRow, Inv, NamedElsewhere;
  }

  /**
   * One operation, exactly: where every possessed blob of the user has a name, it leaves
   * the bytes possessed without one if and only if it strays from them.
   */
  lemma StraysExactly(env: Env, t: Tables, op: Op, user: User, sha: Sha)
    requires env.Valid() && Inv(env, t) && AllNamed(t, user)
    ensures var u := Step(env, t, op);
      (Holding(user, sha) in u.holds && !References(u, user, sha)) <==> Strays(env, t, op, user, sha)
  {
    var u := Step(env, t, op);
    hide SyncObject, CrashIn, ReapRow, RemoveFile, CrashInReap, Inv, ViewOf, References, NamedElsewhere;
    if op.Actor() != user {
      NonInterference.StepUnseen(env, t, op, user);
      HeldInView(t, user, sha);
      HeldInView(u, user, sha);
      ReferencesSeen(t, user, sha);
      ReferencesSeen(u, user, sha);
      SameViewSameNames(ViewOf(t, user), ViewOf(u, user), sha);
    } else {
      match op
      case Sync(job, fault) => SyncStrays(env, t, job, fault, sha);
      case Crash(job, point) => CrashStrays(env, t, job, point, sha);
      case Reap(_, id, gone) => ReapStrays(env, t, user, id, gone, sha);
      case Remove(_, id) => RemoveStrays(env, t, user, id, sha);
      case CrashReap(_, id, gone, halt) => CrashReapStrays(env, t, user, id, gone, halt, sha);
    }
  }

  predicate NamedIn(v: View, sha: Sha) {
    exists id :: id in v.files && v.files[id].sha == Some(sha) && !v.files[id].deleted
  }

  lemma SameViewSameNames(v: View, w: View, sha: Sha)
    requires v == w
    ensures NamedIn(v, sha) <==> NamedIn(w, sha)
  {
  }

  /**
   * Every history, exactly: possession is accounted for by live names at every moment if
   * and only if no operation strays.
   */
  lemma NamesAccountExactly(env: Env, ops: seq<Op>, user: User)
    requires env.Valid()
    ensures (forall n :: 0 <= n <= |ops| ==> AllNamed(At(env, Empty, ops, n), user))
      <==> (forall n, sha :: 0 <= n < |ops| ==> !Strays(env, At(env, Empty, ops, n), ops[n], user, sha))
  {
    hide AllNamed, Strays, At, Step;
    if forall n :: 0 <= n <= |ops| ==> AllNamed(At(env, Empty, ops, n), user) {
      forall n, sha | 0 <= n < |ops| ensures !Strays(env, At(env, Empty, ops, n), ops[n], user, sha) {
        NamedNext(env, ops, user, n);
      }
    }
    if forall n, sha :: 0 <= n < |ops| ==> !Strays(env, At(env, Empty, ops, n), ops[n], user, sha) {
      forall n | 0 <= n <= |ops| ensures AllNamed(At(env, Empty, ops, n), user) {
        NamedSoFar(env, ops, user, n);
      }
    }
  }

  lemma NamedNext(env: Env, ops: seq<Op>, user: User, n: nat)
    requires env.Valid() && n < |ops|
    ensures AllNamed(At(env, Empty, ops, n), user) ==>
      (AllNamed(At(env, Empty, ops, n + 1), user)
       <==> forall sha :: !Strays(env, At(env, Empty, ops, n), ops[n], user, sha))
  {
    hide Strays, Step, References, Inv, Play;
    var t := At(env, Empty, ops, n);
    EmptyIsSound(env);
    PlayKeeps(env, Empty, ops[..n]);
    AtNext(env, Empty, ops, n);
    if AllNamed(t, user) {
      forall sha
        ensures (Holding(user, sha) in Step(env, t, ops[n]).holds && !References(Step(env, t, ops[n]), user, sha))
          <==> Strays(env, t, ops[n], user, sha)
      {
        StraysExactly(env, t, ops[n], user, sha);
      }
    }
  }

  lemma {:induction false} NamedSoFar(env: Env, ops: seq<Op>, user: User, n: nat)
    requires env.Valid() && n <= |ops|
    requires forall n, sha :: 0 <= n < |ops| ==> !Strays(env, At(env, Empty, ops, n), ops[n], user, sha)
    ensures AllNamed(At(env, Empty, ops, n), user)
  {
    hide AllNamed, Strays, At;
    if n == 0 {
      NothingPlayed(env, Empty, ops);
      NothingHeld(user);
    } else {
      NamedSoFar(env, ops, user, n - 1);
      NamedNext(env, ops, user, n - 1);
    }
  }

  lemma NothingHeld(user: User)
    ensures AllNamed(Empty, user)
  {
  }

  // --- an edit, and then a removal ----------------------------------------------------------

  /**
   * A document is synced, edited at the source and synced again, and then removed. Nothing
   * of it is named any more, and yet its first version is still possessed, readable and
   * found by every search.
   */
  lemma EditKeepsTheOldText(env: Env, first: Job, second: Job, i: nat)
    requires env.Valid() && first.File() == second.File()
    requires first.fetched.Some? && second.fetched.Some? && first.fetched != second.fetched
    requires env.Extract(first.item.key, first.fetched.value).Some?
    requires env.Extract(second.item.key, second.fetched.value).Some?
    requires first.item.stamp != second.item.stamp
    requires i < |env.Chunks(env.Extract(first.item.key, first.fetched.value).value)|
    ensures var history := [Sync(first, NoFault), Sync(second, NoFault), Remove(first.user, first.File())];
      var t := Play(env, Empty, history);
      var sha := env.hash(first.fetched.value);
      && (forall id :: !Live(t, id))
      && Resolve(t, first.user, ChunkRef(sha, i))
           == Some(env.Chunks(env.Extract(first.item.key, first.fetched.value).value)[i])
      && HasVectors(env, t, first.user, sha)
  {
    var history := [Sync(first, NoFault), Sync(second, NoFault), Remove(first.user, first.File())];
    var t := Play(env, Empty, history);
    var sha := env.hash(first.fetched.value);
    PlayThree(env, Empty, history);
    AfterEdit(env, first, second);
    AfterEditRemoved(env, Step(env, Step(env, Empty, history[0]), history[1]), first, env.hash(second.fetched.value));
    EmptyIsSound(env);
    PlayKeeps(env, Empty, history);
    env.CanonIsOfTheBytes(first.fetched.value);
    hide Play, Step, Inv, Lost, HasVectors, Bare, Env.Extract;
    HeldHasText(env, t, first.user, sha);
    NothingDiesHalfway(env, history, first.user, sha);
    VectorsExactly(env, Empty, history, first.user, sha);
  }

  lemma PlayThree(env: Env, t: Tables, ops: seq<Op>)
    requires |ops| == 3
    ensures Play(env, t, ops) == Step(env, Step(env, Step(env, t, ops[0]), ops[1]), ops[2])
  {
    hide Step;
    var rest := ops[1..];
    assert rest[1..] == [ops[2]] && [ops[2]][1..] == [];
    assert Play(env, Step(env, Step(env, t, ops[0]), ops[1]), [ops[2]])
      == Play(env, Step(env, Step(env, Step(env, t, ops[0]), ops[1]), ops[2]), []);
  }

  lemma NothingDiesHalfway(env: Env, ops: seq<Op>, user: User, sha: Sha)
    requires forall op :: op in ops ==> !op.CrashReap?
    ensures !Lost(env, Empty, ops, user, sha)
  {
    hide Play, References;
    assert forall k :: 0 <= k < |ops| ==> ops[k] in ops;
  }

  /** The only row names the new bytes, and the old ones are possessed. */
  lemma AfterEdit(env: Env, first: Job, second: Job)
    requires env.Valid() && first.File() == second.File()
    requires first.fetched.Some? && second.fetched.Some? && first.item.stamp != second.item.stamp
    requires env.Extract(first.item.key, first.fetched.value).Some?
    requires env.Extract(second.item.key, second.fetched.value).Some?
    ensures var t := Step(env, Step(env, Empty, Sync(first, NoFault)), Sync(second, NoFault));
      && t.files == map[first.File() := second.Row(Some(env.hash(second.fetched.value)), None)]
      && Holding(first.user, env.hash(first.fetched.value)) in t.holds
  {
    hide SyncObject, Inv, Env.Extract, Env.Valid;
    var before := env.hash(first.fetched.value);
    var t := SyncObject(env, Empty, first, NoFault).0;
    EmptyIsSound(env);
    SyncKeeps(env, Empty, first, NoFault);
    SyncStores(env, Empty, first);
    SyncHolds(env, Empty, first, NoFault, before);
    assert t.files == map[first.File() := first.Row(Some(before), None)];
    SyncStores(env, t, second);
    SyncHolds(env, t, second, NoFault, before);
  }

  /** A readable object that is new or was changed is stored, if nothing fails. */
  lemma SyncStores(env: Env, t: Tables, job: Job)
    requires env.Valid() && Inv(env, t) && job.fetched.Some?
    requires env.Extract(job.item.key, job.fetched.value).Some?
    requires job.File() in t.files ==> t.files[job.File()].stamp != job.item.stamp
    ensures var sha := env.hash(job.fetched.value);
      var (u, outcome) := SyncObject(env, t, job, NoFault);
      StoredUnder(outcome, sha) && u.files == t.files[job.File() := job.Row(Some(sha), None)]
  {
    var sha := env.hash(job.fetched.value);
    var outcome := SyncObject(env, t, job, NoFault).1;
    Crashes.ReadyByName(env, t, job);
    SyncSeen(env, t, job, NoFault, job.user);
    Runs.SyncRow(env, t, job, NoFault);
    NonInterference.DownloadsSeen(t, job);
    DecideStores(env, ViewOf(t, job.user), job, Isolation.Cached(env, t, job));
    StoredMeans(outcome, sha);
    hide SyncObject, Inv, TextReady, ViewOf, Isolation.Cached, Env.Extract, Decide, Apply, ReceiptOf, Merge;
  }

  lemma DecideStores(env: Env, v: View, job: Job, cached: bool)
    requires job.fetched.Some? && !UnchangedIn(v, job)
    ensures var receipt := ReceiptOf(env, Decide(env, v, job, NoFault, true, cached));
      receipt.NewFile? && receipt.sha == env.hash(job.fetched.value)
  {
  }

  lemma AfterEditRemoved(env: Env, t: Tables, first: Job, now: Sha)
    requires first.File() in t.files && t.files == map[first.File() := t.files[first.File()]]
    requires Live(t, first.File()) && t.files[first.File()].sha == Some(now)
    requires first.fetched.Some? && now != env.hash(first.fetched.value)
    requires Holding(first.user, env.hash(first.fetched.value)) in t.holds
    ensures var u := Step(env, t, Remove(first.user, first.File()));
      (forall id :: !Live(u, id)) && Holding(first.user, env.hash(first.fetched.value)) in u.holds
  {
    var deleted := SoftDelete(t, first.user, first.File());
    assert deleted.files == map[first.File() := deleted.files[first.File()]];
    assert deleted.holds == t.holds;
    hide EntriesOf, References, SoftDelete;
  }
}
