/**
 * Which possessed bytes a search can find: exactly those whose vectors were not dropped by
 * a removal that died before it took the possession as well.
 */
module Vectors {
  import opened Wrappers
  import opened Content
  import opened Store
  import opened Ladder
  import opened Invariant
  import opened Reachable
  import opened Isolation
  import NonInterference

  // --- one step ---------------------------------------------------------------------------

  /** No entry of the collection is of that blob. */
  ghost predicate Bare(t: Tables, user: User, sha: Sha) {
    forall ref :: ref in CollectionOf(t, user) ==> ref.sha != sha
  }

  ghost predicate SameVectors(v: View, w: View, sha: Sha) {
    forall ref: ChunkRef :: ref.sha == sha ==> (ref in v.vectors <==> ref in w.vectors)
  }

  lemma SameVectorsMeans(env: Env, t: Tables, u: Tables, user: User, sha: Sha)
    requires SameVectors(ViewOf(t, user), ViewOf(u, user), sha)
    ensures HasVectors(env, u, user, sha) <==> HasVectors(env, t, user, sha)
    ensures Bare(u, user, sha) <==> Bare(t, user, sha)
  {
    assert forall ref: ChunkRef :: ref.sha == sha ==> (ref in CollectionOf(t, user) <==> ref in CollectionOf(u, user));
  }

  /** What became of the vectors of one blob, as a view shows it. */
  ghost predicate FreshOrSame(env: Env, v: View, w: View, sha: Sha) {
    && (sha in w.holds && sha !in v.holds ==>
          forall i: nat :: i < |env.Canon(sha)| ==> ChunkRef(sha, i) in w.vectors)
    && (sha in w.holds && sha in v.holds ==> SameVectors(v, w, sha))
  }

  lemma ApplyFreshOrSame(env: Env, v: View, job: Job, verdict: Verdict, sha: Sha)
    requires verdict.Index? ==> verdict.sha !in v.holds
    ensures FreshOrSame(env, v, Apply(env, v, job, verdict), sha)
  {
  }

  lemma CrashFreshOrSame(env: Env, v: View, job: Job, point: CrashPoint, ready: bool, sha: Sha)
    ensures FreshOrSame(env, v, CrashEffect(env, v, job, point, ready), sha)
  {
  }

  lemma DecideIndexes(env: Env, v: View, job: Job, fault: Fault, ready: bool, cached: bool)
    ensures var verdict := Decide(env, v, job, fault, ready, cached);
      verdict.Index? ==> verdict.sha !in v.holds
  {
  }

  /** What a reap or a removal takes from a collection is of the bytes it also takes possession of. */
  lemma ReapFreshOrSame(env: Env, t: Tables, user: User, id: FileKey, gone: Option<Sha>, sha: Sha)
    requires EntriesSound(env, t)
    ensures FreshOrSame(env, ViewOf(t, user), ViewOf(ReapRow(t, user, id, gone), user), sha)
  {
    var deleted := SoftDelete(t, user, id);
    ViewAfterSoftDelete(t, user, id);
    OwnEntries(env, t, user);
    if gone.Some? {
      ViewAfterDrop(deleted, user, gone.value, user);
    }
    hide ViewOf, SoftDelete, References, DropEntries;
  }

  lemma ViewAfterSoftDelete(t: Tables, user: User, id: FileKey)
    ensures var v, w := ViewOf(t, user), ViewOf(SoftDelete(t, user, id), user);
      v.holds == w.holds && v.vectors == w.vectors
  {
  }

  lemma OwnEntries(env: Env, t: Tables, user: User)
    requires EntriesSound(env, t)
    ensures forall ref :: ref in ViewOf(t, user).vectors ==> ViewOf(t, user).vectors[ref].sha == ref.sha
  {
    forall ref | ref in ViewOf(t, user).vectors ensures ViewOf(t, user).vectors[ref].sha == ref.sha {
      assert EntryOk(env, t, user, ref);
    }
  }

  /** A removal of the last name of the bytes dies after the drop; there is something to drop. */
  predicate Loses(t: Tables, op: Op, user: User, sha: Sha) {
    && op.CrashReap? && op.halt.AfterDrop? && op.user == user && op.sha == Some(sha)
    && !References(SoftDelete(t, user, op.id), user, sha) && ChunkRows(t, sha) != []
  }

  lemma CrashReapDrops(
    env: Env, t: Tables, user: User, id: FileKey, gone: Option<Sha>, halt: RemovalPoint, sha: Sha)
    requires Inv(env, t) && Holding(user, sha) in t.holds
    ensures var u := CrashInReap(t, user, id, gone, halt);
      && u.holds == t.holds
      && if Loses(t, CrashReap(user, id, gone, halt), user, sha)
         then Bare(u, user, sha) && !HasVectors(env, u, user, sha)
         else SameVectors(ViewOf(t, user), ViewOf(u, user), sha)
  {
    var deleted := SoftDelete(t, user, id);
    var u := CrashInReap(t, user, id, gone, halt);
    SoftDeleteTouchesFiles(t, user, id);
    SoftDeleteKeeps(env, t, user, id);
    BareOrNot(env, t, u, user, sha);
    SameIfAlike(t, deleted, user, sha);
    if gone.Some? {
      DropIs(env, t, deleted, user, gone.value, sha);
    }
    hide Inv, SoftDelete, References, DropEntries, HasVectors, ViewOf, Bare, ChunkRows, SameVectors;
  }

  /** Of bytes without chunks there is nothing to drop; of others nothing is not everything. */
  lemma BareOrNot(env: Env, t: Tables, u: Tables, user: User, sha: Sha)
    requires Inv(env, t) && Holding(user, sha) in t.holds
    ensures if ChunkRows(t, sha) == []
      then Bare(u, user, sha) ==> SameVectors(ViewOf(t, user), ViewOf(u, user), sha)
      else Bare(u, user, sha) ==> !HasVectors(env, u, user, sha)
  {
    HeldHasText(env, t, user, sha);
    OfInv(env, t);
    NothingBeyond(env, t, user, sha);
    BareLacks(env, u, user, sha);
    BareIsSame(env, t, u, user, sha);
    hide Inv, HasVectors, ViewOf, Bare, ChunkRows, SameVectors;
  }

  lemma SameIfAlike(t: Tables, u: Tables, user: User, sha: Sha)
    ensures t.collections == u.collections ==> SameVectors(ViewOf(t, user), ViewOf(u, user), sha)
  {
  }

  lemma SoftDeleteTouchesFiles(t: Tables, user: User, id: FileKey)
    ensures SoftDelete(t, user, id) == t.(files := SoftDelete(t, user, id).files)
  {
  }

  lemma DropIs(env: Env, t: Tables, deleted: Tables, user: User, gone: Sha, sha: Sha)
    requires Inv(env, deleted) && t.collections == deleted.collections
    ensures var u := DropEntries(deleted, user, gone);
      && u.holds == deleted.holds
      && if gone == sha then Bare(u, user, sha) else SameVectors(ViewOf(t, user), ViewOf(u, user), sha)
  {
    OwnEntries(env, deleted, user);
    ViewAfterDropEntries(deleted, user, gone, user);
    hide Inv;
    var u := DropEntries(deleted, user, gone);
    assert ViewOf(u, user).vectors == CollectionOf(u, user);
    assert ViewOf(t, user).vectors == ViewOf(deleted, user).vectors;
  }

  lemma BareIsSame(env: Env, t: Tables, u: Tables, user: User, sha: Sha)
    ensures Bare(t, user, sha) && Bare(u, user, sha) ==> SameVectors(ViewOf(t, user), ViewOf(u, user), sha)
  {
  }

  lemma BareLacks(env: Env, t: Tables, user: User, sha: Sha)
    ensures Bare(t, user, sha) && env.Canon(sha) != [] ==> !HasVectors(env, t, user, sha)
  {
    assert Bare(t, user, sha) ==> ChunkRef(sha, 0) !in CollectionOf(t, user);
  }

  lemma NothingBeyond(env: Env, t: Tables, user: User, sha: Sha)
    requires EntriesSound(env, t)
    ensures env.Canon(sha) == [] ==> Bare(t, user, sha)
  {
    forall ref | ref in CollectionOf(t, user) ensures ref.ordinal < |env.Canon(ref.sha)| {
      assert EntryOk(env, t, user, ref);
    }
  }

  /**
   * One operation of anybody, failing or crashing anywhere: bytes newly possessed have
   * every vector, and of bytes still possessed the vectors stay as they are, unless the
   * operation is the one crash that drops them all.
   */
  lemma StepVectors(env: Env, t: Tables, op: Op, user: User, sha: Sha)
    requires env.Valid() && Inv(env, t)
    ensures var u := Step(env, t, op);
      Holding(user, sha) in u.holds ==>
        if Holding(user, sha) !in t.holds then HasVectors(env, u, user, sha)
        else if Loses(t, op, user, sha) then Bare(u, user, sha) && !HasVectors(env, u, user, sha)
        else
          && (HasVectors(env, u, user, sha) <==> HasVectors(env, t, user, sha))
          && (Bare(u, user, sha) <==> Bare(t, user, sha))
  {
    hide SyncObject, CrashIn, ReapRow, CrashInReap, ViewOf, Inv, HasVectors, Bare, References;
    var u := Step(env, t, op);
    HeldInView(t, user, sha);
    HeldInView(u, user, sha);
    if op.Actor() != user {
      NonInterference.StepUnseen(env, t, op, user);
    } else if op.CrashReap? {
      CrashReapHolds(t, op.user, op.id, op.sha, op.halt);
      if Holding(user, sha) in t.holds {
        CrashReapDrops(env, t, op.user, op.id, op.sha, op.halt, sha);
      }
    } else {
      OwnStep(env, t, op, sha);
    }
    if Holding(user, sha) in u.holds {
      if Holding(user, sha) !in t.holds {
        FreshMeans(env, t, u, user, sha);
      } else if !Loses(t, op, user, sha) {
        SameVectorsMeans(env, t, u, user, sha);
      }
    }
  }

  lemma CrashReapHolds(t: Tables, user: User, id: FileKey, sha: Option<Sha>, halt: RemovalPoint)
    ensures CrashInReap(t, user, id, sha, halt).holds == t.holds
  {
  }

  lemma FreshMeans(env: Env, t: Tables, u: Tables, user: User, sha: Sha)
    requires FreshOrSame(env, ViewOf(t, user), ViewOf(u, user), sha)
    requires Holding(user, sha) !in t.holds && Holding(user, sha) in u.holds
    ensures HasVectors(env, u, user, sha)
  {
    HeldInView(t, user, sha);
    HeldInView(u, user, sha);
  }

  lemma OwnStep(env: Env, t: Tables, op: Op, sha: Sha)
    requires env.Valid() && Inv(env, t) && !op.CrashReap?
    ensures FreshOrSame(env, ViewOf(t, op.Actor()), ViewOf(Step(env, t, op), op.Actor()), sha)
  {
    var v := ViewOf(t, op.Actor());
    OfInv(env, t);
    hide SyncObject, CrashIn, ReapRow, ViewOf, Inv, FreshOrSame, Decide, Isolation.Apply, CrashEffect, EntriesSound;
    match op
    case Sync(job, fault) =>
      SyncSeen(env, t, job, fault, job.user);
      DecideIndexes(env, v, job, fault, Ready(env, t, job), Cached(env, t, job));
      ApplyFreshOrSame(env, v, job, Decide(env, v, job, fault, Ready(env, t, job), Cached(env, t, job)), sha);
    case Crash(job, point) =>
      CrashSeen(env, t, job, point, job.user);
      CrashFreshOrSame(env, v, job, point, Ready(env, t, job), sha);
    case Reap(user, id, gone) => ReapFreshOrSame(env, t, user, id, gone, sha);
    case Remove(user, id) =>
      if id.user == user && Live(t, id) {
        ReapFreshOrSame(env, t, user, id, t.files[id].sha, sha);
      } else {
        Itself(env, v, sha);
      }
  }

  lemma OfInv(env: Env, t: Tables)
    requires Inv(env, t)
    ensures EntriesSound(env, t)
  {
  }

  lemma Itself(env: Env, v: View, sha: Sha)
    ensures FreshOrSame(env, v, v, sha)
  {
  }

  // --- every history ----------------------------------------------------------------------

  /** Dropped by a dying removal at k and possessed ever since. */
  ghost predicate LostAt(env: Env, t: Tables, ops: seq<Op>, user: User, sha: Sha, k: nat)
    requires k < |ops|
  {
    && Loses(At(env, t, ops, k), ops[k], user, sha)
    && forall j :: k <= j <= |ops| ==> Holding(user, sha) in At(env, t, ops, j).holds
  }

  ghost predicate Lost(env: Env, t: Tables, ops: seq<Op>, user: User, sha: Sha) {
    exists k :: 0 <= k < |ops| && LostAt(env, t, ops, user, sha, k)
  }

  lemma NothingLost(env: Env, t: Tables, user: User, sha: Sha)
    ensures !Lost(env, t, [], user, sha)
  {
  }

  lemma LostNext(env: Env, t: Tables, ops: seq<Op>, user: User, sha: Sha)
    requires ops != [] && Holding(user, sha) in Play(env, t, ops).holds
    ensures var n := |ops| - 1;
      Lost(env, t, ops, user, sha) <==>
        && Holding(user, sha) in Play(env, t, ops[..n]).holds
        && (Loses(Play(env, t, ops[..n]), ops[n], user, sha) || Lost(env, t, ops[..n], user, sha))
  {
    hide Play, Loses;
    var n := |ops| - 1;
    var front := ops[..n];
    assert ops[..n + 1] == ops && front[..n] == front;
    forall j | 0 <= j <= n ensures At(env, t, front, j) == At(env, t, ops, j) {
      assert front[..j] == ops[..j];
    }
    assert At(env, t, ops, n) == Play(env, t, front) && At(env, t, ops, n + 1) == Play(env, t, ops);
    forall k | 0 <= k < n ensures LostAt(env, t, ops, user, sha, k) <==> LostAt(env, t, front, user, sha, k) {
      assert front[k] == ops[k];
      hide At;
      assert forall j :: k <= j <= n ==> At(env, t, front, j) == At(env, t, ops, j);
    }
    assert LostAt(env, t, ops, user, sha, n) <==>
      Loses(Play(env, t, front), ops[n], user, sha) && Holding(user, sha) in Play(env, t, front).holds;
  }

  /**
   * Exactly which possessed bytes are found: over any history of any users, failing and
   * crashing anywhere, they have all their vectors, or have lost them all to a removal
   * that died after the drop, since when they have been possessed throughout.
   */
  lemma {:induction false} VectorsExactly(env: Env, t: Tables, ops: seq<Op>, user: User, sha: Sha)
    requires env.Valid() && Inv(env, t) && (Holding(user, sha) in t.holds ==> HasVectors(env, t, user, sha))
    ensures var u := Play(env, t, ops);
      Holding(user, sha) in u.holds ==>
        && (HasVectors(env, u, user, sha) <==> !Lost(env, t, ops, user, sha))
        && (HasVectors(env, u, user, sha) || Bare(u, user, sha))
    decreases |ops|
  {
    hide Step, Inv, HasVectors, Bare, Loses, Lost, Play;
    if ops == [] {
      NothingLost(env, t, user, sha);
      NothingPlayed(env, t, ops);
      assert ops[..0] == ops;
    } else {
      var n := |ops| - 1;
      var before := Play(env, t, ops[..n]);
      VectorsExactly(env, t, ops[..n], user, sha);
      PlayKeeps(env, t, ops[..n]);
      assert ops == ops[..n] + [ops[n]];
      PlaySnoc(env, t, ops[..n], ops[n]);
      if Holding(user, sha) in Play(env, t, ops).holds {
        LostNext(env, t, ops, user, sha);
        StepVectors(env, before, ops[n], user, sha);
      }
    }
  }

  /**
   * Live means searchable. After any history from an empty platform, whatever failed or
   * crashed on the way, a live row with a hash has its owner's possession and the text of
   * every chunk behind it; and each chunk has its canonical vector in the owner's
   * collection and resolves to itself, exactly unless a dying removal has lost them.
   */
  lemma LiveMeansSearchable(env: Env, ops: seq<Op>, id: FileKey, sha: Sha)
    requires env.Valid()
    ensures var t := Play(env, Empty, ops);
      Live(t, id) && t.files[id].sha == Some(sha) ==>
        && Holding(id.user, sha) in t.holds
        && env.CanonText(sha).Some?
        && ChunkRows(t, sha) == env.Chunks(env.CanonText(sha).value)
        && (AllIndexed(env, t, id.user, sha) <==> !Lost(env, Empty, ops, id.user, sha))
  {
    hide Inv, Play, AllIndexed, ChunkRows, HasVectors, Lost, Bare;
    EmptyIsSound(env);
    PlayKeeps(env, Empty, ops);
    var t := Play(env, Empty, ops);
    if Live(t, id) && t.files[id].sha == Some(sha) {
      LiveIsHeld(env, t, id);
      HeldHasText(env, t, id.user, sha);
      VectorsExactly(env, Empty, ops, id.user, sha);
      IndexedExactly(env, t, id.user, sha);
    }
  }

  /** So it always is if no removal dies between its two deletions. */
  lemma LiveMeansSearchableUnless(env: Env, ops: seq<Op>, id: FileKey, sha: Sha)
    requires env.Valid() && forall op :: op in ops && op.CrashReap? ==> op.halt.AfterDelete?
    ensures var t := Play(env, Empty, ops);
      Live(t, id) && t.files[id].sha == Some(sha) ==> AllIndexed(env, t, id.user, sha)
  {
    hide Play, AllIndexed, References;
    LiveMeansSearchable(env, ops, id, sha);
    forall k | 0 <= k < |ops| ensures !LostAt(env, Empty, ops, id.user, sha, k) {
      assert ops[k] in ops;
    }
  }
}
