/**
 * Whole runs as histories: whatever a run does to the tables, finished or left by an error
 * anywhere, some sequence of its user's operations does. So what holds of every history
 * holds of every interleaving of such sequences.
 */
module RunHistories {
  import opened Extraction
  import opened Content
  import opened Store
  import opened Ladder
  import opened Invariant
  import opened Isolation
  import opened Removal
  import opened Runs
  import NonInterference
  import Reachable

  predicate OwnOps(ops: seq<Op>, user: User) {
    forall op :: op in ops ==> op.Actor() == user
  }

  /** u is t after some operations of the user. */
  ghost predicate Follows(env: Env, t: Tables, user: User, u: Tables) {
    exists ops :: OwnOps(ops, user) && u == Play(env, t, ops)
  }

  lemma FollowsItself(env: Env, t: Tables, user: User)
    ensures Follows(env, t, user, t)
  {
    assert OwnOps([], user) && Play(env, t, []) == t;
  }

  lemma FollowsByOne(env: Env, t: Tables, user: User, u: Tables, op: Op)
    requires Follows(env, t, user, u) && op.Actor() == user
    ensures Follows(env, t, user, Step(env, u, op))
  {
    hide Play, Step;
    var ops :| OwnOps(ops, user) && u == Play(env, t, ops);
    PlaySnoc(env, t, ops, op);
    assert OwnOps(ops + [op], user);
  }

  lemma {:induction false} LoopFollows(env: Env, t: Tables, place: Place, visits: seq<Visit>)
    ensures Follows(env, t, place.user, Objects(env, t, place, visits).0)
  {
    hide Follows, SyncObject;
    if visits == [] {
      FollowsItself(env, t, place.user);
    } else {
      var last := visits[|visits| - 1];
      var before := Objects(env, t, place, visits[..|visits| - 1]).0;
      LoopFollows(env, t, place, visits[..|visits| - 1]);
      FollowsByOne(env, t, place.user, before, Sync(JobAt(place, last), last.fault));
    }
  }

  lemma {:induction false} ReapFollows(env: Env, t: Tables, user: User, start: Tables, gone: set<FileKey>)
    requires LiveNames(start, user, gone) && Follows(env, t, user, start)
    ensures Follows(env, t, user, RemoveSet(start, user, gone))
    decreases |gone|
  {
    hide Follows, RemoveSet, ReapRow, RemoveFile;
    if gone == {} {
      RemoveNothing(start, user);
    } else {
      var id :| id in gone;
      var rest := gone - {id};
      ReapFollows(env, t, user, start, rest);
      OneMoreName(start, user, rest, id);
      assert rest + {id} == gone;
      FollowsByOne(env, t, user, RemoveSet(start, user, rest), Reap(user, id, start.files[id].sha));
    }
  }

  function PointOf(error: SyncFault): CrashPoint {
    match error
    case FetchError | ExtractError | TextStoreError => AfterBlob
    case EmbedError | CacheError => AfterChunks
    case VectorStoreError => AfterCache
  }

  /** An object step that raises leaves what a crash at the last write before would. */
  lemma RaisingIsCrashing(env: Env, t: Tables, job: Job, fault: Fault)
    ensures var (u, r) := Process(env, t, job, fault);
      r.Raised? ==> u == CrashIn(env, t, job, PointOf(r.error))
  {
    hide TextChunks, Attach, CrashInAttach, Unchanged, PointOf, UpsertBlob;
    if Downloads(t, job) {
      var data := job.fetched.value;
      var sha := env.hash(data);
      var start := UpsertBlob(t, sha, |data|);
      RaisedText(env, start, sha, job.item.key, data);
      var (texted, text) := TextChunks(env, start, sha, job.item.key, data);
      if text.Ok? {
        RaisedAttach(env, texted, job, sha, text.value, fault);
        assert Process(env, t, job, fault) == Attach(env, texted, job, sha, text.value, fault);
      }
    }
  }

  lemma RaisedAttach(env: Env, t: Tables, job: Job, sha: Sha, chunks: seq<string>, fault: Fault)
    ensures var (u, r) := Attach(env, t, job, sha, chunks, fault);
      r.Raised? ==>
        && (PointOf(r.error).AfterChunks? || PointOf(r.error).AfterCache?)
        && u == CrashInAttach(env, t, job, sha, chunks, PointOf(r.error))
  {
    RaisedIndex(env, t, job.user, sha, chunks, fault);
    hide IndexBlob;
    var (u, r) := Attach(env, t, job, sha, chunks, fault);
    var (v, q) := IndexBlob(env, t, job.user, sha, chunks, fault);
    assert r.Raised? ==> q.Raised? && u == v && q.error == r.error;
  }

  lemma RaisedText(env: Env, t: Tables, sha: Sha, key: string, data: Bytes)
    ensures var (u, r) := TextChunks(env, t, sha, key, data);
      r.Raised? ==> u == t && PointOf(r.error).AfterBlob?
  {
  }

  lemma RaisedIndex(env: Env, t: Tables, user: User, sha: Sha, chunks: seq<string>, fault: Fault)
    ensures var (u, r) := IndexBlob(env, t, user, sha, chunks, fault);
      r.Raised? ==>
        if r.error == VectorStoreError then u == IndexBlob(env, t, user, sha, chunks, UpsertFails).0
        else u == t && (r.error == EmbedError || r.error == CacheError)
  {
  }

  /**
   * The run of one listing, finished or left at any point where an error can leave it: some
   * history of the user's own operations ends in the very same tables.
   */
  lemma RunIsAHistory(env: Env, t: Tables, place: Place, visits: seq<Visit>, escape: Escape, u: Tables)
    requires RunLeaves(env, t, place, visits, escape, u)
    ensures Follows(env, t, place.user, u)
  {
    hide Follows, Objects, RemoveSet, Process, Unlisted, Keys, CrashInReap;
    var synced, keys := Objects(env, t, place, visits).0, Keys(visits);
    LoopFollows(env, t, place, visits);
    UnlistedAreLive(synced, place, keys);
    if EscapesLoop(env, t, place, visits, escape) {
      var before, visit := Objects(env, t, place, visits[..escape.index]).0, visits[escape.index];
      var job := JobAt(place, visit);
      LoopFollows(env, t, place, visits[..escape.index]);
      if escape.InHandler? {
        RaisingIsCrashing(env, before, job, visit.fault);
        FollowsByOne(
          env, t, place.user, before, Crash(job, PointOf(Process(env, before, job, visit.fault).1.error)));
      }
    } else if EscapesReap(synced, place, keys, escape) {
      var gone, id :|
        && gone <= Unlisted(synced, place, keys) && |gone| == escape.rows
        && id in Unlisted(synced, place, keys) - gone && id in synced.files
        && u == HalfReaped(RemoveSet(synced, place.user, gone), place.user, id, synced.files[id].sha, escape.half);
      var sha := synced.files[id].sha;
      ReapFollows(env, t, place.user, synced, gone);
      if escape.half.Some? {
        FollowsByOne(
          env, t, place.user, RemoveSet(synced, place.user, gone), CrashReap(place.user, id, sha, escape.half.value));
      }
    } else {
      ReapFollows(env, t, place.user, synced, Unlisted(synced, place, keys));
    }
  }

  lemma UnlistedAreLive(t: Tables, place: Place, keys: set<string>)
    ensures LiveNames(t, place.user, Unlisted(t, place, keys))
  {
  }

  /** In particular every run keeps the invariant and is not seen by anybody else. */
  lemma RunKeeps(env: Env, t: Tables, place: Place, visits: seq<Visit>, escape: Escape, u: Tables, other: User)
    requires env.Valid() && Inv(env, t) && RunLeaves(env, t, place, visits, escape, u)
    ensures Inv(env, u) && (other != place.user ==> ViewOf(u, other) == ViewOf(t, other))
  {
    RunIsAHistory(env, t, place, visits, escape, u);
    hide RunLeaves, Inv, Play, ViewOf;
    var ops :| OwnOps(ops, place.user) && u == Play(env, t, ops);
    Reachable.PlayKeeps(env, t, ops);
    if other != place.user {
      HistoryUnseen(env, t, ops, place.user, other);
    }
  }

  lemma {:induction false} HistoryUnseen(env: Env, t: Tables, ops: seq<Op>, user: User, other: User)
    requires env.Valid() && Inv(env, t) && OwnOps(ops, user) && user != other
    ensures ViewOf(Play(env, t, ops), other) == ViewOf(t, other)
    decreases |ops|
  {
    hide Inv, Step, ViewOf;
    if ops != [] {
      assert ops[0] in ops && forall op :: op in ops[1..] ==> op in ops;
      NonInterference.StepUnseen(env, t, ops[0], other);
      Reachable.StepKeeps(env, t, ops[0]);
      HistoryUnseen(env, Step(env, t, ops[0]), ops[1..], user, other);
    }
  }
}
