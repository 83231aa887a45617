/** One whole run of run_sync over a listing, and what it leaves behind. */
module Runs {
  import opened Wrappers
  import opened Extraction
  import opened Content
  import opened Store
  import opened Ladder
  import opened Invariant
  import opened Reachable
  import opened Isolation
  import opened Removal
  import opened RunTable

  datatype Place = Place(user: User, datasource: Id, directory: Id)

  /** One listed object and what befalls it: the bytes, if the fetch works, and a fault. */
  datatype Visit = Visit(item: ListedObject, fetched: Option<Bytes>, fault: Fault)

  function JobAt(place: Place, v: Visit): Job {
    Job(place.user, place.datasource, place.directory, v.item, v.fetched)
  }

  datatype Counters = Counters(
    seen: nat, added: nat, skipped: nat, failed: nat, deleted: nat,
    embedded: nat, reused: nat, bytes: nat)

  const Zero := Counters(0, 0, 0, 0, 0, 0, 0, 0)

  function Tally(c: Counters, outcome: Outcome, bytes: nat): Counters {
    var d := c.(seen := c.seen + 1, bytes := c.bytes + bytes);
    match outcome
    case Skipped => d.(skipped := d.skipped + 1)
    case Stored(_, split) => d.(
        added := d.added + 1,
        embedded := d.embedded + split.embedded,
        reused := d.reused + split.reused)
    case Broken(_) => d.(failed := d.failed + 1)
  }

  function BytesOf(t: Tables, job: Job): nat {
    if Downloads(t, job) then |job.fetched.value| else 0
  }

  /** run_sync's loop: the tables and the counters after the visits so far. */
  function Objects(env: Env, t: Tables, place: Place, visits: seq<Visit>): (Tables, Counters) {
    if visits == [] then (t, Zero)
    else
      var last := visits[|visits| - 1];
      var (before, c) := Objects(env, t, place, visits[..|visits| - 1]);
      var (after, outcome) := SyncObject(env, before, JobAt(place, last), last.fault);
      (after, Tally(c, outcome, BytesOf(before, JobAt(place, last))))
  }

  function Keys(visits: seq<Visit>): set<string> {
    set v | v in visits :: v.item.key
  }

  /** Live rows of the directory that the listing did not mention. */
  function Unlisted(t: Tables, place: Place, keys: set<string>): set<FileKey> {
    set id | id in t.files && id.user == place.user && !t.files[id].deleted
             && t.files[id].directory == place.directory && id.key !in keys
  }

  datatype Report = Report(tables: Tables, counters: Counters, state: RunState)

  function RunListing(env: Env, t: Tables, place: Place, visits: seq<Visit>): Report {
    var (synced, c) := Objects(env, t, place, visits);
    var gone := Unlisted(synced, place, Keys(visits));
    Report(
      RemoveSet(synced, place.user, gone),
      c.(deleted := |gone|),
      if c.failed > 0 then Partial else Succeeded)
  }

  // --- a run that an error leaves ------------------------------------------------------------------

  /**
   * Where an error that no handler catches leaves run_sync: in the lookups or the listing;
   * at the bumps and heartbeat before an object, before or after it is counted as seen; in
   * the handler of a failed object, before or after it is counted as failed; in the reap,
   * after that many rows and in the middle of one more; or after it.
   */
  datatype Escape =
    | Nowhere
    | InListing
    | AtObject(index: nat, counted: bool)
    | InHandler(index: nat, counted: bool)
    | InReap(rows: nat, half: Option<RemovalPoint>)
    | AtEnd(counted: bool)

  /** The loop gets to the point. */
  predicate EscapesLoop(env: Env, t: Tables, place: Place, visits: seq<Visit>, escape: Escape) {
    match escape
    case AtObject(i, _) => i < |visits|
    case InHandler(i, _) =>
      && i < |visits|
      && Process(env, Objects(env, t, place, visits[..i]).0, JobAt(place, visits[i]), visits[i].fault).1.Raised?
    case _ => false
  }

  /** Tables and counters at that point. */
  function LeftInLoop(env: Env, t: Tables, place: Place, visits: seq<Visit>, escape: Escape): (Tables, Counters)
    requires EscapesLoop(env, t, place, visits, escape)
  {
    var (before, c) := Objects(env, t, place, visits[..escape.index]);
    var job := JobAt(place, visits[escape.index]);
    match escape
    case AtObject(i, counted) => (before, if counted then c.(seen := c.seen + 1) else c)
    case InHandler(i, counted) =>
      (Process(env, before, job, visits[i].fault).0,
       c.(seen := c.seen + 1, bytes := c.bytes + BytesOf(before, job),
          failed := c.failed + if counted then 1 else 0))
  }

  predicate EscapesReap(t: Tables, place: Place, keys: set<string>, escape: Escape) {
    escape.InReap? && escape.rows < |Unlisted(t, place, keys)|
  }

  /** Some of the unlisted rows are gone, and one more may be half gone. */
  ghost predicate LeftInReap(t: Tables, place: Place, keys: set<string>, escape: Escape, u: Tables)
    requires escape.InReap?
  {
    exists gone, id ::
      && gone <= Unlisted(t, place, keys) && |gone| == escape.rows
      && id in Unlisted(t, place, keys) - gone && id in t.files
      && u == HalfReaped(RemoveSet(t, place.user, gone), place.user, id, t.files[id].sha, escape.half)
  }

  function HalfReaped(t: Tables, user: User, id: FileKey, sha: Option<Sha>, half: Option<RemovalPoint>): Tables {
    if half.None? then t else CrashInReap(t, user, id, sha, half.value)
  }

  /** The tables a listed run may leave. */
  ghost predicate RunLeaves(env: Env, t: Tables, place: Place, visits: seq<Visit>, escape: Escape, u: Tables) {
    var synced := Objects(env, t, place, visits).0;
    if EscapesLoop(env, t, place, visits, escape) then u == LeftInLoop(env, t, place, visits, escape).0
    else if EscapesReap(synced, place, Keys(visits), escape) then LeftInReap(synced, place, Keys(visits), escape, u)
    else u == RunListing(env, t, place, visits).tables
  }

  // --- what a step does to rows ----------------------------------------------------------------

  lemma SyncRow(env: Env, t: Tables, job: Job, fault: Fault)
    ensures var (u, outcome) := SyncObject(env, t, job, fault);
      match outcome
      case Skipped => u == t && Unchanged(t, job)
      case Stored(sha, _) =>
        && job.fetched.Some? && sha == env.hash(job.fetched.value)
        && u.files == t.files[job.File() := job.Row(Some(sha), None)]
      case Broken(f) => u.files == t.files[job.File() := job.Row(None, Some(f))]
  {
    hide Ingest, Unchanged;
    if Downloads(t, job) {
      IngestRow(env, t, job, job.fetched.value, fault);
    }
  }

  lemma IngestRow(env: Env, t: Tables, job: Job, data: Bytes, fault: Fault)
    ensures var (u, r) := Ingest(env, t, job, data, fault);
      match r
      case Ok(outcome) =>
        && outcome.Stored? && outcome.sha == env.hash(data)
        && u.files == t.files[job.File() := job.Row(Some(env.hash(data)), None)]
      case Raised(_) => u.files == t.files
  {
    hide TextChunks, Attach;
    var sha := env.hash(data);
    var (texted, text) := TextChunks(env, UpsertBlob(t, sha, |data|), sha, job.item.key, data);
    assert texted.files == t.files;
    if text.Ok? {
      AttachRow(env, texted, job, sha, text.value, fault);
    }
  }

  lemma AttachRow(env: Env, t: Tables, job: Job, sha: Sha, chunks: seq<string>, fault: Fault)
    ensures var (u, r) := Attach(env, t, job, sha, chunks, fault);
      match r
      case Ok(outcome) =>
        outcome.Stored? && outcome.sha == sha && u.files == t.files[job.File() := job.Row(Some(sha), None)]
      case Raised(_) => u.files == t.files
  {
    IndexTouches(env, t, job.user, sha, chunks, fault);
    hide IndexBlob;
  }

  // --- mirror ----------------------------------------------------------------------------------

  /** The source does not change during the run: what a fetch returns is what is there. */
  ghost predicate Still(visits: seq<Visit>, source: string -> Bytes) {
    forall v :: v in visits && v.fetched.Some? ==> v.fetched.value == source(v.item.key)
  }

  /** Equal fingerprints mean equal bytes, for the rows this listing may match. */
  ghost predicate Faithful(env: Env, t: Tables, place: Place, visits: seq<Visit>, source: string -> Bytes) {
    forall v :: v in visits && Unchanged(t, JobAt(place, v)) ==>
      t.files[JobAt(place, v).File()].sha == Some(env.hash(source(v.item.key)))
  }

  /** The row says what is at the source, or says that it could not be read. */
  ghost predicate Mirrors(env: Env, t: Tables, id: FileKey, source: string -> Bytes) {
    && Live(t, id)
    && ((t.files[id].state == Indexed && t.files[id].sha == Some(env.hash(source(id.key))))
        || (t.files[id].state == Failed && t.files[id].sha == None))
  }

  lemma {:induction false} ObjectsMirror(
    env: Env, t: Tables, place: Place, visits: seq<Visit>, all: seq<Visit>, source: string -> Bytes)
    requires visits <= all && Still(all, source) && Faithful(env, t, place, all, source)
    ensures var u := Objects(env, t, place, visits).0;
      && Faithful(env, u, place, all, source)
      && (forall v :: v in visits ==> Mirrors(env, u, JobAt(place, v).File(), source))
  {
    hide SyncObject;
    if visits != [] {
      var n := |visits| - 1;
      var last := visits[n];
      var job := JobAt(place, last);
      ObjectsMirror(env, t, place, visits[..n], all, source);
      var before := Objects(env, t, place, visits[..n]).0;
      SyncRow(env, before, job, last.fault);
      assert last in all;
      forall v | v in visits ensures v == last || v in visits[..n] {
      }
    }
  }

  /**
   * Mirror after a run. If fingerprints do not lie and the source is still, then
   * whatever failed on the way every listed key ends with a live row that holds
   * the hash of the source bytes, or is failed and holds no hash; and no live row
   * of the directory has a key that is not listed.
   */
  lemma MirrorAfterRun(env: Env, t: Tables, place: Place, visits: seq<Visit>, source: string -> Bytes)
    requires Still(visits, source) && Faithful(env, t, place, visits, source)
    ensures var u := RunListing(env, t, place, visits).tables;
      && (forall v :: v in visits ==>
            Mirrors(env, u, FileKey(place.user, place.datasource, v.item.key), source))
      && Unlisted(u, place, Keys(visits)) == {}
  {
    hide Objects, RemoveSet;
    ObjectsMirror(env, t, place, visits, visits, source);
    var synced := Objects(env, t, place, visits).0;
    ReapRows(synced, place, visits);
  }

  lemma ReapRows(t: Tables, place: Place, visits: seq<Visit>)
    ensures var u := RemoveSet(t, place.user, Unlisted(t, place, Keys(visits)));
      && Unlisted(u, place, Keys(visits)) == {}
      && u.files.Keys == t.files.Keys
      && (forall id :: id in t.files && id.key in Keys(visits) ==> u.files[id] == t.files[id])
      && (forall v :: v in visits ==> v.item.key in Keys(visits))
  {
    var gone := Unlisted(t, place, Keys(visits));
    FilesAfterRemoval(t, place, gone);
    hide RemoveSet, Keys;
    forall v | v in visits ensures v.item.key in Keys(visits) {
      KeyListed(visits, v);
    }
  }

  lemma KeyListed(visits: seq<Visit>, v: Visit)
    requires v in visits
    ensures v.item.key in Keys(visits)
  {
  }

  // --- counters ----------------------------------------------------------------------------------

  /** The chunks of every object that a run counts as new. */
  ghost function NewChunks(env: Env, t: Tables, place: Place, visits: seq<Visit>): nat {
    if visits == [] then 0
    else
      var n := |visits| - 1;
      var outcome :=
        SyncObject(env, Objects(env, t, place, visits[..n]).0, JobAt(place, visits[n]), visits[n].fault).1;
      NewChunks(env, t, place, visits[..n]) + if outcome.Stored? then |env.Canon(outcome.sha)| else 0
  }

  lemma {:induction false} ObjectsKeep(env: Env, t: Tables, place: Place, visits: seq<Visit>)
    requires env.Valid() && Inv(env, t)
    ensures Inv(env, Objects(env, t, place, visits).0)
  {
    hide Inv, SyncObject;
    if visits != [] {
      var n := |visits| - 1;
      ObjectsKeep(env, t, place, visits[..n]);
      SyncKeeps(env, Objects(env, t, place, visits[..n]).0, JobAt(place, visits[n]), visits[n].fault);
    }
  }

  /**
   * Counter conservation, at every loop boundary: each object seen is counted once
   * as new, skipped or failed, and the two chunk counters add up to the chunks of
   * the objects counted new.
   */
  lemma {:induction false} CountersConserved(env: Env, t: Tables, place: Place, visits: seq<Visit>)
    requires env.Valid() && Inv(env, t)
    ensures var c := Objects(env, t, place, visits).1;
      && c.seen == |visits| == c.added + c.skipped + c.failed
      && c.embedded + c.reused == NewChunks(env, t, place, visits)
      && c.deleted == 0
  {
    hide Inv, SyncObject, Decide;
    if visits != [] {
      var n := |visits| - 1;
      CountersConserved(env, t, place, visits[..n]);
      ObjectsKeep(env, t, place, visits[..n]);
      var before := Objects(env, t, place, visits[..n]).0;
      SyncSeen(env, before, JobAt(place, visits[n]), visits[n].fault, place.user);
    }
  }

  /** A run over a listing ends succeeded exactly when nothing failed, else partial. */
  lemma RunVerdict(env: Env, t: Tables, place: Place, visits: seq<Visit>)
    requires env.Valid() && Inv(env, t)
    ensures var r := RunListing(env, t, place, visits);
      && r.state in {Succeeded, Partial}
      && (r.state == Succeeded <==> r.counters.added + r.counters.skipped == |visits|)
      && r.counters.deleted == |Objects(env, t, place, visits).0.files| - |set id |
           id in r.tables.files && r.tables.files[id] == Objects(env, t, place, visits).0.files[id]|
  {
    hide Objects, RemoveSet, Inv;
    CountersConserved(env, t, place, visits);
    var synced := Objects(env, t, place, visits).0;
    var gone := Unlisted(synced, place, Keys(visits));
    FilesAfterRemoval(synced, place, gone);
    var u := RemoveSet(synced, place.user, gone);
    var kept := set id | id in u.files && u.files[id] == synced.files[id];
    assert synced.files.Keys == kept + gone && kept !! gone;
  }

  lemma FilesAfterRemoval(t: Tables, place: Place, gone: set<FileKey>)
    ensures var u := RemoveSet(t, place.user, gone);
      && u.files.Keys == t.files.Keys
      && (forall id :: id in t.files ==> u.files[id] == if id in gone then Tombstone(t.files[id]) else t.files[id])
  {
    hide Orphaned;
  }

  // --- re-sync -------------------------------------------------------------------------------------

  /** A key listed twice is listed the same way: in particular, no key is. */
  ghost predicate Consistent(visits: seq<Visit>) {
    forall v, w :: v in visits && w in visits && v.item.key == w.item.key ==> v.item == w.item
  }

  ghost predicate AllUnchanged(t: Tables, place: Place, visits: seq<Visit>) {
    forall v :: v in visits ==> Unchanged(t, JobAt(place, v))
  }

  lemma {:induction false} CleanRunSettles(env: Env, t: Tables, place: Place, visits: seq<Visit>)
    requires Consistent(visits) && Objects(env, t, place, visits).1.failed == 0
    ensures AllUnchanged(Objects(env, t, place, visits).0, place, visits)
  {
    hide SyncObject;
    if visits != [] {
      var n := |visits| - 1;
      CleanRunSettles(env, t, place, visits[..n]);
      var before := Objects(env, t, place, visits[..n]).0;
      SyncRow(env, before, JobAt(place, visits[n]), visits[n].fault);
      forall v | v in visits ensures Unchanged(Objects(env, t, place, visits).0, JobAt(place, v)) {
        assert v.item == visits[n].item || v in visits[..n];
        assert v in visits[..n] ==> Unchanged(before, JobAt(place, v));
      }
    }
  }

  /** Rung 0 all the way: nothing is written and nothing is downloaded. */
  lemma {:induction false} SettledRunSkips(env: Env, t: Tables, place: Place, visits: seq<Visit>)
    requires AllUnchanged(t, place, visits)
    ensures Objects(env, t, place, visits) == (t, Zero.(seen := |visits|, skipped := |visits|))
  {
    if visits != [] {
      var n := |visits| - 1;
      assert forall v :: v in visits[..n] ==> v in visits;
      SettledRunSkips(env, t, place, visits[..n]);
      SkipIsFree(env, t, JobAt(place, visits[n]), visits[n].fault);
    }
  }

  lemma SkipIsFree(env: Env, t: Tables, job: Job, fault: Fault)
    requires Unchanged(t, job)
    ensures SyncObject(env, t, job, fault) == (t, Skipped) && BytesOf(t, job) == 0
  {
  }

  /** The same objects, listed again. */
  ghost predicate SameListing(first: seq<Visit>, second: seq<Visit>) {
    |first| == |second| && forall i :: 0 <= i < |first| ==> first[i].item == second[i].item
  }

  /**
   * Re-sync is a no-op. After a run that ended succeeded, a second run over the
   * same listing changes no table at all and its receipt is n seen, n skipped and
   * zeros, whatever fetching and embedding would have done.
   */
  lemma ResyncIsNoOp(env: Env, t: Tables, place: Place, first: seq<Visit>, second: seq<Visit>)
    requires Consistent(first) && SameListing(first, second)
    requires RunListing(env, t, place, first).state == Succeeded
    ensures var settled := RunListing(env, t, place, first).tables;
      RunListing(env, settled, place, second)
        == Report(settled, Zero.(seen := |first|, skipped := |first|), Succeeded)
  {
    hide Objects, RemoveSet, Unlisted;
    CleanRunSettles(env, t, place, first);
    var synced := Objects(env, t, place, first).0;
    var settled := RunListing(env, t, place, first).tables;
    ReapRows(synced, place, first);
    SameKeys(first, second);
    StaysUnchanged(synced, settled, place, first, second);
    SettledRunSkips(env, settled, place, second);
    RemoveNothing(settled, place.user);
  }

  lemma SameKeys(first: seq<Visit>, second: seq<Visit>)
    requires SameListing(first, second)
    ensures Keys(first) == Keys(second)
  {
    forall k | k in Keys(first) ensures k in Keys(second) {
      var i :| 0 <= i < |first| && first[i].item.key == k;
      assert second[i] in second;
    }
    forall k | k in Keys(second) ensures k in Keys(first) {
      var i :| 0 <= i < |second| && second[i].item.key == k;
      assert first[i] in first;
    }
  }

  lemma StaysUnchanged(t: Tables, u: Tables, place: Place, first: seq<Visit>, second: seq<Visit>)
    requires AllUnchanged(t, place, first) && SameListing(first, second)
    requires u.files.Keys == t.files.Keys
    requires forall id :: id in t.files && id.key in Keys(first) ==> u.files[id] == t.files[id]
    ensures AllUnchanged(u, place, second)
  {
    forall v | v in second ensures Unchanged(u, JobAt(place, v)) {
      var i :| 0 <= i < |second| && second[i] == v;
      assert first[i] in first && first[i].item == v.item;
      assert Unchanged(t, JobAt(place, first[i]));
      assert v.item.key in Keys(first);
    }
  }
}
