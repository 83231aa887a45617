/** sync_runs: the rows, and each of its transactions as a function of the table. */
module RunTable {
  import opened Wrappers

  type RunId = string
  type DirectoryId = string

  /** Aborted is the schema's 'failed'. */
  datatype RunState = Queued | Running | Succeeded | Partial | Aborted {
    predicate Active() {
      Queued? || Running?
    }
  }

  /** A directory has one owner, so the row's user_id is the directory's. */
  datatype Run = Run(directory: DirectoryId, state: RunState, created: real, heartbeat: Option<real>)

  type Table = map<RunId, Run>

  predicate Holds(t: Table, id: RunId, directory: DirectoryId) {
    id in t && t[id].directory == directory && t[id].state.Active()
  }

  predicate Busy(t: Table, directory: DirectoryId) {
    exists id :: id in t && Holds(t, id, directory)
  }

  /** What ux_sync_runs_active demands. */
  ghost predicate OneActive(t: Table) {
    forall a, b | a in t && b in t && t[a].state.Active() && t[b].state.Active() ::
      t[a].directory == t[b].directory ==> a == b
  }

  /** The partial unique index and the primary key reject what they reject. */
  function Insert(t: Table, id: RunId, directory: DirectoryId, now: real): Table {
    if id in t || Busy(t, directory) then t
    else t[id := Run(directory, Queued, now, None)]
  }

  predicate Oldest(t: Table, id: RunId) {
    && id in t && t[id].state == Queued
    && forall other :: other in t && t[other].state == Queued ==> t[id].created <= t[other].created
  }

  function Claim(t: Table, id: RunId, now: real): Table {
    if Oldest(t, id) then t[id := t[id].(state := Running, heartbeat := Some(now))] else t
  }

  function Beat(t: Table, id: RunId, now: real): Table {
    if id in t && t[id].state == Running then t[id := t[id].(heartbeat := Some(now))] else t
  }

  /** finish_run has no guard on the state it leaves. */
  function Finish(t: Table, id: RunId, state: RunState): Table {
    if id in t then t[id := t[id].(state := state)] else t
  }

  predicate Stale(run: Run, cutoff: real) {
    run.state == Running && (run.heartbeat.None? || run.heartbeat.value < cutoff)
  }

  function Reclaim(t: Table, cutoff: real): Table {
    map id | id in t :: if Stale(t[id], cutoff) then t[id].(state := Aborted) else t[id]
  }

  lemma OldestExists(t: Table)
    requires exists id :: id in t && t[id].state == Queued
    ensures exists id :: Oldest(t, id)
  {
    var queued := set id | id in t && t[id].state == Queued;
    var id :| id in t && t[id].state == Queued;
    assert id in queued;
    var best := MinCreated(t, queued);
    assert Oldest(t, best);
  }

  lemma {:induction false} MinCreated(t: Table, ids: set<RunId>) returns (best: RunId)
    requires ids != {} && forall id :: id in ids ==> id in t
    ensures best in ids && forall id :: id in ids ==> t[best].created <= t[id].created
  {
    var id :| id in ids;
    best := id;
    if ids != {id} {
      var rest := MinCreated(t, ids - {id});
      if t[rest].created < t[id].created {
        best := rest;
      }
    }
  }
}
