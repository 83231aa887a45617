/**
 * packages/core/repositories.py, the run protocol's statements: each method is one
 * transaction, and EnqueueRun is the retry loop over them with everybody else's
 * transactions running in between.
 */
module SyncRuns {
  import opened Wrappers
  import opened RunTable
  import opened RunProtocol

  datatype Enqueued =
    | Created(current: Option<RunId>) // what is active when the new run is read back
    | InFlight(run: RunId)
    | GaveUp

  const ATTEMPTS := 3

  class RunStore {
    var table: Table
    ghost var history: seq<Table>     // the table after each transaction

    constructor ()
      ensures table == map[] && history == []
    {
      table, history := map[], [];
    }

    /** The INSERT of enqueue_run; false stands for sqlite3.IntegrityError. */
    method InsertRun(id: RunId, directory: DirectoryId, now: real) returns (inserted: bool)
      modifies this
      ensures table == Insert(old(table), id, directory, now)
      ensures inserted <==> id !in old(table) && !Busy(old(table), directory)
      ensures history == old(history) + [table]
    {
      inserted := id !in table && !exists other :: other in table && Holds(table, other, directory);
      if inserted {
        table := table[id := Run(directory, Queued, now, None)];
      }
      history := history + [table];
    }

    method GetActiveRun(directory: DirectoryId) returns (run: Option<RunId>)
      requires OneActive(table)
      modifies this`history
      ensures run.Some? ==> Holds(table, run.value, directory)
      ensures run.None? ==> !Busy(table, directory)
      ensures history == old(history) + [table]
    {
      history := history + [table];
      if Busy(table, directory) {
        var id :| id in table && Holds(table, id, directory);
        return Some(id);
      }
      return None;
    }

    method ClaimNextRun(now: real) returns (claimed: Option<RunId>)
      modifies this
      ensures claimed.Some? ==> Oldest(old(table), claimed.value) && table == Claim(old(table), claimed.value, now)
      ensures claimed.None? ==> table == old(table) && forall id :: id in table ==> table[id].state != Queued
      ensures history == old(history) + [table]
    {
      claimed := None;
      if exists id :: id in table && table[id].state == Queued {
        OldestExists(table);
        var id :| id in table && Oldest(table, id);
        table := table[id := table[id].(state := Running, heartbeat := Some(now))];
        claimed := Some(id);
      }
      history := history + [table];
    }

    method HeartbeatRun(id: RunId, now: real)
      modifies this
      ensures table == Beat(old(table), id, now)
      ensures history == old(history) + [table]
    {
      if id in table && table[id].state == Running {
        table := table[id := table[id].(heartbeat := Some(now))];
      }
      history := history + [table];
    }

    method FinishRun(id: RunId, state: RunState)
      modifies this
      ensures table == Finish(old(table), id, state)
      ensures history == old(history) + [table]
    {
      if id in table {
        table := table[id := table[id].(state := state)];
      }
      history := history + [table];
    }

    /** One IMMEDIATE transaction: select the stale runs, then fail them one by one. */
    method ReclaimDeadRuns(now: real, timeout: real) returns (reclaimed: set<RunId>)
      modifies this
      ensures table == Reclaim(old(table), now - timeout)
      ensures reclaimed == set id | id in old(table) && Stale(old(table)[id], now - timeout)
      ensures history == old(history) + [table]
    {
      hide Stale, Failed, Reclaim;
      var cutoff := now - timeout;
      ghost var start := table;
      FailedAll(start, cutoff);
      var stale := set id | id in table && Stale(table[id], cutoff);
      var left := stale;
      reclaimed := {};
      while left != {}
        invariant left !! reclaimed && left + reclaimed == stale
        invariant table == Failed(start, reclaimed)
        invariant history == old(history)
        decreases |left|
      {
        var id :| id in left;
        StaleIsRunning(start, id, cutoff);
        FailedOneMore(start, reclaimed, id);
        left := left - {id};
        if table[id].state == Running {
          table := table[id := table[id].(state := Aborted)];
        }
        reclaimed := reclaimed + {id};
      }
      history := history + [table];
    }

    /** Everybody else's turn. */
    method Others(txs: seq<Transaction>, ghost ids: nat -> RunId)
      requires OneActive(table) && Foreign(txs, ids)
      modifies this
      ensures table == After(old(table), txs, |txs|)
      ensures OneActive(table) && Evolves(old(table), table)
      ensures history == old(history) + [table]
    {
      var n := 0;
      ghost var start := table;
      while n < |txs|
        invariant n <= |txs| && table == After(start, txs, n) && history == old(history)
      {
        table := Apply(table, txs[n]);
        n := n + 1;
      }
      AfterEvolves(start, txs, 0, |txs|);
      history := history + [table];
    }

    /**
     * enqueue_run. ids are the uuids it draws and others(n) is what runs before its
     * n-th transaction; no one else ever draws one of its uuids.
     */
    method EnqueueRun(
      directory: DirectoryId, now: real, ids: nat -> RunId, others: nat -> seq<Transaction>)
      returns (reply: Enqueued)
      requires OneActive(table)
      requires InsertedNone(ids, table)
      requires forall j, k :: ids(j) == ids(k) ==> j == k
      requires forall n :: Foreign(others(n), ids)
      modifies this
      ensures OneActive(table) && Evolves(old(table), table)
      ensures |old(history)| <= |history|
      // Created: this call inserted exactly one run, and the reply is what was active afterwards.
      ensures reply.Created? ==>
        exists k :: 0 <= k < ATTEMPTS && InsertedOnly(ids, k, table) && table[ids(k)].directory == directory
      ensures reply.Created? ==>
        if reply.current.Some? then Holds(table, reply.current.value, directory) else !Busy(table, directory)
      // InFlight: it inserted none, and the reply was active at some moment of the call.
      ensures reply.InFlight? ==>
        InsertedNone(ids, table) && HeldDuring(history, |old(history)|, reply.run, directory)
      // GaveUp: it inserted none, and three different runs held the slot during the call.
      ensures reply.GaveUp? ==>
        InsertedNone(ids, table) && ThreeHolders(history, |old(history)|, directory)
    {
      hide After, Foreign, HeldDuring, InsertedNone, InsertedOnly, OneActive, Evolves, ThreeHolders;
      ghost var start := |history|;
      EvolvesAlways(table, table, table);
      ghost var held: seq<RunId> := [];
      var turn: nat := 0;
      for attempt := 0 to ATTEMPTS
        invariant OneActive(table) && Evolves(old(table), table)
        invariant InsertedNone(ids, table)
        invariant start <= |history|
        invariant |held| == attempt
        invariant Distinct(held)
        invariant AllHeld(history, start, held, directory)
        invariant AllEnded(table, held)
      {
        ghost var h0, t0 := history, table;
        OthersKeepIds(table, others(turn), ids);
        Others(others(turn), ids);
        EvolvesAlways(old(table), t0, table);
        ghost var before := table;
        var inserted := InsertRun(ids(attempt), directory, now);
        InsertEvolves(before, ids, attempt, directory, now);
        EvolvesAlways(old(table), before, table);
        if inserted {
          ghost var mine := table;
          OthersKeepInsert(table, others(turn + 1), ids, attempt);
          Others(others(turn + 1), ids);
          EvolvesAlways(old(table), mine, table);
          ghost var marked := table;
          // set_directory_status writes another table, and the read-back follows it.
          OthersKeepInsert(table, others(turn + 2), ids, attempt);
          Others(others(turn + 2), ids);
          EvolvesAlways(old(table), marked, table);
          EvolvesAlways(mine, marked, table);
          DirectoryKept(mine, table, ids(attempt));
          var current := GetActiveRun(directory);
          return Created(current);
        }
        ghost var holder :| holder in table && Holds(table, holder, directory);
        HeldNow(history, start, holder, directory);
        ghost var h1, t1 := history, table;
        OthersKeepIds(table, others(turn + 1), ids);
        Others(others(turn + 1), ids);
        EvolvesAlways(old(table), t1, table);
        var existing := GetActiveRun(directory);
        if existing.Some? {
          HeldNow(history, start, existing.value, directory);
          return InFlight(existing.value);
        }
        HolderIsNew(t0, t1, table, held, holder, directory);
        HeldLonger(h0, history, start, held, directory);
        HeldLonger(h1, history, start, [holder], directory);
        held := held + [holder];
        turn := turn + 2;
      }
      ThreeOf(history, start, held, directory);
      return GaveUp;
    }
  }

  // --- what reclaim_dead_runs has done so far ---------------------------------------------------------

  function Failed(t: Table, ids: set<RunId>): Table {
    map id | id in t :: if id in ids then t[id].(state := Aborted) else t[id]
  }

  lemma StaleIsRunning(t: Table, id: RunId, cutoff: real)
    requires id in t && Stale(t[id], cutoff)
    ensures t[id].state == Running
  {
  }

  lemma FailedOneMore(t: Table, ids: set<RunId>, id: RunId)
    requires id in t && id !in ids
    ensures id in Failed(t, ids) && Failed(t, ids)[id] == t[id]
    ensures Failed(t, ids + {id}) == Failed(t, ids)[id := t[id].(state := Aborted)]
  {
  }

  lemma FailedAll(t: Table, cutoff: real)
    ensures Failed(t, {}) == t
    ensures Failed(t, set id | id in t && Stale(t[id], cutoff)) == Reclaim(t, cutoff)
  {
  }

  // --- what the reply of enqueue_run talks about --------------------------------------------------

  predicate NotInserting(tx: Transaction, id: RunId) {
    tx.DoInsert? ==> tx.id != id
  }

  /** Transactions of other callers: legal ones that insert none of this call's uuids. */
  ghost predicate Foreign(txs: seq<Transaction>, ids: nat -> RunId) {
    forall tx :: tx in txs ==> Legal(tx) && forall k :: NotInserting(tx, ids(k))
  }

  ghost predicate InsertedNone(ids: nat -> RunId, t: Table) {
    forall k :: ids(k) !in t
  }

  ghost predicate InsertedOnly(ids: nat -> RunId, k: nat, t: Table) {
    ids(k) in t && forall j: nat :: j != k ==> ids(j) !in t
  }

  ghost predicate HeldDuring(history: seq<Table>, start: nat, run: RunId, directory: DirectoryId) {
    exists m :: start <= m < |history| && Holds(history[m], run, directory)
  }

  ghost predicate ThreeHolders(history: seq<Table>, start: nat, directory: DirectoryId) {
    exists a, b, c ::
      && HeldDuring(history, start, a, directory)
      && HeldDuring(history, start, b, directory)
      && HeldDuring(history, start, c, directory)
      && a != b && b != c && a != c
  }

  lemma {:induction false} AfterKeepsAbsent(t: Table, txs: seq<Transaction>, id: RunId, n: nat)
    requires n <= |txs| && forall tx :: tx in txs ==> NotInserting(tx, id)
    ensures id in After(t, txs, n) <==> id in t
  {
    if n > 0 {
      AfterKeepsAbsent(t, txs, id, n - 1);
      assert txs[n - 1] in txs;
    }
  }

  lemma OthersKeepIds(t: Table, txs: seq<Transaction>, ids: nat -> RunId)
    requires Foreign(txs, ids)
    requires InsertedNone(ids, t)
    ensures InsertedNone(ids, After(t, txs, |txs|))
  {
    forall k ensures ids(k) !in After(t, txs, |txs|) {
      AfterKeepsAbsent(t, txs, ids(k), |txs|);
    }
  }

  lemma OthersKeepInsert(t: Table, txs: seq<Transaction>, ids: nat -> RunId, k: nat)
    requires Foreign(txs, ids)
    requires InsertedOnly(ids, k, t)
    ensures InsertedOnly(ids, k, After(t, txs, |txs|))
  {
    forall j: nat ensures ids(j) in After(t, txs, |txs|) <==> ids(j) in t {
      AfterKeepsAbsent(t, txs, ids(j), |txs|);
    }
  }

  // --- the proof of the retry loop ----------------------------------------------------------------

  ghost predicate Distinct(runs: seq<RunId>) {
    forall i, j :: 0 <= i < j < |runs| ==> runs[i] != runs[j]
  }

  ghost predicate AllHeld(history: seq<Table>, start: nat, runs: seq<RunId>, directory: DirectoryId) {
    forall i :: 0 <= i < |runs| ==> HeldDuring(history, start, runs[i], directory)
  }

  ghost predicate AllEnded(t: Table, runs: seq<RunId>) {
    forall i :: 0 <= i < |runs| ==> runs[i] in t && !t[runs[i]].state.Active()
  }

  lemma EvolvesAlways(a: Table, b: Table, c: Table)
    ensures Evolves(a, a)
    ensures Evolves(a, b) && Evolves(b, c) ==> Evolves(a, c)
  {
  }

  lemma InsertEvolves(t: Table, ids: nat -> RunId, k: nat, directory: DirectoryId, now: real)
    requires OneActive(t) && InsertedNone(ids, t)
    requires forall i, j :: ids(i) == ids(j) ==> i == j
    ensures var u := Insert(t, ids(k), directory, now);
      && OneActive(u) && Evolves(t, u)
      && (Busy(t, directory) ==> u == t && InsertedNone(ids, u))
      && (!Busy(t, directory) ==> InsertedOnly(ids, k, u) && u[ids(k)].directory == directory)
  {
    StepEvolves(t, DoInsert(ids(k), directory, now));
  }

  lemma DirectoryKept(t: Table, u: Table, id: RunId)
    requires Evolves(t, u) && id in t
    ensures id in u && u[id].directory == t[id].directory
  {
  }

  lemma HeldNow(history: seq<Table>, start: nat, run: RunId, directory: DirectoryId)
    requires start < |history| && Holds(history[|history| - 1], run, directory)
    ensures HeldDuring(history, start, run, directory)
  {
  }

  /** A moment of the call stays one as the history grows. */
  lemma HeldLonger(history: seq<Table>, longer: seq<Table>, start: nat, runs: seq<RunId>, directory: DirectoryId)
    requires AllHeld(history, start, runs, directory) && history <= longer
    ensures AllHeld(longer, start, runs, directory)
  {
    forall i | 0 <= i < |runs| ensures HeldDuring(longer, start, runs[i], directory) {
      var m :| start <= m < |history| && Holds(history[m], runs[i], directory);
      assert longer[m] == history[m];
    }
  }

  /** Whoever blocks a later insert is none of those that blocked an earlier one. */
  lemma HolderIsNew(
    t0: Table, t1: Table, t2: Table, held: seq<RunId>, holder: RunId, directory: DirectoryId)
    requires Evolves(t0, t1) && Evolves(t1, t2)
    requires Distinct(held) && AllEnded(t0, held)
    requires Holds(t1, holder, directory) && !Busy(t2, directory)
    ensures Distinct(held + [holder]) && AllEnded(t2, held + [holder])
  {
    assert holder in t2 && t2[holder].directory == directory;
    assert !Holds(t2, holder, directory);
  }

  lemma ThreeOf(history: seq<Table>, start: nat, held: seq<RunId>, directory: DirectoryId)
    requires |held| == 3 && Distinct(held) && AllHeld(history, start, held, directory)
    ensures ThreeHolders(history, start, directory)
  {
    assert HeldDuring(history, start, held[0], directory);
    assert HeldDuring(history, start, held[1], directory);
    assert HeldDuring(history, start, held[2], directory);
  }
}
