/**
 * The run protocol at transaction granularity: any number of API callers, workers
 * and reclaimers take turns on one table.
 */
module RunProtocol {
  import opened Wrappers
  import opened RunTable

  /** One committed transaction. Look stands for every read. */
  datatype Transaction =
    | DoInsert(id: RunId, directory: DirectoryId, now: real)
    | DoClaim(id: RunId, now: real)
    | DoBeat(id: RunId, now: real)
    | DoFinish(id: RunId, state: RunState)
    | DoReclaim(cutoff: real)
    | Look

  /** run_sync finishes runs in one of its three terminal states only. */
  predicate Legal(tx: Transaction) {
    tx.DoFinish? ==> !tx.state.Active()
  }

  function Apply(t: Table, tx: Transaction): Table {
    match tx
    case DoInsert(id, directory, now) => Insert(t, id, directory, now)
    case DoClaim(id, now) => Claim(t, id, now)
    case DoBeat(id, now) => Beat(t, id, now)
    case DoFinish(id, state) => Finish(t, id, state)
    case DoReclaim(cutoff) => Reclaim(t, cutoff)
    case Look => t
  }

  /** The table after the first n transactions. */
  function After(t: Table, txs: seq<Transaction>, n: nat): Table
    requires n <= |txs|
  {
    if n == 0 then t else Apply(After(t, txs, n - 1), txs[n - 1])
  }

  // --- what a transaction may do to a run -----------------------------------------------------

  /** Rows stay, keep their directory, and only ever move queued -> running -> terminal. */
  ghost predicate Evolves(t: Table, u: Table) {
    forall id :: id in t ==>
      && id in u && u[id].directory == t[id].directory
      && (!t[id].state.Active() ==> !u[id].state.Active())
      && (t[id].state == Running ==> u[id].state != Queued)
  }

  lemma StepEvolves(t: Table, tx: Transaction)
    requires Legal(tx) && OneActive(t)
    ensures OneActive(Apply(t, tx)) && Evolves(t, Apply(t, tx))
  {
    if tx.DoInsert? && tx.id !in t && !Busy(t, tx.directory) {
      assert forall id :: id in t && t[id].directory == tx.directory ==> !Holds(t, id, tx.directory);
    }
  }

  lemma {:induction false} AfterEvolves(t: Table, txs: seq<Transaction>, i: nat, j: nat)
    requires OneActive(t) && i <= j <= |txs|
    requires forall tx :: tx in txs ==> Legal(tx)
    ensures OneActive(After(t, txs, j)) && Evolves(After(t, txs, i), After(t, txs, j))
    decreases j
  {
    hide Apply, OneActive, Legal;
    if i < j {
      AfterEvolves(t, txs, i, j - 1);
      assert txs[j - 1] in txs;
      StepEvolves(After(t, txs, j - 1), txs[j - 1]);
    } else if j > 0 {
      AfterEvolves(t, txs, j - 1, j - 1);
      assert txs[j - 1] in txs;
      StepEvolves(After(t, txs, j - 1), txs[j - 1]);
    }
  }

  // --- safety over every interleaving ----------------------------------------------------------

  /** This transaction is the one that takes the run from the queue. */
  predicate Claims(t: Table, tx: Transaction, id: RunId) {
    tx.DoClaim? && tx.id == id && Oldest(t, id)
  }

  /**
   * In every interleaving: no directory ever has two active runs, no run is claimed
   * twice, and a run that has ended never becomes active again.
   */
  lemma Safety(txs: seq<Transaction>, id: RunId, i: nat, j: nat)
    requires forall tx :: tx in txs ==> Legal(tx)
    requires i < j <= |txs|
    ensures OneActive(After(map[], txs, j))
    ensures Claims(After(map[], txs, i), txs[i], id) && j < |txs| ==>
      !Claims(After(map[], txs, j), txs[j], id)
    ensures id in After(map[], txs, i) && !After(map[], txs, i)[id].state.Active() ==>
      id in After(map[], txs, j) && !After(map[], txs, j)[id].state.Active()
  {
    AfterEvolves(map[], txs, i, j);
    AfterEvolves(map[], txs, i + 1, j);
  }

  // --- any number of workers --------------------------------------------------------------------

  /** What one worker process is doing. Die covers an error that leaves its run, a crash and a restart. */
  datatype Worker = Idle | Working(id: RunId)

  datatype Move = By(tx: Transaction) | Die

  /** The API's processes act as well: they insert and read. */
  datatype Act = Of(who: nat, move: Move)

  /** The run of each worker that has one. */
  type Crew = map<nat, RunId>

  function WorkerOf(crew: Crew, who: nat): Worker {
    if who in crew then Working(crew[who]) else Idle
  }

  /**
   * poll_once in order: reclaim and claim between runs only, then heartbeats and one
   * finish of the claimed run.
   */
  predicate Allowed(w: Worker, move: Move) {
    match move
    case Die => true
    case By(DoClaim(_, _)) => w.Idle?
    case By(DoReclaim(_)) => w.Idle?
    case By(DoBeat(id, _)) => w == Working(id)
    case By(DoFinish(id, state)) => w == Working(id) && !state.Active()
    case By(_) => true
  }

  function ApplyMove(t: Table, move: Move): Table {
    if move.By? then Apply(t, move.tx) else t
  }

  function NextCrew(crew: Crew, t: Table, act: Act): Crew {
    match act.move
    case Die => crew - {act.who}
    case By(DoClaim(id, _)) => if Oldest(t, id) then crew[act.who := id] else crew
    case By(DoFinish(_, _)) => crew - {act.who}
    case By(_) => crew
  }

  /** Table and crew after the first n acts. */
  function AfterActs(acts: seq<Act>, n: nat): (Table, Crew)
    requires n <= |acts|
  {
    if n == 0 then (map[], map[])
    else
      var (t, crew) := AfterActs(acts, n - 1);
      (ApplyMove(t, acts[n - 1].move), NextCrew(crew, t, acts[n - 1]))
  }

  /** Every worker goes by its own state; none knows of the others. */
  ghost predicate Obeys(acts: seq<Act>) {
    forall i :: 0 <= i < |acts| ==> Allowed(WorkerOf(AfterActs(acts, i).1, acts[i].who), acts[i].move)
  }

  /** A worker's run is running, or was failed under its hands; no two workers have the same. */
  ghost predicate CrewSound(t: Table, crew: Crew) {
    && (forall who :: who in crew ==>
          crew[who] in t && (t[crew[who]].state == Running || t[crew[who]].state == Aborted))
    && (forall a, b :: a in crew && b in crew && crew[a] == crew[b] ==> a == b)
  }

  lemma ActKeepsCrew(t: Table, crew: Crew, act: Act)
    requires CrewSound(t, crew) && Allowed(WorkerOf(crew, act.who), act.move)
    ensures CrewSound(ApplyMove(t, act.move), NextCrew(crew, t, act))
  {
    hide Busy, Stale;
  }

  lemma {:induction false} CrewStaysSound(acts: seq<Act>, n: nat)
    requires Obeys(acts) && n <= |acts|
    ensures CrewSound(AfterActs(acts, n).0, AfterActs(acts, n).1)
  {
    hide ApplyMove, NextCrew, Allowed;
    if n > 0 {
      CrewStaysSound(acts, n - 1);
      var (t, crew) := AfterActs(acts, n - 1);
      assert Allowed(WorkerOf(crew, acts[n - 1].who), acts[n - 1].move);
      ActKeepsCrew(t, crew, acts[n - 1]);
    }
  }

  // --- when a terminal state is final -------------------------------------------------------------

  /** A worker finishes a run that a reclaimer has failed: the one finish that a guard would refuse. */
  predicate Overwrites(acts: seq<Act>, k: nat, id: RunId)
    requires k < |acts|
  {
    var t := AfterActs(acts, k).0;
    && id in t && t[id].state == Aborted
    && acts[k].move.By? && acts[k].move.tx.DoFinish? && acts[k].move.tx.id == id
    && acts[k].move.tx.state != Aborted
  }

  /** The only act that can touch an ended run is a finish by the worker that has it. */
  lemma ActOnTerminal(t: Table, crew: Crew, act: Act, id: RunId)
    requires CrewSound(t, crew) && Allowed(WorkerOf(crew, act.who), act.move)
    requires id in t && !t[id].state.Active()
    ensures var u := ApplyMove(t, act.move);
      var finish := act.move.By? && act.move.tx.DoFinish? && act.move.tx.id == id;
      && id in u && !u[id].state.Active()
      && u[id].state == (if finish then act.move.tx.state else t[id].state)
      && (finish ==> t[id].state == Aborted)
  {
  }

  /**
   * With any number of workers that obey poll_once, dying and restarting at will, the state
   * of an ended run stays what it is if and only if nobody finishes it after a reclaimer
   * has failed it.
   */
  lemma TerminalKeptExactly(acts: seq<Act>, id: RunId, i: nat, j: nat)
    requires Obeys(acts) && i <= j <= |acts|
    requires id in AfterActs(acts, i).0 && !AfterActs(acts, i).0[id].state.Active()
    ensures id in AfterActs(acts, j).0 && !AfterActs(acts, j).0[id].state.Active()
    ensures AfterActs(acts, j).0[id].state == AfterActs(acts, i).0[id].state
      <==> forall k :: i <= k < j ==> !Overwrites(acts, k, id)
  {
    hide AfterActs, Overwrites;
    TerminalHistory(acts, id, i, j);
  }

  ghost predicate EverOverwritten(acts: seq<Act>, id: RunId, i: nat, j: nat)
    requires i <= j <= |acts|
  {
    exists k :: i <= k < j && Overwrites(acts, k, id)
  }

  /** What is overwritten is Aborted, and what it is overwritten with never is. */
  lemma {:induction false} TerminalHistory(acts: seq<Act>, id: RunId, i: nat, j: nat)
    requires Obeys(acts) && i <= j <= |acts|
    requires id in AfterActs(acts, i).0 && !AfterActs(acts, i).0[id].state.Active()
    ensures var before, after := AfterActs(acts, i).0, AfterActs(acts, j).0;
      && id in after && !after[id].state.Active()
      && if EverOverwritten(acts, id, i, j)
         then before[id].state == Aborted && after[id].state != Aborted
         else after[id].state == before[id].state
    decreases j
  {
    hide AfterActs, Allowed, CrewSound, EverOverwritten, Apply;
    if i < j {
      TerminalHistory(acts, id, i, j - 1);
      CrewStaysSound(acts, j - 1);
      AfterOneMore(acts, j - 1);
      var (t, crew) := AfterActs(acts, j - 1);
      assert Allowed(WorkerOf(crew, acts[j - 1].who), acts[j - 1].move);
      ActOnTerminal(t, crew, acts[j - 1], id);
      OneMoreAct(acts, id, i, j - 1);
    } else {
      NoActs(acts, id, i);
    }
  }

  lemma NoActs(acts: seq<Act>, id: RunId, i: nat)
    requires i <= |acts|
    ensures !EverOverwritten(acts, id, i, i)
  {
  }

  lemma OneMoreAct(acts: seq<Act>, id: RunId, i: nat, j: nat)
    requires i <= j < |acts|
    ensures EverOverwritten(acts, id, i, j + 1) <==> EverOverwritten(acts, id, i, j) || Overwrites(acts, j, id)
  {
    hide Overwrites;
  }

  /** At r somebody other than the worker finds the run's heartbeat too old. */
  predicate FailedByAnother(acts: seq<Act>, r: nat, who: nat, id: RunId)
    requires r < |acts|
  {
    var t := AfterActs(acts, r).0;
    && acts[r].who != who && acts[r].move.By? && acts[r].move.tx.DoReclaim?
    && id in t && Stale(t[id], acts[r].move.tx.cutoff)
  }

  predicate HasAborted(t: Table, crew: Crew, who: nat) {
    who in crew && crew[who] in t && t[crew[who]].state == Aborted
  }

  /** A run that is failed under its worker's hands is failed by another. */
  lemma {:induction false} AbortedByAnother(acts: seq<Act>, n: nat, who: nat)
    requires Obeys(acts) && n <= |acts|
    ensures var (t, crew) := AfterActs(acts, n);
      HasAborted(t, crew, who) ==>
        exists r :: 0 <= r < n && FailedByAnother(acts, r, who, crew[who])
  {
    hide AfterActs, Allowed, CrewSound, FailedByAnother;
    if n > 0 {
      AbortedByAnother(acts, n - 1, who);
      CrewStaysSound(acts, n - 1);
      assert Allowed(WorkerOf(AfterActs(acts, n - 1).1, acts[n - 1].who), acts[n - 1].move);
      AbortedHere(acts, n - 1, who);
    } else {
      NobodyYet(acts);
    }
  }

  lemma NobodyYet(acts: seq<Act>)
    ensures AfterActs(acts, 0) == (map[], map[])
  {
  }

  lemma AbortedHere(acts: seq<Act>, n: nat, who: nat)
    requires n < |acts| && CrewSound(AfterActs(acts, n).0, AfterActs(acts, n).1)
    requires Allowed(WorkerOf(AfterActs(acts, n).1, acts[n].who), acts[n].move)
    ensures var (t, crew) := AfterActs(acts, n);
      var (u, next) := AfterActs(acts, n + 1);
      HasAborted(u, next, who) ==>
        || (HasAborted(t, crew, who) && crew[who] == next[who])
        || FailedByAnother(acts, n, who, next[who])
  {
    AfterOneMore(acts, n);
    hide AfterActs, Busy;
  }

  lemma AfterOneMore(acts: seq<Act>, n: nat)
    requires n < |acts|
    ensures var (t, crew) := AfterActs(acts, n);
      AfterActs(acts, n + 1) == (ApplyMove(t, acts[n].move), NextCrew(crew, t, acts[n]))
  {
  }

  /** So an ended run is overwritten only where another worker has reclaimed it before. */
  lemma OverwritersWereReclaimed(acts: seq<Act>, k: nat, id: RunId)
    requires Obeys(acts) && k < |acts| && Overwrites(acts, k, id)
    ensures exists r :: 0 <= r < k && FailedByAnother(acts, r, acts[k].who, id)
  {
    hide FailedByAnother, AfterActs;
    assert Allowed(WorkerOf(AfterActs(acts, k).1, acts[k].who), acts[k].move);
    AbortedByAnother(acts, k, acts[k].who);
  }

  predicate IsWork(move: Move) {
    move.By? && !move.tx.DoInsert? && !move.tx.Look?
  }

  /** With one worker a terminal state, once written, is never written over. */
  lemma TerminalIsFinal(acts: seq<Act>, worker: nat, id: RunId, i: nat, j: nat)
    requires Obeys(acts) && i <= j <= |acts|
    requires forall k :: 0 <= k < |acts| && IsWork(acts[k].move) ==> acts[k].who == worker
    requires id in AfterActs(acts, i).0 && !AfterActs(acts, i).0[id].state.Active()
    ensures id in AfterActs(acts, j).0
    ensures AfterActs(acts, j).0[id].state == AfterActs(acts, i).0[id].state
  {
    hide AfterActs;
    TerminalKeptExactly(acts, id, i, j);
    forall k | i <= k < j ensures !Overwrites(acts, k, id) {
      if Overwrites(acts, k, id) {
        OverwritersWereReclaimed(acts, k, id);
      }
    }
  }

  /** With two it is: one reclaims a slow run, and the other, which obeys as well, then finishes it. */
  lemma TwoWorkersOverwrite(id: RunId, directory: DirectoryId, started: real, cutoff: real)
    requires started < cutoff
    ensures var acts := [
        Of(2, By(DoInsert(id, directory, started))), Of(0, By(DoClaim(id, started))),
        Of(1, By(DoReclaim(cutoff))), Of(0, By(DoFinish(id, Succeeded)))];
      && Obeys(acts) && Overwrites(acts, 3, id) && FailedByAnother(acts, 2, 0, id)
      && id in AfterActs(acts, 4).0 && AfterActs(acts, 4).0[id].state == Succeeded
  {
    var acts := [
      Of(2, By(DoInsert(id, directory, started))), Of(0, By(DoClaim(id, started))),
      Of(1, By(DoReclaim(cutoff))), Of(0, By(DoFinish(id, Succeeded)))];
    assert AfterActs(acts, 0) == (map[], map[]) && !Busy(map[], directory);
    assert AfterActs(acts, 1) == (map[id := Run(directory, Queued, started, None)], map[]);
    assert Oldest(AfterActs(acts, 1).0, id);
    assert AfterActs(acts, 2).0 == map[id := Run(directory, Running, started, Some(started))];
    assert AfterActs(acts, 2).1 == map[0 := id];
    assert AfterActs(acts, 3).0 == map[id := Run(directory, Aborted, started, Some(started))];
    assert AfterActs(acts, 3).1 == map[0 := id];
  }
}
