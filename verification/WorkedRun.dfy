/**
 * packages/core/sync.py: the heartbeats of run_sync, statement by statement, with
 * reclaimers and everybody else at work in between.
 */
module WorkedRun {
  import opened Wrappers
  import opened RunTable
  import opened RunProtocol
  import opened SyncRuns
  import opened Heartbeat

  /** Where run_sync is: the listing, one object, or the reap. */
  datatype Phase = Listing | Handling(index: nat) | Reaping

  function MomentAt(phase: Phase, at: real): Moment {
    match phase
    case Listing => InListing(at)
    case Handling(i) => InObject(i, at)
    case Reaping => InReap(at)
  }

  /** What others commit during a phase: a reclaimer's visit, or a transaction about other runs. */
  datatype Neighbour = Reclaimer(at: real) | Elsewhere(tx: Transaction)

  predicate About(tx: Transaction, run: RunId) {
    match tx
    case DoInsert(id, _, _) => id == run
    case DoBeat(id, _) => id == run
    case DoFinish(id, _) => id == run
    case DoReclaim(_) => true
    case DoClaim(_, _) => false
    case Look => false
  }

  ghost predicate Behave(neighbours: seq<Neighbour>, run: RunId, s: Schedule, phase: Phase) {
    forall n :: n in neighbours ==>
      match n
      case Reclaimer(at) => During(s, MomentAt(phase, at))
      case Elsewhere(tx) => !About(tx, run)
  }

  /** The bounds of the promise, and the timeout they fit into. */
  datatype Bounds = Bounds(listing: real, each: real, reap: real, timeout: real)

  ghost predicate Fits(s: Schedule, b: Bounds) {
    Within(s, b.listing, b.each, b.reap) && WorstAge(b.listing, b.each, b.reap) <= b.timeout
  }

  /** In every table from start on the run is being worked on. */
  ghost predicate BeatingSince(history: seq<Table>, start: nat, run: RunId) {
    forall m :: start <= m < |history| ==> run in history[m] && history[m][run].state == Running
  }

  lemma BeatingLonger(history: seq<Table>, longer: seq<Table>, start: nat, run: RunId)
    requires BeatingSince(history, start, run) && start <= |history|
    requires |longer| == |history| + 1 && longer[..|history|] == history
    requires run in longer[|history|] && longer[|history|][run].state == Running
    ensures BeatingSince(longer, start, run)
  {
    assert forall m :: 0 <= m < |history| ==> longer[m] == history[m];
  }

  /** Others take their turns during one phase and leave the worked run alone. */
  method Interlude(
    store: RunStore, run: RunId, claim: real, s: Schedule, phase: Phase, neighbours: seq<Neighbour>,
    b: Bounds, ghost beat: real, ghost start: nat)
    requires Fits(s, b) && Behave(neighbours, run, s, phase)
    requires forall at :: During(s, MomentAt(phase, at)) ==> LastBeat(s, MomentAt(phase, at)) == beat
    requires run in store.table && store.table[run].state == Running
    requires store.table[run].heartbeat == Some(claim + beat)
    requires start <= |store.history| && BeatingSince(store.history, start, run)
    modifies store
    ensures run in store.table && store.table[run] == old(store.table[run])
    ensures |old(store.history)| <= |store.history| && BeatingSince(store.history, start, run)
  {
    hide Fits, BeatingSince, LastBeat, During, Reclaim, Stale, Busy, Oldest;
    for k := 0 to |neighbours|
      invariant run in store.table && store.table[run] == old(store.table[run])
      invariant start <= |old(store.history)| <= |store.history| && BeatingSince(store.history, start, run)
    {
      ghost var before, soFar := store.table, store.history;
      var n := neighbours[k];
      assert n in neighbours;
      if n.Reclaimer? {
        ReclaimLeaves(store.table, run, claim, s, MomentAt(phase, n.at), b);
        var _ := store.ReclaimDeadRuns(claim + n.at, b.timeout);
        BeatingLonger(soFar, store.history, start, run);
      } else {
        ApplyElsewhere(store, n.tx, run);
        BeatingLonger(soFar, store.history, start, run);
      }
    }
  }

  lemma ReclaimLeaves(t: Table, run: RunId, claim: real, s: Schedule, m: Moment, b: Bounds)
    requires Fits(s, b) && During(s, m) && run in t && t[run].state == Running
    requires t[run].heartbeat == Some(claim + LastBeat(s, m))
    ensures run in Reclaim(t, claim + m.at - b.timeout) && Reclaim(t, claim + m.at - b.timeout)[run] == t[run]
  {
    NeverReclaimed(t, run, claim, s, m, b.listing, b.each, b.reap, b.timeout);
  }

  method ApplyElsewhere(store: RunStore, tx: Transaction, run: RunId)
    requires !About(tx, run) && run in store.table && store.table[run].state == Running
    modifies store
    ensures run in store.table && store.table[run] == old(store.table[run])
    ensures store.history == old(store.history) + [store.table]
  {
    match tx
    case DoInsert(id, directory, now) =>
      var _ := store.InsertRun(id, directory, now);
    case DoClaim(_, now) =>
      var _ := store.ClaimNextRun(now);
    case DoBeat(id, now) =>
      store.HeartbeatRun(id, now);
    case DoFinish(id, state) =>
      store.FinishRun(id, state);
    case Look =>
      store.history := store.history + [store.table];
  }

  lemma BeatOfPhase(s: Schedule, phase: Phase)
    requires phase.Handling? ==> phase.index < |s.objects|
    ensures forall at :: During(s, MomentAt(phase, at)) ==> LastBeat(s, MomentAt(phase, at)) == BeatOf(s, phase)
  {
  }

  /** The clock reading, after the claim, of the heartbeat that covers a phase. */
  function BeatOf(s: Schedule, phase: Phase): real
    requires phase.Handling? ==> phase.index < |s.objects|
  {
    match phase
    case Listing => 0.0
    case Handling(i) => BeatIndexBelow(i); Start(s, BeatIndex(i))
    case Reaping =>
      if |s.objects| == 0 then 0.0
      else BeatIndexBelow(|s.objects| - 1); Start(s, BeatIndex(|s.objects| - 1))
  }

  /** A heartbeat at every fifth object is one that covers it. */
  lemma BeatEveryFifth(s: Schedule, i: nat)
    requires i < |s.objects|
    ensures BeatOf(s, Handling(i)) ==
      if i % EVERY == 0 then Start(s, i) else BeatOf(s, Handling(i - 1))
    ensures i == |s.objects| - 1 ==> BeatOf(s, Reaping) == BeatOf(s, Handling(i))
  {
  }

  /**
   * How run_sync ends: it finishes the run, or an error that no handler catches, or the
   * death of the process, makes it leave in some phase, or between its last heartbeat and
   * the finish.
   */
  datatype Ending = Finishes(state: RunState) | Leaves(phase: Phase) | LeavesAtTheEnd {
    /** The i-th object is reached. */
    predicate Reaches(i: nat) {
      Leaves? ==> phase != Listing && (phase.Handling? ==> i <= phase.index)
    }
  }

  /** What the worker leaves in the row. */
  function RowLeft(run: Run, claim: real, s: Schedule, ending: Ending): Run
    requires ending.Leaves? && ending.phase.Handling? ==> ending.phase.index < |s.objects|
  {
    match ending
    case Leaves(phase) => run.(heartbeat := Some(claim + BeatOf(s, phase)))
    case LeavesAtTheEnd => run.(heartbeat := Some(claim + Start(s, |s.objects|) + s.reap))
    case Finishes(state) => run.(state := state, heartbeat := Some(claim + Start(s, |s.objects|) + s.reap))
  }

  /**
   * run_sync from the claim on, whatever its ending. others(k) is what everybody else
   * commits during the k-th phase: listing, each object, reap. As long as the schedule fits
   * the timeout the run is running at every moment until the worker itself ends it, and so
   * it stays, with the heartbeat of the phase, if the worker leaves it.
   */
  method Work(
    store: RunStore, run: RunId, claim: real, s: Schedule, others: nat -> seq<Neighbour>, b: Bounds,
    ending: Ending)
    requires Fits(s, b)
    requires run in store.table && store.table[run].state == Running
    requires store.table[run].heartbeat == Some(claim)
    requires Behave(others(0), run, s, Listing) && Behave(others(|s.objects| + 1), run, s, Reaping)
    requires forall i :: 0 <= i < |s.objects| ==> Behave(others(i + 1), run, s, Handling(i))
    requires ending.Leaves? && ending.phase.Handling? ==> ending.phase.index < |s.objects|
    modifies store
    ensures |old(store.history)| <= |store.history|
    ensures ending.Finishes? ==> |old(store.history)| < |store.history|
    ensures BeatingSince(
      if ending.Finishes? then store.history[..|store.history| - 1] else store.history,
      |old(store.history)|, run)
    ensures run in store.table && store.table[run] == RowLeft(old(store.table[run]), claim, s, ending)
  {
    hide Fits, Behave, BeatingSince, LastBeat, During, Start, BeatOf;
    ghost var start := |store.history|;
    NothingYet(store.history, run);
    ListingBeat(s);
    BeatOfPhase(s, Listing);
    Interlude(store, run, claim, s, Listing, others(0), b, 0.0, start);
    if ending == Leaves(Listing) {
      return;
    }
    ghost var beat := 0.0;
    for i := 0 to |s.objects|
      invariant ending.Reaches(i)
      invariant run in store.table
      invariant store.table[run] == old(store.table[run]).(heartbeat := Some(claim + beat))
      invariant beat == if i == 0 then 0.0 else BeatOf(s, Handling(i - 1))
      invariant start <= |store.history| && BeatingSince(store.history, start, run)
    {
      BeatEveryFifth(s, i);
      if i % EVERY == 0 {
        ghost var soFar := store.history;
        store.HeartbeatRun(run, claim + Start(s, i));
        BeatingLonger(soFar, store.history, start, run);
        beat := Start(s, i);
      }
      BeatOfPhase(s, Handling(i));
      Interlude(store, run, claim, s, Handling(i), others(i + 1), b, beat, start);
      if ending == Leaves(Handling(i)) {
        return;
      }
    }
    ReapingBeat(s);
    if |s.objects| > 0 {
      BeatEveryFifth(s, |s.objects| - 1);
    }
    BeatOfPhase(s, Reaping);
    Interlude(store, run, claim, s, Reaping, others(|s.objects| + 1), b, beat, start);
    if ending == Leaves(Reaping) {
      return;
    }
    ghost var soFar := store.history;
    store.HeartbeatRun(run, claim + Start(s, |s.objects|) + s.reap);
    BeatingLonger(soFar, store.history, start, run);
    if ending.Finishes? {
      ghost var worked := store.history;
      store.FinishRun(run, ending.state);
      assert store.history[..|store.history| - 1] == worked;
    }
  }

  lemma NothingYet(history: seq<Table>, run: RunId)
    ensures BeatingSince(history, |history|, run)
  {
  }

  lemma ListingBeat(s: Schedule)
    ensures BeatOf(s, Listing) == 0.0
  {
  }

  lemma ReapingBeat(s: Schedule)
    ensures |s.objects| == 0 ==> BeatOf(s, Reaping) == 0.0
  {
  }

  /**
   * A run that its worker drops, because an error left run_sync or the process died, stays
   * running until its last heartbeat is older than the timeout; the first reclaimer after
   * that fails it, and the directory is free.
   */
  lemma DroppedRunIsReclaimed(t: Table, run: RunId, beat: real, now: real, timeout: real)
    requires OneActive(t) && run in t && t[run].state == Running && t[run].heartbeat == Some(beat)
    ensures var u := Reclaim(t, now - timeout);
      && run in u && u[run].state == (if now - beat > timeout then Aborted else Running)
      && (now - beat > timeout <==> !Busy(u, t[run].directory))
  {
    var u, directory := Reclaim(t, now - timeout), t[run].directory;
    if now - beat > timeout {
      forall id | id in u ensures !Holds(u, id, directory) {
        assert u[id].directory == t[id].directory;
      }
    } else {
      assert Holds(u, run, directory);
    }
  }
}
