/**
 * How long run_sync can go without a heartbeat, and so how slow a listing, an
 * object or a reap may be before the reclaimer takes a working run for dead.
 */
module Heartbeat {
  import opened Wrappers
  import opened RunTable

  const EVERY: nat := 5

  /** How long each part of one run takes, from the claim on. */
  datatype Schedule = Schedule(listing: real, objects: seq<real>, reap: real)

  ghost predicate Within(s: Schedule, listing: real, each: real, reap: real) {
    && 0.0 <= s.listing <= listing
    && (forall i :: 0 <= i < |s.objects| ==> 0.0 <= s.objects[i] <= each)
    && 0.0 <= s.reap <= reap
  }

  /** When the i-th object starts, after the claim. */
  function Start(s: Schedule, i: nat): real
    requires i <= |s.objects|
  {
    if i == 0 then s.listing else Start(s, i - 1) + s.objects[i - 1]
  }

  /** The last index up to i at which the loop writes a heartbeat. */
  function BeatIndex(i: nat): nat {
    if i % EVERY == 0 then i else BeatIndex(i - 1)
  }

  /** A moment of a run that is still being worked on. */
  datatype Moment = InListing(at: real) | InObject(index: nat, at: real) | InReap(at: real)

  predicate During(s: Schedule, m: Moment) {
    match m
    case InListing(at) => 0.0 <= at <= s.listing
    case InObject(i, at) => i < |s.objects| && Start(s, i) <= at <= Start(s, i + 1)
    case InReap(at) => Start(s, |s.objects|) <= at <= Start(s, |s.objects|) + s.reap
  }

  /** The heartbeat in the row at that moment; the claim itself writes the first. */
  function LastBeat(s: Schedule, m: Moment): real
    requires During(s, m)
  {
    match m
    case InListing(_) => 0.0
    case InObject(i, _) => BeatIndexBelow(i); Start(s, BeatIndex(i))
    case InReap(_) =>
      if |s.objects| == 0 then 0.0
      else BeatIndexBelow(|s.objects| - 1); Start(s, BeatIndex(|s.objects| - 1))
  }

  lemma BeatIndexBelow(i: nat)
    ensures BeatIndex(i) <= i < BeatIndex(i) + EVERY
    ensures BeatIndex(i) % EVERY == 0
  {
    if i % EVERY != 0 {
      BeatIndexBelow(i - 1);
    }
  }

  function Max(a: real, b: real): real {
    if a < b then b else a
  }

  function WorstAge(listing: real, each: real, reap: real): real {
    Max(listing, 5.0 * each) + reap
  }

  lemma {:induction false} StartsSpread(s: Schedule, k: nat, i: nat, each: real)
    requires k <= i <= |s.objects| && forall j :: 0 <= j < |s.objects| ==> 0.0 <= s.objects[j] <= each
    ensures Start(s, k) <= Start(s, i) <= Start(s, k) + (i - k) as real * each
  {
    if k < i {
      StartsSpread(s, k, i - 1, each);
      assert (i - k) as real * each == (i - 1 - k) as real * each + each;
    }
  }

  lemma FewObjects(n: nat, each: real)
    requires n <= EVERY && 0.0 <= each
    ensures n as real * each <= 5.0 * each
  {
  }

  /** Between two heartbeats of the loop lie at most five objects. */
  lemma SinceBeat(s: Schedule, i: nat, each: real)
    requires i < |s.objects| && forall j :: 0 <= j < |s.objects| ==> 0.0 <= s.objects[j] <= each
    ensures BeatIndex(i) <= i
    ensures Start(s, BeatIndex(i)) <= Start(s, i) <= Start(s, i + 1) <= Start(s, BeatIndex(i)) + 5.0 * each
  {
    hide Start, BeatIndex;
    BeatIndexBelow(i);
    StartsSpread(s, BeatIndex(i), i, each);
    StartsSpread(s, i, i + 1, each);
    StartsSpread(s, BeatIndex(i), i + 1, each);
    assert 0.0 <= s.objects[i] <= each;
    var n: nat := i + 1 - BeatIndex(i);
    FewObjects(n, each);
    assert Start(s, i + 1) <= Start(s, BeatIndex(i)) + n as real * each;
  }

  lemma AgeBound(s: Schedule, m: Moment, listing: real, each: real, reap: real)
    requires Within(s, listing, each, reap) && During(s, m)
    ensures 0.0 <= m.at - LastBeat(s, m) <= WorstAge(listing, each, reap)
  {
    hide BeatIndex;
    match m
    case InListing(_) =>
    case InObject(i, _) => hide Start; SinceBeat(s, i, each);
    case InReap(_) =>
      if |s.objects| > 0 {
        hide Start;
        SinceBeat(s, |s.objects| - 1, each);
      }
  }

  /** The table while the run is worked on: claimed at `claim`, last beat in its row. */
  ghost predicate Working(t: Table, run: RunId, claim: real, s: Schedule, m: Moment) {
    && During(s, m) && run in t && t[run].state == Running
    && t[run].heartbeat == Some(claim + LastBeat(s, m))
  }

  /**
   * A working run is never reclaimed, whenever a reclaimer strikes, as long as the
   * worst age is within the timeout.
   */
  lemma NeverReclaimed(
    t: Table, run: RunId, claim: real, s: Schedule, m: Moment,
    listing: real, each: real, reap: real, timeout: real)
    requires Within(s, listing, each, reap) && Working(t, run, claim, s, m)
    requires WorstAge(listing, each, reap) <= timeout
    ensures run in Reclaim(t, claim + m.at - timeout)
    ensures Reclaim(t, claim + m.at - timeout)[run] == t[run]
  {
    AgeBound(s, m, listing, each, reap);
  }

  /** Some working run, as slow as the bounds allow, is failed by a reclaimer. */
  ghost predicate CanBeReclaimed(listing: real, each: real, reap: real, timeout: real) {
    exists s, m | During(s, m) ::
      && Within(s, listing, each, reap)
      && Stale(Run("", Running, 0.0, Some(LastBeat(s, m))), m.at - timeout)
  }

  lemma FiveObjects(each: real, reap: real)
    requires 0.0 <= each && 0.0 <= reap
    ensures var s := Schedule(0.0, [each, each, each, each, each], reap);
      var m := InReap(5.0 * each + reap);
      During(s, m) && LastBeat(s, m) == 0.0
  {
    var s := Schedule(0.0, [each, each, each, each, each], reap);
    assert Start(s, 1) == each;
    assert Start(s, 2) == 2.0 * each;
    assert Start(s, 3) == 3.0 * each;
    assert Start(s, 4) == 4.0 * each;
    assert Start(s, 5) == 5.0 * each;
    BeatIndexBelow(4);
    assert BeatIndex(4) == 0;
  }

  /** The bound is exact: beyond it there is a run that works and is failed all the same. */
  lemma ReclaimedExactlyBeyond(listing: real, each: real, reap: real, timeout: real)
    requires 0.0 <= listing && 0.0 <= each && 0.0 <= reap
    ensures CanBeReclaimed(listing, each, reap, timeout) <==> WorstAge(listing, each, reap) > timeout
  {
    if WorstAge(listing, each, reap) > timeout {
      if listing < 5.0 * each {
        FiveObjects(each, reap);
        var s := Schedule(0.0, [each, each, each, each, each], reap);
        assert During(s, InReap(5.0 * each + reap)) && Within(s, listing, each, reap);
      } else {
        var s := Schedule(listing, [], reap);
        assert Start(s, 0) == listing;
        assert During(s, InReap(listing + reap)) && Within(s, listing, each, reap);
      }
    } else if CanBeReclaimed(listing, each, reap, timeout) {
      var s, m :| During(s, m) && Within(s, listing, each, reap)
        && Stale(Run("", Running, 0.0, Some(LastBeat(s, m))), m.at - timeout);
      AgeBound(s, m, listing, each, reap);
      assert false;
    }
  }
}
