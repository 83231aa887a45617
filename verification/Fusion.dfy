/**
 * services/api/app/rag/retrieval/user_scoped.py: reciprocal-rank fusion. Scores are
 * exact rationals; floating-point rounding of the sums is not part of the model.
 */
module Fusion {
  import opened Sorting

  datatype Hit = Hit(chunkId: string, sha: string, ordinal: nat, score: real)

  const RRF_K: nat := 60

  function Weight(rank: nat): real {
    1.0 / (RRF_K + rank + 1) as real
  }

  // --- what fusion is meant to compute ----------------------------------------------------------

  /** What one ranking gives a chunk. */
  function Share(ranking: seq<Hit>, id: string): real {
    if ranking == [] then 0.0
    else
      var last := |ranking| - 1;
      Share(ranking[..last], id) + if ranking[last].chunkId == id then Weight(last) else 0.0
  }

  function Score(rankings: seq<seq<Hit>>, id: string): real {
    if rankings == [] then 0.0
    else Score(rankings[..|rankings| - 1], id) + Share(rankings[|rankings| - 1], id)
  }

  function Flat(rankings: seq<seq<Hit>>): seq<Hit> {
    if rankings == [] then [] else Flat(rankings[..|rankings| - 1]) + rankings[|rankings| - 1]
  }

  predicate Mentions(hits: seq<Hit>, id: string) {
    exists i :: 0 <= i < |hits| && hits[i].chunkId == id
  }

  /** The ids in order of first appearance: the iteration order of a dict filled along hits. */
  function FirstSeen(hits: seq<Hit>): (ids: seq<string>)
    ensures Distinct(ids)
    ensures forall id :: id in ids <==> Mentions(hits, id)
  {
    if hits == [] then []
    else
      var front, id := hits[..|hits| - 1], hits[|hits| - 1].chunkId;
      var ids := FirstSeen(front);
      assert forall other :: Mentions(hits, other) <==> Mentions(front, other) || other == id;
      if id in ids then ids else ids + [id]
  }

  function FirstHit(hits: seq<Hit>, id: string): (hit: Hit)
    requires Mentions(hits, id)
    ensures hit.chunkId == id && hit in hits
  {
    if hits[0].chunkId == id then hits[0] else FirstHit(hits[1..], id)
  }

  lemma {:induction false} FirstHitIsFirst(hits: seq<Hit>, id: string)
    requires Mentions(hits, id)
    ensures exists i ::
      && 0 <= i < |hits| && hits[i] == FirstHit(hits, id)
      && forall j :: 0 <= j < i ==> hits[j].chunkId != id
  {
    if hits[0].chunkId != id {
      FirstHitIsFirst(hits[1..], id);
      var i :| 0 <= i < |hits[1..]| && hits[1..][i] == FirstHit(hits[1..], id)
        && forall j :: 0 <= j < i ==> hits[1..][j].chunkId != id;
      assert hits[i + 1] == FirstHit(hits, id);
      forall j | 0 <= j < i + 1 ensures hits[j].chunkId != id {
        assert j > 0 ==> hits[1..][j - 1] == hits[j];
      }
    }
  }

  // --- _rrf -------------------------------------------------------------------------------------------

  function ScoreMap(rankings: seq<seq<Hit>>): (score: map<string, real>)
    ensures score.Keys == set id | id in FirstSeen(Flat(rankings))
  {
    map id | id in FirstSeen(Flat(rankings)) :: Score(rankings, id)
  }

  /** The ids of the fused ranking. */
  function FusedIds(rankings: seq<seq<Hit>>): (ids: seq<string>)
    ensures forall id :: id in ids <==> Mentions(Flat(rankings), id)
  {
    SortDescending(FirstSeen(Flat(rankings)), ScoreMap(rankings))
  }

  function Fused(rankings: seq<seq<Hit>>): seq<Hit> {
    var ids := FusedIds(rankings);
    seq(|ids|, i requires 0 <= i < |ids| => FirstHit(Flat(rankings), ids[i]))
  }

  method Rrf(rankings: seq<seq<Hit>>) returns (fused: seq<Hit>)
    ensures fused == Fused(rankings)
  {
    hide SortDescending, Tallied, FirstSeen, FirstHit, Flat, Share, Score, ScoreMap, Mentions;
    // A Python dict iterates in insertion order: keys beside the map of scores.
    var keys: seq<string>, scored: map<string, real>, seen: map<string, Hit> := [], map[], map[];
    NothingTallied();
    assert rankings[..0] == [];
    for i := 0 to |rankings|
      invariant Tallied(keys, scored, seen, rankings[..i], [])
    {
      var ranking := rankings[i];
      assert ranking[..0] == [];
      for rank := 0 to |ranking|
        invariant Tallied(keys, scored, seen, rankings[..i], ranking[..rank])
      {
        var hit := ranking[rank];
        TallyOne(keys, scored, seen, rankings[..i], ranking[..rank], hit);
        var soFar := if hit.chunkId in scored then scored[hit.chunkId] else 0.0;
        if hit.chunkId !in scored {
          keys := keys + [hit.chunkId];
        }
        scored := scored[hit.chunkId := soFar + Weight(rank)];
        seen := if hit.chunkId in seen then seen else seen[hit.chunkId := hit];
        assert ranking[..rank + 1] == ranking[..rank] + [hit];
      }
      assert ranking[..|ranking|] == ranking;
      TallyRanking(keys, scored, seen, rankings[..i], ranking);
      assert rankings[..i + 1] == rankings[..i] + [ranking];
    }
    assert rankings[..|rankings|] == rankings;
    TallyDone(keys, scored, seen, rankings);
    var order := SortDescending(keys, scored);
    fused := seq(|order|, i requires 0 <= i < |order| => assert order[i] in order; seen[order[i]]);
  }

  /** The three variables after the rankings in done and the front of the next one. */
  ghost predicate Tallied(
    keys: seq<string>, scored: map<string, real>, seen: map<string, Hit>,
    done: seq<seq<Hit>>, front: seq<Hit>)
  {
    && keys == FirstSeen(Flat(done) + front)
    && (forall id :: id in scored <==> id in keys)
    && (forall id :: id in seen <==> id in keys)
    && (forall id :: (if id in scored then scored[id] else 0.0) == Score(done, id) + Share(front, id))
    && (forall id :: id in seen ==> seen[id] == FirstHit(Flat(done) + front, id))
  }

  lemma NothingTallied()
    ensures Tallied([], map[], map[], [], [])
  {
  }

  lemma TallyOne(
    keys: seq<string>, scored: map<string, real>, seen: map<string, Hit>,
    done: seq<seq<Hit>>, front: seq<Hit>, hit: Hit)
    requires Tallied(keys, scored, seen, done, front)
    ensures var id := hit.chunkId;
      Tallied(
        if id in scored then keys else keys + [id],
        scored[id := (if id in scored then scored[id] else 0.0) + Weight(|front|)],
        if id in seen then seen else seen[id := hit],
        done, front + [hit])
  {
    hide FirstSeen, FirstHit, Flat, Share, Score, Mentions, Weight;
    var was := Flat(done) + front;
    assert Flat(done) + (front + [hit]) == was + [hit];
    SeenGrows(was, hit);
    ShareGrows(front, hit);
    forall id | Mentions(was + [hit], id)
      ensures FirstHit(was + [hit], id) == if Mentions(was, id) then FirstHit(was, id) else hit
    {
      FirstHitGrows(was, hit, id);
    }
  }

  lemma SeenGrows(hits: seq<Hit>, hit: Hit)
    ensures FirstSeen(hits + [hit]) ==
      if hit.chunkId in FirstSeen(hits) then FirstSeen(hits) else FirstSeen(hits) + [hit.chunkId]
    ensures forall id :: Mentions(hits + [hit], id) <==> Mentions(hits, id) || id == hit.chunkId
  {
    assert (hits + [hit])[..|hits|] == hits;
    forall id ensures Mentions(hits + [hit], id) <==> Mentions(hits, id) || id == hit.chunkId {
      MentionsConcat(hits, [hit], id);
      assert [hit][0].chunkId == hit.chunkId;
    }
  }

  lemma ShareGrows(front: seq<Hit>, hit: Hit)
    ensures forall id ::
      Share(front + [hit], id) == Share(front, id) + (if hit.chunkId == id then Weight(|front|) else 0.0)
  {
    assert (front + [hit])[..|front|] == front;
  }

  lemma {:induction false} FirstHitGrows(hits: seq<Hit>, hit: Hit, id: string)
    requires Mentions(hits + [hit], id)
    ensures FirstHit(hits + [hit], id) == if Mentions(hits, id) then FirstHit(hits, id) else hit
  {
    var now := hits + [hit];
    if hits != [] && hits[0].chunkId != id {
      assert now[1..] == hits[1..] + [hit];
      var i :| 0 <= i < |now| && now[i].chunkId == id;
      assert now[1..][i - 1].chunkId == id;
      FirstHitGrows(hits[1..], hit, id);
      assert Mentions(hits, id) ==> Mentions(hits[1..], id) by {
        if Mentions(hits, id) {
          var j :| 0 <= j < |hits| && hits[j].chunkId == id;
          assert hits[1..][j - 1].chunkId == id;
        }
      }
      assert Mentions(hits[1..], id) ==> Mentions(hits, id);
    }
  }

  lemma TallyRanking(
    keys: seq<string>, scored: map<string, real>, seen: map<string, Hit>,
    done: seq<seq<Hit>>, ranking: seq<Hit>)
    requires Tallied(keys, scored, seen, done, ranking)
    ensures Tallied(keys, scored, seen, done + [ranking], [])
  {
    hide FirstSeen, FirstHit, Share;
    var now := done + [ranking];
    assert now[..|now| - 1] == done;
    assert Flat(now) + [] == Flat(done) + ranking;
    assert forall id :: Share([], id) == 0.0 by {
      EmptyShare();
    }
  }

  lemma EmptyShare()
    ensures forall id :: Share([], id) == 0.0
  {
  }

  lemma TallyDone(
    keys: seq<string>, scored: map<string, real>, seen: map<string, Hit>, rankings: seq<seq<Hit>>)
    requires Tallied(keys, scored, seen, rankings, [])
    ensures keys == FirstSeen(Flat(rankings)) && scored == ScoreMap(rankings)
    ensures forall id :: id in keys ==> id in seen && seen[id] == FirstHit(Flat(rankings), id)
  {
    hide FirstSeen, FirstHit;
    assert Flat(rankings) + [] == Flat(rankings);
  }

  // --- what the fused ranking is ------------------------------------------------------------------------

  /** Each chunk of the union once, shown by the first hit that named it. */
  lemma FusionIsTheUnion(rankings: seq<seq<Hit>>)
    ensures Distinct(FusedIds(rankings))
    ensures forall id :: id in FusedIds(rankings) <==>
      exists r :: 0 <= r < |rankings| && Mentions(rankings[r], id)
    ensures |Fused(rankings)| == |FusedIds(rankings)|
    ensures forall i :: 0 <= i < |Fused(rankings)| ==> Fused(rankings)[i].chunkId == FusedIds(rankings)[i]
  {
    DistinctIsOneEach(FirstSeen(Flat(rankings)));
    DistinctIsOneEach(FusedIds(rankings));
    forall id
      ensures Mentions(Flat(rankings), id) <==> exists r :: 0 <= r < |rankings| && Mentions(rankings[r], id)
    {
      FlatMentions(rankings, id);
    }
  }

  lemma {:induction false} FlatMentions(rankings: seq<seq<Hit>>, id: string)
    ensures Mentions(Flat(rankings), id) <==> exists r :: 0 <= r < |rankings| && Mentions(rankings[r], id)
  {
    if rankings != [] {
      var front, last := rankings[..|rankings| - 1], rankings[|rankings| - 1];
      FlatMentions(front, id);
      MentionsConcat(Flat(front), last, id);
      if exists r :: 0 <= r < |rankings| && Mentions(rankings[r], id) {
        var r :| 0 <= r < |rankings| && Mentions(rankings[r], id);
        assert r < |front| ==> front[r] == rankings[r];
      }
      if exists r :: 0 <= r < |front| && Mentions(front[r], id) {
        var r :| 0 <= r < |front| && Mentions(front[r], id);
        assert front[r] == rankings[r];
      }
    }
  }

  lemma MentionsConcat(a: seq<Hit>, b: seq<Hit>, id: string)
    ensures Mentions(a + b, id) <==> Mentions(a, id) || Mentions(b, id)
  {
    if Mentions(a, id) {
      var i :| 0 <= i < |a| && a[i].chunkId == id;
      assert (a + b)[i].chunkId == id;
    }
    if Mentions(b, id) {
      var i :| 0 <= i < |b| && b[i].chunkId == id;
      assert (a + b)[|a| + i].chunkId == id;
    }
  }

  /** The order, exactly: by score, ties by first appearance. */
  lemma OrderExactly(rankings: seq<seq<Hit>>, a: string, b: string)
    requires a in FusedIds(rankings) && b in FusedIds(rankings) && a != b
    ensures Before(FusedIds(rankings), a, b) <==>
      || Score(rankings, a) > Score(rankings, b)
      || (Score(rankings, a) == Score(rankings, b) && Before(FirstSeen(Flat(rankings)), a, b))
  {
    var ids, score := FirstSeen(Flat(rankings)), ScoreMap(rankings);
    SortIsOrdered(ids, score);
    FusionIsTheUnion(rankings);
    hide SortDescending;
    DistinctOrder(ids, a, b);
    DistinctOrder(FusedIds(rankings), a, b);
    assert Before(FusedIds(rankings), a, b) ==> Precedes(ids, score, a, b);
    assert Before(FusedIds(rankings), b, a) ==> Precedes(ids, score, b, a);
  }

  // --- bounds for duplicate-free rankings -----------------------------------------------------------------

  ghost predicate DuplicateFree(ranking: seq<Hit>) {
    forall i, j :: 0 <= i < j < |ranking| ==> ranking[i].chunkId != ranking[j].chunkId
  }

  lemma {:induction false} ShareOfAbsent(ranking: seq<Hit>, id: string)
    requires !Mentions(ranking, id)
    ensures Share(ranking, id) == 0.0
  {
    if ranking != [] {
      var front := ranking[..|ranking| - 1];
      assert forall i :: 0 <= i < |front| ==> front[i] == ranking[i];
      ShareOfAbsent(front, id);
    }
  }

  lemma {:induction false} ShareOfRanked(ranking: seq<Hit>, rank: nat)
    requires DuplicateFree(ranking) && rank < |ranking|
    ensures Share(ranking, ranking[rank].chunkId) == Weight(rank)
  {
    var front := ranking[..|ranking| - 1];
    if rank == |ranking| - 1 {
      ShareOfAbsent(front, ranking[rank].chunkId);
    } else {
      ShareOfRanked(front, rank);
    }
  }

  lemma WeightFalls(a: nat, b: nat)
    requires a < b
    ensures Weight(a) > Weight(b) > 0.0
  {
    ReciprocalFalls((RRF_K + a + 1) as real, (RRF_K + b + 1) as real);
  }

  lemma ReciprocalFalls(x: real, y: real)
    requires 0.0 < x < y
    ensures 1.0 / x > 1.0 / y > 0.0
  {
    var u, v := 1.0 / x, 1.0 / y;
    assert u * x == 1.0 && v * y == 1.0;
    if v <= 0.0 {
      Scale(v, 0.0, y);
    }
    Scale(x, y, v);
    if u <= v {
      Scale(u, v, x);
    }
  }

  lemma Scale(a: real, b: real, c: real)
    requires c > 0.0
    ensures a <= b ==> a * c <= b * c
    ensures a < b ==> a * c < b * c
  {
  }

  /** Wherever b is ranked, a is ranked higher. */
  ghost predicate NeverBehind(ranking: seq<Hit>, a: string, b: string) {
    forall j :: 0 <= j < |ranking| && ranking[j].chunkId == b ==>
      exists i :: 0 <= i < j && ranking[i].chunkId == a
  }

  lemma ShareDominates(ranking: seq<Hit>, a: string, b: string)
    requires DuplicateFree(ranking) && NeverBehind(ranking, a, b)
    ensures Share(ranking, a) >= Share(ranking, b)
    ensures Mentions(ranking, a) ==> Share(ranking, a) > Share(ranking, b)
  {
    if Mentions(ranking, b) {
      var j :| 0 <= j < |ranking| && ranking[j].chunkId == b;
      var i :| 0 <= i < j && ranking[i].chunkId == a;
      ShareOfRanked(ranking, i);
      ShareOfRanked(ranking, j);
      WeightFalls(i, j);
    } else {
      ShareOfAbsent(ranking, b);
      if Mentions(ranking, a) {
        var i :| 0 <= i < |ranking| && ranking[i].chunkId == a;
        ShareOfRanked(ranking, i);
        WeightFalls(i, i + 1);
      } else {
        ShareOfAbsent(ranking, a);
      }
    }
  }

  lemma {:induction false} ScoreDominates(rankings: seq<seq<Hit>>, a: string, b: string)
    requires forall r :: 0 <= r < |rankings| ==> DuplicateFree(rankings[r]) && NeverBehind(rankings[r], a, b)
    ensures Score(rankings, a) >= Score(rankings, b)
    ensures (exists r :: 0 <= r < |rankings| && Mentions(rankings[r], a)) ==>
      Score(rankings, a) > Score(rankings, b)
  {
    if rankings != [] {
      var front, last := rankings[..|rankings| - 1], rankings[|rankings| - 1];
      ScoreDominates(front, a, b);
      ShareDominates(last, a, b);
      if exists r :: 0 <= r < |rankings| && Mentions(rankings[r], a) {
        var r :| 0 <= r < |rankings| && Mentions(rankings[r], a);
        assert r < |front| ==> front[r] == rankings[r];
      }
    }
  }

  /** A chunk at least as good in every ranking, and ranked in one, comes first. */
  lemma DominatorComesFirst(rankings: seq<seq<Hit>>, a: string, b: string)
    requires forall r :: 0 <= r < |rankings| ==> DuplicateFree(rankings[r]) && NeverBehind(rankings[r], a, b)
    requires a in FusedIds(rankings) && b in FusedIds(rankings) && a != b
    ensures Before(FusedIds(rankings), a, b)
  {
    FusionIsTheUnion(rankings);
    ScoreDominates(rankings, a, b);
    OrderExactly(rankings, a, b);
  }

  /** The last ranks of both sides together outweigh one first place. */
  ghost predicate TwoOutweighOne(m: nat, n: nat)
    requires m > 0 && n > 0
  {
    Weight(m - 1) + Weight(n - 1) > Weight(0)
  }

  ghost predicate BothAndOne(first: seq<Hit>, second: seq<Hit>, a: string, b: string) {
    && DuplicateFree(first) && DuplicateFree(second)
    && Mentions(first, a) && Mentions(second, a)
    && Mentions(first, b) != Mentions(second, b)
  }

  /** Then two mentions beat one, at whatever ranks. */
  lemma TwoMentionsWin(first: seq<Hit>, second: seq<Hit>, a: string, b: string)
    requires first != [] && second != [] && TwoOutweighOne(|first|, |second|)
    requires BothAndOne(first, second, a, b)
    ensures Before(FusedIds([first, second]), a, b)
  {
    var both := [first, second];
    hide FusedIds, Share, Weight, Score;
    FusionIsTheUnion(both);
    assert Mentions(both[0], a) && (Mentions(both[0], b) || Mentions(both[1], b));
    ScoreOfTwo(first, second, a);
    ScoreOfTwo(first, second, b);
    LowestShare(first, a);
    LowestShare(second, a);
    HighestShare(first, b);
    HighestShare(second, b);
    OrderExactly(both, a, b);
  }

  /** With at most 61 entries a side they always do. */
  lemma BothBeatOne(first: seq<Hit>, second: seq<Hit>, a: string, b: string)
    requires |first| <= 61 && |second| <= 61 && BothAndOne(first, second, a, b)
    ensures Before(FusedIds([first, second]), a, b)
  {
    LightestOfSixtyOne(|first|);
    LightestOfSixtyOne(|second|);
    TwoMentionsWin(first, second, a, b);
  }

  lemma LightestOfSixtyOne(n: nat)
    requires 0 < n <= 61
    ensures Weight(n - 1) + Weight(n - 1) > Weight(0) && Weight(n - 1) >= 1.0 / 121.0
  {
    if n < 61 {
      WeightFalls(n - 1, 60);
    }
  }

  lemma ScoreOfTwo(first: seq<Hit>, second: seq<Hit>, id: string)
    ensures Score([first, second], id) == Share(first, id) + Share(second, id)
  {
    var both := [first, second];
    assert both[..1] == [first] && [first][..0] == [];
    assert Score([first], id) == Share(first, id);
  }

  lemma LowestShare(ranking: seq<Hit>, id: string)
    requires DuplicateFree(ranking) && Mentions(ranking, id)
    ensures Share(ranking, id) >= Weight(|ranking| - 1)
  {
    var rank :| 0 <= rank < |ranking| && ranking[rank].chunkId == id;
    ShareOfRanked(ranking, rank);
    if rank < |ranking| - 1 {
      WeightFalls(rank, |ranking| - 1);
    }
  }

  lemma HighestShare(ranking: seq<Hit>, id: string)
    requires DuplicateFree(ranking)
    ensures Share(ranking, id) <= Weight(0)
    ensures !Mentions(ranking, id) ==> Share(ranking, id) == 0.0
  {
    if Mentions(ranking, id) {
      var rank :| 0 <= rank < |ranking| && ranking[rank].chunkId == id;
      ShareOfRanked(ranking, rank);
      if rank > 0 {
        WeightFalls(0, rank);
      }
    } else {
      ShareOfAbsent(ranking, id);
    }
  }

  // --- and exactly then ------------------------------------------------------------------------------------

  function Filler(c: char, n: nat): seq<Hit> {
    seq(n, i requires 0 <= i < n => Hit(seq(i + 2, _ => c), "", 0, 0.0))
  }

  function TiedFirst(n: nat): seq<Hit> {
    [Hit("b", "", 0, 0.0)] + Filler('x', n) + [Hit("a", "", 0, 0.0)]
  }

  function TiedSecond(n: nat): seq<Hit> {
    Filler('y', n) + [Hit("a", "", 0, 0.0)]
  }

  lemma FillerIds(c: char, n: nat, i: nat)
    requires i < n
    ensures Filler(c, n)[i].chunkId != "a" && Filler(c, n)[i].chunkId != "b"
    ensures |Filler(c, n)[i].chunkId| == i + 2
  {
  }

  lemma TiedRankings(m: nat, n: nat)
    ensures |TiedFirst(m)| == m + 2 && |TiedSecond(n)| == n + 1
    ensures BothAndOne(TiedFirst(m), TiedSecond(n), "a", "b")
    ensures TiedFirst(m)[0].chunkId == "b" && !Mentions(TiedSecond(n), "b")
    ensures TiedFirst(m)[m + 1].chunkId == TiedSecond(n)[n].chunkId == "a"
  {
    var first, second := TiedFirst(m), TiedSecond(n);
    forall i | 0 < i <= m ensures |first[i].chunkId| == i + 1 {
      FillerIds('x', m, i - 1);
      assert first[i] == Filler('x', m)[i - 1];
    }
    forall i | 0 <= i < n ensures |second[i].chunkId| == i + 2 && second[i].chunkId != "b" {
      FillerIds('y', n, i);
      assert second[i] == Filler('y', n)[i];
    }
    assert first[0].chunkId == "b" && first[m + 1].chunkId == "a" && second[n].chunkId == "a";
    hide Filler;
  }

  /** Otherwise there are rankings of those lengths in which one mention beats two. */
  lemma OneMentionWins(m: nat, n: nat)
    requires m > 0 && n > 0 && !TwoOutweighOne(m, n)
    ensures m > 1
    ensures |TiedFirst(m - 2)| == m && |TiedSecond(n - 1)| == n
    ensures BothAndOne(TiedFirst(m - 2), TiedSecond(n - 1), "a", "b")
    ensures Before(FusedIds([TiedFirst(m - 2), TiedSecond(n - 1)]), "b", "a")
  {
    WeightFalls(n - 1, n);
    assert m > 1;
    TiedRankings(m - 2, n - 1);
    hide TiedFirst, TiedSecond, Weight;
    OneBeatsBoth(TiedFirst(m - 2), TiedSecond(n - 1), "a", "b");
  }

  lemma OneBeatsBoth(first: seq<Hit>, second: seq<Hit>, a: string, b: string)
    requires first != [] && second != [] && !TwoOutweighOne(|first|, |second|) && BothAndOne(first, second, a, b)
    requires first[0].chunkId == b && !Mentions(second, b) && a != b
    requires first[|first| - 1].chunkId == second[|second| - 1].chunkId == a
    ensures Before(FusedIds([first, second]), b, a)
  {
    hide FusedIds, FirstSeen, Weight, Flat, Share, Score;
    var both := [first, second];
    ShareOfRanked(first, 0);
    ShareOfRanked(first, |first| - 1);
    ShareOfRanked(second, |second| - 1);
    ShareOfAbsent(second, b);
    ScoreOfTwo(first, second, a);
    ScoreOfTwo(first, second, b);
    assert Mentions(both[0], a) && Mentions(both[0], b);
    FusionIsTheUnion(both);
    FirstIdFirst(both);
    OrderExactly(both, b, a);
  }

  /** For all rankings of these lengths, found by both sides comes before found by one. */
  ghost predicate BothAlwaysFirst(m: nat, n: nat) {
    forall first, second, a, b ::
      |first| == m && |second| == n && BothAndOne(first, second, a, b) ==>
        Before(FusedIds([first, second]), a, b)
  }

  /** The exact condition: with m and n entries a side, if and only if 1/(60+m) + 1/(60+n) > 1/61. */
  lemma BothFirstExactly(m: nat, n: nat)
    requires m > 0 && n > 0
    ensures BothAlwaysFirst(m, n) <==> TwoOutweighOne(m, n)
  {
    hide FusedIds, TiedFirst, TiedSecond, Weight;
    if TwoOutweighOne(m, n) {
      forall first, second, a, b | |first| == m && |second| == n && BothAndOne(first, second, a, b)
        ensures Before(FusedIds([first, second]), a, b)
      {
        TwoMentionsWin(first, second, a, b);
      }
    } else {
      OneMentionWins(m, n);
      var first, second := TiedFirst(m - 2), TiedSecond(n - 1);
      FusionIsTheUnion([first, second]);
      assert Mentions([first, second][0], "a") && Mentions([first, second][0], "b") by {
        TiedRankings(m - 2, n - 1);
      }
      DistinctOrder(FusedIds([first, second]), "a", "b");
    }
  }

  /** At equal lengths 61 is the last that does. */
  lemma SixtyOneIsTheLast(n: nat)
    requires n > 0
    ensures TwoOutweighOne(n, n) <==> n <= 61
  {
    if n <= 61 {
      LightestOfSixtyOne(n);
    } else if n > 62 {
      WeightFalls(61, n - 1);
    }
  }

  /** The id of the very first hit is the first one seen. */
  lemma FirstIdFirst(rankings: seq<seq<Hit>>)
    requires |rankings| == 2 && rankings[0] != []
    ensures forall id :: Mentions(Flat(rankings), id) && id != rankings[0][0].chunkId ==>
      Before(FirstSeen(Flat(rankings)), rankings[0][0].chunkId, id)
  {
    assert rankings[..1] == [rankings[0]] && [rankings[0]][..0] == [];
    assert Flat([rankings[0]]) == rankings[0];
    var hits := Flat(rankings);
    assert hits[0] == rankings[0][0];
    HeadSeenFirst(hits);
  }

  lemma {:induction false} HeadSeenFirst(hits: seq<Hit>)
    requires hits != []
    ensures FirstSeen(hits) != [] && FirstSeen(hits)[0] == hits[0].chunkId
  {
    if |hits| > 1 {
      HeadSeenFirst(hits[..|hits| - 1]);
    } else {
      assert hits[..0] == [];
      assert FirstSeen(hits[..0]) == [];
    }
  }
}
