/**
 * services/api/app/rag/retrieval/user_scoped.py: the sparse index of each user, rebuilt
 * when the number of chunks changes, and the retrieval entry point.
 */
module SparseCache {
  import opened Wrappers
  import opened Text
  import opened Content
  import opened Store
  import opened Invariant
  import opened Fusion
  import opened Sorting
  import Documents
  import Ladder
  import Reachable
  import Retrieval

  datatype ChunkRow = ChunkRow(sha: Sha, ordinal: nat, text: string)

  // --- get_user_chunks: ORDER BY sha256, ordinal --------------------------------------------------

  function Held(t: Tables, user: User): set<Sha> {
    set h | h in t.holds && h.user == user :: h.sha
  }

  lemma {:induction false} LeastExists(shas: set<Sha>) returns (least: Sha)
    requires shas != {}
    ensures least in shas && forall sha :: sha in shas ==> TextLe(least, sha)
  {
    least :| least in shas;
    TextLeTotal(least, least);
    if shas != {least} {
      var rest := LeastExists(shas - {least});
      TextLeTotal(least, rest);
      if !TextLe(least, rest) {
        least := rest;
      } else {
        forall sha | sha in shas ensures TextLe(least, sha) {
          if sha != least {
            TextLeTransitive(least, rest, sha);
          }
        }
      }
    }
  }

  predicate IsLeast(shas: set<Sha>, least: Sha) {
    least in shas && forall sha :: sha in shas ==> TextLe(least, sha)
  }

  lemma LeastIsUnique(shas: set<Sha>)
    requires shas != {}
    ensures exists least :: IsLeast(shas, least)
    ensures forall a, b :: IsLeast(shas, a) && IsLeast(shas, b) ==> a == b
  {
    var least := LeastExists(shas);
    assert IsLeast(shas, least);
    forall a, b | IsLeast(shas, a) && IsLeast(shas, b) ensures a == b {
      TextLeTotal(a, b);
    }
  }

  function Least(shas: set<Sha>): (least: Sha)
    requires shas != {}
    ensures IsLeast(shas, least)
  {
    LeastIsUnique(shas);
    var least :| least in shas && IsLeast(shas, least);
    least
  }

  function RowsOf(sha: Sha, texts: seq<string>): (rows: seq<ChunkRow>)
    ensures |rows| == |texts|
  {
    seq(|texts|, i requires 0 <= i < |texts| => ChunkRow(sha, i, texts[i]))
  }

  function Rows(t: Tables, shas: set<Sha>): seq<ChunkRow>
    decreases |shas|
  {
    if shas == {} then []
    else RowsOf(Least(shas), ChunkRows(t, Least(shas))) + Rows(t, shas - {Least(shas)})
  }

  function UserChunks(t: Tables, user: User): seq<ChunkRow> {
    Rows(t, Held(t, user))
  }

  // --- _sparse_index ------------------------------------------------------------------------------------

  datatype Built<Index> = Built(count: nat, index: Index, chunks: seq<ChunkRow>)

  /** The rows whose index is in force when the user's chunks are rows: the count test. */
  function InForce<Index>(cached: Option<Built<Index>>, rows: seq<ChunkRow>): seq<ChunkRow> {
    if cached.Some? && cached.value.count == |rows| then cached.value.chunks else rows
  }

  function TextsOf(rows: seq<ChunkRow>): seq<string> {
    seq(|rows|, i requires 0 <= i < |rows| => rows[i].text)
  }

  // --- _sparse_hits: the k best rows, as far as their score is positive --------------------------------

  function Range(n: nat): (r: seq<nat>)
    ensures |r| == n && forall i :: 0 <= i < n ==> r[i] == i
  {
    seq(n, i => i)
  }

  function Ranking(n: nat, score: nat -> real): (order: seq<nat>)
    ensures |order| == n && forall p :: 0 <= p < n ==> order[p] < n
  {
    var order := SortDescending(Range(n), map i: nat | i < n :: score(i));
    assert forall p :: 0 <= p < n ==> order[p] in order;
    order
  }

  function Top(n: nat, score: nat -> real, k: nat): (top: seq<nat>)
    ensures forall p :: 0 <= p < |top| ==> top[p] < n
  {
    var order := Ranking(n, score);
    if k < n then order[..k] else order
  }

  function HitOf(rows: seq<ChunkRow>, score: nat -> real, i: nat): Hit
    requires i < |rows|
  {
    Hit(Retrieval.ChunkId(ChunkRef(rows[i].sha, rows[i].ordinal)), rows[i].sha, rows[i].ordinal, score(i))
  }

  function Positive(rows: seq<ChunkRow>, score: nat -> real, top: seq<nat>): seq<Hit>
    requires forall p :: 0 <= p < |top| ==> top[p] < |rows|
  {
    if top == [] then []
    else
      var last := top[|top| - 1];
      Positive(rows, score, top[..|top| - 1]) + if score(last) > 0.0 then [HitOf(rows, score, last)] else []
  }

  function HitsFrom(rows: seq<ChunkRow>, score: nat -> real, k: nat): seq<Hit> {
    Positive(rows, score, Top(|rows|, score, k))
  }

  /** Along falling scores the positive ones come first. */
  lemma {:induction false} PositiveIsAPrefix(rows: seq<ChunkRow>, score: nat -> real, top: seq<nat>) returns (m: nat)
    requires forall p :: 0 <= p < |top| ==> top[p] < |rows|
    requires forall i, j :: 0 <= i < j < |top| ==> score(top[i]) >= score(top[j])
    ensures m == |Positive(rows, score, top)| <= |top|
    ensures forall i :: 0 <= i < m ==>
      score(top[i]) > 0.0 && Positive(rows, score, top)[i] == HitOf(rows, score, top[i])
    ensures forall i :: m <= i < |top| ==> score(top[i]) <= 0.0
  {
    hide HitOf;
    if top == [] {
      m := 0;
    } else {
      var front, last := top[..|top| - 1], top[|top| - 1];
      m := PositiveIsAPrefix(rows, score, front);
      PositiveStep(rows, score, top);
      hide Positive;
      if m < |front| {
        assert score(front[m]) <= 0.0 && score(top[m]) >= score(last);
      } else if score(last) > 0.0 {
        m := m + 1;
      }
    }
  }

  lemma HitsOfNone(score: nat -> real, k: nat)
    ensures HitsFrom([], score, k) == []
  {
  }

  lemma PositiveStep(rows: seq<ChunkRow>, score: nat -> real, top: seq<nat>)
    requires top != [] && forall p :: 0 <= p < |top| ==> top[p] < |rows|
    ensures var last := top[|top| - 1];
      Positive(rows, score, top) ==
        Positive(rows, score, top[..|top| - 1]) + if score(last) > 0.0 then [HitOf(rows, score, last)] else []
  {
  }

  lemma RankingFalls(n: nat, score: nat -> real)
    ensures var order := Ranking(n, score);
      && (forall i, j :: 0 <= i < j < n ==> score(order[i]) >= score(order[j]))
      && Distinct(order) && forall i: nat :: i < n ==> i in order
  {
    var scores := map i: nat | i < n :: score(i);
    SortIsOrdered(Range(n), scores);
    DistinctIsOneEach(Range(n));
    DistinctIsOneEach(Ranking(n, score));
    hide SortDescending;
    var order := Ranking(n, score);
    forall i, j | 0 <= i < j < n ensures score(order[i]) >= score(order[j]) {
      assert Precedes(Range(n), scores, order[i], order[j]);
      assert order[i] in order && order[j] in order;
    }
    forall i: nat | i < n ensures i in order {
      assert Range(n)[i] == i;
    }
  }

  /**
   * The best k: hits have positive scores, best first, no two for one row; and a row with
   * a positive score is left out only when k hits at least as good are there.
   */
  lemma BestHits(rows: seq<ChunkRow>, score: nat -> real, k: nat)
    requires DistinctRows(rows)
    ensures var hits := HitsFrom(rows, score, k);
      && |hits| <= k && DuplicateFree(hits)
      && (forall i, j :: 0 <= i < j < |hits| ==> hits[i].score >= hits[j].score)
      && (forall i :: 0 <= i < |hits| ==> hits[i].score > 0.0)
      && (forall r: nat :: r < |rows| && score(r) > 0.0 ==>
            || HitOf(rows, score, r) in hits
            || (|hits| == k && forall i :: 0 <= i < k ==> hits[i].score >= score(r)))
  {
    hide HitsFrom, Ranking, HitOf;
    var order, hits := Ranking(|rows|, score), HitsFrom(rows, score, k);
    RankingFalls(|rows|, score);
    HitsAreTheTop(rows, score, k);
    HitFacts(rows, score);
    NoRowTwice(rows, score, k);
    forall r: nat | r < |rows| && score(r) > 0.0
      ensures HitOf(rows, score, r) in hits
        || (|hits| == k && forall i :: 0 <= i < k ==> hits[i].score >= score(r))
    {
      assert r in order;
      var p :| 0 <= p < |rows| && order[p] == r;
      if p < |hits| {
        assert hits[p] == HitOf(rows, score, r);
      }
    }
  }

  lemma NoRowTwice(rows: seq<ChunkRow>, score: nat -> real, k: nat)
    requires DistinctRows(rows)
    ensures DuplicateFree(HitsFrom(rows, score, k))
  {
    hide HitsFrom, Ranking, HitOf, Retrieval.ChunkId;
    var order, hits := Ranking(|rows|, score), HitsFrom(rows, score, k);
    RankingFalls(|rows|, score);
    HitsAreTheTop(rows, score, k);
    HitFacts(rows, score);
    forall i, j | 0 <= i < j < |hits| ensures hits[i].chunkId != hits[j].chunkId {
      assert order[i] != order[j];
      RowsDiffer(rows, order[i], order[j]);
    }
  }

  /** The hits are the front of the ranking, down to the k-th row or the last positive one. */
  lemma HitsAreTheTop(rows: seq<ChunkRow>, score: nat -> real, k: nat)
    ensures var hits, order := HitsFrom(rows, score, k), Ranking(|rows|, score);
      && |hits| <= |rows| && |hits| <= k
      && (forall i :: 0 <= i < |hits| ==> score(order[i]) > 0.0 && hits[i] == HitOf(rows, score, order[i]))
      && (|hits| < k ==> forall i :: |hits| <= i < |rows| ==> score(order[i]) <= 0.0)
  {
    RankingFalls(|rows|, score);
    hide Ranking, HitOf;
    var top := Top(|rows|, score, k);
    var m := PositiveIsAPrefix(rows, score, top);
    assert forall i :: 0 <= i < |top| ==> top[i] == Ranking(|rows|, score)[i];
    if m < |top| {
      assert score(top[m]) <= 0.0;
    }
  }

  lemma HitFacts(rows: seq<ChunkRow>, score: nat -> real)
    ensures forall i: nat :: i < |rows| ==>
      && HitOf(rows, score, i).score == score(i)
      && HitOf(rows, score, i).chunkId == Retrieval.ChunkId(ChunkRef(rows[i].sha, rows[i].ordinal))
  {
  }

  ghost predicate DistinctRows(rows: seq<ChunkRow>) {
    forall i, j :: 0 <= i < j < |rows| ==> rows[i].sha != rows[j].sha || rows[i].ordinal != rows[j].ordinal
  }

  lemma RowsDiffer(rows: seq<ChunkRow>, i: nat, j: nat)
    requires DistinctRows(rows) && i < |rows| && j < |rows| && i != j
    ensures Retrieval.ChunkId(ChunkRef(rows[i].sha, rows[i].ordinal))
      != Retrieval.ChunkId(ChunkRef(rows[j].sha, rows[j].ordinal))
  {
    Retrieval.ChunkIdInjective(
      ChunkRef(rows[i].sha, rows[i].ordinal), ChunkRef(rows[j].sha, rows[j].ordinal));
  }

  /** build stands for tokenising and BM25Okapi, score for get_scores at one row. */
  class Indexes<Index> {
    const build: seq<string> -> Index
    const score: (Index, string, nat) -> real
    var cache: map<User, Built<Index>>

    ghost predicate Valid()
      reads this
    {
      forall user :: user in cache ==>
        && cache[user].count == |cache[user].chunks| > 0
        && cache[user].index == build(TextsOf(cache[user].chunks))
        && DistinctRows(cache[user].chunks)
    }

    constructor (build: seq<string> -> Index, score: (Index, string, nat) -> real)
      ensures Valid() && this.build == build && this.score == score && cache == map[]
    {
      this.build, this.score := build, score;
      cache := map[];
    }

    function ScoreAt(index: Index, query: string): nat -> real {
      (i: nat) => score(index, query, i)
    }

    function CachedFor(user: User): Option<Built<Index>>
      reads this
    {
      if user in cache then Some(cache[user]) else None
    }

    method SparseIndex(t: Tables, user: User) returns (index: Option<Index>, chunks: seq<ChunkRow>)
      requires Valid()
      modifies this
      ensures Valid()
      ensures index == if chunks == [] then None else Some(build(TextsOf(chunks)))
      ensures chunks == InForce(old(CachedFor(user)), UserChunks(t, user))
      ensures var rows := UserChunks(t, user);
        cache ==
          if rows == [] || (user in old(cache) && old(cache[user].count) == |rows|) then old(cache)
          else old(cache)[user := Built(|rows|, build(TextsOf(rows)), rows)]
    {
      chunks := UserChunks(t, user);
      RowsAreDistinct(t, Held(t, user));
      if user in cache && cache[user].count == |chunks| {
        return Some(cache[user].index), cache[user].chunks;
      }
      if chunks == [] {
        return None, [];
      }
      index := Some(build(TextsOf(chunks)));
      cache := cache[user := Built(|chunks|, index.value, chunks)];
    }

    method SparseHits(t: Tables, user: User, query: string, k: nat) returns (hits: seq<Hit>)
      requires Valid()
      modifies this
      ensures Valid()
      ensures var rows := InForce(old(CachedFor(user)), UserChunks(t, user));
        hits == HitsFrom(rows, ScoreAt(build(TextsOf(rows)), query), k)
    {
      hide UserChunks, ScoreAt, TextsOf, HitsFrom;
      var index, chunks := SparseIndex(t, user);
      if index.None? {
        HitsOfNone(ScoreAt(build(TextsOf([])), query), k);
        return [];
      }
      hits := HitsFrom(chunks, ScoreAt(index.value, query), k);
    }

    /**
     * retrieve. dense is the user's vector search, as a function of how many hits are
     * asked for. hits are what was fused or found, before resolution.
     */
    method Retrieve(t: Tables, user: User, query: string, dense: nat -> seq<Hit>, k: nat, kind: string)
      returns (docs: seq<Documents.Document>, hits: seq<Hit>)
      requires Valid()
      modifies this
      ensures Valid()
      ensures Documents.AllCite(t, user, Documents.Shown(t, user, hits), docs)
      ensures var rows := InForce(old(CachedFor(user)), UserChunks(t, user));
        var sparse := (n: nat) => HitsFrom(rows, ScoreAt(build(TextsOf(rows)), query), n);
        hits ==
          if kind == "sparse" then sparse(k)
          else if kind == "hybrid" || kind == "hybrid_40_60" then
            FirstOf(Fused([dense(k * 2), sparse(k * 2)]), k)
          else dense(k)
    {
      hide UserChunks, Documents.Shown, Documents.AllCite, Fused, HitsFrom;
      if kind == "sparse" {
        hits := SparseHits(t, user, query, k);
      } else if kind == "hybrid" || kind == "hybrid_40_60" {
        var sparse := SparseHits(t, user, query, k * 2);
        var fused := Rrf([dense(k * 2), sparse]);
        hits := FirstOf(fused, k);
      } else {
        hits := dense(k);
      }
      docs := Documents.ToDocuments(t, user, hits);
    }
  }

  /**
   * With k up to 30, a hybrid search puts every chunk that both sides found before every
   * chunk that only one of them found.
   */
  lemma HybridPrefersBoth(
    dense: seq<Hit>, rows: seq<ChunkRow>, score: nat -> real, k: nat, a: string, b: string)
    requires k <= 30 && |dense| <= k * 2 && DuplicateFree(dense) && DistinctRows(rows)
    ensures var sparse := HitsFrom(rows, score, k * 2);
      Mentions(dense, a) && Mentions(sparse, a) && Mentions(dense, b) != Mentions(sparse, b) ==>
        Before(FusedIds([dense, sparse]), a, b)
  {
    hide HitsFrom, FusedIds, HitOf;
    var sparse := HitsFrom(rows, score, k * 2);
    BestHits(rows, score, k * 2);
    if Mentions(dense, a) && Mentions(sparse, a) && Mentions(dense, b) != Mentions(sparse, b) {
      BothBeatOne(dense, sparse, a, b);
    }
  }

  function FirstOf<T>(s: seq<T>, k: nat): seq<T> {
    if k < |s| then s[..k] else s
  }

  // --- when the count test is right -------------------------------------------------------------------

  /** One blob more is its rows more; a blob without chunks is not seen. */
  lemma {:induction false} DropOne(t: Tables, shas: set<Sha>, sha: Sha)
    requires sha in shas
    ensures |Rows(t, shas)| == |Rows(t, shas - {sha})| + |ChunkRows(t, sha)|
    ensures ChunkRows(t, sha) == [] ==> Rows(t, shas) == Rows(t, shas - {sha})
    decreases |shas|
  {
    var least := Least(shas);
    if least != sha {
      var rest := shas - {sha};
      LeastOfRest(shas, sha);
      DropOne(t, shas - {least}, sha);
      assert shas - {least} - {sha} == rest - {least};
    }
  }

  lemma LeastOfRest(shas: set<Sha>, sha: Sha)
    requires sha in shas && Least(shas) != sha
    ensures Least(shas) in shas - {sha} && Least(shas - {sha}) == Least(shas)
  {
    assert Least(shas) in shas - {sha};
    LeastIsUnique(shas - {sha});
    assert IsLeast(shas - {sha}, Least(shas));
  }

  lemma NotAllOf(small: set<Sha>, big: set<Sha>)
    requires small <= big && small != big
    ensures big - small != {}
  {
    assert !(big <= small);
    var sha :| sha in big && sha !in small;
    assert sha in big - small;
  }

  /** Holding more never gives fewer rows, and as many only if they are the same rows. */
  lemma {:induction false} MoreHoldings(t: Tables, small: set<Sha>, big: set<Sha>)
    requires small <= big
    ensures |Rows(t, small)| <= |Rows(t, big)|
    ensures |Rows(t, small)| == |Rows(t, big)| ==> Rows(t, small) == Rows(t, big)
    decreases |big - small|
  {
    if small != big {
      assert big - small != {} by {
        NotAllOf(small, big);
      }
      var sha :| sha in big - small;
      DropOne(t, big, sha);
      assert big - {sha} - small == (big - small) - {sha};
      MoreHoldings(t, small, big - {sha});
    }
  }

  lemma {:induction false} RowsAgree(t: Tables, u: Tables, shas: set<Sha>)
    requires forall sha :: sha in shas ==> ChunkRows(t, sha) == ChunkRows(u, sha)
    ensures Rows(t, shas) == Rows(u, shas)
    decreases |shas|
  {
    if shas != {} {
      RowsAgree(t, u, shas - {Least(shas)});
    }
  }

  predicate Names(rows: seq<ChunkRow>, sha: Sha) {
    exists i :: 0 <= i < |rows| && rows[i].sha == sha
  }

  lemma NamesConcat(a: seq<ChunkRow>, b: seq<ChunkRow>, sha: Sha)
    ensures Names(a + b, sha) <==> Names(a, sha) || Names(b, sha)
  {
    if Names(a, sha) {
      var i :| 0 <= i < |a| && a[i].sha == sha;
      assert (a + b)[i].sha == sha;
    }
    if Names(b, sha) {
      var i :| 0 <= i < |b| && b[i].sha == sha;
      assert (a + b)[|a| + i].sha == sha;
    }
  }

  /** Rows name exactly the held blobs that have chunks. */
  lemma {:induction false} RowsMention(t: Tables, shas: set<Sha>, sha: Sha)
    ensures Names(Rows(t, shas), sha) <==> sha in shas && ChunkRows(t, sha) != []
    decreases |shas|
  {
    if shas != {} {
      var least := Least(shas);
      var first := RowsOf(least, ChunkRows(t, least));
      RowsMention(t, shas - {least}, sha);
      NamesConcat(first, Rows(t, shas - {least}), sha);
      if first != [] {
        assert first[0].sha == least;
      }
    }
  }

  lemma {:induction false} RowsAreDistinct(t: Tables, shas: set<Sha>)
    ensures DistinctRows(Rows(t, shas))
    decreases |shas|
  {
    if shas != {} {
      var least := Least(shas);
      RowsAreDistinct(t, shas - {least});
      RowsMention(t, shas - {least}, least);
      var rest := Rows(t, shas - {least});
      assert forall i :: 0 <= i < |rest| && rest[i].sha == least ==> Names(rest, least);
      assert Rows(t, shas) == RowsOf(least, ChunkRows(t, least)) + Rows(t, shas - {least});
    }
  }

  /** The held blobs that have chunks: what an index is an index of. */
  function Indexable(t: Tables, user: User): set<Sha> {
    set sha | sha in Held(t, user) && ChunkRows(t, sha) != []
  }

  lemma {:induction false} RowsOfIndexable(t: Tables, shas: set<Sha>)
    ensures Rows(t, shas) == Rows(t, set sha | sha in shas && ChunkRows(t, sha) != [])
    decreases |shas|
  {
    var kept := set sha | sha in shas && ChunkRows(t, sha) != [];
    if kept == shas {
    } else {
      assert shas - kept != {} by {
        NotAllOf(kept, shas);
      }
      var sha :| sha in shas - kept;
      DropOne(t, shas, sha);
      assert kept == set other | other in shas - {sha} && ChunkRows(t, other) != [];
      RowsOfIndexable(t, shas - {sha});
    }
  }

  /** Both states keep the invariant of one environment, so a held blob has the same rows in both. */
  lemma CountTest(env: Env, t: Tables, u: Tables, user: User)
    requires Inv(env, t) && Inv(env, u)
    ensures UserChunks(t, user) == UserChunks(u, user) <==> Indexable(t, user) == Indexable(u, user)
    ensures Indexable(t, user) <= Indexable(u, user) || Indexable(u, user) <= Indexable(t, user) ==>
      (|UserChunks(t, user)| == |UserChunks(u, user)| <==> UserChunks(t, user) == UserChunks(u, user))
  {
    var a, b := Indexable(t, user), Indexable(u, user);
    SameRowsWhenHeld(env, t, u, user);
    hide Rows, Inv;
    RowsOfIndexable(t, Held(t, user));
    RowsOfIndexable(u, Held(u, user));
    assert UserChunks(t, user) == Rows(t, a) && UserChunks(u, user) == Rows(u, b);
    hide UserChunks;
    if UserChunks(t, user) == UserChunks(u, user) {
      SameBlobs(t, u, a, b);
    }
    hide Indexable;
    if a <= b {
      RowsAgree(t, u, a);
      MoreHoldings(u, a, b);
    }
    if b <= a {
      RowsAgree(t, u, b);
      MoreHoldings(t, b, a);
    }
  }

  lemma SameBlobs(t: Tables, u: Tables, a: set<Sha>, b: set<Sha>)
    requires Rows(t, a) == Rows(u, b)
    requires forall sha :: sha in a ==> ChunkRows(t, sha) != []
    requires forall sha :: sha in b ==> ChunkRows(u, sha) != []
    ensures a == b
  {
    hide Rows;
    forall sha ensures sha in a <==> sha in b {
      RowsMention(t, a, sha);
      RowsMention(u, b, sha);
    }
  }

  lemma SameRowsWhenHeld(env: Env, t: Tables, u: Tables, user: User)
    requires Inv(env, t) && Inv(env, u)
    ensures forall sha :: sha in Held(t, user) ==> ChunkRows(t, sha) == env.Canon(sha)
    ensures forall sha :: sha in Held(u, user) ==> ChunkRows(u, sha) == env.Canon(sha)
  {
  }

  /**
   * The count test, over histories. An index built in one reachable state is in force, as
   * the rebuild would be, in a later one exactly when the counts tell the states apart or
   * the same blobs have chunks to index; and if one of the two states indexes no blob that
   * the other lacks (nothing was lost since, or nothing gained), always.
   */
  lemma IndexInForceExactly<Index>(
    env: Env, ops: seq<Ladder.Op>, since: seq<Ladder.Op>, user: User, cached: Built<Index>)
    requires env.Valid() && cached.count == |cached.chunks|
    ensures var t := Ladder.Play(env, Empty, ops); var u := Ladder.Play(env, t, since);
      var rows := UserChunks(u, user);
      cached.chunks == UserChunks(t, user) ==>
      && (InForce(Some(cached), rows) == rows <==>
            |UserChunks(t, user)| != |rows| || Indexable(t, user) == Indexable(u, user))
      && (Indexable(t, user) <= Indexable(u, user) || Indexable(u, user) <= Indexable(t, user) ==>
            InForce(Some(cached), rows) == rows)
  {
    hide Inv, UserChunks, Indexable, Ladder.Play;
    EmptyIsSound(env);
    Reachable.PlayKeeps(env, Empty, ops);
    var t := Ladder.Play(env, Empty, ops);
    Reachable.PlayKeeps(env, t, since);
    CountTest(env, t, Ladder.Play(env, t, since), user);
  }

  /** Rows of one blob each, as many, are not told apart; nothing of the first is readable later. */
  lemma SwappedRows(t: Tables, u: Tables, user: User, lost: Sha, gained: Sha)
    requires Held(t, user) == {lost} && Held(u, user) == {gained} && lost != gained
    requires |ChunkRows(t, lost)| == |ChunkRows(u, gained)| > 0
    ensures |UserChunks(t, user)| == |UserChunks(u, user)| > 0
    ensures forall i :: 0 <= i < |UserChunks(u, user)| ==> UserChunks(u, user)[i].sha == gained
    ensures forall i :: 0 <= i < |UserChunks(t, user)| ==>
      var row := UserChunks(t, user)[i];
      && row.sha != gained
      && Documents.Readable(u, user, Retrieval.ChunkId(ChunkRef(row.sha, row.ordinal))) == None
  {
    OneBlob(t, lost);
    OneBlob(u, gained);
    forall i | 0 <= i < |UserChunks(t, user)|
      ensures var row := UserChunks(t, user)[i];
        && row.sha != gained
        && Documents.Readable(u, user, Retrieval.ChunkId(ChunkRef(row.sha, row.ordinal))) == None
    {
      var ref := ChunkRef(UserChunks(t, user)[i].sha, UserChunks(t, user)[i].ordinal);
      assert lost !in Held(u, user);
      NotHeldNotReadable(u, user, ref);
    }
  }

  lemma OneBlob(t: Tables, sha: Sha)
    ensures Rows(t, {sha}) == RowsOf(sha, ChunkRows(t, sha))
  {
    assert {sha} - {sha} == {};
    assert Least({sha}) == sha;
  }

  lemma NotHeldNotReadable(t: Tables, user: User, ref: ChunkRef)
    requires ref.sha !in Held(t, user)
    ensures Documents.Readable(t, user, Retrieval.ChunkId(ref)) == None
  {
    assert Holding(user, ref.sha) in t.holds ==> Holding(user, ref.sha).sha in Held(t, user);
    var parsed := Retrieval.ParseChunkId(Retrieval.ChunkId(ref));
    if parsed.Some? {
      Retrieval.ChunkIdInjective(parsed.value, ref);
    }
  }
}
