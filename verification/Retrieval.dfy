/**
 * The read path: packages/core/repositories.py resolves chunk ids for one user, and
 * services/api/app/rag/retrieval/user_scoped.py turns hits into documents.
 */
module Retrieval {
  import opened Wrappers
  import opened Text
  import opened Store

  // --- chunk ids --------------------------------------------------------------------------------

  function ChunkId(ref: ChunkRef): string {
    ref.sha + ":" + Decimal(ref.ordinal)
  }

  /** cid.rpartition(":"), a nonempty hash and a numeral. */
  function ParseChunkId(id: string): (ref: Option<ChunkRef>)
    ensures ref.Some? ==> ref.value.sha != ""
  {
    var colon := LastIndex(id, ':');
    if colon <= 0 then None
    else match ParseDecimal(id[colon + 1..])
      case None => None
      case Some(n) => Some(ChunkRef(id[..colon], n))
  }

  lemma ChunkIdRoundTrip(ref: ChunkRef)
    requires ref.sha != ""
    ensures ParseChunkId(ChunkId(ref)) == Some(ref)
  {
    var id := ChunkId(ref);
    ColonIsLast(ref);
    DecimalRoundTrip(ref.ordinal);
    assert id[..|ref.sha|] == ref.sha;
  }

  lemma ChunkIdInjective(a: ChunkRef, b: ChunkRef)
    ensures ChunkId(a) == ChunkId(b) ==> a == b
  {
    ColonIsLast(a);
    ColonIsLast(b);
    if ChunkId(a) == ChunkId(b) {
      assert ChunkId(a)[..|a.sha|] == a.sha && ChunkId(b)[..|b.sha|] == b.sha;
      DecimalRoundTrip(a.ordinal);
      DecimalRoundTrip(b.ordinal);
    }
  }

  lemma ColonIsLast(ref: ChunkRef)
    ensures LastIndex(ChunkId(ref), ':') == |ref.sha|
    ensures ChunkId(ref)[|ref.sha| + 1..] == Decimal(ref.ordinal)
  {
    var id := ChunkId(ref);
    var tail := id[|ref.sha| + 1..];
    assert tail == Decimal(ref.ordinal);
    assert ':' !in tail by {
      assert !IsDigit(':');
    }
    LastIndexUnique(id, ':', |ref.sha|);
  }

  lemma IdsDiffer(ref: ChunkRef, others: set<ChunkRef>)
    ensures forall other :: other in others && ChunkId(other) == ChunkId(ref) ==> other == ref
  {
    forall other | other in others ensures ChunkId(other) == ChunkId(ref) ==> other == ref {
      ChunkIdInjective(other, ref);
    }
  }

  // --- get_chunk_texts ---------------------------------------------------------------------------

  function Parsed(ids: seq<string>): (refs: seq<ChunkRef>)
    ensures forall ref :: ref in refs <==> Asked(ids, ref)
    ensures forall ref :: ref in refs ==> ref.sha != ""
  {
    if ids == [] then []
    else
      var front, last := ids[..|ids| - 1], ids[|ids| - 1];
      assert forall ref :: Asked(ids, ref) <==> Asked(front, ref) || ParseChunkId(last) == Some(ref);
      Parsed(front) + match ParseChunkId(last)
        case None => []
        case Some(ref) => [ref]
  }

  predicate Asked(ids: seq<string>, ref: ChunkRef) {
    exists i :: 0 <= i < |ids| && ParseChunkId(ids[i]) == Some(ref)
  }

  /** What one batch's join returns, keyed by (sha256, ordinal). */
  function JoinRows(t: Tables, user: User, batch: seq<ChunkRef>): map<ChunkRef, string> {
    map ref | ref in batch && Resolve(t, user, ref).Some? :: Resolve(t, user, ref).value
  }

  const BATCH: nat := 400

  /** out holds exactly the texts of refs that user may read, under their canonical ids. */
  ghost predicate ResolvesExactly(t: Tables, user: User, refs: seq<ChunkRef>, out: map<string, string>) {
    && (forall ref :: ref in refs && Resolve(t, user, ref).Some? ==>
          ChunkId(ref) in out && out[ChunkId(ref)] == Resolve(t, user, ref).value)
    && (forall id :: id in out ==>
          exists ref :: ref in refs && id == ChunkId(ref) && Resolve(t, user, ref) == Some(out[id]))
  }

  method GetChunkTexts(t: Tables, user: User, ids: seq<string>) returns (out: map<string, string>)
    ensures ResolvesExactly(t, user, Parsed(ids), out)
  {
    hide Resolve, ParseChunkId;
    var parsed: seq<ChunkRef> := [];
    for i := 0 to |ids|
      invariant parsed == Parsed(ids[..i])
    {
      assert ids[..i + 1][..i] == ids[..i];
      var ref := ParseChunkId(ids[i]);
      if ref.Some? {
        parsed := parsed + [ref.value];
      }
    }
    assert ids[..|ids|] == ids;
    out := map[];
    var i := 0;
    while i < |parsed|
      invariant 0 <= i <= |parsed|
      invariant ResolvesExactly(t, user, parsed[..i], out)
    {
      var end := if i + BATCH <= |parsed| then i + BATCH else |parsed|;
      var batch := parsed[i..end];
      var rows := JoinRows(t, user, batch);
      var more := FillRows(out, rows);
      BatchResolves(t, user, parsed[..i], batch, out, more);
      assert parsed[..end] == parsed[..i] + batch;
      out, i := more, end;
    }
    assert parsed[..i] == parsed;
  }

  /** The loop over the rows of one batch, in whatever order they come. */
  method FillRows(start: map<string, string>, rows: map<ChunkRef, string>) returns (out: map<string, string>)
    ensures Filled(start, rows, out)
  {
    hide ChunkId;
    out := start;
    var left := rows.Keys;
    while left != {}
      invariant left <= rows.Keys
      invariant forall ref :: ref in rows && ref !in left ==> ChunkId(ref) in out && out[ChunkId(ref)] == rows[ref]
      invariant forall id :: id in start ==> id in out
      invariant forall id :: id in out ==>
        (id in start && out[id] == start[id]) || exists ref :: ref in rows && id == ChunkId(ref)
      decreases |left|
    {
      var ref :| ref in left;
      IdsDiffer(ref, rows.Keys);
      out := out[ChunkId(ref) := rows[ref]];
      left := left - {ref};
    }
  }

  ghost predicate Filled(start: map<string, string>, rows: map<ChunkRef, string>, out: map<string, string>) {
    && (forall ref :: ref in rows ==> ChunkId(ref) in out && out[ChunkId(ref)] == rows[ref])
    && (forall id :: id in start ==> id in out)
    && (forall id :: id in out ==>
          (id in start && out[id] == start[id]) || exists ref :: ref in rows && id == ChunkId(ref))
  }

  lemma BatchResolves(
    t: Tables, user: User, done: seq<ChunkRef>, batch: seq<ChunkRef>,
    start: map<string, string>, out: map<string, string>)
    requires ResolvesExactly(t, user, done, start) && Filled(start, JoinRows(t, user, batch), out)
    ensures ResolvesExactly(t, user, done + batch, out)
  {
    hide Resolve, ChunkId;
    forall ref | ref in done + batch && Resolve(t, user, ref).Some?
      ensures ChunkId(ref) in out && out[ChunkId(ref)] == Resolve(t, user, ref).value
    {
      RefResolves(t, user, done, batch, start, out, ref);
    }
    forall id | id in out
      ensures exists ref :: ref in done + batch && id == ChunkId(ref) && Resolve(t, user, ref) == Some(out[id])
    {
      IdIsAsked(t, user, done, batch, start, out, id);
    }
  }

  lemma RefResolves(
    t: Tables, user: User, done: seq<ChunkRef>, batch: seq<ChunkRef>,
    start: map<string, string>, out: map<string, string>, ref: ChunkRef)
    ensures ResolvesExactly(t, user, done, start) && Filled(start, JoinRows(t, user, batch), out) ==>
      ref in done + batch && Resolve(t, user, ref).Some? ==>
        ChunkId(ref) in out && out[ChunkId(ref)] == Resolve(t, user, ref).value
  {
    IdsDiffer(ref, JoinRows(t, user, batch).Keys);
    hide ChunkId, Resolve;
    if ref in done + batch && ref !in batch {
      assert ref in done;
    }
  }

  lemma IdIsAsked(
    t: Tables, user: User, done: seq<ChunkRef>, batch: seq<ChunkRef>,
    start: map<string, string>, out: map<string, string>, id: string)
    requires ResolvesExactly(t, user, done, start) && Filled(start, JoinRows(t, user, batch), out)
    requires id in out
    ensures exists ref :: ref in done + batch && id == ChunkId(ref) && Resolve(t, user, ref) == Some(out[id])
  {
    hide ChunkId, Resolve;
    if ref :| ref in JoinRows(t, user, batch) && id == ChunkId(ref) {
      assert ref in done + batch;
    } else {
      var ref :| ref in done && id == ChunkId(ref) && Resolve(t, user, ref) == Some(start[id]);
      assert ref in done + batch;
    }
  }

  /** Batching is invisible, and so is the order of rows: the answer is fixed by the ids asked for. */
  lemma AnswerIsUnique(
    t: Tables, user: User, refs: seq<ChunkRef>, a: map<string, string>, b: map<string, string>)
    requires ResolvesExactly(t, user, refs, a) && ResolvesExactly(t, user, refs, b)
    ensures a == b
  {
    hide ChunkId, Resolve;
    forall id | id in a ensures id in b && a[id] == b[id] {
    }
    forall id | id in b ensures id in a {
    }
  }
}
