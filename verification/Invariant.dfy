/**
 * What every operation keeps, crashes anywhere included: the caches hold nothing but
 * what the bytes say, and a live name implies possession and text.
 */
module Invariant {
  import opened Wrappers
  import opened Extraction
  import opened Content
  import opened Store
  import opened Ladder

  // --- the invariant ----------------------------------------------------------------

  ghost predicate TextOk(env: Env, t: Tables, sha: Sha) {
    && (Marked(env, t, sha) ==>
          && env.CanonText(sha).Some?
          && TextRef(t, sha) == RelPath(sha)
          && StoredText(t, sha) == env.CanonText(sha).value)
    && (ChunkRows(t, sha) == [] || ChunkRows(t, sha) == env.Canon(sha))
  }

  ghost predicate TextSound(env: Env, t: Tables) {
    forall sha :: TextOk(env, t, sha)
  }

  ghost predicate CacheOk(env: Env, t: Tables, key: CacheKey)
    requires key in t.cache
  {
    key.version == env.embedding ==>
      && key.ordinal < |env.Canon(key.sha)|
      && t.cache[key] == env.CanonVector(key.sha, key.ordinal)
  }

  ghost predicate CacheSound(env: Env, t: Tables) {
    forall key :: key in t.cache ==> CacheOk(env, t, key)
  }

  ghost function CanonEntry(env: Env, user: User, ref: ChunkRef): Entry
    requires ref.ordinal < |env.Canon(ref.sha)|
  {
    Entry(env.CanonVector(ref.sha, ref.ordinal), env.Canon(ref.sha)[ref.ordinal], user, ref.sha, ref.ordinal)
  }

  ghost predicate EntryOk(env: Env, t: Tables, user: User, ref: ChunkRef)
    requires ref in CollectionOf(t, user)
  {
    && ref.ordinal < |env.Canon(ref.sha)|
    && CollectionOf(t, user)[ref] == CanonEntry(env, user, ref)
  }

  ghost predicate EntriesSound(env: Env, t: Tables) {
    forall user, ref :: ref in CollectionOf(t, user) ==> EntryOk(env, t, user, ref)
  }

  /** Every chunk of the blob has its row. */
  ghost predicate HasText(env: Env, t: Tables, sha: Sha) {
    Marked(env, t, sha) && ChunkRows(t, sha) == env.Canon(sha)
  }

  /** Every chunk of the blob has its vector where user looks for it. */
  ghost predicate HasVectors(env: Env, t: Tables, user: User, sha: Sha) {
    forall i: nat :: i < |env.Canon(sha)| ==> ChunkRef(sha, i) in CollectionOf(t, user)
  }

  ghost predicate HeldTexts(env: Env, t: Tables) {
    forall h :: h in t.holds ==> HasText(env, t, h.sha)
  }

  ghost predicate RowOk(t: Tables, id: FileKey)
    requires id in t.files
  {
    var row := t.files[id];
    && (row.deleted <==> row.state == Deleted)
    && (!row.deleted ==> (row.state == Indexed <==> row.sha.Some?))
    && (!row.deleted && row.sha.Some? ==> Holding(id.user, row.sha.value) in t.holds)
  }

  ghost predicate RowsOk(t: Tables) {
    forall id :: id in t.files ==> RowOk(t, id)
  }

  ghost predicate Inv(env: Env, t: Tables) {
    && TextSound(env, t) && CacheSound(env, t) && EntriesSound(env, t)
    && HeldTexts(env, t) && RowsOk(t)
  }

  lemma EmptyIsSound(env: Env)
    ensures Inv(env, Empty)
  {
  }

  // --- framing: a conjunct survives a write to tables it does not read -----------------

  lemma TextFrame(env: Env, t: Tables, u: Tables)
    requires TextSound(env, t) && u.blobs == t.blobs && u.chunks == t.chunks && u.texts == t.texts
    ensures TextSound(env, u)
  {
    forall sha ensures TextOk(env, u, sha) {
      assert TextOk(env, t, sha);
    }
  }

  lemma CacheFrame(env: Env, t: Tables, u: Tables)
    requires CacheSound(env, t) && u.cache == t.cache
    ensures CacheSound(env, u)
  {
    forall key | key in u.cache ensures CacheOk(env, u, key) {
      assert CacheOk(env, t, key);
    }
  }

  lemma EntriesFrame(env: Env, t: Tables, u: Tables)
    requires EntriesSound(env, t) && u.collections == t.collections
    ensures EntriesSound(env, u)
  {
    forall user, ref | ref in CollectionOf(u, user) ensures EntryOk(env, u, user, ref) {
      assert EntryOk(env, t, user, ref);
    }
  }

  lemma HeldFrame(env: Env, t: Tables, u: Tables)
    requires HeldTexts(env, t) && u.holds <= t.holds && u.blobs == t.blobs && u.chunks == t.chunks
    ensures HeldTexts(env, u)
  {
    forall h | h in u.holds ensures HasText(env, u, h.sha) {
      assert HasText(env, t, h.sha);
    }
  }

  lemma RowsFrame(t: Tables, u: Tables)
    requires RowsOk(t) && u.files == t.files && t.holds <= u.holds
    ensures RowsOk(u)
  {
    forall id | id in u.files ensures RowOk(u, id) {
      assert RowOk(t, id);
    }
  }

  // --- text -------------------------------------------------------------------------

  /** Writes to the blob, text and chunk tables only. */
  ghost predicate SameUserTables(t: Tables, u: Tables) {
    t.files == u.files && t.holds == u.holds && t.collections == u.collections && t.cache == u.cache
  }

  ghost predicate OthersUntouched(env: Env, t: Tables, u: Tables, sha: Sha) {
    forall other :: other != sha ==>
      && (Marked(env, u, other) <==> Marked(env, t, other))
      && (other in u.blobs <==> other in t.blobs)
      && TextRef(u, other) == TextRef(t, other)
      && ChunkRows(u, other) == ChunkRows(t, other)
      && (RelPath(other) in u.texts <==> RelPath(other) in t.texts)
      && (RelPath(other) in t.texts ==> u.texts[RelPath(other)] == t.texts[RelPath(other)])
  }

  /** A write about one blob's text keeps the invariant if it is right about that blob. */
  lemma TextWriteKeeps(env: Env, t: Tables, u: Tables, sha: Sha)
    requires Inv(env, t) && SameUserTables(t, u) && OthersUntouched(env, t, u, sha)
    requires TextOk(env, u, sha)
    requires Marked(env, t, sha) ==> Marked(env, u, sha)
    requires ChunkRows(u, sha) == ChunkRows(t, sha) || ChunkRows(u, sha) == env.Canon(sha)
    ensures Inv(env, u)
  {
    forall other ensures TextOk(env, u, other) {
      if other != sha {
        assert TextOk(env, t, other);
      }
    }
    forall h | h in u.holds ensures HasText(env, u, h.sha) {
      assert HasText(env, t, h.sha);
    }
    EntriesFrame(env, t, u);
    CacheFrame(env, t, u);
    RowsFrame(t, u);
  }

  lemma TextOkFrom(env: Env, t: Tables, sha: Sha)
    requires Inv(env, t)
    ensures TextOk(env, t, sha)
  {
  }

  lemma RelPathsDiffer()
    ensures forall a, b :: RelPath(a) == RelPath(b) ==> a == b
  {
    forall a, b | RelPath(a) == RelPath(b) ensures a == b {
      RelPathInjective(a, b);
    }
  }

  /** A write to one blob row that leaves its extraction and its text alone. */
  lemma BlobRowOnly(env: Env, t: Tables, u: Tables, sha: Sha)
    requires u.(blobs := t.blobs) == t && TextOk(env, t, sha)
    requires forall other :: other != sha ==>
      (other in u.blobs <==> other in t.blobs) && (other in t.blobs ==> u.blobs[other] == t.blobs[other])
    requires TextRef(u, sha) == TextRef(t, sha) && (Marked(env, u, sha) <==> Marked(env, t, sha))
    ensures OthersUntouched(env, t, u, sha) && TextOk(env, u, sha)
    ensures ChunkRows(u, sha) == ChunkRows(t, sha)
    ensures forall other :: Marked(env, u, other) <==> Marked(env, t, other)
  {
    hide RelPath;
  }

  lemma UpsertBlobKeeps(env: Env, t: Tables, sha: Sha, size: nat)
    requires Inv(env, t)
    ensures var u := UpsertBlob(t, sha, size);
      Inv(env, u) && SameUserTables(t, u) && sha in u.blobs && u.chunks == t.chunks
      && (forall other :: Marked(env, u, other) <==> Marked(env, t, other))
  {
    TextOkFrom(env, t, sha);
    BlobRowOnly(env, t, UpsertBlob(t, sha, size), sha);
    hide Inv, TextOk, OthersUntouched, ChunkRows;
    TextWriteKeeps(env, t, UpsertBlob(t, sha, size), sha);
  }

  /** Until the blob is marked its file may hold anything: a torn write is harmless. */
  lemma WriteTextKeeps(env: Env, t: Tables, sha: Sha, text: string)
    requires Inv(env, t) && !Marked(env, t, sha)
    ensures var u := WriteText(t, sha, text); Inv(env, u) && SameUserTables(t, u)
  {
    RelPathsDiffer();
    assert TextOk(env, t, sha);
    TextWriteKeeps(env, t, WriteText(t, sha, text), sha);
  }

  lemma MarkKeeps(env: Env, t: Tables, sha: Sha, text: string)
    requires Inv(env, t) && !Marked(env, t, sha) && sha in t.blobs
    requires env.CanonText(sha) == Some(text)
    ensures var u := MarkExtracted(WriteText(t, sha, text), sha, RelPath(sha), env.extraction);
      Inv(env, u) && SameUserTables(t, u) && Marked(env, u, sha)
  {
    var u := MarkExtracted(WriteText(t, sha, text), sha, RelPath(sha), env.extraction);
    RelPathsDiffer();
    assert TextOk(env, t, sha);
    assert StoredText(u, sha) == text;
    TextWriteKeeps(env, t, u, sha);
  }

  lemma ReplaceKeeps(env: Env, t: Tables, sha: Sha)
    requires Inv(env, t)
    ensures var u := ReplaceChunks(t, sha, env.Canon(sha));
      Inv(env, u) && SameUserTables(t, u) && ChunkRows(u, sha) == env.Canon(sha)
  {
    assert TextOk(env, t, sha);
    TextWriteKeeps(env, t, ReplaceChunks(t, sha, env.Canon(sha)), sha);
  }

  /** Does any branch of the ladder have text for these bytes under this name? */
  ghost predicate TextReady(env: Env, t: Tables, key: string, data: Bytes) {
    env.TextOf(data).Some? && (Supported(key) || Marked(env, t, env.hash(data)))
  }

  /** A marked blob is never parsed again. */
  lemma MarkedIsCached(env: Env, t: Tables, sha: Sha)
    requires TextOk(env, t, sha) && Marked(env, t, sha)
    ensures UsesRows(env, t, sha) || UsesStoredText(env, t, sha)
    ensures !RefUnreadable(env, t, sha)
  {
    var data :| env.hash(data) == sha && env.TextOf(data) == env.CanonText(sha);
    assert env.TextOf(data).Some?;
    ExtractedTextIsClean(env.decode, data);
    assert RelPath(sha)[|RelPath(sha)| - 1] == 't';
  }

  /**
   * Text-cache transparency: whichever branch runs, the chunks are those of
   * extract-then-chunk, and there are none exactly when no branch has a text.
   */
  lemma TextChunksExact(env: Env, t: Tables, sha: Sha, key: string, data: Bytes)
    requires env.Valid() && Inv(env, t) && sha in t.blobs && sha == env.hash(data)
    ensures var (u, r) := TextChunks(env, t, sha, key, data);
      && Inv(env, u) && SameUserTables(t, u)
      && (r.Ok? <==> TextReady(env, t, key, data))
      && (r.Ok? ==> r.value == env.Chunks(env.TextOf(data).value) == env.Canon(sha))
      && (r.Ok? ==> Marked(env, u, sha) && ChunkRows(u, sha) == env.Canon(sha))
      && (r.Raised? ==> r.error == ExtractError && u == t)
  {
    env.CanonIsOfTheBytes(data);
    assert TextOk(env, t, sha);
    if Marked(env, t, sha) {
      MarkedIsCached(env, t, sha);
      if ChunkRows(t, sha) == [] {
        ReplaceKeeps(env, t, sha);
      }
    } else if Supported(key) && env.TextOf(data).Some? {
      var text := env.TextOf(data).value;
      MarkKeeps(env, t, sha, text);
      ReplaceKeeps(env, MarkExtracted(WriteText(t, sha, text), sha, RelPath(sha), env.extraction), sha);
    }
  }

  // --- vectors, possession and attribution --------------------------------------------

  lemma PutCachedKeeps(env: Env, t: Tables, sha: Sha, missing: set<nat>)
    requires Inv(env, t)
    ensures var u := PutCached(t, sha, env.embedding, Fresh(env, env.Canon(sha), missing));
      && Inv(env, u)
      && u.(cache := t.cache) == t
  {
    var u := PutCached(t, sha, env.embedding, Fresh(env, env.Canon(sha), missing));
    forall key | key in u.cache ensures CacheOk(env, u, key) {
      if key in t.cache {
        assert CacheOk(env, t, key);
      }
    }
    TextFrame(env, t, u);
    EntriesFrame(env, t, u);
    HeldFrame(env, t, u);
    RowsFrame(t, u);
  }

  ghost function CanonEntries(env: Env, user: User, sha: Sha): Collection {
    map i: nat | i < |env.Canon(sha)| :: ChunkRef(sha, i) := CanonEntry(env, user, ChunkRef(sha, i))
  }

  /** Cache transparency: the entries written are those a full embedding would give. */
  lemma EntriesAreCanonical(env: Env, t: Tables, user: User, sha: Sha)
    requires env.Valid() && CacheSound(env, t)
    ensures Entries(env, t, user, sha, env.Canon(sha)) == CanonEntries(env, user, sha)
  {
    forall i: nat | i < |env.Canon(sha)|
      ensures VectorFor(env, t, sha, env.Canon(sha), i) == env.CanonVector(sha, i)
    {
      var key := CacheKey(sha, i, env.embedding);
      if key in t.cache {
        assert CacheOk(env, t, key);
      }
    }
  }

  lemma UpsertEntriesKeeps(env: Env, t: Tables, user: User, sha: Sha)
    requires Inv(env, t)
    ensures Inv(env, UpsertEntries(t, user, CanonEntries(env, user, sha)))
  {
    var entries := CanonEntries(env, user, sha);
    var u := UpsertEntries(t, user, entries);
    assert CollectionOf(u, user) == CollectionOf(t, user) + entries;
    assert forall other :: other != user ==> CollectionOf(u, other) == CollectionOf(t, other);
    EntriesAfterUpsert(env, t, user, sha);
    hide EntriesSound, CollectionOf, CanonEntries;
    TextFrame(env, t, u);
    CacheFrame(env, t, u);
    HeldFrame(env, t, u);
    RowsFrame(t, u);
  }

  lemma EntriesAfterUpsert(env: Env, t: Tables, user: User, sha: Sha)
    requires EntriesSound(env, t)
    ensures EntriesSound(env, UpsertEntries(t, user, CanonEntries(env, user, sha)))
  {
    var entries := CanonEntries(env, user, sha);
    var u := UpsertEntries(t, user, entries);
    assert CollectionOf(u, user) == CollectionOf(t, user) + entries;
    assert forall other :: other != user ==> CollectionOf(u, other) == CollectionOf(t, other);
    forall other, ref | ref in CollectionOf(u, other) ensures EntryOk(env, u, other, ref) {
      if other != user || ref !in entries {
        assert EntryOk(env, t, other, ref);
      }
    }
  }

  lemma IndexBlobKeeps(env: Env, t: Tables, user: User, sha: Sha, fault: Fault)
    requires env.Valid() && Inv(env, t)
    ensures var (u, r) := IndexBlob(env, t, user, sha, env.Canon(sha), fault);
      && Inv(env, u)
      && u.files == t.files && u.holds == t.holds && u.blobs == t.blobs && u.chunks == t.chunks
      && (r.Ok? ==> HasVectors(env, u, user, sha))
  {
    IndexSteps(env, t, user, sha, env.Canon(sha), fault);
    hide IndexBlob, Inv, HasVectors, CacheSound, CanonEntries, Entries, PutCached, Fresh, Missing;
    var chunks := env.Canon(sha);
    var missing := Missing(env, t, sha, |chunks|);
    if chunks == [] {
      NothingToSearch(env, t, user, sha);
    } else {
      var cached := PutCached(t, sha, env.embedding, Fresh(env, chunks, missing));
      PutCachedKeeps(env, t, sha, missing);
      CacheSoundFrom(env, t);
      EntriesAreCanonical(env, t, user, sha);
      UpsertEntriesKeeps(env, cached, user, sha);
      VectorsAfterUpsert(env, cached, user, sha);
    }
  }

  lemma CacheSoundFrom(env: Env, t: Tables)
    requires Inv(env, t)
    ensures CacheSound(env, t)
  {
  }

  lemma NothingToSearch(env: Env, t: Tables, user: User, sha: Sha)
    requires env.Canon(sha) == []
    ensures HasVectors(env, t, user, sha)
  {
  }

  lemma VectorsAfterUpsert(env: Env, t: Tables, user: User, sha: Sha)
    ensures HasVectors(env, UpsertEntries(t, user, CanonEntries(env, user, sha)), user, sha)
  {
  }

  lemma HoldingKeeps(env: Env, t: Tables, user: User, sha: Sha)
    requires Inv(env, t) && HasText(env, t, sha)
    ensures Inv(env, AddHolding(t, user, sha))
  {
    var u := AddHolding(t, user, sha);
    TextFrame(env, t, u);
    CacheFrame(env, t, u);
    EntriesFrame(env, t, u);
    RowsFrame(t, u);
    forall h | h in u.holds ensures HasText(env, u, h.sha) {
      assert h in t.holds ==> HasText(env, t, h.sha);
      assert HasText(env, t, sha);
    }
  }

  lemma EmbeddingMarkKeeps(env: Env, t: Tables, sha: Sha)
    requires Inv(env, t)
    ensures Inv(env, MarkEmbedded(t, sha, env.embedding))
  {
    TextOkFrom(env, t, sha);
    BlobRowOnly(env, t, MarkEmbedded(t, sha, env.embedding), sha);
    hide Inv, TextOk, OthersUntouched, ChunkRows;
    TextWriteKeeps(env, t, MarkEmbedded(t, sha, env.embedding), sha);
  }

  lemma UpsertFileKeeps(env: Env, t: Tables, id: FileKey, row: FileRow)
    requires Inv(env, t) && !row.deleted && row.state == (if row.sha.Some? then Indexed else Failed)
    requires row.sha.Some? ==> Holding(id.user, row.sha.value) in t.holds
    ensures Inv(env, UpsertFile(t, id, row))
  {
    var u := UpsertFile(t, id, row);
    forall k | k in u.files ensures RowOk(u, k) {
      if k != id {
        assert RowOk(t, k);
      }
    }
    SameButFiles(env, t, u);
  }

  lemma SameButFiles(env: Env, t: Tables, u: Tables)
    requires Inv(env, t) && u.(files := t.files) == t && RowsOk(u)
    ensures Inv(env, u)
  {
    TextFrame(env, t, u);
    CacheFrame(env, t, u);
    EntriesFrame(env, t, u);
    HeldFrame(env, t, u);
  }

  lemma SoftDeleteKeeps(env: Env, t: Tables, user: User, id: FileKey)
    requires Inv(env, t)
    ensures Inv(env, SoftDelete(t, user, id))
  {
    var u := SoftDelete(t, user, id);
    forall k | k in u.files ensures RowOk(u, k) {
      assert RowOk(t, k);
    }
    SameButFiles(env, t, u);
  }

  lemma EntriesAfterDrop(env: Env, t: Tables, u: Tables)
    requires EntriesSound(env, t)
    requires forall other, ref :: ref in CollectionOf(u, other) ==>
      ref in CollectionOf(t, other) && CollectionOf(u, other)[ref] == CollectionOf(t, other)[ref]
    ensures EntriesSound(env, u)
  {
    forall other, ref | ref in CollectionOf(u, other) ensures EntryOk(env, u, other, ref) {
      assert EntryOk(env, t, other, ref);
    }
  }

  lemma RowsAfterUnreference(t: Tables, user: User, sha: Sha)
    requires RowsOk(t) && !References(t, user, sha)
    ensures RowsOk(RemoveHolding(DropEntries(t, user, sha), user, sha))
  {
    var u := RemoveHolding(DropEntries(t, user, sha), user, sha);
    forall id | id in u.files ensures RowOk(u, id) {
      assert RowOk(t, id);
    }
  }

  lemma UnreferenceKeeps(env: Env, t: Tables, user: User, sha: Sha)
    requires Inv(env, t)
    ensures Inv(env, Unreference(t, user, sha))
  {
    if !References(t, user, sha) {
      var u := Unreference(t, user, sha);
      assert CollectionOf(u, user) == CollectionOf(t, user) - EntriesOf(t, user, sha);
      assert forall other :: other != user ==> CollectionOf(u, other) == CollectionOf(t, other);
      EntriesAfterDrop(env, t, u);
      RowsAfterUnreference(t, user, sha);
      hide EntriesSound, References, RowsOk;
      TextFrame(env, t, u);
      CacheFrame(env, t, u);
      HeldFrame(env, t, u);
    }
  }

  /** Vectors alone may go at any time. */
  lemma DropKeeps(env: Env, t: Tables, user: User, sha: Sha)
    requires Inv(env, t)
    ensures Inv(env, DropEntries(t, user, sha))
  {
    var u := DropEntries(t, user, sha);
    assert CollectionOf(u, user) == CollectionOf(t, user) - EntriesOf(t, user, sha);
    assert forall other :: other != user ==> CollectionOf(u, other) == CollectionOf(t, other);
    EntriesAfterDrop(env, t, u);
    hide EntriesSound, RowOk, EntriesOf, CollectionOf;
    TextFrame(env, t, u);
    CacheFrame(env, t, u);
    HeldFrame(env, t, u);
    RowsFrame(t, u);
  }

  lemma LiveIsHeld(env: Env, t: Tables, id: FileKey)
    requires Inv(env, t) && Live(t, id) && t.files[id].sha.Some?
    ensures Holding(id.user, t.files[id].sha.value) in t.holds
  {
    assert RowOk(t, id);
  }
}
