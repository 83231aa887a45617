/**
 * What the caches owe to a version they were not written under: text-cache transparency
 * ends at a bump of the extraction version that is followed by one crash, and at every
 * bump of the chunking version.
 */
module Versions {
  import opened Wrappers
  import opened Extraction
  import opened Content
  import opened Store
  import opened Ladder
  import opened Invariant
  import opened Reachable
  import Crashes
  import NonInterference

  // --- a marked blob under one version: its text stands, and so do its rows -----------------------

  /** What u has kept of the blob's text and rows. */
  predicate SameText(env: Env, t: Tables, u: Tables, sha: Sha) {
    && (Marked(env, u, sha) <==> Marked(env, t, sha))
    && ChunkRows(u, sha) == ChunkRows(t, sha)
    && TextRef(u, sha) == TextRef(t, sha)
    && (TextRef(t, sha) == RelPath(sha) ==> StoredText(u, sha) == StoredText(t, sha))
  }

  /** The ladder serves the blob without parsing it: it has rows, or a stored text to make them of. */
  predicate Served(env: Env, t: Tables, sha: Sha) {
    && Marked(env, t, sha)
    && (ChunkRows(t, sha) == [] ==> TextRef(t, sha) == RelPath(sha) && StoredText(t, sha) != "")
  }

  /** Rows stand; where there are none, the stored text does, and only its chunks become rows. */
  predicate Stands(env: Env, t: Tables, u: Tables, sha: Sha) {
    && Marked(env, u, sha)
    && if ChunkRows(t, sha) != [] then ChunkRows(u, sha) == ChunkRows(t, sha)
       else if ChunkRows(u, sha) != [] then ChunkRows(u, sha) == env.Chunks(StoredText(t, sha))
       else TextRef(u, sha) == RelPath(sha) && StoredText(u, sha) == StoredText(t, sha)
  }

  lemma SameStands(env: Env, t: Tables, u: Tables, sha: Sha)
    requires Served(env, t, sha) && SameText(env, t, u, sha)
    ensures Stands(env, t, u, sha)
  {
  }

  lemma StandsThenSame(env: Env, t: Tables, u: Tables, w: Tables, sha: Sha)
    requires Served(env, t, sha) && Stands(env, t, u, sha) && SameText(env, u, w, sha)
    ensures Stands(env, t, w, sha)
  {
    hide RelPath;
  }

  lemma StandsTwice(env: Env, t: Tables, u: Tables, w: Tables, sha: Sha)
    requires Served(env, t, sha) && Stands(env, t, u, sha) && Stands(env, u, w, sha)
    ensures Stands(env, t, w, sha)
  {
    hide RelPath, StoredText, TextRef;
  }

  lemma StillServed(env: Env, t: Tables, u: Tables, sha: Sha)
    requires Served(env, t, sha) && Stands(env, t, u, sha)
    ensures Served(env, u, sha)
  {
    hide RelPath, StoredText, TextRef;
  }

  lemma SameTables(env: Env, t: Tables, u: Tables, sha: Sha)
    ensures t.blobs == u.blobs && t.chunks == u.chunks && t.texts == u.texts ==> SameText(env, t, u, sha)
  {
  }

  lemma SameTwice(env: Env, t: Tables, u: Tables, w: Tables, sha: Sha)
    requires SameText(env, t, u, sha) && SameText(env, u, w, sha)
    ensures SameText(env, t, w, sha)
  {
    hide RelPath;
  }

  lemma BlobKeepsText(env: Env, t: Tables, own: Sha, size: nat, sha: Sha)
    ensures SameText(env, t, UpsertBlob(t, own, size), sha)
  {
    hide RelPath;
  }

  lemma MarkKeepsText(env: Env, t: Tables, own: Sha, sha: Sha)
    ensures SameText(env, t, MarkEmbedded(t, own, env.embedding), sha)
  {
    hide RelPath;
  }

  lemma ReapKeepsText(env: Env, t: Tables, user: User, id: FileKey, gone: Option<Sha>, sha: Sha)
    ensures SameText(env, t, ReapRow(t, user, id, gone), sha)
  {
    var deleted := SoftDelete(t, user, id);
    assert deleted == t.(files := deleted.files);
    hide References, EntriesOf, SoftDelete;
    SameTables(env, t, ReapRow(t, user, id, gone), sha);
  }

  lemma CrashReapKeepsText(
    env: Env, t: Tables, user: User, id: FileKey, gone: Option<Sha>, halt: RemovalPoint, sha: Sha)
    ensures SameText(env, t, CrashInReap(t, user, id, gone, halt), sha)
  {
    var deleted := SoftDelete(t, user, id);
    assert deleted == t.(files := deleted.files);
    hide References, EntriesOf, SoftDelete;
    SameTables(env, t, CrashInReap(t, user, id, gone, halt), sha);
  }

  lemma PathsDiffer(own: Sha, sha: Sha)
    requires sha != own
    ensures RelPath(own) != RelPath(sha)
  {
    if RelPath(own) == RelPath(sha) {
      RelPathInjective(own, sha);
    }
  }

  lemma WriteKeepsOthers(env: Env, t: Tables, own: Sha, text: string, sha: Sha)
    requires sha != own
    ensures SameText(env, t, WriteText(t, own, text), sha)
  {
    PathsDiffer(own, sha);
    hide RelPath;
  }

  /** Writes about one blob's text leave every other blob's alone. */
  lemma AfreshKeepsOthers(env: Env, t: Tables, own: Sha, text: string, sha: Sha)
    requires sha != own
    ensures var marked := MarkExtracted(WriteText(t, own, text), own, RelPath(own), env.extraction);
      && SameText(env, t, marked, sha)
      && SameText(env, t, ExtractAfresh(env, t, own, text), sha)
  {
    var written := WriteText(t, own, text);
    var marked := MarkExtracted(written, own, RelPath(own), env.extraction);
    WriteKeepsOthers(env, t, own, text, sha);
    MarkKeepsOthers(env, written, own, RelPath(own), env.extraction, sha);
    SameTwice(env, t, written, marked, sha);
    ReplaceKeepsOthers(env, marked, own, env.Chunks(text), sha);
    SameTwice(env, t, marked, ReplaceChunks(marked, own, env.Chunks(text)), sha);
    hide RelPath, WriteText, MarkExtracted, ReplaceChunks, SameText;
  }

  lemma MarkKeepsOthers(env: Env, t: Tables, own: Sha, ref: string, version: string, sha: Sha)
    requires sha != own
    ensures SameText(env, t, MarkExtracted(t, own, ref, version), sha)
  {
    hide RelPath;
  }

  lemma ReplaceKeepsOthers(env: Env, t: Tables, own: Sha, rows: seq<string>, sha: Sha)
    requires sha != own
    ensures SameText(env, t, ReplaceChunks(t, own, rows), sha)
  {
    hide RelPath;
  }

  lemma TextKeepsOthers(env: Env, t: Tables, own: Sha, key: string, data: Bytes, sha: Sha)
    requires sha != own
    ensures SameText(env, t, TextChunks(env, t, own, key, data).0, sha)
  {
    SameTables(env, t, t, sha);
    ReplaceKeepsOthers(env, t, own, env.Chunks(StoredText(t, own)), sha);
    if env.Extract(key, data).Some? {
      AfreshKeepsOthers(env, t, own, env.Extract(key, data).value, sha);
    }
    hide Env.Extract, Env.Chunks, UsesRows, UsesStoredText, RefUnreadable, ExtractAfresh, ReplaceChunks, SameText;
  }

  /** Of a blob it serves, the ladder parses nothing and returns its rows, or makes them of the text. */
  lemma ServedIsServed(env: Env, t: Tables, sha: Sha, key: string, data: Bytes)
    requires Served(env, t, sha)
    ensures var (u, r) := TextChunks(env, t, sha, key, data);
      && Stands(env, t, u, sha)
      && r == Ok(if ChunkRows(t, sha) != [] then ChunkRows(t, sha) else env.Chunks(StoredText(t, sha)))
  {
    hide Env.Extract, Env.Chunks;
    assert RelPath(sha)[|RelPath(sha)| - 1] == 't';
    hide RelPath;
  }

  lemma TextStands(env: Env, t: Tables, own: Sha, key: string, data: Bytes, sha: Sha)
    requires Served(env, t, sha)
    ensures Stands(env, t, TextChunks(env, t, own, key, data).0, sha)
  {
    hide TextChunks, Stands, Served, SameText;
    if sha == own {
      ServedIsServed(env, t, sha, key, data);
    } else {
      TextKeepsOthers(env, t, own, key, data, sha);
      SameStands(env, t, TextChunks(env, t, own, key, data).0, sha);
    }
  }

  lemma AttachKeepsText(
    env: Env, t: Tables, job: Job, own: Sha, chunks: seq<string>, fault: Fault, sha: Sha)
    ensures SameText(env, t, Attach(env, t, job, own, chunks, fault).0, sha)
  {
    IndexTouches(env, t, job.user, own, chunks, fault);
    hide IndexBlob, MarkEmbedded, SameText;
    var indexed := IndexBlob(env, t, job.user, own, chunks, fault).0;
    var held := AddHolding(indexed, job.user, own);
    var marked := MarkEmbedded(held, own, env.embedding);
    SameTables(env, t, held, sha);
    SameTables(env, t, indexed, sha);
    MarkKeepsText(env, held, own, sha);
    SameTables(env, marked, UpsertFile(marked, job.File(), job.Row(Some(own), None)), sha);
    SameTables(env, t, UpsertFile(t, job.File(), job.Row(Some(own), None)), sha);
    SameTwice(env, t, held, marked, sha);
    SameTwice(env, t, marked, UpsertFile(marked, job.File(), job.Row(Some(own), None)), sha);
  }

  lemma AttachCrashKeepsText(
    env: Env, t: Tables, job: Job, own: Sha, chunks: seq<string>, point: CrashPoint, sha: Sha)
    ensures SameText(env, t, CrashInAttach(env, t, job, own, chunks, point), sha)
  {
    var fault := if point.AfterCache? then UpsertFails else NoFault;
    IndexTouches(env, t, job.user, own, chunks, fault);
    hide IndexBlob, MarkEmbedded, SameText;
    var indexed := IndexBlob(env, t, job.user, own, chunks, fault).0;
    var held := AddHolding(indexed, job.user, own);
    SameTables(env, t, t, sha);
    SameTables(env, t, indexed, sha);
    SameTables(env, t, held, sha);
    MarkKeepsText(env, held, own, sha);
    SameTwice(env, t, held, MarkEmbedded(held, own, env.embedding), sha);
  }

  lemma TextCrashStands(
    env: Env, t: Tables, own: Sha, extracted: Option<string>, point: CrashPoint, sha: Sha)
    requires Served(env, t, sha)
    ensures Stands(env, t, CrashInText(env, t, own, extracted, point), sha)
  {
    SameTables(env, t, t, sha);
    SameStands(env, t, t, sha);
    if sha != own && extracted.Some? {
      AfreshKeepsOthers(env, t, own, extracted.value, sha);
      WriteKeepsOthers(env, t, own, extracted.value, sha);
      WriteKeepsOthers(env, t, own, if point.InWrite? then point.written else "", sha);
      SameStands(env, t, WriteText(t, own, extracted.value), sha);
      SameStands(env, t, WriteText(t, own, if point.InWrite? then point.written else ""), sha);
      SameStands(env, t, MarkExtracted(WriteText(t, own, extracted.value), own, RelPath(own), env.extraction), sha);
    }
    assert RelPath(sha)[|RelPath(sha)| - 1] == 't';
    hide RelPath, Stands, SameText, WriteText, MarkExtracted;
  }

  /** Up to the text: the blob row, and whatever branch gives the chunks. */
  lemma TextedStands(env: Env, t: Tables, own: Sha, key: string, data: Bytes, sha: Sha)
    requires Served(env, t, sha)
    ensures var start := UpsertBlob(t, own, |data|);
      && Served(env, start, sha) && Stands(env, t, start, sha)
      && Stands(env, t, TextChunks(env, start, own, key, data).0, sha)
  {
    hide TextChunks, UpsertBlob, Served, Stands, SameText;
    var start := UpsertBlob(t, own, |data|);
    BlobKeepsText(env, t, own, |data|, sha);
    SameStands(env, t, start, sha);
    StillServed(env, t, start, sha);
    TextStands(env, start, own, key, data, sha);
    StandsTwice(env, t, start, TextChunks(env, start, own, key, data).0, sha);
  }

  lemma CrashStands(env: Env, t: Tables, job: Job, point: CrashPoint, sha: Sha)
    requires Served(env, t, sha)
    ensures Stands(env, t, CrashIn(env, t, job, point), sha)
  {
    hide TextChunks, UpsertBlob, CrashInAttach, Unchanged, CrashInText, Served, Stands, SameText;
    SameTables(env, t, t, sha);
    SameStands(env, t, t, sha);
    if Downloads(t, job) {
      var data := job.fetched.value;
      var own := env.hash(data);
      var start := UpsertBlob(t, own, |data|);
      var inText := CrashInText(env, start, own, env.Extract(job.item.key, data), point);
      var (texted, text) := TextChunks(env, start, own, job.item.key, data);
      TextedStands(env, t, own, job.item.key, data, sha);
      TextCrashStands(env, start, own, env.Extract(job.item.key, data), point, sha);
      StandsTwice(env, t, start, inText, sha);
      if text.Ok? {
        var inAttach := CrashInAttach(env, texted, job, own, text.value, point);
        AttachCrashKeepsText(env, texted, job, own, text.value, point, sha);
        StandsThenSame(env, t, texted, inAttach, sha);
      }
    }
  }

  lemma SyncStands(env: Env, t: Tables, job: Job, fault: Fault, sha: Sha)
    requires Served(env, t, sha)
    ensures Stands(env, t, SyncObject(env, t, job, fault).0, sha)
  {
    hide Process, Served, Stands, SameText;
    ProcessStands(env, t, job, fault, sha);
    var (after, result) := Process(env, t, job, fault);
    if result.Raised? {
      SameTables(env, after, UpsertFile(after, job.File(), job.Row(None, Some(result.error))), sha);
      StandsThenSame(env, t, after, UpsertFile(after, job.File(), job.Row(None, Some(result.error))), sha);
    }
  }

  lemma ProcessStands(env: Env, t: Tables, job: Job, fault: Fault, sha: Sha)
    requires Served(env, t, sha)
    ensures Stands(env, t, Process(env, t, job, fault).0, sha)
  {
    hide TextChunks, UpsertBlob, Attach, Unchanged, Served, Stands, SameText;
    SameTables(env, t, t, sha);
    SameStands(env, t, t, sha);
    if Downloads(t, job) {
      var data := job.fetched.value;
      var own := env.hash(data);
      var (texted, text) := TextChunks(env, UpsertBlob(t, own, |data|), own, job.item.key, data);
      TextedStands(env, t, own, job.item.key, data, sha);
      if text.Ok? {
        AttachKeepsText(env, texted, job, own, text.value, fault, sha);
        StandsThenSame(env, t, texted, Attach(env, texted, job, own, text.value, fault).0, sha);
      }
    }
  }

  lemma StepStands(env: Env, t: Tables, op: Op, sha: Sha)
    requires Served(env, t, sha)
    ensures Served(env, Step(env, t, op), sha) && Stands(env, t, Step(env, t, op), sha)
  {
    hide SyncObject, CrashIn, ReapRow, CrashInReap, Served, Stands, SameText;
    SameTables(env, t, t, sha);
    SameStands(env, t, t, sha);
    match op {
      case Sync(job, fault) => SyncStands(env, t, job, fault, sha);
      case Crash(job, point) => CrashStands(env, t, job, point, sha);
      case Reap(user, id, gone) =>
        ReapKeepsText(env, t, user, id, gone, sha);
        SameStands(env, t, ReapRow(t, user, id, gone), sha);
      case Remove(user, id) =>
        if id.user == user && Live(t, id) {
          ReapKeepsText(env, t, user, id, t.files[id].sha, sha);
          SameStands(env, t, ReapRow(t, user, id, t.files[id].sha), sha);
        }
      case CrashReap(user, id, gone, halt) =>
        CrashReapKeepsText(env, t, user, id, gone, halt, sha);
        SameStands(env, t, CrashInReap(t, user, id, gone, halt), sha);
    }
    StillServed(env, t, Step(env, t, op), sha);
  }

  /**
   * Whatever anybody does under one version, a marked blob keeps its rows; one without rows
   * keeps its stored text, and the only rows it can get are the chunks of that text.
   */
  lemma {:induction false} MarkedTextLasts(env: Env, t: Tables, ops: seq<Op>, sha: Sha)
    requires Served(env, t, sha)
    ensures Served(env, Play(env, t, ops), sha) && Stands(env, t, Play(env, t, ops), sha)
    decreases |ops|
  {
    hide Step, Served, Stands;
    if ops == [] {
      hide SameText;
      SameTables(env, t, t, sha);
      SameStands(env, t, t, sha);
    } else {
      StepStands(env, t, ops[0], sha);
      MarkedTextLasts(env, Step(env, t, ops[0]), ops[1..], sha);
      StandsTwice(env, t, Step(env, t, ops[0]), Play(env, t, ops), sha);
    }
  }

  /** In particular the rows of a marked blob never change again. */
  lemma MarkedRowsLast(env: Env, t: Tables, ops: seq<Op>, sha: Sha)
    requires Marked(env, t, sha) && ChunkRows(t, sha) != []
    ensures Marked(env, Play(env, t, ops), sha) && ChunkRows(Play(env, t, ops), sha) == ChunkRows(t, sha)
  {
    hide Play;
    MarkedTextLasts(env, t, ops, sha);
  }

  // --- a crash between mark_blob_extracted and replace_chunks, across an extraction version -------

  /**
   * A blob that is not marked dies right after the mark. The next step, under whatever
   * name, gets the chunks of the new extraction exactly when there were no chunk rows
   * before, or the very same ones.
   */
  lemma MarkCrashExactly(env: Env, t: Tables, job: Job, key: string)
    requires Downloads(t, job) && env.Extract(job.item.key, job.fetched.value).Some?
    requires !Marked(env, t, env.hash(job.fetched.value))
    ensures var sha := env.hash(job.fetched.value);
      var chunks := env.Chunks(env.Extract(job.item.key, job.fetched.value).value);
      TextChunks(env, CrashIn(env, t, job, AfterMark), sha, key, job.fetched.value).1 == Ok(chunks)
      <==> ChunkRows(t, sha) == [] || ChunkRows(t, sha) == chunks
  {
    var data := job.fetched.value;
    var sha, text := env.hash(data), env.Extract(job.item.key, data).value;
    var u := CrashIn(env, t, job, AfterMark);
    AfterMarkState(env, t, job);
    ExtractedTextIsClean(env.decode, data);
    hide CrashIn, Env.Chunks, Env.Extract;
    if ChunkRows(t, sha) != [] {
      MarkedServesRows(env, u, sha, key, data);
    }
  }

  lemma AfterMarkState(env: Env, t: Tables, job: Job)
    requires Downloads(t, job) && env.Extract(job.item.key, job.fetched.value).Some?
    requires !Marked(env, t, env.hash(job.fetched.value))
    ensures var sha := env.hash(job.fetched.value);
      var u := CrashIn(env, t, job, AfterMark);
      && Marked(env, u, sha) && ChunkRows(u, sha) == ChunkRows(t, sha)
      && TextRef(u, sha) == RelPath(sha)
      && StoredText(u, sha) == env.Extract(job.item.key, job.fetched.value).value
  {
    var data := job.fetched.value;
    var sha := env.hash(data);
    var start := UpsertBlob(t, sha, |data|);
    BlobKeepsText(env, t, sha, |data|, sha);
    WrittenAndMarked(env, start, sha, env.Extract(job.item.key, data).value);
    hide Env.Extract, RelPath, Marked, StoredText, TextRef, WriteText, MarkExtracted, UsesStoredText, Unchanged;
    assert sha in start.blobs;
  }

  lemma WrittenAndMarked(env: Env, t: Tables, sha: Sha, text: string)
    requires sha in t.blobs
    ensures var u := MarkExtracted(WriteText(t, sha, text), sha, RelPath(sha), env.extraction);
      && Marked(env, u, sha) && ChunkRows(u, sha) == ChunkRows(t, sha)
      && TextRef(u, sha) == RelPath(sha) && StoredText(u, sha) == text
  {
    hide RelPath;
  }

  /**
   * A history that gets there. The platform ran one document under another version, whose
   * splitter gave other chunks; after the bump a second name for the same bytes dies right
   * after the mark. From then on, whatever anybody does, every step on these bytes is
   * served the chunks of the old version.
   */
  lemma CrashAfterMarkServesOldChunks(
    env: Env, version: string, split: string -> seq<string>, first: Job, second: Job, ops: seq<Op>, key: string)
    requires env.Valid() && version != env.extraction && first.fetched.Some?
    requires first.fetched == second.fetched && first.File() != second.File()
    ensures var data := first.fetched.value;
      var was := env.(extraction := version, split := split);
      var before := Play(was, Empty, [Sync(first, NoFault)]);
      var after := Play(env, CrashIn(env, before, second, AfterMark), ops);
      env.Extract(first.item.key, data).Some? && env.Extract(second.item.key, data).Some? ==>
        var served := NonBlank(split(env.Extract(first.item.key, data).value));
        served != [] ==> TextChunks(env, after, env.hash(data), key, data).1 == Ok(served)
  {
    var data := first.fetched.value;
    if env.Extract(first.item.key, data).Some? && env.Extract(second.item.key, data).Some?
      && NonBlank(split(env.Extract(first.item.key, data).value)) != []
    {
      OldChunksServed(env, version, split, first, second, ops, key);
    }
  }

  lemma OldChunksServed(
    env: Env, version: string, split: string -> seq<string>, first: Job, second: Job, ops: seq<Op>, key: string)
    requires env.Valid() && version != env.extraction && first.fetched.Some?
    requires first.fetched == second.fetched && first.File() != second.File()
    requires env.Extract(first.item.key, first.fetched.value).Some?
    requires env.Extract(second.item.key, first.fetched.value).Some?
    requires NonBlank(split(env.Extract(first.item.key, first.fetched.value).value)) != []
    ensures var data := first.fetched.value;
      var was := env.(extraction := version, split := split);
      var before := Play(was, Empty, [Sync(first, NoFault)]);
      TextChunks(env, Play(env, CrashIn(env, before, second, AfterMark), ops), env.hash(data), key, data).1
        == Ok(NonBlank(split(env.Extract(first.item.key, data).value)))
  {
    var data := first.fetched.value;
    var sha := env.hash(data);
    var was := env.(extraction := version, split := split);
    var before := Play(was, Empty, [Sync(first, NoFault)]);
    UnderTheOldVersion(env, was, first, second);
    AfterMarkState(env, before, second);
    var crashed := CrashIn(env, before, second, AfterMark);
    hide CrashIn, Marked, ChunkRows, Play;
    MarkedRowsLast(env, crashed, ops, sha);
    MarkedServesRows(env, Play(env, crashed, ops), sha, key, data);
  }

  lemma UnderTheOldVersion(env: Env, was: Env, first: Job, second: Job)
    requires env.Valid() && was == env.(extraction := was.extraction, split := was.split)
    requires was.extraction != env.extraction && first.fetched.Some?
    requires first.fetched == second.fetched && first.File() != second.File()
    requires env.Extract(first.item.key, first.fetched.value).Some?
    ensures var data := first.fetched.value;
      var sha := env.hash(data);
      var before := Play(was, Empty, [Sync(first, NoFault)]);
      && !Marked(env, before, sha) && Downloads(before, second)
      && ChunkRows(before, sha) == was.Chunks(env.Extract(first.item.key, data).value)
  {
    var data := first.fetched.value;
    var sha := env.hash(data);
    var before := SyncObject(was, Empty, first, NoFault).0;
    assert [Sync(first, NoFault)][1..] == [];
    assert Play(was, Empty, [Sync(first, NoFault)]) == Play(was, Step(was, Empty, Sync(first, NoFault)), []) by {
      hide Step;
    }
    assert Play(was, before, []) == before;
    hide SyncObject, Play, Step, Inv;
    EmptyIsSound(was);
    SyncKeeps(was, Empty, first, NoFault);
    NonInterference.SyncedIsMarked(was, first);
    NonInterference.FreshSync(was, Empty, first);
    Crashes.ReadyByName(was, Empty, first);
    Crashes.FilesOfOneSync(was, Empty, first);
    LiveIsHeld(was, before, first.File());
    HeldHasText(was, before, first.user, sha);
    was.CanonIsOfTheBytes(data);
  }

  // --- a bump of the chunking version -------------------------------------------------------------

  /**
   * packages/core/textstore.py promises that documents re-chunk when CHUNKING_VERSION is
   * bumped, which changes the splitter and the name of the embedding version alone. Bytes
   * extracted before the bump are served their new chunks, then and after any history of
   * anybody, if and only if they had no rows yet or the two splitters agree on their text.
   */
  lemma ChunkingBumpExactly(
    env: Env, now: Env, ops: seq<Op>, since: seq<Op>, key: string, data: Bytes)
    requires env.Valid() && now == env.(split := now.split, embedding := now.embedding)
    ensures var sha := env.hash(data);
      var before := Play(env, Empty, ops);
      Marked(env, before, sha) ==>
        && env.TextOf(data).Some?
        && var (was, wanted) := (env.Chunks(env.TextOf(data).value), now.Chunks(env.TextOf(data).value));
        (TextChunks(now, Play(now, before, since), sha, key, data).1 == Ok(wanted)
         <==> ChunkRows(before, sha) == [] || was == wanted)
  {
    var sha := env.hash(data);
    var before := Play(env, Empty, ops);
    hide Inv, Play, TextChunks, Env.Chunks, Env.TextOf, StoredText, ChunkRows, Marked, Served, Stands;
    EmptyIsSound(env);
    PlayKeeps(env, Empty, ops);
    if Marked(env, before, sha) {
      MarkedIsServed(env, now, before, data);
      MarkedTextLasts(now, before, since, sha);
      ServedIsServed(now, Play(now, before, since), sha, key, data);
      ServedChunks(now, before, Play(now, before, since), sha);
    }
  }

  lemma MarkedIsServed(env: Env, now: Env, t: Tables, data: Bytes)
    requires env.Valid() && Inv(env, t) && Marked(env, t, env.hash(data)) && now.extraction == env.extraction
    ensures var sha := env.hash(data);
      && Served(now, t, sha)
      && env.TextOf(data) == Some(StoredText(t, sha))
      && (ChunkRows(t, sha) == [] || ChunkRows(t, sha) == env.Chunks(StoredText(t, sha)))
  {
    env.CanonIsOfTheBytes(data);
    TextOkFrom(env, t, env.hash(data));
    hide Inv, RelPath, StoredText, TextRef, ChunkRows;
    ExtractedTextIsClean(env.decode, data);
  }

  /** What a step on the blob is served, told by the state in which it was last seen. */
  lemma ServedChunks(env: Env, t: Tables, u: Tables, sha: Sha)
    requires Served(env, t, sha) && Stands(env, t, u, sha)
    ensures (if ChunkRows(u, sha) != [] then ChunkRows(u, sha) else env.Chunks(StoredText(u, sha)))
      == if ChunkRows(t, sha) != [] then ChunkRows(t, sha) else env.Chunks(StoredText(t, sha))
  {
    hide RelPath, StoredText, TextRef, Marked, Env.Chunks;
  }

  /** A bump that is ignored: one sync before it is enough, whatever comes after. */
  lemma ChunkingBumpIsIgnored(env: Env, now: Env, job: Job, since: seq<Op>, key: string)
    requires env.Valid() && now == env.(split := now.split, embedding := now.embedding)
    requires job.fetched.Some? && env.Extract(job.item.key, job.fetched.value).Some?
    requires var text := env.Extract(job.item.key, job.fetched.value).value;
      env.Chunks(text) != [] && env.Chunks(text) != now.Chunks(text)
    ensures var data := job.fetched.value;
      var before := Play(env, Empty, [Sync(job, NoFault)]);
      TextChunks(now, Play(now, before, since), env.hash(data), key, data).1
        == Ok(env.Chunks(env.Extract(job.item.key, data).value))
  {
    var sha := env.hash(job.fetched.value);
    var before := Play(env, Empty, [Sync(job, NoFault)]);
    AfterOneSync(env, job);
    hide Play, TextChunks, Env.Extract, Env.Chunks, Marked, ChunkRows;
    SameMark(env, now, before, sha);
    MarkedRowsLast(now, before, since, sha);
    MarkedServesRows(now, Play(now, before, since), sha, key, job.fetched.value);
  }

  lemma SameMark(env: Env, now: Env, t: Tables, sha: Sha)
    requires now.extraction == env.extraction
    ensures Marked(now, t, sha) <==> Marked(env, t, sha)
  {
  }

  lemma AfterOneSync(env: Env, job: Job)
    requires env.Valid() && job.fetched.Some? && env.Extract(job.item.key, job.fetched.value).Some?
    ensures var t := Play(env, Empty, [Sync(job, NoFault)]);
      && Marked(env, t, env.hash(job.fetched.value))
      && ChunkRows(t, env.hash(job.fetched.value)) == env.Chunks(env.Extract(job.item.key, job.fetched.value).value)
  {
    var t := SyncObject(env, Empty, job, NoFault).0;
    assert [Sync(job, NoFault)][1..] == [];
    assert Play(env, t, []) == t;
    assert Play(env, Empty, [Sync(job, NoFault)]) == Play(env, Step(env, Empty, Sync(job, NoFault)), []) by {
      hide Step;
    }
    hide SyncObject, Inv, TextReady, Play, Step;
    EmptyIsSound(env);
    Crashes.ReadyByName(env, Empty, job);
    NonInterference.FreshSync(env, Empty, job);
    SyncKeeps(env, Empty, job, NoFault);
    LiveIsHeld(env, t, job.File());
    HeldHasText(env, t, job.user, env.hash(job.fetched.value));
    env.CanonIsOfTheBytes(job.fetched.value);
  }

  // --- a bump of the embedding version ------------------------------------------------------------

  /**
   * packages/core/config.py promises that a model change invalidates cached work. It does
   * not reach a collection: for as long as a user goes on possessing the bytes, through any
   * history under any later versions, every vector of theirs is the old model's.
   */
  lemma HeldVectorsKeepTheirModel(
    env: Env, now: Env, ops: seq<Op>, since: seq<Op>, user: User, ref: ChunkRef)
    requires env.Valid()
    requires forall k :: 0 <= k < |since| ==>
      Holding(user, ref.sha) in Play(now, Play(env, Empty, ops), since[..k]).holds
    ensures var vectors := CollectionOf(Play(now, Play(env, Empty, ops), since), user);
      ref in vectors ==>
        && ref.ordinal < |env.Canon(ref.sha)|
        && vectors[ref].vector == env.single(env.embed(env.Canon(ref.sha)[ref.ordinal]))
  {
    hide Play, CollectionOf;
    Crashes.HeldEntriesStay(now, Play(env, Empty, ops), since, user, ref);
    CollectionsHoldOwnVectors(env, ops, user, ref);
  }
}
