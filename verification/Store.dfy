/**
 * The platform's state as one value, and every repository transaction on it as
 * a function. The tables follow packages/core/schema.sql; an id column that is
 * fixed by a unique key of its row is represented by that key.
 */
module Store {
  import opened Wrappers
  import opened Content

  type User = string
  type Id = string

  datatype Fingerprint = Fingerprint(etag: Option<string>, size: Option<int>, mtime: Option<real>)
  datatype ListedObject = ListedObject(key: string, stamp: Fingerprint)

  datatype FileKey = FileKey(user: User, datasource: Id, key: string)
  datatype FileState = Indexed | Failed | Deleted
  datatype SyncFault = FetchError | ExtractError | TextStoreError | EmbedError | CacheError | VectorStoreError
  datatype FileRow = FileRow(
    directory: Id, stamp: Fingerprint, sha: Option<Sha>,
    state: FileState, error: Option<SyncFault>, deleted: bool)

  datatype Blob = Blob(
    size: nat, textRef: Option<string>, extraction: Option<string>, embedding: Option<string>)
  datatype Holding = Holding(user: User, sha: Sha)
  datatype ChunkRef = ChunkRef(sha: Sha, ordinal: nat)
  datatype CacheKey = CacheKey(sha: Sha, ordinal: nat, version: string)
  datatype Entry = Entry(vector: Vector, document: string, owner: User, sha: Sha, ordinal: nat)
  type Collection = map<ChunkRef, Entry>

  datatype Tables = Tables(
    blobs: map<Sha, Blob>,
    chunks: map<Sha, seq<string>>,       // rows of one blob, by ordinal
    cache: map<CacheKey, Vector>,
    texts: map<string, string>,          // the text store: path to contents
    files: map<FileKey, FileRow>,
    holds: set<Holding>,                 // user_blobs
    collections: map<User, Collection>)

  const Empty := Tables(map[], map[], map[], map[], map[], {}, map[])

  // --- blobs, texts and chunks ----------------------------------------------------

  function RelPath(sha: Sha): string {
    (if |sha| >= 2 then sha[..2] else sha) + "/" + sha + ".txt"
  }

  function UpsertBlob(t: Tables, sha: Sha, size: nat): Tables {
    if sha in t.blobs then t
    else t.(blobs := t.blobs[sha := Blob(size, None, None, None)])
  }

  function WriteText(t: Tables, sha: Sha, text: string): Tables {
    t.(texts := t.texts[RelPath(sha) := text])
  }

  function MarkExtracted(t: Tables, sha: Sha, ref: string, version: string): Tables {
    if sha !in t.blobs then t
    else t.(blobs := t.blobs[sha := t.blobs[sha].(textRef := Some(ref), extraction := Some(version))])
  }

  function MarkEmbedded(t: Tables, sha: Sha, version: string): Tables {
    if sha !in t.blobs then t
    else t.(blobs := t.blobs[sha := t.blobs[sha].(embedding := Some(version))])
  }

  function ReplaceChunks(t: Tables, sha: Sha, texts: seq<string>): Tables {
    t.(chunks := t.chunks[sha := texts])
  }

  function ChunkRows(t: Tables, sha: Sha): seq<string> {
    if sha in t.chunks then t.chunks[sha] else []
  }

  /** Two blobs never share a file in the text store. */
  lemma RelPathInjective(a: Sha, b: Sha)
    requires RelPath(a) == RelPath(b)
    ensures a == b
  {
    var p := RelPath(a);
    assert |a| == |b|;
    var skip := if |a| >= 2 then 3 else |a| + 1;
    assert p[skip..|p| - 4] == a;
    assert p[skip..|p| - 4] == b;
  }

  // --- the embedding cache and the collections ----------------------------------------

  /** ON CONFLICT DO NOTHING: a cached vector is never overwritten. */
  function PutCached(t: Tables, sha: Sha, version: string, vectors: map<nat, Vector>): Tables {
    t.(cache := (map i | i in vectors :: CacheKey(sha, i, version) := vectors[i]) + t.cache)
  }

  function CollectionOf(t: Tables, user: User): Collection {
    if user in t.collections then t.collections[user] else map[]
  }

  function UpsertEntries(t: Tables, user: User, entries: Collection): Tables {
    t.(collections := t.collections[user := CollectionOf(t, user) + entries])
  }

  /** The ids drop_blob_for_user finds and deletes. */
  function EntriesOf(t: Tables, user: User, sha: Sha): set<ChunkRef> {
    set ref | ref in CollectionOf(t, user) && CollectionOf(t, user)[ref].sha == sha
  }

  function DropEntries(t: Tables, user: User, sha: Sha): Tables {
    t.(collections := t.collections[user := CollectionOf(t, user) - EntriesOf(t, user, sha)])
  }

  // --- possession and attribution -----------------------------------------------------

  function AddHolding(t: Tables, user: User, sha: Sha): Tables {
    t.(holds := t.holds + {Holding(user, sha)})
  }

  function RemoveHolding(t: Tables, user: User, sha: Sha): Tables {
    t.(holds := t.holds - {Holding(user, sha)})
  }

  function UpsertFile(t: Tables, id: FileKey, row: FileRow): Tables {
    t.(files := t.files[id := row])
  }

  predicate Live(t: Tables, id: FileKey) {
    id in t.files && !t.files[id].deleted
  }

  function SoftDelete(t: Tables, user: User, id: FileKey): Tables {
    if id.user == user && Live(t, id) then
      t.(files := t.files[id := t.files[id].(state := Deleted, deleted := true)])
    else t
  }

  /** user_still_references_blob. */
  predicate References(t: Tables, user: User, sha: Sha) {
    exists id :: id in t.files && id.user == user && t.files[id].sha == Some(sha) && !t.files[id].deleted
  }

  // --- the read path --------------------------------------------------------------------

  /** One row of the join behind get_chunk_texts: text only for what the user possesses. */
  function Resolve(t: Tables, user: User, ref: ChunkRef): Option<string> {
    if Holding(user, ref.sha) in t.holds && ref.ordinal < |ChunkRows(t, ref.sha)|
    then Some(ChunkRows(t, ref.sha)[ref.ordinal])
    else None
  }
}
