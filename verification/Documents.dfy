/**
 * services/api/app/rag/retrieval/user_scoped.py: from hits to citable documents, and
 * packages/core/repositories.py: the file each one is attributed to.
 */
module Documents {
  import opened Wrappers
  import opened Text
  import opened Content
  import opened Store
  import opened Fusion
  import opened Retrieval
  import opened Invariant
  import Reachable
  import Ladder

  datatype Document = Document(
    text: string, title: string, source: string, file: Option<FileKey>,
    chunkId: string, sha: string, ordinal: nat)

  // --- get_attribution ----------------------------------------------------------------------------

  function NamesOf(t: Tables, user: User, sha: Sha): set<FileKey> {
    set id | id in t.files && id.user == user && t.files[id].sha == Some(sha) && !t.files[id].deleted
  }

  /** id is a live name user has for sha, and none of them sorts before it. */
  ghost predicate Names(t: Tables, user: User, sha: Sha, id: FileKey) {
    && id in NamesOf(t, user, sha)
    && forall other :: other in NamesOf(t, user, sha) ==> TextLe(id.key, other.key)
  }

  lemma {:induction false} FirstNameExists(names: set<FileKey>) returns (id: FileKey)
    requires names != {}
    ensures id in names && forall other :: other in names ==> TextLe(id.key, other.key)
  {
    id :| id in names;
    TextLeTotal(id.key, id.key);
    if names != {id} {
      var first := FirstNameExists(names - {id});
      TextLeTotal(id.key, first.key);
      if !TextLe(id.key, first.key) {
        id := first;
      } else {
        forall other | other in names ensures TextLe(id.key, other.key) {
          if other != id {
            TextLeTransitive(id.key, first.key, other.key);
          }
        }
      }
    }
  }

  method GetAttribution(t: Tables, user: User, shas: seq<Sha>) returns (out: map<Sha, FileKey>)
    ensures forall sha :: sha in out <==> sha in shas && sha != "" && References(t, user, sha)
    ensures forall sha :: sha in out ==> Names(t, user, sha, out[sha])
  {
    out := map[];
    for i := 0 to |shas|
      invariant forall sha :: sha in out <==> sha in shas[..i] && sha != "" && References(t, user, sha)
      invariant forall sha :: sha in out ==> Names(t, user, sha, out[sha])
    {
      var names := NamesOf(t, user, shas[i]);
      ReferencesAreNames(t, user, shas[i]);
      if shas[i] != "" && shas[i] !in out && names != {} {
        ghost var first := FirstNameExists(names);
        var id :| id in names && forall other :: other in names ==> TextLe(id.key, other.key);
        out := out[shas[i] := id];
      }
    }
  }

  lemma ReferencesAreNames(t: Tables, user: User, sha: Sha)
    ensures References(t, user, sha) <==> NamesOf(t, user, sha) != {}
  {
    if References(t, user, sha) {
      var id :| id in t.files && id.user == user && t.files[id].sha == Some(sha) && !t.files[id].deleted;
      assert id in NamesOf(t, user, sha);
    }
  }

  // --- _to_documents ----------------------------------------------------------------------------------

  /** The text behind an id, for this user; None for everything that does not resolve. */
  function Readable(t: Tables, user: User, id: string): Option<string> {
    match ParseChunkId(id)
    case None => None
    case Some(ref) => if ChunkId(ref) == id then Resolve(t, user, ref) else None
  }

  /** The hits that become documents: those with text, in order. */
  function Shown(t: Tables, user: User, hits: seq<Hit>): seq<Hit> {
    if hits == [] then []
    else
      var last := hits[|hits| - 1];
      Shown(t, user, hits[..|hits| - 1]) + if Readable(t, user, last.chunkId).GetOr("") != "" then [last] else []
  }

  /** key.rsplit("/", 1)[-1], or "unknown". */
  function Title(key: string): string {
    var name := key[LastIndex(key, '/') + 1..];
    if name != "" then name else "unknown"
  }

  /** The citation a hit gets. */
  ghost predicate Cites(t: Tables, user: User, hit: Hit, doc: Document) {
    && doc.text == Readable(t, user, hit.chunkId).GetOr("")
    && doc.chunkId == hit.chunkId && doc.sha == hit.sha && doc.ordinal == hit.ordinal
    && if hit.sha != "" && References(t, user, hit.sha) then
         && doc.file.Some? && Names(t, user, hit.sha, doc.file.value)
         && doc.title == Title(doc.file.value.key)
         && doc.source == if doc.file.value.key != "" then doc.file.value.key else "unknown"
       else doc.file == None && doc.title == doc.source == "unknown"
  }

  ghost predicate AllCite(t: Tables, user: User, shown: seq<Hit>, docs: seq<Document>) {
    |docs| == |shown| && forall i :: 0 <= i < |docs| ==> Cites(t, user, shown[i], docs[i])
  }

  method ToDocuments(t: Tables, user: User, hits: seq<Hit>) returns (docs: seq<Document>)
    ensures AllCite(t, user, Shown(t, user, hits), docs)
  {
    hide Readable, Names, ResolvesExactly, Resolve, Cites, References, Cite;
    docs := [];
    if hits == [] {
      return;
    }
    var ids := seq(|hits|, i requires 0 <= i < |hits| => hits[i].chunkId);
    var shas := seq(|hits|, i requires 0 <= i < |hits| => hits[i].sha);
    var texts := GetChunkTexts(t, user, ids);
    var attribution := GetAttribution(t, user, shas);
    for h := 0 to |hits|
      invariant AllCite(t, user, Shown(t, user, hits[..h]), docs)
    {
      var hit := hits[h];
      assert hits[..h + 1][..h] == hits[..h];
      assert ids[h] == hit.chunkId && shas[h] == hit.sha;
      LookupIsReadable(t, user, ids, texts, h);
      var text := if hit.chunkId in texts then texts[hit.chunkId] else "";
      if text == "" {
        continue;
      }
      var file := if hit.sha in attribution then Some(attribution[hit.sha]) else None;
      CiteIsRight(t, user, hit, file);
      docs := docs + [Cite(hit, text, file)];
    }
    assert hits[..|hits|] == hits;
  }

  function Cite(hit: Hit, text: string, file: Option<FileKey>): Document {
    var key := if file.Some? then file.value.key else "";
    Document(
      text, Title(key), if key != "" then key else "unknown", file, hit.chunkId, hit.sha, hit.ordinal)
  }

  lemma CiteIsRight(t: Tables, user: User, hit: Hit, file: Option<FileKey>)
    requires file.Some? <==> hit.sha != "" && References(t, user, hit.sha)
    requires file.Some? ==> Names(t, user, hit.sha, file.value)
    ensures Cites(t, user, hit, Cite(hit, Readable(t, user, hit.chunkId).GetOr(""), file))
  {
    EmptyTitle();
    hide Names, References, Readable, Title;
  }

  lemma EmptyTitle()
    ensures Title("") == "unknown"
  {
  }

  lemma LookupIsReadable(t: Tables, user: User, ids: seq<string>, texts: map<string, string>, i: nat)
    requires i < |ids| && ResolvesExactly(t, user, Parsed(ids), texts)
    ensures (if ids[i] in texts then Some(texts[ids[i]]) else None) == Readable(t, user, ids[i])
  {
    hide Resolve;
    var id, refs := ids[i], Parsed(ids);
    if id in texts {
      var ref :| ref in refs && id == ChunkId(ref) && Resolve(t, user, ref) == Some(texts[id]);
      ChunkIdRoundTrip(ref);
    } else if ParseChunkId(id).Some? {
      var ref := ParseChunkId(id).value;
      assert Asked(ids, ref);
    }
  }

  // --- what a reader of the documents may rely on -------------------------------------------------------

  /** Whatever the hits say, a document holds text of bytes the user possesses now. */
  lemma OnlyPossessedText(t: Tables, user: User, hits: seq<Hit>, docs: seq<Document>, i: nat)
    requires AllCite(t, user, Shown(t, user, hits), docs) && i < |docs|
    ensures exists ref: ChunkRef ::
      && docs[i].chunkId == ChunkId(ref) && Holding(user, ref.sha) in t.holds
      && ref.ordinal < |ChunkRows(t, ref.sha)| && docs[i].text == ChunkRows(t, ref.sha)[ref.ordinal]
    ensures docs[i].text != ""
  {
    ShownHaveText(t, user, hits, i);
    var hit := Shown(t, user, hits)[i];
    var ref := ParseChunkId(hit.chunkId).value;
    assert docs[i].chunkId == ChunkId(ref);
  }

  lemma {:induction false} ShownHaveText(t: Tables, user: User, hits: seq<Hit>, i: nat)
    requires i < |Shown(t, user, hits)|
    ensures Readable(t, user, Shown(t, user, hits)[i].chunkId).GetOr("") != ""
  {
    hide Readable;
    if i < |Shown(t, user, hits[..|hits| - 1])| {
      ShownHaveText(t, user, hits[..|hits| - 1], i);
    }
  }

  /**
   * In every reachable state a vector hit on bytes the user possesses reads back the
   * very text that was embedded, and a hit on anything else reads nothing.
   */
  lemma HitsReadWhatWasEmbedded(env: Env, ops: seq<Ladder.Op>, user: User, ref: ChunkRef)
    requires env.Valid() && ref.sha != ""
    ensures var t := Ladder.Play(env, Empty, ops);
      ref in CollectionOf(t, user) ==>
        Readable(t, user, ChunkId(ref)) ==
          if Holding(user, ref.sha) in t.holds then Some(CollectionOf(t, user)[ref].document) else None
  {
    hide Inv, Readable, Ladder.Play, ChunkId, Resolve, CollectionOf;
    EmptyIsSound(env);
    Reachable.PlayKeeps(env, Empty, ops);
    var t := Ladder.Play(env, Empty, ops);
    ReadsEmbeddedText(env, t, user, ref);
  }

  lemma ReadsEmbeddedText(env: Env, t: Tables, user: User, ref: ChunkRef)
    requires Inv(env, t) && ref.sha != ""
    ensures ref in CollectionOf(t, user) ==>
      Readable(t, user, ChunkId(ref)) ==
        if Holding(user, ref.sha) in t.holds then Some(CollectionOf(t, user)[ref].document) else None
  {
    ChunkIdRoundTrip(ref);
    hide ChunkId, ParseChunkId;
    if ref in CollectionOf(t, user) {
      assert EntryOk(env, t, user, ref);
      if Holding(user, ref.sha) in t.holds {
        assert HasText(env, t, ref.sha);
      }
    }
  }
}
