/**
 * The removal rule, shared by DELETE /files/{id} and by the worker's reap: any
 * number of names may go, in any order and by either path, and what is left is
 * decided by the set of names that went.
 */
module Removal {
  import opened Wrappers
  import opened Content
  import opened Store
  import opened Ladder
  import opened Invariant
  import Isolation
  import opened Reachable
  import Vectors

  // --- the effect of removing a set of names ------------------------------------------------

  function Tombstone(row: FileRow): FileRow {
    if row.deleted then row else row.(state := Deleted, deleted := true)
  }

  function FilesWithout(t: Tables, gone: set<FileKey>): Tables {
    t.(files := map id | id in t.files :: if id in gone then Tombstone(t.files[id]) else t.files[id])
  }

  /** The blobs whose last live name of this user is among those that went. */
  function Orphaned(t: Tables, user: User, gone: set<FileKey>): set<Sha> {
    set id | id in gone && Live(t, id) && t.files[id].sha.Some?
             && !References(FilesWithout(t, gone), user, t.files[id].sha.value)
      :: t.files[id].sha.value
  }

  function Without(vectors: Collection, shas: set<Sha>): Collection {
    map ref | ref in vectors && vectors[ref].sha !in shas :: vectors[ref]
  }

  function HoldingsOf(user: User, shas: set<Sha>): set<Holding> {
    set sha | sha in shas :: Holding(user, sha)
  }

  function DropAll(t: Tables, user: User, shas: set<Sha>): Tables {
    if shas == {} then t
    else t.(
      holds := t.holds - HoldingsOf(user, shas),
      collections := t.collections[user := Without(CollectionOf(t, user), shas)])
  }

  function RemoveSet(t: Tables, user: User, gone: set<FileKey>): Tables {
    DropAll(FilesWithout(t, gone), user, Orphaned(t, user, gone))
  }

  /** The names in question: live rows of the user. */
  predicate LiveNames(t: Tables, user: User, ids: set<FileKey>) {
    forall id :: id in ids ==> id.user == user && Live(t, id)
  }

  lemma ReferencesFrame(t: Tables, u: Tables, user: User, sha: Sha)
    requires t.files == u.files
    ensures References(t, user, sha) <==> References(u, user, sha)
  {
  }

  lemma FilesAfterOneMore(t: Tables, user: User, gone: set<FileKey>, id: FileKey)
    requires id.user == user && Live(t, id) && id !in gone
    ensures SoftDelete(RemoveSet(t, user, gone), user, id).files == FilesWithout(t, gone + {id}).files
  {
    assert RemoveSet(t, user, gone).files == FilesWithout(t, gone).files;
  }

  /** A name that still stands keeps its blob from being an orphan. */
  lemma NotYetOrphaned(t: Tables, user: User, gone: set<FileKey>, id: FileKey)
    requires id.user == user && Live(t, id) && id !in gone && t.files[id].sha.Some?
    ensures t.files[id].sha.value !in Orphaned(t, user, gone)
  {
    assert id in FilesWithout(t, gone).files && FilesWithout(t, gone).files[id] == t.files[id];
  }

  lemma OrphansAfterOneMore(t: Tables, user: User, gone: set<FileKey>, id: FileKey)
    requires LiveNames(t, user, gone) && id.user == user && Live(t, id) && id !in gone
    ensures Orphaned(t, user, gone + {id}) ==
      if t.files[id].sha.Some? && !References(FilesWithout(t, gone + {id}), user, t.files[id].sha.value)
      then Orphaned(t, user, gone) + {t.files[id].sha.value}
      else Orphaned(t, user, gone)
  {
    var more := gone + {id};
    var a, b := FilesWithout(t, gone), FilesWithout(t, more);
    forall sha | Some(sha) != t.files[id].sha
      ensures References(a, user, sha) <==> References(b, user, sha)
    {
      forall k | k in t.files && k != id ensures a.files[k] == b.files[k] {
      }
      assert a.files[id] == t.files[id] && b.files[id].sha == t.files[id].sha;
      if References(a, user, sha) {
        var k :| k in a.files && k.user == user && a.files[k].sha == Some(sha) && !a.files[k].deleted;
        assert k in b.files && b.files[k] == a.files[k];
      }
      if References(b, user, sha) {
        var k :| k in b.files && k.user == user && b.files[k].sha == Some(sha) && !b.files[k].deleted;
        assert k in a.files && b.files[k] == a.files[k];
      }
    }
    if t.files[id].sha.Some? {
      NotYetOrphaned(t, user, gone, id);
      SameShaInFiles(t, user, gone, id);
    }
    OrphanSets(t, user, gone, id);
  }

  lemma SameShaInFiles(t: Tables, user: User, gone: set<FileKey>, id: FileKey)
    requires id in t.files
    ensures id in FilesWithout(t, gone).files && FilesWithout(t, gone).files[id].sha == t.files[id].sha
  {
  }

  lemma OrphanSets(t: Tables, user: User, gone: set<FileKey>, id: FileKey)
    requires id.user == user && Live(t, id) && id !in gone
    requires forall sha :: Some(sha) != t.files[id].sha ==>
      (References(FilesWithout(t, gone), user, sha) <==> References(FilesWithout(t, gone + {id}), user, sha))
    requires t.files[id].sha.Some? ==> t.files[id].sha.value !in Orphaned(t, user, gone)
    ensures Orphaned(t, user, gone + {id}) ==
      if t.files[id].sha.Some? && !References(FilesWithout(t, gone + {id}), user, t.files[id].sha.value)
      then Orphaned(t, user, gone) + {t.files[id].sha.value}
      else Orphaned(t, user, gone)
  {
    hide References, FilesWithout;
    var more := gone + {id};
    forall sha | sha in Orphaned(t, user, gone) ensures sha in Orphaned(t, user, more) {
      var k :| k in gone && Live(t, k) && t.files[k].sha == Some(sha);
      assert k in more;
    }
    forall sha | sha in Orphaned(t, user, more)
      ensures sha in Orphaned(t, user, gone) || Some(sha) == t.files[id].sha
    {
      var k :| k in more && Live(t, k) && t.files[k].sha == Some(sha);
    }
    if t.files[id].sha.Some? {
      assert id in more;
    }
  }

  lemma WithoutOneMore(vectors: Collection, shas: set<Sha>, sha: Sha)
    ensures var kept := Without(vectors, shas);
      kept - (set ref | ref in kept && kept[ref].sha == sha) == Without(vectors, shas + {sha})
    ensures shas == {} ==> Without(vectors, shas) == vectors
  {
  }

  lemma HoldingsOneMore(user: User, shas: set<Sha>, sha: Sha)
    ensures HoldingsOf(user, shas + {sha}) == HoldingsOf(user, shas) + {Holding(user, sha)}
    ensures shas == {} ==> HoldingsOf(user, shas) == {}
  {
  }

  lemma DropOneMore(t: Tables, user: User, shas: set<Sha>, sha: Sha)
    ensures var u := DropAll(t, user, shas);
      RemoveHolding(DropEntries(u, user, sha), user, sha) == DropAll(t, user, shas + {sha})
  {
    var u := DropAll(t, user, shas);
    WithoutOneMore(CollectionOf(t, user), shas, sha);
    HoldingsOneMore(user, shas, sha);
    DropAllFields(t, user, shas);
    DropFields(u, user, sha, CollectionOf(u, user));
    hide Without, HoldingsOf, DropEntries, RemoveHolding, CollectionOf;
    var kept := Without(CollectionOf(t, user), shas + {sha});
    assert shas + {sha} != {};
    assert u.holds - {Holding(user, sha)} == t.holds - HoldingsOf(user, shas + {sha});
    assert u.collections[user := kept] == t.collections[user := kept];
  }

  lemma DropAllFields(t: Tables, user: User, shas: set<Sha>)
    ensures var u := DropAll(t, user, shas);
      && CollectionOf(u, user) == Without(CollectionOf(t, user), shas)
      && u.holds == t.holds - HoldingsOf(user, shas)
  {
    WithoutOneMore(CollectionOf(t, user), shas, "");
    HoldingsOneMore(user, shas, "");
    hide Without, HoldingsOf;
  }

  lemma DropFields(u: Tables, user: User, sha: Sha, own: Collection)
    requires own == CollectionOf(u, user)
    ensures RemoveHolding(DropEntries(u, user, sha), user, sha) == u.(
      holds := u.holds - {Holding(user, sha)},
      collections := u.collections[user := own - (set ref | ref in own && own[ref].sha == sha)])
  {
  }

  /** One more name, by either path, is one more name in the set. */
  lemma OneMoreName(t: Tables, user: User, gone: set<FileKey>, id: FileKey)
    requires LiveNames(t, user, gone) && id.user == user && Live(t, id) && id !in gone
    ensures ReapRow(RemoveSet(t, user, gone), user, id, t.files[id].sha) == RemoveSet(t, user, gone + {id})
    ensures RemoveFile(RemoveSet(t, user, gone), user, id) == RemoveSet(t, user, gone + {id})
  {
    hide FilesWithout, Orphaned, References, DropAll, SoftDelete;
    var before := RemoveSet(t, user, gone);
    var deleted := SoftDelete(before, user, id);
    var orphans := Orphaned(t, user, gone);
    FilesAfterOneMore(t, user, gone, id);
    OrphansAfterOneMore(t, user, gone, id);
    StillLive(t, user, gone, id);
    DeletedThenDropped(t, user, gone, id);
    if t.files[id].sha.Some? {
      var sha := t.files[id].sha.value;
      NotYetOrphaned(t, user, gone, id);
      ReferencesFrame(deleted, FilesWithout(t, gone + {id}), user, sha);
      DropOneMore(FilesWithout(t, gone + {id}), user, orphans, sha);
    }
  }

  lemma StillLive(t: Tables, user: User, gone: set<FileKey>, id: FileKey)
    requires Live(t, id) && id !in gone
    ensures Live(RemoveSet(t, user, gone), id)
    ensures RemoveSet(t, user, gone).files[id] == t.files[id]
  {
    assert RemoveSet(t, user, gone).files == FilesWithout(t, gone).files;
  }

  lemma DeletedThenDropped(t: Tables, user: User, gone: set<FileKey>, id: FileKey)
    requires id.user == user && Live(t, id) && id !in gone
    ensures SoftDelete(RemoveSet(t, user, gone), user, id)
      == DropAll(FilesWithout(t, gone + {id}), user, Orphaned(t, user, gone))
  {
    hide Orphaned;
    var shas := Orphaned(t, user, gone);
    FilesAfterOneMore(t, user, gone, id);
    assert CollectionOf(FilesWithout(t, gone), user) == CollectionOf(FilesWithout(t, gone + {id}), user);
  }

  // --- any order, either path -----------------------------------------------------------------

  /** A removal of `id` by hand, or by a reap that has read the row. */
  predicate Removes(t: Tables, user: User, op: Op, id: FileKey) {
    || op == Remove(user, id)
    || (id in t.files && op == Reap(user, id, t.files[id].sha))
  }

  /** ops removes the names ids, one each, in that order. */
  ghost predicate RemovesAll(t: Tables, user: User, ops: seq<Op>, ids: seq<FileKey>) {
    && |ops| == |ids|
    && (forall i, j :: 0 <= i < j < |ids| ==> ids[i] != ids[j])
    && (forall i :: 0 <= i < |ids| ==>
          ids[i].user == user && Live(t, ids[i]) && Removes(t, user, ops[i], ids[i]))
  }

  function Names(ids: seq<FileKey>): set<FileKey> {
    set id | id in ids
  }

  /** The order of removals, and which path took which name, leave no trace. */
  lemma {:induction false} OrderIsIrrelevant(env: Env, t: Tables, user: User, ops: seq<Op>, ids: seq<FileKey>)
    requires RemovesAll(t, user, ops, ids)
    ensures Play(env, t, ops) == RemoveSet(t, user, Names(ids))
    decreases |ops|
  {
    hide RemoveSet, ReapRow, RemoveFile;
    if ops == [] {
      RemoveNothing(t, user);
      assert Names(ids) == {};
    } else {
      var n := |ops| - 1;
      var op, id := ops[n], ids[n];
      assert ops == ops[..n] + [op];
      PlaySnoc(env, t, ops[..n], op);
      OrderIsIrrelevant(env, t, user, ops[..n], ids[..n]);
      assert Names(ids) == Names(ids[..n]) + {id};
      OneMoreName(t, user, Names(ids[..n]), id);
    }
  }

  lemma RemoveNothing(t: Tables, user: User)
    ensures RemoveSet(t, user, {}) == t
  {
    assert FilesWithout(t, {}).files == t.files;
  }

  // --- one blob, all of its names -------------------------------------------------------------

  /** The vectors a removal deletes. */
  function Dropped(t: Tables, op: Op): set<ChunkRef> {
    match op
    case Reap(user, id, sha) =>
      if sha.Some? && !References(SoftDelete(t, user, id), user, sha.value)
      then EntriesOf(t, user, sha.value) else {}
    case Remove(user, id) =>
      if id.user == user && Live(t, id) && t.files[id].sha.Some?
         && !References(SoftDelete(t, user, id), user, t.files[id].sha.value)
      then EntriesOf(t, user, t.files[id].sha.value) else {}
    case CrashReap(user, id, sha, halt) =>
      if halt.AfterDrop? && sha.Some? && !References(SoftDelete(t, user, id), user, sha.value)
      then EntriesOf(t, user, sha.value) else {}
    case Sync(_, _) => {}
    case Crash(_, _) => {}
  }

  /** ids are all the live names the user has for the blob. */
  ghost predicate AllNamesOf(t: Tables, user: User, sha: Sha, ids: seq<FileKey>) {
    forall id :: id in ids <==> id.user == user && Live(t, id) && t.files[id].sha == Some(sha)
  }

  lemma OrphansAmongNames(t: Tables, user: User, sha: Sha, ids: seq<FileKey>, k: nat)
    requires AllNamesOf(t, user, sha, ids) && k <= |ids|
    requires forall i, j :: 0 <= i < j < |ids| ==> ids[i] != ids[j]
    ensures Orphaned(t, user, Names(ids[..k])) == if k == |ids| && k > 0 then {sha} else {}
    ensures References(FilesWithout(t, Names(ids[..k])), user, sha) <==> k < |ids|
  {
    var gone := Names(ids[..k]);
    var rest := FilesWithout(t, gone);
    if k < |ids| {
      var id := ids[k];
      assert id in ids && id !in gone;
      assert id in rest.files && rest.files[id] == t.files[id];
      assert References(rest, user, sha);
    } else {
      assert ids[..k] == ids;
      if k > 0 {
        assert ids[0] in gone && ids[0] in ids;
      }
    }
    forall s | s in Orphaned(t, user, gone) ensures s == sha {
      var id :| id in gone && Live(t, id) && t.files[id].sha == Some(s);
      assert id in ids;
    }
  }

  /** The tables that hold content rather than attribution, and everyone else's rows. */
  ghost predicate ContentUntouched(t: Tables, u: Tables, user: User) {
    && u.blobs == t.blobs && u.chunks == t.chunks && u.cache == t.cache && u.texts == t.texts
    && (forall other :: other != user ==> CollectionOf(u, other) == CollectionOf(t, other))
    && (forall h: Holding :: h.user != user ==> (h in u.holds <==> h in t.holds))
    && (forall id :: id in t.files && id.user != user ==> id in u.files && u.files[id] == t.files[id])
  }

  /**
   * Last reference in any order. Remove all of a user's names for one blob, in any
   * permutation and any mix of the two paths. Until the last removal possession
   * and vectors stand as they were; the last one, and only that one, drops
   * vectors, and drops every vector of the blob. Content and other users never
   * notice.
   */
  lemma LastReferenceInAnyOrder(env: Env, t: Tables, user: User, sha: Sha, ops: seq<Op>, ids: seq<FileKey>, k: nat)
    requires RemovesAll(t, user, ops, ids) && AllNamesOf(t, user, sha, ids) && k < |ops|
    ensures var now, next := Play(env, t, ops[..k]), Play(env, t, ops[..k + 1]);
      && now.holds == t.holds && CollectionOf(now, user) == CollectionOf(t, user)
      && Dropped(now, ops[k]) == (if k + 1 == |ops| then EntriesOf(t, user, sha) else {})
      && (k + 1 == |ops| ==>
            && Holding(user, sha) !in next.holds
            && EntriesOf(next, user, sha) == {}
            && CollectionOf(next, user) == CollectionOf(t, user) - EntriesOf(t, user, sha))
      && ContentUntouched(t, next, user)
  {
    hide Orphaned, References, FilesWithout, DropAll, SoftDelete, Play, RemoveSet;
    var gone, more := Names(ids[..k]), Names(ids[..k + 1]);
    AfterSome(env, t, user, sha, ops, ids, k);
    AfterSome(env, t, user, sha, ops, ids, k + 1);
    assert more == gone + {ids[k]} && ids[k] in ids && ids[k] !in gone;
    NamesGone(t, user, gone, ids[k]);
    SameElsewhere(t, user, gone, {});
    SameElsewhere(t, user, more, {});
    SameElsewhere(t, user, more, {sha});
    ReferencesFrame(SoftDelete(FilesWithout(t, gone), user, ids[k]), FilesWithout(t, more), user, sha);
    assert EntriesOf(FilesWithout(t, gone), user, sha) == EntriesOf(t, user, sha);
    DroppedIs(FilesWithout(t, gone), user, ops[k], ids[k], sha);
    DropOfOne(t, Play(env, t, ops[..k + 1]), user, sha);
    hide Dropped, Removes, Without, HoldingsOf, EntriesOf, ContentUntouched, CollectionOf;
  }

  lemma DropOfOne(t: Tables, u: Tables, user: User, sha: Sha)
    ensures Without(CollectionOf(t, user), {sha}) == CollectionOf(t, user) - EntriesOf(t, user, sha)
    ensures Holding(user, sha) in HoldingsOf(user, {sha})
    ensures CollectionOf(u, user) == CollectionOf(t, user) - EntriesOf(t, user, sha) ==>
      EntriesOf(u, user, sha) == {}
  {
  }

  lemma DroppedIs(t: Tables, user: User, op: Op, id: FileKey, sha: Sha)
    requires id.user == user && Live(t, id) && t.files[id].sha == Some(sha) && Removes(t, user, op, id)
    ensures Dropped(t, op) ==
      if References(SoftDelete(t, user, id), user, sha) then {} else EntriesOf(t, user, sha)
  {
    hide References, SoftDelete, EntriesOf;
  }

  /** After the first k removals only the last of all has dropped anything. */
  lemma AfterSome(env: Env, t: Tables, user: User, sha: Sha, ops: seq<Op>, ids: seq<FileKey>, k: nat)
    requires RemovesAll(t, user, ops, ids) && AllNamesOf(t, user, sha, ids) && k <= |ops|
    ensures Play(env, t, ops[..k]) ==
      DropAll(FilesWithout(t, Names(ids[..k])), user, if k == |ops| && k > 0 then {sha} else {})
    ensures References(FilesWithout(t, Names(ids[..k])), user, sha) <==> k < |ids|
  {
    hide Orphaned, References, FilesWithout, DropAll, Play;
    PrefixRemoves(t, user, ops, ids, k);
    OrderIsIrrelevant(env, t, user, ops[..k], ids[..k]);
    OrphansAmongNames(t, user, sha, ids, k);
  }

  lemma NamesGone(t: Tables, user: User, gone: set<FileKey>, id: FileKey)
    requires id.user == user && Live(t, id) && id !in gone
    ensures var u := FilesWithout(t, gone);
      && Live(u, id) && u.files[id] == t.files[id]
      && SoftDelete(u, user, id).files == FilesWithout(t, gone + {id}).files
      && DropAll(u, user, {}) == u
  {
  }

  lemma SameElsewhere(t: Tables, user: User, gone: set<FileKey>, shas: set<Sha>)
    requires forall id :: id in gone ==> id.user == user
    ensures var u := DropAll(FilesWithout(t, gone), user, shas);
      && ContentUntouched(t, u, user)
      && u.holds == t.holds - HoldingsOf(user, shas)
      && CollectionOf(u, user) == Without(CollectionOf(t, user), shas)
      && (shas == {} ==> u.holds == t.holds && CollectionOf(u, user) == CollectionOf(t, user))
  {
    FilesOfOthers(t, user, gone);
    hide FilesWithout, DropAll;
    var f := FilesWithout(t, gone);
    DropAllOwn(f, user, shas);
    assert CollectionOf(f, user) == CollectionOf(t, user);
    assert forall other :: CollectionOf(f, other) == CollectionOf(t, other);
  }

  lemma DropAllOwn(t: Tables, user: User, shas: set<Sha>)
    ensures var u := DropAll(t, user, shas);
      && u == t.(holds := u.holds, collections := u.collections)
      && (forall other :: other != user ==> CollectionOf(u, other) == CollectionOf(t, other))
      && (forall h: Holding :: h.user != user ==> (h in u.holds <==> h in t.holds))
      && u.holds == t.holds - HoldingsOf(user, shas)
      && CollectionOf(u, user) == Without(CollectionOf(t, user), shas)
      && (shas == {} ==> u == t)
  {
    HoldingsAreOwn(user, shas);
    WithoutOneMore(CollectionOf(t, user), shas, "");
    HoldingsOneMore(user, shas, "");
    hide Without, HoldingsOf;
  }

  lemma FilesOfOthers(t: Tables, user: User, gone: set<FileKey>)
    requires forall id :: id in gone ==> id.user == user
    ensures FilesWithout(t, gone) == t.(files := FilesWithout(t, gone).files)
    ensures forall id :: id in t.files && id.user != user ==>
      id in FilesWithout(t, gone).files && FilesWithout(t, gone).files[id] == t.files[id]
  {
  }

  lemma HoldingsAreOwn(user: User, shas: set<Sha>)
    ensures forall h: Holding :: h in HoldingsOf(user, shas) ==> h.user == user
  {
  }

  lemma PrefixRemoves(t: Tables, user: User, ops: seq<Op>, ids: seq<FileKey>, k: nat)
    requires RemovesAll(t, user, ops, ids) && k <= |ops|
    ensures RemovesAll(t, user, ops[..k], ids[..k])
  {
  }

  /** Of a possessed blob that has its vectors, those dropped are one for each chunk. */
  lemma EveryChunkIsDropped(env: Env, t: Tables, user: User, sha: Sha)
    requires Inv(env, t) && Holding(user, sha) in t.holds && HasVectors(env, t, user, sha)
    ensures EntriesOf(t, user, sha) == set i: nat | i < |ChunkRows(t, sha)| :: ChunkRef(sha, i)
  {
    HeldHasText(env, t, user, sha);
    forall ref | ref in EntriesOf(t, user, sha) ensures ref.sha == sha && ref.ordinal < |ChunkRows(t, sha)| {
      assert EntryOk(env, t, user, ref);
    }
    forall i: nat | i < |ChunkRows(t, sha)| ensures ChunkRef(sha, i) in EntriesOf(t, user, sha) {
      assert EntryOk(env, t, user, ChunkRef(sha, i));
    }
  }

  // --- the reply of DELETE /files/{id} --------------------------------------------------------

  datatype Reply = NotFound | Removed(dropped: nat, retained: bool)

  function ReplyOf(t: Tables, user: User, id: FileKey): Reply {
    if id.user != user || !Live(t, id) then NotFound
    else
      var dropped := |Dropped(t, Remove(user, id))|;
      Removed(dropped, t.files[id].sha.Some? && dropped == 0)
  }

  /** Another live name that the user has for the bytes. */
  predicate NamedElsewhere(t: Tables, user: User, id: FileKey, sha: Sha) {
    exists other ::
      && other in t.files && other != id && other.user == user
      && !t.files[other].deleted && t.files[other].sha == Some(sha)
  }

  lemma ElsewhereMeans(t: Tables, user: User, id: FileKey, sha: Sha)
    requires id.user == user
    ensures References(SoftDelete(t, user, id), user, sha) <==> NamedElsewhere(t, user, id, sha)
  {
    var deleted := SoftDelete(t, user, id);
    assert id in deleted.files ==> deleted.files[id].deleted;
    forall other | other != id
      ensures other in deleted.files <==> other in t.files
      ensures other in t.files ==> deleted.files[other] == t.files[other]
    {
    }
    if NamedElsewhere(t, user, id, sha) {
      var other :| other in t.files && other != id && other.user == user
        && !t.files[other].deleted && t.files[other].sha == Some(sha);
      assert other in deleted.files;
    }
  }

  /**
   * content_retained_for_other_references is true of other references, and just as well
   * when none is left but there was no vector to drop.
   */
  lemma RetainedExactly(t: Tables, user: User, id: FileKey)
    requires id.user == user && Live(t, id)
    ensures var reply := ReplyOf(t, user, id);
      && reply.Removed?
      && (t.files[id].sha.None? ==> !reply.retained && reply.dropped == 0)
      && (t.files[id].sha.Some? ==>
            var sha := t.files[id].sha.value;
            && (reply.retained <==> NamedElsewhere(t, user, id, sha) || EntriesOf(t, user, sha) == {})
            && reply.dropped == if NamedElsewhere(t, user, id, sha) then 0 else |EntriesOf(t, user, sha)|)
  {
    hide References, SoftDelete, NamedElsewhere;
    if t.files[id].sha.Some? {
      ElsewhereMeans(t, user, id, t.files[id].sha.value);
    }
  }

  /**
   * When that is, over any history: the flag misleads about the last name of bytes that
   * have no chunks, or whose vectors were lost to a removal that died halfway.
   */
  lemma RetainedOverHistory(env: Env, ops: seq<Op>, user: User, id: FileKey)
    requires env.Valid() && id.user == user
    ensures var t := Play(env, Empty, ops);
      var reply := ReplyOf(t, user, id);
      && (reply.Removed? <==> Live(t, id))
      && (reply.Removed? && t.files[id].sha.Some? ==>
            var sha := t.files[id].sha.value;
            var named, lost := NamedElsewhere(t, user, id, sha), Vectors.Lost(env, Empty, ops, user, sha);
            && (reply.retained <==> named || ChunkRows(t, sha) == [] || lost)
            && reply.dropped == if named || lost then 0 else |ChunkRows(t, sha)|)
  {
    hide Inv, Play, Vectors.Lost, HasVectors, NamedElsewhere, Vectors.Bare;
    var t := Play(env, Empty, ops);
    EmptyIsSound(env);
    PlayKeeps(env, Empty, ops);
    if Live(t, id) && t.files[id].sha.Some? {
      RetainedExactly(t, user, id);
      var sha := t.files[id].sha.value;
      LiveIsHeld(env, t, id);
      Vectors.VectorsExactly(env, Empty, ops, user, sha);
      HeldHasText(env, t, user, sha);
      VectorsInHand(env, t, user, sha);
    }
  }

  /** One entry for each chunk, or none of any. */
  lemma VectorsInHand(env: Env, t: Tables, user: User, sha: Sha)
    requires Inv(env, t) && Holding(user, sha) in t.holds
    requires HasVectors(env, t, user, sha) || Vectors.Bare(t, user, sha)
    ensures |EntriesOf(t, user, sha)| == if HasVectors(env, t, user, sha) then |ChunkRows(t, sha)| else 0
    ensures EntriesOf(t, user, sha) == {} <==> !HasVectors(env, t, user, sha) || ChunkRows(t, sha) == []
  {
    if HasVectors(env, t, user, sha) {
      hide HasVectors, Inv;
      EveryChunkIsDropped(env, t, user, sha);
      RefsCount(sha, |ChunkRows(t, sha)|);
    } else {
      Vectors.OwnEntries(env, t, user);
      assert Isolation.ViewOf(t, user).vectors == CollectionOf(t, user);
      assert EntriesOf(t, user, sha) == {};
    }
  }

  lemma {:induction false} RefsCount(sha: Sha, count: nat)
    ensures |set i: nat | i < count :: ChunkRef(sha, i)| == count
  {
    if count > 0 {
      RefsCount(sha, count - 1);
      assert (set i: nat | i < count :: ChunkRef(sha, i))
        == (set i: nat | i < count - 1 :: ChunkRef(sha, i)) + {ChunkRef(sha, count - 1)};
    } else {
      assert (set i: nat | i < count :: ChunkRef(sha, i)) == {};
    }
  }
}
