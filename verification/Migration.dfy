/**
 * packages/core/db.py: collapsing duplicate datasources before their identity
 * becomes a unique index.
 */
module Migration {
  import opened Wrappers
  import opened Text

  type Id = string

  /** The columns the migration reads. A JSON null is None. */
  datatype Source = Source(
    user: string, kind: string, bucket: Option<string>, endpoint: Option<string>, created: real)

  datatype Directory = Directory(user: string, source: Id, path: string)

  /** live: not soft-deleted. rest is everything else the row records, which must not change. */
  datatype File = File(user: string, source: Id, key: string, live: bool, rest: string)

  // --- identity ---------------------------------------------------------------------------------

  /** Equality of buckets is SQL's: two nulls are not equal. */
  predicate SameIdentity(a: Source, b: Source) {
    && a.user == b.user && a.kind == b.kind
    && a.bucket.Some? && a.bucket == b.bucket
    && a.endpoint.GetOr("") == b.endpoint.GetOr("")
  }

  /** ORDER BY created_at, id. */
  predicate NoLater(sources: map<Id, Source>, a: Id, b: Id)
    requires a in sources && b in sources
  {
    || sources[a].created < sources[b].created
    || (sources[a].created == sources[b].created && TextLe(a, b))
  }

  predicate IsKeeper(sources: map<Id, Source>, keeper: Id, id: Id)
    requires id in sources
  {
    && keeper in sources && SameIdentity(sources[keeper], sources[id])
    && forall other :: other in sources && SameIdentity(sources[other], sources[id]) ==>
         NoLater(sources, keeper, other)
  }

  /** Rows that are not the oldest of their group. */
  predicate IsDead(sources: map<Id, Source>, id: Id) {
    && id in sources && sources[id].bucket.Some? && !IsKeeper(sources, id, id)
  }

  lemma {:induction false} OldestOf(sources: map<Id, Source>, ids: set<Id>) returns (oldest: Id)
    requires ids != {} && forall id :: id in ids ==> id in sources
    ensures oldest in ids && forall id :: id in ids ==> NoLater(sources, oldest, id)
  {
    var id :| id in ids;
    oldest := id;
    TextLeTotal(id, id);
    if ids != {id} {
      var rest := OldestOf(sources, ids - {id});
      TextLeTotal(id, rest);
      if !NoLater(sources, id, rest) {
        oldest := rest;
      }
      forall other | other in ids ensures NoLater(sources, oldest, other) {
        if other != id && oldest == id {
          NoLaterTransitive(sources, id, rest, other);
        }
      }
    }
  }

  lemma NoLaterTransitive(sources: map<Id, Source>, a: Id, b: Id, c: Id)
    requires a in sources && b in sources && c in sources
    requires NoLater(sources, a, b) && NoLater(sources, b, c)
    ensures NoLater(sources, a, c)
  {
    if sources[a].created == sources[b].created == sources[c].created {
      TextLeTransitive(a, b, c);
    }
  }

  lemma KeeperExists(sources: map<Id, Source>, id: Id)
    requires id in sources && sources[id].bucket.Some?
    ensures exists keeper :: IsKeeper(sources, keeper, id)
  {
    var group := set other | other in sources && SameIdentity(sources[other], sources[id]);
    assert id in group;
    var oldest := OldestOf(sources, group);
    assert IsKeeper(sources, oldest, id);
  }

  lemma KeeperIsUnique(sources: map<Id, Source>, a: Id, b: Id, id: Id)
    requires id in sources && IsKeeper(sources, a, id) && IsKeeper(sources, b, id)
    ensures a == b
  {
    TextLeTotal(a, b);
  }

  /** A keeper keeps its whole group, itself included, and is never dead. */
  lemma KeeperKeepsItself(sources: map<Id, Source>, keeper: Id, id: Id)
    requires id in sources && IsKeeper(sources, keeper, id)
    ensures IsKeeper(sources, keeper, keeper) && !IsDead(sources, keeper)
  {
  }

  // --- one pass of the loop on the three tables ----------------------------------------------------

  type Remap = map<Id, Id>

  /** Where a row that pointed at id points once the datasources in done have been folded. */
  function Target(remap: Remap, done: set<Id>, id: Id): Id {
    if id in remap && id in done then remap[id] else id
  }

  ghost predicate UniqueDirectories(directories: map<Id, Directory>) {
    forall a, b | a in directories && b in directories && directories[a] == directories[b] :: a == b
  }

  predicate SameName(a: File, b: File) {
    a.user == b.user && a.source == b.source && a.key == b.key
  }

  ghost predicate UniqueFiles(files: map<Id, File>) {
    forall a, b | a in files && b in files && SameName(files[a], files[b]) :: a == b
  }

  function Repoint(directories: map<Id, Directory>, remap: Remap, done: set<Id>): map<Id, Directory> {
    map d | d in directories :: directories[d].(source := Target(remap, done, directories[d].source))
  }

  function RepointOne(directories: map<Id, Directory>, dead: Id, keeper: Id): map<Id, Directory> {
    map d | d in directories ::
      if directories[d].source == dead then directories[d].(source := keeper) else directories[d]
  }

  /** Would the UPDATE of directories break UNIQUE (user_id, datasource_id, path)? */
  predicate Collides(directories: map<Id, Directory>, dead: Id, keeper: Id) {
    exists a, b :: a in directories && b in directories
      && directories[a].source == dead && directories[b] == directories[a].(source := keeper)
  }

  predicate Taken(files: map<Id, File>, f: File) {
    exists g :: g in files && SameName(files[g], f)
  }

  function UpdateOrIgnore(files: map<Id, File>, dead: Id, keeper: Id): map<Id, File> {
    map f | f in files ::
      if files[f].source == dead && !Taken(files, files[f].(source := keeper))
      then files[f].(source := keeper) else files[f]
  }

  function DeleteWhere(files: map<Id, File>, dead: Id): map<Id, File> {
    map f | f in files && files[f].source != dead :: files[f]
  }

  function Sent(f: File, remap: Remap, done: set<Id>): File {
    f.(source := Target(remap, done, f.source))
  }

  /** Every row is an old one, sent where its datasource went. */
  ghost predicate RowsFollow(before: map<Id, File>, after: map<Id, File>, remap: Remap, done: set<Id>) {
    forall f | f in after :: f in before && after[f] == Sent(before[f], remap, done)
  }

  /** Every name that was there is there. */
  ghost predicate NamesFollow(before: map<Id, File>, after: map<Id, File>, remap: Remap, done: set<Id>) {
    forall f | f in before :: Taken(after, Sent(before[f], remap, done))
  }

  /** The row of a datasource that stays is never the one that gives way. */
  ghost predicate KeepersStay(before: map<Id, File>, after: map<Id, File>, remap: Remap) {
    forall f | f in before && before[f].source !in remap :: f in after
  }

  /** What is true of the files once the datasources in done are folded into their keepers. */
  ghost predicate Follows(before: map<Id, File>, after: map<Id, File>, remap: Remap, done: set<Id>) {
    && RowsFollow(before, after, remap, done) && NamesFollow(before, after, remap, done)
    && KeepersStay(before, after, remap) && UniqueFiles(after)
  }

  /** remap sends datasources that go to datasources that stay. */
  ghost predicate Sound(remap: Remap) {
    forall id :: id in remap ==> remap[id] !in remap
  }

  /** Both statements on files: move what can move, delete what cannot. */
  function MoveFiles(files: map<Id, File>, dead: Id, keeper: Id): map<Id, File> {
    DeleteWhere(UpdateOrIgnore(files, dead, keeper), dead)
  }

  lemma MoveFilesExact(files: map<Id, File>, dead: Id, keeper: Id, f: Id)
    requires dead != keeper
    ensures f in MoveFiles(files, dead, keeper) <==>
      f in files && (files[f].source != dead || !Taken(files, files[f].(source := keeper)))
    ensures f in MoveFiles(files, dead, keeper) ==>
      MoveFiles(files, dead, keeper)[f]
        == if files[f].source == dead then files[f].(source := keeper) else files[f]
  {
    hide Taken;
  }

  lemma SentOnce(f: File, remap: Remap, done: set<Id>, dead: Id)
    requires Sound(remap) && dead in remap && dead !in done
    ensures Sent(f, remap, done + {dead}) ==
      if Sent(f, remap, done).source == dead then Sent(f, remap, done).(source := remap[dead])
      else Sent(f, remap, done)
  {
  }

  lemma FilesFollow(before: map<Id, File>, now: map<Id, File>, remap: Remap, done: set<Id>, dead: Id)
    requires Sound(remap) && dead in remap && dead !in done && Follows(before, now, remap, done)
    ensures Follows(before, MoveFiles(now, dead, remap[dead]), remap, done + {dead})
  {
    hide MoveFiles, Taken, UniqueFiles, NamesFollow, Sent;
    var after := MoveFiles(now, dead, remap[dead]);
    forall f | f in after ensures f in before && after[f] == Sent(before[f], remap, done + {dead}) {
      MoveFilesExact(now, dead, remap[dead], f);
      SentOnce(before[f], remap, done, dead);
    }
    forall f | f in before && before[f].source !in remap ensures f in after {
      MoveFilesExact(now, dead, remap[dead], f);
      StaysPut(before[f], remap, done);
    }
    AllNamesSurvive(before, now, remap, done, dead);
    UniqueAfterMove(now, dead, remap[dead]);
  }

  // --- which of several rows stays ------------------------------------------------------------------

  /** The files after the loop over order. */
  function FoldFiles(files: map<Id, File>, remap: Remap, order: seq<Id>): map<Id, File>
    requires forall id :: id in order ==> id in remap
  {
    if order == [] then files
    else
      var front, last := order[..|order| - 1], order[|order| - 1];
      assert last in order && forall id :: id in front ==> id in order;
      MoveFiles(FoldFiles(files, remap, front), last, remap[last])
  }

  function Ids(order: seq<Id>): set<Id> {
    set id | id in order
  }

  ghost predicate IsOrder(order: seq<Id>, remap: Remap) {
    && (forall i, j :: 0 <= i < j < |order| ==> order[i] != order[j])
    && (forall id :: id in order ==> id in remap)
  }

  /** When a datasource's turn comes: a survivor's is before all others. */
  function Rank(order: seq<Id>, source: Id): nat {
    if order == [] then 0
    else if order[|order| - 1] == source then |order|
    else Rank(order[..|order| - 1], source)
  }

  lemma {:induction false} RankBelow(order: seq<Id>, source: Id)
    ensures Rank(order, source) <= |order|
    ensures Rank(order, source) == 0 <==> source !in order
  {
    if order != [] {
      RankBelow(order[..|order| - 1], source);
      assert order == order[..|order| - 1] + [order[|order| - 1]];
    }
  }

  /** No row that ends up with the same name had its turn earlier. */
  ghost predicate IsFirst(files: map<Id, File>, remap: Remap, order: seq<Id>, f: Id)
    requires f in files
  {
    forall g :: g in files && SameName(Sent(files[g], remap, Ids(order)), Sent(files[f], remap, Ids(order))) ==>
      Rank(order, files[f].source) <= Rank(order, files[g].source)
  }

  lemma IdsSnoc(order: seq<Id>)
    requires order != []
    ensures Ids(order) == Ids(order[..|order| - 1]) + {order[|order| - 1]}
  {
    assert order == order[..|order| - 1] + [order[|order| - 1]];
  }

  lemma {:induction false} FoldFollows(files: map<Id, File>, remap: Remap, order: seq<Id>)
    requires Sound(remap) && IsOrder(order, remap) && UniqueFiles(files)
    ensures Follows(files, FoldFiles(files, remap, order), remap, Ids(order))
  {
    hide Follows, Sound;
    if order == [] {
      NoFilesMoved(files, remap);
    } else {
      var front, last := order[..|order| - 1], order[|order| - 1];
      FoldFollows(files, remap, front);
      IdsSnoc(order);
      FilesFollow(files, FoldFiles(files, remap, front), remap, Ids(front), last);
    }
  }

  lemma NoFilesMoved(files: map<Id, File>, remap: Remap)
    requires UniqueFiles(files)
    ensures Follows(files, files, remap, {}) && Ids([]) == {}
  {
    NothingDone(map[], files, remap);
  }

  /** The row that stays, exactly: of those that end up with one name, the one whose turn comes first. */
  lemma {:induction false} StaysExactly(files: map<Id, File>, remap: Remap, order: seq<Id>, f: Id)
    requires Sound(remap) && IsOrder(order, remap) && UniqueFiles(files) && f in files
    ensures f in FoldFiles(files, remap, order) <==> IsFirst(files, remap, order, f)
    ensures f in FoldFiles(files, remap, order) ==>
      FoldFiles(files, remap, order)[f] == Sent(files[f], remap, Ids(order))
  {
    hide Follows, IsFirst, MoveFiles, Sound;
    if order == [] {
      AllStay(files, remap, f);
    } else {
      var front := order[..|order| - 1];
      StaysExactly(files, remap, front, f);
      FoldFollows(files, remap, front);
      if files[f].source == order[|order| - 1] {
        TurnOfOwn(files, remap, order, f);
      } else {
        TurnOfAnother(files, remap, order, f);
      }
    }
  }

  lemma AllStay(files: map<Id, File>, remap: Remap, f: Id)
    requires f in files
    ensures IsFirst(files, remap, [], f) && Sent(files[f], remap, Ids([])) == files[f]
    ensures FoldFiles(files, remap, []) == files
  {
  }

  /** Names and ranks, one turn later. */
  lemma TurnFacts(files: map<Id, File>, remap: Remap, order: seq<Id>, g: Id)
    requires Sound(remap) && IsOrder(order, remap) && order != [] && g in files
    ensures var front, last := order[..|order| - 1], order[|order| - 1];
      && Sent(files[g], remap, Ids(order)).source ==
           (if files[g].source == last then remap[last] else Sent(files[g], remap, Ids(front)).source)
      && (files[g].source == last ==> Sent(files[g], remap, Ids(front)) == files[g])
      && (files[g].source != last ==> Sent(files[g], remap, Ids(front)).source != last)
      && Rank(order, files[g].source) ==
           (if files[g].source == last then |order| else Rank(front, files[g].source))
      && Rank(front, files[g].source) < |order|
  {
    var front, last := order[..|order| - 1], order[|order| - 1];
    IdsSnoc(order);
    RankBelow(front, files[g].source);
    assert last !in front;
    assert last in order && last in remap;
  }

  lemma TurnOfAnother(files: map<Id, File>, remap: Remap, order: seq<Id>, f: Id)
    requires Sound(remap) && IsOrder(order, remap) && order != [] && UniqueFiles(files) && f in files
    requires files[f].source != order[|order| - 1]
    requires var now := FoldFiles(files, remap, order[..|order| - 1]);
      && (f in now <==> IsFirst(files, remap, order[..|order| - 1], f))
      && (f in now ==> now[f] == Sent(files[f], remap, Ids(order[..|order| - 1])))
    ensures f in FoldFiles(files, remap, order) <==> IsFirst(files, remap, order, f)
    ensures f in FoldFiles(files, remap, order) ==>
      FoldFiles(files, remap, order)[f] == Sent(files[f], remap, Ids(order))
  {
    var front, last := order[..|order| - 1], order[|order| - 1];
    var now := FoldFiles(files, remap, front);
    assert last in order && remap[last] != last;
    MoveFilesExact(now, last, remap[last], f);
    TurnFacts(files, remap, order, f);
    forall g | g in files
      ensures
        (SameName(Sent(files[g], remap, Ids(order)), Sent(files[f], remap, Ids(order)))
         && Rank(order, files[g].source) < Rank(order, files[f].source))
        <==>
        (SameName(Sent(files[g], remap, Ids(front)), Sent(files[f], remap, Ids(front)))
         && Rank(front, files[g].source) < Rank(front, files[f].source))
    {
      TurnFacts(files, remap, order, g);
    }
    hide MoveFiles, Rank, Ids, Target;
    FirstBySmaller(files, remap, order, f);
    FirstBySmaller(files, remap, front, f);
  }

  lemma FirstBySmaller(files: map<Id, File>, remap: Remap, order: seq<Id>, f: Id)
    requires f in files
    ensures IsFirst(files, remap, order, f) <==> !exists g ::
      && g in files && SameName(Sent(files[g], remap, Ids(order)), Sent(files[f], remap, Ids(order)))
      && Rank(order, files[g].source) < Rank(order, files[f].source)
  {
    hide Rank, Ids, Sent, SameName;
  }

  lemma TurnOfOwn(files: map<Id, File>, remap: Remap, order: seq<Id>, f: Id)
    requires Sound(remap) && IsOrder(order, remap) && order != [] && UniqueFiles(files) && f in files
    requires files[f].source == order[|order| - 1]
    requires var front := order[..|order| - 1];
      && Follows(files, FoldFiles(files, remap, front), remap, Ids(front))
      && (f in FoldFiles(files, remap, front) <==> IsFirst(files, remap, front, f))
      && (f in FoldFiles(files, remap, front) ==>
            FoldFiles(files, remap, front)[f] == Sent(files[f], remap, Ids(front)))
    ensures f in FoldFiles(files, remap, order) <==> IsFirst(files, remap, order, f)
    ensures f in FoldFiles(files, remap, order) ==>
      FoldFiles(files, remap, order)[f] == Sent(files[f], remap, Ids(order))
  {
    var front, last := order[..|order| - 1], order[|order| - 1];
    var now := FoldFiles(files, remap, front);
    var name := files[f].(source := remap[last]);
    assert last in order && remap[last] != last;
    TurnFacts(files, remap, order, f);
    assert Sent(files[f], remap, Ids(order)) == name;
    StillThere(files, remap, order, f);
    MoveFilesExact(now, last, remap[last], f);
    TakenExactly(files, now, remap, Ids(front), name);
    forall g | g in files
      ensures SameName(Sent(files[g], remap, Ids(order)), name) && Rank(order, files[g].source) < |order|
        <==> SameName(Sent(files[g], remap, Ids(front)), name)
    {
      TurnFacts(files, remap, order, g);
    }
    hide MoveFiles, Rank, Ids, Target, Follows, Taken;
    FirstBySmaller(files, remap, order, f);
  }

  /** Before its datasource's turn a row has no rival. */
  lemma StillThere(files: map<Id, File>, remap: Remap, order: seq<Id>, f: Id)
    requires Sound(remap) && IsOrder(order, remap) && order != [] && UniqueFiles(files) && f in files
    requires files[f].source == order[|order| - 1]
    ensures IsFirst(files, remap, order[..|order| - 1], f)
  {
    var front := order[..|order| - 1];
    TurnFacts(files, remap, order, f);
    forall g | g in files && SameName(Sent(files[g], remap, Ids(front)), Sent(files[f], remap, Ids(front)))
      ensures g == f
    {
      TurnFacts(files, remap, order, g);
    }
  }

  lemma TakenExactly(before: map<Id, File>, now: map<Id, File>, remap: Remap, done: set<Id>, name: File)
    requires Follows(before, now, remap, done)
    ensures Taken(now, name) <==> exists g :: g in before && SameName(Sent(before[g], remap, done), name)
  {
    hide KeepersStay, UniqueFiles, Sent, SameName, Taken;
    SameNames();
    if Taken(now, name) {
      var g := Taker(now, name);
      assert g in before && now[g] == Sent(before[g], remap, done);
    }
    if g :| g in before && SameName(Sent(before[g], remap, done), name) {
      assert Taken(now, Sent(before[g], remap, done));
      TakenBySame(now, Sent(before[g], remap, done), name);
    }
  }

  lemma Taker(files: map<Id, File>, name: File) returns (g: Id)
    requires Taken(files, name)
    ensures g in files && SameName(files[g], name)
  {
    g :| g in files && SameName(files[g], name);
  }

  lemma TakenBySame(files: map<Id, File>, a: File, b: File)
    requires Taken(files, a) && SameName(a, b)
    ensures Taken(files, b)
  {
  }

  lemma SameNames()
    ensures forall a, b :: SameName(a, b) ==> SameName(b, a)
  {
  }

  lemma StaysPut(f: File, remap: Remap, done: set<Id>)
    requires f.source !in remap
    ensures Sent(f, remap, done) == f
  {
  }

  lemma AllNamesSurvive(before: map<Id, File>, now: map<Id, File>, remap: Remap, done: set<Id>, dead: Id)
    requires Sound(remap) && dead in remap && dead !in done && NamesFollow(before, now, remap, done)
    ensures NamesFollow(before, MoveFiles(now, dead, remap[dead]), remap, done + {dead})
  {
    hide MoveFiles, Taken, Sent;
    forall f | f in before
      ensures Taken(MoveFiles(now, dead, remap[dead]), Sent(before[f], remap, done + {dead}))
    {
      SentOnce(before[f], remap, done, dead);
      NameSurvives(now, dead, remap[dead], Sent(before[f], remap, done));
    }
  }

  lemma NameSurvives(now: map<Id, File>, dead: Id, keeper: Id, name: File)
    requires dead != keeper && Taken(now, name)
    ensures Taken(MoveFiles(now, dead, keeper), if name.source == dead then name.(source := keeper) else name)
  {
    hide MoveFiles;
    var after := MoveFiles(now, dead, keeper);
    var g :| g in now && SameName(now[g], name);
    MoveFilesExact(now, dead, keeper, g);
    if now[g].source == dead && Taken(now, now[g].(source := keeper)) {
      var h :| h in now && SameName(now[h], now[g].(source := keeper));
      MoveFilesExact(now, dead, keeper, h);
      assert SameName(after[h], name.(source := keeper));
    } else {
      assert g in after;
    }
  }

  lemma UniqueAfterMove(now: map<Id, File>, dead: Id, keeper: Id)
    requires UniqueFiles(now) && dead != keeper
    ensures UniqueFiles(MoveFiles(now, dead, keeper))
  {
    hide MoveFiles;
    var after := MoveFiles(now, dead, keeper);
    forall a, b | a in after && b in after && SameName(after[a], after[b]) ensures a == b {
      MoveFilesExact(now, dead, keeper, a);
      MoveFilesExact(now, dead, keeper, b);
    }
  }

  // --- directories -------------------------------------------------------------------------------------

  /** Two directories of one identity group share an owner and a path. */
  ghost predicate Clash(directories: map<Id, Directory>, remap: Remap) {
    !UniqueDirectories(Repoint(directories, remap, remap.Keys))
  }

  lemma RepointOneMore(before: map<Id, Directory>, remap: Remap, done: set<Id>, dead: Id)
    requires Sound(remap) && dead in remap && dead !in done && done <= remap.Keys
    ensures var now := Repoint(before, remap, done);
      Repoint(before, remap, done + {dead}) == RepointOne(now, dead, remap[dead])
  {
  }

  /** An update that collides shows a clash, and without one no update collides. */
  lemma CollisionIsClash(before: map<Id, Directory>, remap: Remap, done: set<Id>, dead: Id)
    requires Sound(remap) && dead in remap && dead !in done && done <= remap.Keys
    requires UniqueDirectories(Repoint(before, remap, done))
    ensures Collides(Repoint(before, remap, done), dead, remap[dead]) ==> Clash(before, remap)
    ensures !Collides(Repoint(before, remap, done), dead, remap[dead]) ==>
      UniqueDirectories(Repoint(before, remap, done + {dead}))
  {
    var now := Repoint(before, remap, done);
    var all := Repoint(before, remap, remap.Keys);
    if Collides(now, dead, remap[dead]) {
      var a, b :| a in now && b in now && now[a].source == dead && now[b] == now[a].(source := remap[dead]);
      assert a != b && all[a] == all[b];
    } else {
      RepointOneMore(before, remap, done, dead);
    }
  }

  // --- the migration --------------------------------------------------------------------------------------

  class Database {
    var sources: map<Id, Source>
    var directories: map<Id, Directory>
    var files: map<Id, File>

    /** The constraints that were there before the identity index. */
    ghost predicate Valid()
      reads this
    {
      && UniqueDirectories(directories) && UniqueFiles(files)
      && (forall d :: d in directories ==> directories[d].source in sources)
      && (forall f :: f in files ==> files[f].source in sources)
    }

    constructor (sources: map<Id, Source>, directories: map<Id, Directory>, files: map<Id, File>)
      ensures this.sources == sources && this.directories == directories && this.files == files
    {
      this.sources, this.directories, this.files := sources, directories, files;
    }

    /** The remap query: each dead row with the keeper of its group. */
    method FindDuplicates() returns (remap: Remap)
      ensures IsRemap(sources, remap)
    {
      remap := map[];
      var dead := set id | id in sources && IsDead(sources, id);
      var left := dead;
      while left != {}
        invariant left <= dead && remap.Keys == dead - left
        invariant forall id :: id in remap ==> IsKeeper(sources, remap[id], id)
        decreases |left|
      {
        var id :| id in left;
        left := left - {id};
        KeeperExists(sources, id);
        var keeper :| keeper in sources && IsKeeper(sources, keeper, id);
        remap := remap[id := keeper];
      }
    }

    /** The four statements for one dead row; false stands for the first one raising. */
    method FoldOne(dead: Id, keeper: Id) returns (folded: bool)
      modifies this
      ensures folded <==> !Collides(old(directories), dead, keeper)
      ensures folded ==>
        && directories == RepointOne(old(directories), dead, keeper)
        && files == MoveFiles(old(files), dead, keeper)
        && sources == old(sources) - {dead}
      ensures !folded ==>
        sources == old(sources) && directories == old(directories) && files == old(files)
    {
      if Collides(directories, dead, keeper) {
        return false;
      }
      directories := RepointOne(directories, dead, keeper);
      files := UpdateOrIgnore(files, dead, keeper);
      files := DeleteWhere(files, dead);
      sources := sources - {dead};
      return true;
    }

    /** None: two directories clash and nothing changed. Some: every table as promised. */
    ghost predicate Outcome(
      sources0: map<Id, Source>, directories0: map<Id, Directory>, files0: map<Id, File>,
      remap: Remap, order: seq<Id>, collapsed: Option<nat>)
      requires forall id :: id in order ==> id in remap
      reads this
    {
      match collapsed
      case None =>
        && Clash(directories0, remap)
        && sources == sources0 && directories == directories0 && files == files0
      case Some(n) =>
        && !Clash(directories0, remap)
        && n == |remap| && Ids(order) == remap.Keys
        && sources == sources0 - remap.Keys
        && directories == Repoint(directories0, remap, remap.Keys)
        && files == FoldFiles(files0, remap, order)
        && Follows(files0, files, remap, remap.Keys)
    }

    /** The loop over the remap, in the order its rows come. Not folded: some UPDATE of directories raised. */
    method FoldAll(remap: Remap) returns (folded: bool, ghost order: seq<Id>)
      requires Sound(remap) && UniqueDirectories(directories) && UniqueFiles(files)
      modifies this
      ensures folded ==>
        && Folded(old(sources), old(directories), old(files), remap, order, sources, directories, files)
        && Ids(order) == remap.Keys
      ensures !folded ==> Clash(old(directories), remap)
    {
      hide Folded, Clash, UniqueDirectories, UniqueFiles, Collides, Ids;
      var left: set<Id> := remap.Keys;
      order := [];
      NothingFolded(sources, directories, files, remap);
      while left != {}
        invariant left <= remap.Keys && Ids(order) == remap.Keys - left
        invariant Folded(old(sources), old(directories), old(files), remap, order, sources, directories, files)
        decreases |left|
      {
        var dead :| dead in left;
        FoldOneMore(old(sources), old(directories), old(files), remap, order, sources, directories, files, dead);
        folded := FoldOne(dead, remap[dead]);
        if !folded {
          return;
        }
        left, order := left - {dead}, order + [dead];
      }
      return true, order;
    }

    /** _dedupe_datasources. None stands for the IntegrityError, which rolls init back. */
    method Dedupe() returns (collapsed: Option<nat>)
      requires Valid()
      modifies this
      ensures Valid()
      ensures exists remap, order ::
        && IsRemap(old(sources), remap) && IsOrder(order, remap)
        && Outcome(old(sources), old(directories), old(files), remap, order, collapsed)
    {
      hide IsRemap, Sound, Follows, Repoint, Clash, UniqueDirectories, UniqueFiles, Ids, IsOrder, FoldFiles;
      var remap := FindDuplicates();
      RemapIsSound(sources, remap);
      var start, before, rows := sources, directories, files;
      var folded, order := FoldAll(remap);
      if folded {
        FoldFollows(rows, remap, order);
        ReferencesSurvive(start, before, rows, files, remap);
        FollowersAreUnique(rows, files, remap);
        NoClashLeft(before, remap);
        collapsed := Some(|remap|);
      } else {
        sources, directories, files := start, before, rows;
        collapsed := None;
        NoOrder(remap);
        order := [];
      }
      OrderIsOfRemap(remap, order);
      assert Outcome(start, before, rows, remap, order, collapsed);
    }
  }

  lemma OrderIsOfRemap(remap: Remap, order: seq<Id>)
    requires IsOrder(order, remap)
    ensures forall id :: id in order ==> id in remap
  {
  }

  /** The tables once the datasources in order are folded, one after the other. */
  ghost predicate Folded(
    sources0: map<Id, Source>, directories0: map<Id, Directory>, files0: map<Id, File>,
    remap: Remap, order: seq<Id>,
    sources: map<Id, Source>, directories: map<Id, Directory>, files: map<Id, File>)
  {
    && IsOrder(order, remap)
    && sources == sources0 - Ids(order)
    && directories == Repoint(directories0, remap, Ids(order)) && UniqueDirectories(directories)
    && files == FoldFiles(files0, remap, order)
  }

  lemma NothingFolded(
    sources: map<Id, Source>, directories: map<Id, Directory>, files: map<Id, File>, remap: Remap)
    requires UniqueDirectories(directories)
    ensures Folded(sources, directories, files, remap, [], sources, directories, files) && Ids([]) == {}
  {
    assert Repoint(directories, remap, Ids([])) == directories;
    assert sources - Ids([]) == sources;
  }

  /** One turn of the loop: a collision shows a clash, and without one the next datasource is folded. */
  lemma FoldOneMore(
    sources0: map<Id, Source>, directories0: map<Id, Directory>, files0: map<Id, File>,
    remap: Remap, order: seq<Id>,
    sources: map<Id, Source>, directories: map<Id, Directory>, files: map<Id, File>, dead: Id)
    requires Sound(remap) && dead in remap && dead !in Ids(order)
    requires Folded(sources0, directories0, files0, remap, order, sources, directories, files)
    ensures Ids(order + [dead]) == Ids(order) + {dead}
    ensures if Collides(directories, dead, remap[dead]) then Clash(directories0, remap)
      else Folded(sources0, directories0, files0, remap, order + [dead],
        sources - {dead}, RepointOne(directories, dead, remap[dead]), MoveFiles(files, dead, remap[dead]))
  {
    OneMore(remap, order, dead);
    CollisionIsClash(directories0, remap, Ids(order), dead);
    RepointOneMore(directories0, remap, Ids(order), dead);
    FoldSnoc(files0, remap, order, dead);
    MinusOneMore(sources0, Ids(order), dead);
    hide Sound, Repoint, RepointOne, Clash, UniqueDirectories, Collides, MoveFiles, Ids, FoldFiles, IsOrder;
  }

  lemma FoldSnoc(files: map<Id, File>, remap: Remap, order: seq<Id>, dead: Id)
    requires IsOrder(order + [dead], remap)
    ensures (forall id :: id in order ==> id in remap) && dead in remap
    ensures (forall id :: id in order + [dead] ==> id in remap)
    ensures FoldFiles(files, remap, order + [dead]) == MoveFiles(FoldFiles(files, remap, order), dead, remap[dead])
  {
    hide MoveFiles;
    assert (order + [dead])[..|order|] == order;
    assert (order + [dead])[|order|] == dead;
    assert forall id :: id in order ==> id in order + [dead];
  }

  lemma MinusOneMore(sources: map<Id, Source>, done: set<Id>, dead: Id)
    ensures sources - done - {dead} == sources - (done + {dead})
  {
  }

  lemma NoOrder(remap: Remap)
    ensures IsOrder([], remap)
  {
  }

  lemma OneMore(remap: Remap, order: seq<Id>, dead: Id)
    requires IsOrder(order, remap) && dead in remap && dead !in Ids(order)
    ensures IsOrder(order + [dead], remap) && Ids(order + [dead]) == Ids(order) + {dead}
    ensures Ids(order) <= remap.Keys
  {
  }

  /** remap holds exactly the dead rows, each with the keeper of its group. */
  ghost predicate IsRemap(sources: map<Id, Source>, remap: Remap) {
    && (forall id :: id in remap <==> IsDead(sources, id))
    && (forall id :: id in remap ==> IsKeeper(sources, remap[id], id))
  }

  lemma RemapIsSound(sources: map<Id, Source>, remap: Remap)
    requires IsRemap(sources, remap)
    ensures Sound(remap)
  {
    forall id | id in remap ensures remap[id] !in remap {
      KeeperKeepsItself(sources, remap[id], id);
    }
  }

  lemma NothingDone(directories: map<Id, Directory>, files: map<Id, File>, remap: Remap)
    requires UniqueFiles(files)
    ensures Repoint(directories, remap, {}) == directories
    ensures Follows(files, files, remap, {})
  {
    hide Sent, UniqueFiles, SameName;
    forall f | f in files ensures Sent(files[f], remap, {}) == files[f] && Taken(files, files[f]) {
      NotSent(files[f], remap);
    }
  }

  lemma NotSent(f: File, remap: Remap)
    ensures Sent(f, remap, {}) == f && SameName(f, f)
  {
  }

  lemma ReferencesSurvive(
    sources: map<Id, Source>, directories: map<Id, Directory>, before: map<Id, File>, after: map<Id, File>,
    remap: Remap)
    requires IsRemap(sources, remap) && Follows(before, after, remap, remap.Keys)
    requires forall d :: d in directories ==> directories[d].source in sources
    requires forall f :: f in before ==> before[f].source in sources
    ensures var left := sources - remap.Keys; var moved := Repoint(directories, remap, remap.Keys);
      && (forall d :: d in moved ==> moved[d].source in left)
      && (forall f :: f in after ==> after[f].source in left)
  {
    RemapIsSound(sources, remap);
    hide NamesFollow, KeepersStay, UniqueFiles, IsDead, IsKeeper;
    KeepersAreSources(sources, remap);
  }

  lemma KeepersAreSources(sources: map<Id, Source>, remap: Remap)
    requires IsRemap(sources, remap)
    ensures forall id :: id in remap ==> remap[id] in sources
  {
  }

  lemma FollowersAreUnique(before: map<Id, File>, after: map<Id, File>, remap: Remap)
    requires Follows(before, after, remap, remap.Keys)
    ensures UniqueFiles(after)
  {
  }

  lemma NoClashLeft(directories: map<Id, Directory>, remap: Remap)
    ensures UniqueDirectories(Repoint(directories, remap, remap.Keys)) <==> !Clash(directories, remap)
  {
  }

  /**
   * When the migration fails, in terms of the rows it starts from: two directories of
   * one user share a path and sit under datasources of one identity.
   */
  lemma ClashExactly(sources: map<Id, Source>, directories: map<Id, Directory>, remap: Remap)
    requires IsRemap(sources, remap) && UniqueDirectories(directories)
    requires forall d :: d in directories ==> directories[d].source in sources
    ensures Clash(directories, remap) <==> exists a, b ::
      && a in directories && b in directories && a != b
      && directories[a].user == directories[b].user && directories[a].path == directories[b].path
      && SameIdentity(sources[directories[a].source], sources[directories[b].source])
  {
    var moved := Repoint(directories, remap, remap.Keys);
    forall a, b | a in directories && b in directories && a != b
      ensures moved[a] == moved[b] <==>
        && directories[a].user == directories[b].user && directories[a].path == directories[b].path
        && SameIdentity(sources[directories[a].source], sources[directories[b].source])
    {
      OneTarget(sources, remap, directories[a].source, directories[b].source);
    }
  }

  /** Two datasources are folded into one row exactly when they have one identity. */
  lemma OneTarget(sources: map<Id, Source>, remap: Remap, a: Id, b: Id)
    requires IsRemap(sources, remap) && a in sources && b in sources
    ensures a != b ==>
      (Target(remap, remap.Keys, a) == Target(remap, remap.Keys, b) <==> SameIdentity(sources[a], sources[b]))
  {
    var x, y := Target(remap, remap.Keys, a), Target(remap, remap.Keys, b);
    if a != b && SameIdentity(sources[a], sources[b]) {
      assert IsKeeper(sources, x, a) && IsKeeper(sources, y, b);
      KeeperIsUnique(sources, x, y, a);
    }
  }

  // --- what the migration preserves --------------------------------------------------------------------------

  /** (owner, identity, key): what a file row says about where its content was seen. */
  ghost predicate Names(
    sources: map<Id, Source>, files: map<Id, File>, user: string, place: Source, key: string)
  {
    exists f :: f in files && files[f].user == user && files[f].key == key
      && files[f].source in sources && SameIdentity(sources[files[f].source], place)
  }

  /**
   * Meaning preserved. After a migration that goes through: no two datasources have
   * one identity; every old datasource has exactly one survivor of its identity, the
   * oldest; the names that files give are the names they gave.
   */
  lemma MeaningPreserved(
    sources: map<Id, Source>, before: map<Id, File>, after: map<Id, File>, remap: Remap,
    user: string, place: Source, key: string)
    requires IsRemap(sources, remap) && Follows(before, after, remap, remap.Keys)
    requires forall f :: f in before ==> before[f].source in sources
    ensures var left := sources - remap.Keys;
      && (forall a, b | a in left && b in left && SameIdentity(left[a], left[b]) :: a == b)
      && (forall id | id in sources && sources[id].bucket.Some? ::
            exists keeper :: keeper in left && IsKeeper(sources, keeper, id))
      && (Names(sources, before, user, place, key) <==> Names(left, after, user, place, key))
  {
    var left := sources - remap.Keys;
    IdentitiesUnique(sources, remap);
    forall id | id in sources && sources[id].bucket.Some?
      ensures exists keeper :: keeper in left && IsKeeper(sources, keeper, id)
    {
      KeeperExists(sources, id);
      var keeper :| IsKeeper(sources, keeper, id);
      KeeperKeepsItself(sources, keeper, id);
    }
    NamesKept(sources, before, after, remap, user, place, key);
    NamesNotInvented(sources, before, after, remap, user, place, key);
  }

  lemma IdentitiesUnique(sources: map<Id, Source>, remap: Remap)
    requires IsRemap(sources, remap)
    ensures var left := sources - remap.Keys;
      forall a, b | a in left && b in left && SameIdentity(left[a], left[b]) :: a == b
  {
    var left := sources - remap.Keys;
    forall a, b | a in left && b in left && SameIdentity(left[a], left[b]) ensures a == b {
      assert IsKeeper(sources, a, a) && IsKeeper(sources, b, b);
      TextLeTotal(a, b);
    }
  }

  lemma NamesKept(
    sources: map<Id, Source>, before: map<Id, File>, after: map<Id, File>, remap: Remap,
    user: string, place: Source, key: string)
    requires IsRemap(sources, remap) && Follows(before, after, remap, remap.Keys)
    ensures Names(sources, before, user, place, key) ==> Names(sources - remap.Keys, after, user, place, key)
  {
    if Names(sources, before, user, place, key) {
      RemapIsSound(sources, remap);
      hide RowsFollow, KeepersStay, UniqueFiles;
      var f :| f in before && before[f].user == user && before[f].key == key
        && before[f].source in sources && SameIdentity(sources[before[f].source], place);
      var target := Target(remap, remap.Keys, before[f].source);
      assert Taken(after, Sent(before[f], remap, remap.Keys));
      var g :| g in after && SameName(after[g], Sent(before[f], remap, remap.Keys));
      SameIdentityAfter(sources, remap, before[f].source);
      assert target in sources - remap.Keys;
    }
  }

  /** Following the remap does not change which identity a row points at. */
  lemma SameIdentityAfter(sources: map<Id, Source>, remap: Remap, id: Id)
    requires IsRemap(sources, remap) && id in sources
    ensures var target := Target(remap, remap.Keys, id);
      && target in sources
      && (target != id ==> SameIdentity(sources[target], sources[id]))
  {
  }

  lemma NamesNotInvented(
    sources: map<Id, Source>, before: map<Id, File>, after: map<Id, File>, remap: Remap,
    user: string, place: Source, key: string)
    requires IsRemap(sources, remap) && Follows(before, after, remap, remap.Keys)
    requires forall f :: f in before ==> before[f].source in sources
    ensures Names(sources - remap.Keys, after, user, place, key) ==> Names(sources, before, user, place, key)
  {
    var left := sources - remap.Keys;
    if Names(left, after, user, place, key) {
      var g :| g in after && after[g].user == user && after[g].key == key
        && after[g].source in left && SameIdentity(left[after[g].source], place);
      assert g in before && before[g].source in sources;
    }
  }

  /** A name that some live row gives. */
  ghost predicate LiveName(
    sources: map<Id, Source>, files: map<Id, File>, user: string, place: Source, key: string)
  {
    exists f :: f in files && NamedBy(sources, files[f], user, place, key)
  }

  predicate NamedBy(sources: map<Id, Source>, f: File, user: string, place: Source, key: string) {
    f.live && f.user == user && f.key == key && f.source in sources && SameIdentity(sources[f.source], place)
  }

  /**
   * Which names stay live, exactly: those of a live row whose turn comes before that of
   * every other row of the name, the survivor's own row being the first of all. So a name
   * vanishes when the first of its rows is soft-deleted, whatever the others are.
   */
  lemma LiveNamesExactly(
    sources: map<Id, Source>, before: map<Id, File>, remap: Remap, order: seq<Id>,
    user: string, place: Source, key: string)
    requires IsRemap(sources, remap) && IsOrder(order, remap) && Ids(order) == remap.Keys
    requires UniqueFiles(before) && forall f :: f in before ==> before[f].source in sources
    ensures LiveName(sources - remap.Keys, FoldFiles(before, remap, order), user, place, key) <==>
      exists f ::
        f in before && NamedBy(sources, before[f], user, place, key) && IsFirst(before, remap, order, f)
  {
    RemapIsSound(sources, remap);
    FoldFollows(before, remap, order);
    var after, left := FoldFiles(before, remap, order), sources - remap.Keys;
    forall f | f in before
      ensures f in after <==> IsFirst(before, remap, order, f)
      ensures f in after ==>
        (NamedBy(left, after[f], user, place, key) <==> NamedBy(sources, before[f], user, place, key))
    {
      StaysExactly(before, remap, order, f);
      NamedAfter(sources, remap, before[f], user, place, key);
    }
    assert forall f :: f in after ==> f in before;
  }

  lemma NamedAfter(sources: map<Id, Source>, remap: Remap, f: File, user: string, place: Source, key: string)
    requires IsRemap(sources, remap) && f.source in sources
    ensures NamedBy(sources - remap.Keys, Sent(f, remap, remap.Keys), user, place, key)
      <==> NamedBy(sources, f, user, place, key)
  {
    RemapIsSound(sources, remap);
    SameIdentityAfter(sources, remap, f.source);
  }

  /** If the survivor has a row of the name, that row alone decides. */
  lemma SurvivorDecides(before: map<Id, File>, remap: Remap, order: seq<Id>, f: Id, own: Id)
    requires Sound(remap) && IsOrder(order, remap) && UniqueFiles(before) && f in before && own in before
    requires before[own].source !in remap
    requires SameName(Sent(before[f], remap, Ids(order)), Sent(before[own], remap, Ids(order)))
    ensures IsFirst(before, remap, order, own)
    ensures IsFirst(before, remap, order, f) ==> f == own
  {
    RankBelow(order, before[own].source);
    RankBelow(order, before[f].source);
    assert before[f].source !in order ==> Sent(before[f], remap, Ids(order)) == before[f];
    assert Sent(before[own], remap, Ids(order)) == before[own];
  }

  /**
   * A tenant whose file is hidden: two datasources of one identity, the older one's row of
   * the key soft-deleted, the younger one's live.
   */
  lemma LiveFileIsHidden(place: Source, older: Id, young: Id, key: string, later: real)
    requires place.bucket.Some? && older != young && place.created < later
    ensures var sources := map[older := place, young := place.(created := later)];
      var remap := map[young := older];
      var files := map["1" := File(place.user, older, key, false, ""), "2" := File(place.user, young, key, true, "")];
      && IsRemap(sources, remap) && IsOrder([young], remap) && Ids([young]) == remap.Keys && UniqueFiles(files)
      && LiveName(sources, files, place.user, place, key)
      && !LiveName(sources - remap.Keys, FoldFiles(files, remap, [young]), place.user, place, key)
  {
    var sources := map[older := place, young := place.(created := later)];
    var remap := map[young := older];
    var files := map["1" := File(place.user, older, key, false, ""), "2" := File(place.user, young, key, true, "")];
    TwoSources(place, older, young, later);
    TwoRows(place.user, older, young, key);
    hide IsRemap, IsFirst, FoldFiles, SameIdentity;
    LiveNamesExactly(sources, files, remap, [young], place.user, place, key);
    assert SameIdentity(sources[young], place) by {
      SameButLater(place, later);
    }
    assert NamedBy(sources, files["2"], place.user, place, key);
  }

  lemma SameButLater(place: Source, later: real)
    requires place.bucket.Some?
    ensures SameIdentity(place.(created := later), place)
  {
  }

  lemma TwoSources(place: Source, older: Id, young: Id, later: real)
    requires place.bucket.Some? && older != young && place.created < later
    ensures IsRemap(map[older := place, young := place.(created := later)], map[young := older])
  {
    var sources := map[older := place, young := place.(created := later)];
    TextLeTotal(older, older);
    assert IsKeeper(sources, older, young) && IsKeeper(sources, older, older) && IsDead(sources, young);
  }

  lemma TwoRows(user: string, older: Id, young: Id, key: string)
    requires older != young
    ensures var remap := map[young := older];
      var files := map["1" := File(user, older, key, false, ""), "2" := File(user, young, key, true, "")];
      && IsOrder([young], remap) && Ids([young]) == remap.Keys && UniqueFiles(files)
      && !IsFirst(files, remap, [young], "2")
  {
    var remap := map[young := older];
    var files := map["1" := File(user, older, key, false, ""), "2" := File(user, young, key, true, "")];
    assert Ids([young]) == {young};
    assert Sent(files["1"], remap, {young}) == files["1"];
    assert Sent(files["2"], remap, {young}) == files["2"].(source := older);
    RankBelow([young], older);
    RankBelow([young], young);
  }

  /** A second pass finds nothing to fold. */
  lemma SecondPassIsEmpty(sources: map<Id, Source>, remap: Remap, again: Remap)
    requires IsRemap(sources, remap) && IsRemap(sources - remap.Keys, again)
    ensures again == map[]
  {
    IdentitiesUnique(sources, remap);
    var left := sources - remap.Keys;
    forall id | id in left ensures !IsDead(left, id) {
      TextLeTotal(id, id);
      assert !IsDead(sources, id) && left[id] == sources[id];
    }
    assert again.Keys == {};
  }

  /** And so it leaves the three tables as they are, and no directories clash. */
  lemma SecondPassChangesNothing(
    sources: map<Id, Source>, remap: Remap, again: Remap,
    directories: map<Id, Directory>, before: map<Id, File>, after: map<Id, File>)
    requires IsRemap(sources, remap) && IsRemap(sources - remap.Keys, again)
    requires UniqueDirectories(directories) && Follows(before, after, again, again.Keys)
    ensures var left := sources - remap.Keys;
      && left - again.Keys == left
      && Repoint(directories, again, again.Keys) == directories && !Clash(directories, again)
      && after == before
  {
    SecondPassIsEmpty(sources, remap, again);
    assert Repoint(directories, again, again.Keys) == directories;
    assert forall f :: f in before ==> f in after && after[f] == before[f];
  }

  /** The remap is a function of the datasources, so the outcome is one too. */
  lemma RemapIsUnique(sources: map<Id, Source>, a: Remap, b: Remap)
    requires IsRemap(sources, a) && IsRemap(sources, b)
    ensures a == b
  {
    assert a.Keys == b.Keys;
    forall id | id in a ensures a[id] == b[id] {
      KeeperIsUnique(sources, a[id], b[id], id);
    }
  }
}
