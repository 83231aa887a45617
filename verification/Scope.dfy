/**
 * Scope against what a listing returns: packages/core/storage/s3.py lists a path,
 * services/api/app/api/datasource_routes.py shows and registers it under the policy.
 */
module Scope {
  import opened Wrappers
  import opened Text
  import opened Policy

  /** The object keys of one bucket, in the order S3 lists them. */
  type Bucket = seq<string>

  // --- packages/core/storage/s3.py ------------------------------------------------------------------

  /** _normalise_prefix: as policy.normalise, but whitespace stays. */
  function S3Prefix(path: string): (p: string)
    ensures IsPath(p)
  {
    Close(path)
  }

  /** A key that a listing of path returns: directory placeholders are not documents. */
  predicate IsListed(path: string, key: string) {
    S3Prefix(path) <= key && !EndsWith(key, '/')
  }

  function Listed(bucket: Bucket, path: string): seq<string> {
    if bucket == [] then []
    else
      var last := bucket[|bucket| - 1];
      Listed(bucket[..|bucket| - 1], path) + if IsListed(path, last) then [last] else []
  }

  method ListObjects(bucket: Bucket, path: string) returns (out: seq<string>)
    ensures out == Listed(bucket, path)
  {
    var prefix := S3Prefix(path);
    out := [];
    for i := 0 to |bucket|
      invariant out == Listed(bucket[..i], path)
    {
      assert bucket[..i + 1][..i] == bucket[..i];
      var key := bucket[i];
      if !(prefix <= key) {
        continue;
      }
      if EndsWith(key, '/') {
        continue;
      }
      out := out + [key];
    }
    assert bucket[..|bucket|] == bucket;
  }

  lemma {:induction false} ListedExactly(bucket: Bucket, path: string, key: string)
    ensures key in Listed(bucket, path) <==> key in bucket && IsListed(path, key)
  {
    hide IsListed;
    if bucket != [] {
      var front, last := bucket[..|bucket| - 1], bucket[|bucket| - 1];
      ListedExactly(front, path, key);
      assert bucket == front + [last];
    }
  }

  /** key up to the first slash after prefix: a CommonPrefix of the delimited listing. */
  function ChildOf(prefix: string, key: string): Option<string> {
    if prefix <= key && '/' in key[|prefix|..] then
      Some(key[..|prefix| + FirstIndex(key[|prefix|..], '/') + 1])
    else None
  }

  function Children(bucket: Bucket, path: string): set<string> {
    set key | key in bucket && ChildOf(S3Prefix(path), key).Some? :: ChildOf(S3Prefix(path), key).value
  }

  // --- scope of a registered path ---------------------------------------------------------------------

  /** When the two normal forms of a path are one. */
  lemma SamePrefixExactly(path: string)
    ensures S3Prefix(path) == Normalise(path) <==> Strip(path) == path
  {
    if Strip(path) != path {
      TrimEnds(path, IsSpace);
      if IsSpace(path[0]) {
        LeadingSpaceDiffers(path);
      } else {
        TrailingSpaceDiffers(path);
      }
    }
  }

  lemma LeadingSpaceDiffers(path: string)
    requires path != "" && IsSpace(path[0])
    ensures S3Prefix(path) != Normalise(path)
  {
    TrimLeftIsSuffix(path[1..], IsSpace);
    var left := TrimLeft(path, IsSpace);
    TrimRightIsPrefix(left, IsSpace);
    TrimLeftIsSuffix(Strip(path), IsSlash);
    if EndsWith(path, '/') {
      TrimLeftKeepsEnd(path, IsSpace);
      if left != "" {
        TrimFixed(left, IsSpace);
      }
      TrimLeftKeepsEnd(Strip(path), IsSlash);
    }
  }

  lemma TrailingSpaceDiffers(path: string)
    requires path != "" && !IsSpace(path[0]) && IsSpace(path[|path| - 1])
    ensures S3Prefix(path) != Normalise(path)
  {
    var front := path[..|path| - 1];
    assert Strip(path) == TrimRight(front, IsSpace);
    TrimRightIsPrefix(front, IsSpace);
    TrimLeftShrinks(Strip(path), path, IsSlash);
    TrimLeftKeepsEnd(path, IsSlash);
    SpaceAfterSlashes(path);
  }

  lemma {:induction false} SpaceAfterSlashes(path: string)
    requires path != "" && IsSpace(path[|path| - 1])
    ensures TrimLeft(path, IsSlash) != ""
  {
    if IsSlash(path[0]) {
      SpaceAfterSlashes(path[1..]);
    }
  }

  /** Of a string and a proper prefix, what is left after dropping from the front keeps the distance. */
  lemma {:induction false} TrimLeftShrinks(a: string, b: string, drop: char -> bool)
    requires a <= b && |a| < |b| && !drop(b[|b| - 1])
    ensures |TrimLeft(a, drop)| < |TrimLeft(b, drop)|
  {
    if a != "" && drop(a[0]) {
      TrimLeftShrinks(a[1..], b[1..], drop);
    } else if a == "" {
      NotAllDropped(b, drop);
    }
  }

  lemma {:induction false} NotAllDropped(s: string, drop: char -> bool)
    requires s != "" && !drop(s[|s| - 1])
    ensures TrimLeft(s, drop) != ""
  {
    if drop(s[0]) {
      NotAllDropped(s[1..], drop);
    }
  }

  ghost predicate Paths(allowed: seq<string>) {
    forall i :: 0 <= i < |allowed| ==> IsPath(allowed[i])
  }

  /** Whatever the bucket holds, what a listing of path returns lies inside the scope. */
  ghost predicate ListsInScope(path: string, allowed: seq<string>) {
    forall key :: IsListed(path, key) ==> Under(key, allowed)
  }

  /** The listing stays in scope exactly when the prefix it is made with does. */
  lemma ListsInScopeExactly(path: string, allowed: seq<string>)
    requires Paths(allowed)
    ensures ListsInScope(path, allowed) <==> Under(S3Prefix(path), allowed)
  {
    var p := S3Prefix(path);
    if Under(p, allowed) {
      var i :| 0 <= i < |allowed| && allowed[i] <= p;
      forall key | IsListed(path, key) ensures Under(key, allowed) {
        assert allowed[i] <= key;
      }
    }
    if ListsInScope(path, allowed) {
      var key := p + "x";
      assert IsListed(path, key);
      var i :| 0 <= i < |allowed| && allowed[i] <= key;
      assert key[|key| - 1] == 'x' && allowed[i] != key;
      assert allowed[i] <= p;
    }
  }

  /**
   * The gate is meant to keep every synced key inside the scope. For a registrable path
   * it does exactly when the path S3 lists is under an allowed prefix too, and always
   * when the path carries no whitespace at its ends.
   */
  lemma RegisteredStaysInScope(path: string, raw: string, user: string)
    ensures var allowed := AllowedPrefixes(raw, user);
      allowed != [] && MayRegister(path, allowed) ==>
        && (ListsInScope(path, allowed) <==> Under(S3Prefix(path), allowed))
        && (Strip(path) == path ==> ListsInScope(path, allowed))
  {
    ListsInScopeExactly(path, AllowedPrefixes(raw, user));
    SamePrefixExactly(path);
  }

  /** What stripping the right end took away. */
  lemma {:induction false} TrimRightRest(s: string, drop: char -> bool) returns (rest: string)
    ensures s == TrimRight(s, drop) + rest
    ensures forall i :: 0 <= i < |rest| ==> drop(rest[i])
  {
    if s != "" && drop(s[|s| - 1]) {
      var more := TrimRightRest(s[..|s| - 1], drop);
      rest := more + [s[|s| - 1]];
    } else {
      rest := "";
    }
  }

  lemma {:induction false} TrimLeftGrows(a: string, rest: string, drop: char -> bool)
    requires TrimLeft(a, drop) != ""
    ensures TrimLeft(a + rest, drop) == TrimLeft(a, drop) + rest
  {
    if a != "" && drop(a[0]) {
      assert (a + rest)[1..] == a[1..] + rest;
      TrimLeftGrows(a[1..], rest, drop);
    }
  }

  /**
   * A path under a one-name prefix, if it does not start with whitespace, is listed by
   * that prefix or by a first name that whitespace makes longer.
   */
  lemma ListedName(path: string, name: string) returns (first: string)
    requires '/' !in name && name + "/" <= Normalise(path) && !IsSpace(path[0])
    ensures '/' !in first && first + "/" <= S3Prefix(path)
    ensures first == name || IsSpace(first[|first| - 1])
  {
    var stripped := Strip(path);
    assert stripped == TrimRight(path, IsSpace);
    var rest := TrimRightRest(path, IsSpace);
    var q := TrimLeft(stripped, IsSlash);
    TrimLeftGrows(stripped, rest, IsSlash);
    ClosedName(stripped, name);
    hide TrimLeft, TrimRight, Normalise;
    assert q + rest <= S3Prefix(path);
    first := if name + "/" <= q then name else name + rest;
    if name + "/" <= q {
      assert q <= q + rest;
    } else {
      assert forall i :: 0 <= i < |rest| ==> rest[i] != '/';
      assert S3Prefix(path) == q + rest + "/";
    }
  }

  lemma ClosedName(path: string, name: string)
    requires '/' !in name && name + "/" <= Close(path)
    ensures var q := TrimLeft(path, IsSlash); q != "" && (name + "/" <= q || q == name)
  {
    var q := TrimLeft(path, IsSlash);
    TrimLeftIsSuffix(path, IsSlash);
    hide TrimLeft;
    assert |name| < |q| ==> (q + "/")[..|name| + 1] == q[..|name| + 1];
    if !(name + "/" <= q) {
      assert Close(path) == q + "/";
      assert q == (q + "/")[..|q|] == (name + "/")[..|q|];
    }
  }

  /** Under the default policy no directory another tenant may register lists a key of owner's private prefix. */
  lemma PrivateKeysStayUnlisted(owner: string, other: string, path: string, key: string)
    requires IsName(owner) && IsName(other) && owner != other
    ensures MayRegister(path, AllowedPrefixes(DEFAULT_POLICY, other)) && owner + PRIVATE <= key ==>
      !IsListed(path, key)
  {
    hide AllowedPrefixes, Normalise;
    DefaultAllowed(other);
    if MayRegister(path, AllowedPrefixes(DEFAULT_POLICY, other)) && owner + PRIVATE <= key && IsListed(path, key) {
      PrivateNames(owner, other);
      if LIBRARY <= Normalise(path) {
        NotListedUnder(owner, "library", path, key);
      } else if ARCHIVE <= Normalise(path) {
        NotListedUnder(owner, "library-archive", path, key);
      } else {
        assert other + PRIVATE == other + "-private" + "/";
        NotListedUnder(owner, other + "-private", path, key);
      }
    }
  }

  lemma NotListedUnder(owner: string, name: string, path: string, key: string)
    requires IsName(owner) && '/' !in name && owner + "-private" != name
    requires name + "/" <= Normalise(path) && owner + PRIVATE <= key
    ensures !IsListed(path, key)
  {
    hide Normalise, S3Prefix;
    assert path != "" by {
      NothingNormalised();
    }
    assert key[0] == owner[0] && !IsSpace(key[0]);
    if S3Prefix(path) <= key {
      if IsSpace(path[0]) {
        SpaceLeads(path);
      } else {
        var first := ListedName(path, name);
        assert owner + PRIVATE == owner + "-private" + "/";
        assert first + "/" <= key && (owner + "-private")[|owner| + 7] == 'e';
        OneNameEach(owner + "-private", first, key);
      }
    }
  }

  lemma NothingNormalised()
    ensures Normalise("") == ""
  {
  }

  lemma SpaceLeads(path: string)
    requires path != "" && IsSpace(path[0])
    ensures S3Prefix(path) != "" && S3Prefix(path)[0] == path[0]
  {
  }

  /** A path that may be registered and lists keys outside the scope. */
  lemma SpaceEscapesTheScope()
    ensures MayRegister(" a", ["a/"]) && !ListsInScope(" a", ["a/"])
  {
    var path := " a";
    assert TrimLeft("a", IsSpace) == "a" && path[1..] == "a";
    assert Strip(path) == "a";
    assert Normalise(path) == "a/" && ["a/"][0] <= Normalise(path);
    assert S3Prefix(path) == " a/";
    assert Paths(["a/"]);
    ListsInScopeExactly(path, ["a/"]);
  }

  // --- browse -------------------------------------------------------------------------------------------

  datatype Page = Page(directories: set<string>, files: seq<string>, truncated: bool)

  const PAGE: nat := 200

  /** The listed keys with no further slash. */
  function Here(keys: seq<string>, skip: nat): seq<string> {
    if keys == [] then []
    else
      var last := keys[|keys| - 1];
      Here(keys[..|keys| - 1], skip)
      + if skip <= |last| && '/' in last[skip..] then [] else [last]
  }

  /** None is the 403. */
  method Browse(bucket: Bucket, path: string, allowed: seq<string>) returns (page: Option<Page>)
    ensures page.Some? <==> MayBrowse(path, allowed)
    ensures page.Some? ==> page.value.directories == set d | d in Children(bucket, path) && MayBrowse(d, allowed)
    ensures page.Some? ==>
      var here := if MayRegister(path, allowed) then Here(Listed(bucket, path), |S3Prefix(path)|) else [];
      && page.value.files == (if |here| > PAGE then here[..PAGE] else here)
      && (page.value.truncated <==> |here| > PAGE)
  {
    hide MayBrowse, MayRegister, Children, Listed;
    if !MayBrowse(path, allowed) {
      return None;
    }
    var directories := set d | d in Children(bucket, path) && MayBrowse(d, allowed);
    var objects := ListObjects(bucket, path);
    if !MayRegister(path, allowed) {
      objects := [];
    }
    var here := [];
    for i := 0 to |objects|
      invariant here == Here(objects[..i], |S3Prefix(path)|)
    {
      assert objects[..i + 1][..i] == objects[..i];
      var key := objects[i];
      if !(|S3Prefix(path)| <= |key| && '/' in key[|S3Prefix(path)|..]) {
        here := here + [key];
      }
    }
    assert objects[..|objects|] == objects;
    return Some(Page(directories, if |here| > PAGE then here[..PAGE] else here, |here| > PAGE));
  }

  lemma {:induction false} HereExactly(keys: seq<string>, skip: nat, key: string)
    ensures key in Here(keys, skip) <==> key in keys && !(skip <= |key| && '/' in key[skip..])
  {
    if keys != [] {
      var front, last := keys[..|keys| - 1], keys[|keys| - 1];
      HereExactly(front, skip, key);
      assert keys == front + [last];
    }
  }

  /**
   * The files that browsing path may show: its own listed keys, in scope whenever the
   * prefix they are listed by is, as it is for a registrable path with no whitespace at its ends.
   */
  lemma PageIsInScope(bucket: Bucket, path: string, allowed: seq<string>, key: string)
    requires Paths(allowed)
    ensures key in Here(Listed(bucket, path), |S3Prefix(path)|) <==>
      && key in bucket && IsListed(path, key) && '/' !in key[|S3Prefix(path)|..]
    ensures Under(S3Prefix(path), allowed) ==>
      key in Here(Listed(bucket, path), |S3Prefix(path)|) ==> Under(key, allowed)
    ensures allowed != [] && MayRegister(path, allowed) && Strip(path) == path ==> Under(S3Prefix(path), allowed)
  {
    HereExactly(Listed(bucket, path), |S3Prefix(path)|, key);
    ListedExactly(bucket, path, key);
    ListsInScopeExactly(path, allowed);
    SamePrefixExactly(path);
  }

  /**
   * Navigation. From the root down to an allowed prefix that holds a key, each path on
   * the way, written with a slash in front, may be browsed and has the next one among its
   * children; without the slash too, and the next one is shown, unless whitespace leads.
   */
  lemma EveryPrefixIsReachable(bucket: Bucket, allowed: seq<string>, i: nat, key: string, n: nat)
    requires i < |allowed| && IsPath(allowed[i])
    requires key in bucket && allowed[i] <= key
    requires n < |Components(allowed[i])|
    ensures var names := Components(allowed[i]);
      var here, next := PathOf(names[..n]), PathOf(names[..n + 1]);
      && MayBrowse("/" + here, allowed) && next in Children(bucket, "/" + here)
      && MayBrowse("/" + next, allowed)
      && (!SpaceLed(allowed[i]) ==>
            MayBrowse(here, allowed) && next in Children(bucket, here) && MayBrowse(next, allowed))
  {
    hide Normalise, MayBrowse, Components, S3Prefix, ChildOf;
    var a, names := allowed[i], Components(allowed[i]);
    var here, next := PathOf(names[..n]), PathOf(names[..n + 1]);
    AncestorsAreBrowsable(allowed, i, n);
    AncestorsAreBrowsable(allowed, i, n + 1);
    PathRoundTrip(a);
    assert names[..n + 1] == names[..n] + [names[n]];
    PathOfAppend(names[..n], names[n]);
    assert next <= key;
    NormalIsS3(here);
    ChildIs(here, names[n], key);
  }

  lemma ChildIs(here: string, name: string, key: string)
    requires '/' !in name && here + name + "/" <= key
    ensures ChildOf(here, key) == Some(here + name + "/")
  {
    var next := here + name + "/";
    assert key == next + key[|next|..];
    assert key[|here|..] == name + "/" + key[|next|..];
    FirstIndexIs(name, key[|next|..]);
    assert key[|here|..][|name|] == '/';
  }

  /**
   * Where whitespace leads it matters. A policy part with whitespace after its slash gives
   * a prefix that, as browsing its parent names it, can be neither registered nor browsed.
   */
  lemma SpacedPrefixIsUnreachable(user: string)
    ensures var allowed := AllowedPrefixes("/ a/", user);
      allowed == [" a/"] && !MayRegister(" a/", allowed) && !MayBrowse(" a/", allowed)
  {
    var raw := "/ a/";
    TrimFixed(raw, IsSpace);
    var parts: seq<string> := [raw];
    assert SplitOn(raw, ',') == parts && parts[1..] == [];
    ReplaceNothing(raw, user);
    assert raw[1..] == " a/" && TrimLeft(raw, IsSlash) == " a/";
    assert Normalise(raw) == " a/";
    assert Prefixes([], user) == [];
    assert AllowedPrefixes(raw, user) == [" a/"];
    var p := " a/";
    assert p[1..] == "a/" && Strip(p) == "a/";
    assert Normalise(p) == "a/";
  }

  lemma NormalIsS3(p: string)
    requires IsPath(p)
    ensures S3Prefix(p) == p && S3Prefix("/" + p) == p
  {
    assert ("/" + p)[1..] == p;
    assert TrimLeft(p, IsSlash) == p;
  }

  lemma {:induction false} PathOfAppend(names: seq<string>, name: string)
    ensures PathOf(names + [name]) == PathOf(names) + name + "/"
  {
    if names == [] {
      assert [] + [name] == [name] && [name][1..] == [];
      assert PathOf([]) == "";
    } else {
      assert (names + [name])[1..] == names[1..] + [name];
      PathOfAppend(names[1..], name);
    }
  }

  // --- registration ----------------------------------------------------------------------------------------

  datatype DirectoryKey = DirectoryKey(user: string, datasource: string, path: string)
  datatype Reply = Reply(id: string, created: bool)

  /** The directories table by its unique key; policy is the raw setting, one for all. */
  class Registry {
    const policy: string
    var directories: map<DirectoryKey, string>

    ghost predicate Valid()
      reads this
    {
      forall d :: d in directories ==> MayRegister(d.path, AllowedPrefixes(policy, d.user))
    }

    constructor (policy: string)
      ensures Valid() && this.policy == policy && directories == map[]
    {
      this.policy, directories := policy, map[];
    }

    /** register_directory; None is the 403, id the fresh one create_directory would use. */
    method Register(user: string, datasource: string, path: string, id: string) returns (reply: Option<Reply>)
      requires Valid()
      modifies this
      ensures Valid()
      ensures reply.Some? <==> MayRegister(path, AllowedPrefixes(policy, user))
      ensures var d := DirectoryKey(user, datasource, path);
        if reply.None? then directories == old(directories)
        else if d in old(directories) then
          directories == old(directories) && reply.value == Reply(old(directories)[d], false)
        else directories == old(directories)[d := id] && reply.value == Reply(id, true)
    {
      hide MayRegister, AllowedPrefixes;
      if !MayRegister(path, AllowedPrefixes(policy, user)) {
        return None;
      }
      var d := DirectoryKey(user, datasource, path);
      var created := d !in directories;
      if created {
        directories := directories[d := id];
      }
      return Some(Reply(directories[d], created));
    }

    /** When every key that a run over a registered directory sees is in its owner's scope. */
    method ListRegistered(d: DirectoryKey, bucket: Bucket) returns (keys: seq<string>)
      requires Valid() && d in directories
      ensures keys == Listed(bucket, d.path)
      ensures var allowed := AllowedPrefixes(policy, d.user);
        && (Under(S3Prefix(d.path), allowed) ==> forall key :: key in keys ==> Under(key, allowed))
        && (allowed != [] && Strip(d.path) == d.path ==> Under(S3Prefix(d.path), allowed))
    {
      keys := ListObjects(bucket, d.path);
      ListsInScopeExactly(d.path, AllowedPrefixes(policy, d.user));
      SamePrefixExactly(d.path);
      forall key | key in keys ensures IsListed(d.path, key) {
        ListedExactly(bucket, d.path, key);
      }
    }
  }
}
