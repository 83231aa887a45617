/**
 * packages/core/policy.py: which paths a tenant may register or browse, and why a test
 * on strings is a test on paths.
 */
module Policy {
  import opened Text

  // --- paths ------------------------------------------------------------------------------------

  /** What follows the leading slashes, closed by one; "" stays "". */
  function Close(path: string): (p: string)
    ensures IsPath(p)
  {
    var p := TrimLeft(path, IsSlash);
    TrimLeftIsSuffix(path, IsSlash);
    if p != "" && !EndsWith(p, '/') then p + "/" else p
  }

  function Normalise(path: string): (p: string)
    ensures IsPath(p)
  {
    Close(Strip(path))
  }

  /** The shape of a normalised path. */
  predicate IsPath(p: string) {
    p == "" || (p[0] != '/' && EndsWith(p, '/'))
  }

  function FirstIndex(s: string, c: char): (i: nat)
    requires c in s
    ensures i < |s| && s[i] == c && c !in s[..i]
  {
    if s[0] == c then 0 else 1 + FirstIndex(s[1..], c)
  }

  predicate Closed(p: string) {
    p == "" || EndsWith(p, '/')
  }

  /** The names along a path: "a/b/" has "a" and "b". */
  function Components(p: string): seq<string>
    requires Closed(p)
  {
    if p == "" then []
    else
      var i := FirstIndex(p, '/');
      [p[..i]] + Components(p[i + 1..])
  }

  function PathOf(components: seq<string>): (p: string)
    ensures Closed(p)
  {
    if components == [] then "" else components[0] + "/" + PathOf(components[1..])
  }

  predicate AreNames(components: seq<string>) {
    forall i :: 0 <= i < |components| ==> '/' !in components[i]
  }

  lemma {:induction false} PathRoundTrip(p: string)
    requires Closed(p)
    ensures AreNames(Components(p)) && PathOf(Components(p)) == p
    decreases |p|
  {
    hide Components;
    if p == "" {
      NoComponents(p);
    } else {
      var name, rest := FirstName(p);
      PathRoundTrip(rest);
      assert Components(p)[1..] == Components(rest);
    }
  }

  lemma FirstIndexIs(name: string, rest: string)
    requires '/' !in name
    ensures FirstIndex(name + "/" + rest, '/') == |name|
  {
    var s := name + "/" + rest;
    assert s[|name|] == '/' && s[..|name|] == name;
    assert forall k :: 0 <= k < |name| ==> s[k] == name[k];
  }

  /**
   * The path order. A prefix test on the strings of normalised paths is a prefix test on
   * their names: "alice-priv/" is not a prefix of "alice-private/".
   */
  lemma {:induction false} PrefixIsByComponent(a: string, p: string)
    requires Closed(a) && Closed(p)
    ensures a <= p <==> Components(a) <= Components(p)
    decreases |a|
  {
    hide Components;
    if a == "" {
      NoComponents(a);
    } else if p == "" {
      NoComponents(p);
      var name, rest := FirstName(a);
    } else {
      var x, xs := FirstName(a);
      var y, ys := FirstName(p);
      PrefixIsByComponent(xs, ys);
      HeadAndTail(x, xs, y, ys);
      ConsPrefix(x, Components(xs), y, Components(ys));
    }
  }

  lemma NoComponents(p: string)
    requires p == ""
    ensures Components(p) == []
  {
  }

  lemma FirstName(p: string) returns (name: string, rest: string)
    requires Closed(p) && p != ""
    ensures '/' !in name && Closed(rest) && |rest| < |p| && p == name + "/" + rest
    ensures Components(p) == [name] + Components(rest)
  {
    var i := FirstIndex(p, '/');
    name, rest := p[..i], p[i + 1..];
  }

  lemma ConsPrefix(x: string, xs: seq<string>, y: string, ys: seq<string>)
    ensures [x] + xs <= [y] + ys <==> x == y && xs <= ys
  {
    if [x] + xs <= [y] + ys {
      assert ([x] + xs)[0] == ([y] + ys)[0];
      assert ([x] + xs)[1..] == xs && ([y] + ys)[1..] == ys;
    }
  }

  lemma HeadAndTail(x: string, xs: string, y: string, ys: string)
    requires '/' !in x && '/' !in y
    ensures x + "/" + xs <= y + "/" + ys <==> x == y && xs <= ys
  {
    var s, t := x + "/" + xs, y + "/" + ys;
    if x == y && xs <= ys {
      assert t == s + ys[|xs|..];
    }
    if s <= t {
      assert t == s + t[|s|..];
      assert t == x + "/" + (xs + t[|s|..]);
      FirstIndexIs(x, xs + t[|s|..]);
      FirstIndexIs(y, ys);
      assert s[..|x|] == x && t[..|x|] == y;
      assert s[|x| + 1..] == xs && t[|x| + 1..] == ys;
    }
  }

  // --- the policy ----------------------------------------------------------------------------------

  function Replace(s: string, what: string, with: string): string
    requires what != ""
  {
    if s == "" then ""
    else if what <= s then with + Replace(s[|what|..], what, with)
    else [s[0]] + Replace(s[1..], what, with)
  }

  function SplitOn(s: string, c: char): (parts: seq<string>)
    ensures parts != []
  {
    if c !in s then [s]
    else
      var i := FirstIndex(s, c);
      [s[..i]] + SplitOn(s[i + 1..], c)
  }

  function Prefixes(parts: seq<string>, user: string): (allowed: seq<string>)
    ensures forall i :: 0 <= i < |allowed| ==> IsPath(allowed[i])
  {
    if parts == [] then []
    else
      (if Strip(parts[0]) != "" then [Normalise(Replace(parts[0], USER_ID, user))] else [])
      + Prefixes(parts[1..], user)
  }

  /** raw is DATASOURCE_PREFIXES; no prefixes means no restriction. */
  function AllowedPrefixes(raw: string, user: string): (allowed: seq<string>)
    ensures forall i :: 0 <= i < |allowed| ==> IsPath(allowed[i])
  {
    var policy := Strip(raw);
    if policy == "" || policy == "*" then [] else Prefixes(SplitOn(policy, ','), user)
  }

  predicate Under(path: string, allowed: seq<string>) {
    exists i :: 0 <= i < |allowed| && allowed[i] <= path
  }

  predicate MayRegister(path: string, allowed: seq<string>) {
    allowed == [] || Under(Normalise(path), allowed)
  }

  predicate MayBrowse(path: string, allowed: seq<string>) {
    || allowed == []
    || exists i :: 0 <= i < |allowed| && (allowed[i] <= Normalise(path) || Normalise(path) <= allowed[i])
  }

  /** What may be registered, name by name. */
  lemma RegistrableExactly(path: string, raw: string, user: string)
    ensures var allowed := AllowedPrefixes(raw, user);
      MayRegister(path, allowed) <==>
        || allowed == []
        || exists i :: 0 <= i < |allowed| && Components(allowed[i]) <= Components(Normalise(path))
  {
    var allowed := AllowedPrefixes(raw, user);
    forall i | 0 <= i < |allowed|
      ensures allowed[i] <= Normalise(path) <==> Components(allowed[i]) <= Components(Normalise(path))
    {
      PrefixIsByComponent(allowed[i], Normalise(path));
    }
  }

  /** What may be browsed: scope itself and the way down to it. */
  lemma BrowsableExactly(path: string, raw: string, user: string)
    ensures var allowed := AllowedPrefixes(raw, user); var here := Components(Normalise(path));
      MayBrowse(path, allowed) <==>
        || allowed == []
        || exists i :: 0 <= i < |allowed| && (Components(allowed[i]) <= here || here <= Components(allowed[i]))
    ensures var allowed := AllowedPrefixes(raw, user);
      MayRegister(path, allowed) ==> MayBrowse(path, allowed)
  {
    var allowed, p := AllowedPrefixes(raw, user), Normalise(path);
    forall i | 0 <= i < |allowed|
      ensures allowed[i] <= p <==> Components(allowed[i]) <= Components(p)
      ensures p <= allowed[i] <==> Components(p) <= Components(allowed[i])
    {
      PrefixIsByComponent(allowed[i], p);
      PrefixIsByComponent(p, allowed[i]);
    }
  }

  /** Does the policy restrict at all? A policy of blank parts does not. */
  lemma {:induction false} RestrictsExactly(parts: seq<string>, user: string)
    ensures Prefixes(parts, user) == [] <==> forall i :: 0 <= i < |parts| ==> Strip(parts[i]) == ""
  {
    if parts != [] {
      RestrictsExactly(parts[1..], user);
      if Strip(parts[0]) == "" && (forall i :: 0 <= i < |parts[1..]| ==> Strip(parts[1..][i]) == "") {
        forall i | 0 <= i < |parts| ensures Strip(parts[i]) == "" {
          assert i > 0 ==> parts[1..][i - 1] == parts[i];
        }
      }
      if forall i :: 0 <= i < |parts| ==> Strip(parts[i]) == "" {
        assert forall i :: 0 <= i < |parts[1..]| ==> parts[1..][i] == parts[i + 1];
      }
    }
  }

  // --- when normalising leaves a path alone ------------------------------------------------------------

  /** A normalised path is its own normal form exactly when it does not start with whitespace. */
  lemma NormaliseFixed(p: string)
    requires IsPath(p)
    ensures Normalise(p) == p <==> p == "" || !IsSpace(p[0])
  {
    if p != "" {
      if IsSpace(p[0]) {
        StripShortens(p);
      } else {
        TrimFixed(p, IsSpace);
      }
    }
  }

  predicate SpaceLed(p: string) {
    p != "" && IsSpace(p[0])
  }

  /** With a slash in front every normalised path is read as it is. */
  lemma SlashedIsFixed(p: string)
    requires IsPath(p)
    ensures Normalise("/" + p) == p
  {
    TrimFixed("/" + p, IsSpace);
    assert ("/" + p)[1..] == p;
    assert TrimLeft(p, IsSlash) == p;
  }

  /**
   * The way down: every leading part of an allowed prefix may be browsed, and the prefix
   * itself registered, with a slash in front, and without one unless whitespace leads.
   */
  lemma AncestorsAreBrowsable(allowed: seq<string>, i: nat, n: nat)
    requires i < |allowed| && IsPath(allowed[i]) && n <= |Components(allowed[i])|
    ensures var q := PathOf(Components(allowed[i])[..n]);
      && q <= allowed[i] && Normalise("/" + q) == q && MayBrowse("/" + q, allowed)
      && (!SpaceLed(allowed[i]) ==> Normalise(q) == q && MayBrowse(q, allowed))
    ensures MayRegister("/" + allowed[i], allowed)
    ensures !SpaceLed(allowed[i]) ==> MayRegister(allowed[i], allowed)
  {
    var a := allowed[i];
    var q := PathOf(Components(a)[..n]);
    PathRoundTrip(a);
    FrontIsPrefix(Components(a), n);
    SlashedIsFixed(a);
    SlashedIsFixed(q);
    NormaliseFixed(a);
    NormaliseFixed(q);
    hide Normalise, Components;
  }

  lemma {:induction false} FrontIsPrefix(components: seq<string>, n: nat)
    requires n <= |components|
    ensures PathOf(components[..n]) <= PathOf(components)
  {
    if n > 0 {
      FrontIsPrefix(components[1..], n - 1);
      assert components[..n][1..] == components[1..][..n - 1];
    }
  }

  /** What normalising takes from such a prefix is whitespace and slashes off its front. */
  lemma SpacedNormalForm(a: string)
    requires IsPath(a) && SpaceLed(a)
    ensures var n := |a| - |Normalise(a)|;
      && 0 < n <= |a| && Normalise(a) == a[n..]
      && forall i :: 0 <= i < n ==> IsSpace(a[i]) || IsSlash(a[i])
  {
    var m := StripSpaced(a);
    var k := CloseSlashed(a[m..]);
    hide Strip, Close, IsSpace;
    assert a[m..][k..] == a[m + k..];
    assert forall i :: m <= i < m + k ==> a[m..][i - m] == a[i];
  }

  lemma StripSpaced(a: string) returns (m: nat)
    requires EndsWith(a, '/') && SpaceLed(a)
    ensures 0 < m < |a| && Strip(a) == a[m..] && forall i :: 0 <= i < m ==> IsSpace(a[i])
  {
    var left := TrimLeft(a, IsSpace);
    TrimLeftIsSuffix(a, IsSpace);
    m := |a| - |left|;
    TrimLeftIsSuffix(a[1..], IsSpace);
    TrimLeftLeaves(a, IsSpace);
    TrimLeftKeepsEnd(a, IsSpace);
    TrimLeftTakes(a, IsSpace);
    TrimRightFixed(left, IsSpace);
  }

  lemma TrimRightFixed(s: string, drop: char -> bool)
    requires s != "" && !drop(s[|s| - 1])
    ensures TrimRight(s, drop) == s
  {
  }

  lemma CloseSlashed(s: string) returns (k: nat)
    requires EndsWith(s, '/')
    ensures k <= |s| && Close(s) == s[k..] && forall i :: 0 <= i < k ==> IsSlash(s[i])
  {
    TrimLeftIsSuffix(s, IsSlash);
    k := |s| - |TrimLeft(s, IsSlash)|;
    TrimLeftKeepsEnd(s, IsSlash);
    TrimLeftTakes(s, IsSlash);
  }

  /** A string that starts with whitespace loses more to stripping than one slash adds. */
  lemma StripShortens(a: string)
    requires IsPath(a) && SpaceLed(a)
    ensures Normalise(a) != a
  {
    SpacedNormalForm(a);
  }

  /**
   * An allowed prefix that whitespace leads: as it stands it cannot be registered, and it
   * can be browsed if and only if it only repeats the whitespace and slashes that
   * normalising takes off its front, so never if it has a name. With a slash in front it can.
   */
  lemma SpacedPrefixExactly(a: string)
    requires IsPath(a) && SpaceLed(a)
    ensures !MayRegister(a, [a]) && MayRegister("/" + a, [a]) && MayBrowse("/" + a, [a])
    ensures var n := |a| - |Normalise(a)|;
      && 0 < n <= |a|
      && (MayBrowse(a, [a]) <==> forall i :: n <= i < |a| ==> a[i] == a[i - n])
    ensures MayBrowse(a, [a]) ==> forall i :: 0 <= i < |a| ==> IsSpace(a[i]) || IsSlash(a[i])
  {
    SpacedNormalForm(a);
    SlashedIsFixed(a);
    hide Normalise, IsSpace;
    var allowed, p := [a], Normalise(a);
    var n := |a| - |p|;
    assert allowed[0] == a && |allowed| == 1;
    assert MayBrowse(a, allowed) <==> p <= a by {
      assert p <= a ==> p <= allowed[0];
    }
    assert p <= a <==> forall i :: n <= i < |a| ==> a[i] == a[i - n] by {
      if p <= a {
        forall i | n <= i < |a| ensures a[i] == a[i - n] {
          assert p[i - n] == a[i];
        }
      }
    }
    if MayBrowse(a, allowed) {
      RepeatsItsFront(a, n, |a|);
    }
  }

  lemma {:induction false} RepeatsItsFront(a: string, n: nat, k: nat)
    requires 0 < n <= |a| && k <= |a|
    requires forall i :: 0 <= i < n ==> IsSpace(a[i]) || IsSlash(a[i])
    requires forall i :: n <= i < |a| ==> a[i] == a[i - n]
    ensures forall i :: 0 <= i < k ==> IsSpace(a[i]) || IsSlash(a[i])
  {
    hide IsSpace;
    if k > 0 {
      RepeatsItsFront(a, n, k - 1);
      assert k - 1 >= n ==> a[k - 1] == a[k - 1 - n];
    }
  }

  lemma {:induction false} TrimLeftTakes(s: string, drop: char -> bool)
    ensures |TrimLeft(s, drop)| <= |s|
    ensures forall i :: 0 <= i < |s| - |TrimLeft(s, drop)| ==> drop(s[i])
  {
    if s != "" && drop(s[0]) {
      TrimLeftTakes(s[1..], drop);
      forall i | 0 < i < |s| - |TrimLeft(s, drop)| ensures drop(s[i]) {
        assert s[1..][i - 1] == s[i];
      }
    }
  }

  lemma {:induction false} TrimLeftLeaves(s: string, drop: char -> bool)
    requires s != "" && !drop(s[|s| - 1])
    ensures TrimLeft(s, drop) != ""
  {
    if drop(s[0]) {
      TrimLeftLeaves(s[1..], drop);
    }
  }

  lemma {:induction false} TrimLeftKeepsEnd(s: string, drop: char -> bool)
    ensures TrimLeft(s, drop) != "" ==>
      s != "" && TrimLeft(s, drop)[|TrimLeft(s, drop)| - 1] == s[|s| - 1]
  {
    if s != "" && drop(s[0]) {
      TrimLeftKeepsEnd(s[1..], drop);
    }
  }

  // --- the default policy --------------------------------------------------------------------------

  const USER_ID := "{user_id}"
  const LIBRARY := "library/"
  const ARCHIVE := "library-archive/"
  const PRIVATE := "-private/"
  const DEFAULT_POLICY := LIBRARY + "," + ARCHIVE + "," + USER_ID + PRIVATE

  /** A user id as the platform's own check of ids allows it, as far as it matters here. */
  predicate IsName(user: string) {
    user != "" && '/' !in user && !IsSpace(user[0])
  }

  lemma SplitOnce(a: string, b: string, c: char)
    requires c !in a
    ensures SplitOn(a + [c] + b, c) == [a] + SplitOn(b, c)
  {
    var s := a + [c] + b;
    assert s[|a|] == c && s[..|a|] == a && s[|a| + 1..] == b;
    assert forall k :: 0 <= k < |a| ==> s[k] == a[k];
    assert FirstIndex(s, c) == |a|;
  }

  lemma {:induction false} ReplaceNothing(s: string, user: string)
    requires '{' !in s
    ensures Replace(s, USER_ID, user) == s
  {
    if s != "" {
      assert USER_ID[0] == '{' && s[0] in s;
      ReplaceNothing(s[1..], user);
    }
  }

  lemma ReplaceUser(rest: string, user: string)
    requires '{' !in rest
    ensures Replace(USER_ID + rest, USER_ID, user) == user + rest
  {
    assert (USER_ID + rest)[|USER_ID|..] == rest;
    ReplaceNothing(rest, user);
  }

  lemma PlainPrefix(p: string)
    requires p != "" && EndsWith(p, '/') && p[0] != '/' && !IsSpace(p[0])
    ensures Strip(p) == p && Normalise(p) == p
  {
    TrimFixed(p, IsSpace);
    NormaliseFixed(p);
  }

  /** One part of a policy that is a normalised path and names no user. */
  predicate IsPart(p: string) {
    p != "" && EndsWith(p, '/') && p[0] != '/' && !IsSpace(p[0]) && ',' !in p && '{' !in p
  }

  lemma PartsOfThree(a: string, b: string, c: string)
    requires ',' !in a && ',' !in b && ',' !in c
    ensures SplitOn(a + "," + b + "," + c, ',') == [a, b, c]
  {
    assert a + "," + b + "," + c == a + [','] + (b + [','] + c);
    SplitOnce(a, b + [','] + c, ',');
    SplitOnce(b, c, ',');
  }

  lemma PrefixesOfThree(a: string, b: string, rest: string, user: string)
    requires IsPart(a) && IsPart(b) && EndsWith(rest, '/') && '{' !in rest && IsName(user)
    ensures Prefixes([a, b, USER_ID + rest], user) == [a, b, user + rest]
  {
    var c := USER_ID + rest;
    ReplaceNothing(a, user);
    ReplaceNothing(b, user);
    ReplaceUser(rest, user);
    PlainPrefix(a);
    PlainPrefix(b);
    PlainPrefix(c);
    PlainPrefix(user + rest);
    hide Strip, Normalise, Replace;
    assert [a, b, c][1..] == [b, c] && [b, c][1..] == [c] && [c][1..] == [];
    assert Prefixes([], user) == [];
    assert Prefixes([c], user) == [user + rest];
    assert Prefixes([b, c], user) == [b] + [user + rest];
  }

  lemma AllowedOfThree(a: string, b: string, rest: string, user: string)
    requires IsPart(a) && IsPart(b) && EndsWith(rest, '/') && '{' !in rest && ',' !in rest && IsName(user)
    ensures AllowedPrefixes(a + "," + b + "," + USER_ID + rest, user) == [a, b, user + rest]
  {
    var c, raw := USER_ID + rest, a + "," + b + "," + USER_ID + rest;
    assert raw == a + "," + b + "," + c;
    assert raw[0] == a[0] && raw[|raw| - 1] == rest[|rest| - 1] && |raw| > 1;
    PlainPrefix(raw);
    PartsOfThree(a, b, c);
    PrefixesOfThree(a, b, rest, user);
    hide Strip, Prefixes, SplitOn;
  }

  /** What the default policy gives a tenant: both libraries and one private prefix. */
  lemma DefaultAllowed(user: string)
    requires IsName(user)
    ensures AllowedPrefixes(DEFAULT_POLICY, user) == [LIBRARY, ARCHIVE, user + PRIVATE]
  {
    hide AllowedPrefixes;
    AllowedOfThree(LIBRARY, ARCHIVE, PRIVATE, user);
  }

  /** Two one-name prefixes that meet on a path are one. */
  lemma OneNameEach(a: string, b: string, p: string)
    requires '/' !in a && '/' !in b && a + "/" <= p
    ensures b + "/" <= p || p <= b + "/" ==> a == b
  {
    assert p[|a|] == '/' && p[..|a|] == a;
    if b + "/" <= p {
      assert p[|b|] == '/' && p[..|b|] == b;
    }
    if p <= b + "/" {
      assert (b + "/")[|a|] == '/' && (b + "/")[..|a|] == a;
    }
  }

  lemma PrivateNames(owner: string, other: string)
    requires owner != other
    ensures owner + "-private" != other + "-private"
    ensures owner + "-private" != "library" && owner + "-private" != "library-archive"
  {
    var a, b := owner + "-private", other + "-private";
    assert a[..|a| - 8] == owner && b[..|b| - 8] == other;
    assert a[|a| - 7] == 'p' && "library-archive"[|"library-archive"| - 7] == 'a';
    assert a[|a| - 1] == 'e' && "library"[|"library"| - 1] == 'y';
  }

  /** Under the default policy a private prefix is its owner's alone, to register and to browse. */
  lemma PrivateIsPrivate(owner: string, other: string, path: string)
    requires IsName(owner) && IsName(other) && owner != other
    requires owner + PRIVATE <= Normalise(path)
    ensures MayRegister(path, AllowedPrefixes(DEFAULT_POLICY, owner))
    ensures !MayRegister(path, AllowedPrefixes(DEFAULT_POLICY, other))
    ensures !MayBrowse(path, AllowedPrefixes(DEFAULT_POLICY, other))
  {
    DefaultAllowed(owner);
    DefaultAllowed(other);
    hide Normalise, AllowedPrefixes, MayBrowse;
    var p := Normalise(path);
    assert AllowedPrefixes(DEFAULT_POLICY, owner)[2] <= p;
    PrivateNames(owner, other);
    PrivateMeets(owner, "library", LIBRARY, p);
    PrivateMeets(owner, "library-archive", ARCHIVE, p);
    PrivateMeets(owner, other + "-private", other + PRIVATE, p);
    NothingNear(path, AllowedPrefixes(DEFAULT_POLICY, other));
  }

  lemma NothingNear(path: string, allowed: seq<string>)
    requires |allowed| == 3
    requires var p := Normalise(path);
      && !(allowed[0] <= p) && !(p <= allowed[0])
      && !(allowed[1] <= p) && !(p <= allowed[1])
      && !(allowed[2] <= p) && !(p <= allowed[2])
    ensures !MayRegister(path, allowed) && !MayBrowse(path, allowed)
  {
    hide Normalise;
  }

  lemma PrivateMeets(owner: string, name: string, prefix: string, p: string)
    requires '/' !in owner && '/' !in name && prefix == name + "/" && owner + PRIVATE <= p
    ensures prefix <= p || p <= prefix ==> owner + "-private" == name
  {
    assert owner + PRIVATE == owner + "-private" + "/";
    OneNameEach(owner + "-private", name, p);
  }
}
