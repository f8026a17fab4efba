/** Splitting a path, and finding the entry it names. */
module Paths {
  import opened Bytes
  import opened States
  import opened Entries
  import opened Layouts
  import opened Trees

  const SLASH: byte := 47

  type Path = seq<byte>

  // ---- Splitting ----

  /** One past the last slash; 0 when there is none. */
  function NameStart(path: Path): (n: nat)
    ensures n <= |path|
    ensures n > 0 ==> path[n - 1] == SLASH
    ensures SLASH !in path[n..]
    ensures SLASH in path ==> n > 0
  {
    if path == [] then 0
    else if path[|path| - 1] == SLASH then |path|
    else
      var n := NameStart(path[..|path| - 1]);
      assert path[n..] == path[..|path| - 1][n..] + [path[|path| - 1]];
      n
  }

  /** The scan from the end that get_parent_path and get_target_name share. The code would
      read before the string if it held no slash. */
  method ScanName(path: Path) returns (start: nat)
    requires SLASH in path
    ensures start == NameStart(path)
  {
    start := |path|;
    assert path[..start] == path;
    while path[start - 1] != SLASH
      invariant 0 < start <= |path| && NameStart(path[..start]) == NameStart(path)
      invariant SLASH in path[..start]
      decreases start
    {
      assert path[..start][..start - 1] == path[..start - 1];
      start := start - 1;
    }
  }

  /** get_parent_path: the path up to, not including, its last slash. */
  function ParentPath(path: Path): Path
    requires SLASH in path
  {
    path[..NameStart(path) - 1]
  }

  /** get_target_name: what follows the last slash. */
  function TargetOf(path: Path): Name
    requires SLASH in path
  {
    path[NameStart(path)..]
  }

  method GetParentPath(path: Path) returns (parent: Path)
    requires SLASH in path
    ensures parent == ParentPath(path)
    ensures exists target :: SLASH !in target && path == parent + [SLASH] + target
  {
    var n := ScanName(path);
    parent := path[..n - 1];
    SplitRebuilds(path);
    assert path == parent + [SLASH] + TargetOf(path);
  }

  method GetTargetName(path: Path) returns (target: Name)
    requires SLASH in path
    ensures target == TargetOf(path)
    ensures SLASH !in target && exists parent :: path == parent + [SLASH] + target
  {
    var n := ScanName(path);
    target := path[n..];
    SplitRebuilds(path);
    assert path == ParentPath(path) + [SLASH] + target;
  }

  /** Parent, slash and target rebuild the path, and this determines them. */
  lemma SplitRebuilds(path: Path)
    requires SLASH in path
    ensures path == ParentPath(path) + [SLASH] + TargetOf(path)
    ensures SLASH !in TargetOf(path)
  {
    var n := NameStart(path);
    assert path == path[..n - 1] + [path[n - 1]] + path[n..];
  }

  lemma SplitIsUnique(path: Path, parent: Path, target: Name)
    requires path == parent + [SLASH] + target && SLASH !in target
    ensures SLASH in path && ParentPath(path) == parent && TargetOf(path) == target
  {
    assert path[|parent|] == SLASH;
    var n := NameStart(path);
    assert forall i :: |parent| < i < |path| ==> path[i] == target[i - |parent| - 1];
    assert forall i :: n <= i < |path| ==> path[i] == path[n..][i - n];
  }

  // ---- Tokens ----

  /** The position of the first slash, or the length. */
  function FirstSlash(s: Path): (n: nat)
    ensures n <= |s| && SLASH !in s[..n] && (n < |s| ==> s[n] == SLASH)
  {
    if s == [] || s[0] == SLASH then 0
    else
      var n := FirstSlash(s[1..]) + 1;
      assert s[..n] == [s[0]] + s[1..][..n - 1];
      n
  }

  /** The tokens that repeated strsep calls return. */
  function Tokens(s: Path): (ts: seq<Name>)
    ensures ts != []
  {
    var n := FirstSlash(s);
    if n == |s| then [s] else [s[..n]] + Tokens(s[n + 1..])
  }

  /** strsep(&remainder, "/"): the token and the new remainder. */
  function Strsep(remainder: Option<Path>): (Option<Name>, Option<Path>) {
    match remainder
    case None => (None, None)
    case Some(s) =>
      var n := FirstSlash(s);
      (Some(s[..n]), if n == |s| then None else Some(s[n + 1..]))
  }

  /** The tokens still to come. */
  function Remaining(remainder: Option<Path>): seq<Name> {
    if remainder.None? then [] else Tokens(remainder.value)
  }

  lemma StrsepYieldsTokens(remainder: Option<Path>)
    ensures var (tok, rest) := Strsep(remainder);
      && (tok.None? <==> Remaining(remainder) == [])
      && (tok.Some? ==> Remaining(remainder) == [tok.value] + Remaining(rest))
  {
    if remainder.Some? {
      var s := remainder.value;
      assert s[..|s|] == s;
    }
  }

  /** The tokens of a path are those of its parent, then its target. */
  lemma {:induction false} TokensOfPath(parent: Path, target: Name)
    requires SLASH !in target
    ensures Tokens(parent + [SLASH] + target) == Tokens(parent) + [target]
    decreases |parent|
  {
    var path := parent + [SLASH] + target;
    var n := FirstSlash(parent);
    FirstSlashOf(path, n);
    if n == |parent| {
      assert path[..n] == parent && path[n + 1..] == target;
      FirstSlashNone(target);
    } else {
      var rest := parent[n + 1..];
      assert path[..n] == parent[..n];
      assert path[n + 1..] == rest + [SLASH] + target;
      TokensOfPath(rest, target);
      TokensFrom(path, n, parent[..n], rest + [SLASH] + target);
      TokensFrom(parent, n, parent[..n], rest);
    }
  }

  lemma TokensFrom(s: Path, n: nat, first: Name, rest: Path)
    requires FirstSlash(s) == n < |s| && first == s[..n] && rest == s[n + 1..]
    ensures Tokens(s) == [first] + Tokens(rest)
  {
  }

  lemma FirstSlashOf(s: Path, n: nat)
    requires n < |s| && s[n] == SLASH && SLASH !in s[..n]
    ensures FirstSlash(s) == n
  {
    var m := FirstSlash(s);
    assert forall i :: 0 <= i < n ==> s[i] == s[..n][i];
    assert forall i :: 0 <= i < m ==> s[i] == s[..m][i];
  }

  lemma FirstSlashNone(s: Path)
    requires SLASH !in s
    ensures FirstSlash(s) == |s|
  {
  }

  /** The names a path goes through. */
  function Components(path: Path): seq<Name> {
    Tokens(path)[1..]
  }

  /** strcmp(path, "/") > 0. */
  predicate AfterSlash(path: Path) {
    path != [] && (path[0] > SLASH || (path[0] == SLASH && |path| > 1))
  }

  /** A path as the kernel passes it down: absolute, and every component not empty. */
  ghost predicate NormalPath(path: Path) {
    && path != [] && path[0] == SLASH && NoNul(path)
    && forall i :: 0 <= i < |Components(path)| ==> Components(path)[i] != []
  }

  lemma LoneSlash()
    ensures |Components([SLASH])| == 1 && Components([SLASH])[0] == []
  {
    assert [SLASH][1..] == [];
    assert Tokens([SLASH]) == [[SLASH][..0]] + Tokens([]);
  }

  /** The parent of a normal path is empty or normal, and its components are those of the
      path but the last. */
  lemma ParentIsNormal(path: Path)
    requires NormalPath(path)
    ensures SLASH in path && Components(path) != []
    ensures var parent := ParentPath(path);
      && Components(path) == Components(parent) + [TargetOf(path)]
      && (parent == [] || (NormalPath(parent) && AfterSlash(parent)))
      && (parent == [] ==> Components(parent) == [])
      && TargetOf(path) != [] && NoNul(TargetOf(path))
  {
    assert path[0] in path;
    SplitRebuilds(path);
    var parent := ParentPath(path);
    TokensOfPath(parent, TargetOf(path));
    assert Components(path) == Components(parent) + [TargetOf(path)];
    assert Components(path)[|Components(path)| - 1] == TargetOf(path);
    if parent != [] {
      assert parent[0] == path[0];
      forall i | 0 <= i < |Components(parent)|
        ensures Components(parent)[i] != []
      {
        assert Components(parent)[i] == Components(path)[i];
      }
      LoneSlash();
      assert |parent| == 1 ==> parent == [SLASH];
      assert forall i :: 0 <= i < |parent| ==> parent[i] == path[i];
    }
  }

  /** "/a/b/c" for the names a, b and c. */
  function Joined(names: seq<Name>): Path {
    if names == [] then [] else Joined(names[..|names| - 1]) + [47] + names[|names| - 1]
  }

  lemma {:induction false} TokensOfJoined(names: seq<Name>)
    requires forall i :: 0 <= i < |names| ==> 47 !in names[i]
    ensures Tokens(Joined(names)) == [[]] + names
    decreases |names|
  {
    if names != [] {
      var n := |names| - 1;
      var init, last := names[..n], names[n];
      TokensOfJoined(init);
      TokensOfPath(Joined(init), last);
      assert Joined(names) == Joined(init) + [SLASH] + last;
      assert names == init + [last];
    }
  }

  lemma {:induction false} JoinedHasNoNul(names: seq<Name>)
    requires forall i :: 0 <= i < |names| ==> NoNul(names[i])
    ensures NoNul(Joined(names)) && (names != [] ==> Joined(names) != [] && Joined(names)[0] == 47)
    decreases |names|
  {
    if names != [] {
      JoinedHasNoNul(names[..|names| - 1]);
    }
  }

  /** Names joined by slashes are a normal path, which is taken apart into these names again. */
  lemma JoinedIsNormal(names: seq<Name>)
    requires names != [] && forall i :: 0 <= i < |names| ==> names[i] != [] && 47 !in names[i] && NoNul(names[i])
    ensures var path, n := Joined(names), |names| - 1;
      && NormalPath(path) && SLASH in path && Components(path) == names
      && ParentPath(path) == Joined(names[..n]) && TargetOf(path) == names[n]
  {
    var n := |names| - 1;
    TokensOfJoined(names);
    JoinedHasNoNul(names);
    SplitIsUnique(Joined(names), Joined(names[..n]), names[n]);
  }

  // ---- Resolution ----

  /** Following names from directory `d`; None when one is missing or not a directory. */
  ghost function WalkDirs(s: State, L: Layout, d: nat, names: seq<Name>): Option<nat>
    decreases |names|
  {
    if d !in L.nodes then None
    else if names == [] then Some(d)
    else
      match Lookup(DirOf(s, L, d), names[0])
      case None => None
      case Some(e) => if e.kind != KIND_DIR then None else WalkDirs(s, L, e.first, names[1..])
  }

  /** What a list of names leads to: every one but the last a directory. */
  ghost function Resolve(s: State, L: Layout, d: nat, names: seq<Name>): Option<Entry>
    requires names != []
    decreases |names|
  {
    if d !in L.nodes then None
    else
      match Lookup(DirOf(s, L, d), names[0])
      case None => None
      case Some(e) =>
        if |names| == 1 then Some(e)
        else if e.kind != KIND_DIR then None
        else Resolve(s, L, e.first, names[1..])
  }

  /** find_dir_entry_by_path, as the code does it: walk the parent, then look up the target. */
  ghost function FindPath(g: Geometry, s: State, L: Layout, path: Path): Option<Entry>
    requires SLASH in path
  {
    if !AfterSlash(path) then None
    else
      match WalkDirs(s, L, g.Root(), Components(ParentPath(path)))
      case None => None
      case Some(d) => if d in L.nodes then Lookup(DirOf(s, L, d), TargetOf(path)) else None
  }

  lemma {:induction false} WalkThenLookup(s: State, L: Layout, d: nat, names: seq<Name>, target: Name)
    ensures Resolve(s, L, d, names + [target])
         == match WalkDirs(s, L, d, names)
            case None => None
            case Some(x) => if x in L.nodes then Lookup(DirOf(s, L, x), target) else None
    decreases |names|
  {
    var all := names + [target];
    if names == [] {
      assert all == [target];
    } else if d in L.nodes {
      assert all[0] == names[0] && all[1..] == names[1..] + [target];
      var found := Lookup(DirOf(s, L, d), names[0]);
      if found.Some? && found.value.kind == KIND_DIR {
        WalkThenLookup(s, L, found.value.first, names[1..], target);
      }
    }
  }

  /** The strsep loop is component-by-component lookup from the root. */
  lemma FindIsResolve(g: Geometry, s: State, L: Layout, path: Path)
    requires NormalPath(path)
    ensures SLASH in path && Components(path) != []
    ensures FindPath(g, s, L, path) == Resolve(s, L, g.Root(), Components(path))
  {
    ParentIsNormal(path);
    WalkThenLookup(s, L, g.Root(), Components(ParentPath(path)), TargetOf(path));
  }

  /** Name `i` is what stops the walk: the names before it lead to a directory in which it is
      missing, or in which it is no directory although more names follow. */
  ghost predicate StopsAt(s: State, L: Layout, d: nat, names: seq<Name>, i: nat)
    requires i < |names|
  {
    match WalkDirs(s, L, d, names[..i])
    case None => false
    case Some(x) =>
      && x in L.nodes
      && match Lookup(DirOf(s, L, x), names[i])
         case None => true
         case Some(e) => i + 1 < |names| && e.kind != KIND_DIR
  }

  /** From a directory that is closed under subdirectories, resolution fails exactly when
      some name stops it. */
  ghost predicate SubdirsKnown(s: State, L: Layout) {
    forall d, name :: d in L.nodes && L.nodes[d].isDir && name != [] ==>
      match Lookup(DirOf(s, L, d), name)
      case None => true
      case Some(e) => e.kind == KIND_DIR ==> e.first in L.nodes && L.nodes[e.first].isDir
  }

  lemma {:induction false} ResolveFailsExactly(s: State, L: Layout, d: nat, names: seq<Name>)
    requires SubdirsKnown(s, L) && d in L.nodes && L.nodes[d].isDir && names != []
    requires forall i :: 0 <= i < |names| ==> names[i] != []
    ensures Resolve(s, L, d, names).None? <==> exists i :: 0 <= i < |names| && StopsAt(s, L, d, names, i)
    decreases |names|
  {
    var found := Lookup(DirOf(s, L, d), names[0]);
    assert names[..0] == [];
    assert StopsAt(s, L, d, names, 0) <==> found.None? || (1 < |names| && found.value.kind != KIND_DIR);
    if found.Some? && found.value.kind == KIND_DIR && 1 < |names| {
      var x := found.value.first;
      ResolveFailsExactly(s, L, x, names[1..]);
      forall i | 0 < i < |names|
        ensures StopsAt(s, L, d, names, i) <==> StopsAt(s, L, x, names[1..], i - 1)
      {
        assert names[..i][0] == names[0] && names[..i][1..] == names[1..][..i - 1];
      }
      if Resolve(s, L, d, names).None? {
        var i :| 0 <= i < |names[1..]| && StopsAt(s, L, x, names[1..], i);
        assert StopsAt(s, L, d, names, i + 1);
      }
    } else if found.Some? {
      forall i | 0 < i < |names|
        ensures !StopsAt(s, L, d, names, i)
      {
        assert names[..i][0] == names[0];
      }
    }
  }
}
