// Which paths the watcher ignores, and which directories a recursive add registers.
module WatchTree {
  import opened Text

  /** The configured exclusions. glob(pattern, name) is filepath.Match, false for a bad pattern. */
  datatype Filter = Filter(
    logFilePath: string,
    databasePath: string,
    socketPath: string,
    ignorePatterns: seq<string>,
    glob: (string, string) -> bool)

  // filepath.Base.
  function StripSlashes(path: string): string {
    if path != "" && path[|path| - 1] == '/' then StripSlashes(path[..|path| - 1]) else path
  }

  function AfterSlash(path: string): string {
    if path == "" || path[|path| - 1] == '/' then ""
    else AfterSlash(path[..|path| - 1]) + [path[|path| - 1]]
  }

  function Base(path: string): string {
    if path == "" then "."
    else
      var stripped := StripSlashes(path);
      if stripped == "" then "/" else AfterSlash(stripped)
  }

  const SUFFIXES: seq<string> := [".swp", ".tmp", "~", ".DS_Store"]

  predicate EndsWith(s: string, suffix: string) {
    |s| >= |suffix| && s[|s| - |suffix|..] == suffix
  }

  ghost predicate Ignored(f: Filter, path: string) {
    var base := Base(path);
    || base == "." || base == ".."
    || (path != "" && path in [f.logFilePath, f.databasePath, f.socketPath])
    || (exists pat | pat in f.ignorePatterns :: f.glob(pat, base))
    || (exists suffix | suffix in SUFFIXES :: EndsWith(base, suffix))
  }

  /** shouldIgnore. */
  method ShouldIgnore(f: Filter, path: string) returns (ignored: bool)
    ensures ignored == Ignored(f, path)
  {
    var base := Base(path);
    if base == "." || base == ".." {
      return true;
    }
    if f.logFilePath != "" && path == f.logFilePath {
      return true;
    }
    if f.databasePath != "" && path == f.databasePath {
      return true;
    }
    if f.socketPath != "" && path == f.socketPath {
      return true;
    }
    for i := 0 to |f.ignorePatterns|
      invariant forall j | 0 <= j < i :: !f.glob(f.ignorePatterns[j], base)
    {
      if f.glob(f.ignorePatterns[i], base) {
        return true;
      }
    }
    for i := 0 to |SUFFIXES|
      invariant forall j | 0 <= j < i :: !EndsWith(base, SUFFIXES[j])
    {
      if EndsWith(base, SUFFIXES[i]) {
        return true;
      }
    }
    return false;
  }

  // ---- Base names ----

  /** The base name of a path in front of any slashes after it. */
  ghost predicate BaseIn(path: string, dir: string, base: string, slashes: string) {
    && path == dir + base + slashes
    && base != "" && '/' !in base
    && (dir == "" || dir[|dir| - 1] == '/')
    && forall c | c in slashes :: c == '/'
  }

  /** A path has at most one base name, and Base finds it. */
  lemma BaseExact(path: string, dir: string, base: string, slashes: string)
    requires BaseIn(path, dir, base, slashes)
    ensures Base(path) == base
  {
    assert dir + base + slashes == (dir + base) + slashes;
    StripExact(dir + base, slashes);
    AfterExact(dir, base);
  }

  lemma {:induction false} StripExact(s: string, slashes: string)
    requires s != "" && s[|s| - 1] != '/' && forall c | c in slashes :: c == '/'
    ensures StripSlashes(s + slashes) == s
  {
    if slashes == "" {
      assert s + slashes == s;
    } else {
      var n := |slashes| - 1;
      assert forall c | c in slashes[..n] :: c in slashes;
      assert slashes[n] in slashes && (s + slashes)[..|s| + n] == s + slashes[..n];
      StripExact(s, slashes[..n]);
    }
  }

  lemma {:induction false} AfterExact(dir: string, base: string)
    requires '/' !in base && (dir == "" || dir[|dir| - 1] == '/')
    ensures AfterSlash(dir + base) == base
  {
    if base == "" {
      assert dir + base == dir;
    } else {
      var n := |base| - 1;
      assert (dir + base)[..|dir| + n] == dir + base[..n] && base[n] in base;
      AfterExact(dir, base[..n]);
      assert base == base[..n] + [base[n]];
    }
  }

  /** Only paths of slashes have none: then Base is "." for the empty path and "/" for others. */
  lemma {:induction false} BaseOfSlashes(path: string)
    requires forall c | c in path :: c == '/'
    ensures StripSlashes(path) == "" && Base(path) == if path == "" then "." else "/"
  {
    if path == "" {
    } else {
      var n := |path| - 1;
      assert path[n] in path && forall c | c in path[..n] :: c in path;
      BaseOfSlashes(path[..n]);
    }
  }

  /** What is ignored, for a path with the base name base: the names "." and "..", the three files of
      the application, names that match a pattern, and names that end like temporary files. */
  lemma IgnoredExact(f: Filter, path: string, dir: string, base: string, slashes: string)
    requires BaseIn(path, dir, base, slashes)
    ensures Ignored(f, path) <==>
            || base == "." || base == ".."
            || path == f.logFilePath || path == f.databasePath || path == f.socketPath
            || (exists pat | pat in f.ignorePatterns :: f.glob(pat, base))
            || EndsWith(base, ".swp") || EndsWith(base, ".tmp") || EndsWith(base, "~") || EndsWith(base, ".DS_Store")
  {
    BaseExact(path, dir, base, slashes);
    assert path != "";
    assert SUFFIXES[0] == ".swp" && SUFFIXES[1] == ".tmp" && SUFFIXES[2] == "~" && SUFFIXES[3] == ".DS_Store";
  }

  // ---- Directory trees ----

  /** A directory may fail to list (readable is false). */
  datatype Node = File(name: string) | Dir(name: string, readable: bool, children: seq<Node>)

  function ChildPath(path: string, name: string): string {
    if EndsWith(path, "/") then path + name else path + "/" + name
  }

  // A place in a tree: the child indices from the root down.
  type Route = seq<nat>

  predicate IsRoute(node: Node, route: Route)
    decreases |route|
  {
    route == [] || (node.Dir? && route[0] < |node.children| && IsRoute(node.children[route[0]], route[1..]))
  }

  function NodeAt(node: Node, route: Route): Node
    requires IsRoute(node, route)
    decreases |route|
  {
    if route == [] then node else NodeAt(node.children[route[0]], route[1..])
  }

  function PathAt(path: string, node: Node, route: Route): string
    requires IsRoute(node, route)
    decreases |route|
  {
    if route == [] then path
    else
      var child := node.children[route[0]];
      PathAt(ChildPath(path, child.name), child, route[1..])
  }

  // The names from the root, which has none here, down to the place.
  function Names(node: Node, route: Route): seq<string>
    requires IsRoute(node, route)
    decreases |route|
  {
    if route == [] then []
    else
      var child := node.children[route[0]];
      [child.name] + Names(child, route[1..])
  }

  // Each name after a slash.
  function Below(names: seq<string>): string {
    if names == [] then "" else "/" + names[0] + Below(names[1..])
  }

  lemma EndsInSlash(s: string)
    ensures EndsWith(s, "/") <==> s != "" && s[|s| - 1] == '/'
  {
    if s != "" {
      assert s[|s| - 1..] == [s[|s| - 1]];
    }
  }

  // A name at the end of a path leaves no slash there.
  lemma NoSlashAtEnd(path: string, name: string)
    requires name != "" && '/' !in name
    ensures !EndsWith(path + name, "/")
  {
    var s := path + name;
    assert s[|s| - 1] == name[|name| - 1] && name[|name| - 1] in name;
    EndsInSlash(s);
  }

  lemma BelowCons(path: string, name: string, names: seq<string>)
    ensures path + "/" + name + Below(names) == path + Below([name] + names)
  {
    assert ([name] + names)[1..] == names;
  }

  lemma {:induction false} PathBelow(path: string, node: Node, route: Route)
    requires IsRoute(node, route) && !EndsWith(path, "/")
    requires forall n | n in Names(node, route) :: n != "" && '/' !in n
    ensures PathAt(path, node, route) == path + Below(Names(node, route))
    decreases |route|
  {
    if route == [] {
    } else {
      var child := node.children[route[0]];
      var rest := Names(child, route[1..]);
      assert Names(node, route) == [child.name] + rest;
      assert child.name in [child.name] + rest && forall n | n in rest :: n in [child.name] + rest;
      NoSlashAtEnd(path + "/", child.name);
      PathBelow(path + "/" + child.name, child, route[1..]);
      BelowCons(path, child.name, rest);
    }
  }

  lemma {:induction false} JoinBelow(path: string, names: seq<string>)
    ensures Join([path] + names, "/") == path + Below(names)
    decreases |names|
  {
    JoinCons(path, names, "/");
    if names == [] {
    } else {
      assert names == [names[0]] + names[1..];
      JoinBelow(names[0], names[1..]);
      BelowCons(path, names[0], names[1..]);
    }
  }

  /** The path of a place is the walk root and the names down to it, with slashes between them; a walk
      root that ends in a slash, such as "/", takes no second one. */
  lemma PathExact(path: string, node: Node, route: Route)
    requires IsRoute(node, route)
    requires forall n | n in Names(node, route) :: n != "" && '/' !in n
    ensures PathAt(path, node, route) ==
            if route != [] && path != "" && path[|path| - 1] == '/' then path + Join(Names(node, route), "/")
            else Join([path] + Names(node, route), "/")
  {
    JoinBelow(path, Names(node, route));
    if path != "" && path[|path| - 1] == '/' {
      EndsInSlash(path);
      if route != [] {
        BelowSlash(path, node, route);
      }
    } else {
      EndsInSlash(path);
      PathBelow(path, node, route);
    }
  }

  lemma BelowSlash(path: string, node: Node, route: Route)
    requires IsRoute(node, route) && route != [] && EndsWith(path, "/")
    requires forall n | n in Names(node, route) :: n != "" && '/' !in n
    ensures PathAt(path, node, route) == path + Join(Names(node, route), "/")
  {
    var child := node.children[route[0]];
    var rest := Names(child, route[1..]);
    var names := [child.name] + rest;
    assert Names(node, route) == names;
    assert child.name in names && forall n | n in rest :: n in names;
    NoSlashAtEnd(path, child.name);
    PathBelow(path + child.name, child, route[1..]);
    JoinBelow(child.name, rest);
    Assoc(path, child.name, Below(rest));
  }

  lemma RoutePrefix(node: Node, route: Route, k: nat)
    requires IsRoute(node, route) && k <= |route|
    ensures IsRoute(node, route[..k])
    decreases |route|
  {
    if k == 0 {
    } else {
      RoutePrefix(node.children[route[0]], route[1..], k - 1);
      assert route[..k][1..] == route[1..][..k - 1];
    }
  }

  /** No path from the walk root down to the place, both included, is ignored. */
  ghost predicate Open(f: Filter, path: string, node: Node, route: Route)
    requires IsRoute(node, route)
  {
    forall k | 0 <= k <= |route| :: RoutePrefix(node, route, k); !Ignored(f, PathAt(path, node, route[..k]))
  }

  datatype Visit = Visit(path: string, readable: bool)

  ghost predicate VisitsAt(f: Filter, path: string, node: Node, v: Visit, route: Route) {
    && IsRoute(node, route)
    && Open(f, path, node, route)
    && PathAt(path, node, route) == v.path
    && NodeAt(node, route).Dir?
    && NodeAt(node, route).readable == v.readable
  }

  /** The directories a walk reaches, in recursive form. */
  ghost function Visits(f: Filter, path: string, node: Node): set<Visit>
    decreases node, |if node.Dir? then node.children else []| + 1
  {
    if Ignored(f, path) || node.File? then {}
    else {Visit(path, node.readable)} + VisitsFrom(f, path, node, 0)
  }

  ghost function VisitsFrom(f: Filter, path: string, node: Node, k: nat): set<Visit>
    requires node.Dir? && k <= |node.children|
    decreases node, |node.children| - k
  {
    if k == |node.children| then {} else ChildVisits(f, path, node, k) + VisitsFrom(f, path, node, k + 1)
  }

  ghost function ChildVisits(f: Filter, path: string, node: Node, i: nat): set<Visit>
    requires node.Dir? && i < |node.children|
    decreases node, 0
  {
    Visits(f, ChildPath(path, node.children[i].name), node.children[i])
  }

  lemma {:induction false} ChildOfVisit(f: Filter, path: string, node: Node, k: nat, v: Visit) returns (i: nat)
    requires node.Dir? && k <= |node.children| && v in VisitsFrom(f, path, node, k)
    ensures i < |node.children| && v in ChildVisits(f, path, node, i)
    decreases |node.children| - k
  {
    if v in ChildVisits(f, path, node, k) {
      i := k;
    } else {
      i := ChildOfVisit(f, path, node, k + 1, v);
    }
  }

  lemma {:induction false} VisitOfChild(f: Filter, path: string, node: Node, k: nat, v: Visit, i: nat)
    requires node.Dir? && k <= i < |node.children|
    requires v in ChildVisits(f, path, node, i)
    ensures v in VisitsFrom(f, path, node, k)
    decreases |node.children| - k
  {
    if k < i {
      VisitOfChild(f, path, node, k + 1, v, i);
    }
  }

  lemma OpenStep(f: Filter, path: string, node: Node, route: Route)
    requires route != [] && IsRoute(node, route)
    ensures var child := node.children[route[0]];
            Open(f, path, node, route) <==>
            !Ignored(f, path) && Open(f, ChildPath(path, child.name), child, route[1..])
  {
    var child := node.children[route[0]];
    var childPath := ChildPath(path, child.name);
    forall k | 1 <= k <= |route|
      ensures IsRoute(node, route[..k]) && IsRoute(child, route[1..][..k - 1])
      ensures PathAt(path, node, route[..k]) == PathAt(childPath, child, route[1..][..k - 1])
    {
      RoutePrefix(node, route, k);
      assert route[..k][1..] == route[1..][..k - 1];
    }
    assert route[..0] == [];
    if Open(f, path, node, route) {
      assert !Ignored(f, PathAt(path, node, route[..0]));
      forall k | 0 <= k <= |route[1..]|
        ensures IsRoute(child, route[1..][..k]) && !Ignored(f, PathAt(childPath, child, route[1..][..k]))
      {
        RoutePrefix(node, route, k + 1);
        assert !Ignored(f, PathAt(path, node, route[..k + 1]));
      }
    }
    if !Ignored(f, path) && Open(f, childPath, child, route[1..]) {
      forall k | 0 <= k <= |route| ensures IsRoute(node, route[..k]) && !Ignored(f, PathAt(path, node, route[..k])) {
        if k > 0 {
          assert !Ignored(f, PathAt(childPath, child, route[1..][..k - 1]));
        }
      }
    }
  }

  /** The walk reaches exactly the directories with no ignored path above or at them. */
  lemma {:induction false} VisitsExact(f: Filter, path: string, node: Node, v: Visit)
    ensures v in Visits(f, path, node) <==> exists route :: VisitsAt(f, path, node, v, route)
    decreases node
  {
    if v in Visits(f, path, node) {
      var route := RouteOfVisit(f, path, node, v);
    }
    forall route | VisitsAt(f, path, node, v, route) ensures v in Visits(f, path, node) {
      VisitOfRoute(f, path, node, v, route);
    }
  }

  lemma {:induction false} RouteOfVisit(f: Filter, path: string, node: Node, v: Visit) returns (route: Route)
    requires v in Visits(f, path, node)
    ensures VisitsAt(f, path, node, v, route)
    decreases node
  {
    if v == Visit(path, node.readable) {
      route := [];
    } else {
      var i := ChildOfVisit(f, path, node, 0, v);
      var rest := RouteOfVisit(f, ChildPath(path, node.children[i].name), node.children[i], v);
      route := [i] + rest;
      VisitFromChild(f, path, node, v, i, rest);
    }
  }

  lemma VisitFromChild(f: Filter, path: string, node: Node, v: Visit, i: nat, rest: Route)
    requires !Ignored(f, path) && node.Dir? && i < |node.children|
    requires VisitsAt(f, ChildPath(path, node.children[i].name), node.children[i], v, rest)
    ensures VisitsAt(f, path, node, v, [i] + rest)
  {
    var route: Route := [i] + rest;
    assert route[0] == i && route[1..] == rest;
    OpenStep(f, path, node, route);
  }

  lemma {:induction false} VisitOfRoute(f: Filter, path: string, node: Node, v: Visit, route: Route)
    requires VisitsAt(f, path, node, v, route)
    ensures v in Visits(f, path, node)
    decreases |route|
  {
    if route == [] {
      assert !Ignored(f, PathAt(path, node, route[..0]));
    } else {
      OpenStep(f, path, node, route);
      var child := node.children[route[0]];
      VisitOfRoute(f, ChildPath(path, child.name), child, v, route[1..]);
      VisitOfChild(f, path, node, 0, v, route[0]);
    }
  }

  /** Every directory the walk reaches is the walk root or below it. */
  lemma {:induction false} VisitsBelow(f: Filter, path: string, node: Node, v: Visit)
    requires v in Visits(f, path, node)
    ensures path <= v.path
    decreases node
  {
    if v == Visit(path, node.readable) {
    } else {
      var i := ChildOfVisit(f, path, node, 0, v);
      VisitsBelow(f, ChildPath(path, node.children[i].name), node.children[i], v);
    }
  }
}
