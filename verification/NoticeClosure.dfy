/** The production dependency closure of a lock file: nearest-ancestor resolution and a worklist. */
module NoticeClosure {
  import opened Vocabulary

  const MARKER: string := "/node_modules/"
  const ROOT_PREFIX: string := "node_modules/"

  /** A dependency table that is missing, or not a table. */
  datatype Names = NoNames | Malformed | Names(names: seq<string>)

  /** `version` is None when it is not a non-empty string. */
  datatype Package = NotAnEntry | Package(dev: bool, version: Option<string>, dependencies: Names, optional: Names)

  type Packages = map<string, Package>

  // ----- nearest-ancestor resolution -----

  predicate MarkerAt(path: string, i: int) {
    0 <= i && i + |MARKER| <= |path| && path[i..i + |MARKER|] == MARKER
  }

  function MarkerBelow(path: string, end: nat): (at: Option<nat>)
    ensures at.Some? ==> at.value < end && MarkerAt(path, at.value) && forall i :: at.value < i < end ==> !MarkerAt(path, i)
    ensures at.None? ==> forall i :: i < end ==> !MarkerAt(path, i)
  {
    if end == 0 then None else if MarkerAt(path, end - 1) then Some(end - 1) else MarkerBelow(path, end - 1)
  }

  /** Where the last marker is, if anywhere. */
  method LastMarker(path: string) returns (at: Option<nat>)
    ensures at == MarkerBelow(path, |path|)
  {
    var i := |path|;
    while i > 0
      invariant 0 <= i <= |path| && MarkerBelow(path, |path|) == MarkerBelow(path, i)
    {
      i := i - 1;
      if MarkerAt(path, i) { return Some(i); }
    }
    at := None;
  }

  function Candidate(base: string, name: string): string {
    if base == "" then ROOT_PREFIX + name else base + MARKER + name
  }

  /** The directory itself, then each enclosing package directory, then the root. */
  function Ancestors(base: string): (bases: seq<string>)
    ensures bases != []
    decreases |base|
  {
    var marker := MarkerBelow(base, |base|);
    if marker.Some? then [base] + Ancestors(base[..marker.value])
    else if base == "" then [""] else [base, ""]
  }

  /** The first ancestor that has the package. */
  function FirstFound(packages: Packages, bases: seq<string>, name: string): Option<string> {
    if bases == [] then None
    else if Candidate(bases[0], name) in packages then Some(Candidate(bases[0], name))
    else FirstFound(packages, bases[1..], name)
  }

  function Resolution(packages: Packages, from: string, name: string): (path: Option<string>)
    ensures path.Some? ==> path.value in packages
  {
    FoundIsThere(packages, Ancestors(from), name);
    FirstFound(packages, Ancestors(from), name)
  }

  lemma {:induction false} FoundIsThere(packages: Packages, bases: seq<string>, name: string)
    ensures FirstFound(packages, bases, name).Some? ==> FirstFound(packages, bases, name).value in packages
  {
    if bases != [] { FoundIsThere(packages, bases[1..], name); }
  }

  method ResolveNodePath(packages: Packages, parent: string, name: string) returns (path: Option<string>)
    ensures path == Resolution(packages, parent, name)
  {
    var base := parent;
    while true
      invariant FirstFound(packages, Ancestors(parent), name) == FirstFound(packages, Ancestors(base), name)
      decreases |base|
    {
      var candidate := Candidate(base, name);
      if candidate in packages { return Some(candidate); }
      var marker := LastMarker(base);
      if marker.None? { break; }
      assert Ancestors(base)[1..] == Ancestors(base[..marker.value]);
      base := base[..marker.value];
    }
    assert [base, ""][1..] == [""] && [""][1..] == [];
    assert FirstFound(packages, [""], name) == if Candidate("", name) in packages then Some(Candidate("", name)) else None;
    var root := ROOT_PREFIX + name;
    path := if root in packages then Some(root) else None;
  }

  // ----- reachability -----

  datatype Item = Item(name: string, path: string)

  function NamesOf(n: Names): seq<string> {
    if n.Names? then n.names else []
  }

  predicate Lists(p: Package, name: string) {
    p.Package? && (name in NamesOf(p.dependencies) || name in NamesOf(p.optional))
  }

  ghost predicate RootEdge(packages: Packages, roots: seq<string>, i: Item) {
    i.name in roots && Resolution(packages, "", i.name) == Some(i.path)
  }

  ghost predicate Edge(packages: Packages, from: string, i: Item) {
    from in packages && Lists(packages[from], i.name) && Resolution(packages, from, i.name) == Some(i.path)
  }

  /** A chain of resolved dependencies, from one of the root's. */
  ghost predicate Chain(packages: Packages, roots: seq<string>, chain: seq<Item>) {
    && chain != [] && RootEdge(packages, roots, chain[0])
    && forall i :: 0 < i < |chain| ==> Edge(packages, chain[i - 1].path, chain[i])
  }

  ghost predicate Reachable(packages: Packages, roots: seq<string>, i: Item) {
    exists chain :: Chain(packages, roots, chain) && chain[|chain| - 1] == i
  }

  lemma RootsAreReachable(packages: Packages, roots: seq<string>, i: Item)
    requires RootEdge(packages, roots, i)
    ensures Reachable(packages, roots, i)
  {
    assert Chain(packages, roots, [i]) && [i][|[i]| - 1] == i;
  }

  lemma EdgesReach(packages: Packages, roots: seq<string>, i: Item, j: Item)
    requires Reachable(packages, roots, i) && Edge(packages, i.path, j)
    ensures Reachable(packages, roots, j)
  {
    var chain: seq<Item> :| Chain(packages, roots, chain) && chain[|chain| - 1] == i;
    var longer := chain + [j];
    assert Chain(packages, roots, longer) && longer[|longer| - 1] == j;
  }

  ghost predicate Closed(packages: Packages, roots: seq<string>, visited: set<string>) {
    && (forall i :: RootEdge(packages, roots, i) ==> i.path in visited)
    && (forall p, i :: p in visited && Edge(packages, p, i) ==> i.path in visited)
  }

  lemma {:induction false} ClosedHoldsChains(packages: Packages, roots: seq<string>, visited: set<string>, chain: seq<Item>)
    requires Closed(packages, roots, visited) && Chain(packages, roots, chain)
    ensures chain[|chain| - 1].path in visited
  {
    if |chain| > 1 {
      var shorter := chain[..|chain| - 1];
      assert Chain(packages, roots, shorter);
      ClosedHoldsChains(packages, roots, visited, shorter);
      assert Edge(packages, shorter[|shorter| - 1].path, chain[|chain| - 1]);
    }
  }

  lemma ClosedHoldsReachable(packages: Packages, roots: seq<string>, visited: set<string>, i: Item)
    requires Closed(packages, roots, visited) && Reachable(packages, roots, i)
    ensures i.path in visited
  {
    var chain: seq<Item> :| Chain(packages, roots, chain) && chain[|chain| - 1] == i;
    ClosedHoldsChains(packages, roots, visited, chain);
  }

  // ----- the worklist -----

  predicate Unresolved(packages: Packages, from: string, names: seq<string>) {
    exists k :: 0 <= k < |names| && Resolution(packages, from, names[k]).None?
  }

  /** What makes a reached package an error. */
  ghost predicate Bad(packages: Packages, path: string)
    requires path in packages
  {
    var p := packages[path];
    || p.NotAnEntry? || p.dev || p.version.None? || p.dependencies.Malformed? || p.optional.Malformed?
    || Unresolved(packages, path, NamesOf(p.dependencies))
  }

  ghost predicate Queued(queue: seq<Item>, i: Item) {
    exists k :: 0 <= k < |queue| && queue[k] == i
  }

  /** Resolves a package's names; an unresolved one is an error only where it is required. */
  method Enqueue(packages: Packages, from: string, names: seq<string>, required: bool) returns (ok: bool, more: seq<Item>)
    ensures ok <==> !required || !Unresolved(packages, from, names)
    ensures forall k :: 0 <= k < |more| ==> more[k].name in names && Resolution(packages, from, more[k].name) == Some(more[k].path)
    ensures ok ==> forall i: Item :: i.name in names && Resolution(packages, from, i.name) == Some(i.path) ==> Queued(more, i)
  {
    hide Resolution;
    more := [];
    var k := 0;
    while k < |names|
      invariant 0 <= k <= |names|
      invariant forall j :: 0 <= j < |more| ==> more[j].name in names && Resolution(packages, from, more[j].name) == Some(more[j].path)
      invariant required ==> forall j :: 0 <= j < k ==> Resolution(packages, from, names[j]).Some?
      invariant forall i: Item :: i.name in names[..k] && Resolution(packages, from, i.name) == Some(i.path) ==> Queued(more, i)
    {
      var path := ResolveNodePath(packages, from, names[k]);
      if path.Some? {
        ghost var before := more;
        more := more + [Item(names[k], path.value)];
        QueueGrows(before, Item(names[k], path.value));
      } else if required {
        return false, more;
      }
      assert names[..k + 1] == names[..k] + [names[k]];
      k := k + 1;
    }
    assert names[..k] == names;
    ok := true;
  }

  lemma QueueGrows(queue: seq<Item>, i: Item)
    ensures forall j :: Queued(queue + [i], j) <==> Queued(queue, j) || j == i
  {
    var longer := queue + [i];
    forall j ensures Queued(longer, j) <==> Queued(queue, j) || j == i {
      if Queued(queue, j) {
        var k :| 0 <= k < |queue| && queue[k] == j;
        assert longer[k] == j;
      }
      assert longer[|queue|] == i;
    }
  }

  lemma QueuesJoin(queue: seq<Item>, more: seq<Item>)
    ensures forall j :: Queued(queue + more, j) <==> Queued(queue, j) || Queued(more, j)
  {
    var longer := queue + more;
    forall j ensures Queued(longer, j) <==> Queued(queue, j) || Queued(more, j) {
      if Queued(queue, j) {
        var k :| 0 <= k < |queue| && queue[k] == j;
        assert longer[k] == j;
      }
      if Queued(more, j) {
        var k :| 0 <= k < |more| && more[k] == j;
        assert longer[|queue| + k] == j;
      }
      if Queued(longer, j) {
        var k :| 0 <= k < |longer| && longer[k] == j;
        assert if k < |queue| then queue[k] == j else more[k - |queue|] == j;
      }
    }
  }

  lemma QueueShrinks(queue: seq<Item>)
    requires queue != []
    ensures forall j :: Queued(queue, j) <==> Queued(queue[1..], j) || j == queue[0]
  {
    assert queue == [queue[0]] + queue[1..];
    QueuesJoin([queue[0]], queue[1..]);
    assert forall j :: Queued([queue[0]], j) <==> j == queue[0] by {
      assert [queue[0]][0] == queue[0];
    }
  }

  type Pair = (string, string)

  function VersionAt(packages: Packages, path: string): string {
    if path in packages && packages[path].Package? && packages[path].version.Some? then packages[path].version.value else ""
  }

  function PairOf(packages: Packages, i: Item): Pair {
    (i.name, VersionAt(packages, i.path))
  }

  /** The list that names each path as `named` does. */
  function Listing(packages: Packages, named: map<string, string>): set<Pair> {
    set p | p in named :: PairOf(packages, Item(named[p], p))
  }

  /** Every reachable path has one name, by which it is reached. */
  ghost predicate Naming(packages: Packages, roots: seq<string>, named: map<string, string>) {
    && (forall p :: p in named ==> Reachable(packages, roots, Item(named[p], p)))
    && (forall i :: Reachable(packages, roots, i) ==> i.path in named)
  }

  /** A list with one name for every reachable path; the order of the tables decides which. */
  ghost predicate Allowed(packages: Packages, roots: seq<string>, closure: set<Pair>) {
    exists named :: Naming(packages, roots, named) && closure == Listing(packages, named)
  }

  ghost predicate NoneBad(packages: Packages, roots: seq<string>) {
    forall i :: Reachable(packages, roots, i) ==> i.path in packages && !Bad(packages, i.path)
  }

  ghost predicate NothingBad(packages: Packages, roots: seq<string>) {
    !Unresolved(packages, "", roots) && NoneBad(packages, roots)
  }

  /** What holds whenever the queue is looked at. */
  ghost predicate Working(packages: Packages, roots: seq<string>, queue: seq<Item>, named: map<string, string>) {
    && named.Keys <= packages.Keys
    && (forall i :: Queued(queue, i) ==> Reachable(packages, roots, i) && i.path in packages)
    && (forall p :: p in named ==> !Bad(packages, p) && Reachable(packages, roots, Item(named[p], p)))
    && (forall i :: RootEdge(packages, roots, i) ==> i.path in named || Queued(queue, i))
    && (forall p, i :: p in named && Edge(packages, p, i) ==> i.path in named || Queued(queue, i))
  }

  lemma SkipVisited(packages: Packages, roots: seq<string>, queue: seq<Item>, named: map<string, string>)
    requires Working(packages, roots, queue, named) && queue != [] && queue[0].path in named
    ensures Working(packages, roots, queue[1..], named)
  {
    hide Reachable, Edge, RootEdge, Queued, Bad;
    QueueShrinks(queue);
  }

  lemma QueueHead(packages: Packages, roots: seq<string>, queue: seq<Item>, named: map<string, string>)
    requires Working(packages, roots, queue, named) && queue != []
    ensures Reachable(packages, roots, queue[0]) && queue[0].path in packages
    ensures Bad(packages, queue[0].path) ==> !NoneBad(packages, roots)
  {
    hide Reachable, Edge, RootEdge, Bad;
    FirstIsQueued(queue);
  }

  lemma VisitOne(packages: Packages, roots: seq<string>, queue: seq<Item>, named: map<string, string>,
                 required: seq<Item>, optional: seq<Item>)
    requires Working(packages, roots, queue, named) && queue != []
    requires var i := queue[0]; i.path in packages && i.path !in named && !Bad(packages, i.path) && Reachable(packages, roots, i)
    requires var i := queue[0]; forall j :: Queued(required, j) || Queued(optional, j) <==> Edge(packages, i.path, j)
    ensures var i := queue[0];
            Working(packages, roots, queue[1..] + required + optional, named[i.path := i.name])
  {
    hide Reachable, Edge, RootEdge, Queued, Bad;
    var i := queue[0];
    assert Item(i.name, i.path) == i;
    QueueShrinks(queue);
    QueuesJoin(queue[1..], required);
    QueuesJoin(queue[1..] + required, optional);
    forall j | Queued(required, j) || Queued(optional, j) ensures Reachable(packages, roots, j) && j.path in packages {
      EdgesReach(packages, roots, i, j);
      EdgeIsThere(packages, i.path, j);
    }
  }

  lemma ListingGrows(packages: Packages, named: map<string, string>, i: Item)
    requires i.path !in named
    ensures Listing(packages, named[i.path := i.name]) == Listing(packages, named) + {PairOf(packages, i)}
  {
    var longer := named[i.path := i.name];
    assert longer[i.path] == i.name;
    forall p | p in named ensures longer[p] == named[p] {}
  }

  lemma EdgeIsThere(packages: Packages, from: string, i: Item)
    requires Edge(packages, from, i)
    ensures i.path in packages
  {
  }

  lemma Finished(packages: Packages, roots: seq<string>, named: map<string, string>)
    requires Working(packages, roots, [], named)
    ensures Naming(packages, roots, named)
    ensures NoneBad(packages, roots)
  {
    hide Reachable, Edge, RootEdge, Bad;
    assert Closed(packages, roots, named.Keys);
    forall i | Reachable(packages, roots, i) ensures i.path in named {
      ClosedHoldsReachable(packages, roots, named.Keys, i);
    }
  }

  /** One package on the worklist: its version, and where its dependencies resolve to. */
  method Visit(packages: Packages, path: string) returns (fine: bool, version: string, required: seq<Item>, optional: seq<Item>)
    requires path in packages
    ensures fine <==> !Bad(packages, path)
    ensures fine ==> version == VersionAt(packages, path)
    ensures fine ==> forall j :: Queued(required, j) || Queued(optional, j) <==> Edge(packages, path, j)
  {
    hide Resolution, Queued, Edge;
    version, required, optional := "", [], [];
    var p := packages[path];
    if p.NotAnEntry? || p.dev || p.version.None? { return false, version, required, optional; }
    version := p.version.value;
    if p.dependencies.Malformed? { return false, version, required, optional; }
    fine, required := Enqueue(packages, path, NamesOf(p.dependencies), true);
    if !fine || p.optional.Malformed? { return false, version, required, optional; }
    var _, found := Enqueue(packages, path, NamesOf(p.optional), false);
    optional := found;
    EnqueuedAreEdges(packages, path, required, optional);
  }

  /**
   Succeeds exactly when nothing reachable is in error, and then lists every reachable package
   once, with its version, under a name by which it is reached, and nothing else.
   */
  method WebProductionDependencies(packages: Packages, root: Names) returns (r: Option<set<Pair>>)
    ensures r.Some? <==> !root.Malformed? && NothingBad(packages, NamesOf(root))
    ensures r.Some? ==> Allowed(packages, NamesOf(root), r.value)
  {
    hide Reachable, Resolution, Queued, Working, NoneBad, Naming, Edge, RootEdge, Bad, Listing;
    if root.Malformed? { return None; }
    var roots := NamesOf(root);
    var ok, queue := Enqueue(packages, "", roots, true);
    if !ok { return None; }
    var visited: set<string> := {};
    var closure: set<Pair> := {};
    ghost var named: map<string, string> := map[];
    Started(packages, roots, queue);
    while queue != []
      invariant Working(packages, roots, queue, named)
      invariant visited == named.Keys <= packages.Keys && closure == Listing(packages, named)
      decreases |packages.Keys - visited|, |queue|
    {
      var i := queue[0];
      QueueHead(packages, roots, queue, named);
      if i.path in visited {
        SkipVisited(packages, roots, queue, named);
        queue := queue[1..];
      } else {
        var fine, version, required, optional := Visit(packages, i.path);
        if !fine { return None; }
        VisitOne(packages, roots, queue, named, required, optional);
        ListingGrows(packages, named, i);
        Fewer(packages.Keys - visited, i.path);
        assert packages.Keys - (visited + {i.path}) == packages.Keys - visited - {i.path};
        queue := queue[1..] + required + optional;
        named := named[i.path := i.name];
        visited := visited + {i.path};
        closure := closure + {(i.name, version)};
      }
    }
    Finished(packages, roots, named);
    r := Some(closure);
  }

  lemma Fewer(s: set<string>, x: string)
    requires x in s
    ensures |s - {x}| < |s|
  {
  }

  lemma FirstIsQueued(queue: seq<Item>)
    requires queue != []
    ensures Queued(queue, queue[0])
  {
  }

  lemma Started(packages: Packages, roots: seq<string>, queue: seq<Item>)
    requires forall k :: 0 <= k < |queue| ==> queue[k].name in roots && Resolution(packages, "", queue[k].name) == Some(queue[k].path)
    requires forall i: Item :: i.name in roots && Resolution(packages, "", i.name) == Some(i.path) ==> Queued(queue, i)
    ensures Working(packages, roots, queue, map[]) && Listing(packages, map[]) == {}
  {
    hide Resolution, Reachable;
    forall i | Queued(queue, i) ensures Reachable(packages, roots, i) && i.path in packages {
      RootsAreReachable(packages, roots, i);
    }
  }

  lemma EnqueuedAreEdges(packages: Packages, from: string, required: seq<Item>, optional: seq<Item>)
    requires from in packages && packages[from].Package?
    requires forall k :: 0 <= k < |required| ==>
               required[k].name in NamesOf(packages[from].dependencies) && Resolution(packages, from, required[k].name) == Some(required[k].path)
    requires forall k :: 0 <= k < |optional| ==>
               optional[k].name in NamesOf(packages[from].optional) && Resolution(packages, from, optional[k].name) == Some(optional[k].path)
    requires forall i: Item :: i.name in NamesOf(packages[from].dependencies) && Resolution(packages, from, i.name) == Some(i.path) ==> Queued(required, i)
    requires forall i: Item :: i.name in NamesOf(packages[from].optional) && Resolution(packages, from, i.name) == Some(i.path) ==> Queued(optional, i)
    ensures forall j :: Queued(required, j) || Queued(optional, j) <==> Edge(packages, from, j)
  {
    hide Resolution;
  }

  // ----- when the list is complete -----

  /** No reachable path is reached under two names. */
  ghost predicate OneNamePerPath(packages: Packages, roots: seq<string>) {
    forall i: Item, j: Item :: Reachable(packages, roots, i) && Reachable(packages, roots, j) && i.path == j.path ==> i.name == j.name
  }

  /** No two reachable paths share a name and a version. */
  ghost predicate PairsTellPaths(packages: Packages, roots: seq<string>) {
    forall i: Item, j: Item ::
      (Reachable(packages, roots, i) && Reachable(packages, roots, j) && PairOf(packages, i) == PairOf(packages, j)) ==>
        i.path == j.path
  }

  /** The list is exactly the reachable name and version pairs. */
  ghost predicate ListsExactly(packages: Packages, roots: seq<string>, closure: set<Pair>) {
    forall p: Pair :: p in closure <==> exists i :: Reachable(packages, roots, i) && PairOf(packages, i) == p
  }

  lemma ListedIsReachable(packages: Packages, roots: seq<string>, named: map<string, string>, p: Pair)
    requires Naming(packages, roots, named) && p in Listing(packages, named)
    ensures exists i :: Reachable(packages, roots, i) && PairOf(packages, i) == p
  {
    var path :| path in named && p == PairOf(packages, Item(named[path], path));
    assert Reachable(packages, roots, Item(named[path], path));
  }

  lemma ExactWhenAllListed(packages: Packages, roots: seq<string>, named: map<string, string>)
    requires Naming(packages, roots, named)
    requires forall i :: Reachable(packages, roots, i) ==> PairOf(packages, i) in Listing(packages, named)
    ensures ListsExactly(packages, roots, Listing(packages, named))
  {
    hide Reachable, Listing;
    forall p | p in Listing(packages, named) ensures exists i :: Reachable(packages, roots, i) && PairOf(packages, i) == p {
      ListedIsReachable(packages, roots, named, p);
    }
  }

  /** One name per path is enough, whatever else the lock file holds. */
  lemma OneNamePerPathIsComplete(packages: Packages, roots: seq<string>, closure: set<Pair>)
    requires Allowed(packages, roots, closure) && OneNamePerPath(packages, roots)
    ensures ListsExactly(packages, roots, closure)
  {
    hide Reachable, ListsExactly;
    var named :| Naming(packages, roots, named) && closure == Listing(packages, named);
    forall i | Reachable(packages, roots, i) ensures PairOf(packages, i) in closure {
      var j := Item(named[i.path], i.path);
      assert Reachable(packages, roots, j);
      assert j.name == i.name;
    }
    ExactWhenAllListed(packages, roots, named);
  }

  /** Where pairs tell paths apart, every list the program can give is complete exactly with one name per path. */
  lemma ListIsCompleteIffOneNamePerPath(packages: Packages, roots: seq<string>, closure: set<Pair>)
    requires Allowed(packages, roots, closure) && PairsTellPaths(packages, roots)
    ensures ListsExactly(packages, roots, closure) <==> OneNamePerPath(packages, roots)
  {
    hide Reachable;
    hide ListsExactly, OneNamePerPath;
    if OneNamePerPath(packages, roots) {
      OneNamePerPathIsComplete(packages, roots, closure);
    } else if ListsExactly(packages, roots, closure) {
      CompleteMeansOneName(packages, roots, closure);
    }
  }

  lemma CompleteMeansOneName(packages: Packages, roots: seq<string>, closure: set<Pair>)
    requires Allowed(packages, roots, closure) && PairsTellPaths(packages, roots) && ListsExactly(packages, roots, closure)
    ensures OneNamePerPath(packages, roots)
  {
    hide Reachable, PairsTellPaths;
    var named :| Naming(packages, roots, named) && closure == Listing(packages, named);
    forall i: Item | Reachable(packages, roots, i) ensures named[i.path] == i.name {
      assert PairOf(packages, i) in closure;
      var path :| path in named && PairOf(packages, i) == PairOf(packages, Item(named[path], path));
      assert i.path == Item(named[path], path).path by {
        PathOfPair(packages, roots, i, Item(named[path], path));
      }
    }
  }

  lemma PathOfPair(packages: Packages, roots: seq<string>, i: Item, j: Item)
    requires PairsTellPaths(packages, roots) && Reachable(packages, roots, i) && Reachable(packages, roots, j)
    requires PairOf(packages, i) == PairOf(packages, j)
    ensures i.path == j.path
  {
  }

  /** The pair has a path of its own, reached under no other name. */
  ghost predicate Pinned(packages: Packages, roots: seq<string>, pair: Pair) {
    exists i :: PinnedBy(packages, roots, pair, i)
  }

  ghost predicate PinnedBy(packages: Packages, roots: seq<string>, pair: Pair, i: Item) {
    && Reachable(packages, roots, i) && PairOf(packages, i) == pair
    && forall j: Item :: Reachable(packages, roots, j) && j.path == i.path ==> j.name == i.name
  }

  ghost predicate AllPinned(packages: Packages, roots: seq<string>) {
    forall i :: Reachable(packages, roots, i) ==> Pinned(packages, roots, PairOf(packages, i))
  }

  /** A naming that avoids one pair wherever it can. */
  ghost function NameAvoiding(packages: Packages, roots: seq<string>, path: string, pair: Pair): (name: string)
    requires exists i: Item :: Reachable(packages, roots, i) && i.path == path
    ensures Reachable(packages, roots, Item(name, path))
    ensures PairOf(packages, Item(name, path)) == pair ==> PinnedBy(packages, roots, pair, Item(name, path))
  {
    if i: Item :| Reachable(packages, roots, i) && i.path == path && PairOf(packages, i) != pair then
      assert Item(i.name, path) == i;
      i.name
    else
      var i: Item :| Reachable(packages, roots, i) && i.path == path;
      assert Item(i.name, path) == i;
      assert forall j: Item :: Reachable(packages, roots, j) && j.path == path ==> PairOf(packages, j) == PairOf(packages, i);
      i.name
  }

  lemma ReachableIsThere(packages: Packages, roots: seq<string>, i: Item)
    requires Reachable(packages, roots, i)
    ensures i.path in packages
  {
    var chain: seq<Item> :| Chain(packages, roots, chain) && chain[|chain| - 1] == i;
    if |chain| > 1 { assert Edge(packages, chain[|chain| - 2].path, i); }
  }

  ghost predicate Reached(packages: Packages, roots: seq<string>, path: string) {
    exists i: Item :: Reachable(packages, roots, i) && i.path == path
  }

  lemma NamingThatAvoids(packages: Packages, roots: seq<string>, pair: Pair) returns (named: map<string, string>)
    ensures Naming(packages, roots, named)
    ensures pair in Listing(packages, named) ==> Pinned(packages, roots, pair)
  {
    hide Reachable;
    named := map p | p in packages && Reached(packages, roots, p) :: NameAvoiding(packages, roots, p, pair);
    forall i | Reachable(packages, roots, i) ensures i.path in named {
      ReachableIsThere(packages, roots, i);
    }
    if pair in Listing(packages, named) {
      var path :| path in named && pair == PairOf(packages, Item(named[path], path));
      assert PinnedBy(packages, roots, pair, Item(named[path], path));
    }
  }

  lemma SomeNaming(packages: Packages, roots: seq<string>) returns (named: map<string, string>)
    ensures Naming(packages, roots, named)
  {
    named := NamingThatAvoids(packages, roots, ("", ""));
  }

  /**
   In full: the lists of all table orders are complete exactly when every reachable pair has a
   path that is reached under no other name.
   */
  lemma EveryListIsCompleteIff(packages: Packages, roots: seq<string>)
    ensures (forall closure :: Allowed(packages, roots, closure) ==> ListsExactly(packages, roots, closure))
            <==> AllPinned(packages, roots)
  {
    hide Reachable, ListsExactly, Naming;
    if AllPinned(packages, roots) {
      forall closure | Allowed(packages, roots, closure) ensures ListsExactly(packages, roots, closure) {
        PinnedIsComplete(packages, roots, closure);
      }
    } else {
      var i :| Reachable(packages, roots, i) && !Pinned(packages, roots, PairOf(packages, i));
      var named := NamingThatAvoids(packages, roots, PairOf(packages, i));
      assert Allowed(packages, roots, Listing(packages, named));
      MissingPair(packages, roots, Listing(packages, named), i);
    }
  }

  lemma MissingPair(packages: Packages, roots: seq<string>, closure: set<Pair>, i: Item)
    requires Reachable(packages, roots, i) && PairOf(packages, i) !in closure
    ensures !ListsExactly(packages, roots, closure)
  {
  }

  lemma PinnedIsComplete(packages: Packages, roots: seq<string>, closure: set<Pair>)
    requires Allowed(packages, roots, closure) && AllPinned(packages, roots)
    ensures ListsExactly(packages, roots, closure)
  {
    hide Reachable, ListsExactly, Pinned, Naming;
    var named :| Naming(packages, roots, named) && closure == Listing(packages, named);
    forall i | Reachable(packages, roots, i) ensures PairOf(packages, i) in closure {
      PinnedIsListed(packages, roots, named, PairOf(packages, i));
    }
    ExactWhenAllListed(packages, roots, named);
  }

  lemma PinnedIsListed(packages: Packages, roots: seq<string>, named: map<string, string>, pair: Pair)
    requires Naming(packages, roots, named) && Pinned(packages, roots, pair)
    ensures pair in Listing(packages, named)
  {
    hide Reachable;
    var j :| PinnedBy(packages, roots, pair, j);
    assert Reachable(packages, roots, Item(named[j.path], j.path));
    assert PairOf(packages, Item(named[j.path], j.path)) == pair;
  }

  // ----- names that leave no choice -----

  /** A name that cannot be mistaken for a path through another package. */
  predicate Plain(name: string) {
    !(ROOT_PREFIX <= name) && forall i :: 0 <= i <= |name| ==> !MarkerAt(name, i)
  }

  predicate AllPlain(packages: Packages, roots: seq<string>) {
    && (forall k :: 0 <= k < |roots| ==> Plain(roots[k]))
    && (forall p :: p in packages && packages[p].Package? ==>
          && (forall k :: 0 <= k < |NamesOf(packages[p].dependencies)| ==> Plain(NamesOf(packages[p].dependencies)[k]))
          && (forall k :: 0 <= k < |NamesOf(packages[p].optional)| ==> Plain(NamesOf(packages[p].optional)[k])))
  }

  lemma SlashesEndTheMarker(d: nat)
    requires d < |MARKER| && MARKER[d] == '/'
    ensures d == 0 || d == |MARKER| - 1
  {
  }

  /** Where one path splits at two markers, the longer name is not plain. */
  lemma EarlierMarkerSpoilsName(p: string, m: string, q: string, n: string)
    requires p + MARKER + m == q + MARKER + n && |q| < |p|
    ensures !Plain(n)
  {
    var whole, d := p + MARKER + m, |p| - |q|;
    assert whole[|p|..|p| + |MARKER|] == MARKER;
    assert whole[|q|..|q| + |MARKER|] == MARKER;
    assert whole[|q| + |MARKER|..] == n;
    if d >= |MARKER| {
      assert n[d - |MARKER|..d] == whole[|p|..|p| + |MARKER|];
      assert MarkerAt(n, d - |MARKER|);
    } else {
      assert whole[|q|..|q| + |MARKER|][d] == whole[|q| + d];
      assert whole[|p|..|p| + |MARKER|][0] == whole[|p|];
      assert MARKER[d] == whole[|p|] == '/';
      SlashesEndTheMarker(d);
      assert n[..|ROOT_PREFIX|] == whole[|p| + 1..|p| + |MARKER|];
      assert MARKER[1..] == ROOT_PREFIX;
    }
  }

  lemma PathDeterminesName(b: string, m: string, c: string, n: string)
    requires Candidate(b, m) == Candidate(c, n) && Plain(m) && Plain(n)
    ensures m == n
  {
    var p, q := if b == "" then "" else "/" + b, if c == "" then "" else "/" + c;
    assert "/" + ROOT_PREFIX == MARKER;
    assert p + MARKER + m == "/" + Candidate(b, m);
    assert q + MARKER + n == "/" + Candidate(c, n);
    if |q| < |p| {
      EarlierMarkerSpoilsName(p, m, q, n);
    } else if |p| < |q| {
      EarlierMarkerSpoilsName(q, n, p, m);
    }
    assert |p| == |q|;
    assert m == (p + MARKER + m)[|p| + |MARKER|..];
    assert n == (q + MARKER + n)[|q| + |MARKER|..];
  }

  lemma {:induction false} FoundIsCandidate(packages: Packages, bases: seq<string>, name: string) returns (base: string)
    requires FirstFound(packages, bases, name).Some?
    ensures FirstFound(packages, bases, name) == Some(Candidate(base, name))
  {
    base := bases[0];
    if Candidate(bases[0], name) !in packages { base := FoundIsCandidate(packages, bases[1..], name); }
  }

  lemma ReachedByPlainCandidate(packages: Packages, roots: seq<string>, i: Item) returns (base: string)
    requires AllPlain(packages, roots) && Reachable(packages, roots, i)
    ensures i.path == Candidate(base, i.name) && Plain(i.name)
  {
    hide Plain;
    var chain: seq<Item> :| Chain(packages, roots, chain) && chain[|chain| - 1] == i;
    if |chain| == 1 {
      assert RootEdge(packages, roots, i);
      base := FoundIsCandidate(packages, Ancestors(""), i.name);
    } else {
      var from := chain[|chain| - 2].path;
      assert Edge(packages, from, i);
      base := FoundIsCandidate(packages, Ancestors(from), i.name);
    }
  }

  /** Plain names make every reachable path reachable under one name only. */
  lemma PlainNamesAreOnePerPath(packages: Packages, roots: seq<string>)
    requires AllPlain(packages, roots)
    ensures OneNamePerPath(packages, roots)
  {
    hide Reachable, AllPlain, Plain;
    forall i: Item, j: Item | Reachable(packages, roots, i) && Reachable(packages, roots, j) && i.path == j.path
      ensures i.name == j.name
    {
      var b := ReachedByPlainCandidate(packages, roots, i);
      var c := ReachedByPlainCandidate(packages, roots, j);
      PathDeterminesName(b, i.name, c, j.name);
    }
  }

  /**
   A name that is a path: the program succeeds on this lock file, and whatever order the tables
   are read in, a reachable pair is missing from its list.
   */
  lemma NameThatIsAPathHidesAnother() returns (packages: Packages, roots: seq<string>)
    ensures NothingBad(packages, roots) && PairsTellPaths(packages, roots) && !OneNamePerPath(packages, roots)
    ensures exists closure :: Allowed(packages, roots, closure)
    ensures forall closure :: Allowed(packages, roots, closure) ==> !ListsExactly(packages, roots, closure)
  {
    packages, roots := TwoPackages(), ["a/node_modules/b", "a"];
    hide Reachable, Resolution, ListsExactly, OneNamePerPath, Naming, PairsTellPaths;
    TwoNamesForOnePath();
    forall i | Reachable(packages, roots, i) ensures i.path in packages && !Bad(packages, i.path) {
      ReachableIsThere(packages, roots, i);
      TwoPackagesAreFine(i.path);
    }
    VersionsTellPaths(roots);
    var named := SomeNaming(packages, roots);
    assert Allowed(packages, roots, Listing(packages, named));
    forall closure | Allowed(packages, roots, closure) ensures !ListsExactly(packages, roots, closure) {
      ListIsCompleteIffOneNamePerPath(packages, roots, closure);
    }
  }

  const OUTER: string := "node_modules/a"
  const INNER: string := "node_modules/a/node_modules/b"

  function TwoPackages(): (packages: Packages)
    ensures packages.Keys == {OUTER, INNER}
  {
    map[OUTER := Package(false, Some("1"), Names(["b"]), Names([])), INNER := Package(false, Some("2"), Names([]), Names([]))]
  }

  lemma TwoNamesForOnePath()
    ensures var roots := ["a/node_modules/b", "a"];
            !OneNamePerPath(TwoPackages(), roots) && !Unresolved(TwoPackages(), "", roots)
    ensures Resolution(TwoPackages(), OUTER, "b") == Some(INNER)
  {
    hide Resolution, Candidate, Reachable, Plain, MarkerAt;
    var packages, roots := TwoPackages(), ["a/node_modules/b", "a"];
    var a, b, c := Item(roots[0], INNER), Item(roots[1], OUTER), Item("b", INNER);
    CandidatesSpelledOut();
    FoundAtOnce(packages, "", roots[0], INNER);
    FoundAtOnce(packages, "", roots[1], OUTER);
    FoundAtOnce(packages, OUTER, "b", INNER);
    RootsAreReachable(packages, roots, a);
    RootsAreReachable(packages, roots, b);
    assert |OUTER| != |INNER|;
    assert Lists(packages[OUTER], "b") by { assert NamesOf(packages[OUTER].dependencies)[0] == "b"; }
    EdgesReach(packages, roots, b, c);
    assert |a.name| != |c.name|;
  }

  lemma TwoPackagesAreFine(path: string)
    requires path in TwoPackages()
    ensures !Bad(TwoPackages(), path)
  {
    hide Resolution;
    TwoNamesForOnePath();
    assert |OUTER| != |INNER|;
  }

  lemma VersionsTellPaths(roots: seq<string>)
    ensures PairsTellPaths(TwoPackages(), roots)
  {
    hide Reachable;
    var packages := TwoPackages();
    assert |OUTER| != |INNER| && "1"[0] != "2"[0];
    forall i: Item, j: Item
      | Reachable(packages, roots, i) && Reachable(packages, roots, j) && PairOf(packages, i) == PairOf(packages, j)
      ensures i.path == j.path
    {
      ReachableIsThere(packages, roots, i);
      ReachableIsThere(packages, roots, j);
    }
  }

  lemma CandidatesSpelledOut()
    ensures Candidate("", "a/node_modules/b") == "node_modules/a/node_modules/b"
    ensures Candidate("", "a") == "node_modules/a"
    ensures Candidate("node_modules/a", "b") == "node_modules/a/node_modules/b"
    ensures !Plain("a/node_modules/b")
  {
    assert MarkerAt("a/node_modules/b", 1);
  }

  lemma FoundAtOnce(packages: Packages, from: string, name: string, path: string)
    requires Candidate(from, name) == path && path in packages
    ensures Resolution(packages, from, name) == Some(path)
  {
  }
}
