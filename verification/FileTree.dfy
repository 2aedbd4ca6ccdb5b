/** The file tree store: the visible rows come from a depth-first walk of the expanded
    directories, the paths to refresh from a breadth-first one. */
module FileTree {
  import opened Wrappers

  datatype Kind = Directory | File | Other | Symlink

  datatype Entry = Entry(path: string, kind: Kind, targetKind: Option<Kind>, itemCount: Option<nat>)

  /** The listings known so far (`None` while a directory is still loading), and which paths
      are expanded. */
  datatype Store = Store(directories: map<string, Option<seq<Entry>>>, expanded: map<string, bool>) {
    predicate Loaded(path: string) { path in directories && directories[path].Some? }

    function Listing(path: string): seq<Entry> { if Loaded(path) then directories[path].value else [] }

    predicate IsExpanded(path: string) { path in expanded && expanded[path] }

    predicate Opens(e: Entry) { IsDirectoryLike(e) && IsExpanded(e.path) }

    /** Every way down from here through open directories ends within `n` listings. */
    ghost predicate EndsWithin(path: string, n: nat)
      decreases n
    {
      n > 0 && forall e :: e in Listing(path) && Opens(e) ==> EndsWithin(e.path, n - 1)
    }

    ghost predicate Finite(path: string) { exists n :: EndsWithin(path, n) }

    /** How many listings a way down from here enters at most. */
    ghost function Room(path: string): (n: nat)
      requires Finite(path)
      ensures EndsWithin(path, n)
    {
      var n :| EndsWithin(path, n);
      Least(path, n)
    }

    ghost function Least(path: string, n: nat): (least: nat)
      requires EndsWithin(path, n)
      ensures EndsWithin(path, least) && (least > 0 ==> !EndsWithin(path, least - 1))
    {
      if n > 0 && EndsWithin(path, n - 1) then Least(path, n - 1) else n
    }

    function Collapse(path: string): (collapsed: Store)
      ensures collapsed.directories == directories
      ensures forall p :: collapsed.IsExpanded(p) <==> IsExpanded(p) && p != path
      ensures forall p {:trigger collapsed.Finite(p)} :: Finite(p) ==> collapsed.Finite(p)
    {
      var collapsed := this.(expanded := expanded[path := false]);
      FewerOpenIsFinite(this, collapsed);
      collapsed
    }
  }

  lemma {:induction false} FewerOpenEndsWithin(s: Store, s': Store, path: string, n: nat)
    requires s'.directories == s.directories && (forall p :: s'.IsExpanded(p) ==> s.IsExpanded(p))
    requires s.EndsWithin(path, n)
    ensures s'.EndsWithin(path, n)
    decreases n
  {
    forall e | e in s'.Listing(path) && s'.Opens(e)
      ensures s'.EndsWithin(e.path, n - 1)
    {
      assert e in s.Listing(path) && s.Opens(e);
      FewerOpenEndsWithin(s, s', e.path, n - 1);
    }
  }

  lemma FewerOpenIsFinite(s: Store, s': Store)
    requires s'.directories == s.directories && (forall p :: s'.IsExpanded(p) ==> s.IsExpanded(p))
    ensures forall p {:trigger s'.Finite(p)} :: s.Finite(p) ==> s'.Finite(p)
  {
    forall p | s.Finite(p)
      ensures s'.Finite(p)
    {
      var n: nat :| s.EndsWithin(p, n);
      FewerOpenEndsWithin(s, s', p, n);
    }
  }

  lemma {:induction false} EndsWithinMore(s: Store, path: string, n: nat, m: nat)
    requires s.EndsWithin(path, n) && n <= m
    ensures s.EndsWithin(path, m)
    decreases n
  {
    forall e | e in s.Listing(path) && s.Opens(e)
      ensures s.EndsWithin(e.path, m - 1)
    {
      EndsWithinMore(s, e.path, n - 1, m - 1);
    }
  }

  lemma RoomIsLeast(s: Store, path: string, n: nat)
    requires s.EndsWithin(path, n)
    ensures s.Finite(path) && s.Room(path) <= n
  {
    var room := s.Room(path);
    if n < room {
      EndsWithinMore(s, path, n, room - 1);
    }
  }

  lemma ChildHasLessRoom(s: Store, path: string, e: Entry)
    requires s.Finite(path) && e in s.Listing(path) && s.Opens(e)
    ensures s.Finite(e.path) && s.Room(e.path) < s.Room(path)
  {
    RoomIsLeast(s, e.path, s.Room(path) - 1);
  }

  predicate IsDirectoryLike(e: Entry) {
    e.kind == Directory || (e.kind == Symlink && e.targetKind == Some(Directory))
  }

  // ---------------------------------------------------------------------------------------
  // Depth first: the visible rows

  datatype Row = Row(entry: Entry, childrenLoaded: bool, depth: nat, hasChildren: bool, isExpanded: bool,
                     itemCount: Option<nat>, parentPath: string)

  function RowOf(s: Store, e: Entry, depth: nat, parentPath: string): Row {
    var loaded, count := s.Loaded(e.path), |s.Listing(e.path)|;
    Row(e, loaded, depth, IsDirectoryLike(e) && (!loaded || count > 0), s.IsExpanded(e.path),
        if e.itemCount.Some? then e.itemCount else if IsDirectoryLike(e) && loaded then Some(count) else None,
        parentPath)
  }

  /** The rows of some entries of the directory `parentPath`, and of what is open below them. */
  function FlattenRows(s: Store, entries: seq<Entry>, depth: nat, parentPath: string): seq<Row>
    requires s.Finite(parentPath) && forall e :: e in entries ==> e in s.Listing(parentPath)
    decreases s.Room(parentPath), |entries|
  {
    if entries == [] then []
    else FlattenEntry(s, entries[0], depth, parentPath) + FlattenRows(s, entries[1..], depth, parentPath)
  }

  function FlattenEntry(s: Store, e: Entry, depth: nat, parentPath: string): seq<Row>
    requires s.Finite(parentPath) && e in s.Listing(parentPath)
    decreases s.Room(parentPath), 0
  {
    [RowOf(s, e, depth, parentPath)]
      + if !s.Opens(e) then []
        else ChildHasLessRoom(s, parentPath, e); FlattenRows(s, s.Listing(e.path), depth + 1, e.path)
  }

  function VisibleRows(s: Store, currentPath: Option<string>): seq<Row>
    requires currentPath.Some? && currentPath.value != "" ==> s.Finite(currentPath.value)
  {
    if currentPath.None? || currentPath.value == "" then []
    else RowsBelow(s, currentPath.value)
  }

  function RowsBelow(s: Store, path: string): seq<Row>
    requires s.Finite(path)
  {
    FlattenRows(s, s.Listing(path), 0, path)
  }

  // ---------------------------------------------------------------------------------------
  // Breadth first: the paths to refresh

  function OpenPaths(s: Store, entries: seq<Entry>): seq<string> {
    if entries == [] then []
    else (if s.Opens(entries[0]) then [entries[0].path] else []) + OpenPaths(s, entries[1..])
  }

  ghost predicate AllFinite(s: Store, paths: seq<string>) { forall p :: p in paths ==> s.Finite(p) }

  /** Above the room of every path in the queue. */
  ghost function Bound(s: Store, paths: seq<string>): (n: nat)
    requires AllFinite(s, paths)
    ensures forall p :: p in paths ==> s.Room(p) < n
  {
    if paths == [] then 0
    else
      var rest := Bound(s, paths[1..]);
      if s.Room(paths[0]) < rest then rest else 1 + s.Room(paths[0])
  }

  lemma {:induction false} BoundOfOpenPaths(s: Store, path: string, entries: seq<Entry>)
    requires s.Finite(path) && forall e :: e in entries ==> e in s.Listing(path)
    ensures AllFinite(s, OpenPaths(s, entries)) && Bound(s, OpenPaths(s, entries)) <= s.Room(path)
  {
    if entries != [] {
      BoundOfOpenPaths(s, path, entries[1..]);
      if s.Opens(entries[0]) {
        ChildHasLessRoom(s, path, entries[0]);
        assert OpenPaths(s, entries)[1..] == OpenPaths(s, entries[1..]);
      } else {
        assert OpenPaths(s, entries) == OpenPaths(s, entries[1..]);
      }
    }
  }

  /** Everything reached from a path through open directories, each before what is below it. */
  function Reached(s: Store, path: string): seq<string>
    requires s.Finite(path)
    decreases s.Room(path), 1
  {
    BoundOfOpenPaths(s, path, s.Listing(path));
    [path] + ReachedFrom(s, OpenPaths(s, s.Listing(path)))
  }

  function ReachedFrom(s: Store, paths: seq<string>): seq<string>
    requires AllFinite(s, paths)
    decreases Bound(s, paths), 0, |paths|
  {
    if paths == [] then [] else Reached(s, paths[0]) + ReachedFrom(s, paths[1..])
  }

  function FlatMap(f: string -> seq<string>, paths: seq<string>): seq<string> {
    if paths == [] then [] else f(paths[0]) + FlatMap(f, paths[1..])
  }

  lemma {:induction false} FlatMapConcat(f: string -> seq<string>, a: seq<string>, b: seq<string>)
    ensures FlatMap(f, a + b) == FlatMap(f, a) + FlatMap(f, b)
  {
    if a == [] {
      assert a + b == b;
    } else {
      FlatMapConcat(f, a[1..], b);
      assert (a + b)[1..] == a[1..] + b && (a + b)[0] == a[0];
    }
  }

  lemma {:induction false} ReachedFromIsFlatMap(s: Store, f: string -> seq<string>, paths: seq<string>)
    requires AllFinite(s, paths) && forall p :: s.Finite(p) ==> f(p) == Reached(s, p)
    ensures ReachedFrom(s, paths) == FlatMap(f, paths)
  {
    if paths != [] {
      ReachedFromIsFlatMap(s, f, paths[1..]);
    }
  }

  lemma ReachedFromConcat(s: Store, a: seq<string>, b: seq<string>)
    requires AllFinite(s, a) && AllFinite(s, b)
    ensures ReachedFrom(s, a + b) == ReachedFrom(s, a) + ReachedFrom(s, b)
  {
    ghost var f := p => if s.Finite(p) then Reached(s, p) else [];
    ReachedFromIsFlatMap(s, f, a + b);
    ReachedFromIsFlatMap(s, f, a);
    ReachedFromIsFlatMap(s, f, b);
    FlatMapConcat(f, a, b);
  }

  function LoadedOnly(s: Store, paths: seq<string>): seq<string> {
    if paths == [] then []
    else (if s.Loaded(paths[0]) then [paths[0]] else []) + LoadedOnly(s, paths[1..])
  }

  lemma {:induction false} LoadedOnlyConcat(s: Store, a: seq<string>, b: seq<string>)
    ensures LoadedOnly(s, a + b) == LoadedOnly(s, a) + LoadedOnly(s, b)
  {
    if a == [] {
      assert a + b == b;
    } else {
      LoadedOnlyConcat(s, a[1..], b);
      assert (a + b)[1..] == a[1..] + b;
    }
  }

  lemma {:induction false} OpenPathsSnoc(s: Store, entries: seq<Entry>, e: Entry)
    ensures OpenPaths(s, entries + [e]) == OpenPaths(s, entries) + if s.Opens(e) then [e.path] else []
  {
    if entries == [] {
      assert entries + [e] == [e] && [e][1..] == [];
    } else {
      OpenPathsSnoc(s, entries[1..], e);
      assert (entries + [e])[1..] == entries[1..] + [e];
    }
  }

  /** What is still to be collected when the queue stands as given. */
  ghost function Outstanding(s: Store, queue: seq<string>): multiset<string>
    requires AllFinite(s, queue)
  {
    multiset(LoadedOnly(s, ReachedFrom(s, queue)))
  }

  /** The queue once its head has been served: the head's open children join at the back. */
  function Next(s: Store, queue: seq<string>): seq<string>
    requires queue != []
  {
    queue[1..] + OpenPaths(s, s.Listing(queue[0]))
  }

  /** Serving the head of the queue: its open children join at the back, the path itself is
      collected if it is loaded, and less is left to reach. */
  lemma ServeHead(s: Store, queue: seq<string>)
    requires AllFinite(s, queue) && queue != []
    ensures var next := Next(s, queue);
      && AllFinite(s, next) && |ReachedFrom(s, next)| < |ReachedFrom(s, queue)|
      && Outstanding(s, queue) == (if s.Loaded(queue[0]) then multiset{queue[0]} else multiset{}) + Outstanding(s, next)
  {
    var path, tail := queue[0], queue[1..];
    var added := OpenPaths(s, s.Listing(path));
    ReachedNext(s, queue);
    var below, beside := ReachedFrom(s, added), ReachedFrom(s, tail);
    LoadedOnlyConcat(s, [path] + below, beside);
    LoadedOnlyConcat(s, [path], below);
    LoadedOnlyConcat(s, beside, below);
    assert LoadedOnly(s, [path]) == if s.Loaded(path) then [path] else [];
  }

  lemma ReachedNext(s: Store, queue: seq<string>)
    requires AllFinite(s, queue) && queue != []
    ensures var path, tail := queue[0], queue[1..];
      var added := OpenPaths(s, s.Listing(path));
      && AllFinite(s, tail) && AllFinite(s, added) && AllFinite(s, Next(s, queue))
      && ReachedFrom(s, queue) == ([path] + ReachedFrom(s, added)) + ReachedFrom(s, tail)
      && ReachedFrom(s, Next(s, queue)) == ReachedFrom(s, tail) + ReachedFrom(s, added)
  {
    BoundOfOpenPaths(s, queue[0], s.Listing(queue[0]));
    ReachedFromConcat(s, queue[1..], OpenPaths(s, s.Listing(queue[0])));
  }

  /** The inner loop: the open ones among a directory's entries join the queue in order. */
  method EnqueueOpen(s: Store, queue: seq<string>, entries: seq<Entry>) returns (queue': seq<string>)
    ensures queue' == queue + OpenPaths(s, entries)
  {
    queue' := queue;
    for i := 0 to |entries|
      invariant queue' == queue + OpenPaths(s, entries[..i])
    {
      OpenPathsSnoc(s, entries[..i], entries[i]);
      assert entries[..i + 1] == entries[..i] + [entries[i]];
      if s.Opens(entries[i]) {
        queue' := queue' + [entries[i].path];
      }
    }
    assert entries[..|entries|] == entries;
  }

  /** The outer loop's body: the head of the queue is collected if it is loaded, and nothing
      else is lost or gained. */
  method ServeOne(s: Store, paths: seq<string>, queue: seq<string>) returns (paths': seq<string>, queue': seq<string>)
    requires AllFinite(s, queue) && queue != []
    ensures queue' == Next(s, queue) && AllFinite(s, queue') && |ReachedFrom(s, queue')| < |ReachedFrom(s, queue)|
    ensures multiset(paths') + Outstanding(s, queue') == multiset(paths) + Outstanding(s, queue)
  {
    var path, listing := queue[0], s.Listing(queue[0]);
    ServeHead(s, queue);
    paths', queue' := paths, queue[1..];
    if s.Loaded(path) {
      paths' := paths' + [path];
      queue' := EnqueueOpen(s, queue', listing);
    } else {
      assert queue[1..] + OpenPaths(s, listing) == queue';
    }
  }

  /** The paths of the rows that are expanded, loaded directories, top to bottom. */
  function RefreshablePaths(rows: seq<Row>): seq<string> {
    if rows == [] then []
    else (if IsRefreshable(rows[0]) then [rows[0].entry.path] else []) + RefreshablePaths(rows[1..])
  }

  predicate IsRefreshable(r: Row) { IsDirectoryLike(r.entry) && r.isExpanded && r.childrenLoaded }

  lemma {:induction false} RefreshablePathsConcat(a: seq<Row>, b: seq<Row>)
    ensures RefreshablePaths(a + b) == RefreshablePaths(a) + RefreshablePaths(b)
  {
    if a == [] {
      assert a + b == b;
    } else {
      RefreshablePathsConcat(a[1..], b);
      assert (a + b)[1..] == a[1..] + b && (a + b)[0] == a[0];
      var first := if IsRefreshable(a[0]) then [a[0].entry.path] else [];
      assert first + (RefreshablePaths(a[1..]) + RefreshablePaths(b)) ==
        (first + RefreshablePaths(a[1..])) + RefreshablePaths(b);
    }
  }

  /** The depth-first rows name exactly the loaded directories reached through open ones. */
  lemma {:induction false} RowsNameReached(s: Store, entries: seq<Entry>, depth: nat, parentPath: string)
    requires s.Finite(parentPath) && forall e :: e in entries ==> e in s.Listing(parentPath)
    ensures AllFinite(s, OpenPaths(s, entries))
    ensures RefreshablePaths(FlattenRows(s, entries, depth, parentPath)) ==
      LoadedOnly(s, ReachedFrom(s, OpenPaths(s, entries)))
    decreases s.Room(parentPath), |entries|
  {
    BoundOfOpenPaths(s, parentPath, entries);
    if entries != [] {
      var e, rest := entries[0], entries[1..];
      RowsNameReached(s, rest, depth, parentPath);
      RefreshablePathsConcat(FlattenEntry(s, e, depth, parentPath), FlattenRows(s, rest, depth, parentPath));
      if s.Opens(e) {
        ChildHasLessRoom(s, parentPath, e);
        RowsNameReached(s, s.Listing(e.path), depth + 1, e.path);
        RefreshablePathsConcat([RowOf(s, e, depth, parentPath)], FlattenRows(s, s.Listing(e.path), depth + 1, e.path));
        LoadedOnlyConcat(s, [e.path], ReachedFrom(s, OpenPaths(s, s.Listing(e.path))));
        assert OpenPaths(s, entries)[1..] == OpenPaths(s, rest);
        LoadedOnlyConcat(s, Reached(s, e.path), ReachedFrom(s, OpenPaths(s, rest)));
      } else {
        assert OpenPaths(s, entries) == OpenPaths(s, rest);
      }
    }
  }

  /** The two walks agree: what the queue has to collect is the root, if loaded, and the rows
      below it that are expanded, loaded directories, each as often as it is shown. */
  lemma WalksAgree(s: Store, rootPath: string)
    requires s.Finite(rootPath)
    ensures Outstanding(s, [rootPath]) ==
      multiset((if s.Loaded(rootPath) then [rootPath] else []) + RefreshablePaths(RowsBelow(s, rootPath)))
  {
    var added := OpenPaths(s, s.Listing(rootPath));
    ServeHead(s, [rootPath]);
    BoundOfOpenPaths(s, rootPath, s.Listing(rootPath));
    assert [rootPath][1..] + added == added;
    RowsNameReached(s, s.Listing(rootPath), 0, rootPath);
  }

  /** The queue loop. Where it can end, it does, and collects what the visible rows name. */
  method CollectExpandedSubtreePaths(s: Store, rootPath: string) returns (paths: seq<string>)
    requires s.Finite(rootPath)
    ensures multiset(paths) ==
      multiset((if s.Loaded(rootPath) then [rootPath] else []) + RefreshablePaths(RowsBelow(s, rootPath)))
  {
    paths := [];
    var queue := [rootPath];
    WalksAgree(s, rootPath);
    ghost var total := Outstanding(s, queue);
    while queue != []
      invariant AllFinite(s, queue) && multiset(paths) + Outstanding(s, queue) == total
      decreases |ReachedFrom(s, queue)|
    {
      paths, queue := ServeOne(s, paths, queue);
    }
    assert Outstanding(s, []) == multiset{};
  }

  // ---------------------------------------------------------------------------------------
  // When the walks end

  /** The queue after `n` more turns of the loop, or once it is empty. */
  function After(s: Store, queue: seq<string>, n: nat): seq<string>
    decreases n
  {
    if n == 0 || queue == [] then queue else After(s, Next(s, queue), n - 1)
  }

  ghost predicate LoopEnds(s: Store, rootPath: string) { exists n :: After(s, [rootPath], n) == [] }

  /** A way down from its first path through open, listed directories. */
  predicate IsWay(s: Store, way: seq<string>) {
    way != [] && forall i {:trigger way[i]} :: 0 < i < |way| ==> way[i] in OpenPaths(s, s.Listing(way[i - 1]))
  }

  ghost predicate ComesBack(s: Store, way: seq<string>) {
    IsWay(s, way) && exists i, j :: 0 <= i < j < |way| && way[i] == way[j]
  }

  ghost predicate HasCycle(s: Store, rootPath: string) { exists way :: ComesBack(s, way) && way[0] == rootPath }

  lemma {:induction false} OpenPathsOf(s: Store, entries: seq<Entry>, path: string)
    ensures path in OpenPaths(s, entries) <==> exists e :: e in entries && s.Opens(e) && e.path == path
  {
    if entries != [] {
      OpenPathsOf(s, entries[1..], path);
      assert forall e :: e in entries <==> e == entries[0] || e in entries[1..];
    }
  }

  /** If all of some entries' ways down end, they end within a common bound. */
  lemma {:induction false} CommonBound(s: Store, entries: seq<Entry>) returns (n: nat)
    requires forall e :: e in entries && s.Opens(e) ==> s.Finite(e.path)
    ensures forall e :: e in entries && s.Opens(e) ==> s.EndsWithin(e.path, n)
  {
    n := 0;
    if entries != [] {
      var e := entries[0];
      var rest := CommonBound(s, entries[1..]);
      n := rest;
      if s.Opens(e) {
        assert e in entries;
        var own := s.Room(e.path);
        n := if own < rest then rest else own;
        EndsWithinMore(s, e.path, own, n);
      }
      forall e' | e' in entries[1..] && s.Opens(e')
        ensures s.EndsWithin(e'.path, n)
      {
        EndsWithinMore(s, e'.path, rest, n);
      }
    }
  }

  lemma FiniteByChildren(s: Store, path: string)
    requires AllFinite(s, OpenPaths(s, s.Listing(path)))
    ensures s.Finite(path)
  {
    forall e | e in s.Listing(path) && s.Opens(e)
      ensures s.Finite(e.path)
    {
      OpenPathsOf(s, s.Listing(path), e.path);
    }
    var n := CommonBound(s, s.Listing(path));
    assert s.EndsWithin(path, n + 1);
  }

  lemma {:induction false} EndedIsFinite(s: Store, queue: seq<string>, n: nat)
    requires After(s, queue, n) == []
    ensures AllFinite(s, queue)
    decreases n
  {
    if queue != [] {
      EndedIsFinite(s, Next(s, queue), n - 1);
      assert forall p :: p in OpenPaths(s, s.Listing(queue[0])) ==> p in Next(s, queue);
      FiniteByChildren(s, queue[0]);
      assert forall p :: p in queue ==> p == queue[0] || p in queue[1..];
    }
  }

  lemma {:induction false} FiniteEnds(s: Store, queue: seq<string>, n: nat)
    requires AllFinite(s, queue) && |ReachedFrom(s, queue)| <= n
    ensures After(s, queue, n) == []
    decreases n
  {
    if queue != [] {
      ServeHead(s, queue);
      FiniteEnds(s, Next(s, queue), n - 1);
    }
  }

  /** Down a way, ever less room is left. */
  lemma {:induction false} RoomShrinks(s: Store, way: seq<string>, i: nat, j: nat)
    requires IsWay(s, way) && i < |way| && j < |way| && i <= j && s.Finite(way[i])
    ensures s.Finite(way[j]) && s.Room(way[j]) <= s.Room(way[i]) - (j - i)
    decreases j - i
  {
    if i < j {
      RoomShrinks(s, way, i, j - 1);
      var above := way[j - 1];
      OpenPathsOf(s, s.Listing(above), way[j]);
      var e :| e in s.Listing(above) && s.Opens(e) && e.path == way[j];
      ChildHasLessRoom(s, above, e);
    }
  }

  /** From where ways down do not end, there is a way down of any length. */
  lemma {:induction false} EndlessWay(s: Store, path: string, n: nat) returns (way: seq<string>)
    requires !s.Finite(path)
    ensures IsWay(s, way) && way[0] == path && |way| == n + 1 && !s.Finite(way[n])
  {
    if n == 0 { return [path]; }
    var shorter := EndlessWay(s, path, n - 1);
    var last := shorter[n - 1];
    if AllFinite(s, OpenPaths(s, s.Listing(last))) {
      FiniteByChildren(s, last);
      assert false;
    }
    var next :| next in OpenPaths(s, s.Listing(last)) && !s.Finite(next);
    way := shorter + [next];
  }

  /** More places than things to put in them: something is there twice. */
  lemma {:induction false} Pigeonhole(places: seq<string>, things: set<string>)
    requires (forall p :: p in places ==> p in things) && |places| > |things|
    ensures exists i, j :: 0 <= i < j < |places| && places[i] == places[j]
  {
    var n := |places| - 1;
    var first := places[..n];
    if places[n] in first {
      var i :| 0 <= i < n && first[i] == places[n];
      assert places[i] == places[n];
    } else {
      Pigeonhole(first, things - {places[n]});
      var i, j :| 0 <= i < j < n && first[i] == first[j];
      assert places[i] == places[j];
    }
  }

  /** The ways down from a path all end exactly when none of them comes back to where it was. */
  lemma FiniteIffNoCycle(s: Store, rootPath: string)
    ensures s.Finite(rootPath) <==> !HasCycle(s, rootPath)
  {
    if s.Finite(rootPath) {
      if HasCycle(s, rootPath) {
        var way :| ComesBack(s, way) && way[0] == rootPath;
        var i, j :| 0 <= i < j < |way| && way[i] == way[j];
        RoomShrinks(s, way, 0, i);
        RoomShrinks(s, way, i, j);
        assert false;
      }
    } else {
      var n := |s.directories.Keys| + 1;
      var way := EndlessWay(s, rootPath, n);
      forall i | 0 <= i < n
        ensures way[i] in s.directories.Keys
      {
        assert way[i + 1] in OpenPaths(s, s.Listing(way[i]));
      }
      Pigeonhole(way[..n], s.directories.Keys);
      var i, j :| 0 <= i < j < n && way[..n][i] == way[..n][j];
      assert way[i] == way[j];
      assert ComesBack(s, way);
    }
  }

  /** The queue loop ends exactly when no way down from the root through open, loaded
      directories comes back to one it has been through. */
  lemma LoopEndsIffNoCycle(s: Store, rootPath: string)
    ensures LoopEnds(s, rootPath) <==> !HasCycle(s, rootPath)
  {
    FiniteIffNoCycle(s, rootPath);
    if s.Finite(rootPath) {
      FiniteEnds(s, [rootPath], |ReachedFrom(s, [rootPath])|);
    }
    if LoopEnds(s, rootPath) {
      var n: nat :| After(s, [rootPath], n) == [];
      EndedIsFinite(s, [rootPath], n);
    }
  }

  /** A directory that lists itself, open: the loop goes on for ever. */
  lemma SelfListedNeverEnds(path: string) returns (s: Store)
    ensures s == Store(map[path := Some([Entry(path, Directory, None, None)])], map[path := true])
    ensures !LoopEnds(s, path)
  {
    var e := Entry(path, Directory, None, None);
    s := Store(map[path := Some([e])], map[path := true]);
    OpenPathsOf(s, [e], path);
    var way := [path, path];
    assert s.Opens(e) && IsWay(s, way);
    assert way[0] == way[1] && ComesBack(s, way);
    LoopEndsIffNoCycle(s, path);
  }

  /** Every listed child has a longer path than its directory, as one that extends it does. */
  predicate ChildrenAreLonger(s: Store) {
    forall path, e :: path in s.directories && e in s.Listing(path) ==> |path| < |e.path|
  }

  lemma {:induction false} WaysGetLonger(s: Store, way: seq<string>, i: nat, j: nat)
    requires ChildrenAreLonger(s) && IsWay(s, way) && i <= j < |way|
    ensures |way[i]| + (j - i) <= |way[j]|
    decreases j - i
  {
    if i < j {
      WaysGetLonger(s, way, i, j - 1);
      OpenPathsOf(s, s.Listing(way[j - 1]), way[j]);
    }
  }

  /** Then there are no cycles. */
  lemma LongerChildrenEnd(s: Store, rootPath: string)
    requires ChildrenAreLonger(s)
    ensures s.Finite(rootPath) && LoopEnds(s, rootPath)
  {
    if HasCycle(s, rootPath) {
      var way :| ComesBack(s, way) && way[0] == rootPath;
      var i, j :| 0 <= i < j < |way| && way[i] == way[j];
      WaysGetLonger(s, way, i, j);
      assert false;
    }
    FiniteIffNoCycle(s, rootPath);
    LoopEndsIffNoCycle(s, rootPath);
  }

  // ---------------------------------------------------------------------------------------
  // The shape of the rows

  /** Row `j` is the nearest row before `k` one level up, and the one `k` names as its parent. */
  predicate IsParent(rows: seq<Row>, j: nat, k: nat) {
    j < k < |rows| && rows[j].depth + 1 == rows[k].depth && rows[j].entry.path == rows[k].parentPath
    && forall i :: j < i < k ==> rows[i].depth >= rows[k].depth
  }

  ghost predicate HasParent(rows: seq<Row>, k: nat) { exists j :: IsParent(rows, j, k) }

  ghost predicate WellShaped(rows: seq<Row>, depth: nat, parentPath: string) {
    && (forall k :: 0 <= k < |rows| ==> rows[k].depth >= depth)
    && (rows != [] ==> rows[0].depth == depth)
    && (forall k :: 0 <= k < |rows| && rows[k].depth == depth ==> rows[k].parentPath == parentPath)
    && (forall k: nat {:trigger HasParent(rows, k)} :: k < |rows| && rows[k].depth > depth ==> HasParent(rows, k))
  }

  lemma ParentInConcat(a: seq<Row>, b: seq<Row>, j: nat, k: nat)
    ensures IsParent(a, j, k) ==> IsParent(a + b, j, k)
    ensures IsParent(b, j, k) ==> IsParent(a + b, |a| + j, |a| + k)
  {
    assert forall i :: 0 <= i < |b| ==> (a + b)[|a| + i] == b[i];
  }

  lemma HasParentConcat(a: seq<Row>, b: seq<Row>, k: nat)
    ensures HasParent(a, k) ==> HasParent(a + b, k)
    ensures HasParent(b, k) ==> HasParent(a + b, |a| + k)
  {
    if HasParent(a, k) {
      var j: nat :| IsParent(a, j, k);
      ParentInConcat(a, b, j, k);
    }
    if HasParent(b, k) {
      var j: nat :| IsParent(b, j, k);
      ParentInConcat(a, b, j, k);
    }
  }

  lemma WellShapedConcat(a: seq<Row>, b: seq<Row>, depth: nat, parentPath: string)
    requires WellShaped(a, depth, parentPath) && WellShaped(b, depth, parentPath)
    ensures WellShaped(a + b, depth, parentPath)
  {
    forall k: nat | k < |a + b| && (a + b)[k].depth > depth
      ensures HasParent(a + b, k)
    {
      if k < |a| {
        HasParentConcat(a, b, k);
      } else {
        HasParentConcat(a, b, k - |a|);
      }
    }
  }

  lemma ParentIsHead(row: Row, rows: seq<Row>, k: nat)
    requires k < |rows| && rows[k].depth == row.depth + 1 && rows[k].parentPath == row.entry.path
    requires forall i :: 0 <= i < |rows| ==> rows[i].depth > row.depth
    ensures HasParent([row] + rows, k + 1)
  {
    assert IsParent([row] + rows, 0, k + 1);
  }

  lemma WellShapedUnder(row: Row, rows: seq<Row>)
    requires WellShaped(rows, row.depth + 1, row.entry.path)
    ensures WellShaped([row] + rows, row.depth, row.parentPath)
  {
    var all := [row] + rows;
    forall k: nat | k < |all| && all[k].depth > row.depth
      ensures HasParent(all, k)
    {
      assert all[k] == rows[k - 1];
      if rows[k - 1].depth == row.depth + 1 {
        ParentIsHead(row, rows, k - 1);
      } else {
        HasParentConcat([row], rows, k - 1);
      }
    }
  }

  /** The entries of the rows at a depth, in order. */
  function AtDepth(rows: seq<Row>, depth: nat): seq<Entry> {
    if rows == [] then []
    else (if rows[0].depth == depth then [rows[0].entry] else []) + AtDepth(rows[1..], depth)
  }

  lemma {:induction false} AtDepthConcat(a: seq<Row>, b: seq<Row>, depth: nat)
    ensures AtDepth(a + b, depth) == AtDepth(a, depth) + AtDepth(b, depth)
  {
    if a == [] {
      assert a + b == b;
    } else {
      AtDepthConcat(a[1..], b, depth);
      assert (a + b)[1..] == a[1..] + b && (a + b)[0] == a[0];
      var first := if a[0].depth == depth then [a[0].entry] else [];
      assert first + (AtDepth(a[1..], depth) + AtDepth(b, depth)) ==
        (first + AtDepth(a[1..], depth)) + AtDepth(b, depth);
    }
  }

  lemma {:induction false} NoneAtDepth(rows: seq<Row>, depth: nat)
    requires forall k :: 0 <= k < |rows| ==> rows[k].depth > depth
    ensures AtDepth(rows, depth) == []
  {
    if rows != [] {
      NoneAtDepth(rows[1..], depth);
    }
  }

  /** The outermost rows are the entries, in order. */
  lemma {:induction false} OutermostRows(s: Store, entries: seq<Entry>, depth: nat, parentPath: string)
    requires s.Finite(parentPath) && forall e :: e in entries ==> e in s.Listing(parentPath)
    ensures AtDepth(FlattenRows(s, entries, depth, parentPath), depth) == entries
    decreases |entries|
  {
    if entries != [] {
      var e, rest := entries[0], entries[1..];
      OutermostRows(s, rest, depth, parentPath);
      AtDepthConcat(FlattenEntry(s, e, depth, parentPath), FlattenRows(s, rest, depth, parentPath), depth);
      EntryOutermost(s, e, depth, parentPath);
      assert [e] + rest == entries;
    }
  }

  lemma EntryOutermost(s: Store, e: Entry, depth: nat, parentPath: string)
    requires s.Finite(parentPath) && e in s.Listing(parentPath)
    ensures AtDepth(FlattenEntry(s, e, depth, parentPath), depth) == [e]
  {
    var rows, row := FlattenEntry(s, e, depth, parentPath), RowOf(s, e, depth, parentPath);
    if s.Opens(e) {
      ChildHasLessRoom(s, parentPath, e);
      RowDepths(s, s.Listing(e.path), depth + 1, e.path);
    }
    NoneAtDepth(rows[1..], depth);
    assert rows[0] == row;
  }

  /** What an entry's row promises about the rows below it. Nothing that is neither a directory
      nor a link to one, and nothing collapsed, has any; an open directory has its listing; one
      whose listing is known shows the right count, and is marked as having children exactly
      when opening it shows rows. */
  lemma RowTellsWhatIsBelow(s: Store, e: Entry, depth: nat, parentPath: string)
    requires s.Finite(parentPath) && e in s.Listing(parentPath)
    ensures var rows, row := FlattenEntry(s, e, depth, parentPath), RowOf(s, e, depth, parentPath);
      var directory := e.kind == Directory || (e.kind == Symlink && e.targetKind == Some(Directory));
      && rows[0] == row && row.entry == e && row.depth == depth && row.parentPath == parentPath
      && (row.isExpanded <==> e.path in s.expanded && s.expanded[e.path])
      && (row.childrenLoaded <==> e.path in s.directories && s.directories[e.path].Some?)
      && (directory && row.isExpanded && row.childrenLoaded ==>
            && AtDepth(rows[1..], depth + 1) == s.directories[e.path].value
            && (row.hasChildren <==> |rows| > 1)
            && (e.itemCount.None? ==> row.itemCount == Some(|AtDepth(rows[1..], depth + 1)|)))
      && (!(directory && row.isExpanded && row.childrenLoaded) ==> rows == [row])
      && (directory && !row.childrenLoaded ==> row.hasChildren)
      && (!directory ==> !row.hasChildren && row.itemCount == e.itemCount)
      && (e.itemCount.Some? ==> row.itemCount == e.itemCount)
  {
    var rows := FlattenEntry(s, e, depth, parentPath);
    if s.Opens(e) {
      ChildHasLessRoom(s, parentPath, e);
      var listing := s.Listing(e.path);
      OutermostRows(s, listing, depth + 1, e.path);
      assert rows[1..] == FlattenRows(s, listing, depth + 1, e.path);
    }
  }

  /** Every nested row names as its parent the nearest earlier row one level up; rows at the
      outermost level name the directory they are listed for. */
  lemma {:induction false} RowsWellShaped(s: Store, entries: seq<Entry>, depth: nat, parentPath: string)
    requires s.Finite(parentPath) && forall e :: e in entries ==> e in s.Listing(parentPath)
    ensures WellShaped(FlattenRows(s, entries, depth, parentPath), depth, parentPath)
    decreases s.Room(parentPath), |entries|
  {
    if entries != [] {
      EntryWellShaped(s, entries[0], depth, parentPath);
      RowsWellShaped(s, entries[1..], depth, parentPath);
      WellShapedConcat(FlattenEntry(s, entries[0], depth, parentPath),
                       FlattenRows(s, entries[1..], depth, parentPath), depth, parentPath);
    }
  }

  lemma {:induction false} EntryWellShaped(s: Store, e: Entry, depth: nat, parentPath: string)
    requires s.Finite(parentPath) && e in s.Listing(parentPath)
    ensures WellShaped(FlattenEntry(s, e, depth, parentPath), depth, parentPath)
    decreases s.Room(parentPath), 0
  {
    if s.Opens(e) {
      ChildHasLessRoom(s, parentPath, e);
      RowsWellShaped(s, s.Listing(e.path), depth + 1, e.path);
      WellShapedUnder(RowOf(s, e, depth, parentPath), FlattenRows(s, s.Listing(e.path), depth + 1, e.path));
    }
  }

  lemma RowDepths(s: Store, entries: seq<Entry>, depth: nat, parentPath: string)
    requires s.Finite(parentPath) && forall e :: e in entries ==> e in s.Listing(parentPath)
    ensures var rows := FlattenRows(s, entries, depth, parentPath);
      (rows != [] ==> rows[0].depth == depth) && forall k :: 0 <= k < |rows| ==> rows[k].depth >= depth
  {
    RowsWellShaped(s, entries, depth, parentPath);
  }

  // ---------------------------------------------------------------------------------------
  // Collapsing a folder

  /** The first row after `i` that is not deeper than row `i`. */
  function BlockEnd(rows: seq<Row>, i: nat, j: nat): (end: nat)
    requires i < j <= |rows|
    ensures j <= end <= |rows|
    decreases |rows| - j
  {
    if j == |rows| || rows[j].depth <= rows[i].depth then j else BlockEnd(rows, i, j + 1)
  }

  /** Everything up to there is deeper, and what is there is not. */
  lemma {:induction false} BlockIsDeeper(rows: seq<Row>, i: nat, j: nat)
    requires i < j <= |rows|
    ensures var end := BlockEnd(rows, i, j);
      (forall k :: j <= k < end ==> rows[k].depth > rows[i].depth)
        && (end < |rows| ==> rows[end].depth <= rows[i].depth)
    decreases |rows| - j
  {
    if j < |rows| && rows[j].depth > rows[i].depth {
      BlockIsDeeper(rows, i, j + 1);
    }
  }

  lemma {:induction false} BlockEndBefore(a: seq<Row>, b: seq<Row>, i: nat, j: nat)
    requires i < j <= |a| && (b != [] ==> b[0].depth <= a[i].depth)
    ensures BlockEnd(a + b, i, j) == BlockEnd(a, i, j)
    decreases |a| - j
  {
    if j < |a| {
      BlockEndBefore(a, b, i, j + 1);
    }
  }

  lemma {:induction false} BlockEndAfter(a: seq<Row>, b: seq<Row>, i: nat, j: nat)
    requires i < j <= |b|
    ensures BlockEnd(a + b, |a| + i, |a| + j) == |a| + BlockEnd(b, i, j)
    decreases |b| - j
  {
    if j < |b| {
      BlockEndAfter(a, b, i, j + 1);
    }
  }

  /** The rows with row `i` marked collapsed and the deeper rows right after it gone. */
  function Collapsed(rows: seq<Row>, i: nat): seq<Row>
    requires i < |rows|
  {
    rows[..i] + [rows[i].(isExpanded := false)] + rows[BlockEnd(rows, i, i + 1)..]
  }

  predicate OccursOnlyAt(rows: seq<Row>, path: string, i: nat) {
    i < |rows| && rows[i].entry.path == path && forall k :: 0 <= k < |rows| && rows[k].entry.path == path ==> k == i
  }

  ghost predicate Occurs(rows: seq<Row>, path: string) { exists k :: 0 <= k < |rows| && rows[k].entry.path == path }

  lemma CollapsedBefore(a: seq<Row>, b: seq<Row>, i: nat)
    requires i < |a| && (b != [] ==> b[0].depth <= a[i].depth)
    ensures Collapsed(a + b, i) == Collapsed(a, i) + b
  {
    BlockEndBefore(a, b, i, i + 1);
    var e := BlockEnd(a, i, i + 1);
    assert (a + b)[e..] == a[e..] + b && (a + b)[..i] == a[..i] && (a + b)[i] == a[i];
    assert Collapsed(a + b, i) == a[..i] + [a[i].(isExpanded := false)] + (a[e..] + b);
  }

  lemma ConcatSlices(a: seq<Row>, b: seq<Row>, k: nat)
    requires k <= |b|
    ensures (a + b)[..|a| + k] == a + b[..k] && (a + b)[|a| + k..] == b[k..]
  {
  }

  lemma CollapsedAfter(a: seq<Row>, b: seq<Row>, i: nat)
    requires i < |b|
    ensures Collapsed(a + b, |a| + i) == a + Collapsed(b, i)
  {
    BlockEndAfter(a, b, i, i + 1);
    var e := BlockEnd(b, i, i + 1);
    ConcatSlices(a, b, i);
    ConcatSlices(a, b, e);
    assert (a + b)[|a| + i] == b[i];
    assert Collapsed(a + b, |a| + i) == (a + b[..i]) + [b[i].(isExpanded := false)] + b[e..];
  }

  lemma OccursConcat(a: seq<Row>, b: seq<Row>, path: string)
    ensures Occurs(a + b, path) <==> Occurs(a, path) || Occurs(b, path)
  {
    assert forall k :: 0 <= k < |a| ==> (a + b)[k] == a[k];
    assert forall k :: 0 <= k < |b| ==> (a + b)[|a| + k] == b[k];
  }

  /** Of two runs of rows, a path shown once is shown in one and not in the other. */
  lemma OnlyAtConcat(a: seq<Row>, b: seq<Row>, path: string, i: nat)
    requires OccursOnlyAt(a + b, path, i)
    ensures i < |a| ==> OccursOnlyAt(a, path, i) && !Occurs(b, path)
    ensures i >= |a| ==> OccursOnlyAt(b, path, i - |a|) && !Occurs(a, path)
  {
    assert forall k :: 0 <= k < |a| ==> (a + b)[k] == a[k];
    assert forall k :: 0 <= k < |b| ==> (a + b)[|a| + k] == b[k];
  }

  /** Collapsing a path that is not shown changes no row. */
  lemma {:induction false} CollapseOfHidden(s: Store, path: string, entries: seq<Entry>, depth: nat, parentPath: string)
    requires s.Finite(parentPath) && forall e :: e in entries ==> e in s.Listing(parentPath)
    requires !Occurs(FlattenRows(s, entries, depth, parentPath), path)
    ensures FlattenRows(s.Collapse(path), entries, depth, parentPath) == FlattenRows(s, entries, depth, parentPath)
    decreases s.Room(parentPath), |entries|
  {
    if entries != [] {
      var e := entries[0];
      var row := RowOf(s, e, depth, parentPath);
      OccursConcat(FlattenEntry(s, e, depth, parentPath), FlattenRows(s, entries[1..], depth, parentPath), path);
      CollapseOfHidden(s, path, entries[1..], depth, parentPath);
      assert FlattenEntry(s, e, depth, parentPath)[0] == row;
      assert e.path != path;
      if s.Opens(e) {
        ChildHasLessRoom(s, parentPath, e);
        OccursConcat([row], FlattenRows(s, s.Listing(e.path), depth + 1, e.path), path);
        CollapseOfHidden(s, path, s.Listing(e.path), depth + 1, e.path);
      }
    }
  }

  /** Collapsing a folder shown once marks its row and removes exactly the deeper rows right
      after it; every other row, and the folder's own index, stay. */
  lemma {:induction false} CollapseRemovesBlock(s: Store, path: string, entries: seq<Entry>, depth: nat,
      parentPath: string, i: nat)
    requires s.Finite(parentPath) && forall e :: e in entries ==> e in s.Listing(parentPath)
    requires OccursOnlyAt(FlattenRows(s, entries, depth, parentPath), path, i)
    ensures FlattenRows(s.Collapse(path), entries, depth, parentPath) ==
      Collapsed(FlattenRows(s, entries, depth, parentPath), i)
    decreases s.Room(parentPath), |entries|, 1
  {
    var e := entries[0];
    var a, b := FlattenEntry(s, e, depth, parentPath), FlattenRows(s, entries[1..], depth, parentPath);
    OnlyAtConcat(a, b, path, i);
    if i < |a| {
      CollapseOfHidden(s, path, entries[1..], depth, parentPath);
      CollapseEntry(s, path, e, depth, parentPath, i);
      RowDepths(s, entries[1..], depth, parentPath);
      RowDepths(s, entries, depth, parentPath);
      assert a[i] == (a + b)[i];
      CollapsedBefore(a, b, i);
    } else {
      assert e in entries && FlattenRows(s, [e], depth, parentPath) == a by {
        assert [e][1..] == [];
      }
      CollapseOfHidden(s, path, [e], depth, parentPath);
      assert FlattenRows(s.Collapse(path), [e], depth, parentPath) ==
        FlattenEntry(s.Collapse(path), e, depth, parentPath);
      CollapseRemovesBlock(s, path, entries[1..], depth, parentPath, i - |a|);
      CollapsedAfter(a, b, i - |a|);
    }
  }

  lemma {:induction false} CollapseEntry(s: Store, path: string, e: Entry, depth: nat, parentPath: string, i: nat)
    requires s.Finite(parentPath) && e in s.Listing(parentPath)
    requires OccursOnlyAt(FlattenEntry(s, e, depth, parentPath), path, i)
    ensures FlattenEntry(s.Collapse(path), e, depth, parentPath) == Collapsed(FlattenEntry(s, e, depth, parentPath), i)
    decreases s.Room(parentPath), 0, 1
  {
    if i == 0 {
      CollapseFolder(s, path, e, depth, parentPath);
    } else {
      HiddenBelow(s, path, e, depth, parentPath, i);
      CollapseDeeper(s, path, e, depth, parentPath, i - 1);
    }
  }

  lemma {:induction false} CollapseDeeper(s: Store, path: string, e: Entry, depth: nat, parentPath: string, i: nat)
    requires s.Finite(parentPath) && e in s.Listing(parentPath) && s.Opens(e) && s.Finite(e.path) && e.path != path
    requires OccursOnlyAt(FlattenRows(s, s.Listing(e.path), depth + 1, e.path), path, i)
    ensures FlattenEntry(s.Collapse(path), e, depth, parentPath) ==
      Collapsed(FlattenEntry(s, e, depth, parentPath), i + 1)
    decreases s.Room(parentPath), 0, 0
  {
    var below := FlattenRows(s, s.Listing(e.path), depth + 1, e.path);
    ChildHasLessRoom(s, parentPath, e);
    CollapseRemovesBlock(s, path, s.Listing(e.path), depth + 1, e.path, i);
    CollapseLeaves(s, path, e, depth, parentPath);
    CollapseWithin(s, s.Collapse(path), e, depth, parentPath, below, Collapsed(below, i), i);
  }

  /** What one store lacks below an open entry it lacks among the entry's rows. */
  lemma CollapseWithin(s: Store, s': Store, e: Entry, depth: nat, parentPath: string, below: seq<Row>,
      below': seq<Row>, i: nat)
    requires s.Finite(parentPath) && e in s.Listing(parentPath) && s.Opens(e) && s.Finite(e.path)
    requires s'.Finite(parentPath) && e in s'.Listing(parentPath) && s'.Opens(e) && s'.Finite(e.path)
    requires RowOf(s', e, depth, parentPath) == RowOf(s, e, depth, parentPath)
    requires below == FlattenRows(s, s.Listing(e.path), depth + 1, e.path)
    requires below' == FlattenRows(s', s'.Listing(e.path), depth + 1, e.path)
    requires i < |below| && below' == Collapsed(below, i)
    ensures FlattenEntry(s', e, depth, parentPath) == Collapsed(FlattenEntry(s, e, depth, parentPath), i + 1)
  {
    var row := RowOf(s, e, depth, parentPath);
    assert FlattenEntry(s, e, depth, parentPath) == [row] + below;
    assert FlattenEntry(s', e, depth, parentPath) == [row] + below';
    CollapsedAfter([row], below, i);
  }

  /** A path shown once, but not by the entry's own row, is shown once below it. */
  lemma HiddenBelow(s: Store, path: string, e: Entry, depth: nat, parentPath: string, i: nat)
    requires s.Finite(parentPath) && e in s.Listing(parentPath) && i > 0
    requires OccursOnlyAt(FlattenEntry(s, e, depth, parentPath), path, i)
    ensures s.Opens(e) && s.Finite(e.path) && e.path != path
    ensures OccursOnlyAt(FlattenRows(s, s.Listing(e.path), depth + 1, e.path), path, i - 1)
  {
    var row := RowOf(s, e, depth, parentPath);
    assert FlattenEntry(s, e, depth, parentPath)[0] == row;
    ChildHasLessRoom(s, parentPath, e);
    OnlyAtConcat([row], FlattenRows(s, s.Listing(e.path), depth + 1, e.path), path, i);
  }

  lemma CollapseLeaves(s: Store, path: string, e: Entry, depth: nat, parentPath: string)
    requires e.path != path
    ensures var s' := s.Collapse(path);
      && s'.Listing(e.path) == s.Listing(e.path) && s'.Listing(parentPath) == s.Listing(parentPath)
      && (s'.Opens(e) <==> s.Opens(e)) && RowOf(s', e, depth, parentPath) == RowOf(s, e, depth, parentPath)
  {
  }

  lemma CollapseFolder(s: Store, path: string, e: Entry, depth: nat, parentPath: string)
    requires s.Finite(parentPath) && e in s.Listing(parentPath) && e.path == path
    ensures FlattenEntry(s.Collapse(path), e, depth, parentPath) == Collapsed(FlattenEntry(s, e, depth, parentPath), 0)
  {
    var row := RowOf(s, e, depth, parentPath);
    if s.Opens(e) {
      ChildHasLessRoom(s, parentPath, e);
    }
    var below := if s.Opens(e) then FlattenRows(s, s.Listing(e.path), depth + 1, e.path) else [];
    if s.Opens(e) {
      RowDepths(s, s.Listing(e.path), depth + 1, e.path);
    }
    CollapsedHead(row, below);
    assert FlattenEntry(s, e, depth, parentPath) == [row] + below;
    assert RowOf(s.Collapse(path), e, depth, parentPath) == row.(isExpanded := false);
  }

  lemma CollapsedHead(row: Row, below: seq<Row>)
    requires forall k :: 0 <= k < |below| ==> below[k].depth > row.depth
    ensures Collapsed([row] + below, 0) == [row.(isExpanded := false)]
  {
    var all := [row] + below;
    assert forall k :: 1 <= k < |all| ==> all[k] == below[k - 1];
    BlockIsDeeper(all, 0, 1);
    assert BlockEnd(all, 0, 1) == |all|;
  }

  // ---------------------------------------------------------------------------------------
  // What the overview relies on

  /** The outermost visible rows are the listing of the current directory. */
  lemma VisibleRowsShowListing(s: Store, currentPath: string)
    requires s.Finite(currentPath) && currentPath != ""
    ensures AtDepth(VisibleRows(s, Some(currentPath)), 0) == s.Listing(currentPath)
  {
    OutermostRows(s, s.Listing(currentPath), 0, currentPath);
  }

  lemma VisibleRowsWellShaped(s: Store, currentPath: string)
    requires s.Finite(currentPath)
    ensures WellShaped(VisibleRows(s, Some(currentPath)), 0, currentPath)
  {
    RowsWellShaped(s, s.Listing(currentPath), 0, currentPath);
  }

  /** Collapsing a visible folder whose path occurs once: the rows before it and its index
      stay, its own row differs only in being collapsed, and what goes is exactly the
      stretch of deeper rows after it. */
  lemma CollapseVisibleFolder(s: Store, currentPath: Option<string>, path: string, i: nat)
    requires currentPath.Some? && currentPath.value != "" ==> s.Finite(currentPath.value)
    requires OccursOnlyAt(VisibleRows(s, currentPath), path, i)
    ensures var rows, rows' := VisibleRows(s, currentPath), VisibleRows(s.Collapse(path), currentPath);
      var end := BlockEnd(rows, i, i + 1);
      && rows' == rows[..i] + [rows[i].(isExpanded := false)] + rows[end..]
      && (forall k :: i < k < end ==> rows[k].depth > rows[i].depth)
      && (end < |rows| ==> rows[end].depth <= rows[i].depth)
      && OccursOnlyAt(rows', path, i)
  {
    var rows, root := VisibleRows(s, currentPath), currentPath.value;
    CollapseRemovesBlock(s, path, s.Listing(root), 0, root, i);
    BlockIsDeeper(rows, i, i + 1);
    OnlyAtCollapsed(rows, path, i);
  }

  lemma OnlyAtCollapsed(rows: seq<Row>, path: string, i: nat)
    requires OccursOnlyAt(rows, path, i)
    ensures OccursOnlyAt(Collapsed(rows, i), path, i)
  {
    var rows', end := Collapsed(rows, i), BlockEnd(rows, i, i + 1);
    forall k | 0 <= k < |rows'| && k != i
      ensures rows'[k].entry.path != path
    {
      assert rows'[k] == if k < i then rows[k] else rows[k - i - 1 + end];
    }
  }
}
