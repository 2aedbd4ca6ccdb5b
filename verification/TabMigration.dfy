/** Moving Narrate's markdown tabs into the editor, one tab per file. */
module TabMigration {
  import opened Wrappers

  datatype Tab = Tab(
    id: string, extensionId: string, handlerId: Option<string>, lastActiveAt: int,
    pendingNavigation: Option<string>, resourceId: Option<string>, resourceKind: Option<string>,
    viewId: string, rest: nat)

  datatype FileHandler = FileHandler(id: string, view: string)

  datatype Extension = Extension(id: string, fileHandlers: seq<FileHandler>, views: set<string>)

  datatype Migration = Migration(activeTabId: Option<string>, migratedTabIds: set<string>, tabs: seq<Tab>)

  const DOCUMENT_VIEWER := "document-viewer"

  // ---------------------------------------------------------------------------------------
  // Predicates on tabs

  /** White space and line terminators, as the JavaScript `trim` takes them. */
  predicate IsSpace(c: char) {
    '\t' <= c <= '\r' || c == ' ' || c == '\U{a0}' || c == '\U{1680}' || '\U{2000}' <= c <= '\U{200a}'
    || c == '\U{2028}' || c == '\U{2029}' || c == '\U{202f}' || c == '\U{205f}' || c == '\U{3000}' || c == '\U{feff}'
  }

  function TrimStart(s: string): string {
    if s != "" && IsSpace(s[0]) then TrimStart(s[1..]) else s
  }

  function TrimEnd(s: string): string {
    if s != "" && IsSpace(s[|s| - 1]) then TrimEnd(s[..|s| - 1]) else s
  }

  function Trim(s: string): string { TrimEnd(TrimStart(s)) }

  /** Case folding, for the letters of the markdown suffixes. */
  function Fold(c: char): char {
    if 'A' <= c <= 'Z' then c - 'A' + 'a' else if c == '\U{212a}' then 'k' else c
  }

  /** Capital letters fold to small ones, and so does the sign for kelvin; others stay. */
  lemma FoldIsLower(c: char)
    ensures forall i :: 0 <= i < 26 ==> Fold("ABCDEFGHIJKLMNOPQRSTUVWXYZ"[i]) == "abcdefghijklmnopqrstuvwxyz"[i]
    ensures Fold('\U{212a}') == 'k'
    ensures c !in "ABCDEFGHIJKLMNOPQRSTUVWXYZ" && c != '\U{212a}' ==> Fold(c) == c
  {
    assert 'A' <= c <= 'Z' ==> "ABCDEFGHIJKLMNOPQRSTUVWXYZ"[(c - 'A') as int] == c;
  }

  predicate EndsWith(s: string, suffix: string) {
    |suffix| <= |s| && forall i :: 0 <= i < |suffix| ==> Fold(s[|s| - |suffix| + i]) == suffix[i]
  }

  predicate IsMarkdownName(s: string) { EndsWith(s, ".md") || EndsWith(s, ".markdown") || EndsWith(s, ".mdown") }

  predicate IsNarrateMarkdown(t: Tab) {
    t.extensionId == "narrate" && t.viewId == "main" && t.resourceKind == Some("file")
    && t.resourceId.Some? && t.resourceId.value != "" && IsMarkdownName(t.resourceId.value)
  }

  /** Narrate's tabs on files with a markdown name, on its main view. */
  lemma NarrateTabs(t: Tab)
    ensures IsNarrateMarkdown(t) <==>
      && t.extensionId == "narrate" && t.viewId == "main" && t.resourceKind == Some("file") && t.resourceId.Some?
      && var name := t.resourceId.value;
      exists n :: 0 <= n <= |name| && Folded(name[n..]) in {".md", ".markdown", ".mdown"}
  {
    if t.resourceId.Some? {
      MarkdownNames(t.resourceId.value);
    }
  }

  predicate AllSpace(s: string) { forall i :: 0 <= i < |s| ==> IsSpace(s[i]) }

  predicate Surrounds(s: string, before: string, core: string, after: string) {
    s == before + core + after && AllSpace(before) && AllSpace(after)
  }

  lemma {:induction false} TrimStartOf(s: string) returns (before: string)
    ensures s == before + TrimStart(s) && AllSpace(before)
    ensures TrimStart(s) != "" ==> !IsSpace(TrimStart(s)[0])
  {
    before := "";
    if s != "" && IsSpace(s[0]) {
      var rest := TrimStartOf(s[1..]);
      before := [s[0]] + rest;
      assert s == [s[0]] + s[1..];
    }
  }

  lemma {:induction false} TrimEndOf(s: string) returns (after: string)
    ensures s == TrimEnd(s) + after && AllSpace(after)
    ensures TrimEnd(s) != "" ==> TrimEnd(s)[0] == s[0] && !IsSpace(TrimEnd(s)[|TrimEnd(s)| - 1])
  {
    after := "";
    if s != "" && IsSpace(s[|s| - 1]) {
      var rest := TrimEndOf(s[..|s| - 1]);
      after := rest + [s[|s| - 1]];
      assert s == s[..|s| - 1] + [s[|s| - 1]];
    }
  }

  /** Trimming takes away white space on both sides, all of it, and nothing else. */
  lemma TrimOf(s: string)
    ensures exists before, after :: Surrounds(s, before, Trim(s), after)
    ensures Trim(s) != "" ==> !IsSpace(Trim(s)[0]) && !IsSpace(Trim(s)[|Trim(s)| - 1])
  {
    var before := TrimStartOf(s);
    var after := TrimEndOf(TrimStart(s));
    assert Surrounds(s, before, Trim(s), after);
  }

  /** The path of a file tab is its resource id without the white space around it. */
  lemma FilePathIsTrimmed(t: Tab)
    requires t.resourceKind == Some("file") && t.resourceId.Some? && t.resourceId.value != ""
    ensures FilePath(t).Some? && var path := FilePath(t).value;
      && (exists before, after :: Surrounds(t.resourceId.value, before, path, after))
      && (path != "" ==> !IsSpace(path[0]) && !IsSpace(path[|path| - 1]))
  {
    TrimOf(t.resourceId.value);
  }

  function Folded(s: string): (r: string)
    ensures |r| == |s|
  {
    seq(|s|, i requires 0 <= i < |s| => Fold(s[i]))
  }

  lemma EndsWithIff(s: string, suffix: string)
    ensures EndsWith(s, suffix) <==> |suffix| <= |s| && Folded(s[|s| - |suffix|..]) == suffix
  {
    if |suffix| <= |s| {
      var tail := s[|s| - |suffix|..];
      assert forall i :: 0 <= i < |suffix| ==> tail[i] == s[|s| - |suffix| + i] && Folded(tail)[i] == Fold(tail[i]);
    }
  }

  /** A markdown name ends in one of three extensions, in either case. */
  lemma MarkdownNames(s: string)
    ensures IsMarkdownName(s) <==> exists n :: 0 <= n <= |s| && Folded(s[n..]) in {".md", ".markdown", ".mdown"}
  {
    EndsWithIff(s, ".md");
    EndsWithIff(s, ".markdown");
    EndsWithIff(s, ".mdown");
  }

  function FilePath(t: Tab): (path: Option<string>)
    ensures path.Some? <==> t.resourceKind == Some("file") && t.resourceId.Some? && t.resourceId.value != ""
  {
    if t.resourceKind != Some("file") || t.resourceId.None? || t.resourceId.value == "" then None
    else Some(Trim(t.resourceId.value))
  }

  /** The first editor's first document viewer, with a view that the editor has. */
  predicate OffersViewer(extensions: seq<Extension>, k: int, h: int) {
    && IsFirst(extensions, k, "editor") && IsFirstHandler(extensions[k].fileHandlers, h, "document-viewer")
    && extensions[k].fileHandlers[h].view in extensions[k].views
  }

  /** The view of the editor's document viewer, when the editor offers one. */
  lemma OfferedIsEditorView(extensions: seq<Extension>, k: int, h: int)
    requires OffersViewer(extensions, k, h)
    ensures EditorView(extensions) == Some(extensions[k].fileHandlers[h].view)
  {
    var editor := FindExtension(extensions, "editor");
    assert extensions[k] in extensions;
    assert editor == Some(extensions[k]);
    var handlers := extensions[k].fileHandlers;
    assert handlers[h] in handlers;
    assert FindHandler(handlers, "document-viewer") == Some(handlers[h]);
  }

  lemma EditorViewIsOffered(extensions: seq<Extension>) returns (k: int, h: int)
    requires EditorView(extensions).Some?
    ensures OffersViewer(extensions, k, h) && EditorView(extensions) == Some(extensions[k].fileHandlers[h].view)
  {
    var editor := FindExtension(extensions, "editor").value;
    k :| IsFirst(extensions, k, "editor") && editor == extensions[k];
    var handler := FindHandler(editor.fileHandlers, "document-viewer").value;
    h :| IsFirstHandler(editor.fileHandlers, h, "document-viewer") && handler == editor.fileHandlers[h];
  }

  function EditorView(extensions: seq<Extension>): Option<string> {
    match FindExtension(extensions, "editor")
    case None => None
    case Some(editor) =>
      match FindHandler(editor.fileHandlers, DOCUMENT_VIEWER)
      case None => None
      case Some(handler) => if handler.view in editor.views then Some(handler.view) else None
  }

  /** The first extension with the id. */
  predicate IsFirst(extensions: seq<Extension>, k: int, id: string) {
    0 <= k < |extensions| && extensions[k].id == id && forall i :: 0 <= i < k ==> extensions[i].id != id
  }

  function FindExtension(extensions: seq<Extension>, id: string): (x: Option<Extension>)
    ensures x.None? <==> forall e :: e in extensions ==> e.id != id
    ensures x.Some? ==> exists k :: IsFirst(extensions, k, id) && x.value == extensions[k]
  {
    if extensions == [] then None
    else if extensions[0].id == id then Some(extensions[0])
    else FindExtension(extensions[1..], id)
  }

  predicate IsFirstHandler(handlers: seq<FileHandler>, k: int, id: string) {
    0 <= k < |handlers| && handlers[k].id == id && forall i :: 0 <= i < k ==> handlers[i].id != id
  }

  function FindHandler(handlers: seq<FileHandler>, id: string): (h: Option<FileHandler>)
    ensures h.None? <==> forall e :: e in handlers ==> e.id != id
    ensures h.Some? ==> exists k :: IsFirstHandler(handlers, k, id) && h.value == handlers[k]
  {
    if handlers == [] then None
    else if handlers[0].id == id then Some(handlers[0])
    else FindHandler(handlers[1..], id)
  }

  // ---------------------------------------------------------------------------------------
  // Groups

  predicate Movable(t: Tab, view: string) {
    (t.extensionId == "editor" && t.viewId == view) || IsNarrateMarkdown(t)
  }

  /** The files that some Narrate tab shows. */
  ghost function NarratePaths(tabs: seq<Tab>): set<string> {
    set i | 0 <= i < |tabs| && IsNarrateMarkdown(tabs[i]) :: FilePath(tabs[i]).value
  }

  /** The file whose group a tab belongs to, if any. */
  function GroupPath(t: Tab, view: string, paths: set<string>): Option<string> {
    var path := FilePath(t);
    if path.Some? && path.value != "" && path.value in paths && Movable(t, view) then path else None
  }

  /** The file whose group each tab belongs to. */
  ghost function Groups(tabs: seq<Tab>, view: string): (groups: seq<Option<string>>)
    ensures |groups| == |tabs|
  {
    seq(|tabs|, i requires 0 <= i < |tabs| => GroupPath(tabs[i], view, NarratePaths(tabs)))
  }

  // ---------------------------------------------------------------------------------------
  // Choosing within a group

  predicate Within(indices: seq<nat>, n: nat) { forall k :: 0 <= k < |indices| ==> indices[k] < n }

  /** The tabs of a group that satisfy `keep`. */
  function Select(tabs: seq<Tab>, group: seq<nat>, keep: Tab -> bool): (r: seq<nat>)
    requires Within(group, |tabs|)
    ensures Within(r, |tabs|) && forall i :: i in r <==> i in group && keep(tabs[i])
  {
    if group == [] then []
    else
      var last := group[|group| - 1];
      assert group == group[..|group| - 1] + [last];
      Select(tabs, group[..|group| - 1], keep) + if keep(tabs[last]) then [last] else []
  }

  /** The most recently active of some tabs, the first of equals. */
  function MostRecent(tabs: seq<Tab>, group: seq<nat>): (r: nat)
    requires group != [] && Within(group, |tabs|)
    ensures r in group && forall i :: i in group ==> tabs[i].lastActiveAt <= tabs[r].lastActiveAt
  {
    var last := group[|group| - 1];
    assert group == group[..|group| - 1] + [last];
    if |group| == 1 then last
    else
      var r := MostRecent(tabs, group[..|group| - 1]);
      if tabs[last].lastActiveAt > tabs[r].lastActiveAt then last else r
  }

  /** Of equally recent tabs it is the first. */
  lemma {:induction false} MostRecentIsFirst(tabs: seq<Tab>, group: seq<nat>, k: nat) returns (j: nat)
    requires group != [] && Within(group, |tabs|) && k < |group|
    ensures j < |group| && group[j] == MostRecent(tabs, group)
    ensures k < j ==> tabs[group[k]].lastActiveAt < tabs[group[j]].lastActiveAt
  {
    var n := |group| - 1;
    if n == 0 || MostRecent(tabs, group) != MostRecent(tabs, group[..n]) {
      j := n;
      if k < n {
        assert group[..n][k] in group[..n];
      }
    } else {
      j := MostRecentIsFirst(tabs, group[..n], if k < n then k else 0);
    }
  }

  function Survivor(tabs: seq<Tab>, activeTabId: Option<string>, group: seq<nat>): (r: nat)
    requires group != [] && Within(group, |tabs|)
    ensures r in group
    ensures (exists i :: i in group && Some(tabs[i].id) == activeTabId) ==> Some(tabs[r].id) == activeTabId
  {
    var active := Select(tabs, group, (t: Tab) => Some(t.id) == activeTabId);
    var editors := Select(tabs, group, (t: Tab) => t.extensionId == "editor");
    if active != [] then assert active[0] in active; active[0]
    else if editors != [] then MostRecent(tabs, editors)
    else group[0]
  }

  lemma {:induction false} NoneSelected(tabs: seq<Tab>, group: seq<nat>, keep: Tab -> bool)
    requires Within(group, |tabs|) && forall i :: i in group ==> !keep(tabs[i])
    ensures Select(tabs, group, keep) == []
  {
    if group != [] {
      NoneSelected(tabs, group[..|group| - 1], keep);
      assert group[|group| - 1] in group;
    }
  }

  /** Without the active tab, the most recent tab already in the editor stands for the group;
      without one of those either, the first tab does. */
  lemma SurvivorPrefersEditor(tabs: seq<Tab>, activeTabId: Option<string>, group: seq<nat>)
    requires group != [] && Within(group, |tabs|)
    requires forall i :: i in group ==> Some(tabs[i].id) != activeTabId
    ensures var r := Survivor(tabs, activeTabId, group);
      if exists i :: i in group && tabs[i].extensionId == "editor" then
        tabs[r].extensionId == "editor"
        && forall i :: i in group && tabs[i].extensionId == "editor" ==> tabs[i].lastActiveAt <= tabs[r].lastActiveAt
      else r == group[0]
  {
    NoneSelected(tabs, group, (t: Tab) => Some(t.id) == activeTabId);
    var editors := Select(tabs, group, (t: Tab) => t.extensionId == "editor");
    if editors != [] {
      assert editors[0] in editors;
    }
  }

  function Navigation(tabs: seq<Tab>, survivor: nat, group: seq<nat>): (r: Option<string>)
    requires survivor in group && Within(group, |tabs|)
    ensures tabs[survivor].pendingNavigation.Some? ==> r == tabs[survivor].pendingNavigation
    ensures r.Some? <==> exists i :: i in group && tabs[i].pendingNavigation.Some?
  {
    var own := tabs[survivor].pendingNavigation;
    var pending := Select(tabs, group, (t: Tab) => t.pendingNavigation.Some?);
    if own.Some? then own
    else if pending == [] then None
    else assert MostRecent(tabs, pending) in pending; tabs[MostRecent(tabs, pending)].pendingNavigation
  }

  /** Without one of its own, the survivor takes the group's most recent pending navigation. */
  lemma NavigationIsMostRecent(tabs: seq<Tab>, survivor: nat, group: seq<nat>)
    requires survivor in group && Within(group, |tabs|) && tabs[survivor].pendingNavigation.None?
    ensures var r := Navigation(tabs, survivor, group);
      r.Some? ==> exists i ::
        && i in group && tabs[i].pendingNavigation == r
        && forall k :: k in group && tabs[k].pendingNavigation.Some? ==> tabs[k].lastActiveAt <= tabs[i].lastActiveAt
  {
    var pending := Select(tabs, group, (t: Tab) => t.pendingNavigation.Some?);
    if pending != [] {
      var i := MostRecent(tabs, pending);
      assert i in pending && i in group;
    }
  }

  // ---------------------------------------------------------------------------------------
  // What migration amounts to, tab by tab, for any grouping

  type Grouping = seq<Option<string>>

  /** The members of a group among the first `n` tabs, in order. */
  function Members(groups: Grouping, path: string, n: nat): (g: seq<nat>)
    requires n <= |groups|
    ensures Within(g, n)
  {
    if n == 0 then []
    else if groups[n - 1] == Some(path) then Members(groups, path, n - 1) + [n - 1]
    else Members(groups, path, n - 1)
  }

  lemma {:induction false} MembersOf(groups: Grouping, path: string, n: nat)
    requires n <= |groups|
    ensures forall i: nat :: i in Members(groups, path, n) <==> i < n && groups[i] == Some(path)
  {
    if n > 0 {
      MembersOf(groups, path, n - 1);
    }
  }

  /** The tab that stands for the group of tab `i`; an ungrouped tab stands for itself. */
  ghost function Stand(tabs: seq<Tab>, activeTabId: Option<string>, groups: Grouping, i: nat): (r: nat)
    requires |groups| == |tabs| && i < |tabs|
    ensures r < |tabs| && groups[r] == groups[i]
  {
    if groups[i].None? then i
    else
      var group := Members(groups, groups[i].value, |tabs|);
      MembersOf(groups, groups[i].value, |tabs|);
      Survivor(tabs, activeTabId, group)
  }

  /** A group's tab as the editor will show it. */
  function AsEditorTab(tabs: seq<Tab>, view: string, i: nat, group: seq<nat>): Tab
    requires i in group && Within(group, |tabs|)
  {
    tabs[i].(extensionId := "editor", handlerId := Some(DOCUMENT_VIEWER),
             pendingNavigation := Navigation(tabs, i, group), viewId := view)
  }

  ghost function Moved(tabs: seq<Tab>, view: string, groups: Grouping, i: nat): Tab
    requires |groups| == |tabs| && i < |tabs|
  {
    if groups[i].None? then tabs[i]
    else
      var group := Members(groups, groups[i].value, |tabs|);
      MembersOf(groups, groups[i].value, |tabs|);
      AsEditorTab(tabs, view, i, group)
  }

  /** The numbers below `n` that stand for themselves, in order. */
  ghost function Kept(stand: seq<nat>, n: nat): (r: seq<nat>)
    requires n <= |stand|
    ensures Within(r, n) && forall j, k :: 0 <= j < k < |r| ==> r[j] < r[k]
    ensures forall i: nat :: i in r <==> i < n && stand[i] == i
  {
    if n == 0 then []
    else
      var before := Kept(stand, n - 1);
      assert forall k :: 0 <= k < |before| ==> before[k] in before;
      before + if stand[n - 1] == n - 1 then [n - 1] else []
  }

  ghost function Stands(tabs: seq<Tab>, activeTabId: Option<string>, groups: Grouping): (r: seq<nat>)
    requires |groups| == |tabs|
    ensures |r| == |tabs| && forall i :: 0 <= i < |tabs| ==> r[i] < |tabs| && groups[r[i]] == groups[i]
  {
    seq(|tabs|, i requires 0 <= i < |tabs| => Stand(tabs, activeTabId, groups, i))
  }

  ghost function Moves(tabs: seq<Tab>, view: string, groups: Grouping): (r: seq<Tab>)
    requires |groups| == |tabs|
    ensures |r| == |tabs|
  {
    seq(|tabs|, i requires 0 <= i < |tabs| => Moved(tabs, view, groups, i))
  }

  ghost function Pick(moves: seq<Tab>, indices: seq<nat>): (r: seq<Tab>)
    requires Within(indices, |moves|)
    ensures |r| == |indices|
  {
    seq(|indices|, j requires 0 <= j < |indices| => moves[indices[j]])
  }

  /** The indices of the tabs that stay, in order. */
  ghost function KeptTabs(tabs: seq<Tab>, activeTabId: Option<string>, view: string): (r: seq<nat>)
    ensures Within(r, |tabs|)
  {
    Kept(Stands(tabs, activeTabId, Groups(tabs, view)), |tabs|)
  }

  /** The tabs after migration: each one that stays, as it is or as an editor tab. */
  ghost function Migrated(tabs: seq<Tab>, activeTabId: Option<string>, view: string): (r: seq<Tab>)
    ensures |r| == |KeptTabs(tabs, activeTabId, view)|
  {
    Pick(Moves(tabs, view, Groups(tabs, view)), KeptTabs(tabs, activeTabId, view))
  }

  // ---------------------------------------------------------------------------------------
  // What migration achieves

  lemma {:induction false} TrimStartKeepsEnd(s: string)
    requires s != "" && !IsSpace(s[|s| - 1])
    ensures TrimStart(s) != "" && TrimStart(s)[|TrimStart(s)| - 1] == s[|s| - 1]
  {
    if IsSpace(s[0]) {
      TrimStartKeepsEnd(s[1..]);
    }
  }

  /** A Narrate markdown tab always belongs to a group. */
  lemma NarrateTabsAreGrouped(tabs: seq<Tab>, view: string, i: nat)
    requires i < |tabs| && IsNarrateMarkdown(tabs[i])
    ensures FilePath(tabs[i]).Some? && FilePath(tabs[i]).value != "" && Groups(tabs, view)[i] == FilePath(tabs[i])
  {
    var name := tabs[i].resourceId.value;
    if EndsWith(name, ".md") {
      assert Fold(name[|name| - 3 + 2]) == ".md"[2];
    } else if EndsWith(name, ".markdown") {
      assert Fold(name[|name| - 9 + 8]) == ".markdown"[8];
    } else {
      assert Fold(name[|name| - 6 + 5]) == ".mdown"[5];
    }
    TrimStartKeepsEnd(name);
  }

  /** Every tab of the result comes from a kept one, in order. */
  lemma OriginOf(tabs: seq<Tab>, activeTabId: Option<string>, view: string, j: nat) returns (i: nat)
    requires j < |Migrated(tabs, activeTabId, view)|
    ensures i == KeptTabs(tabs, activeTabId, view)[j] && i < |tabs|
    ensures Stand(tabs, activeTabId, Groups(tabs, view), i) == i
    ensures Migrated(tabs, activeTabId, view)[j] == Moved(tabs, view, Groups(tabs, view), i)
  {
    var kept := KeptTabs(tabs, activeTabId, view);
    i := kept[j];
    assert i in kept;
  }

  /** No Narrate markdown tab is left. */
  lemma NoNarrateLeft(tabs: seq<Tab>, activeTabId: Option<string>, view: string)
    ensures NarratePaths(Migrated(tabs, activeTabId, view)) == {}
    ensures forall t :: t in Migrated(tabs, activeTabId, view) ==> !IsNarrateMarkdown(t)
  {
    var r := Migrated(tabs, activeTabId, view);
    forall j: nat | j < |r|
      ensures !IsNarrateMarkdown(r[j])
    {
      var i := OriginOf(tabs, activeTabId, view, j);
      if IsNarrateMarkdown(tabs[i]) {
        NarrateTabsAreGrouped(tabs, view, i);
      }
    }
  }

  predicate IsEditorTabFor(t: Tab, view: string, path: string) {
    t.extensionId == "editor" && t.viewId == view && FilePath(t) == Some(path)
  }

  /** A tab becomes an editor tab of a migrated file exactly when it is in the file's group. */
  lemma EditorTabsAreGrouped(tabs: seq<Tab>, view: string, path: string, i: nat)
    requires path in NarratePaths(tabs) && path != "" && i < |tabs|
    ensures IsEditorTabFor(Moved(tabs, view, Groups(tabs, view), i), view, path) <==>
      Groups(tabs, view)[i] == Some(path)
  {
    assert FilePath(Moved(tabs, view, Groups(tabs, view), i)) == FilePath(tabs[i]);
  }

  lemma StandIsKept(tabs: seq<Tab>, activeTabId: Option<string>, view: string, n: nat) returns (j: nat)
    requires n < |tabs|
    ensures j < |KeptTabs(tabs, activeTabId, view)|
    ensures KeptTabs(tabs, activeTabId, view)[j] == Stand(tabs, activeTabId, Groups(tabs, view), n)
  {
    var groups, kept := Groups(tabs, view), KeptTabs(tabs, activeTabId, view);
    var stand := Stand(tabs, activeTabId, groups, n);
    StandOfStand(tabs, activeTabId, groups, n);
    assert stand in kept;
    j :| j < |kept| && kept[j] == stand;
  }

  lemma StandOfStand(tabs: seq<Tab>, activeTabId: Option<string>, groups: Grouping, n: nat)
    requires |groups| == |tabs| && n < |tabs|
    ensures var stand := Stand(tabs, activeTabId, groups, n); Stand(tabs, activeTabId, groups, stand) == stand
  {
  }

  /** A tab that neither Narrate nor the editor's document view shows, or whose file no Narrate
      tab shows, stays as it is. */
  lemma OtherTabsStay(tabs: seq<Tab>, activeTabId: Option<string>, view: string, i: nat) returns (j: nat)
    requires i < |tabs| && !IsNarrateMarkdown(tabs[i])
    requires tabs[i].extensionId != "editor" || tabs[i].viewId != view || FilePath(tabs[i]).None?
      || forall k :: 0 <= k < |tabs| && IsNarrateMarkdown(tabs[k]) ==> FilePath(tabs[k]) != FilePath(tabs[i])
    ensures j < |Migrated(tabs, activeTabId, view)| && KeptTabs(tabs, activeTabId, view)[j] == i
    ensures Migrated(tabs, activeTabId, view)[j] == tabs[i]
  {
    assert Groups(tabs, view)[i].None? by {
      if FilePath(tabs[i]).Some? && FilePath(tabs[i]).value in NarratePaths(tabs) {
        var k :| 0 <= k < |tabs| && IsNarrateMarkdown(tabs[k]) && FilePath(tabs[k]).value == FilePath(tabs[i]).value;
      }
    }
    j := StandIsKept(tabs, activeTabId, view, i);
    var origin := OriginOf(tabs, activeTabId, view, j);
  }

  /** A tab that stands for a file keeps its id, its file and its time, and is the document
      viewer's. */
  lemma MovedTabHolds(tabs: seq<Tab>, view: string, i: nat)
    requires i < |tabs| && Groups(tabs, view)[i].Some?
    ensures var was, t := tabs[i], Moved(tabs, view, Groups(tabs, view), i);
      && t.id == was.id && t.lastActiveAt == was.lastActiveAt && t.rest == was.rest
      && t.resourceId == was.resourceId && t.resourceKind == was.resourceKind
      && t.extensionId == "editor" && t.viewId == view && t.handlerId == Some("document-viewer")
  {
  }

  /** Each migrated file has exactly one tab in the editor's document view. */
  lemma OneEditorTabPerFile(tabs: seq<Tab>, activeTabId: Option<string>, view: string, path: string) returns (j: nat)
    requires path in NarratePaths(tabs)
    ensures j < |Migrated(tabs, activeTabId, view)| && IsEditorTabFor(Migrated(tabs, activeTabId, view)[j], view, path)
    ensures var r := Migrated(tabs, activeTabId, view);
      forall k: nat :: k < |r| && IsEditorTabFor(r[k], view, path) ==> k == j
  {
    var n: nat :| n < |tabs| && IsNarrateMarkdown(tabs[n]) && FilePath(tabs[n]) == Some(path);
    NarrateTabsAreGrouped(tabs, view, n);
    j := StandIsKept(tabs, activeTabId, view, n);
    var stand := OriginOf(tabs, activeTabId, view, j);
    EditorTabsAreGrouped(tabs, view, path, stand);
    forall k: nat | k < |Migrated(tabs, activeTabId, view)|
      && IsEditorTabFor(Migrated(tabs, activeTabId, view)[k], view, path)
      ensures k == j
    {
      SameFileSameTab(tabs, activeTabId, view, path, stand, j, k);
    }
  }

  lemma SameFileSameTab(tabs: seq<Tab>, activeTabId: Option<string>, view: string, path: string, stand: nat, j: nat,
      k: nat)
    requires path in NarratePaths(tabs) && path != "" && j < |Migrated(tabs, activeTabId, view)|
      && k < |Migrated(tabs, activeTabId, view)|
    requires IsEditorTabFor(Migrated(tabs, activeTabId, view)[k], view, path)
    requires stand == KeptTabs(tabs, activeTabId, view)[j] && Groups(tabs, view)[stand] == Some(path)
    ensures k == j
  {
    var j' := OriginOf(tabs, activeTabId, view, j);
    var i := OriginOf(tabs, activeTabId, view, k);
    EditorTabsAreGrouped(tabs, view, path, i);
    assert i == stand;
  }

  predicate DistinctIds(tabs: seq<Tab>) {
    forall i, j :: 0 <= i < j < |tabs| ==> tabs[i].id != tabs[j].id
  }

  /** The active tab stays, under its own id. */
  lemma ActiveTabStays(tabs: seq<Tab>, activeTabId: Option<string>, view: string, i: nat) returns (j: nat)
    requires DistinctIds(tabs) && i < |tabs| && Some(tabs[i].id) == activeTabId
    ensures j < |Migrated(tabs, activeTabId, view)| && KeptTabs(tabs, activeTabId, view)[j] == i
    ensures Some(Migrated(tabs, activeTabId, view)[j].id) == activeTabId
  {
    var groups, kept := Groups(tabs, view), KeptTabs(tabs, activeTabId, view);
    ActiveTabStands(tabs, activeTabId, groups, i);
    assert i in kept;
    j :| j < |kept| && kept[j] == i;
  }

  lemma ActiveTabStands(tabs: seq<Tab>, activeTabId: Option<string>, groups: Grouping, i: nat)
    requires DistinctIds(tabs) && |groups| == |tabs| && i < |tabs| && Some(tabs[i].id) == activeTabId
    ensures Stand(tabs, activeTabId, groups, i) == i
  {
    if groups[i].Some? {
      MembersOf(groups, groups[i].value, |tabs|);
      assert tabs[Stand(tabs, activeTabId, groups, i)].id == tabs[i].id;
    }
  }

  /** Where some tab of a group had a navigation pending, the one that stands for it does too,
      and it keeps its own if it had one. */
  lemma PendingNavigationStays(tabs: seq<Tab>, view: string, groups: Grouping, i: nat)
    requires |groups| == |tabs| && i < |tabs| && groups[i].Some?
    ensures Moved(tabs, view, groups, i).pendingNavigation.Some? <==>
      exists k: nat :: k < |tabs| && groups[k] == groups[i] && tabs[k].pendingNavigation.Some?
    ensures tabs[i].pendingNavigation.Some? ==>
      Moved(tabs, view, groups, i).pendingNavigation == tabs[i].pendingNavigation
  {
    var group := Members(groups, groups[i].value, |tabs|);
    MembersOf(groups, groups[i].value, |tabs|);
    assert forall k: nat :: k in group <==> k < |tabs| && groups[k] == groups[i];
  }

  ghost function UpTo(n: nat): seq<nat> { if n == 0 then [] else UpTo(n - 1) + [n - 1] }

  lemma {:induction false} UpToCounts(n: nat)
    ensures |UpTo(n)| == n && forall j :: 0 <= j < n ==> UpTo(n)[j] == j
  {
    if n > 0 {
      UpToCounts(n - 1);
    }
  }

  lemma {:induction false} AllKept(stand: seq<nat>, n: nat)
    requires n <= |stand| && forall i :: 0 <= i < n ==> stand[i] == i
    ensures Kept(stand, n) == UpTo(n)
  {
    if n > 0 {
      AllKept(stand, n - 1);
    }
  }

  /** Without Narrate tabs nothing changes. */
  lemma NothingToMigrate(tabs: seq<Tab>, activeTabId: Option<string>, view: string)
    requires NarratePaths(tabs) == {}
    ensures Migrated(tabs, activeTabId, view) == tabs
  {
    var groups := Groups(tabs, view);
    assert forall i :: 0 <= i < |tabs| ==> groups[i].None?;
    AllKept(Stands(tabs, activeTabId, groups), |tabs|);
    UpToCounts(|tabs|);
  }

  /** Migrating twice is migrating once. */
  lemma MigrationIsIdempotent(tabs: seq<Tab>, activeTabId: Option<string>, view: string)
    ensures var r := Migrated(tabs, activeTabId, view); Migrated(r, activeTabId, view) == r
  {
    NoNarrateLeft(tabs, activeTabId, view);
    NothingToMigrate(Migrated(tabs, activeTabId, view), activeTabId, view);
  }

  // ---------------------------------------------------------------------------------------
  // The procedure

  predicate NeedsReload(t: Tab) { t.extensionId != "editor" || t.handlerId != Some(DOCUMENT_VIEWER) }

  /** What the loop over groups has gathered about tab `i` once it has been through the files
      in `done`. */
  predicate GatheredFor(id: string, tab: Tab, reached: bool, kept: bool, moved: Tab,
                        removed: set<string>, replacements: map<string, Tab>, migrated: set<string>) {
    && (id in removed <==> reached && !kept)
    && (id in replacements <==> reached && kept)
    && (id in replacements ==> replacements[id] == moved)
    && (id in migrated <==> reached && kept && NeedsReload(tab))
  }

  ghost predicate Gathered(tabs: seq<Tab>, groups: Grouping, stands: seq<nat>, moves: seq<Tab>, done: set<string>,
                           removed: set<string>, replacements: map<string, Tab>, migrated: set<string>)
    requires |groups| == |stands| == |moves| == |tabs|
  {
    forall i: nat :: i < |tabs| ==>
      GatheredFor(tabs[i].id, tabs[i], groups[i].Some? && groups[i].value in done, stands[i] == i, moves[i],
                  removed, replacements, migrated)
  }

  function OtherIds(tabs: seq<Tab>, group: seq<nat>, id: string): set<string>
    requires Within(group, |tabs|)
  {
    set k | 0 <= k < |group| && tabs[group[k]].id != id :: tabs[group[k]].id
  }

  lemma OtherIdsOf(tabs: seq<Tab>, group: seq<nat>, survivor: nat, i: nat)
    requires DistinctIds(tabs) && Within(group, |tabs|) && survivor in group && i < |tabs|
    ensures tabs[i].id in OtherIds(tabs, group, tabs[survivor].id) <==> i in group && i != survivor
  {
    if i in group && i != survivor {
      var k :| 0 <= k < |group| && group[k] == i;
      assert tabs[group[k]].id in OtherIds(tabs, group, tabs[survivor].id);
    }
  }

  /** Going through one more group keeps the record right. */
  lemma GatherGroup(tabs: seq<Tab>, groups: Grouping, stands: seq<nat>, moves: seq<Tab>, done: set<string>,
                    removed: set<string>, replacements: map<string, Tab>, migrated: set<string>,
                    path: string, group: seq<nat>, survivor: nat)
    requires DistinctIds(tabs) && |groups| == |stands| == |moves| == |tabs|
    requires Gathered(tabs, groups, stands, moves, done, removed, replacements, migrated)
    requires Within(group, |tabs|) && survivor in group
    requires forall i: nat :: i < |tabs| ==>
      (i in group <==> groups[i] == Some(path)) && (i in group ==> stands[i] == survivor)
    ensures Gathered(tabs, groups, stands, moves, done + {path},
      removed + OtherIds(tabs, group, tabs[survivor].id), replacements[tabs[survivor].id := moves[survivor]],
      migrated + if NeedsReload(tabs[survivor]) then {tabs[survivor].id} else {})
  {
    forall i: nat | i < |tabs|
      ensures GatheredFor(
        tabs[i].id, tabs[i], groups[i].Some? && groups[i].value in done + {path}, stands[i] == i, moves[i],
        removed + OtherIds(tabs, group, tabs[survivor].id), replacements[tabs[survivor].id := moves[survivor]],
        migrated + if NeedsReload(tabs[survivor]) then {tabs[survivor].id} else {})
    {
      OtherIdsOf(tabs, group, survivor, i);
      assert GatheredFor(tabs[i].id, tabs[i], groups[i].Some? && groups[i].value in done, stands[i] == i, moves[i],
                         removed, replacements, migrated);
      assert tabs[i].id == tabs[survivor].id <==> i == survivor;
    }
  }

  lemma GroupStands(tabs: seq<Tab>, activeTabId: Option<string>, view: string, groups: Grouping, path: string)
    requires |groups| == |tabs| && Members(groups, path, |tabs|) != []
    ensures var group := Members(groups, path, |tabs|);
      var survivor := Survivor(tabs, activeTabId, group);
      && Moves(tabs, view, groups)[survivor] == AsEditorTab(tabs, view, survivor, group)
      && forall i: nat :: i < |tabs| ==>
        (i in group <==> groups[i] == Some(path)) && (i in group ==> Stands(tabs, activeTabId, groups)[i] == survivor)
  {
    MembersOf(groups, path, |tabs|);
    var group := Members(groups, path, |tabs|);
    var survivor := Survivor(tabs, activeTabId, group);
    assert Moves(tabs, view, groups)[survivor] == Moved(tabs, view, groups, survivor);
    forall i: nat | i < |tabs| && i in group
      ensures Stands(tabs, activeTabId, groups)[i] == survivor
    {
      assert Stands(tabs, activeTabId, groups)[i] == Stand(tabs, activeTabId, groups, i);
    }
  }

  /** The first pass over the tabs: the files that Narrate shows. */
  method FindNarratePaths(tabs: seq<Tab>) returns (paths: set<string>)
    ensures paths == NarratePaths(tabs)
  {
    paths := {};
    for i := 0 to |tabs|
      invariant paths == set k | 0 <= k < i && IsNarrateMarkdown(tabs[k]) :: FilePath(tabs[k]).value
    {
      if IsNarrateMarkdown(tabs[i]) {
        paths := paths + {FilePath(tabs[i]).value};
      }
    }
  }

  /** Which file's group, if any, each tab goes to. */
  method AssignGroups(tabs: seq<Tab>, view: string, paths: set<string>) returns (groups: Grouping)
    requires paths == NarratePaths(tabs)
    ensures groups == Groups(tabs, view)
  {
    groups := [];
    for i := 0 to |tabs|
      invariant groups == Groups(tabs, view)[..i]
    {
      groups := groups + [GroupPath(tabs[i], view, paths)];
    }
  }

  /** For each file with a group, in order of appearance, the tabs of the group. */
  method GroupTabs(groups: Grouping) returns (order: seq<string>, grouped: map<string, seq<nat>>)
    ensures forall i :: 0 <= i < |groups| && groups[i].Some? ==> groups[i].value in order
    ensures forall path :: path in order ==>
      path in grouped && grouped[path] != [] && grouped[path] == Members(groups, path, |groups|)
  {
    order, grouped := [], map[];
    for i := 0 to |groups|
      invariant forall path :: path in order <==> path in grouped
      invariant forall path :: path in grouped ==> grouped[path] != [] && grouped[path] == Members(groups, path, i)
      invariant forall k :: 0 <= k < i && groups[k].Some? ==> groups[k].value in order
    {
      if groups[i].Some? {
        var path := groups[i].value;
        if path in grouped {
          grouped := grouped[path := grouped[path] + [i]];
        } else {
          NoMembersYet(groups, path, i);
          order, grouped := order + [path], grouped[path := [i]];
        }
      }
    }
  }

  lemma {:induction false} NoMembersYet(groups: Grouping, path: string, n: nat)
    requires n <= |groups| && forall k :: 0 <= k < n ==> groups[k] != Some(path)
    ensures Members(groups, path, n) == []
  {
    if n > 0 {
      NoMembersYet(groups, path, n - 1);
    }
  }

  /** The ids of those members of groups in `done` for which a tab with another id stands. */
  function RemovedIds(tabs: seq<Tab>, groups: Grouping, stands: seq<nat>, done: set<string>): set<string>
    requires |groups| == |stands| == |tabs| && Within(stands, |tabs|)
  {
    set i | 0 <= i < |tabs| && groups[i].Some? && groups[i].value in done && tabs[i].id != tabs[stands[i]].id ::
      tabs[i].id
  }

  predicate StandsFor(tabs: seq<Tab>, groups: Grouping, stands: seq<nat>, moves: seq<Tab>, done: set<string>,
                      i: nat, id: string, moved: Tab)
    requires |groups| == |stands| == |moves| == |tabs|
  {
    i < |tabs| && groups[i].Some? && groups[i].value in done && stands[i] == i && tabs[i].id == id && moved == moves[i]
  }

  /** The ids of the tabs that stand for a group in `done`, each with such a tab as it will be. */
  ghost predicate ReplacesStands(tabs: seq<Tab>, groups: Grouping, stands: seq<nat>, moves: seq<Tab>,
                                 done: set<string>, replacements: map<string, Tab>)
    requires |groups| == |stands| == |moves| == |tabs| && Within(stands, |tabs|)
  {
    && (forall i :: 0 <= i < |tabs| && groups[i].Some? && groups[i].value in done ==>
          tabs[stands[i]].id in replacements)
    && (forall id :: id in replacements ==>
          exists i :: StandsFor(tabs, groups, stands, moves, done, i, id, replacements[id]))
  }

  /** The tabs that `adapt` keeps, as it leaves them, in order. */
  function Adapted(tabs: seq<Tab>, adapt: Tab -> Option<Tab>): seq<Tab> {
    if tabs == [] then []
    else
      var n := |tabs| - 1;
      var kept := Adapted(tabs[..n], adapt);
      match adapt(tabs[n])
      case None => kept
      case Some(t) => kept + [t]
  }

  /** What the last pass does to each tab. */
  function Finished(removed: set<string>, replacements: map<string, Tab>): Tab -> Option<Tab> {
    (t: Tab) => if t.id in removed then None else Some(if t.id in replacements then replacements[t.id] else t)
  }

  ghost function AllPaths(groups: Grouping): set<string> {
    set i | 0 <= i < |groups| && groups[i].Some? :: groups[i].value
  }

  /** The result of migration for any tabs: by ids, as the original keeps its records. */
  ghost predicate IsMigration(tabs: seq<Tab>, activeTabId: Option<string>, view: string, r: seq<Tab>) {
    var groups := Groups(tabs, view);
    var stands, moves, paths := Stands(tabs, activeTabId, groups), Moves(tabs, view, groups), AllPaths(groups);
    exists replacements: map<string, Tab> ::
      ReplacesStands(tabs, groups, stands, moves, paths, replacements)
      && r == Adapted(tabs, Finished(RemovedIds(tabs, groups, stands, paths), replacements))
  }

  lemma RemoveGroup(tabs: seq<Tab>, groups: Grouping, stands: seq<nat>, done: set<string>,
                    path: string, group: seq<nat>, survivor: nat)
    requires |groups| == |stands| == |tabs| && Within(stands, |tabs|) && Within(group, |tabs|) && survivor in group
    requires forall i: nat :: i < |tabs| ==>
      (i in group <==> groups[i] == Some(path)) && (i in group ==> stands[i] == survivor)
    ensures RemovedIds(tabs, groups, stands, done + {path}) ==
      RemovedIds(tabs, groups, stands, done) + OtherIds(tabs, group, tabs[survivor].id)
  {
    forall i | 0 <= i < |tabs| && groups[i] == Some(path) && tabs[i].id != tabs[stands[i]].id
      ensures tabs[i].id in OtherIds(tabs, group, tabs[survivor].id)
    {
      assert i in group;
      var k :| 0 <= k < |group| && group[k] == i;
    }
    forall k | 0 <= k < |group| && tabs[group[k]].id != tabs[survivor].id
      ensures tabs[group[k]].id in RemovedIds(tabs, groups, stands, done + {path})
    {
      assert group[k] in group && stands[group[k]] == survivor;
    }
  }

  lemma ReplaceGroup(tabs: seq<Tab>, groups: Grouping, stands: seq<nat>, moves: seq<Tab>, done: set<string>,
                     replacements: map<string, Tab>, path: string, group: seq<nat>, survivor: nat)
    requires |groups| == |stands| == |moves| == |tabs| && Within(stands, |tabs|)
    requires Within(group, |tabs|) && survivor in group
    requires forall i: nat :: i < |tabs| ==>
      (i in group <==> groups[i] == Some(path)) && (i in group ==> stands[i] == survivor)
    requires ReplacesStands(tabs, groups, stands, moves, done, replacements)
    ensures ReplacesStands(tabs, groups, stands, moves, done + {path},
                           replacements[tabs[survivor].id := moves[survivor]])
  {
    var id, more := tabs[survivor].id, done + {path};
    assert StandsFor(tabs, groups, stands, moves, more, survivor, id, moves[survivor]);
    forall other | other in replacements
      ensures exists i :: StandsFor(tabs, groups, stands, moves, more, i, other, replacements[other])
    {
      var i :| StandsFor(tabs, groups, stands, moves, done, i, other, replacements[other]);
      assert StandsFor(tabs, groups, stands, moves, more, i, other, replacements[other]);
    }
  }

  ghost predicate GatheredSoFar(tabs: seq<Tab>, activeTabId: Option<string>, view: string, groups: Grouping,
                                done: set<string>,
                                removed: set<string>, replacements: map<string, Tab>, migrated: set<string>)
    requires |groups| == |tabs|
  {
    var stands, moves := Stands(tabs, activeTabId, groups), Moves(tabs, view, groups);
    && removed == RemovedIds(tabs, groups, stands, done)
    && ReplacesStands(tabs, groups, stands, moves, done, replacements)
    && (DistinctIds(tabs) ==> Gathered(tabs, groups, stands, moves, done, removed, replacements, migrated))
  }

  /** One turn of the loop over groups: who goes, who takes the group's place, and whether
      that tab's view reloads. */
  method GatherOne(tabs: seq<Tab>, activeTabId: Option<string>, view: string, ghost groups: Grouping,
                   ghost done: set<string>,
                   removed: set<string>, replacements: map<string, Tab>, migrated: set<string>,
                   ghost path: string, group: seq<nat>)
      returns (removed': set<string>, replacements': map<string, Tab>, migrated': set<string>, active: Option<string>)
    requires |groups| == |tabs| && group == Members(groups, path, |tabs|) && group != []
    requires GatheredSoFar(tabs, activeTabId, view, groups, done, removed, replacements, migrated)
    ensures GatheredSoFar(tabs, activeTabId, view, groups, done + {path}, removed', replacements', migrated')
    ensures active.Some? ==> active == activeTabId
  {
    var survivor := Survivor(tabs, activeTabId, group);
    replacements' := replacements[tabs[survivor].id := AsEditorTab(tabs, view, survivor, group)];
    migrated' := migrated + if NeedsReload(tabs[survivor]) then {tabs[survivor].id} else {};
    removed' := removed + OtherIds(tabs, group, tabs[survivor].id);
    active := if exists i :: i in group && Some(tabs[i].id) == activeTabId then Some(tabs[survivor].id) else None;
    ghost var stands, moves := Stands(tabs, activeTabId, groups), Moves(tabs, view, groups);
    GroupStands(tabs, activeTabId, view, groups, path);
    RemoveGroup(tabs, groups, stands, done, path, group, survivor);
    ReplaceGroup(tabs, groups, stands, moves, done, replacements, path, group, survivor);
    if DistinctIds(tabs) {
      GatherGroup(tabs, groups, stands, moves, done, removed, replacements, migrated, path, group, survivor);
    }
  }

  method Gather(tabs: seq<Tab>, activeTabId: Option<string>, view: string, ghost groups: Grouping,
                order: seq<string>, grouped: map<string, seq<nat>>)
      returns (removed: set<string>, replacements: map<string, Tab>, migrated: set<string>,
          nextActiveTabId: Option<string>)
    requires |groups| == |tabs|
    requires forall path :: path in order ==>
      path in grouped && grouped[path] != [] && grouped[path] == Members(groups, path, |groups|)
    ensures nextActiveTabId == activeTabId
    ensures GatheredSoFar(tabs, activeTabId, view, groups, (set p | p in order), removed, replacements, migrated)
  {
    removed, replacements, migrated, nextActiveTabId := {}, map[], {}, activeTabId;
    ghost var done: set<string> := {};
    NothingGathered(tabs, activeTabId, view, groups);
    for g := 0 to |order|
      invariant nextActiveTabId == activeTabId
      invariant forall p :: p in done <==> p in order[..g]
      invariant GatheredSoFar(tabs, activeTabId, view, groups, done, removed, replacements, migrated)
    {
      var active;
      removed, replacements, migrated, active :=
        GatherOne(tabs, activeTabId, view, groups, done, removed, replacements, migrated, order[g], grouped[order[g]]);
      if active.Some? {
        nextActiveTabId := active;
      }
      done := done + {order[g]};
    }
    assert done == set p | p in order;
  }

  lemma MovesKeepIds(tabs: seq<Tab>, view: string, groups: Grouping, i: nat)
    requires |groups| == |tabs| && i < |tabs|
    ensures Moves(tabs, view, groups)[i].id == tabs[i].id
  {
  }

  lemma ReplacementsKeepIds(tabs: seq<Tab>, groups: Grouping, stands: seq<nat>, moves: seq<Tab>, paths: set<string>,
                            replacements: map<string, Tab>)
    requires |groups| == |stands| == |moves| == |tabs| && Within(stands, |tabs|)
    requires ReplacesStands(tabs, groups, stands, moves, paths, replacements)
    requires forall i :: 0 <= i < |tabs| ==> moves[i].id == tabs[i].id
    ensures forall id :: id in replacements ==> replacements[id].id == id
  {
    forall id | id in replacements
      ensures replacements[id].id == id
    {
      var i :| StandsFor(tabs, groups, stands, moves, paths, i, id, replacements[id]);
    }
  }

  /** Whatever the ids, migration drops tabs or replaces them by ones with the same id. */
  lemma MigrationKeepsIds(tabs: seq<Tab>, activeTabId: Option<string>, view: string, r: seq<Tab>)
      returns (removed: set<string>, replacements: map<string, Tab>)
    requires IsMigration(tabs, activeTabId, view, r)
    ensures r == Adapted(tabs, Finished(removed, replacements))
    ensures forall id :: id in replacements ==> replacements[id].id == id
  {
    var groups := Groups(tabs, view);
    var stands, moves, paths := Stands(tabs, activeTabId, groups), Moves(tabs, view, groups), AllPaths(groups);
    removed := RemovedIds(tabs, groups, stands, paths);
    replacements :|
      ReplacesStands(tabs, groups, stands, moves, paths, replacements)
      && r == Adapted(tabs, Finished(removed, replacements));
    forall i: nat | i < |tabs|
      ensures moves[i].id == tabs[i].id
    {
      MovesKeepIds(tabs, view, groups, i);
    }
    ReplacementsKeepIds(tabs, groups, stands, moves, paths, replacements);
  }

  lemma EveryPathDone(groups: Grouping, order: seq<string>)
    requires forall i :: 0 <= i < |groups| && groups[i].Some? ==> groups[i].value in order
    requires forall path :: path in order ==> Members(groups, path, |groups|) != []
    ensures (set p | p in order) == AllPaths(groups)
  {
    forall path | path in order
      ensures path in AllPaths(groups)
    {
      MembersOf(groups, path, |groups|);
      var first := Members(groups, path, |groups|)[0];
      assert first in Members(groups, path, |groups|);
    }
  }

  lemma {:induction false} AdaptedAll(tabs: seq<Tab>, adapt: Tab -> Option<Tab>)
    requires forall t :: adapt(t) == Some(t)
    ensures Adapted(tabs, adapt) == tabs
  {
    if tabs != [] {
      var n := |tabs| - 1;
      AdaptedAll(tabs[..n], adapt);
      assert tabs == tabs[..n] + [tabs[n]];
    }
  }

  /** Without Narrate tabs, the tabs stay as they are, whatever their ids. */
  lemma NothingMigrated(tabs: seq<Tab>, activeTabId: Option<string>, view: string)
    requires NarratePaths(tabs) == {}
    ensures IsMigration(tabs, activeTabId, view, tabs) && ReloadsExactly(tabs, activeTabId, view, {})
  {
    var groups := Groups(tabs, view);
    var stands, moves, paths := Stands(tabs, activeTabId, groups), Moves(tabs, view, groups), AllPaths(groups);
    assert paths == {};
    assert RemovedIds(tabs, groups, stands, paths) == {};
    assert ReplacesStands(tabs, groups, stands, moves, paths, map[]);
    AdaptedAll(tabs, Finished({}, map[]));
  }

  lemma NothingGathered(tabs: seq<Tab>, activeTabId: Option<string>, view: string, groups: Grouping)
    requires |groups| == |tabs|
    ensures GatheredSoFar(tabs, activeTabId, view, groups, {}, {}, map[], {})
  {
  }

  /** The last pass: every tab that was not removed, replaced if it stands for a group. */
  method FinalTabs(tabs: seq<Tab>, removed: set<string>, replacements: map<string, Tab>) returns (r: seq<Tab>)
    ensures r == Adapted(tabs, Finished(removed, replacements))
  {
    r := [];
    for i := 0 to |tabs|
      invariant r == Adapted(tabs[..i], Finished(removed, replacements))
    {
      assert tabs[..i + 1][..i] == tabs[..i];
      if tabs[i].id !in removed {
        r := r + [if tabs[i].id in replacements then replacements[tabs[i].id] else tabs[i]];
      }
    }
    assert tabs[..|tabs|] == tabs;
  }

  /** With distinct ids, the last pass picks exactly the tabs that stand for themselves. */
  lemma {:induction false} FinalIsPick(tabs: seq<Tab>, removed: set<string>, replacements: map<string, Tab>,
                                       groups: Grouping, stands: seq<nat>, moves: seq<Tab>, done: set<string>,
                                       migrated: set<string>, n: nat)
    requires |groups| == |stands| == |moves| == |tabs| && n <= |tabs|
    requires forall i :: 0 <= i < |tabs| && groups[i].Some? ==> groups[i].value in done
    requires forall i :: 0 <= i < |tabs| && groups[i].None? ==> moves[i] == tabs[i] && stands[i] == i
    requires Gathered(tabs, groups, stands, moves, done, removed, replacements, migrated)
    ensures Adapted(tabs[..n], Finished(removed, replacements)) == Pick(moves, Kept(stands, n))
  {
    if n > 0 {
      var j: nat := n - 1;
      FinalIsPick(tabs, removed, replacements, groups, stands, moves, done, migrated, j);
      assert tabs[..n][..j] == tabs[..j];
      assert GatheredFor(tabs[j].id, tabs[j], groups[j].Some? && groups[j].value in done, stands[j] == j, moves[j],
                         removed, replacements, migrated);
    }
  }

  lemma FinalIsMigration(tabs: seq<Tab>, activeTabId: Option<string>, view: string, groups: Grouping,
                         stands: seq<nat>, moves: seq<Tab>, removed: set<string>, replacements: map<string, Tab>)
    requires groups == Groups(tabs, view)
    requires stands == Stands(tabs, activeTabId, groups) && moves == Moves(tabs, view, groups)
    requires removed == RemovedIds(tabs, groups, stands, AllPaths(groups))
    requires ReplacesStands(tabs, groups, stands, moves, AllPaths(groups), replacements)
    ensures IsMigration(tabs, activeTabId, view, Adapted(tabs, Finished(removed, replacements)))
  {
  }

  lemma FinalIsMigrated(tabs: seq<Tab>, activeTabId: Option<string>, view: string, groups: Grouping,
                        stands: seq<nat>, moves: seq<Tab>, removed: set<string>, replacements: map<string, Tab>,
                        migrated: set<string>)
    requires groups == Groups(tabs, view)
    requires stands == Stands(tabs, activeTabId, groups) && moves == Moves(tabs, view, groups)
    requires Gathered(tabs, groups, stands, moves, AllPaths(groups), removed, replacements, migrated)
    ensures Adapted(tabs, Finished(removed, replacements)) == Migrated(tabs, activeTabId, view)
  {
    FinalIsPick(tabs, removed, replacements, groups, stands, moves, AllPaths(groups), migrated, |tabs|);
    assert tabs[..|tabs|] == tabs;
  }

  lemma MigrationIsFinal(tabs: seq<Tab>, activeTabId: Option<string>, view: string, removed: set<string>,
                         replacements: map<string, Tab>, migrated: set<string>)
    requires GatheredSoFar(tabs, activeTabId, view, Groups(tabs, view), AllPaths(Groups(tabs, view)),
                           removed, replacements, migrated)
    ensures var r := Adapted(tabs, Finished(removed, replacements));
      && IsMigration(tabs, activeTabId, view, r)
      && (DistinctIds(tabs) ==> r == Migrated(tabs, activeTabId, view))
  {
    var groups := Groups(tabs, view);
    var stands, moves := Stands(tabs, activeTabId, groups), Moves(tabs, view, groups);
    FinalIsMigration(tabs, activeTabId, view, groups, stands, moves, removed, replacements);
    if DistinctIds(tabs) {
      FinalIsMigrated(tabs, activeTabId, view, groups, stands, moves, removed, replacements, migrated);
    }
  }

  /** Tab `i` takes on a group and was not showing the document viewer. */
  ghost predicate Reloads(tabs: seq<Tab>, activeTabId: Option<string>, view: string, i: nat)
    requires i < |tabs|
  {
    var groups := Groups(tabs, view);
    groups[i].Some? && Stand(tabs, activeTabId, groups, i) == i
    && (tabs[i].extensionId != "editor" || tabs[i].handlerId != Some("document-viewer"))
  }

  ghost predicate ReloadsExactly(tabs: seq<Tab>, activeTabId: Option<string>, view: string, migrated: set<string>) {
    forall i: nat {:trigger tabs[i]} :: i < |tabs| ==> (tabs[i].id in migrated <==> Reloads(tabs, activeTabId, view, i))
  }

  lemma MigratedAreReloaded(tabs: seq<Tab>, activeTabId: Option<string>, view: string, groups: Grouping,
                            stands: seq<nat>, moves: seq<Tab>,
                            removed: set<string>, replacements: map<string, Tab>, migrated: set<string>)
    requires groups == Groups(tabs, view) && stands == Stands(tabs, activeTabId, groups) && |moves| == |tabs|
    requires Gathered(tabs, groups, stands, moves, AllPaths(groups), removed, replacements, migrated)
    ensures ReloadsExactly(tabs, activeTabId, view, migrated)
  {
    forall i: nat | i < |tabs|
      ensures tabs[i].id in migrated <==> Reloads(tabs, activeTabId, view, i)
    {
      assert GatheredFor(tabs[i].id, tabs[i], groups[i].Some? && groups[i].value in AllPaths(groups), stands[i] == i,
                         moves[i], removed, replacements, migrated);
    }
  }

  /** What migration comes to: by ids for any tabs, tab by tab for distinct ones. */
  ghost predicate Migrates(tabs: seq<Tab>, activeTabId: Option<string>, view: string, r: Migration) {
    && r.activeTabId == activeTabId && IsMigration(tabs, activeTabId, view, r.tabs)
    && (DistinctIds(tabs) ==>
          r.tabs == Migrated(tabs, activeTabId, view) && ReloadsExactly(tabs, activeTabId, view, r.migratedTabIds))
  }

  method MigrateGroups(tabs: seq<Tab>, activeTabId: Option<string>, view: string, paths: set<string>)
      returns (r: Migration)
    requires paths == NarratePaths(tabs)
    ensures Migrates(tabs, activeTabId, view, r)
  {
    var groups := AssignGroups(tabs, view, paths);
    var order, grouped := GroupTabs(groups);
    var removed, replacements, migrated, nextActiveTabId := Gather(tabs, activeTabId, view, groups, order, grouped);
    EveryPathDone(groups, order);
    var kept := FinalTabs(tabs, removed, replacements);
    MigrationIsFinal(tabs, activeTabId, view, removed, replacements, migrated);
    if DistinctIds(tabs) {
      MigratedAreReloaded(tabs, activeTabId, view, groups, Stands(tabs, activeTabId, groups), Moves(tabs, view, groups),
                          removed, replacements, migrated);
    }
    r := Migration(nextActiveTabId, migrated, kept);
  }

  /** Moves Narrate's tabs into the editor. Without the editor's document viewer nothing
      happens, and the active tab's id is never changed. The views to reload are those of the
      tabs that took on a group and were not showing the document viewer. */
  method MigrateNarrateFileTabs(tabs: seq<Tab>, activeTabId: Option<string>, extensions: seq<Extension>)
      returns (r: Migration)
    ensures r.activeTabId == activeTabId
    ensures EditorView(extensions).None? ==> r == Migration(activeTabId, {}, tabs)
    ensures EditorView(extensions).Some? ==> Migrates(tabs, activeTabId, EditorView(extensions).value, r)
  {
    if EditorView(extensions).None? {
      return Migration(activeTabId, {}, tabs);
    }
    var view := EditorView(extensions).value;
    var paths := FindNarratePaths(tabs);
    if paths == {} {
      NothingToMigrate(tabs, activeTabId, view);
      NothingMigrated(tabs, activeTabId, view);
      return Migration(activeTabId, {}, tabs);
    }
    r := MigrateGroups(tabs, activeTabId, view, paths);
  }
}
