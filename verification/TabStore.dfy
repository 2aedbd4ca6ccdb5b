/** The browser's tab store: which tabs are open, which one is active, and whether its surface
    or the overview is shown. */
module TabStore {
  import opened Wrappers
  import opened TabMigration

  datatype Mode = Overview | Surface

  datatype Session = Session(activeTabId: Option<string>, tabs: seq<Tab>)

  /** What a resource is opened as. */
  datatype Target = Target(
    extensionId: string, handlerId: Option<string>, resourceId: Option<string>, resourceKind: Option<string>,
    viewId: string, navigation: Option<string>)

  /** What identifies a resource, if anything does: by extension, view, resource kind and id. */
  type Identity = (string, string, Option<string>, Option<string>) -> Option<string>

  function KeyOf(t: Tab, identify: Identity): Option<string> {
    identify(t.extensionId, t.viewId, t.resourceKind, t.resourceId)
  }

  datatype Opened = Created(id: string) | Selected(id: string) | Ignored

  /** A tab brought to the front for a target. */
  function Brought(t: Tab, target: Target, now: int): Tab {
    t.(lastActiveAt := now, pendingNavigation := target.navigation)
  }

  /** A tab made to show what the target names; a target without a handler leaves the tab's. */
  function Retargeted(t: Tab, target: Target): Tab {
    t.(handlerId := if target.handlerId.Some? then target.handlerId else t.handlerId,
       resourceId := target.resourceId, resourceKind := target.resourceKind, viewId := target.viewId)
  }

  function NewTab(id: string, target: Target, drafted: Option<string>, now: int): Tab {
    var resourceId := if target.resourceId.Some? then target.resourceId else drafted;
    Tab(id, target.extensionId, target.handlerId, now, None, resourceId, target.resourceKind, target.viewId, 0)
  }

  function Ids(tabs: seq<Tab>): (ids: seq<string>)
    ensures |ids| == |tabs|
  {
    seq(|tabs|, i requires 0 <= i < |tabs| => tabs[i].id)
  }

  predicate Present(tabs: seq<Tab>, id: string) { exists i :: 0 <= i < |tabs| && tabs[i].id == id }

  /** The ids of `tabs` are some of those of `before`, in the same order. */
  ghost predicate KeepsOrder(before: seq<Tab>, tabs: seq<Tab>) {
    exists origin: seq<nat> :: IsOrigin(before, tabs, origin)
  }

  predicate IsOrigin(before: seq<Tab>, tabs: seq<Tab>, origin: seq<nat>) {
    |origin| == |tabs| && Within(origin, |before|)
    && (forall j, k :: 0 <= j < k < |origin| ==> origin[j] < origin[k])
    && (forall j :: 0 <= j < |tabs| ==> tabs[j].id == before[origin[j]].id)
  }

  lemma OrderedSubsetIsDistinct(before: seq<Tab>, tabs: seq<Tab>)
    requires DistinctIds(before) && KeepsOrder(before, tabs)
    ensures DistinctIds(tabs)
  {
  }

  // ---------------------------------------------------------------------------------------
  // The most recent tab

  function MostRecentAmong(tabs: seq<Tab>, keep: Tab -> bool): (r: Option<nat>)
    ensures r.None? <==> forall i :: 0 <= i < |tabs| ==> !keep(tabs[i])
    ensures r.Some? ==>
      && r.value < |tabs| && keep(tabs[r.value])
      && forall i :: 0 <= i < |tabs| && keep(tabs[i]) ==>
        tabs[i].lastActiveAt <= tabs[r.value].lastActiveAt
        && (i < r.value ==> tabs[i].lastActiveAt < tabs[r.value].lastActiveAt)
  {
    if tabs == [] then None
    else
      var n := |tabs| - 1;
      var r := MostRecentAmong(tabs[..n], keep);
      if keep(tabs[n]) && (r.None? || tabs[n].lastActiveAt > tabs[r.value].lastActiveAt) then Some(n) else r
  }

  function NextActiveTabId(tabs: seq<Tab>): (id: Option<string>)
    ensures id.None? <==> tabs == []
    ensures id.Some? ==> Present(tabs, id.value)
  {
    match MostRecentAmong(tabs, _ => true)
    case None => None
    case Some(i) => Some(tabs[i].id)
  }

  lemma NextActiveIsMostRecent(tabs: seq<Tab>) returns (i: nat)
    requires tabs != []
    ensures i < |tabs| && NextActiveTabId(tabs) == Some(tabs[i].id)
    ensures forall k :: 0 <= k < |tabs| ==> tabs[k].lastActiveAt <= tabs[i].lastActiveAt
  {
    i := MostRecentAmong(tabs, _ => true).value;
  }

  predicate Truthy(id: Option<string>) { id.Some? && id.value != "" }

  // ---------------------------------------------------------------------------------------
  // Passes over the tabs

  function WithoutTab(tabs: seq<Tab>, id: string): seq<Tab> {
    if tabs == [] then []
    else
      var n := |tabs| - 1;
      var kept := WithoutTab(tabs[..n], id);
      if tabs[n].id == id then kept else kept + [tabs[n]]
  }

  /** Exactly the tabs with another id stay, ... */
  lemma {:induction false} WithoutTabKeepsOthers(tabs: seq<Tab>, id: string)
    ensures forall t :: t in WithoutTab(tabs, id) <==> t in tabs && t.id != id
  {
    if tabs != [] {
      var n := |tabs| - 1;
      WithoutTabKeepsOthers(tabs[..n], id);
      assert tabs == tabs[..n] + [tabs[n]];
    }
  }

  /** ... in their order. */
  lemma {:induction false} WithoutTabKeepsOrder(tabs: seq<Tab>, id: string)
    ensures KeepsOrder(tabs, WithoutTab(tabs, id))
  {
    if tabs == [] {
      IdentityKeepsOrder(tabs);
    } else {
      var n := |tabs| - 1;
      WithoutTabKeepsOrder(tabs[..n], id);
      OrderExtends(tabs[..n], tabs[n], WithoutTab(tabs[..n], id), tabs[n]);
      assert tabs == tabs[..n] + [tabs[n]];
    }
  }

  lemma ClosingIsClean(tabs: seq<Tab>, id: string)
    requires DistinctIds(tabs)
    ensures var kept := WithoutTab(tabs, id);
      && DistinctIds(kept) && KeepsOrder(tabs, kept)
      && (forall other :: Present(kept, other) <==> Present(tabs, other) && other != id)
      && (forall t :: t in tabs && t.id != id ==> t in kept)
  {
    var kept := WithoutTab(tabs, id);
    WithoutTabKeepsOthers(tabs, id);
    WithoutTabKeepsOrder(tabs, id);
    OrderedSubsetIsDistinct(tabs, kept);
    forall other
      ensures Present(kept, other) <==> Present(tabs, other) && other != id
    {
      PresentIsMembership(kept, other);
      PresentIsMembership(tabs, other);
    }
  }

  lemma PresentIsMembership(tabs: seq<Tab>, id: string)
    ensures Present(tabs, id) <==> exists t :: t in tabs && t.id == id
  {
    if Present(tabs, id) {
      var i :| 0 <= i < |tabs| && tabs[i].id == id;
      assert tabs[i] in tabs;
    }
  }

  lemma OrderExtends(before: seq<Tab>, tab: Tab, kept: seq<Tab>, tab': Tab)
    requires KeepsOrder(before, kept) && tab'.id == tab.id
    ensures KeepsOrder(before + [tab], kept) && KeepsOrder(before + [tab], kept + [tab'])
  {
    var origin: seq<nat> :| IsOrigin(before, kept, origin);
    assert IsOrigin(before + [tab], kept, origin);
    assert IsOrigin(before + [tab], kept + [tab'], origin + [|before|]);
  }

  /** What a catalog makes of a tab's address, revision and reload count; `forced` reloads it. */
  type Reviser = (Tab, seq<Extension>, bool) -> nat

  function Revised(t: Tab, extensions: seq<Extension>, forced: bool, revise: Reviser): Tab {
    t.(rest := revise(t, extensions, forced))
  }

  /** An open tab under a new catalog: gone when its extension or view is. */
  function ReconciledTab(t: Tab, extensions: seq<Extension>, forced: bool, revise: Reviser): (kept: Option<Tab>)
    ensures kept.Some? <==> exists k :: IsFirst(extensions, k, t.extensionId) && t.viewId in extensions[k].views
    ensures kept.Some? ==> kept.value == t.(rest := revise(t, extensions, forced))
  {
    var extension := FindExtension(extensions, t.extensionId);
    if extension.Some? && t.viewId in extension.value.views then Some(Revised(t, extensions, forced, revise)) else None
  }

  /** A saved tab under a catalog: gone when its extension is, and on the main view when its
      own is unknown. */
  function RebuiltTab(t: Tab, extensions: seq<Extension>, revise: Reviser): (kept: Option<Tab>)
    ensures kept.Some? <==> exists x :: x in extensions && x.id == t.extensionId
    ensures kept.Some? ==> kept.value == t.(viewId := kept.value.viewId, rest := kept.value.rest)
    ensures forall k :: IsFirst(extensions, k, t.extensionId) ==>
      kept.Some? && kept.value.viewId == if t.viewId in extensions[k].views then t.viewId else "main"
  {
    var extension := FindExtension(extensions, t.extensionId);
    if extension.None? then None
    else
      var viewId := if t.viewId in extension.value.views then t.viewId else "main";
      Some(Revised(t.(viewId := viewId), extensions, false, revise))
  }

  lemma {:induction false} AdaptedKeepsOrder(tabs: seq<Tab>, adapt: Tab -> Option<Tab>)
    requires forall t :: adapt(t).Some? ==> adapt(t).value.id == t.id
    ensures KeepsOrder(tabs, Adapted(tabs, adapt))
  {
    if tabs == [] {
      IdentityKeepsOrder(tabs);
    } else {
      var n := |tabs| - 1;
      AdaptedKeepsOrder(tabs[..n], adapt);
      var adapted := adapt(tabs[n]);
      OrderExtends(tabs[..n], tabs[n], Adapted(tabs[..n], adapt), if adapted.Some? then adapted.value else tabs[n]);
      assert tabs == tabs[..n] + [tabs[n]];
    }
  }

  /** No tab that should be kept is lost, and none comes from nowhere. */
  lemma {:induction false} AdaptedTabs(tabs: seq<Tab>, adapt: Tab -> Option<Tab>)
    ensures forall t :: t in tabs && adapt(t).Some? ==> adapt(t).value in Adapted(tabs, adapt)
    ensures forall t' :: t' in Adapted(tabs, adapt) ==> exists t :: t in tabs && adapt(t) == Some(t')
  {
    if tabs != [] {
      var n := |tabs| - 1;
      AdaptedTabs(tabs[..n], adapt);
      assert tabs == tabs[..n] + [tabs[n]];
    }
  }

  /** Whatever the ids, the tabs that stay are in their order. */
  lemma MigrationKeepsOrder(tabs: seq<Tab>, activeTabId: Option<string>, view: string, r: seq<Tab>)
    requires IsMigration(tabs, activeTabId, view, r)
    ensures KeepsOrder(tabs, r)
  {
    var removed, replacements := MigrationKeepsIds(tabs, activeTabId, view, r);
    AdaptedKeepsOrder(tabs, Finished(removed, replacements));
  }

  lemma IdentityKeepsOrder(tabs: seq<Tab>)
    ensures KeepsOrder(tabs, tabs)
  {
    assert IsOrigin(tabs, tabs, seq(|tabs|, i => i));
  }

  lemma KeepsOrderTransitive(a: seq<Tab>, b: seq<Tab>, c: seq<Tab>)
    requires KeepsOrder(a, b) && KeepsOrder(b, c)
    ensures KeepsOrder(a, c)
  {
    var ab: seq<nat> :| IsOrigin(a, b, ab);
    var bc: seq<nat> :| IsOrigin(b, c, bc);
    assert IsOrigin(a, c, seq(|bc|, j requires 0 <= j < |bc| => ab[bc[j]]));
  }

  /** What becomes of tabs once Narrate's have moved, if the editor can take them. */
  ghost predicate MigratesTo(source: Session, extensions: seq<Extension>, m: Migration) {
    match EditorView(extensions)
    case None => m == Migration(source.activeTabId, {}, source.tabs)
    case Some(view) => Migrates(source.tabs, source.activeTabId, view, m)
  }

  /** Ways to migrate: one for distinct ids; with repeated ones, any tab that stands for a
      group may lend its id. */
  ghost function Migrations(source: Session, extensions: seq<Extension>): iset<Migration> {
    iset m: Migration | MigratesTo(source, extensions, m)
  }

  method Migrate(source: Session, extensions: seq<Extension>) returns (m: Migration)
    ensures m.activeTabId == source.activeTabId
    ensures m in Migrations(source, extensions) && KeepsOrder(source.tabs, m.tabs)
  {
    var tabs, activeTabId := source.tabs, source.activeTabId;
    m := MigrateNarrateFileTabs(tabs, activeTabId, extensions);
    if EditorView(extensions).Some? {
      MigrationKeepsOrder(tabs, activeTabId, EditorView(extensions).value, m.tabs);
    } else {
      IdentityKeepsOrder(tabs);
    }
  }

  // ---------------------------------------------------------------------------------------
  // The store

  class Store {
    const identify: Identity
    const revise: Reviser
    var tabs: seq<Tab>
    var activeTabId: Option<string>
    var mode: Mode
    var extensions: seq<Extension>

    /** Ids are distinct, the active tab is open, and the surface is shown only for one. */
    ghost predicate Valid()
      reads this
    {
      && DistinctIds(tabs)
      && (activeTabId.Some? ==> Present(tabs, activeTabId.value))
      && (mode == Surface ==> activeTabId.Some?)
    }

    constructor (identify: Identity, revise: Reviser)
      ensures Valid() && tabs == [] && activeTabId == None && mode == Overview && extensions == []
      ensures this.identify == identify && this.revise == revise
    {
      this.identify, this.revise := identify, revise;
      tabs, activeTabId, mode, extensions := [], None, Overview, [];
    }

    method CloseOverview()
      requires Valid()
      modifies this`mode
      ensures Valid() && (mode == Surface <==> activeTabId.Some? && activeTabId.value != "")
    {
      mode := if Truthy(activeTabId) then Surface else Overview;
    }

    method OpenOverview()
      requires Valid()
      modifies this`mode
      ensures Valid() && mode == Overview
    {
      mode := Overview;
    }

    /** Closes a tab. If it was the active one, the most recent of the others takes over. */
    method CloseTab(id: string, returnToOverview: bool)
      requires Valid()
      modifies this
      ensures Valid() && !Present(tabs, id) && KeepsOrder(old(tabs), tabs) && extensions == old(extensions)
      ensures forall t :: t in old(tabs) && t.id != id ==> t in tabs
      ensures activeTabId == if old(activeTabId) == Some(id) then NextActiveTabId(tabs) else old(activeTabId)
      ensures mode ==
        if (old(activeTabId) == Some(id) && returnToOverview) || !Truthy(activeTabId) then Overview else old(mode)
    {
      var closed := activeTabId == Some(id);
      ClosingIsClean(tabs, id);
      tabs := WithoutTab(tabs, id);
      if closed {
        activeTabId := NextActiveTabId(tabs);
      }
      mode := if closed && returnToOverview then Overview else if Truthy(activeTabId) then mode else Overview;
    }

    /** Moves a tab to another place; the others keep their order. */
    method MoveTab(id: string, toIndex: int)
      requires Valid()
      modifies this`tabs
      ensures Valid()
      ensures !Present(old(tabs), id) ==> tabs == old(tabs)
      ensures Present(old(tabs), id) ==> exists from ::
        IsMove(old(tabs), from, Clamp(toIndex, |old(tabs)| - 1), tabs) && old(tabs)[from].id == id
    {
      ghost var before := tabs;
      var from := FindTab(id);
      if from < 0 { return; }
      var to := Clamp(toIndex, |tabs| - 1);
      if to == from {
        assert IsMove(before, from, to, tabs);
        return;
      }
      var moved := tabs[from];
      var others := tabs[..from] + tabs[from + 1..];
      tabs := others[..to] + [moved] + others[to..];
      MovedIsMove(before, from, to, tabs);
      MovedIsDistinct(before, from, to, tabs);
    }

    method FindTab(id: string) returns (i: int)
      ensures i < 0 ==> !Present(tabs, id)
      ensures i >= 0 ==> i < |tabs| && tabs[i].id == id
    {
      for k := 0 to |tabs|
        invariant forall j :: 0 <= j < k ==> tabs[j].id != id
      {
        if tabs[k].id == id { return k; }
      }
      i := -1;
    }

    /** Selecting makes a tab active and shows it. Nothing checks that the tab is open; the
        store stays consistent exactly when it is. */
    method SelectTab(id: string, now: int)
      requires Valid()
      modifies this`tabs, this`activeTabId, this`mode
      ensures activeTabId == Some(id) && mode == Surface && Ids(tabs) == old(Ids(tabs))
      ensures forall k :: 0 <= k < |tabs| ==>
        var was := old(tabs)[k];
        tabs[k] == if was.id == id then Revised(was, extensions, false, revise).(lastActiveAt := now) else was
      ensures Valid() <==> Present(old(tabs), id)
    {
      var i := FindTab(id);
      if i >= 0 {
        Touch(i, Revised(tabs[i], extensions, false, revise).(lastActiveAt := now));
      }
      activeTabId, mode := Some(id), Surface;
    }

    method Touch(i: nat, tab: Tab)
      requires i < |tabs| && tab.id == tabs[i].id && DistinctIds(tabs)
      modifies this`tabs
      ensures tabs == old(tabs)[i := tab] && DistinctIds(tabs) && Ids(tabs) == old(Ids(tabs))
      ensures forall id :: Present(old(tabs), id) ==> Present(tabs, id)
    {
      ghost var before := tabs;
      tabs := tabs[i := tab];
      assert forall k :: 0 <= k < |tabs| ==> tabs[k].id == before[k].id;
    }

    /** Opens a resource: in the most recent tab that shows it, else in the tab it was opened
        from if that still shows what it did, else in a new one. A new tab without a resource id
        of its own may get one (`drafted`). */
    method OpenResource(target: Target, reuse: bool, origin: Option<(string, string)>, drafted: Option<string>,
                        freshId: string, now: int) returns (r: Opened)
      requires Valid()
      modifies this`tabs, this`activeTabId, this`mode
      // Consistent, unless a new tab was given an id already in use.
      ensures Valid() <==> !(r.Created? && Present(old(tabs), freshId))
      ensures r.Ignored? <==> FindExtension(extensions, target.extensionId).None?
      ensures r.Ignored? ==> tabs == old(tabs) && activeTabId == old(activeTabId) && mode == old(mode)
      ensures !r.Ignored? ==> activeTabId == Some(r.id) && mode == Surface
      ensures r.Selected? ==> reuse && Ids(tabs) == old(Ids(tabs)) && exists i ::
        && 0 <= i < |old(tabs)| && r.id == old(tabs)[i].id && tabs == old(tabs)[i := tabs[i]]
        && tabs[i].lastActiveAt == now && tabs[i].pendingNavigation == target.navigation
        && (SelectedAsIs(old(tabs), i, tabs[i], target) || RetargetedTo(old(tabs), i, tabs[i], target, origin))
      ensures r.Created? ==>
        && r.id == freshId && |tabs| == |old(tabs)| + 1 && tabs[..|old(tabs)|] == old(tabs)
        && var t := tabs[|old(tabs)|];
        && t.id == freshId && t.extensionId == target.extensionId && t.handlerId == target.handlerId
        && t.lastActiveAt == now && t.pendingNavigation == None && t.viewId == target.viewId
        && t.resourceKind == target.resourceKind
        && (t.resourceId == target.resourceId || (target.resourceId.None? && t.resourceId == drafted))
      // A new tab is opened for reuse only when no tab shows the resource and the origin is gone or changed.
      ensures r.Created? && reuse && Wanted(target).Some? ==> forall i :: 0 <= i < |old(tabs)| ==>
        KeyOf(old(tabs)[i], identify) != Wanted(target) && !IsStillOrigin(old(tabs)[i], origin)
    {
      if FindExtension(extensions, target.extensionId).None? { return Ignored; }
      if reuse {
        var selected := Reuse(target, origin, now);
        if selected.Some? { return Selected(selected.value); }
      }
      AddTab(NewTab(freshId, target, drafted, now));
      r := Created(freshId);
    }

    /** Brings a tab to the front for the target, if one serves it. */
    method Reuse(target: Target, origin: Option<(string, string)>, now: int) returns (id: Option<string>)
      requires Valid()
      modifies this`tabs, this`activeTabId, this`mode
      ensures Valid()
      ensures id.None? ==> tabs == old(tabs) && activeTabId == old(activeTabId) && mode == old(mode)
      ensures id.None? && Wanted(target).Some? ==> forall i :: 0 <= i < |tabs| ==>
        KeyOf(tabs[i], identify) != Wanted(target) && !IsStillOrigin(tabs[i], origin)
      ensures id.Some? ==> activeTabId == id && mode == Surface && Ids(tabs) == old(Ids(tabs)) && exists i ::
        && 0 <= i < |old(tabs)| && id.value == old(tabs)[i].id && tabs == old(tabs)[i := tabs[i]]
        && tabs[i].lastActiveAt == now && tabs[i].pendingNavigation == target.navigation
        && (SelectedAsIs(old(tabs), i, tabs[i], target) || RetargetedTo(old(tabs), i, tabs[i], target, origin))
    {
      id := None;
      var key := identify(target.extensionId, target.viewId, target.resourceKind, target.resourceId);
      if key.None? { return; }
      var existing := MostRecentAmong(tabs, t => KeyOf(t, identify) == key);
      if existing.Some? {
        var i := existing.value;
        id := Some(tabs[i].id);
        Show(i, Brought(tabs[i], target, now));
      } else if origin.Some? {
        var i := FindTab(origin.value.0);
        if i >= 0 && KeyOf(tabs[i], identify) == Some(origin.value.1) {
          id := Some(tabs[i].id);
          Show(i, Brought(Retargeted(tabs[i], target), target, now));
        }
      }
    }

    /** What identifies the target. */
    function Wanted(target: Target): Option<string> {
      identify(target.extensionId, target.viewId, target.resourceKind, target.resourceId)
    }

    /** The tab is the one it was opened from, and still shows what it did. */
    predicate IsStillOrigin(t: Tab, origin: Option<(string, string)>) {
      origin.Some? && t.id == origin.value.0 && KeyOf(t, identify) == Some(origin.value.1)
    }

    /** Tab `i` showed the resource, none that did was more recent, and it shows what it did. */
    predicate SelectedAsIs(before: seq<Tab>, i: int, t: Tab, target: Target) {
      0 <= i < |before|
      && var was := before[i];
      && Wanted(target).Some? && KeyOf(was, identify) == Wanted(target)
      && (forall other :: other in before && KeyOf(other, identify) == Wanted(target) ==>
            other.lastActiveAt <= was.lastActiveAt)
      && t.id == was.id && t.extensionId == was.extensionId && t.handlerId == was.handlerId
      && t.viewId == was.viewId && t.resourceKind == was.resourceKind && t.resourceId == was.resourceId
    }

    /** No tab showed the resource, tab `i` was its origin, and now shows it, as a tab of its own
        extension. */
    predicate RetargetedTo(before: seq<Tab>, i: int, t: Tab, target: Target, origin: Option<(string, string)>) {
      0 <= i < |before|
      && var was := before[i];
      && Wanted(target).Some? && (forall other :: other in before ==> KeyOf(other, identify) != Wanted(target))
      && IsStillOrigin(was, origin) && t.id == was.id && t.extensionId == was.extensionId
      && t.handlerId == (if target.handlerId.Some? then target.handlerId else was.handlerId)
      && t.viewId == target.viewId && t.resourceKind == target.resourceKind && t.resourceId == target.resourceId
    }

    method Show(i: nat, tab: Tab)
      requires Valid() && i < |tabs| && tab.id == tabs[i].id
      modifies this`tabs, this`activeTabId, this`mode
      ensures Valid() && tabs == old(tabs)[i := tab] && Ids(tabs) == old(Ids(tabs))
      ensures activeTabId == Some(tab.id) && mode == Surface
    {
      Touch(i, tab);
      assert tabs[i].id == tab.id;
      activeTabId, mode := Some(tab.id), Surface;
    }

    method AddTab(tab: Tab)
      requires Valid()
      modifies this`tabs, this`activeTabId, this`mode
      ensures tabs == old(tabs) + [tab] && activeTabId == Some(tab.id) && mode == Surface
      ensures Valid() <==> !Present(old(tabs), tab.id)
    {
      ghost var before := tabs;
      tabs := tabs + [tab];
      assert tabs[|before|].id == tab.id;
      if Present(before, tab.id) {
        var i :| 0 <= i < |before| && before[i].id == tab.id;
        assert tabs[i].id == tabs[|before|].id;
      }
      activeTabId, mode := Some(tab.id), Surface;
    }

    /** A new catalog arrives: with no tabs open the saved session is restored, otherwise the
        open tabs are migrated and reconciled. The active tab stays active if it survives. */
    method ApplyCatalog(catalog: seq<Extension>, session: Option<Session>) returns (ghost m: Migration)
      requires Valid()
      modifies this
      ensures extensions == catalog
      // Only repeated ids, in a session read back, could make it inconsistent.
      ensures Valid() <==> DistinctIds(tabs)
      ensures DistinctIds(SourceOf(old(Session(activeTabId, tabs)), session).tabs) ==> Valid()
      ensures var source := SourceOf(old(Session(activeTabId, tabs)), session);
        && activeTabId == StillActive(source.activeTabId, tabs)
        && Carried(source, catalog, old(tabs) == [] && session.Some?, m, revise, tabs)
      ensures mode == if (old(tabs) == [] && session.Some?) || !Truthy(activeTabId) then Overview else old(mode)
    {
      var restoring := tabs == [] && session.Some?;
      var source := SourceOf(Session(activeTabId, tabs), session);
      var kept, active;
      kept, active, m := AdaptSession(source, catalog, restoring, revise);
      tabs, activeTabId, extensions := kept, active, catalog;
      mode := if restoring || !Truthy(active) then Overview else mode;
    }
  }

  /** Where the tabs come from: the saved session when none are open, else the open ones. */
  function SourceOf(current: Session, saved: Option<Session>): (source: Session)
    ensures current.tabs != [] || saved.None? ==> source == current
    ensures current.tabs == [] && saved.Some? ==> source == saved.value
  {
    if current.tabs == [] && saved.Some? then saved.value else current
  }

  /** The tab that was active, if it is still there, else the most recent one. */
  function StillActive(id: Option<string>, tabs: seq<Tab>): (active: Option<string>)
    ensures active.Some? ==> Present(tabs, active.value)
    ensures active.None? <==> tabs == []
    ensures Truthy(id) && Present(tabs, id.value) ==> active == id
  {
    if Truthy(id) && Present(tabs, id.value) then id else NextActiveTabId(tabs)
  }

  /** What restoring or reconciling does to each tab; `forced` are the ids of those to reload. */
  function Adapter(catalog: seq<Extension>, restoring: bool, forced: set<string>, revise: Reviser): Tab -> Option<Tab> {
    t => if restoring then RebuiltTab(t, catalog, revise) else ReconciledTab(t, catalog, t.id in forced, revise)
  }

  /** The tabs that stay keep their order, distinct ids stay distinct, and what is kept is
      exactly the migrated tabs, each one restored or reconciled. */
  ghost predicate Carried(source: Session, catalog: seq<Extension>, restoring: bool, m: Migration, revise: Reviser,
                          kept: seq<Tab>)
  {
    && m in Migrations(source, catalog) && KeepsOrder(source.tabs, kept)
    && (DistinctIds(source.tabs) ==> DistinctIds(kept))
    && kept == Adapted(m.tabs, Adapter(catalog, restoring, m.migratedTabIds, revise))
  }

  /** The tabs after a catalog has arrived: migrated, then rebuilt or reconciled one by one. */
  method AdaptTabs(source: Session, catalog: seq<Extension>, restoring: bool, revise: Reviser)
      returns (kept: seq<Tab>, m: Migration)
    ensures Carried(source, catalog, restoring, m, revise, kept)
  {
    m := Migrate(source, catalog);
    var adapt := Adapter(catalog, restoring, m.migratedTabIds, revise);
    kept := Adapted(m.tabs, adapt);
    AdaptedKeepsOrder(m.tabs, adapt);
    KeepsOrderTransitive(source.tabs, m.tabs, kept);
    if DistinctIds(source.tabs) {
      OrderedSubsetIsDistinct(source.tabs, kept);
    }
  }

  method AdaptSession(source: Session, catalog: seq<Extension>, restoring: bool, revise: Reviser)
      returns (kept: seq<Tab>, active: Option<string>, m: Migration)
    ensures Carried(source, catalog, restoring, m, revise, kept) && active == StillActive(source.activeTabId, kept)
    ensures DistinctIds(source.tabs) ==> DistinctIds(kept)
    ensures active.Some? ==> Present(kept, active.value)
  {
    kept, m := AdaptTabs(source, catalog, restoring, revise);
    active := StillActive(source.activeTabId, kept);
  }

  /** Where the tab at place `k` was before a tab moved from `from` to `to`. */
  function PlaceBefore(k: nat, from: nat, to: nat): nat {
    if k == to then from
    else
      var m := if k < to then k else k - 1;
      if m < from then m else m + 1
  }

  lemma MovedPlaces(before: seq<Tab>, from: nat, to: nat, after: seq<Tab>)
    requires from < |before| && to < |before|
    requires var others := before[..from] + before[from + 1..]; after == others[..to] + [before[from]] + others[to..]
    ensures |after| == |before|
    ensures forall k :: 0 <= k < |after| ==>
      PlaceBefore(k, from, to) < |before| && after[k] == before[PlaceBefore(k, from, to)]
  {
    var others := before[..from] + before[from + 1..];
    forall k | 0 <= k < |after|
      ensures PlaceBefore(k, from, to) < |before| && after[k] == before[PlaceBefore(k, from, to)]
    {
      if k != to {
        var m := if k < to then k else k - 1;
        assert after[k] == others[m];
      }
    }
  }

  /** The place nearest to `i`. */
  function Clamp(i: int, last: nat): (place: nat)
    ensures place <= last && (0 <= i <= last ==> place == i)
    ensures i < 0 ==> place == 0
    ensures i > last ==> place == last
  {
    if i < 0 then 0 else if i > last then last else i
  }

  /** One tab has gone from one place to another; without it, nothing has changed. */
  predicate IsMove(before: seq<Tab>, from: int, to: int, after: seq<Tab>) {
    && 0 <= from < |before| && 0 <= to < |after| && after[to] == before[from]
    && after[..to] + after[to + 1..] == before[..from] + before[from + 1..]
  }

  lemma MovedIsMove(before: seq<Tab>, from: nat, to: nat, after: seq<Tab>)
    requires from < |before| && to < |before|
    requires var others := before[..from] + before[from + 1..]; after == others[..to] + [before[from]] + others[to..]
    ensures IsMove(before, from, to, after)
  {
    var others := before[..from] + before[from + 1..];
    assert after[..to] == others[..to] && after[to + 1..] == others[to..];
  }

  lemma MovedIsDistinct(before: seq<Tab>, from: nat, to: nat, after: seq<Tab>)
    requires DistinctIds(before) && from < |before| && to < |before|
    requires var others := before[..from] + before[from + 1..]; after == others[..to] + [before[from]] + others[to..]
    ensures DistinctIds(after) && forall id :: Present(before, id) ==> Present(after, id)
  {
    MovedPlaces(before, from, to, after);
    forall j, k | 0 <= j < k < |after|
      ensures after[j].id != after[k].id
    {
      var j', k' := PlaceBefore(j, from, to), PlaceBefore(k, from, to);
      assert j' < k' || k' < j';
    }
    forall id | Present(before, id)
      ensures Present(after, id)
    {
      var i: nat :| i < |before| && before[i].id == id;
      var k := PlaceBefore(i, to, from);
      assert PlaceBefore(k, from, to) == i;
      assert after[k].id == id;
    }
  }

  // ---------------------------------------------------------------------------------------
  // Lifetimes

  /** What every snapshot of the store satisfies. */
  predicate Consistent(s: Session) {
    DistinctIds(s.tabs) && (s.activeTabId.Some? ==> Present(s.tabs, s.activeTabId.value))
  }

  /** What a new process reads of a snapshot; the parser refuses some tabs. */
  method ReadBack(written: Session) returns (read: Session)
    requires DistinctIds(written.tabs)
    ensures DistinctIds(read.tabs) && KeepsOrder(written.tabs, read.tabs)
  {
    var refused: set<string> := *;
    var parse := (t: Tab) => if t.id in refused then None else Some(t);
    read := Session(written.activeTabId, Adapted(written.tabs, parse));
    AdaptedKeepsOrder(written.tabs, parse);
    OrderedSubsetIsDistinct(written.tabs, read.tabs);
  }

  /** A new process has read one of the sessions written so far, as writes may overtake each
      other, or none. */
  method ReadSome(written: seq<Session>) returns (read: Option<Session>)
    requires forall s :: s in written ==> Consistent(s)
    ensures read.Some? ==> DistinctIds(read.value.tabs)
  {
    var k: int := *;
    if !(0 <= k < |written|) { return None; }
    assert written[k] in written;
    var session := ReadBack(written[k]);
    read := Some(session);
  }

  /** One thing the user or the catalog does. Only open tabs are selected, and new tabs have
      ids that are not in use. */
  method AnyAction(store: Store, session: Option<Session>)
    requires store.Valid() && (session.Some? ==> DistinctIds(session.value.tabs))
    modifies store
    ensures store.Valid()
  {
    var action: nat, id: string, flag: bool, place: int, now: int := *, *, *, *, *;
    var target: Target, origin: Option<(string, string)>, drafted: Option<string> := *, *, *;
    var catalog: seq<Extension> := *;
    match action {
      case 0 => store.CloseTab(id, flag);
      case 1 => store.MoveTab(id, place);
      case 2 => if Present(store.tabs, id) { store.SelectTab(id, now); }
      case 3 => if !Present(store.tabs, id) { var _ := store.OpenResource(target, flag, origin, drafted, id, now); }
      case 4 => store.OpenOverview();
      case 5 => store.CloseOverview();
      case _ => var _ := store.ApplyCatalog(catalog, session);
    }
  }

  /** Any number of actions and new processes, in any order. Every process reads its session
      once; every action is followed by a snapshot. Throughout, the store is consistent, and
      so is every session ever written. */
  method Lifetime(identify: Identity, revise: Reviser, rounds: nat)
      returns (store: Store, written: seq<Session>)
    ensures store.Valid() && forall s :: s in written ==> Consistent(s)
  {
    store := new Store(identify, revise);
    written := [];
    var session: Option<Session> := None;
    for round := 0 to rounds
      invariant fresh(store) && store.Valid()
      invariant forall s :: s in written ==> Consistent(s)
      invariant session.Some? ==> DistinctIds(session.value.tabs)
    {
      var restarts: bool := *;
      if restarts {
        store := new Store(identify, revise);
        session := ReadSome(written);
      } else {
        AnyAction(store, session);
        written := written + [Session(store.activeTabId, store.tabs)];
      }
    }
  }

  predicate Shown(tabs: seq<Tab>, identify: Identity, key: Option<string>) {
    exists i :: 0 <= i < |tabs| && KeyOf(tabs[i], identify) == key
  }

  /** Opening a resource that some tab shows selects such a tab and adds none. */
  method Reopen(store: Store, target: Target, origin: Option<(string, string)>, drafted: Option<string>,
                freshId: string, now: int) returns (r: Opened)
    requires store.Valid() && store.Wanted(target).Some? && Shown(store.tabs, store.identify, store.Wanted(target))
    requires FindExtension(store.extensions, target.extensionId).Some?
    modifies store
    ensures store.Valid() && r.Selected? && Ids(store.tabs) == old(Ids(store.tabs))
    ensures exists i ::
      && 0 <= i < |old(store.tabs)| && old(store.tabs)[i].id == r.id
      && KeyOf(old(store.tabs)[i], store.identify) == store.Wanted(target)
  {
    r := store.OpenResource(target, true, origin, drafted, freshId, now);
  }

  /** The tab with the id is the extension's. */
  predicate OfExtension(tabs: seq<Tab>, id: string, extensionId: string) {
    forall t :: t in tabs && t.id == id ==> t.extensionId == extensionId
  }

  /** After opening a resource a tab shows it, unless a new tab had no resource id to show it
      by, or a tab of another extension was retargeted. */
  method OpenShows(store: Store, target: Target, reuse: bool, origin: Option<(string, string)>, drafted: Option<string>,
                   freshId: string, now: int) returns (r: Opened)
    requires store.Valid() && store.Wanted(target).Some? && !Present(store.tabs, freshId)
    requires FindExtension(store.extensions, target.extensionId).Some?
    modifies store
    ensures store.Valid() && !r.Ignored? && store.extensions == old(store.extensions)
    ensures (r.Created? && (target.resourceId.Some? || drafted.None?))
            || (r.Selected? && OfExtension(old(store.tabs), r.id, target.extensionId)) ==>
      Shown(store.tabs, store.identify, store.Wanted(target))
  {
    ghost var before := store.tabs;
    r := store.OpenResource(target, reuse, origin, drafted, freshId, now);
    if r.Created? {
      var t := store.tabs[|before|];
    } else {
      ghost var i :| 0 <= i < |before| && r.id == before[i].id && store.tabs == before[i := store.tabs[i]]
        && (store.SelectedAsIs(before, i, store.tabs[i], target)
            || store.RetargetedTo(before, i, store.tabs[i], target, origin));
      assert before[i] in before;
    }
  }

  /** When the tab a resource is opened from does not show it once retargeted, as one of another
      extension need not, the resource opened again gets a tab of its own. */
  method RetargetedIsNotFound(store: Store, target: Target, origin: (string, string), i: nat, ids: (string, string),
                              now: int) returns (first: Opened, second: Opened)
    requires store.Valid() && FindExtension(store.extensions, target.extensionId).Some? && store.Wanted(target).Some?
    requires i < |store.tabs| && store.IsStillOrigin(store.tabs[i], Some(origin))
    requires !Shown(store.tabs, store.identify, store.Wanted(target))
    requires var t := Retargeted(store.tabs[i], target);
      var key := KeyOf(t, store.identify);
      key != store.Wanted(target) && key != Some(origin.1)
    modifies store
    ensures first.Selected? && second.Created?
  {
    ghost var before := store.tabs;
    first := store.OpenResource(target, true, Some(origin), None, ids.0, now);
    if first.Selected? {
      ghost var k :| 0 <= k < |before| && first.id == before[k].id && store.tabs == before[k := store.tabs[k]]
        && (store.SelectedAsIs(before, k, store.tabs[k], target)
            || store.RetargetedTo(before, k, store.tabs[k], target, Some(origin)));
      assert before[k].id == before[i].id;
    }
    second := store.OpenResource(target, true, Some(origin), None, ids.1, now);
  }

  /** For instance: from a tab of one extension that shows `x`, another extension's `y`. */
  method RetargetedAcrossExtensions(revise: Reviser, now: int) returns (first: Opened, second: Opened)
    ensures first.Selected? && second.Created?
  {
    var store := TwoExtensions(revise, now);
    var target := Target("b", None, Some("y"), Some("file"), "main", None);
    assert "a" + ":" + "x" == "a:x" && "b" + ":" + "y" == "b:y" && "a" + ":" + "y" == "a:y";
    assert "b:y"[0] != "a:x"[0] && "a:y"[0] != "b:y"[0] && "a:y"[2] != "a:x"[2];
    first, second := RetargetedIsNotFound(store, target, ("1", "a:x"), 0, ("2", "3"), now);
  }

  function PlainKey(extension: string, view: string, kind: Option<string>, id: Option<string>): Option<string> {
    if id.Some? then Some(extension + ":" + id.value) else None
  }

  /** A store with the extensions `a` and `b`, and one tab of `a` that shows `x`. */
  method TwoExtensions(revise: Reviser, now: int) returns (store: Store)
    ensures fresh(store) && store.Valid() && store.identify == PlainKey && |store.tabs| == 1
    ensures var t := store.tabs[0];
      && t.id == "1" && t.extensionId == "a" && t.viewId == "main"
      && t.resourceKind == Some("file") && t.resourceId == Some("x")
    ensures FindExtension(store.extensions, "b").Some?
  {
    store := new Store(PlainKey, revise);
    var a, b := Extension("a", [], {"main"}), Extension("b", [], {"main"});
    var catalog := [a, b];
    var m := store.ApplyCatalog(catalog, None);
    assert store.tabs == [] && a in catalog && b in catalog;
    var r := store.OpenResource(Target("a", None, Some("x"), Some("file"), "main", None), false, None, None, "1", now);
  }

  /** The guard on selection is needed: the id of a closed tab makes the store inconsistent. */
  method SelectionOfClosedTab(identify: Identity, revise: Reviser, id: string, now: int)
      returns (store: Store)
    ensures !store.Valid() && store.tabs == [] && store.activeTabId == Some(id)
  {
    store := new Store(identify, revise);
    store.SelectTab(id, now);
    assert |Ids(store.tabs)| == 0;
  }
}
