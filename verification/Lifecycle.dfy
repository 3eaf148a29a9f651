// The life of one launch mapping over any run of installs, forced reinstalls,
// repairs, Steam refreshes, state reloads and removals.
module Lifecycle {
  import opened Wrappers
  import opened Words
  import opened Vdf
  import opened Strings
  import opened Codec
  import opened AppImage
  import opened Launch
  import opened Plan
  import opened Undo
  import opened Editor
  import opened Storage
  import opened EndToEnd
  import opened Mapping
  import opened Repairing

  // The appinfo file and the recorded state of one app.
  datatype World = World(file: Bytes, state: Option<State>)

  datatype Action =
    | InstallAll(template: string -> string)
    | InstallOne(executable: string, selector: Selector, guard: Guard, disable: bool)
    | RepairMapping(
        files: Files, launcher: string -> string, force: bool, running: bool, fails: Operation -> bool)
    | SteamRefresh(newer: Bytes)
    | ReloadState(again: State)
    | Remove

  // --- One action -----------------------------------------------------------

  // An install works on a copy from which an existing mapping is restored first.
  function Cleared(sums: Sums, appid: Word32, w: World): Result<Bytes, Fault> {
    match w.state
    case None => Ok(w.file)
    case Some(st) => Editor.RestoreFile(sums, w.file, st, Some(appid))
  }

  function RecordedOf(st: State, launcher: string -> string): Recorded {
    if !RedirectsTyped(st.entries) || st.entries == [] then Unreadable
    else
      Recorded(st.appid, seq(|st.entries|, i requires 0 <= i < |st.entries| && RedirectsTyped(st.entries) =>
        Item(st.entries[i].entry, st.entries[i].original.text, st.entries[i].installed.text,
            launcher(st.entries[i].entry))))
  }

  // A command that fails leaves the world as it is.
  function Next(h: Host, sums: Sums, appid: Word32, w: World, a: Action): World {
    match a
    case InstallAll(template) =>
      (match Cleared(sums, appid, w)
       case Err(_) => w
       case Ok(file) =>
         match PatchAllFile(h, sums, file, appid, template)
         case Err(_) => w
         case Ok((file', st)) => World(file', Some(st)))
    case InstallOne(executable, selector, guard, disable) =>
      (match Cleared(sums, appid, w)
       case Err(_) => w
       case Ok(file) =>
         match PatchOneFile(h, sums, file, appid, executable, selector, guard, disable)
         case Err(_) => w
         case Ok((file', st)) => World(file', Some(st)))
    case RepairMapping(files, launcher, force, running, fails) =>
      (match w.state
       case None => w
       case Some(st) =>
         match AfterRepair(h, sums, Some(w.file), RecordedOf(st, launcher), Some(appid), files, force, running, fails)
         case Some(file') => w.(file := file')
         case None => w)
    case SteamRefresh(newer) => w.(file := newer)
    case ReloadState(again) => w.(state := Some(again))
    case Remove =>
      (match w.state
       case None => w
       case Some(st) =>
         match Editor.RestoreFile(sums, w.file, st, Some(appid))
         case Err(_) => w
         case Ok(file') => World(file', None))
  }

  // --- What Steam and the state file may do in between ----------------------

  function ResetItem(item: Tree, key: string, plan: Plan, executables: set<string>, configs: set<string>): Tree {
    var a := if key in executables && key in plan.redirects
             then SetField(item, "executable", Leaf(plan.redirects[key].0)) else item;
    if key in configs && key in plan.disabled then PutBack(a, plan.disabled[key].0) else a
  }

  // A launch section with some recorded entries reset to native.
  function Reset(t: Section, plan: Plan, executables: set<string>, configs: set<string>): Section {
    map key | key in t :: ResetItem(t[key], key, plan, executables, configs)
  }

  // Steam writes a file of its own: other records, other sections and the pool
  // may be anything; recorded entries of this launch section may be native again.
  ghost predicate Refreshes(appid: Word32, w: World, newer: Bytes) {
    && Parse(w.file).Ok? && appid in Parse(w.file).value.records
    && Find(Parse(w.file).value.records[appid].sections, LAUNCH).Some?
    && Parse(newer).Ok? && Loaded(newer, Parse(newer).value, appid)
    && Find(Parse(newer).value.records[appid].sections, LAUNCH).Some?
    && (var before := Abs(Find(Parse(w.file).value.records[appid].sections, LAUNCH).value);
        var after := Abs(Find(Parse(newer).value.records[appid].sections, LAUNCH).value);
        match w.state
        case None => after == before
        case Some(st) =>
          Recordable(st) && exists executables, configs :: after == Reset(before, PlanOf(st), executables, configs))
  }

  ghost predicate Allowed(appid: Word32, w: World, a: Action) {
    match a
    case InstallAll(template) => forall entry :: Storable(template(entry))
    case InstallOne(executable, _, _, _) => Storable(executable)
    case RepairMapping(_, _, _, _, _) => true
    case SteamRefresh(newer) => Refreshes(appid, w, newer)
    case ReloadState(again) => w.state.Some? && SameState(w.state.value, again)
    case Remove => true
  }

  ghost predicate Run(h: Host, sums: Sums, appid: Word32, w: World, actions: seq<Action>, w': World)
    decreases actions
  {
    if actions == [] then w' == w
    else Allowed(appid, w, actions[0]) && Run(h, sums, appid, Next(h, sums, appid, w, actions[0]), actions[1..], w')
  }

  // --- The invariant --------------------------------------------------------

  // The launch section of the app in a loaded file.
  ghost predicate HasLaunch(file: Bytes, appid: Word32) {
    && Parse(file).Ok? && Loaded(file, Parse(file).value, appid)
    && Find(Parse(file).value.records[appid].sections, LAUNCH).Some?
  }

  ghost function LaunchOf(file: Bytes, appid: Word32): Section
    requires HasLaunch(file, appid)
  {
    Abs(Find(Parse(file).value.records[appid].sections, LAUNCH).value)
  }

  // Of the app's sections, the second file has another launch section and no
  // other difference.
  ghost predicate LaunchEdited(file: Bytes, file': Bytes, appid: Word32)
    requires HasLaunch(file, appid) && HasLaunch(file', appid)
  {
    var sections, sections' := Parse(file).value.records[appid].sections, Parse(file').value.records[appid].sections;
    sections' == Graft(sections, LAUNCH, Find(sections', LAUNCH).value)
  }

  // The recorded launchers can be stored in an image.
  ghost predicate LaunchersStorable(st: State)
    requires Recordable(st)
  {
    forall k :: k in PlanOf(st).redirects ==> Storable(PlanOf(st).redirects[k].1)
  }

  ghost predicate Mapped(launch: Section, native: Section, st: State) {
    && Recordable(st) && ProperState(st) && LaunchersStorable(st)
    && Records(PlanOf(st), native)
    && exists redirected, hidden :: launch == Overlay(native, PlanOf(st), redirected, hidden)
  }

  ghost predicate Safe(appid: Word32, native: Section, w: World) {
    && HasLaunch(w.file, appid) && FitsAll(V28, [], native)
    && (match w.state
        case None => LaunchOf(w.file, appid) == native
        case Some(st) => st.appid == appid && Mapped(LaunchOf(w.file, appid), native, st))
  }

  // --- Every action keeps it ------------------------------------------------

  lemma {:induction false} FitsAnywhere(v: Version, pool: seq<string>, t: Tree)
    requires Fits(V28, [], t)
    ensures Fits(v, pool, t)
    decreases t
  {
    hide Storable;
    if t.Branch? {
      forall k | k in t.children ensures KeyFits(v, pool, k) && Fits(v, pool, t.children[k]) {
        FitsAnywhere(v, pool, t.children[k]);
      }
    }
  }

  lemma {:induction false} NativeFits(v: Version, pool: seq<string>, native: Section)
    requires FitsAll(V28, [], native)
    ensures FitsAll(v, pool, native)
  {
    FitsAnywhere(v, pool, Branch(native));
  }

  lemma {:induction false} StillHasLaunch(file: Bytes, q: Image, appid: Word32)
    requires Loaded(file, q, appid) && Find(q.records[appid].sections, LAUNCH).Some?
    ensures HasLaunch(file, appid) && LaunchOf(file, appid) == Abs(Find(q.records[appid].sections, LAUNCH).value)
  {
  }

  // Restoring a safe world fails only by outgrowing the format, and gives back
  // the native launch section.
  lemma {:induction false} RestoreNative(sums: Sums, appid: Word32, native: Section, w: World)
    requires Safe(appid, native, w) && w.state.Some?
    ensures match Editor.RestoreFile(sums, w.file, w.state.value, Some(appid))
            case Err(e) => e == TooLarge
            case Ok(file') =>
              && HasLaunch(file', appid) && LaunchOf(file', appid) == native
              && OnlyApp(Parse(w.file).value, Parse(file').value, appid) && LaunchEdited(w.file, file', appid)
  {
    hide Loaded, OnlyApp, FitsAll, Find, Graft, Records, Overlay, RedirectMap, DisabledMap, Parse,
      Editor.RestoreFile, Storable;
    var st := w.state.value;
    var p := Parse(w.file).value;
    var redirected, hidden :| LaunchOf(w.file, appid) == Overlay(native, PlanOf(st), redirected, hidden);
    NativeFits(p.version, p.pool, native);
    var sections := SectionsAt(w.file, p, appid);
    var q := RestoreStep(sums, w.file, p, appid, st, native, redirected, hidden);
    if Editor.RestoreFile(sums, w.file, st, Some(appid)).Ok? {
      var file' := Editor.RestoreFile(sums, w.file, st, Some(appid)).value;
      var _ := SectionsAt(file', q, appid);
      StillHasLaunch(file', q, appid);
    }
  }

  lemma {:induction false} ClearedNative(sums: Sums, appid: Word32, native: Section, w: World, file: Bytes)
    requires Safe(appid, native, w) && Cleared(sums, appid, w) == Ok(file)
    ensures HasLaunch(file, appid) && LaunchOf(file, appid) == native
  {
    hide HasLaunch, LaunchOf, Editor.RestoreFile;
    if w.state.Some? {
      RestoreNative(sums, appid, native, w);
    }
  }

  lemma {:induction false} InstalledMapped(sections: Dict, sections': Dict, st: State, native: Section)
    requires Installed(sections, sections', st) && Abs(Find(sections, LAUNCH).value) == native
    requires forall k :: k in PlanOf(st).redirects ==> Storable(PlanOf(st).redirects[k].1)
    ensures Find(sections', LAUNCH).Some? && Mapped(Abs(Find(sections', LAUNCH).value), native, st)
  {
    hide Overlay, Records, RedirectMap, DisabledMap, Find, Graft, Storable;
  }

  lemma {:induction false} InstallAllKeeps(
    h: Host, sums: Sums, appid: Word32, native: Section, w: World, template: string -> string)
    requires Safe(appid, native, w) && forall entry :: Storable(template(entry))
    ensures Safe(appid, native, Next(h, sums, appid, w, InstallAll(template)))
  {
    hide Loaded, OnlyApp, FitsAll, Find, PatchAll, PatchAllFile, Cleared, Mapped, Installed, Parse, Storable,
      RedirectMap, DisabledMap;
    if Cleared(sums, appid, w).Ok? {
      var file := Cleared(sums, appid, w).value;
      ClearedNative(sums, appid, native, w, file);
      if PatchAllFile(h, sums, file, appid, template).Ok? {
        var (file', st) := PatchAllFile(h, sums, file, appid, template).value;
        var p := Parse(file).value;
        var q := PatchStep(h, sums, file, p, appid, template, file', st);
        var sections := SectionsAt(file, p, appid);
        var sections' := SectionsAt(file', q, appid);
        PatchAllRecorded(h, appid, template, sections, sections', st);
        InstalledMapped(sections, sections', st, native);
        StillHasLaunch(file', q, appid);
      }
    }
  }

  lemma {:induction false} PatchAllRecorded(
    h: Host, appid: int, template: string -> string, sections: Dict, sections': Dict, st: State)
    requires Proper(sections) && PatchAll(h, appid, template, sections) == Ok((sections', st))
    requires forall entry :: Storable(template(entry))
    ensures st.appid == appid && Installed(sections, sections', st)
    ensures forall k :: k in PlanOf(st).redirects ==> Storable(PlanOf(st).redirects[k].1)
  {
    hide PatchAll, Storable, RedirectMap, DisabledMap, Between, Find, Graft;
    PatchAllInstalls(h, appid, template, sections, sections', st);
    forall k | k in PlanOf(st).redirects ensures Storable(PlanOf(st).redirects[k].1) {
      assert PlanOf(st).redirects[k].1 == template(k);
    }
  }

  lemma {:induction false} InstallOneKeeps(
    h: Host, sums: Sums, appid: Word32, native: Section, w: World, executable: string, selector: Selector,
    guard: Guard, disable: bool)
    requires Safe(appid, native, w) && Storable(executable)
    ensures Safe(appid, native, Next(h, sums, appid, w, InstallOne(executable, selector, guard, disable)))
  {
    hide Loaded, OnlyApp, FitsAll, Find, PatchOne, PatchOneFile, Cleared, Mapped, Installed, Parse, Storable,
      RedirectMap, DisabledMap;
    if Cleared(sums, appid, w).Ok? {
      var file := Cleared(sums, appid, w).value;
      ClearedNative(sums, appid, native, w, file);
      if PatchOneFile(h, sums, file, appid, executable, selector, guard, disable).Ok? {
        var (file', st) := PatchOneFile(h, sums, file, appid, executable, selector, guard, disable).value;
        var p := Parse(file).value;
        var q := PatchOneStep(h, sums, file, p, appid, executable, selector, guard, disable, file', st);
        var sections := SectionsAt(file, p, appid);
        var sections' := SectionsAt(file', q, appid);
        PatchOneRecorded(h, appid, executable, selector, guard, disable, sections, sections', st);
        InstalledMapped(sections, sections', st, native);
        StillHasLaunch(file', q, appid);
      }
    }
  }

  lemma {:induction false} PatchOneRecorded(
    h: Host, appid: int, executable: string, selector: Selector, guard: Guard, disable: bool, sections: Dict,
    sections': Dict, st: State)
    requires Proper(sections)
               && PatchOne(h, appid, executable, selector, guard, disable, sections) == Ok((sections', st))
    requires Storable(executable)
    ensures st.appid == appid && Installed(sections, sections', st)
    ensures forall k :: k in PlanOf(st).redirects ==> Storable(PlanOf(st).redirects[k].1)
  {
    hide PatchOne, Storable, RedirectMap, DisabledMap, Between, Find, Graft;
    PatchOneInstalls(h, appid, executable, selector, guard, disable, sections, sections', st);
  }

  // Redirecting the recorded entries of an overlay again.
  lemma {:induction false} OverlayAgain(
    native: Section, plan: Plan, redirected: set<string>, hidden: set<string>, redirects: map<string, (string, string)>)
    requires Records(plan, native) && redirects.Keys == plan.redirects.Keys
    requires forall k :: k in redirects ==> redirects[k].1 == plan.redirects[k].1
    ensures Overlay(Overlay(native, plan, redirected, hidden), Plan(redirects, map[]), redirects.Keys, {})
         == Overlay(native, plan, plan.redirects.Keys, hidden)
  {
    var t := Overlay(native, plan, redirected, hidden);
    forall k | k in native
      ensures OverlayItem(t[k], k, Plan(redirects, map[]), redirects.Keys, {})
           == OverlayItem(native[k], k, plan, plan.redirects.Keys, hidden)
    {
      if k in redirects {
        var e, m := Leaf(plan.redirects[k].1), native[k].children;
        if k in hidden && k in plan.disabled {
          var c := plan.disabled[k].1;
          assert t[k].children["executable" := e] == m["executable" := e]["config" := c];
        } else {
          assert t[k].children["executable" := e] == m["executable" := e];
        }
      }
    }
  }

  lemma {:induction false} RecordedPlan(st: State, launcher: string -> string, redirects: map<string, (string, string)>)
    requires Recordable(st) && RecordedOf(st, launcher).Recorded?
    requires PlansItems(redirects, RecordedOf(st, launcher).items)
    ensures redirects.Keys == PlanOf(st).redirects.Keys
    ensures forall k :: k in redirects ==> redirects[k].1 == PlanOf(st).redirects[k].1
  {
    hide PlansItems, RedirectMap, DisabledMap;
    var items := RecordedOf(st, launcher).items;
    ItemsPlanned(redirects, items);
    forall k ensures k in redirects <==> k in PlanOf(st).redirects {
      RedirectMapHas(st.entries, k);
      if k in PlanOf(st).redirects {
        var i :| 0 <= i < |st.entries| && st.entries[i].entry == k;
        assert items[i].entry == k;
      }
    }
    forall k | k in redirects ensures redirects[k].1 == PlanOf(st).redirects[k].1 {
      var i :| 0 <= i < |items| && items[i].entry == k && items[i].installed == redirects[k].1;
      RedirectMapAt(st.entries, i);
    }
  }

  lemma {:induction false} RecordedItems(st: State, launcher: string -> string)
    requires Recordable(st) && LaunchersStorable(st)
    ensures RecordedOf(st, launcher).Recorded? && RecordedOf(st, launcher).appid == st.appid
    ensures forall i :: 0 <= i < |RecordedOf(st, launcher).items| ==>
              Storable(RecordedOf(st, launcher).items[i].installed)
  {
    hide Storable;
    forall i | 0 <= i < |st.entries| ensures Storable(st.entries[i].installed.text) {
      RedirectMapAt(st.entries, i);
      assert PlanOf(st).redirects[st.entries[i].entry].1 == st.entries[i].installed.text;
    }
  }

  lemma {:induction false} RepairKeeps(
    h: Host, sums: Sums, appid: Word32, native: Section, w: World, files: Files, launcher: string -> string,
    force: bool,
    running: bool, fails: Operation -> bool)
    requires Safe(appid, native, w)
    ensures Safe(appid, native, Next(h, sums, appid, w, RepairMapping(files, launcher, force, running, fails)))
  {
    hide Loaded, OnlyApp, FitsAll, Find, Parse, Storable, RedirectMap, DisabledMap, Repaired, Inspect, Records,
      Overlay, RecordedOf, PlansItems, LaunchersStorable;
    if w.state.Some? {
      var st := w.state.value;
      var recorded := RecordedOf(st, launcher);
      RecordedItems(st, launcher);
      var info := Inspect(Some(w.file), recorded, Some(appid), files);
      if info.Ok? && |info.value.actuals| == |recorded.items|
         && Repaired(h, sums, w.file, appid, recorded.items, info.value.actuals).Ok? {
        var file' := Repaired(h, sums, w.file, appid, recorded.items, info.value.actuals).value;
        var p := Parse(w.file).value;
        var q, redirects := RepairStep(h, sums, w.file, p, appid, recorded.items, info.value.actuals, file');
        var _ := SectionsAt(file', q, appid);
        var _ := SectionsAt(w.file, p, appid);
        StillHasLaunch(file', q, appid);
        RecordedPlan(st, launcher, redirects);
        var redirected, hidden :| LaunchOf(w.file, appid) == Overlay(native, PlanOf(st), redirected, hidden);
        OverlayAgain(native, PlanOf(st), redirected, hidden, redirects);
      }
    }
  }

  // Steam's reset of an overlay is a smaller overlay.
  lemma {:induction false} ResetOverlay(
    native: Section, plan: Plan, redirected: set<string>, hidden: set<string>, executables: set<string>,
    configs: set<string>)
    requires Records(plan, native)
    ensures Reset(Overlay(native, plan, redirected, hidden), plan, executables, configs)
         == Overlay(native, plan, redirected - executables, hidden - configs)
  {
    var t := Overlay(native, plan, redirected, hidden);
    forall k | k in native
      ensures ResetItem(t[k], k, plan, executables, configs)
           == OverlayItem(native[k], k, plan, redirected - executables, hidden - configs)
    {
      ResetItemOverlay(native[k], k, plan, redirected, hidden, executables, configs);
    }
  }

  lemma {:induction false} ResetItemOverlay(
    item: Tree, k: string, plan: Plan, redirected: set<string>, hidden: set<string>, executables: set<string>,
    configs: set<string>)
    requires k in plan.redirects ==>
               item.Branch? && "executable" in item.children && item.children["executable"] == Leaf(plan.redirects[k].0)
    requires k in plan.disabled ==>
               && item.Branch? && ("config" in item.children <==> plan.disabled[k].0.Some?)
               && (plan.disabled[k].0.Some? ==> item.children["config"] == plan.disabled[k].0.value)
    ensures ResetItem(OverlayItem(item, k, plan, redirected, hidden), k, plan, executables, configs)
         == OverlayItem(item, k, plan, redirected - executables, hidden - configs)
  {
  }

  lemma {:induction false} RefreshKeeps(h: Host, sums: Sums, appid: Word32, native: Section, w: World, newer: Bytes)
    requires Safe(appid, native, w) && Refreshes(appid, w, newer)
    ensures Safe(appid, native, Next(h, sums, appid, w, SteamRefresh(newer)))
  {
    hide Loaded, FitsAll, Find, Parse, Storable, RedirectMap, DisabledMap, Records, Overlay, Reset,
      LaunchersStorable;
    StillHasLaunch(newer, Parse(newer).value, appid);
    if w.state.Some? {
      var plan := PlanOf(w.state.value);
      var redirected, hidden :| LaunchOf(w.file, appid) == Overlay(native, plan, redirected, hidden);
      var executables, configs :| LaunchOf(newer, appid) == Reset(LaunchOf(w.file, appid), plan, executables, configs);
      ResetOverlay(native, plan, redirected, hidden, executables, configs);
    }
  }

  lemma {:induction false} NextKeeps(h: Host, sums: Sums, appid: Word32, native: Section, w: World, a: Action)
    requires Safe(appid, native, w) && Allowed(appid, w, a)
    ensures Safe(appid, native, Next(h, sums, appid, w, a))
  {
    hide HasLaunch, LaunchOf, FitsAll, Find, Parse, Storable, RedirectMap, DisabledMap, Records, Overlay, Refreshes,
      PatchAllFile, PatchOneFile, Editor.RestoreFile, AfterRepair, RecordedOf, Cleared;
    match a
    case InstallAll(template) => InstallAllKeeps(h, sums, appid, native, w, template);
    case InstallOne(executable, selector, guard, disable) => InstallOneKeeps(h, sums, appid, native, w, executable,
        selector, guard, disable);
    case RepairMapping(files, launcher, force, running, fails) => RepairKeeps(h, sums, appid, native, w, files,
        launcher, force, running, fails);
    case SteamRefresh(newer) => RefreshKeeps(h, sums, appid, native, w, newer);
    case ReloadState(again) =>
    case Remove => if w.state.Some? { RestoreNative(sums, appid, native, w); }
  }

  lemma {:induction false} RunKeeps(
    h: Host, sums: Sums, appid: Word32, native: Section, w: World, actions: seq<Action>, w': World)
    requires Safe(appid, native, w) && Run(h, sums, appid, w, actions, w')
    ensures Safe(appid, native, w')
    decreases actions
  {
    hide Safe, Allowed, Next;
    if actions != [] {
      NextKeeps(h, sums, appid, native, w, actions[0]);
      RunKeeps(h, sums, appid, native, Next(h, sums, appid, w, actions[0]), actions[1..], w');
    }
  }

  // --- What holds in every reachable world ----------------------------------

  // The recorded values are the native ones, and every recorded entry has its
  // native or its installed value.
  ghost predicate NativeOrInstalled(launch: Section, native: Section, st: State) {
    && RedirectsTyped(st.entries) && DisabledTyped(st.disabled)
    && (forall i :: 0 <= i < |st.entries| ==>
          var e := st.entries[i];
          && e.entry in native && native[e.entry].Branch? && "executable" in native[e.entry].children
          && native[e.entry].children["executable"] == AbsValue(e.original)
          && e.entry in launch && launch[e.entry].Branch? && "executable" in launch[e.entry].children
          && launch[e.entry].children["executable"] in {AbsValue(e.original), AbsValue(e.installed)})
    && (forall i :: 0 <= i < |st.disabled| ==>
          var d := st.disabled[i];
          && d.entry in native && native[d.entry].Branch?
          && ConfigIn(native[d.entry].children) == AbsOption(d.original)
          && d.entry in launch && launch[d.entry].Branch?
          && ConfigIn(launch[d.entry].children) in {AbsOption(d.original), Some(AbsValue(d.installed))})
  }

  function ConfigIn(fields: map<string, Tree>): Option<Tree> {
    if "config" in fields then Some(fields["config"]) else None
  }

  lemma {:induction false} MappedValues(launch: Section, native: Section, st: State)
    requires Mapped(launch, native, st)
    ensures NativeOrInstalled(launch, native, st)
  {
    hide Overlay, RedirectMap, DisabledMap, LaunchersStorable;
    var plan := PlanOf(st);
    var redirected, hidden :| launch == Overlay(native, plan, redirected, hidden);
    PlanEntries(st);
    forall i | 0 <= i < |st.entries|
      ensures var e := st.entries[i];
              && e.entry in launch && launch[e.entry].Branch? && "executable" in launch[e.entry].children
              && launch[e.entry].children["executable"] in {AbsValue(e.original), AbsValue(e.installed)}
    {
      OverlayExecutable(native, plan, redirected, hidden, st.entries[i].entry);
    }
    forall i | 0 <= i < |st.disabled|
      ensures var d := st.disabled[i];
              && d.entry in launch && launch[d.entry].Branch?
              && ConfigIn(launch[d.entry].children) in {AbsOption(d.original), Some(AbsValue(d.installed))}
    {
      OverlayConfig(native, plan, redirected, hidden, st.disabled[i].entry);
    }
  }

  // From a file without a mapping, after any run: without a recorded state the
  // launch section is the native one; with one, every recorded entry has its
  // native or installed value and the recorded originals are native; and
  // removing brings back the native launch section of this app and changes no
  // other, unless a field of the format overflows.
  lemma {:induction false} EveryRun(
    h: Host, sums: Sums, appid: Word32, file: Bytes, native: Section, actions: seq<Action>, w: World)
    requires HasLaunch(file, appid) && LaunchOf(file, appid) == native && FitsAll(V28, [], native)
    requires Run(h, sums, appid, World(file, None), actions, w)
    ensures HasLaunch(w.file, appid)
    ensures w.state.None? ==> LaunchOf(w.file, appid) == native
    ensures w.state.Some? ==>
              && NativeOrInstalled(LaunchOf(w.file, appid), native, w.state.value)
              && match Editor.RestoreFile(sums, w.file, w.state.value, Some(appid))
                 case Err(e) => e == TooLarge
                 case Ok(file') =>
                   && HasLaunch(file', appid) && LaunchOf(file', appid) == native
                   && OnlyApp(Parse(w.file).value, Parse(file').value, appid)
  {
    hide HasLaunch, LaunchOf, FitsAll, Run, Mapped, NativeOrInstalled, Editor.RestoreFile, OnlyApp;
    RunKeeps(h, sums, appid, native, World(file, None), actions, w);
    if w.state.Some? {
      MappedValues(LaunchOf(w.file, appid), native, w.state.value);
      RestoreNative(sums, appid, native, w);
    }
  }
}
