// The install and remove scripts as runs of the lifecycle: what they do to the
// files is what a few actions do to the world, or nothing.
module ScriptRuns {
  import opened Wrappers
  import opened Words
  import opened Strings
  import opened Codec
  import opened AppImage
  import opened Launch
  import opened Plan
  import opened Undo
  import opened Editor
  import opened Cloud
  import opened CloudUndo
  import opened CloudFiles
  import opened Storage
  import opened EndToEnd
  import opened Lifecycle
  import opened CloudRuns
  import opened Sizes
  import opened Vdf
  import InstallPlan
  import Remover

  // Reading and writing the two state files.
  datatype Json = Json(
    encode: State -> Bytes, decode: Bytes -> State,
    encodeCloud: CloudState -> Bytes, decodeCloud: Bytes -> CloudState)

  ghost predicate Faithful(json: Json) {
    && (forall st :: Recordable(st) && ProperState(st) ==> SameState(st, json.decode(json.encode(st))))
    && (forall st ::
          var again := json.decodeCloud(json.encodeCloud(st));
          again.appid == st.appid && Reloaded(st.entries, again.entries))
  }

  function ToOption<T>(r: Result<T, Fault>): Option<T> {
    match r
    case Ok(x) => Some(x)
    case Err(_) => None
  }

  // The machine, the app, the state files, and how the script patches an image:
  // all entries or one.
  datatype Setting = Setting(
    h: Host, sums: Sums, appid: Word32, env: Env, json: Json, how: Bytes -> Action)

  function Patched(t: Setting, image: Bytes): Option<(Bytes, State)> {
    match t.how(image)
    case InstallAll(template) => ToOption(PatchAllFile(t.h, t.sums, image, t.appid, template))
    case InstallOne(executable, selector, guard, disable) =>
      ToOption(PatchOneFile(t.h, t.sums, image, t.appid, executable, selector, guard, disable))
    case _ => None
  }

  function RestoreTool(t: Setting, image: Bytes, state: Bytes): Option<Bytes> {
    ToOption(Editor.RestoreFile(t.sums, image, t.json.decode(state), Some(t.appid)))
  }

  function CloudRestoreTool(t: Setting, image: Bytes, state: Bytes, links: Links): Option<(Bytes, Links)> {
    ToOption(RestoreCloud(t.sums, image, links, t.json.decodeCloud(state), Some(t.appid)))
  }

  // The tools of an installation are the editor's and the Cloud adapter's.
  ghost predicate InstallTools(job: InstallPlan.Job, t: Setting) {
    && (forall image, state :: job.restore(image, state) == RestoreTool(t, image, state))
    && (forall image, state, links :: job.cloudRestore(image, state, links) == CloudRestoreTool(t, image, state, links))
    && (forall image ::
          job.patch(image) == match Patched(t, image)
                              case Some((file, st)) => Some((file, t.json.encode(st)))
                              case None => None)
    && (forall image, links ::
          job.cloudInstall(image, links) == match InstallCloud(t.env, t.sums, image, links, t.appid, true)
                                            case Ok((file, links', st)) => Some((file, t.json.encodeCloud(st), links'))
                                            case Err(_) => None)
  }

  // The command line holds no NUL, and what it names can be stored.
  ghost predicate Arguable(t: Setting) {
    && Arguments(t.env) && Faithful(t.json)
    && forall image ::
         match t.how(image)
         case InstallAll(template) => forall entry :: Storable(template(entry))
         case InstallOne(executable, _, _, _) => Storable(executable)
         case _ => true
  }

  function InstalledWorld(files: InstallPlan.Files, json: Json): World
    requires InstallPlan.AppInfo in files
  {
    World(files[InstallPlan.AppInfo],
      if InstallPlan.StateFile in files then Some(json.decode(files[InstallPlan.StateFile])) else None)
  }

  // --- Runs -----------------------------------------------------------------

  lemma {:induction false} RunOne(t: Setting, w: World, a: Action)
    requires Allowed(t.appid, w, a)
    ensures Run(t.h, t.sums, t.appid, w, [a], Next(t.h, t.sums, t.appid, w, a))
  {
    hide Allowed, Next;
    assert [a][1..] == [];
  }

  lemma {:induction false} RunThen(
    t: Setting, w: World, first: seq<Action>, mid: World, second: seq<Action>, last: World)
    requires Run(t.h, t.sums, t.appid, w, first, mid) && Run(t.h, t.sums, t.appid, mid, second, last)
    ensures Run(t.h, t.sums, t.appid, w, first + second, last)
    decreases first
  {
    hide Allowed, Next;
    if first == [] {
      assert [] + second == second;
    } else {
      assert (first + second)[1..] == first[1..] + second;
      RunThen(t, Next(t.h, t.sums, t.appid, w, first[0]), first[1..], mid, second, last);
    }
  }

  // --- The parts of an installation -----------------------------------------

  // An earlier mapping is removed from the copy.
  lemma {:induction false} RemovesFirst(t: Setting, native: Section, w: World, file: Bytes)
    requires Safe(t.appid, native, w) && Cleared(t.sums, t.appid, w) == Ok(file)
    ensures Run(t.h, t.sums, t.appid, w, if w.state.Some? then [Remove] else [], World(file, None))
    ensures Safe(t.appid, native, World(file, None))
  {
    hide Safe, Run, Editor.RestoreFile;
    RunOne(t, w, Remove);
    NextKeeps(t.h, t.sums, t.appid, native, w, Remove);
    if w.state.None? {
      RunNothing(t, w);
    }
  }

  lemma {:induction false} RunNothing(t: Setting, w: World)
    ensures Run(t.h, t.sums, t.appid, w, [], w)
  {
  }

  // A file with the same launch section.
  lemma {:induction false} RefreshesThen(t: Setting, native: Section, w: World, newer: Bytes)
    requires Safe(t.appid, native, w) && HasLaunch(newer, t.appid)
    requires LaunchOf(newer, t.appid) == LaunchOf(w.file, t.appid)
    ensures Run(t.h, t.sums, t.appid, w, [SteamRefresh(newer)], w.(file := newer))
    ensures Safe(t.appid, native, w.(file := newer))
  {
    hide Refreshes, HasLaunch, LaunchOf, Run, FitsAll, Mapped;
    SameLaunchRefreshes(t.appid, native, w, newer);
    RunOne(t, w, SteamRefresh(newer));
    NextKeeps(t.h, t.sums, t.appid, native, w, SteamRefresh(newer));
  }

  lemma {:induction false} SafeLaunch(appid: Word32, native: Section, w: World)
    requires Safe(appid, native, w)
    ensures HasLaunch(w.file, appid)
    ensures w.state.Some? ==> Recordable(w.state.value) && ProperState(w.state.value)
  {
    hide HasLaunch, LaunchOf, FitsAll, Overlay, Records, LaunchersStorable;
  }

  // An earlier Cloud mapping is removed from it.
  lemma {:induction false} CloudRestoresThen(
    t: Setting, native: Section, w: World, links: Links, state: Bytes, newer: Bytes, links': Links)
    requires Safe(t.appid, native, w) && OriginalsFit(t.json.decodeCloud(state).entries)
    requires CloudRestoreTool(t, w.file, state, links) == Some((newer, links'))
    ensures Run(t.h, t.sums, t.appid, w, [SteamRefresh(newer)], w.(file := newer))
    ensures Safe(t.appid, native, w.(file := newer))
    ensures links' == RemoveLinks(links, t.json.decodeCloud(state).entries)
  {
    hide Safe, HasLaunch, LaunchOf, RestoreCloud, Run, RemoveLinks, OriginalsFit;
    SafeLaunch(t.appid, native, w);
    RestoreKeepsLaunch(t.sums, w.file, t.appid, links, t.json.decodeCloud(state), newer, links');
    RefreshesThen(t, native, w, newer);
  }

  // The patch.
  lemma {:induction false} PatchesThen(t: Setting, native: Section, w: World, file: Bytes, st: State)
    requires Safe(t.appid, native, w) && w.state.None? && Arguable(t) && Patched(t, w.file) == Some((file, st))
    ensures Run(t.h, t.sums, t.appid, w, [t.how(w.file)], World(file, Some(st)))
    ensures Safe(t.appid, native, World(file, Some(st)))
  {
    hide Safe, Run, PatchAllFile, PatchOneFile, Arguments, Faithful, Storable;
    RunOne(t, w, t.how(w.file));
    NextKeeps(t.h, t.sums, t.appid, native, w, t.how(w.file));
  }

  // The new Cloud mapping.
  lemma {:induction false} CloudInstallsThen(
    t: Setting, native: Section, w: World, links: Links, newer: Bytes, links': Links, cst: CloudState)
    requires Safe(t.appid, native, w) && Arguments(t.env)
    requires InstallCloud(t.env, t.sums, w.file, links, t.appid, true) == Ok((newer, links', cst))
    ensures Run(t.h, t.sums, t.appid, w, [SteamRefresh(newer)], w.(file := newer))
    ensures Safe(t.appid, native, w.(file := newer))
  {
    hide Safe, HasLaunch, LaunchOf, InstallCloud, Run, Arguments;
    SafeLaunch(t.appid, native, w);
    InstallKeepsLaunch(t.env, t.sums, w.file, t.appid, links, newer, links', cst);
    RefreshesThen(t, native, w, newer);
  }

  // The state file, read back.
  lemma {:induction false} ReloadsThen(t: Setting, native: Section, w: World)
    requires Safe(t.appid, native, w) && w.state.Some? && Faithful(t.json)
    ensures var again := t.json.decode(t.json.encode(w.state.value));
            && Run(t.h, t.sums, t.appid, w, [ReloadState(again)], w.(state := Some(again)))
            && Safe(t.appid, native, w.(state := Some(again)))
  {
    hide Safe, Run, SameState, Recordable;
    var again := t.json.decode(t.json.encode(w.state.value));
    SafeLaunch(t.appid, native, w);
    RunOne(t, w, ReloadState(again));
    NextKeeps(t.h, t.sums, t.appid, native, w, ReloadState(again));
  }

  // --- Installing -----------------------------------------------------------

  // A recorded Cloud mapping that the script will take away holds originals an
  // image can hold.
  ghost predicate Restorable(t: Setting, files: InstallPlan.Files) {
    InstallPlan.CloudFile in files ==> OriginalsFit(t.json.decodeCloud(files[InstallPlan.CloudFile]).entries)
  }

  function CopyActions(job: InstallPlan.Job, before: InstallPlan.Files, copied: Bytes): seq<Action> {
    (if InstallPlan.StateFile in before then [Remove] else [])
    + if job.cloud && InstallPlan.CloudFile in before then [SteamRefresh(copied)] else []
  }

  lemma {:induction false} CopyIsRun(
    job: InstallPlan.Job, t: Setting, native: Section, before: InstallPlan.Files, links: Links, copied: Bytes,
    links': Links)
    requires InstallTools(job, t) && Restorable(t, before) && InstallPlan.AppInfo in before
    requires Safe(t.appid, native, InstalledWorld(before, t.json))
    requires InstallPlan.CopiedImage(job, before, links) == Some((copied, links'))
    ensures var w := InstalledWorld(before, t.json);
            Run(t.h, t.sums, t.appid, w, CopyActions(job, before, copied), World(copied, None))
    ensures Safe(t.appid, native, World(copied, None))
    ensures links' == if job.cloud && InstallPlan.CloudFile in before
                      then RemoveLinks(links, t.json.decodeCloud(before[InstallPlan.CloudFile]).entries) else links
  {
    hide Safe, Run, OriginalsFit, RemoveLinks, CloudRestoreTool, Editor.RestoreFile;
    var w := InstalledWorld(before, t.json);
    if w.state.Some? {
      assert job.restore(w.file, before[InstallPlan.StateFile])
          == RestoreTool(t, w.file, before[InstallPlan.StateFile]);
    }
    var cleared := Cleared(t.sums, t.appid, w).value;
    RemovesFirst(t, native, w, cleared);
    var removes := if w.state.Some? then [Remove] else [];
    if job.cloud && InstallPlan.CloudFile in before {
      var state := before[InstallPlan.CloudFile];
      assert job.cloudRestore(cleared, state, links) == CloudRestoreTool(t, cleared, state, links);
      CloudRestoresThen(t, native, World(cleared, None), links, state, copied, links');
      RunThen(t, w, removes, World(cleared, None), [SteamRefresh(copied)], World(copied, None));
    } else {
      assert removes + [] == removes;
    }
  }

  // The edits of a Cloud installation, tool by tool.
  lemma {:induction false} CloudEdits(
    job: InstallPlan.Job, t: Setting, copied: Bytes, links: Links,
    edited: Bytes, state: Bytes, cloudState: Option<Bytes>, links': Links)
    returns (patched: Bytes, st: State, cst: CloudState)
    requires InstallTools(job, t) && job.cloud
    requires InstallPlan.EditedImage(job, copied, links) == Some((edited, state, cloudState, links'))
    ensures Patched(t, copied) == Some((patched, st))
    ensures InstallCloud(t.env, t.sums, patched, links, t.appid, true) == Ok((edited, links', cst))
    ensures cloudState == Some(t.json.encodeCloud(cst)) && state == t.json.encode(st)
  {
    hide InstallCloud, Patched;
    var p := Patched(t, copied).value;
    patched, st := p.0, p.1;
    assert job.cloudInstall(patched, links).Some?;
    cst := InstallCloud(t.env, t.sums, patched, links, t.appid, true).value.2;
  }

  function EditActions(job: InstallPlan.Job, t: Setting, copied: Bytes, edited: Bytes, state: Bytes): seq<Action> {
    [t.how(copied)]
    + (if job.cloud then [SteamRefresh(edited)] else [])
    + [ReloadState(t.json.decode(state))]
  }

  lemma {:induction false} EditIsRun(
    job: InstallPlan.Job, t: Setting, native: Section, copied: Bytes, links: Links,
    edited: Bytes, state: Bytes, cloudState: Option<Bytes>, links': Links)
    requires InstallTools(job, t) && Arguable(t) && Safe(t.appid, native, World(copied, None))
    requires InstallPlan.EditedImage(job, copied, links) == Some((edited, state, cloudState, links'))
    ensures Run(t.h, t.sums, t.appid, World(copied, None), EditActions(job, t, copied, edited, state),
                World(edited, Some(t.json.decode(state))))
    ensures Safe(t.appid, native, World(edited, Some(t.json.decode(state))))
  {
    hide Safe, Run, InstallCloud, Patched, Arguments, Faithful;
    var w0 := World(copied, None);
    var (patched, st) := Patched(t, copied).value;
    var w1 := World(patched, Some(st));
    PatchesThen(t, native, w0, patched, st);
    var w2 := World(edited, Some(st));
    var refresh := if job.cloud then [SteamRefresh(edited)] else [];
    if job.cloud {
      var _, _, cst := CloudEdits(job, t, copied, links, edited, state, cloudState, links');
      CloudInstallsThen(t, native, w1, links, edited, links', cst);
    } else {
      RunNothing(t, w1);
    }
    ReloadsThen(t, native, w2);
    RunThen(t, w0, [t.how(copied)], w1, refresh, w2);
    RunThen(t, w0, [t.how(copied)] + refresh, w2, [ReloadState(t.json.decode(state))],
      World(edited, Some(t.json.decode(state))));
  }

  // A committed installation, with or without native Cloud and over any earlier
  // mapping, is a run of the lifecycle that ends in the world it leaves.
  lemma {:induction false} InstallIsRun(
    job: InstallPlan.Job, t: Setting, native: Section, before: InstallPlan.Files, links: Links,
    after: InstallPlan.Files)
    returns (actions: seq<Action>)
    requires InstallTools(job, t) && Arguable(t) && Restorable(t, before) && InstallPlan.AppInfo in before
    requires Safe(t.appid, native, InstalledWorld(before, t.json))
    requires InstallPlan.Planned(job, before, links).Some?
    requires InstallPlan.Committed(job, after, before, InstallPlan.Planned(job, before, links).value)
    ensures InstallPlan.AppInfo in after
    ensures Run(t.h, t.sums, t.appid, InstalledWorld(before, t.json), actions, InstalledWorld(after, t.json))
    ensures var copied := InstallPlan.CopiedImage(job, before, links).value.0;
            var out := InstallPlan.Planned(job, before, links).value;
            actions == CopyActions(job, before, copied) + EditActions(job, t, copied, out.appinfo, out.state)
  {
    hide Safe, Run, InstallTools, Arguable, Restorable, InstallPlan.CopiedImage, InstallPlan.EditedImage;
    var w := InstalledWorld(before, t.json);
    var out := InstallPlan.Planned(job, before, links).value;
    var (copied, linked) := InstallPlan.CopiedImage(job, before, links).value;
    var (edited, state, cloudState, links') := InstallPlan.EditedImage(job, copied, linked).value;
    CopyIsRun(job, t, native, before, links, copied, linked);
    EditIsRun(job, t, native, copied, linked, edited, state, cloudState, links');
    var first, second := CopyActions(job, before, copied), EditActions(job, t, copied, edited, state);
    RunThen(t, w, first, World(copied, None), second, World(edited, Some(t.json.decode(state))));
    actions := first + second;
    assert Lookup(after, InstallPlan.AppInfo) == Some(out.appinfo);
    assert Lookup(after, InstallPlan.StateFile) == Some(out.state);
  }

  // So the script keeps every world safe, whether it commits or is rolled back.
  lemma {:induction false} InstallKeepsSafe(
    job: InstallPlan.Job, t: Setting, native: Section, before: InstallPlan.Files, links: Links,
    after: InstallPlan.Files, ok: bool)
    requires InstallTools(job, t) && Arguable(t) && Restorable(t, before) && InstallPlan.AppInfo in before
    requires Safe(t.appid, native, InstalledWorld(before, t.json))
    requires ok ==> InstallPlan.Planned(job, before, links).Some?
                    && InstallPlan.Committed(job, after, before, InstallPlan.Planned(job, before, links).value)
    requires !ok ==> forall p :: InstallPlan.Lasting(p) && !p.Client? ==>
                       Lookup(after, p) == Lookup(before, p)
    ensures InstallPlan.AppInfo in after && Safe(t.appid, native, InstalledWorld(after, t.json))
  {
    hide Safe, Run, InstallTools, Arguable, Restorable, InstallPlan.Planned, InstallPlan.Committed;
    var w := InstalledWorld(before, t.json);
    if ok {
      var actions := InstallIsRun(job, t, native, before, links, after);
      RunKeeps(t.h, t.sums, t.appid, native, w, actions, InstalledWorld(after, t.json));
    } else {
      assert Lookup(after, InstallPlan.AppInfo) == Lookup(before, InstallPlan.AppInfo);
      assert Lookup(after, InstallPlan.StateFile) == Lookup(before, InstallPlan.StateFile);
      assert InstalledWorld(after, t.json) == w;
    }
  }

  // --- The links of a failed installation -----------------------------------

  // What the patch wrote has no room for the table of overrides that taking the
  // new links back leaves.
  ghost predicate NoRoom(job: InstallPlan.Job, copied: Bytes, appid: Word32) {
    && job.patch(copied).Some? && Parse(job.patch(copied).value.0).Ok?
    && (var p := Parse(job.patch(copied).value.0).value;
        appid in p.records && Find(p.records[appid].sections, UFS).Some? && NoRoomForTable(p, appid))
  }

  // The patch is a rewrite.
  lemma {:induction false} PatchRewrites(t: Setting, copied: Bytes, patched: Bytes, st: State)
    returns (before: Image, p: Image)
    requires HasLaunch(copied, t.appid) && Arguable(t) && Patched(t, copied) == Some((patched, st))
    ensures Loaded(patched, p, t.appid) && before.version == p.version
    ensures Sized(before, p, t.appid, p.records[t.appid].sections)
  {
    hide Parse, Loaded, Sized, OnlyApp, Find, PatchAllFile, PatchOneFile, Arguments, Faithful, Storable;
    before := Parse(copied).value;
    match t.how(copied)
    case InstallAll(template) =>
      p := PatchStep(t.h, t.sums, copied, before, t.appid, template, patched, st);
      OnlyAppPools(before, p, t.appid);
    case InstallOne(executable, selector, guard, disable) =>
      p := PatchOneStep(t.h, t.sums, copied, before, t.appid, executable, selector, guard, disable, patched, st);
      OnlyAppPools(before, p, t.appid);
  }

  // Taking back the links of an installation fails only for want of that room.
  lemma {:induction false} UndoFails(
    job: InstallPlan.Job, t: Setting, copied: Bytes, links: Links, patched: Bytes, st: State, file: Bytes,
    links': Links, cst: CloudState, again: CloudState)
    requires HasLaunch(copied, t.appid) && Arguable(t) && Patched(t, copied) == Some((patched, st))
    requires job.patch(copied) == Some((patched, t.json.encode(st)))
    requires InstallCloud(t.env, t.sums, patched, links, t.appid, true) == Ok((file, links', cst))
    requires again.appid == cst.appid && Reloaded(cst.entries, again.entries)
    ensures RestoreCloud(t.sums, file, links', again, Some(t.appid)).Err? <==> NoRoom(job, copied, t.appid)
  {
    hide Parse, WellFormed, Find, Overrides, Sized, NoRoomForTable, InstallCloud, RestoreCloud, Patched, Arguments,
      Reloaded, Faithful, Overflows, WithOverrides, Representable, HasLaunch;
    var before, p := PatchRewrites(t, copied, patched, st);
    UndoFailsExactly(t.env, t.sums, patched, p, t.appid, links, file, links', cst, again);
    RewrittenOverflows(before, patched, p, t.appid);
  }

  lemma {:induction false} NewLinksUndone(
    job: InstallPlan.Job, t: Setting, native: Section, copied: Bytes, links: Links, out: InstallPlan.Outcome)
    requires InstallTools(job, t) && Arguable(t) && Safe(t.appid, native, World(copied, None)) && job.cloud
    requires InstallPlan.EditedImage(job, copied, links) == Some((out.appinfo, out.state, out.cloudState, out.links))
    ensures out.cloudState.Some?
    ensures InstallPlan.Unlinked(job, out.appinfo, out.cloudState.value, out.links)
         == if NoRoom(job, copied, t.appid) then out.links else links
  {
    hide Safe, InstallCloud, RestoreCloud, Patched, Arguments, HasLaunch, Reloaded, InstallTools, NoRoom, Arguable,
      InstallPlan.Unlinked;
    var patched, st, cst := CloudEdits(job, t, copied, links, out.appinfo, out.state, out.cloudState, out.links);
    PatchesThen(t, native, World(copied, None), patched, st);
    SafeLaunch(t.appid, native, World(patched, Some(st)));
    SafeLaunch(t.appid, native, World(copied, None));
    var again := t.json.decodeCloud(t.json.encodeCloud(cst));
    ReadBack(t, cst);
    PatchTool(job, t, copied, patched, st);
    LinksTakenBack(t.env, t.sums, patched, t.appid, links, out.appinfo, out.links, cst, again);
    UndoFails(job, t, copied, links, patched, st, out.appinfo, out.links, cst, again);
    UnlinkedAs(job, t, out);
  }

  lemma {:induction false} ReadBack(t: Setting, cst: CloudState)
    requires Arguable(t)
    ensures var again := t.json.decodeCloud(t.json.encodeCloud(cst));
            Arguments(t.env) && again.appid == cst.appid && Reloaded(cst.entries, again.entries)
  {
    hide Arguments, Reloaded;
  }

  lemma {:induction false} PatchTool(job: InstallPlan.Job, t: Setting, copied: Bytes, patched: Bytes, st: State)
    requires InstallTools(job, t) && Patched(t, copied) == Some((patched, st))
    ensures job.patch(copied) == Some((patched, t.json.encode(st)))
  {
    hide Patched;
  }

  lemma {:induction false} UnlinkedAs(job: InstallPlan.Job, t: Setting, out: InstallPlan.Outcome)
    requires InstallTools(job, t) && out.cloudState.Some?
    ensures InstallPlan.Unlinked(job, out.appinfo, out.cloudState.value, out.links)
         == match RestoreCloud(t.sums, out.appinfo, out.links, t.json.decodeCloud(out.cloudState.value), Some(t.appid))
            case Ok((_, links')) => links'
            case Err(_) => out.links
  {
    hide RestoreCloud;
    CloudRestores(job, t, out.appinfo, out.cloudState.value, out.links);
  }

  lemma {:induction false} CloudRestores(job: InstallPlan.Job, t: Setting, image: Bytes, state: Bytes, links: Links)
    requires InstallTools(job, t)
    ensures job.cloudRestore(image, state, links) == CloudRestoreTool(t, image, state, links)
  {
  }

  // When the old mapping's links stay away and the new ones stay: links of an
  // earlier Cloud mapping are not created again once its restore ran, and new
  // ones stay once the staged Cloud state has moved in, or when taking them
  // back overflows.
  lemma {:induction false} LinksPerPhase(
    job: InstallPlan.Job, t: Setting, native: Section, before: InstallPlan.Files, links: Links,
    failed: InstallPlan.Step)
    requires InstallTools(job, t) && Arguable(t) && Restorable(t, before) && InstallPlan.AppInfo in before
    requires Safe(t.appid, native, InstalledWorld(before, t.json))
    ensures var phase, left := InstallPlan.PhaseOf(failed), InstallPlan.LinksLeft(job, before, links, failed);
            var cleared := if job.cloud && InstallPlan.CloudFile in before
                           then RemoveLinks(links, t.json.decodeCloud(before[InstallPlan.CloudFile]).entries)
                           else links;
            if phase.Copying? || InstallPlan.CopiedImage(job, before, links).None? then left == links
            else if phase.Preparing? || InstallPlan.Planned(job, before, links).None? then left == cleared
            else
              var out := InstallPlan.Planned(job, before, links).value;
              var copied := InstallPlan.CopiedImage(job, before, links).value.0;
              left == if !phase.Swapping? || (job.cloud && NoRoom(job, copied, t.appid)) then out.links else cleared
  {
    hide Safe, InstallTools, Arguable, Restorable, RemoveLinks, InstallPlan.CopiedImage, InstallPlan.Unlinked,
      NoRoom;
    if InstallPlan.CopiedImage(job, before, links).Some? {
      var (copied, linked) := InstallPlan.CopiedImage(job, before, links).value;
      CopyIsRun(job, t, native, before, links, copied, linked);
      if job.cloud && InstallPlan.Planned(job, before, links).Some? {
        NewLinksUndone(job, t, native, copied, linked, InstallPlan.Planned(job, before, links).value);
      }
    }
  }

  // The entries of an earlier Cloud mapping, whose links the script takes away.
  function EarlierEntries(t: Setting, job: InstallPlan.Job, files: InstallPlan.Files): seq<CloudEntry> {
    if job.cloud && InstallPlan.CloudFile in files then t.json.decodeCloud(files[InstallPlan.CloudFile]).entries else []
  }

  // The entries of the new one, as far as their links stay when the script
  // stops at this step.
  ghost function StayingEntries(t: Setting, s: InstallPlan.Start, failed: InstallPlan.Step): seq<CloudEntry>
    requires InstallPlan.AppInfo in s.files
  {
    var phase, planned := InstallPlan.PhaseOf(failed), InstallPlan.Planned(s.job, s.files, s.links);
    if planned.None? || planned.value.cloudState.None? || phase.Copying? || phase.Preparing? then []
    else if phase.Swapping? && !NoRoom(s.job, InstallPlan.Copied(s).value.0, t.appid) then []
    else t.json.decodeCloud(planned.value.cloudState.value).entries
  }

  // An installation that fails leaves the links as they were if and only if it
  // stops at the copy, or what stays of the new mapping makes every link again
  // that went with the earlier one, and makes no other.
  lemma {:induction false} InstallLinksLeft(s: InstallPlan.Start, t: Setting, native: Section)
    requires InstallTools(s.job, t) && Arguable(t) && Restorable(t, s.files) && InstallPlan.AppInfo in s.files
    requires Safe(t.appid, native, InstalledWorld(s.files, t.json)) && InstallPlan.FirstFailure(s).Some?
    ensures var failed := InstallPlan.FirstFailure(s).value;
            InstallPlan.LinksLeft(s.job, s.files, s.links, failed) == s.links <==>
              || InstallPlan.PhaseOf(failed).Copying?
              || Recreated(s.links, EarlierEntries(t, s.job, s.files), StayingEntries(t, s, failed))
  {
    hide Safe, InstallTools, Arguable, Restorable, InstallPlan.FirstFailure, InstallPlan.LinksLeft, Recreated,
      StayingEntries, EarlierEntries;
    InstallPlan.FailureReaches(s);
    var failed := InstallPlan.FirstFailure(s).value;
    if InstallPlan.PhaseOf(failed).Copying? {
      CopyingLeaves(s, failed);
    } else {
      StayingSet(s, t, native, failed);
      RecreatedExactly(
        s.links, EarlierEntries(t, s.job, s.files), InstallPlan.LinksLeft(s.job, s.files, s.links, failed),
        StayingEntries(t, s, failed));
    }
  }

  lemma {:induction false} CopyingLeaves(s: InstallPlan.Start, failed: InstallPlan.Step)
    requires InstallPlan.AppInfo in s.files && InstallPlan.PhaseOf(failed).Copying?
    ensures InstallPlan.LinksLeft(s.job, s.files, s.links, failed) == s.links
  {
  }

  // After the copy, the earlier links are gone and the staying ones are set.
  lemma {:induction false} StayingSet(s: InstallPlan.Start, t: Setting, native: Section, failed: InstallPlan.Step)
    requires InstallTools(s.job, t) && Arguable(t) && Restorable(t, s.files) && InstallPlan.AppInfo in s.files
    requires Safe(t.appid, native, InstalledWorld(s.files, t.json))
    requires InstallPlan.Copied(s).Some? && !InstallPlan.PhaseOf(failed).Copying?
    ensures var cleared := RemoveLinks(s.links, EarlierEntries(t, s.job, s.files));
            var left := InstallPlan.LinksLeft(s.job, s.files, s.links, failed);
            LinksInstalled(cleared, left, StayingEntries(t, s, failed))
  {
    hide Safe, InstallTools, Arguable, Restorable, RemoveLinks, InstallPlan.CopiedImage, InstallPlan.LinksLeft,
      NoRoom, LinksInstalled, InstallPlan.EditedImage, InstallPlan.PhaseOf, InstallPlan.Planned;
    var (copied, linked) := InstallPlan.CopiedImage(s.job, s.files, s.links).value;
    CopyIsRun(s.job, t, native, s.files, s.links, copied, linked);
    LinksPerPhase(s.job, t, native, s.files, s.links, failed);
    NoneSet(linked);
    assert linked == RemoveLinks(s.links, EarlierEntries(t, s.job, s.files)) by { NothingRemoved(s.links); }
    if InstallPlan.Planned(s.job, s.files, s.links).Some? {
      var out := InstallPlan.Planned(s.job, s.files, s.links).value;
      PlannedEdits(s, copied, linked, out);
      NewLinksSet(s.job, t, copied, linked, out);
    }
  }

  lemma {:induction false} NothingRemoved(links: Links)
    ensures RemoveLinks(links, []) == links
  {
  }

  lemma {:induction false} PlannedEdits(s: InstallPlan.Start, copied: Bytes, links: Links, out: InstallPlan.Outcome)
    requires InstallPlan.AppInfo in s.files && InstallPlan.Planned(s.job, s.files, s.links) == Some(out)
    requires InstallPlan.CopiedImage(s.job, s.files, s.links) == Some((copied, links))
    ensures InstallPlan.EditedImage(s.job, copied, links) == Some((out.appinfo, out.state, out.cloudState, out.links))
    ensures out.cloudState.Some? <==> s.job.cloud
  {
    hide InstallPlan.CopiedImage;
  }

  lemma {:induction false} NoneSet(links: Links)
    ensures LinksInstalled(links, links, [])
  {
  }

  lemma {:induction false} NewLinksSet(
    job: InstallPlan.Job, t: Setting, copied: Bytes, links: Links, out: InstallPlan.Outcome)
    requires InstallTools(job, t) && Arguable(t)
    requires InstallPlan.EditedImage(job, copied, links) == Some((out.appinfo, out.state, out.cloudState, out.links))
    ensures match out.cloudState
            case Some(cloudState) =>
              LinksInstalled(links, out.links, t.json.decodeCloud(cloudState).entries)
            case None => out.links == links
  {
    hide InstallCloud, Patched, Arguments, Reloaded, InstallTools, LinksInstalled;
    if job.cloud {
      var patched, _, cst := CloudEdits(job, t, copied, links, out.appinfo, out.state, out.cloudState, out.links);
      InstallSets(t.env, t.sums, patched, t.appid, links, out.appinfo, out.links, cst);
      ReloadedSets(links, out.links, cst.entries, t.json.decodeCloud(t.json.encodeCloud(cst)).entries);
    }
  }

  // --- Removing -------------------------------------------------------------

  function RemovedWorld(files: Remover.Files, json: Json): World
    requires Remover.AppInfo in files
  {
    World(files[Remover.AppInfo],
      if Remover.StateFile in files then Some(json.decode(files[Remover.StateFile])) else None)
  }

  // The tools of a removal.
  ghost predicate RemoveTools(job: Remover.Job, t: Setting) {
    && (forall image, state :: job.restore(image, state) == RestoreTool(t, image, state))
    && (forall image, state, links :: job.cloudRestore(image, state, links) == CloudRestoreTool(t, image, state, links))
  }

  // A removal that succeeds is a run of the lifecycle. One that fails leaves
  // the world alone, but for the run that loses the state: then the mapping is
  // in the image and nothing records it.
  lemma {:induction false} RemoveIsRun(
    job: Remover.Job, t: Setting, native: Section, s: Remover.Start, after: Remover.Files, ok: bool)
    returns (actions: seq<Action>)
    requires RemoveTools(job, t) && s.job == job && Remover.AppInfo in s.files && Remover.StateFile in s.files
    requires Safe(t.appid, native, RemovedWorld(s.files, t.json))
    requires Remover.CloudFile in s.files ==>
               OriginalsFit(t.json.decodeCloud(s.files[Remover.CloudFile]).entries)
    requires Remover.Moved(after, s.files, Remover.Ran(s, Remover.Script(job, s.files)))
    requires ok ==>
               && Remover.Restored(job, s.files, s.links).Some?
               && Lookup(after, Remover.AppInfo) == Some(Remover.Restored(job, s.files, s.links).value.0)
               && Remover.StateFile !in after
    requires !ok ==> Lookup(after, Remover.AppInfo) == Lookup(s.files, Remover.AppInfo)
    requires !ok ==> (Remover.StateFile !in after <==> Remover.FirstFailure(s) == Some(Remover.MoveCloudState))
    ensures Remover.AppInfo in after
    ensures ok ==>
              && Run(t.h, t.sums, t.appid, RemovedWorld(s.files, t.json), actions, RemovedWorld(after, t.json))
              && Safe(t.appid, native, RemovedWorld(after, t.json)) && RemovedWorld(after, t.json).state.None?
    ensures !ok ==>
              RemovedWorld(after, t.json)
              == if Remover.FirstFailure(s) == Some(Remover.MoveCloudState)
                 then RemovedWorld(s.files, t.json).(state := None) else RemovedWorld(s.files, t.json)
  {
    hide Safe, Run, OriginalsFit, CloudRestoreTool, Editor.RestoreFile, Remover.Ran, Remover.Script,
      Remover.FirstFailure;
    var w := RemovedWorld(s.files, t.json);
    actions := [];
    if ok {
      var image, state := s.files[Remover.AppInfo], s.files[Remover.StateFile];
      assert job.restore(image, state) == RestoreTool(t, image, state);
      var cleared := Cleared(t.sums, t.appid, w).value;
      RemovesFirst(t, native, w, cleared);
      actions := [Remove];
      if Remover.CloudFile in s.files {
        var cloudState := s.files[Remover.CloudFile];
        assert job.cloudRestore(cleared, cloudState, s.links) == CloudRestoreTool(t, cleared, cloudState, s.links);
        var (newer, links') := CloudRestoreTool(t, cleared, cloudState, s.links).value;
        CloudRestoresThen(t, native, World(cleared, None), s.links, cloudState, newer, links');
        RunThen(t, w, actions, World(cleared, None), [SteamRefresh(newer)], World(newer, None));
        actions := actions + [SteamRefresh(newer)];
      }
    } else {
      assert Remover.Generated(Remover.StateFile);
    }
  }
}
