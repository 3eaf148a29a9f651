// The scripts as runs of the Cloud layer: an installation, forced or not, and a
// removal are a few actions on the overrides and links, so both keep them
// recorded and a removal gives the first ones back.
module CloudScripts {
  import opened Wrappers
  import opened Words
  import opened Strings
  import opened Vdf
  import opened AppImage
  import opened Undo
  import opened Cloud
  import opened CloudUndo
  import opened CloudFiles
  import opened EndToEnd
  import opened CloudLife
  import opened ScriptRuns
  import CloudRuns
  import Editor
  import InstallPlan
  import Launch
  import Lifecycle
  import Plan
  import Remover

  function InstalledCloud(files: InstallPlan.Files, links: Links, json: Json): CloudWorld
    requires InstallPlan.AppInfo in files
  {
    CloudWorld(files[InstallPlan.AppInfo], links,
      if InstallPlan.CloudFile in files then Some(json.decodeCloud(files[InstallPlan.CloudFile])) else None)
  }

  lemma {:induction false} RunOne(t: Setting, w: CloudWorld, a: CloudAction)
    requires CloudLife.Allowed(t.appid, w, a)
    ensures CloudLife.Run(t.sums, t.appid, w, [a], CloudLife.Next(t.sums, t.appid, w, a))
  {
    hide CloudLife.Allowed, CloudLife.Next;
    assert [a][1..] == [];
  }

  lemma {:induction false} RunThen(
    t: Setting, w: CloudWorld, first: seq<CloudAction>, mid: CloudWorld, second: seq<CloudAction>, last: CloudWorld)
    requires CloudLife.Run(t.sums, t.appid, w, first, mid) && CloudLife.Run(t.sums, t.appid, mid, second, last)
    ensures CloudLife.Run(t.sums, t.appid, w, first + second, last)
    decreases first
  {
    hide CloudLife.Allowed, CloudLife.Next;
    if first == [] {
      assert [] + second == second;
    } else {
      assert (first + second)[1..] == first[1..] + second;
      RunThen(t, CloudLife.Next(t.sums, t.appid, w, first[0]), first[1..], mid, second, last);
    }
  }

  // --- The launch tools -----------------------------------------------------

  lemma {:induction false} InstalledLaunch(sections: Dict, sections': Dict, st: Launch.State)
    requires Installed(sections, sections', st)
    ensures Find(sections, Launch.LAUNCH).Some? && Find(sections', Launch.LAUNCH).Some?
    ensures sections' == Graft(sections, Launch.LAUNCH, Find(sections', Launch.LAUNCH).value)
  {
    hide Recordable, ProperState, Find, Graft;
  }

  lemma {:induction false} PatchAllRefreshes(
    t: Setting, w: CloudWorld, template: string -> string, file: Bytes, st: Launch.State)
    requires HasTable(w.file, t.appid) && forall entry :: Storable(template(entry))
    requires Editor.PatchAllFile(t.h, t.sums, w.file, t.appid, template) == Ok((file, st))
    ensures CloudLife.Refreshes(t.appid, w, file)
  {
    hide Parse, Loaded, OnlyApp, Sized, Find, Graft, Editor.PatchAllFile, Storable, Overrides, CloudLife.Refreshes,
      Installed, Launch.PatchAll;
    var p := Parse(w.file).value;
    var q := PatchStep(t.h, t.sums, w.file, p, t.appid, template, file, st);
    var sections := SectionsAt(w.file, p, t.appid);
    var sections' := SectionsAt(file, q, t.appid);
    PatchAllInstalls(t.h, t.appid, template, sections, sections', st);
    InstalledLaunch(sections, sections', st);
    LaunchRefreshes(t.appid, w, file);
  }

  lemma {:induction false} PatchOneRefreshes(
    t: Setting, w: CloudWorld, executable: string, selector: Launch.Selector, guard: Launch.Guard, disable: bool,
    file: Bytes, st: Launch.State)
    requires HasTable(w.file, t.appid) && Storable(executable)
    requires Editor.PatchOneFile(t.h, t.sums, w.file, t.appid, executable, selector, guard, disable) == Ok((file, st))
    ensures CloudLife.Refreshes(t.appid, w, file)
  {
    hide Parse, Loaded, OnlyApp, Sized, Find, Graft, Editor.PatchOneFile, Storable, Overrides, CloudLife.Refreshes,
      Installed, Launch.PatchOne;
    var p := Parse(w.file).value;
    var q := PatchOneStep(t.h, t.sums, w.file, p, t.appid, executable, selector, guard, disable, file, st);
    var sections := SectionsAt(w.file, p, t.appid);
    var sections' := SectionsAt(file, q, t.appid);
    PatchOneInstalls(t.h, t.appid, executable, selector, guard, disable, sections, sections', st);
    InstalledLaunch(sections, sections', st);
    LaunchRefreshes(t.appid, w, file);
  }

  // The patch leaves the overrides alone.
  lemma {:induction false} PatchRefreshes(t: Setting, w: CloudWorld, file: Bytes, st: Launch.State)
    requires HasTable(w.file, t.appid) && Arguable(t) && Patched(t, w.file) == Some((file, st))
    ensures CloudLife.Refreshes(t.appid, w, file)
  {
    hide HasTable, Editor.PatchAllFile, Editor.PatchOneFile, Arguments, Faithful, Storable, CloudLife.Refreshes;
    match t.how(w.file)
    case InstallAll(template) => PatchAllRefreshes(t, w, template, file, st);
    case InstallOne(executable, selector, guard, disable) =>
      PatchOneRefreshes(t, w, executable, selector, guard, disable, file, st);
  }

  // And so does taking a launch mapping away.
  lemma {:induction false} ClearRefreshes(
    t: Setting, native: Plan.Section, lw: Lifecycle.World, w: CloudWorld, file: Bytes)
    requires Lifecycle.Safe(t.appid, native, lw) && lw.file == w.file && HasTable(w.file, t.appid)
    requires Lifecycle.Cleared(t.sums, t.appid, lw) == Ok(file)
    ensures CloudLife.Refreshes(t.appid, w, file) && HasTable(file, t.appid)
  {
    hide Parse, Loaded, OnlyApp, Find, Graft, Overrides, CloudLife.Refreshes, Editor.RestoreFile, Lifecycle.LaunchOf;
    if lw.state.Some? {
      Lifecycle.RestoreNative(t.sums, t.appid, native, lw);
      LaunchRefreshes(t.appid, w, file);
    } else {
      SameTableRefreshes(t.appid, w, file);
    }
  }

  // --- Installing -----------------------------------------------------------

  // What a recorded mapping becomes on the copy: gone, if the script deals with
  // the Cloud at all.
  function CopiedState(job: InstallPlan.Job, w: CloudWorld): Option<CloudState> {
    if job.cloud then None else w.state
  }

  lemma {:induction false} CopyIsCloudRun(
    job: InstallPlan.Job, t: Setting, native: Plan.Section, before: InstallPlan.Files, links: Links, copied: Bytes,
    links': Links)
    returns (actions: seq<CloudAction>)
    requires InstallTools(job, t) && InstallPlan.AppInfo in before
    requires Lifecycle.Safe(t.appid, native, InstalledWorld(before, t.json))
    requires HasTable(before[InstallPlan.AppInfo], t.appid)
    requires InstallPlan.CopiedImage(job, before, links) == Some((copied, links'))
    ensures var w := InstalledCloud(before, links, t.json);
            CloudLife.Run(t.sums, t.appid, w, actions, CloudWorld(copied, links', CopiedState(job, w)))
  {
    hide Lifecycle.Safe, CloudLife.Run, CloudRestoreTool, Editor.RestoreFile, HasTable, CloudLife.Refreshes;
    var w, lw := InstalledCloud(before, links, t.json), InstalledWorld(before, t.json);
    if lw.state.Some? {
      assert job.restore(lw.file, before[InstallPlan.StateFile])
          == RestoreTool(t, lw.file, before[InstallPlan.StateFile]);
    }
    var cleared := Lifecycle.Cleared(t.sums, t.appid, lw).value;
    ClearRefreshes(t, native, lw, w, cleared);
    RunOne(t, w, Refresh(cleared));
    actions := [Refresh(cleared)];
    if job.cloud && InstallPlan.CloudFile in before {
      var state := before[InstallPlan.CloudFile];
      assert job.cloudRestore(cleared, state, links) == CloudRestoreTool(t, cleared, state, links);
      RestoreIsRun(t, w.(file := cleared), state, copied, links');
      RunThen(t, w, actions, w.(file := cleared), [Restore], CloudWorld(copied, links', None));
      actions := actions + [Restore];
    }
  }

  lemma {:induction false} RestoreIsRun(t: Setting, w: CloudWorld, state: Bytes, file: Bytes, links: Links)
    requires w.state == Some(t.json.decodeCloud(state))
    requires CloudRestoreTool(t, w.file, state, w.links) == Some((file, links))
    ensures CloudLife.Run(t.sums, t.appid, w, [Restore], CloudWorld(file, links, None))
  {
    hide RestoreCloud, CloudLife.Run;
    RunOne(t, w, Restore);
  }

  lemma {:induction false} EditIsCloudRun(
    job: InstallPlan.Job, t: Setting, w: CloudWorld, out: InstallPlan.Outcome)
    returns (actions: seq<CloudAction>)
    requires InstallTools(job, t) && Arguable(t) && HasTable(w.file, t.appid) && (job.cloud ==> w.state.None?)
    requires InstallPlan.EditedImage(job, w.file, w.links) == Some((out.appinfo, out.state, out.cloudState, out.links))
    ensures CloudLife.Run(t.sums, t.appid, w, actions,
              CloudWorld(out.appinfo, out.links,
                match out.cloudState
                case Some(cloudState) => Some(t.json.decodeCloud(cloudState))
                case None => w.state))
  {
    hide CloudLife.Run, InstallCloud, Patched, Arguments, Faithful, HasTable, CloudLife.Refreshes;
    if job.cloud {
      var patched, st, cst := CloudEdits(job, t, w.file, w.links, out.appinfo, out.state, out.cloudState, out.links);
      PatchRefreshes(t, w, patched, st);
      RunOne(t, w, Refresh(patched));
      var w1 := w.(file := patched);
      var w2 := CloudWorld(out.appinfo, out.links, Some(cst));
      CloudInstallIsRun(t, w1, w2, cst);
      RunThen(t, w, [Refresh(patched)], w1, [Install(t.env), Reload(t.json.decodeCloud(t.json.encodeCloud(cst)))],
        w2.(state := Some(t.json.decodeCloud(t.json.encodeCloud(cst)))));
      actions := [Refresh(patched)] + [Install(t.env), Reload(t.json.decodeCloud(t.json.encodeCloud(cst)))];
    } else {
      var (patched, st) := Patched(t, w.file).value;
      PatchRefreshes(t, w, patched, st);
      RunOne(t, w, Refresh(patched));
      actions := [Refresh(patched)];
    }
  }

  lemma {:induction false} CloudInstallIsRun(t: Setting, w: CloudWorld, w': CloudWorld, cst: CloudState)
    requires Arguable(t) && w.state.None? && w'.state == Some(cst)
    requires InstallCloud(t.env, t.sums, w.file, w.links, t.appid, true) == Ok((w'.file, w'.links, cst))
    ensures var again := t.json.decodeCloud(t.json.encodeCloud(cst));
            CloudLife.Run(t.sums, t.appid, w, [Install(t.env), Reload(again)], w'.(state := Some(again)))
  {
    hide InstallCloud, Arguments, CloudLife.Run;
    var again := t.json.decodeCloud(t.json.encodeCloud(cst));
    ReadBack(t, cst);
    RunOne(t, w, Install(t.env));
    RunOne(t, w', Reload(again));
    RunThen(t, w, [Install(t.env)], w', [Reload(again)], w'.(state := Some(again)));
    assert [Install(t.env)] + [Reload(again)] == [Install(t.env), Reload(again)];
  }

  // A committed installation, over any earlier mapping, keeps the overrides and
  // links recorded: `overrides` and `first` stay what a restore gives back.
  lemma {:induction false} InstallKeepsCloud(
    job: InstallPlan.Job, t: Setting, native: Plan.Section, overrides: map<string, Tree>, first: Links,
    before: InstallPlan.Files, links: Links, after: InstallPlan.Files)
    returns (actions: seq<CloudAction>)
    requires InstallTools(job, t) && Arguable(t) && InstallPlan.AppInfo in before
    requires Lifecycle.Safe(t.appid, native, InstalledWorld(before, t.json))
    requires CloudLife.Safe(t.appid, overrides, first, InstalledCloud(before, links, t.json))
    requires InstallPlan.Planned(job, before, links).Some?
    requires InstallPlan.Committed(job, after, before, InstallPlan.Planned(job, before, links).value)
    ensures InstallPlan.AppInfo in after
    ensures var w := InstalledCloud(before, links, t.json);
            var w' := InstalledCloud(after, InstallPlan.Planned(job, before, links).value.links, t.json);
            && CloudLife.Run(t.sums, t.appid, w, actions, w')
            && CloudLife.Safe(t.appid, overrides, first, w')
  {
    hide Lifecycle.Safe, CloudLife.Run, InstallTools, Arguable, InstallPlan.CopiedImage, InstallPlan.EditedImage,
      PartlyOverlaid, LinksAdded, CloudLife.Recordable, OverridesOf, HasTable;
    var w, out := InstalledCloud(before, links, t.json), InstallPlan.Planned(job, before, links).value;
    var (copied, linked) := InstallPlan.CopiedImage(job, before, links).value;
    var mid := CloudWorld(copied, linked, CopiedState(job, w));
    var copying := CopyIsCloudRun(job, t, native, before, links, copied, linked);
    EveryRun(t.sums, t.appid, overrides, first, w, copying, mid);
    var editing := EditIsCloudRun(job, t, mid, out);
    CommittedCloud(job, t, before, links, after);
    var w' := InstalledCloud(after, out.links, t.json);
    RunThen(t, w, copying, mid, editing, w');
    actions := copying + editing;
    EveryRun(t.sums, t.appid, overrides, first, w, actions, w');
  }

  lemma {:induction false} CommittedCloud(
    job: InstallPlan.Job, t: Setting, before: InstallPlan.Files, links: Links, after: InstallPlan.Files)
    requires InstallPlan.AppInfo in before && InstallPlan.Planned(job, before, links).Some?
    requires InstallPlan.Committed(job, after, before, InstallPlan.Planned(job, before, links).value)
    ensures InstallPlan.AppInfo in after
    ensures var out := InstallPlan.Planned(job, before, links).value;
            InstalledCloud(after, out.links, t.json)
            == CloudWorld(out.appinfo, out.links,
                 match out.cloudState
                 case Some(cloudState) => Some(t.json.decodeCloud(cloudState))
                 case None => CopiedState(job, InstalledCloud(before, links, t.json)))
  {
    hide InstallPlan.CopiedImage;
    assert Lookup(after, InstallPlan.AppInfo) == Some(InstallPlan.Planned(job, before, links).value.appinfo);
  }

  // An entry of `recorded` owns the link of this one.
  ghost predicate Owned(recorded: seq<CloudEntry>, entry: CloudEntry) {
    exists j :: 0 <= j < |recorded| && recorded[j].linkOwned && recorded[j].link == entry.link
        && recorded[j].target == entry.target
  }

  lemma {:induction false} AddedExactly(
    first: Links, links: Links, entries: seq<CloudEntry>, recorded: seq<CloudEntry>)
    requires LinksInstalled(first, links, entries)
    requires forall i :: 0 <= i < |recorded| && recorded[i].linkOwned ==> recorded[i].link !in first
    ensures LinksAdded(first, links, recorded) <==>
              forall i :: 0 <= i < |entries| && entries[i].link !in first ==> Owned(recorded, entries[i])
  {
    if LinksAdded(first, links, recorded) {
      forall i | 0 <= i < |entries| && entries[i].link !in first ensures Owned(recorded, entries[i]) {
        assert Lookup(links, entries[i].link) == Some(Link(entries[i].target));
        assert Removable(links, recorded, entries[i].link);
      }
    }
    if forall i :: 0 <= i < |entries| && entries[i].link !in first ==> Owned(recorded, entries[i]) {
      forall p | p in links && p !in first ensures Removable(links, recorded, p) {
        var i :| 0 <= i < |entries| && entries[i].linkOwned && entries[i].link == p
            && links[p] == Link(entries[i].target);
        assert Owned(recorded, entries[i]);
      }
    }
  }

  lemma {:induction false} NoneAdded(first: Links, links: Links)
    ensures LinksAdded(first, links, []) <==> links == first
  {
    if LinksAdded(first, links, []) {
      assert forall p :: p in links <==> p in first;
    }
  }

  // The same overrides with other links are as safe as the recorded entries
  // explain the links.
  lemma {:induction false} SafeLinks(
    appid: Word32, overrides: map<string, Tree>, first: Links, w: CloudWorld, links: Links)
    requires CloudLife.Safe(appid, overrides, first, w)
    ensures CloudLife.Safe(appid, overrides, first, w.(links := links)) <==> LinksAdded(first, links, Entries(w))
    ensures forall i :: 0 <= i < |Entries(w)| && Entries(w)[i].linkOwned ==> Entries(w)[i].link !in first
    ensures RemoveLinks(w.links, Entries(w)) == first
  {
    hide HasTable, OverridesOf, PartlyOverlaid, CloudLife.Recordable;
    NoneAdded(first, links);
    NoneAdded(first, w.links);
    LinksUndone(first, w.links, Entries(w));
  }

  lemma {:induction false} SafeRestorable(
    t: Setting, overrides: map<string, Tree>, first: Links, files: InstallPlan.Files, links: Links)
    requires InstallPlan.AppInfo in files
    requires CloudLife.Safe(t.appid, overrides, first, InstalledCloud(files, links, t.json))
    ensures Restorable(t, files)
  {
    hide HasTable, OverridesOf, LinksAdded, PartlyOverlaid, ProperEntries, DistinctKeys, CloudRuns.OriginalsFit;
    if InstallPlan.CloudFile in files {
      CloudLife.OriginalsFit(
        overrides, OverridesOf(files[InstallPlan.AppInfo], t.appid),
        t.json.decodeCloud(files[InstallPlan.CloudFile]).entries);
    }
  }

  // A failed installation keeps them recorded if and only if what stays of the
  // new mapping owns no link that the recorded one does not.
  lemma {:induction false} FailureKeepsCloud(
    s: InstallPlan.Start, t: Setting, native: Plan.Section, overrides: map<string, Tree>, first: Links,
    after: InstallPlan.Files, left: Links)
    requires InstallTools(s.job, t) && Arguable(t) && InstallPlan.AppInfo in s.files
    requires Lifecycle.Safe(t.appid, native, InstalledWorld(s.files, t.json))
    requires CloudLife.Safe(t.appid, overrides, first, InstalledCloud(s.files, s.links, t.json))
    requires InstallPlan.FirstFailure(s).Some?
    requires Lookup(after, InstallPlan.AppInfo) == Lookup(s.files, InstallPlan.AppInfo)
    requires Lookup(after, InstallPlan.CloudFile) == Lookup(s.files, InstallPlan.CloudFile)
    requires left == InstallPlan.LinksLeft(s.job, s.files, s.links, InstallPlan.FirstFailure(s).value)
    ensures InstallPlan.AppInfo in after
    ensures var recorded := Entries(InstalledCloud(s.files, s.links, t.json));
            var staying := StayingEntries(t, s, InstallPlan.FirstFailure(s).value);
            CloudLife.Safe(t.appid, overrides, first, InstalledCloud(after, left, t.json)) <==>
              forall i :: 0 <= i < |staying| && staying[i].link !in first ==> Owned(recorded, staying[i])
  {
    hide CloudLife.Safe, Lifecycle.Safe, InstallTools, Arguable, Restorable, InstallPlan.FirstFailure,
      InstallPlan.LinksLeft, StayingEntries, LinksInstalled, LinksAdded, RemoveLinks, Owned;
    var failed, w := InstallPlan.FirstFailure(s).value, InstalledCloud(s.files, s.links, t.json);
    assert InstalledCloud(after, left, t.json) == w.(links := left);
    SafeLinks(t.appid, overrides, first, w, left);
    SafeRestorable(t, overrides, first, s.files, s.links);
    InstallPlan.FailureReaches(s);
    if InstallPlan.PhaseOf(failed).Copying? {
      CopyingLeaves(s, failed);
      SafeLinks(t.appid, overrides, first, w, s.links);
      NothingStays(t, s, failed);
    } else if s.job.cloud {
      StayingSet(s, t, native, failed);
      EarlierRecorded(t, s);
      AddedExactly(first, left, StayingEntries(t, s, failed), Entries(w));
    } else {
      NothingStays(t, s, failed);
      NoCloudLinks(s, failed);
      SafeLinks(t.appid, overrides, first, w, s.links);
    }
  }

  lemma {:induction false} EarlierRecorded(t: Setting, s: InstallPlan.Start)
    requires s.job.cloud && InstallPlan.AppInfo in s.files
    ensures EarlierEntries(t, s.job, s.files) == Entries(InstalledCloud(s.files, s.links, t.json))
  {
  }

  lemma {:induction false} NothingStays(t: Setting, s: InstallPlan.Start, failed: InstallPlan.Step)
    requires InstallPlan.AppInfo in s.files && (InstallPlan.PhaseOf(failed).Copying? || !s.job.cloud)
    ensures StayingEntries(t, s, failed) == []
  {
    hide InstallPlan.CopiedImage;
  }

  lemma {:induction false} NoCloudLinks(s: InstallPlan.Start, failed: InstallPlan.Step)
    requires InstallPlan.AppInfo in s.files && !s.job.cloud
    ensures InstallPlan.LinksLeft(s.job, s.files, s.links, failed) == s.links
  {
    hide InstallPlan.WithoutLaunches;
  }

  // --- Removing -------------------------------------------------------------

  function RemovedCloud(files: Remover.Files, links: Links, json: Json): CloudWorld
    requires Remover.AppInfo in files
  {
    CloudWorld(files[Remover.AppInfo], links,
      if Remover.CloudFile in files then Some(json.decodeCloud(files[Remover.CloudFile])) else None)
  }

  // A removal that succeeds leaves the first overrides and links, and one that
  // fails keeps them recorded.
  lemma {:induction false} RemoveKeepsCloud(
    job: Remover.Job, t: Setting, native: Plan.Section, overrides: map<string, Tree>, first: Links, s: Remover.Start,
    after: Remover.Files, left: Links, ok: bool)
    requires RemoveTools(job, t) && s.job == job && Remover.AppInfo in s.files && Remover.StateFile in s.files
    requires Lifecycle.Safe(t.appid, native, RemovedWorld(s.files, t.json))
    requires CloudLife.Safe(t.appid, overrides, first, RemovedCloud(s.files, s.links, t.json))
    requires Remover.Moved(after, s.files, Remover.Ran(s, Remover.Script(job, s.files)))
    requires left == Remover.LinksAfter(s, Remover.Ran(s, Remover.Script(job, s.files)))
    requires ok <==> Remover.FirstFailure(s).None?
    requires ok ==>
               && Remover.Restored(job, s.files, s.links).Some?
               && Lookup(after, Remover.AppInfo) == Some(Remover.Restored(job, s.files, s.links).value.0)
               && left == Remover.Restored(job, s.files, s.links).value.1 && Remover.CloudFile !in after
    requires !ok ==> Lookup(after, Remover.AppInfo) == Lookup(s.files, Remover.AppInfo)
    ensures Remover.AppInfo in after
    ensures CloudLife.Safe(t.appid, overrides, first, RemovedCloud(after, left, t.json))
    ensures ok ==> RemovedCloud(after, left, t.json).state.None? && left == first
                   && OverridesOf(after[Remover.AppInfo], t.appid) == overrides
  {
    hide Lifecycle.Safe, CloudLife.Run, PartlyOverlaid, LinksAdded, CloudLife.Recordable, HasTable, OverridesOf,
      RemoveTools, Remover.Restored, Remover.Moved, Remover.Ran, Remover.FirstFailure, Remover.LinksAfter,
      Remover.Script;
    var w := RemovedCloud(s.files, s.links, t.json);
    if ok {
      var actions := RestoredIsRun(job, t, native, s, Remover.Restored(job, s.files, s.links).value);
      EveryRun(t.sums, t.appid, overrides, first, w, actions, RemovedCloud(after, left, t.json));
    } else {
      CloudStateStays(s, after);
      SafeLinks(t.appid, overrides, first, w, left);
      LeftAfter(job, t, native, overrides, first, s);
    }
  }

  lemma {:induction false} RestoredIsRun(
    job: Remover.Job, t: Setting, native: Plan.Section, s: Remover.Start, out: (Bytes, Links))
    returns (actions: seq<CloudAction>)
    requires RemoveTools(job, t) && Remover.AppInfo in s.files && Remover.StateFile in s.files
    requires Lifecycle.Safe(t.appid, native, RemovedWorld(s.files, t.json))
    requires HasTable(s.files[Remover.AppInfo], t.appid)
    requires Remover.Restored(job, s.files, s.links) == Some(out)
    ensures CloudLife.Run(t.sums, t.appid, RemovedCloud(s.files, s.links, t.json), actions,
              CloudWorld(out.0, out.1, None))
  {
    hide Lifecycle.Safe, CloudLife.Run, CloudRestoreTool, Editor.RestoreFile, HasTable, CloudLife.Refreshes;
    var w, lw := RemovedCloud(s.files, s.links, t.json), RemovedWorld(s.files, t.json);
    assert job.restore(lw.file, s.files[Remover.StateFile]) == RestoreTool(t, lw.file, s.files[Remover.StateFile]);
    var cleared := Lifecycle.Cleared(t.sums, t.appid, lw).value;
    ClearRefreshes(t, native, lw, w, cleared);
    RunOne(t, w, Refresh(cleared));
    actions := [Refresh(cleared)];
    if Remover.CloudFile in s.files {
      var state := s.files[Remover.CloudFile];
      assert job.cloudRestore(cleared, state, s.links) == CloudRestoreTool(t, cleared, state, s.links);
      RestoreIsRun(t, w.(file := cleared), state, out.0, out.1);
      RunThen(t, w, actions, w.(file := cleared), [Restore], CloudWorld(out.0, out.1, None));
      actions := actions + [Restore];
    }
  }

  // The Cloud state moves last, so a run that stops has not moved it.
  lemma {:induction false} CloudStateStays(s: Remover.Start, after: Remover.Files)
    requires Remover.AppInfo in s.files && Remover.StateFile in s.files && Remover.FirstFailure(s).Some?
    requires Remover.Moved(after, s.files, Remover.Ran(s, Remover.Script(s.job, s.files)))
    ensures Lookup(after, Remover.CloudFile) == Lookup(s.files, Remover.CloudFile)
  {
    hide Remover.Ran, Remover.Script, Remover.Stops, Remover.BeforeState;
    assert Remover.Generated(Remover.CloudFile);
    var script, front := Remover.Script(s.job, s.files), Remover.BeforeState(s.job, s.files);
    var ran := Remover.Ran(s, script);
    Remover.StateMovedLast(s.job, s.files);
    assert ran == script[..|ran|];
    forall i | 0 <= i < |ran| ensures ran[i] != Remover.MoveCloudState {
      assert ran[i] == script[i];
      if i < |front| {
        assert script[i] == front[i] && front[i] in front;
      }
    }
  }

  lemma {:induction false} LeftAfter(
    job: Remover.Job, t: Setting, native: Plan.Section, overrides: map<string, Tree>, first: Links, s: Remover.Start)
    requires RemoveTools(job, t) && s.job == job && Remover.AppInfo in s.files && Remover.StateFile in s.files
    requires Lifecycle.Safe(t.appid, native, RemovedWorld(s.files, t.json))
    requires CloudLife.Safe(t.appid, overrides, first, RemovedCloud(s.files, s.links, t.json))
    ensures var left := Remover.LinksAfter(s, Remover.Ran(s, Remover.Script(job, s.files)));
            LinksAdded(first, left, Entries(RemovedCloud(s.files, s.links, t.json)))
  {
    hide Lifecycle.Safe, CloudLife.Run, PartlyOverlaid, LinksAdded, CloudLife.Recordable, HasTable, OverridesOf,
      RemoveTools, Remover.Restored, Remover.Ran, Remover.Script;
    var w := RemovedCloud(s.files, s.links, t.json);
    SafeLinks(t.appid, overrides, first, w, s.links);
    if Remover.Restored(job, s.files, s.links).Some? {
      var out := Remover.Restored(job, s.files, s.links).value;
      var actions := RestoredIsRun(job, t, native, s, out);
      EveryRun(t.sums, t.appid, overrides, first, w, actions, CloudWorld(out.0, out.1, None));
      NothingMissing(first, s.links, Entries(w));
    }
  }

  lemma {:induction false} NothingMissing(first: Links, links: Links, entries: seq<CloudEntry>)
    requires LinksAdded(first, links, entries)
    ensures LinksAdded(first, first, entries)
  {
  }
}
