// The install transaction: prepare everything beside the live files, swap it
// in command by command, and put everything back when a command fails.
module Installer {
  import opened Wrappers
  import opened Words
  import Cloud
  import opened InstallPlan

  // One line of a launcher plan: does it name a backup?
  datatype Line = Line(name: string, backup: bool)

  lemma {:induction false} NotInFiles(files: Files, p: Place)
    requires p !in files
    ensures Lookup(files, p) == None
  {
  }

  lemma {:induction false} InFiles(files: Files, p: Place)
    ensures p in files <==> Lookup(files, p).Some?
  {
  }

  predicate Distinct(names: seq<string>) {
    forall i, j :: 0 <= i < j < |names| ==> names[i] != names[j]
  }

  function LineFor(lines: seq<Line>, name: string): Option<Line> {
    if lines == [] then None
    else if lines[0].name == name then Some(lines[0])
    else LineFor(lines[1..], name)
  }

  function Names(lines: seq<Line>): (names: seq<string>)
    ensures |names| == |lines|
  {
    seq(|lines|, i requires 0 <= i < |lines| => lines[i].name)
  }

  lemma {:induction false} NameAt(lines: seq<Line>, i: nat)
    requires i < |lines|
    ensures Names(lines)[i] == lines[i].name
  {
  }

  lemma {:induction false} NamesEmpty(lines: seq<Line>)
    ensures lines == [] <==> Names(lines) == []
  {
  }

  lemma {:induction false} NamesNone()
    ensures Names([]) == [] && Distinct([])
  {
  }

  lemma {:induction false} LineForAt(lines: seq<Line>, i: nat)
    requires i < |lines| && Distinct(Names(lines))
    ensures LineFor(lines, lines[i].name) == Some(lines[i])
  {
    if i > 0 {
      assert Names(lines)[0] != Names(lines)[i];
      assert Names(lines[1..]) == Names(lines)[1..];
      LineForAt(lines[1..], i - 1);
    }
  }

  lemma {:induction false} LineForNone(lines: seq<Line>, name: string)
    ensures LineFor(lines, name).None? <==> forall i :: 0 <= i < |lines| ==> lines[i].name != name
    ensures LineFor(lines, name).Some? ==>
              LineFor(lines, name).value in lines && LineFor(lines, name).value.name == name
  {
    if lines != [] {
      LineForNone(lines[1..], name);
      if LineFor(lines[1..], name).None? && lines[0].name != name {
        forall i | 0 <= i < |lines| ensures lines[i].name != name { if i > 0 { assert lines[i] == lines[1..][i - 1]; } }
      }
      if forall i :: 0 <= i < |lines| ==> lines[i].name != name {
        assert forall i :: 0 <= i < |lines[1..]| ==> lines[1..][i] == lines[i + 1];
      }
    }
  }

  lemma {:induction false} LineForAppend(lines: seq<Line>, line: Line, name: string)
    ensures LineFor(lines + [line], name) == if LineFor(lines, name).Some? then LineFor(lines, name)
                                             else if line.name == name then Some(line) else None
  {
    if lines != [] {
      assert (lines + [line])[1..] == lines[1..] + [line];
      LineForAppend(lines[1..], line, name);
    } else {
      assert (lines + [line])[1..] == [];
    }
  }

  // --- What a rollback would make of one file -------------------------------

  // A generated file: its place, its backup, and what it was.
  ghost predicate SlotOk(now: Option<Bytes>, saved: Option<Bytes>, orig: Option<Bytes>, installed: bool, named: bool) {
    var after := if installed then None else now;
    if named && after.None? then saved == orig && orig.Some? else after == orig && saved.None?
  }

  // Once a file is installed, what stands in its place is ignored.
  lemma {:induction false} SlotPlaced(saved: Option<Bytes>, orig: Option<Bytes>, named: bool)
    ensures SlotOk(None, saved, orig, false, named) ==> forall now :: SlotOk(now, saved, orig, true, named)
  {
  }

  ghost predicate LauncherOk(
    now: Option<Bytes>, saved: Option<Bytes>, orig: Option<Bytes>, line: Option<Line>, committed: bool)
  {
    var after := if committed && line.Some? then None else now;
    if line.Some? && line.value.backup && after.None? && saved.Some? then saved == orig
    else after == orig && saved.None?
  }

  // Whether each generated file was installed, and whether its backup was named.
  datatype Slots = Slots(
    configInstalled: bool, configBackup: bool, stateInstalled: bool, stateBackup: bool, cloudInstalled: bool,
    cloudBackup: bool)

  ghost predicate SlotsHold(files: Files, orig: Files, s: Slots) {
    && SlotOk(Lookup(files, Config), Lookup(files, ConfigBackup), Lookup(orig, Config), s.configInstalled,
        s.configBackup)
    && SlotOk(Lookup(files, StateFile), Lookup(files, StateBackup), Lookup(orig, StateFile), s.stateInstalled,
        s.stateBackup)
    && SlotOk(Lookup(files, CloudFile), Lookup(files, CloudBackup), Lookup(orig, CloudFile), s.cloudInstalled,
        s.cloudBackup)
  }

  // Setting the generated files aside leaves all other files alone.
  lemma {:induction false} GeneratedAside(before: Files, after: Files)
    requires forall p :: p !in {Config, ConfigBackup, StateFile, StateBackup, CloudFile, CloudBackup} ==>
               Lookup(after, p) == Lookup(before, p)
    ensures forall p :: Temporary(p) || p in {AppInfo, AppInfoBackup, Client} ==> Lookup(after, p) == Lookup(before, p)
    ensures forall p: Place :: p.Launcher? || p.LauncherBackup? ==> Lookup(after, p) == Lookup(before, p)
    ensures forall p: Place :: Temporary(p) ==> !p.Launcher? && !p.LauncherBackup?
  {
    hide Lookup;
  }

  ghost predicate LaunchersHold(files: Files, orig: Files, lines: seq<Line>, committed: bool) {
    forall n :: LauncherOk(
      Lookup(files, Launcher(n)), Lookup(files, LauncherBackup(n)), Lookup(orig, Launcher(n)), LineFor(lines, n),
          committed)
  }

  lemma {:induction false} SameSlots(before: Files, after: Files, orig: Files, s: Slots)
    requires SlotsHold(before, orig, s)
    requires forall p :: p in {Config, StateFile, CloudFile, ConfigBackup, StateBackup, CloudBackup} ==>
               Lookup(after, p) == Lookup(before, p)
    ensures SlotsHold(after, orig, s)
  {
    hide SlotOk, Lookup;
  }

  lemma {:induction false} SameLaunchers(before: Files, after: Files, orig: Files, lines: seq<Line>, committed: bool)
    requires LaunchersHold(before, orig, lines, committed)
    requires forall p: Place :: p.Launcher? || p.LauncherBackup? ==> Lookup(after, p) == Lookup(before, p)
    ensures LaunchersHold(after, orig, lines, committed)
  {
  }

  // A launcher after the first loop of the commit.
  ghost predicate AsideOne(now: Option<Bytes>, saved: Option<Bytes>, orig: Option<Bytes>, line: Option<Line>) {
    match line
    case None => now == orig && saved.None?
    case Some(l) => now.None? && (if l.backup then saved == orig && orig.Some? else orig.None? && saved.None?)
  }

  // The launchers of `lines` are set aside, the others are where they were.
  ghost predicate Aside(files: Files, orig: Files, lines: seq<Line>) {
    forall n :: AsideOne(Lookup(files, Launcher(n)), Lookup(files, LauncherBackup(n)), Lookup(orig, Launcher(n)),
        LineFor(lines, n))
  }

  lemma {:induction false} AsideHolds(files: Files, orig: Files, lines: seq<Line>, committed: bool)
    requires Aside(files, orig, lines)
    ensures LaunchersHold(files, orig, lines, committed)
  {
  }

  lemma {:induction false} AsideAbsent(files: Files, orig: Files, lines: seq<Line>, name: string)
    requires Aside(files, orig, lines) && LineFor(lines, name).None? && Launcher(name) !in files
    ensures Aside(files, orig, lines + [Line(name, false)])
  {
    hide LineFor;
    forall n
      ensures AsideOne(Lookup(files, Launcher(n)), Lookup(files, LauncherBackup(n)), Lookup(orig, Launcher(n)),
                LineFor(lines + [Line(name, false)], n))
    {
      LineForAppend(lines, Line(name, false), n);
      assert AsideOne(Lookup(files, Launcher(n)), Lookup(files, LauncherBackup(n)), Lookup(orig, Launcher(n)),
          LineFor(lines, n));
    }
  }

  lemma {:induction false} SameAside(before: Files, after: Files, orig: Files)
    requires Aside(before, orig, [])
    requires forall p: Place :: p.Launcher? || p.LauncherBackup? ==> Lookup(after, p) == Lookup(before, p)
    ensures Aside(after, orig, [])
  {
  }

  // Once its line is written, a launcher can be moved or not.
  lemma {:induction false} AsidePresent(files: Files, orig: Files, lines: seq<Line>, name: string)
    requires Aside(files, orig, lines) && LineFor(lines, name).None? && Launcher(name) in files
    ensures LaunchersHold(files, orig, lines + [Line(name, true)], false)
    ensures Aside((files - {Launcher(name)})[LauncherBackup(name) := files[Launcher(name)]], orig, lines
              + [Line(name, true)])
  {
    hide LineFor;
    var moved := (files - {Launcher(name)})[LauncherBackup(name) := files[Launcher(name)]];
    forall n
      ensures LauncherOk(Lookup(files, Launcher(n)), Lookup(files, LauncherBackup(n)), Lookup(orig, Launcher(n)),
                LineFor(lines + [Line(name, true)], n), false)
      ensures AsideOne(Lookup(moved, Launcher(n)), Lookup(moved, LauncherBackup(n)), Lookup(orig, Launcher(n)),
                LineFor(lines + [Line(name, true)], n))
    {
      LineForAppend(lines, Line(name, true), n);
      assert AsideOne(Lookup(files, Launcher(n)), Lookup(files, LauncherBackup(n)), Lookup(orig, Launcher(n)),
          LineFor(lines, n));
    }
  }

  // The new files, beside their places.
  ghost predicate Beside(job: Job, files: Files, out: Outcome) {
    && Lookup(files, ConfigTmp) == Some(job.config)
    && Lookup(files, StateTmp) == Some(out.state)
    && (job.cloud ==> out.cloudState.Some? && Lookup(files, CloudTmp) == out.cloudState)
    && (forall i :: 0 <= i < |out.names| ==>
        Lookup(files, LauncherTmp(out.names[i])) == Some(job.launcher(out.names[i])))
  }

  lemma {:induction false} SameBeside(job: Job, before: Files, after: Files, out: Outcome)
    requires Beside(job, before, out)
    requires forall p :: Temporary(p) && !p.AppInfoTmp? ==> Lookup(after, p) == Lookup(before, p)
    ensures Beside(job, after, out)
  {
    hide Lookup;
  }

  // Their places are free.
  ghost predicate Free(job: Job, files: Files, orig: Files) {
    && Lookup(files, Config).None? && Lookup(files, StateFile).None?
    && (if job.cloud then Lookup(files, CloudFile).None? else Lookup(files, CloudFile) == Lookup(orig, CloudFile))
  }

  lemma {:induction false} AsideOthers(files: Files, orig: Files, lines: seq<Line>)
    requires Aside(files, orig, lines)
    ensures forall n :: n !in Names(lines) ==> Lookup(files, Launcher(n)) == Lookup(orig, Launcher(n))
  {
    hide Lookup;
    forall n | n !in Names(lines) ensures Lookup(files, Launcher(n)) == Lookup(orig, Launcher(n)) {
      LineForNone(lines, n);
      forall i | 0 <= i < |lines| ensures lines[i].name != n { assert Names(lines)[i] == lines[i].name; }
      assert AsideOne(Lookup(files, Launcher(n)), Lookup(files, LauncherBackup(n)), Lookup(orig, Launcher(n)),
          LineFor(lines, n));
    }
  }

  lemma {:induction false} Waiting(job: Job, files: Files, orig: Files, out: Outcome)
    requires Free(job, files, orig) && Beside(job, files, out)
    ensures Config !in files && ConfigTmp in files && Lookup(files, StateFile).None? && Lookup(files, StateTmp).Some?
    ensures job.cloud ==> Lookup(files, CloudFile).None? && Lookup(files, CloudTmp).Some?
    ensures forall i :: 0 <= i < |out.names| ==>
              Lookup(files, LauncherTmp(out.names[i])) == Some(job.launcher(out.names[i]))
  {
  }

  lemma {:induction false} AllPlaced(job: Job, f0: Files, f1: Files, f2: Files, orig: Files, out: Outcome)
    requires Lookup(f0, AppInfo) == Some(out.appinfo) && Free(job, f0, orig) && Beside(job, f0, out)
    requires forall n :: n !in out.names ==> Lookup(f0, Launcher(n)) == Lookup(orig, Launcher(n))
    requires Lookup(f1, Config) == Lookup(f0, ConfigTmp)
    requires forall i :: 0 <= i < |out.names| ==> Lookup(f1, Launcher(out.names[i])) == Some(job.launcher(out.names[i]))
    requires forall n :: n !in out.names ==> Lookup(f1, Launcher(n)) == Lookup(f0, Launcher(n))
    requires forall p: Place :: !p.Config? && !p.ConfigTmp? && !p.Launcher? && !p.LauncherTmp? ==>
               Lookup(f1, p) == Lookup(f0, p)
    requires Lookup(f2, StateFile) == Lookup(f1, StateTmp)
    requires Lookup(f2, CloudFile) == Lookup(f1, if job.cloud then CloudTmp else CloudFile)
    requires forall p: Place :: !p.StateFile? && !p.StateTmp? && !p.CloudFile? && !p.CloudTmp? ==>
               Lookup(f2, p) == Lookup(f1, p)
    ensures Committed(job, f2, orig, out)
  {
    hide Lookup;
  }

  lemma {:induction false} SameCommitted(job: Job, before: Files, after: Files, orig: Files, out: Outcome)
    requires Committed(job, before, orig, out)
    requires forall p :: Lasting(p) && !p.Client? ==> Lookup(after, p) == Lookup(before, p)
    ensures Committed(job, after, orig, out)
  {
    hide Lookup;
  }

  ghost predicate ImageHolds(files: Files, orig: Files, installed: bool) {
    Lookup(orig, AppInfo).Some? && Lookup(files, if installed then AppInfoBackup else AppInfo) == Lookup(orig, AppInfo)
  }

  // A rollback would make `orig` of these files.
  ghost predicate Restorable(files: Files, orig: Files, installed: bool, s: Slots, lines: seq<Line>, committed: bool) {
    Distinct(Names(lines)) && ImageHolds(files, orig, installed) && SlotsHold(files, orig, s)
        && LaunchersHold(files, orig, lines, committed)
  }

  lemma {:induction false} SameRestorable(
    before: Files, after: Files, orig: Files, installed: bool, s: Slots, lines: seq<Line>, committed: bool)
    requires Restorable(before, orig, installed, s, lines, committed)
    requires forall p :: (Lasting(p) && !p.Client?) || Backup(p) || p.AppInfoBackup? ==>
               Lookup(after, p) == Lookup(before, p)
    ensures Restorable(after, orig, installed, s, lines, committed)
  {
  }

  lemma {:induction false} SpecsGone(
    job: Job, files: Files, orig: Files, out: Outcome, installed: bool, s: Slots, lines: seq<Line>, committed: bool)
    requires Restorable(files, orig, installed, s, lines, committed) && Committed(job, files, orig, out)
    ensures Restorable(files - {Specs}, orig, installed, s, lines, committed)
    ensures Committed(job, files - {Specs}, orig, out)
    ensures forall p :: p != Specs ==> Lookup(files - {Specs}, p) == Lookup(files, p)
  {
    hide Restorable, Committed;
    SameRestorable(files, files - {Specs}, orig, installed, s, lines, committed);
    SameCommitted(job, files, files - {Specs}, orig, out);
  }

  // After the scratch files and the launchers, the image.
  lemma {:induction false} ImageBack(
    before: Files, cleared: Files, after: Files, orig: Files, installed: bool, s: Slots)
    requires ImageHolds(before, orig, installed) && SlotsHold(before, orig, s)
    requires forall p: Place ::
               !p.Launcher? && !p.LauncherBackup? && !Temporary(p) && !(p == AppInfo && installed) ==>
                 Lookup(cleared, p) == Lookup(before, p)
    requires forall p: Place :: p.LauncherBackup? || Temporary(p) ==> Lookup(cleared, p).None?
    requires Lookup(after, AppInfo)
          == if installed && Lookup(cleared, AppInfoBackup).Some? then Lookup(cleared, AppInfoBackup)
             else Lookup(cleared, AppInfo)
    requires forall p :: p != AppInfo ==> Lookup(after, p) == Lookup(cleared, p)
    ensures Lookup(after, AppInfo) == Lookup(orig, AppInfo) && SlotsHold(after, orig, s)
    ensures forall p: Place :: p.LauncherBackup? || Temporary(p) ==> Lookup(after, p).None?
    ensures forall p: Place :: !p.Launcher? && !p.LauncherBackup? && !Temporary(p) && !p.AppInfo? ==>
              Lookup(after, p) == Lookup(before, p)
  {
    hide Lookup, SlotsHold;
    SameSlots(before, after, orig, s);
  }

  // Installing one generated file keeps a rollback possible.
  lemma {:induction false} PlacedConfig(
    before: Files, after: Files, orig: Files, s: Slots, lines: seq<Line>, committed: bool)
    requires Restorable(before, orig, true, s, lines, committed) && !s.configInstalled && Lookup(before, Config).None?
    requires forall p :: p != Config && p != ConfigTmp ==> Lookup(after, p) == Lookup(before, p)
    ensures Restorable(after, orig, true, s.(configInstalled := true), lines, committed)
  {
    hide SlotOk, LaunchersHold, Distinct, Lookup;
    SlotPlaced(Lookup(before, ConfigBackup), Lookup(orig, Config), s.configBackup);
    SameLaunchers(before, after, orig, lines, committed);
  }

  lemma {:induction false} PlacedStateFile(
    before: Files, after: Files, orig: Files, s: Slots, lines: seq<Line>, committed: bool)
    requires Restorable(before, orig, true, s, lines, committed) && !s.stateInstalled && Lookup(before, StateFile).None?
    requires forall p :: p != StateFile && p != StateTmp ==> Lookup(after, p) == Lookup(before, p)
    ensures Restorable(after, orig, true, s.(stateInstalled := true), lines, committed)
  {
    hide SlotOk, LaunchersHold, Distinct, Lookup;
    SlotPlaced(Lookup(before, StateBackup), Lookup(orig, StateFile), s.stateBackup);
    SameLaunchers(before, after, orig, lines, committed);
  }

  lemma {:induction false} PlacedCloudFile(
    before: Files, after: Files, orig: Files, s: Slots, lines: seq<Line>, committed: bool)
    requires Restorable(before, orig, true, s, lines, committed) && !s.cloudInstalled && Lookup(before, CloudFile).None?
    requires forall p :: p != CloudFile && p != CloudTmp ==> Lookup(after, p) == Lookup(before, p)
    ensures Restorable(after, orig, true, s.(cloudInstalled := true), lines, committed)
  {
    hide SlotOk, LaunchersHold, Distinct, Lookup;
    SlotPlaced(Lookup(before, CloudBackup), Lookup(orig, CloudFile), s.cloudBackup);
    SameLaunchers(before, after, orig, lines, committed);
  }

  // The lasting files and their backups are those of `orig`.
  ghost predicate SameLasting(files: Files, orig: Files) {
    forall p :: Lasting(p) || Backup(p) ==> Lookup(files, p) == Lookup(orig, p)
  }

  lemma {:induction false} IdleAside(files: Files, orig: Files)
    requires SameLasting(files, orig) && forall p :: Backup(p) ==> p !in orig
    ensures Aside(files, orig, [])
    ensures Lookup(files, CloudFile) == Lookup(orig, CloudFile)
  {
  }

  lemma {:induction false} SameInputs(files: Files, orig: Files)
    requires SameLasting(files, orig)
    ensures forall p :: p in {AppInfo, StateFile, CloudFile} ==> Lookup(files, p) == Lookup(orig, p)
  {
  }

  lemma {:induction false} SameClient(files: Files, orig: Files)
    requires SameLasting(files, orig)
    ensures Lookup(files, Client) == Lookup(orig, Client)
  {
  }

  lemma {:induction false} BesideCloud(job: Job, files: Files, out: Outcome)
    requires Beside(job, files, out)
    ensures job.cloud ==> out.cloudState.Some? && Lookup(files, CloudTmp) == out.cloudState
  {
  }

  lemma {:induction false} SameLauncher(files: Files, orig: Files, name: string)
    requires SameLasting(files, orig)
    ensures Launcher(name) in files <==> Launcher(name) in orig
  {
    assert Lookup(files, Launcher(name)) == Lookup(orig, Launcher(name));
  }

  lemma {:induction false} SlotUntouched(now: Option<Bytes>, saved: Option<Bytes>, orig: Option<Bytes>)
    ensures SlotOk(now, saved, orig, false, false) ==> now == orig
  {
  }

  lemma {:induction false} AsideThere(files: Files, orig: Files, lines: seq<Line>, name: string)
    requires Aside(files, orig, lines) && LineFor(lines, name).None?
    ensures Launcher(name) in files <==> Launcher(name) in orig
  {
    hide LineFor;
    assert AsideOne(Lookup(files, Launcher(name)), Lookup(files, LauncherBackup(name)), Lookup(orig, Launcher(name)),
        LineFor(lines, name));
  }

  lemma {:induction false} ConfigBeside(before: Files, after: Files, config: Bytes, names: seq<string>)
    ensures after == before[ConfigTmp := config] ==>
              && Lookup(after, ConfigTmp) == Some(config)
              && (forall p :: p in {AppInfoTmp, AppInfoBackup, ClientTmp} ==> Lookup(after, p) == Lookup(before, p))
              && (forall i :: 0 <= i < |names| ==>
                    Lookup(after, LauncherTmp(names[i])) == Lookup(before, LauncherTmp(names[i])))
  {
  }

  lemma {:induction false} SameSelf(files: Files)
    ensures SameLasting(files, files)
  {
  }

  lemma {:induction false} StillStaged(before: Files, after: Files)
    requires Lookup(after, ClientTmp) == Lookup(before, ClientTmp)
    ensures ClientTmp in after <==> ClientTmp in before
  {
  }

  lemma {:induction false} WriteTemporary(files: Files, orig: Files, p: Place, contents: Bytes)
    requires SameLasting(files, orig) && (Temporary(p) || p.AppInfoBackup?)
    ensures SameLasting(files[p := contents], orig)
  {
  }

  lemma {:induction false} OthersNamed(plan: seq<Line>, i: nat)
    requires i < |plan| && Distinct(Names(plan))
    ensures LineFor(plan, Names(plan)[i]).Some?
    ensures forall j :: 0 <= j < |plan| && j != i ==> Names(plan)[j] != Names(plan)[i]
  {
    LineForAt(plan, i);
  }

  lemma {:induction false} PlacedOne(before: Files, after: Files, orig: Files, lines: seq<Line>, name: string)
    requires LaunchersHold(before, orig, lines, true) && LineFor(lines, name).Some?
    requires forall p :: p != LauncherTmp(name) && p != Launcher(name) ==> Lookup(after, p) == Lookup(before, p)
    ensures LaunchersHold(after, orig, lines, true)
  {
  }

  // The first `count` launchers are in place, the others still wait.
  ghost predicate Placed(job: Job, before: Files, after: Files, names: seq<string>, count: nat) {
    && count <= |names|
    && (forall i :: count <= i < |names| ==> Lookup(after, LauncherTmp(names[i])) == Some(job.launcher(names[i])))
    && (forall i :: 0 <= i < count ==> Lookup(after, Launcher(names[i])) == Some(job.launcher(names[i])))
    && (forall n :: n !in names ==> Lookup(after, Launcher(n)) == Lookup(before, Launcher(n)))
    && (forall p: Place :: !p.Launcher? && !p.LauncherTmp? ==> Lookup(after, p) == Lookup(before, p))
  }

  lemma {:induction false} PlacedNone(job: Job, files: Files, names: seq<string>)
    requires forall i :: 0 <= i < |names| ==> Lookup(files, LauncherTmp(names[i])) == Some(job.launcher(names[i]))
    ensures Placed(job, files, files, names, 0)
  {
  }

  lemma {:induction false} PlacedWaiting(job: Job, before: Files, after: Files, names: seq<string>, i: nat)
    requires Placed(job, before, after, names, i) && i < |names|
    ensures LauncherTmp(names[i]) in after && Lookup(after, LauncherTmp(names[i])) == Some(job.launcher(names[i]))
  {
    assert Lookup(after, LauncherTmp(names[i])).Some?;
  }

  lemma {:induction false} PlacedStep(job: Job, before: Files, now: Files, after: Files, names: seq<string>, i: nat)
    requires Placed(job, before, now, names, i) && i < |names|
    requires forall j :: 0 <= j < |names| && j != i ==> names[j] != names[i]
    requires Lookup(after, Launcher(names[i])) == Lookup(now, LauncherTmp(names[i]))
    requires forall p :: p != LauncherTmp(names[i]) && p != Launcher(names[i]) ==> Lookup(after, p) == Lookup(now, p)
    ensures Placed(job, before, after, names, i + 1)
  {
  }

  lemma {:induction false} PlacedFrame(job: Job, before: Files, after: Files, names: seq<string>, count: nat)
    requires Placed(job, before, after, names, count)
    ensures forall i :: 0 <= i < count ==> Lookup(after, Launcher(names[i])) == Some(job.launcher(names[i]))
    ensures forall n :: n !in names ==> Lookup(after, Launcher(n)) == Lookup(before, Launcher(n))
    ensures forall p: Place :: !p.Launcher? && !p.LauncherTmp? ==> Lookup(after, p) == Lookup(before, p)
  {
    hide Lookup;
  }

  // The commit plan names a prefix of the planned launchers.
  lemma {:induction false} NewName(plan: seq<Line>, lines: seq<Line>, i: nat)
    requires i < |plan| && Distinct(Names(plan)) && |lines| == i && Names(lines) == Names(plan)[..i]
    ensures LineFor(lines, plan[i].name).None?
  {
    forall j | 0 <= j < i ensures lines[j].name != plan[i].name {
      assert Names(lines)[j] == Names(plan)[j] && Names(plan)[j] != Names(plan)[i];
    }
    LineForNone(lines, plan[i].name);
  }

  lemma {:induction false} PrefixNames(plan: seq<Line>, lines: seq<Line>, i: nat, line: Line)
    requires i < |plan| && |lines| == i && Names(lines) == Names(plan)[..i] && line.name == plan[i].name
    ensures Names(lines + [line]) == Names(plan)[..i + 1]
  {
  }

  lemma {:induction false} PrefixDistinct(plan: seq<Line>, lines: seq<Line>, i: nat)
    requires i <= |plan| && Distinct(Names(plan)) && Names(lines) == Names(plan)[..i]
    ensures Distinct(Names(lines))
  {
  }

  class Transaction {
    var files: Files
    var plan: Option<seq<Line>>
    var commitPlan: Option<seq<Line>>
    var commitPlanNamed: bool
    var configBackup: bool
    var stateBackup: bool
    var cloudBackup: bool
    var appinfoInstalled: bool
    var cloudApplied: bool
    var configInstalled: bool
    var stateInstalled: bool
    var cloudInstalled: bool
    var launchersCommitted: bool
    var links: Links
    ghost var failedAt: Option<Step>
    ghost const origin: Files
    ghost const linked: Links
    const job: Job
    const fails: Step -> bool

    constructor (files: Files, links: Links, job: Job, fails: Step -> bool)
      ensures this.files == files && this.links == links && this.job == job && this.fails == fails
      ensures Begun() == Start(job, files, links, fails)
      ensures Idle() && plan.None? && !cloudApplied
    {
      this.files := files;
      this.links := links;
      this.origin := files;
      this.linked := links;
      this.job := job;
      this.fails := fails;
      plan, commitPlan, commitPlanNamed := None, None, false;
      configBackup, stateBackup, cloudBackup := false, false, false;
      appinfoInstalled, cloudApplied, configInstalled := false, false, false;
      stateInstalled, cloudInstalled, launchersCommitted := false, false, false;
      failedAt := None;
    }

    // The plan a rollback reads.
    ghost function Active(): seq<Line>
      reads this
    {
      if commitPlanNamed && commitPlan.Some? then commitPlan.value else if plan.Some? then plan.value else []
    }

    function Flags(): Slots
      reads this
    {
      Slots(configInstalled, configBackup, stateInstalled, stateBackup, cloudInstalled, cloudBackup)
    }

    // A rollback now would give back `origin`.
    ghost predicate Recoverable()
      reads this
    {
      Restorable(files, origin, appinfoInstalled, Flags(), Active(), launchersCommitted)
    }

    // Nothing was swapped in or set aside yet.
    ghost predicate Idle()
      reads this`plan, this`commitPlan, this`commitPlanNamed, this`configBackup, this`stateBackup, this`cloudBackup
      reads this`appinfoInstalled, this`configInstalled, this`stateInstalled, this`cloudInstalled,
          this`launchersCommitted
    {
      && !appinfoInstalled && !configInstalled && !stateInstalled && !cloudInstalled && !launchersCommitted
      && !configBackup && !stateBackup && !cloudBackup && !commitPlanNamed && commitPlan.None?
      && (plan.Some? ==> forall i :: 0 <= i < |plan.value| ==> !plan.value[i].backup)
    }

    // --- Commands -----------------------------------------------------------

    // What the script started from.
    ghost function Begun(): Start {
      Start(job, origin, linked, fails)
    }

    // These steps were run up to the first that stops the script, if any.
    ghost predicate Tried(steps: seq<Step>, ok: bool)
      reads this`failedAt
    {
      FirstStop(Begun(), steps) == (if ok then None else failedAt) && (!ok ==> failedAt.Some?)
    }

    // The script stops in this phase.
    ghost predicate FailedIn(phase: Phase)
      reads this`failedAt
    {
      failedAt.Some? && PhaseOf(failedAt.value) == phase
    }

    // Any command may fail, and then does nothing.
    method Command(c: Step) returns (ok: bool)
      requires Stops(Begun(), c) == fails(c)
      modifies this`failedAt
      ensures Tried([c], ok)
    {
      hide Stops, FirstStop;
      FirstStopOne(Begun(), c);
      ok := !fails(c);
      if !ok {
        failedAt := Some(c);
      }
    }

    method Write(p: Place, contents: Bytes, c: Step) returns (ok: bool)
      requires Stops(Begun(), c) == fails(c)
      modifies this`failedAt, this`files
      ensures Tried([c], ok)
      ensures files == if ok then old(files)[p := contents] else old(files)
    {
      hide Stops, FirstStop;
      ok := Command(c);
      if ok {
        files := files[p := contents];
      }
    }

    method Move(from: Place, to: Place, c: Step) returns (ok: bool)
      requires from in files && from != to && Stops(Begun(), c) == fails(c)
      modifies this`failedAt, this`files
      ensures Tried([c], ok)
      ensures files == if ok then (old(files) - {from})[to := old(files)[from]] else old(files)
    {
      hide Stops, FirstStop;
      ok := Command(c);
      if ok {
        files := (files - {from})[to := files[from]];
      }
    }

    method Remove(p: Place)
      modifies this`files
      ensures files == old(files) - {p}
    {
      files := files - {p};
    }

    // --- Preparing ----------------------------------------------------------

    // A command that writes one temporary file.
    method WriteBeside(p: Place, contents: Option<Bytes>, c: Step) returns (ok: bool)
      requires SameLasting(files, origin) && (Temporary(p) || p.AppInfoBackup?)
      requires Stops(Begun(), c) <==> fails(c) || contents.None?
      modifies this`failedAt, this`files
      ensures SameLasting(files, origin) && Tried([c], ok)
      ensures ok ==> contents.Some? && files == old(files)[p := contents.value]
      ensures !ok ==> files == old(files)
    {
      hide SameLasting, Stops, FirstStop;
      FirstStopOne(Begun(), c);
      ok := !fails(c) && contents.Some?;
      if ok {
        WriteTemporary(files, origin, p, contents.value);
        files := files[p := contents.value];
      } else {
        failedAt := Some(c);
      }
    }

    // Take an existing launch mapping out of the copy.
    method RestoreLaunches() returns (ok: bool)
      requires SameLasting(files, origin) && AppInfo in origin && Lookup(files, AppInfoTmp) == Lookup(origin, AppInfo)
      requires forall p :: p in {StateFile, CloudFile} ==> Lookup(files, p) == Lookup(origin, p)
      modifies this`failedAt, this`files
      ensures SameLasting(files, origin) && Tried(LaunchStep(origin), ok)
      ensures ok ==> WithoutLaunches(job, origin).Some? && Lookup(files, AppInfoTmp) == WithoutLaunches(job, origin)
      ensures forall p :: p != AppInfoTmp ==> Lookup(files, p) == Lookup(old(files), p)
    {
      hide SameLasting, FirstStop;
      assert Lookup(files, StateFile) == Lookup(origin, StateFile);
      NoStop(Begun());
      ok := true;
      if StateFile in files {
        ok := WriteBeside(AppInfoTmp, job.restore(files[AppInfoTmp], files[StateFile]), RestoreLaunch);
      }
    }

    // Take an existing Cloud mapping out of it.
    method RestoreOverrides() returns (ok: bool)
      requires SameLasting(files, origin) && AppInfo in origin && links == linked
      requires WithoutLaunches(job, origin).Some? && Lookup(files, AppInfoTmp) == WithoutLaunches(job, origin)
      requires Lookup(files, CloudFile) == Lookup(origin, CloudFile)
      modifies this`failedAt, this`files, this`links
      ensures SameLasting(files, origin) && Tried(OverridesStep(job, origin), ok)
      ensures if ok then Copied(Begun()).Some? && Lookup(files, AppInfoTmp) == Some(Copied(Begun()).value.0)
                         && links == Copied(Begun()).value.1
              else links == linked
      ensures forall p :: p != AppInfoTmp ==> Lookup(files, p) == Lookup(old(files), p)
    {
      hide SameLasting, FirstStop, WithoutLaunches;
      NoStop(Begun());
      ok := true;
      if job.cloud && CloudFile in files {
        var restored := job.cloudRestore(files[AppInfoTmp], files[CloudFile], links);
        ok := WriteBeside(AppInfoTmp, if restored.Some? then Some(restored.value.0) else None, RestoreCloud);
        if ok {
          links := restored.value.1;
        }
      }
    }

    method RestoreCopy() returns (ok: bool)
      requires SameLasting(files, origin) && AppInfo in origin && links == linked
      requires Lookup(files, AppInfoTmp) == Lookup(origin, AppInfo)
      requires forall p :: p in {StateFile, CloudFile} ==> Lookup(files, p) == Lookup(origin, p)
      modifies this`failedAt, this`files, this`links
      ensures SameLasting(files, origin) && Tried(RestoreSteps(job, origin), ok)
      ensures if ok then Copied(Begun()).Some? && Lookup(files, AppInfoTmp) == Some(Copied(Begun()).value.0)
                         && links == Copied(Begun()).value.1
              else links == linked
      ensures forall p :: p != AppInfoTmp ==> Lookup(files, p) == Lookup(old(files), p)
    {
      hide SameLasting, FirstStop, WithoutLaunches, Copied, LaunchStep, OverridesStep;
      assert Lookup(files, CloudFile) == Lookup(origin, CloudFile);
      FirstStopThen(Begun(), LaunchStep(origin), OverridesStep(job, origin));
      ok := RestoreLaunches();
      if ok {
        ok := RestoreOverrides();
      }
    }

    // Back the image up and copy it.
    method BackUp() returns (ok: bool)
      requires SameLasting(files, origin) && AppInfo in files
      modifies this`failedAt, this`files
      ensures SameLasting(files, origin) && Tried([BackupImage] + ([ProtectBackup] + [Step.CopyImage]), ok)
      ensures ok ==> files == old(files)[AppInfoBackup := old(files)[AppInfo]][AppInfoTmp := old(files)[AppInfo]]
      ensures forall p :: p !in {AppInfoTmp, AppInfoBackup} ==> Lookup(files, p) == Lookup(old(files), p)
    {
      hide SameLasting, FirstStop;
      FirstStopThen(Begun(), [BackupImage], [ProtectBackup] + [Step.CopyImage]);
      FirstStopThen(Begun(), [ProtectBackup], [Step.CopyImage]);
      var image := files[AppInfo];
      ok := WriteBeside(AppInfoBackup, Some(image), BackupImage);
      if !ok { return; }
      ok := Command(ProtectBackup);
      if !ok { return; }
      ok := WriteBeside(AppInfoTmp, Some(image), Step.CopyImage);
    }

    // Back the image up, copy it, and clear the copy.
    method CopyImage() returns (ok: bool)
      requires SameLasting(files, origin) && AppInfo in origin && links == linked
      requires forall p :: p in {AppInfo, StateFile, CloudFile} ==> Lookup(files, p) == Lookup(origin, p)
      modifies this`failedAt, this`files, this`links
      ensures SameLasting(files, origin) && Tried(CopySteps(job, origin), ok)
      ensures ok ==> Lookup(files, AppInfoBackup) == Lookup(origin, AppInfo)
      ensures if ok then Copied(Begun()).Some? && Lookup(files, AppInfoTmp) == Some(Copied(Begun()).value.0)
                         && links == Copied(Begun()).value.1
              else links == linked
      ensures forall p :: p !in {AppInfoTmp, AppInfoBackup} ==> Lookup(files, p) == Lookup(old(files), p)
    {
      hide SameLasting, Copied, FirstStop, RestoreSteps;
      assert Lookup(files, AppInfo) == Lookup(origin, AppInfo);
      FirstStopThen(Begun(), [BackupImage] + ([ProtectBackup] + [Step.CopyImage]), RestoreSteps(job, origin));
      ghost var before := files;
      ok := BackUp();
      if !ok { return; }
      assert Lookup(files, StateFile) == Lookup(before, StateFile) == Lookup(origin, StateFile);
      assert Lookup(files, CloudFile) == Lookup(before, CloudFile) == Lookup(origin, CloudFile);
      ghost var copied := files;
      ok := RestoreCopy();
      assert Lookup(files, AppInfoBackup) == Lookup(copied, AppInfoBackup);
    }

    // One launcher beside its place, and its line of the plan.
    method MakeLauncher(n: string) returns (ok: bool)
      requires SameLasting(files, origin) && Idle() && plan.Some?
      modifies this`failedAt, this`files, this`plan
      ensures SameLasting(files, origin) && Idle() && plan.Some?
      ensures Tried(MakeOneSteps(n), ok)
      ensures plan == if ok then Some(old(plan).value + [Line(n, false)]) else old(plan)
      ensures ok ==> Lookup(files, LauncherTmp(n)) == Some(job.launcher(n))
      ensures forall p :: p != LauncherTmp(n) ==> Lookup(files, p) == Lookup(old(files), p)
    {
      hide SameLasting, FirstStop;
      SameLauncher(files, origin, n);
      FirstStopThen(Begun(), [CheckLauncher(n)], [WriteLauncher(n)] + ([ProtectLauncher(n)] + [PlanLauncher(n)]));
      FirstStopThen(Begun(), [WriteLauncher(n)], [ProtectLauncher(n)] + [PlanLauncher(n)]);
      FirstStopOne(Begun(), CheckLauncher(n));
      if Launcher(n) in files && !job.force {
        failedAt := Some(CheckLauncher(n));
        return false;
      }
      ok := WriteBeside(LauncherTmp(n), Some(job.launcher(n)), WriteLauncher(n));
      if ok {
        ok := PlanMove(n);
      }
    }

    // The mode of a new launcher, and its line of the plan.
    method PlanMove(n: string) returns (ok: bool)
      requires Idle() && plan.Some?
      modifies this`failedAt, this`plan
      ensures Idle() && plan == if ok then Some(old(plan).value + [Line(n, false)]) else old(plan)
      ensures Tried([ProtectLauncher(n)] + [PlanLauncher(n)], ok)
    {
      hide FirstStop;
      FirstStopThen(Begun(), [ProtectLauncher(n)], [PlanLauncher(n)]);
      ok := Command(ProtectLauncher(n));
      if !ok { return; }
      ok := Command(PlanLauncher(n));
      if !ok { return; }
      plan := Some(plan.value + [Line(n, false)]);
    }

    // Write every launcher beside its place and plan its move.
    method MakeLaunchers(names: seq<string>) returns (ok: bool)
      requires SameLasting(files, origin) && Idle() && plan == Some([]) && Distinct(names)
      modifies this`failedAt, this`files, this`plan
      ensures SameLasting(files, origin) && Idle() && plan.Some? && Distinct(Names(plan.value))
      ensures Tried(MakeSteps(names, 0), ok)
      ensures ok ==> Names(plan.value) == names
      ensures ok ==> forall i :: 0 <= i < |names| ==>
                Lookup(files, LauncherTmp(names[i])) == Some(job.launcher(names[i]))
      ensures forall p: Place :: !p.LauncherTmp? ==> Lookup(files, p) == Lookup(old(files), p)
    {
      hide SameLasting, FirstStop, MakeOneSteps;
      var i := 0;
      while i < |names|
        invariant 0 <= i <= |names|
        invariant SameLasting(files, origin) && Idle() && plan.Some? && Names(plan.value) == names[..i]
        invariant FirstStop(Begun(), MakeSteps(names, 0)) == FirstStop(Begun(), MakeSteps(names, i))
        invariant forall j :: 0 <= j < i ==> Lookup(files, LauncherTmp(names[j])) == Some(job.launcher(names[j]))
        invariant forall p: Place :: !p.LauncherTmp? ==> Lookup(files, p) == Lookup(old(files), p)
      {
        FirstStopThen(Begun(), MakeOneSteps(names[i]), MakeSteps(names, i + 1));
        ok := MakeLauncher(names[i]);
        if !ok { return; }
        assert names[..i + 1] == names[..i] + [names[i]];
        i := i + 1;
      }
      NoStop(Begun());
      ok := true;
    }

    // The launch edits of the copy, and the state that records them.
    method PatchCopy() returns (ok: bool)
      requires SameLasting(files, origin) && AppInfoTmp in files
      requires Copied(Begun()).Some? && Copied(Begun()).value.0 == files[AppInfoTmp]
      modifies this`failedAt, this`files
      ensures SameLasting(files, origin) && Tried([PatchImage] + [WriteState], ok)
      ensures ok ==>
                && job.patch(old(files)[AppInfoTmp]).Some?
                && (var (image, state) := job.patch(old(files)[AppInfoTmp]).value;
                    files == old(files)[AppInfoTmp := image][StateTmp := state])
      ensures forall p :: p !in {AppInfoTmp, StateTmp} ==> Lookup(files, p) == Lookup(old(files), p)
    {
      hide SameLasting, FirstStop, Copied;
      FirstStopThen(Begun(), [PatchImage], [WriteState]);
      var patched := job.patch(files[AppInfoTmp]);
      ok := WriteBeside(AppInfoTmp, if patched.Some? then Some(patched.value.0) else None, PatchImage);
      if !ok { return; }
      ok := WriteBeside(StateTmp, Some(patched.value.1), WriteState);
    }

    // The edits of the copy, with the state files they record.
    method EditImage() returns (ok: bool)
      requires SameLasting(files, origin) && AppInfoTmp in files && !cloudApplied
      requires Copied(Begun()) == Some((files[AppInfoTmp], links))
      modifies this`failedAt, this`files, this`links, this`cloudApplied
      ensures SameLasting(files, origin) && Tried(EditSteps(job), ok)
      ensures ok ==>
                && EditedImage(job, old(files)[AppInfoTmp], old(links)).Some?
                && (var (image, state, cloudState, links') :=
                      EditedImage(job, old(files)[AppInfoTmp], old(links)).value;
                    && Lookup(files, AppInfoTmp) == Some(image)
                    && Lookup(files, StateTmp) == Some(state)
                    && links == links' && cloudApplied == job.cloud
                    && (job.cloud ==> cloudState.Some? && Lookup(files, CloudTmp) == cloudState))
      ensures !ok ==> links == old(links) && !cloudApplied
      ensures forall p :: p !in {AppInfoTmp, StateTmp, CloudTmp} ==> Lookup(files, p) == Lookup(old(files), p)
    {
      hide SameLasting, FirstStop, Copied;
      FirstStopThen(Begun(), [PatchImage] + [WriteState], if job.cloud then [InstallCloud] else []);
      NoStop(Begun());
      ok := PatchCopy();
      if ok && job.cloud {
        ok := EditCloud();
      }
    }

    // The Cloud part of the edits: image, state and links in one command.
    method EditCloud() returns (ok: bool)
      requires SameLasting(files, origin) && AppInfoTmp in files && !cloudApplied && job.cloud
      requires Stops(Begun(), InstallCloud) <==>
                 fails(InstallCloud) || job.cloudInstall(files[AppInfoTmp], links).None?
      modifies this`failedAt, this`files, this`links, this`cloudApplied
      ensures SameLasting(files, origin) && Tried([InstallCloud], ok)
      ensures if ok then
                && job.cloudInstall(old(files)[AppInfoTmp], old(links)).Some?
                && (var (image, state, links') := job.cloudInstall(old(files)[AppInfoTmp], old(links)).value;
                    && files == old(files)[AppInfoTmp := image][CloudTmp := state]
                    && links == links' && cloudApplied)
              else files == old(files) && links == old(links) && !cloudApplied
    {
      hide SameLasting, FirstStop, Stops;
      var clouded := job.cloudInstall(files[AppInfoTmp], links);
      ok := WriteBeside(AppInfoTmp, if clouded.Some? then Some(clouded.value.0) else None, InstallCloud);
      if !ok { return; }
      WriteTemporary(files, origin, CloudTmp, clouded.value.1);
      files := files[CloudTmp := clouded.value.1];
      links := clouded.value.2;
      cloudApplied := true;
    }

    // Everything the commit needs, in temporary files.
    ghost predicate Prepared()
      reads this`files, this`links, this`cloudApplied, this`plan
    {
      && AppInfo in origin && Planned(job, origin, linked).Some? && plan.Some?
      && (var out := Planned(job, origin, linked).value;
          && Names(plan.value) == out.names && Distinct(out.names) && out.names != []
          && Lookup(files, AppInfoBackup) == Lookup(origin, AppInfo)
          && Lookup(files, AppInfoTmp) == Some(out.appinfo)
          && links == out.links && cloudApplied == job.cloud
          && Beside(job, files, out))
    }

    // Where the preparation stopped, and the links it leaves.
    ghost predicate Unprepared()
      reads this`links, this`cloudApplied, this`failedAt
      requires AppInfo in origin
    {
      && (FailedIn(Copying) || FailedIn(Preparing)) && links == LinksLeft(job, origin, linked, failedAt.value)
      && !cloudApplied && FirstFailure(Begun()) == failedAt
    }

    // Nothing before the commit stops the script.
    ghost predicate Reaches() {
      && FirstStop(Begun(), CopySteps(job, origin)).None?
      && FirstStop(Begun(), PrepareSteps(job, EntryNames(Begun()))).None?
    }

    method Prepare() returns (ok: bool)
      requires SameLasting(files, origin) && AppInfo in origin && Idle()
      requires plan.None? && !cloudApplied && links == linked
      requires forall image :: Distinct(job.names(image))
      modifies this`failedAt, this`files, this`links, this`plan, this`cloudApplied
      ensures SameLasting(files, origin) && Idle() && (plan.Some? ==> Distinct(Names(plan.value)))
      ensures if ok then Prepared() && Reaches() else Unprepared()
      ensures Lookup(files, ClientTmp) == Lookup(old(files), ClientTmp)
    {
      hide Distinct, SameLasting, Copied, FirstStop, CopySteps, PrepareSteps, LinksLeft, FirstFailure;
      SameInputs(files, origin);
      ok := CopyImage();
      ghost var copied := files;
      assert Lookup(copied, ClientTmp) == Lookup(old(files), ClientTmp);
      if !ok {
        StoppedCopying(Begun());
        return;
      }
      plan := Some([]);
      NamesNone();
      ok := PrepareCopy();
      if !ok {
        StoppedPreparing(Begun());
      }
    }

    // The entries to make launchers for.
    method ListLaunchers(names: seq<string>) returns (ok: bool)
      requires SameLasting(files, origin) && names == EntryNames(Begun())
      modifies this`failedAt, this`files
      ensures SameLasting(files, origin) && Tried([ListEntries] + [CheckEntries], ok) && (ok ==> names != [])
      ensures forall p :: p != Specs ==> Lookup(files, p) == Lookup(old(files), p)
    {
      hide SameLasting, FirstStop, EntryNames;
      FirstStopThen(Begun(), [ListEntries], [CheckEntries]);
      FirstStopOne(Begun(), CheckEntries);
      ok := WriteBeside(Specs, Some([]), ListEntries);
      if ok && names == [] {
        failedAt := Some(CheckEntries);
        return false;
      }
    }

    // The launchers and the config, beside their places.
    method PrepareLaunchers(names: seq<string>) returns (ok: bool)
      requires SameLasting(files, origin) && Idle() && plan == Some([])
      requires Distinct(names) && names == EntryNames(Begun())
      modifies this`failedAt, this`files, this`plan
      ensures SameLasting(files, origin) && Idle() && plan.Some? && Distinct(Names(plan.value))
      ensures Tried(LauncherSteps(names), ok)
      ensures ok ==> names != [] && Names(plan.value) == names && Lookup(files, ConfigTmp) == Some(job.config)
      ensures ok ==> forall i :: 0 <= i < |names| ==>
                Lookup(files, LauncherTmp(names[i])) == Some(job.launcher(names[i]))
      ensures forall p :: p in {AppInfoTmp, AppInfoBackup, ClientTmp} ==> Lookup(files, p) == Lookup(old(files), p)
    {
      hide Distinct, SameLasting, FirstStop, MakeSteps, EntryNames, Lookup;
      NamesNone();
      FirstStopThen(Begun(), [ListEntries] + [CheckEntries], MakeSteps(names, 0) + [WriteConfig]);
      FirstStopThen(Begun(), MakeSteps(names, 0), [WriteConfig]);
      ok := ListLaunchers(names);
      if !ok { return; }
      ghost var listed := files;
      ok := MakeLaunchers(names);
      ghost var made := files;
      assert forall p :: p in {AppInfoTmp, AppInfoBackup, ClientTmp} ==> Lookup(made, p) == Lookup(listed, p);
      if !ok { return; }
      ok := WriteBeside(ConfigTmp, Some(job.config), WriteConfig);
      ConfigBeside(made, files, job.config, names);
    }

    method PrepareCopy() returns (ok: bool)
      requires SameLasting(files, origin) && AppInfo in origin && Idle() && plan == Some([]) && !cloudApplied
      requires AppInfoTmp in files && Copied(Begun()) == Some((files[AppInfoTmp], links))
      requires Lookup(files, AppInfoBackup) == Lookup(origin, AppInfo)
      requires Distinct(job.names(files[AppInfoTmp]))
      modifies this`failedAt, this`files, this`links, this`plan, this`cloudApplied
      ensures SameLasting(files, origin) && Idle() && plan.Some? && Distinct(Names(plan.value))
      ensures Tried(PrepareSteps(job, EntryNames(Begun())), ok)
      ensures if ok then Prepared() else links == old(links) && !cloudApplied
      ensures Lookup(files, ClientTmp) == Lookup(old(files), ClientTmp)
    {
      hide Distinct, SameLasting, EditedImage, Copied, FirstStop, LauncherSteps, EditSteps;
      var names := job.names(files[AppInfoTmp]);
      FirstStopThen(Begun(), [StartPlan], LauncherSteps(names) + EditSteps(job));
      FirstStopThen(Begun(), LauncherSteps(names), EditSteps(job));
      NamesNone();
      ok := Command(StartPlan);
      if !ok { return; }
      ghost var image := files[AppInfoTmp];
      ok := PrepareLaunchers(names);
      ghost var before := files;
      assert Lookup(before, ClientTmp) == Lookup(old(files), ClientTmp);
      assert Lookup(before, AppInfoTmp) == Some(image)
          && Lookup(before, AppInfoBackup) == Lookup(old(files), AppInfoBackup);
      if !ok { return; }
      ok := EditImage();
      StillBeside(before, files, names);
      if ok {
        PlannedAs(Begun(), image, old(links));
      }
    }

    // What the edits leave alone.
    lemma {:induction false} StillBeside(before: Files, after: Files, names: seq<string>)
      requires forall p :: p !in {AppInfoTmp, StateTmp, CloudTmp} ==> Lookup(after, p) == Lookup(before, p)
      ensures forall p :: p in {ClientTmp, AppInfoBackup, ConfigTmp} ==> Lookup(after, p) == Lookup(before, p)
      ensures forall i :: 0 <= i < |names| ==>
                Lookup(after, LauncherTmp(names[i])) == Lookup(before, LauncherTmp(names[i]))
    {
      hide Lookup;
    }

    // --- Committing ---------------------------------------------------------

    lemma {:induction false} IdleRecoverable()
      requires SameLasting(files, origin) && Idle() && AppInfo in origin && forall p :: Backup(p) ==> p !in origin
      requires plan.Some? ==> Distinct(Names(plan.value))
      ensures Recoverable()
    {
    }

    // The edited copy becomes the image.
    method SwapImage() returns (ok: bool)
      requires Recoverable() && !appinfoInstalled && AppInfoTmp in files
                 && Lookup(files, AppInfoBackup) == Lookup(origin, AppInfo)
      modifies this`failedAt, this`files, this`appinfoInstalled
      ensures Recoverable() && appinfoInstalled == ok && Tried([Step.SwapImage], ok) && (!ok ==> files == old(files))
      ensures ok ==> Lookup(files, AppInfo) == Lookup(old(files), AppInfoTmp)
      ensures forall p :: p !in {AppInfo, AppInfoTmp} ==> Lookup(files, p) == Lookup(old(files), p)
    {
      hide SlotsHold, LaunchersHold, Distinct, FirstStop;
      ok := Move(AppInfoTmp, AppInfo, Step.SwapImage);
      if ok {
        appinfoInstalled := true;
      }
      SameSlots(old(files), files, origin, Flags());
      SameLaunchers(old(files), files, origin, Active(), launchersCommitted);
    }

    // `mv` of an old generated file to its backup, which was named before.
    method SetAside(p: Place, backup: Place, ghost original: Option<Bytes>) returns (ok: bool)
      requires p in files && p != backup && SlotOk(Lookup(files, p), Lookup(files, backup), original, false, false)
      modifies this`failedAt, this`files
      ensures SlotOk(Lookup(files, p), Lookup(files, backup), original, false, true)
      ensures Tried([Step.SetAside(p)], ok) && (ok ==> Lookup(files, p).None?)
      ensures forall q :: q != p && q != backup ==> Lookup(files, q) == Lookup(old(files), q)
    {
      hide FirstStop;
      ok := Move(p, backup, Step.SetAside(p));
    }

    // The old generated files step aside.
    method SetAsideConfig() returns (ok: bool)
      requires SlotsHold(files, origin, Flags()) && !configInstalled && !configBackup
      modifies this`failedAt, this`files, this`configBackup
      ensures SlotsHold(files, origin, Flags())
      ensures Tried(AsideStep(Config, Config in origin), ok) && (ok ==> Lookup(files, Config).None?)
      ensures forall p :: p != Config && p != ConfigBackup ==> Lookup(files, p) == Lookup(old(files), p)
    {
      hide SlotOk, FirstStop, Lookup;
      InFiles(files, Config);
      InFiles(origin, Config);
      SlotUntouched(Lookup(files, Config), Lookup(files, ConfigBackup), Lookup(origin, Config));
      NoStop(Begun());
      if Config in files {
        configBackup := true;
        ok := SetAside(Config, ConfigBackup, Lookup(origin, Config));
      } else {
        ok := true;
      }
    }

    method SetAsideStateFile() returns (ok: bool)
      requires SlotsHold(files, origin, Flags()) && !stateInstalled && !stateBackup
      modifies this`failedAt, this`files, this`stateBackup
      ensures SlotsHold(files, origin, Flags())
      ensures Tried(AsideStep(StateFile, StateFile in origin), ok) && (ok ==> Lookup(files, StateFile).None?)
      ensures forall p :: p != StateFile && p != StateBackup ==> Lookup(files, p) == Lookup(old(files), p)
    {
      hide SlotOk, FirstStop, Lookup;
      InFiles(files, StateFile);
      InFiles(origin, StateFile);
      SlotUntouched(Lookup(files, StateFile), Lookup(files, StateBackup), Lookup(origin, StateFile));
      NoStop(Begun());
      if StateFile in files {
        stateBackup := true;
        ok := SetAside(StateFile, StateBackup, Lookup(origin, StateFile));
      } else {
        ok := true;
      }
    }

    method SetAsideCloudFile() returns (ok: bool)
      requires SlotsHold(files, origin, Flags()) && !cloudInstalled && !cloudBackup
      modifies this`failedAt, this`files, this`cloudBackup
      ensures SlotsHold(files, origin, Flags())
      ensures Tried(AsideStep(CloudFile, job.cloud && CloudFile in origin), ok)
      ensures ok && job.cloud ==> Lookup(files, CloudFile).None?
      ensures !job.cloud ==> files == old(files)
      ensures forall p :: p != CloudFile && p != CloudBackup ==> Lookup(files, p) == Lookup(old(files), p)
    {
      hide SlotOk, FirstStop, Lookup;
      InFiles(files, CloudFile);
      InFiles(origin, CloudFile);
      SlotUntouched(Lookup(files, CloudFile), Lookup(files, CloudBackup), Lookup(origin, CloudFile));
      NoStop(Begun());
      if job.cloud && CloudFile in files {
        cloudBackup := true;
        ok := SetAside(CloudFile, CloudBackup, Lookup(origin, CloudFile));
      } else {
        ok := true;
      }
    }

    method SetAsideGenerated() returns (ok: bool)
      requires SlotsHold(files, origin, Flags()) && Flags() == Slots(false, false, false, false, false, false)
      modifies this`failedAt, this`files, this`configBackup, this`stateBackup, this`cloudBackup
      ensures SlotsHold(files, origin, Flags())
      ensures ok ==>
                Lookup(files, Config).None? && Lookup(files, StateFile).None?
                && (job.cloud ==> Lookup(files, CloudFile).None?)
      ensures Tried(GeneratedSteps(job, origin), ok)
      ensures !job.cloud ==> Lookup(files, CloudFile) == Lookup(old(files), CloudFile)
      ensures forall p :: p !in {Config, ConfigBackup, StateFile, StateBackup, CloudFile, CloudBackup} ==>
                Lookup(files, p) == Lookup(old(files), p)
    {
      hide SlotsHold, Lookup, FirstStop, AsideStep;
      ghost var config, state := AsideStep(Config, Config in origin), AsideStep(StateFile, StateFile in origin);
      ghost var cloud := AsideStep(CloudFile, job.cloud && CloudFile in origin);
      FirstStopThen(Begun(), config, state + cloud);
      FirstStopThen(Begun(), state, cloud);
      ok := SetAsideConfig();
      if !ok { return; }
      ok := SetAsideStateFile();
      if !ok { return; }
      ok := SetAsideCloudFile();
    }

    // One old launcher steps aside; its line of the commit plan is written
    // before the move.
    method SetAsideLauncher(n: string, ghost lines: seq<Line>) returns (ok: bool, ghost line: Line)
      requires commitPlanNamed && commitPlan == (if lines == [] then None else Some(lines)) && !launchersCommitted
      requires Aside(files, origin, lines) && LineFor(lines, n).None?
      modifies this`failedAt, this`files, this`commitPlan
      ensures line.name == n
      ensures Tried(AsideOneSteps(n, origin), ok)
      ensures ok ==> commitPlan == Some(lines + [line]) && Aside(files, origin, lines + [line])
      ensures !ok ==>
                || (commitPlan == old(commitPlan) && files == old(files))
                || (commitPlan == Some(lines + [line]) && LaunchersHold(files, origin, lines + [line], false))
      ensures forall p: Place :: !p.Launcher? && !p.LauncherBackup? ==> Lookup(files, p) == Lookup(old(files), p)
    {
      hide Aside, LaunchersHold, LineFor, FirstStop;
      AsideThere(files, origin, lines, n);
      FirstStopThen(Begun(), [LogLauncher(n)], if Launcher(n) in origin then [Step.SetAsideLauncher(n)] else []);
      NoStop(Begun());
      var present := Launcher(n) in files;
      line := Line(n, present);
      if present {
        AsidePresent(files, origin, lines, n);
      } else {
        AsideAbsent(files, origin, lines, n);
      }
      ok := Command(LogLauncher(n));
      if !ok { return; }
      commitPlan := Some((if commitPlan.Some? then commitPlan.value else []) + [Line(n, present)]);
      assert [] + [line] == [line];
      if present {
        ok := Move(Launcher(n), LauncherBackup(n), Step.SetAsideLauncher(n));
      }
    }

    // The old launchers step aside, and the commit plan then becomes the plan.
    method SetAsideLaunchers() returns (ok: bool)
      requires plan.Some? && plan.value != [] && Distinct(Names(plan.value))
      requires !commitPlanNamed && commitPlan.None? && !launchersCommitted
      requires Aside(files, origin, []) && LaunchersHold(files, origin, plan.value, false)
      modifies this`failedAt, this`files, this`plan, this`commitPlan, this`commitPlanNamed
      ensures Distinct(Names(Active())) && LaunchersHold(files, origin, Active(), false)
      ensures Tried(AsideSteps(Names(old(plan).value), 0, origin) + [CommitPlan], ok)
      ensures ok ==>
                plan.Some? && Names(plan.value) == Names(old(plan).value) && Active() == plan.value
                && Aside(files, origin, plan.value)
      ensures forall p: Place :: !p.Launcher? && !p.LauncherBackup? ==> Lookup(files, p) == Lookup(old(files), p)
    {
      hide Aside, LaunchersHold, LineFor, Distinct, Names, Lookup, FirstStop, AsideOneSteps;
      commitPlanNamed := true;
      ghost var lines: seq<Line> := [];
      ghost var planned := plan.value;
      ghost var names := Names(planned);
      FirstStopThen(Begun(), AsideSteps(names, 0, origin), [CommitPlan]);
      NamesNone();
      assert names[..0] == [];
      var i := 0;
      while i < |plan.value|
        invariant plan == Some(planned) && commitPlanNamed && 0 <= i <= |planned|
        invariant commitPlan == if lines == [] then None else Some(lines)
        invariant |lines| == i && Names(lines) == names[..i]
        invariant FirstStop(Begun(), AsideSteps(names, 0, origin)) == FirstStop(Begun(), AsideSteps(names, i, origin))
        invariant Aside(files, origin, lines)
        invariant LaunchersHold(files, origin, Active(), false) && Distinct(Names(Active()))
        invariant forall p: Place :: !p.Launcher? && !p.LauncherBackup? ==> Lookup(files, p) == Lookup(old(files), p)
      {
        NewName(planned, lines, i);
        NameAt(planned, i);
        FirstStopThen(Begun(), AsideOneSteps(names[i], origin), AsideSteps(names, i + 1, origin));
        ghost var before := files;
        ghost var line;
        ok, line := SetAsideLauncher(plan.value[i].name, lines);
        PrefixNames(planned, lines, i, line);
        PrefixDistinct(planned, lines + [line], i + 1);
        assert forall p: Place :: !p.Launcher? && !p.LauncherBackup? ==> Lookup(files, p) == Lookup(before, p);
        if !ok { return; }
        lines := lines + [line];
        AsideHolds(files, origin, lines, false);
        i := i + 1;
      }
      NoStop(Begun());
      ok := Command(CommitPlan);
      if !ok { return; }
      assert names[..i] == names;
      plan, commitPlan := commitPlan, None;
    }

    method MoveIn(from: Place, to: Place, c: Step) returns (ok: bool)
      requires from in files && from != to && Stops(Begun(), c) == fails(c)
      modifies this`failedAt, this`files
      ensures Tried([c], ok) && (!ok ==> files == old(files))
      ensures ok ==> Lookup(files, to) == Lookup(old(files), from) && from !in files
      ensures forall p :: p != from && p != to ==> Lookup(files, p) == Lookup(old(files), p)
    {
      hide Stops, FirstStop;
      ok := Move(from, to, c);
    }

    // The new generated files move in.
    method PlaceConfig() returns (ok: bool)
      requires Recoverable() && appinfoInstalled && !configInstalled && Config !in files && ConfigTmp in files
      modifies this`failedAt, this`files, this`configInstalled
      ensures Recoverable()
      ensures Tried([Step.PlaceConfig], ok) && (ok ==> Lookup(files, Config) == Lookup(old(files), ConfigTmp))
      ensures forall p :: p != Config && p != ConfigTmp ==> Lookup(files, p) == Lookup(old(files), p)
    {
      hide Restorable, Lookup, FirstStop;
      ghost var before := files;
      NotInFiles(files, Config);
      ok := MoveIn(ConfigTmp, Config, Step.PlaceConfig);
      if ok {
        PlacedConfig(before, files, origin, Flags(), Active(), launchersCommitted);
        configInstalled := true;
      }
    }

    method PlaceStateFile() returns (ok: bool)
      requires Recoverable() && appinfoInstalled && !stateInstalled && StateFile !in files && StateTmp in files
      modifies this`failedAt, this`files, this`stateInstalled
      ensures Recoverable()
      ensures Tried([PlaceState], ok) && (ok ==> Lookup(files, StateFile) == Lookup(old(files), StateTmp))
      ensures forall p :: p != StateFile && p != StateTmp ==> Lookup(files, p) == Lookup(old(files), p)
    {
      hide Restorable, Lookup, FirstStop;
      ghost var before := files;
      NotInFiles(files, StateFile);
      ok := MoveIn(StateTmp, StateFile, PlaceState);
      if ok {
        PlacedStateFile(before, files, origin, Flags(), Active(), launchersCommitted);
        stateInstalled := true;
      }
    }

    method PlaceCloudFile() returns (ok: bool)
      requires Recoverable() && appinfoInstalled && !cloudInstalled && CloudFile !in files && CloudTmp in files
      modifies this`failedAt, this`files, this`cloudInstalled
      ensures Recoverable()
      ensures Tried([PlaceCloudState], ok)
      ensures if ok then Lookup(files, CloudFile) == Lookup(old(files), CloudTmp) && CloudTmp !in files
              else files == old(files)
      ensures forall p :: p != CloudFile && p != CloudTmp ==> Lookup(files, p) == Lookup(old(files), p)
    {
      hide Restorable, Lookup, FirstStop;
      ghost var before := files;
      NotInFiles(files, CloudFile);
      ok := MoveIn(CloudTmp, CloudFile, PlaceCloudState);
      if ok {
        PlacedCloudFile(before, files, origin, Flags(), Active(), launchersCommitted);
        cloudInstalled := true;
      }
    }

    // The new launchers move in.
    method PlaceLaunchers() returns (ok: bool)
      requires plan.Some? && launchersCommitted && Distinct(Names(plan.value))
                 && LaunchersHold(files, origin, plan.value, true)
      requires forall i :: 0 <= i < |plan.value| ==>
                 Lookup(files, LauncherTmp(Names(plan.value)[i])) == Some(job.launcher(Names(plan.value)[i]))
      modifies this`failedAt, this`files
      ensures LaunchersHold(files, origin, plan.value, true) && Tried(MoveInSteps(Names(plan.value), 0), ok)
      ensures ok ==> forall i :: 0 <= i < |plan.value| ==>
                Lookup(files, Launcher(Names(plan.value)[i])) == Some(job.launcher(Names(plan.value)[i]))
      ensures forall n :: n !in Names(plan.value) ==> Lookup(files, Launcher(n)) == Lookup(old(files), Launcher(n))
      ensures forall p: Place :: !p.Launcher? && !p.LauncherTmp? ==> Lookup(files, p) == Lookup(old(files), p)
    {
      hide LaunchersHold, LineFor, Lookup, Names, Placed, FirstStop;
      var names := Names(plan.value);
      var i := 0;
      PlacedNone(job, files, names);
      while i < |names|
        invariant 0 <= i <= |names|
        invariant LaunchersHold(files, origin, plan.value, true) && Placed(job, old(files), files, names, i)
        invariant FirstStop(Begun(), MoveInSteps(names, 0)) == FirstStop(Begun(), MoveInSteps(names, i))
      {
        ghost var before := files;
        OthersNamed(plan.value, i);
        FirstStopThen(Begun(), [PlaceLauncher(names[i])], MoveInSteps(names, i + 1));
        PlacedWaiting(job, old(files), files, names, i);
        ok := MoveIn(LauncherTmp(names[i]), Launcher(names[i]), PlaceLauncher(names[i]));
        if !ok {
          PlacedFrame(job, old(files), files, names, i);
          return;
        }
        PlacedOne(before, files, origin, plan.value, names[i]);
        PlacedStep(job, old(files), before, files, names, i);
        i := i + 1;
      }
      PlacedFrame(job, old(files), files, names, i);
      NoStop(Begun());
      ok := true;
    }

    // The old files step aside.
    method SetAsideAll() returns (ok: bool)
      requires Recoverable() && Flags() == Slots(false, false, false, false, false, false) && appinfoInstalled
      requires plan.Some? && plan.value != [] && !commitPlanNamed && commitPlan.None? && !launchersCommitted
      requires Aside(files, origin, [])
      requires Lookup(files, CloudFile) == Lookup(origin, CloudFile)
      modifies this`failedAt, this`files, this`configBackup, this`stateBackup, this`cloudBackup
      modifies this`plan, this`commitPlan, this`commitPlanNamed
      ensures Recoverable()
      ensures ok ==>
                plan.Some? && Names(plan.value) == Names(old(plan).value) && Active() == plan.value
                && Aside(files, origin, plan.value)
      ensures Tried(SetAsideSteps(job, origin, Names(old(plan).value)), ok) && (ok ==> Free(job, files, origin))
      ensures forall p :: Temporary(p) || p.AppInfo? || p.Client? ==> Lookup(files, p) == Lookup(old(files), p)
    {
      hide SlotsHold, LaunchersHold, Distinct, Lookup, Aside, Temporary, FirstStop, GeneratedSteps,
        AsideSteps, Names;
      FirstStopThen(Begun(), GeneratedSteps(job, origin), AsideSteps(Names(plan.value), 0, origin) + [CommitPlan]);
      ghost var before := files;
      ok := SetAsideGenerated();
      GeneratedAside(before, files);
      SameLaunchers(before, files, origin, plan.value, false);
      if !ok { return; }
      SameAside(before, files, origin);
      ok := SetAsideKnown();
    }

    // The old launchers, once the old generated files are aside.
    method SetAsideKnown() returns (ok: bool)
      requires Recoverable() && appinfoInstalled
      requires plan.Some? && plan.value != [] && !commitPlanNamed && commitPlan.None? && !launchersCommitted
      requires Aside(files, origin, []) && Free(job, files, origin)
      modifies this`failedAt, this`files, this`plan, this`commitPlan, this`commitPlanNamed
      ensures Recoverable()
      ensures ok ==>
                plan.Some? && Names(plan.value) == Names(old(plan).value) && Active() == plan.value
                && Aside(files, origin, plan.value)
      ensures Tried(AsideSteps(Names(old(plan).value), 0, origin) + [CommitPlan], ok)
      ensures ok ==> Free(job, files, origin)
      ensures forall p: Place :: !p.Launcher? && !p.LauncherBackup? ==> Lookup(files, p) == Lookup(old(files), p)
    {
      hide SlotsHold, LaunchersHold, Distinct, Lookup, Aside, FirstStop, AsideSteps, Names;
      ghost var before := files;
      ok := SetAsideLaunchers();
      SameSlots(before, files, origin, Flags());
    }

    // The new config moves in; then the launchers count as committed, and move
    // in.
    method PlaceConfigAndLaunchers() returns (ok: bool)
      requires Recoverable() && appinfoInstalled && !configInstalled && !launchersCommitted
      requires plan.Some? && Active() == plan.value && Aside(files, origin, plan.value)
      requires Config !in files && ConfigTmp in files
      requires forall i :: 0 <= i < |plan.value| ==>
                 Lookup(files, LauncherTmp(Names(plan.value)[i])) == Some(job.launcher(Names(plan.value)[i]))
      modifies this`failedAt, this`files, this`configInstalled, this`launchersCommitted
      ensures Recoverable()
      ensures Tried([Step.PlaceConfig] + MoveInSteps(Names(plan.value), 0), ok)
      ensures ok ==> Lookup(files, Config) == Lookup(old(files), ConfigTmp)
      ensures ok ==> forall i :: 0 <= i < |plan.value| ==>
                Lookup(files, Launcher(Names(plan.value)[i])) == Some(job.launcher(Names(plan.value)[i]))
      ensures forall n :: n !in Names(plan.value) ==> Lookup(files, Launcher(n)) == Lookup(old(files), Launcher(n))
      ensures forall p: Place :: !p.Config? && !p.ConfigTmp? && !p.Launcher? && !p.LauncherTmp? ==>
                Lookup(files, p) == Lookup(old(files), p)
    {
      hide SlotsHold, LaunchersHold, Distinct, Lookup, Aside, Names, FirstStop, MoveInSteps;
      FirstStopThen(Begun(), [Step.PlaceConfig], MoveInSteps(Names(plan.value), 0));
      ghost var before := files;
      AsideHolds(files, origin, plan.value, true);
      ok := PlaceConfig();
      if !ok { return; }
      SameLaunchers(before, files, origin, plan.value, true);
      launchersCommitted := true;
      ok := CommitLaunchers();
    }

    // A rollback now removes the planned launchers before it brings back the
    // old ones.
    method CommitLaunchers() returns (ok: bool)
      requires Recoverable() && appinfoInstalled && launchersCommitted && plan.Some? && Active() == plan.value
      requires forall i :: 0 <= i < |plan.value| ==>
                 Lookup(files, LauncherTmp(Names(plan.value)[i])) == Some(job.launcher(Names(plan.value)[i]))
      modifies this`failedAt, this`files
      ensures Recoverable() && Tried(MoveInSteps(Names(plan.value), 0), ok)
      ensures ok ==> forall i :: 0 <= i < |plan.value| ==>
                Lookup(files, Launcher(Names(plan.value)[i])) == Some(job.launcher(Names(plan.value)[i]))
      ensures forall n :: n !in Names(plan.value) ==> Lookup(files, Launcher(n)) == Lookup(old(files), Launcher(n))
      ensures forall p: Place :: !p.Launcher? && !p.LauncherTmp? ==> Lookup(files, p) == Lookup(old(files), p)
    {
      hide SlotsHold, LaunchersHold, Distinct, Lookup, Names, FirstStop, MoveInSteps;
      ghost var before := files;
      ok := PlaceLaunchers();
      SameSlots(before, files, origin, Flags());
    }

    // The new state files move in.
    method PlaceStates() returns (ok: bool)
      requires Recoverable() && appinfoInstalled && !stateInstalled && !cloudInstalled
      requires Lookup(files, StateFile).None? && Lookup(files, StateTmp).Some?
      requires job.cloud ==> Lookup(files, CloudFile).None? && Lookup(files, CloudTmp).Some?
      modifies this`failedAt, this`files, this`stateInstalled, this`cloudInstalled
      ensures Recoverable()
      ensures ok ==> Lookup(files, StateFile) == Lookup(old(files), StateTmp)
      ensures ok ==> Lookup(files, CloudFile) == Lookup(old(files), if job.cloud then CloudTmp else CloudFile)
      ensures Tried(StateSteps(job), ok)
      ensures if ok then job.cloud ==> CloudTmp !in files
              else Lookup(files, CloudTmp) == Lookup(old(files), CloudTmp)
      ensures forall p: Place :: !p.StateFile? && !p.StateTmp? && !p.CloudFile? && !p.CloudTmp? ==>
                Lookup(files, p) == Lookup(old(files), p)
    {
      hide Restorable, Lookup, FirstStop;
      FirstStopThen(Begun(), [PlaceState], if job.cloud then [PlaceCloudState] else []);
      NoStop(Begun());
      InFiles(files, StateFile);
      InFiles(files, StateTmp);
      ok := PlaceStateFile();
      if !ok || !job.cloud { return; }
      InFiles(files, CloudFile);
      InFiles(files, CloudTmp);
      ok := PlaceCloudFile();
    }

    // While the new files move in, the staged Cloud state tells how to take the
    // new links away, and the image holds its overrides.
    ghost predicate CloudStaged(out: Outcome)
      reads this`files, this`appinfoInstalled
    {
      && Lookup(files, if appinfoInstalled then AppInfo else AppInfoTmp) == Some(out.appinfo)
      && (job.cloud ==> out.cloudState.Some? && Lookup(files, CloudTmp) == out.cloudState)
    }

    // What became of the client manifest and the staged Cloud state where the
    // commit stopped.
    ghost predicate Uncommitted(before: Files, out: Outcome)
      reads this`files, this`appinfoInstalled, this`failedAt
    {
      && (FailedIn(Swapping) || FailedIn(PlacingClient) || FailedIn(CleaningUp))
      && (if FailedIn(Swapping) then CloudStaged(out) else job.cloud ==> CloudTmp !in files)
      && Lookup(files, Client) == Lookup(before, if job.client && FailedIn(CleaningUp) then ClientTmp else Client)
    }

    // The commit: from here on, a failure is undone by the trap.
    method Commit(ghost out: Outcome) returns (ok: bool)
      requires SameLasting(files, origin) && Idle() && Prepared() && forall p :: Backup(p) ==> p !in origin
      requires out == Planned(job, origin, linked).value && (job.client ==> ClientTmp in files)
      modifies this`failedAt, this`files, this`plan, this`commitPlan, this`commitPlanNamed, this`appinfoInstalled
      modifies this`configBackup, this`stateBackup, this`cloudBackup
      modifies this`configInstalled, this`stateInstalled, this`cloudInstalled, this`launchersCommitted
      ensures Recoverable()
      ensures Tried(SwapSteps(job, origin, out.names) + (ClientSteps(job) + CleanUpSteps()), ok)
      ensures if ok then Committed(job, files, origin, out) else Uncommitted(old(files), out)
      ensures ok ==> Lookup(files, Client) == Lookup(old(files), if job.client then ClientTmp else Client)
    {
      hide Recoverable, Lookup, Aside, SameLasting, Planned, Committed, Beside, Uncommitted, FirstStop, SwapSteps,
        ClientSteps, CleanUpSteps, Distinct;
      IdleRecoverable();
      IdleAside(files, origin);
      NamesEmpty(plan.value);
      ok := CommitPrepared(out);
    }

    // The commit, in what it needs of the preparation.
    method CommitPrepared(ghost out: Outcome) returns (ok: bool)
      requires Recoverable() && Flags() == Slots(false, false, false, false, false, false) && !appinfoInstalled
      requires plan.Some? && plan.value != [] && !commitPlanNamed && commitPlan.None? && !launchersCommitted
      requires Aside(files, origin, []) && Lookup(files, CloudFile) == Lookup(origin, CloudFile)
      requires Names(plan.value) == out.names && Beside(job, files, out)
      requires Lookup(files, AppInfoTmp) == Some(out.appinfo) && Lookup(files, AppInfoBackup) == Lookup(origin, AppInfo)
      requires job.client ==> ClientTmp in files
      modifies this`failedAt, this`files, this`plan, this`commitPlan, this`commitPlanNamed, this`appinfoInstalled
      modifies this`configBackup, this`stateBackup, this`cloudBackup
      modifies this`configInstalled, this`stateInstalled, this`cloudInstalled, this`launchersCommitted
      ensures Recoverable()
      ensures Tried(SwapSteps(job, origin, out.names) + (ClientSteps(job) + CleanUpSteps()), ok)
      ensures if ok then Committed(job, files, origin, out) else Uncommitted(old(files), out)
      ensures ok ==> Lookup(files, Client) == Lookup(old(files), if job.client then ClientTmp else Client)
    {
      hide Recoverable, Lookup, Aside, Names, Committed, Beside, Uncommitted, FirstStop, SwapSteps, ClientSteps,
        CleanUpSteps;
      CommitSteps(out.names);
      ghost var before := files;
      InFiles(files, AppInfoTmp);
      BesideCloud(job, files, out);
      ok := SwapImage();
      if !ok {
        StoppedSwapping(before, out);
        return;
      }
      SameAside(before, files, origin);
      SameBeside(job, before, files, out);
      ok := CommitSwapped(before, out);
    }

    // The steps of the commit, the first of them apart.
    lemma {:induction false} CommitSteps(names: seq<string>)
      ensures var swaps, last := SetAsideSteps(job, origin, names) + PlaceSteps(job, names),
                ClientSteps(job) + CleanUpSteps();
              FirstStop(Begun(), SwapSteps(job, origin, names) + last)
              == if FirstStop(Begun(), [Step.SwapImage]).Some? then FirstStop(Begun(), [Step.SwapImage])
                 else FirstStop(Begun(), swaps + last)
    {
      hide FirstStop, SetAsideSteps, PlaceSteps, ClientSteps, CleanUpSteps;
      var swaps, last := SetAsideSteps(job, origin, names) + PlaceSteps(job, names), ClientSteps(job) + CleanUpSteps();
      FirstStopThen(Begun(), SwapSteps(job, origin, names), last);
      FirstStopThen(Begun(), [Step.SwapImage], swaps);
      FirstStopThen(Begun(), swaps, last);
    }

    // The rest of the commit, in terms of the files before the swap.
    method CommitSwapped(ghost before: Files, ghost out: Outcome) returns (ok: bool)
      requires Recoverable() && Flags() == Slots(false, false, false, false, false, false) && appinfoInstalled
      requires plan.Some? && plan.value != [] && !commitPlanNamed && commitPlan.None? && !launchersCommitted
      requires Aside(files, origin, []) && Lookup(files, CloudFile) == Lookup(origin, CloudFile)
      requires Names(plan.value) == out.names && Lookup(files, AppInfo) == Some(out.appinfo) && Beside(job, files, out)
      requires job.client ==> ClientTmp in before
      requires forall p :: p !in {AppInfo, AppInfoTmp} ==> Lookup(files, p) == Lookup(before, p)
      modifies this`failedAt, this`files, this`plan, this`commitPlan, this`commitPlanNamed
      modifies this`configBackup, this`stateBackup, this`cloudBackup
      modifies this`configInstalled, this`stateInstalled, this`cloudInstalled, this`launchersCommitted
      ensures Recoverable()
      ensures Tried((SetAsideSteps(job, origin, out.names) + PlaceSteps(job, out.names))
                    + (ClientSteps(job) + CleanUpSteps()), ok)
      ensures if ok then Committed(job, files, origin, out) else Uncommitted(before, out)
      ensures ok ==> Lookup(files, Client) == Lookup(before, if job.client then ClientTmp else Client)
    {
      hide Recoverable, Lookup, Aside, Names, Committed, Beside, Free, Uncommitted, Tried, SetAsideSteps, PlaceSteps,
        ClientSteps, CleanUpSteps;
      ghost var swapped := files;
      InFiles(before, ClientTmp);
      InFiles(files, ClientTmp);
      assert Lookup(swapped, Client) == Lookup(before, Client);
      assert Lookup(swapped, ClientTmp) == Lookup(before, ClientTmp);
      ok := CommitImage(out);
      if !ok {
        SameUncommitted(swapped, before, out);
      }
    }

    lemma {:induction false} StoppedSwapping(before: Files, out: Outcome)
      requires Tried([Step.SwapImage], false) || Tried(SetAsideSteps(job, origin, out.names), false)
               || Tried(PlaceSteps(job, out.names), false)
      requires CloudStaged(out) && Lookup(files, Client) == Lookup(before, Client)
      ensures Uncommitted(before, out)
    {
      hide CloudStaged, Lookup, SetAsideSteps, PlaceSteps, PhaseOf;
      SwapPhase(job, origin, out.names);
      assert failedAt.value in SwapSteps(job, origin, out.names);
    }

    lemma {:induction false} SameUncommitted(before: Files, earlier: Files, out: Outcome)
      requires Uncommitted(before, out)
      requires Lookup(before, Client) == Lookup(earlier, Client)
      requires Lookup(before, ClientTmp) == Lookup(earlier, ClientTmp)
      ensures Uncommitted(earlier, out)
    {
      hide CloudStaged, Lookup;
    }

    // With the image in place: the old files step aside and the new ones move in.
    method CommitImage(ghost out: Outcome) returns (ok: bool)
      requires Recoverable() && Flags() == Slots(false, false, false, false, false, false) && appinfoInstalled
      requires plan.Some? && plan.value != [] && !commitPlanNamed && commitPlan.None? && !launchersCommitted
      requires Aside(files, origin, []) && Lookup(files, CloudFile) == Lookup(origin, CloudFile)
      requires Names(plan.value) == out.names && Lookup(files, AppInfo) == Some(out.appinfo) && Beside(job, files, out)
      requires job.client ==> ClientTmp in files
      modifies this`failedAt, this`files, this`plan, this`commitPlan, this`commitPlanNamed
      modifies this`configBackup, this`stateBackup, this`cloudBackup
      modifies this`configInstalled, this`stateInstalled, this`cloudInstalled, this`launchersCommitted
      ensures Recoverable()
      ensures Tried((SetAsideSteps(job, origin, out.names) + PlaceSteps(job, out.names))
                    + (ClientSteps(job) + CleanUpSteps()), ok)
      ensures if ok then Committed(job, files, origin, out) else Uncommitted(old(files), out)
      ensures ok ==> Lookup(files, Client) == Lookup(old(files), if job.client then ClientTmp else Client)
    {
      hide Restorable, Lookup, Aside, Names, Committed, Beside, Free, Uncommitted, FirstStop, SetAsideSteps, PlaceSteps,
        ClientSteps, CleanUpSteps;
      ghost var aside, place, last := SetAsideSteps(job, origin, out.names), PlaceSteps(job, out.names),
        ClientSteps(job) + CleanUpSteps();
      FirstStopThen(Begun(), aside + place, last);
      FirstStopThen(Begun(), aside, place);
      ghost var before := files;
      ok := SetAsideAll();
      SameBeside(job, before, files, out);
      BesideCloud(job, files, out);
      if !ok {
        StoppedSwapping(before, out);
        return;
      }
      ok := PlaceAll(out);
      ghost var placed := files;
      if !ok {
        StoppedSwapping(before, out);
        return;
      }
      InFiles(before, ClientTmp);
      InFiles(files, ClientTmp);
      ok := FinishCommit(out);
      assert Lookup(placed, Client) == Lookup(before, Client);
      assert Lookup(placed, ClientTmp) == Lookup(before, ClientTmp);
      if !ok {
        SameUncommitted(placed, before, out);
      }
    }

    // The client manifest and the scratch files.
    method FinishCommit(ghost out: Outcome) returns (ok: bool)
      requires Recoverable() && Committed(job, files, origin, out) && (job.client ==> ClientTmp in files)
      requires job.cloud ==> CloudTmp !in files
      modifies this`failedAt, this`files
      ensures Recoverable() && Tried(ClientSteps(job) + CleanUpSteps(), ok)
      ensures if ok then Committed(job, files, origin, out) else Uncommitted(old(files), out)
      ensures ok ==> Lookup(files, Client) == Lookup(old(files), if job.client then ClientTmp else Client)
    {
      hide Restorable, Lookup, Committed, FirstStop, ClientSteps, CleanUpSteps;
      FirstStopThen(Begun(), ClientSteps(job), CleanUpSteps());
      InFiles(files, CloudTmp);
      ok := PlaceClient(out);
      InFiles(files, CloudTmp);
      StoppedLate(ok);
      if !ok { return; }
      ok := Finish(out);
      StoppedLate(ok);
      InFiles(files, CloudTmp);
    }

    lemma {:induction false} StoppedLate(ok: bool)
      ensures Tried(ClientSteps(job), false) ==> FailedIn(PlacingClient)
      ensures Tried(CleanUpSteps(), false) ==> FailedIn(CleaningUp)
    {
      hide PhaseOf, ClientSteps, CleanUpSteps;
      EndPhases(job);
    }

    // The new files move in.
    method PlaceAll(ghost out: Outcome) returns (ok: bool)
      requires Recoverable() && appinfoInstalled && !configInstalled && !stateInstalled && !cloudInstalled
                 && !launchersCommitted
      requires plan.Some? && Active() == plan.value && Aside(files, origin, plan.value)
      requires Lookup(files, AppInfo) == Some(out.appinfo) && Free(job, files, origin) && Beside(job, files, out)
      requires Names(plan.value) == out.names
      modifies this`failedAt, this`files, this`configInstalled, this`stateInstalled, this`cloudInstalled,
          this`launchersCommitted
      ensures Recoverable() && Tried(PlaceSteps(job, out.names), ok)
      ensures if ok then Committed(job, files, origin, out) && (job.cloud ==> CloudTmp !in files) else CloudStaged(out)
      ensures Lookup(files, Client) == Lookup(old(files), Client)
      ensures Lookup(files, ClientTmp) == Lookup(old(files), ClientTmp)
    {
      hide Restorable, Aside, Names, Lookup, Beside, Free, Committed, FirstStop, MoveInSteps, StateSteps;
      FirstStopThen(Begun(), [Step.PlaceConfig] + MoveInSteps(out.names, 0), StateSteps(job));
      ghost var before := files;
      AsideOthers(files, origin, plan.value);
      Waiting(job, files, origin, out);
      BesideCloud(job, files, out);
      ok := PlaceConfigAndLaunchers();
      if !ok { return; }
      ok := PlaceLast(before, out);
    }

    // The states, once config and launchers are in place.
    method PlaceLast(ghost before: Files, ghost out: Outcome) returns (ok: bool)
      requires Recoverable() && appinfoInstalled && !stateInstalled && !cloudInstalled
      requires Lookup(before, AppInfo) == Some(out.appinfo) && Free(job, before, origin) && Beside(job, before, out)
      requires forall n :: n !in out.names ==> Lookup(before, Launcher(n)) == Lookup(origin, Launcher(n))
      requires Lookup(files, Config) == Lookup(before, ConfigTmp)
      requires forall i :: 0 <= i < |out.names| ==>
                 Lookup(files, Launcher(out.names[i])) == Some(job.launcher(out.names[i]))
      requires forall n :: n !in out.names ==> Lookup(files, Launcher(n)) == Lookup(before, Launcher(n))
      requires forall p: Place :: !p.Config? && !p.ConfigTmp? && !p.Launcher? && !p.LauncherTmp? ==>
                 Lookup(files, p) == Lookup(before, p)
      modifies this`failedAt, this`files, this`stateInstalled, this`cloudInstalled
      ensures Recoverable() && Tried(StateSteps(job), ok)
      ensures if ok then Committed(job, files, origin, out) && (job.cloud ==> CloudTmp !in files) else CloudStaged(out)
      ensures Lookup(files, Client) == Lookup(before, Client)
      ensures Lookup(files, ClientTmp) == Lookup(before, ClientTmp)
    {
      hide Restorable, Lookup, Beside, Free, Committed, FirstStop, StateSteps;
      Waiting(job, before, origin, out);
      BesideCloud(job, before, out);
      ghost var placed := files;
      ok := PlaceStates();
      if !ok { return; }
      AllPlaced(job, before, placed, files, origin, out);
    }

    // The client manifest moves in.
    method PlaceClient(ghost out: Outcome) returns (ok: bool)
      requires Recoverable() && Committed(job, files, origin, out) && (job.client ==> ClientTmp in files)
      modifies this`failedAt, this`files
      ensures Recoverable() && Committed(job, files, origin, out) && Tried(ClientSteps(job), ok)
      ensures Lookup(files, Client) == Lookup(old(files), if job.client && ok then ClientTmp else Client)
      ensures forall p :: p != Client && p != ClientTmp ==> Lookup(files, p) == Lookup(old(files), p)
    {
      hide Restorable, Committed, Lookup, FirstStop;
      NoStop(Begun());
      ok := true;
      if job.client {
        ghost var before := files;
        ok := MoveIn(ClientTmp, Client, Step.PlaceClient);
        if ok {
          SameRestorable(before, files, origin, appinfoInstalled, Flags(), Active(), launchersCommitted);
          SameCommitted(job, before, files, origin, out);
        }
      }
    }

    // The scratch files go.
    method Finish(ghost out: Outcome) returns (ok: bool)
      requires Recoverable() && Committed(job, files, origin, out)
      modifies this`failedAt, this`files
      ensures Recoverable() && Committed(job, files, origin, out) && Tried(CleanUpSteps(), ok)
      ensures forall p :: p != Specs ==> Lookup(files, p) == Lookup(old(files), p)
    {
      hide Restorable, Committed, Lookup, FirstStop;
      FirstStopThen(Begun(), [RemoveSpecs], [RemovePlan]);
      ok := Command(RemoveSpecs);
      if !ok { return; }
      SpecsGone(job, files, origin, out, appinfoInstalled, Flags(), Active(), launchersCommitted);
      Remove(Specs);
      ok := Command(RemovePlan);
    }

    // --- Rollback -----------------------------------------------------------

    // One line of the plan: the new launcher goes, the old one comes back.
    method RestoreLauncher(line: Line, ghost original: Option<Bytes>)
      requires LauncherOk(Lookup(files, Launcher(line.name)), Lookup(files, LauncherBackup(line.name)), original,
                 Some(line), launchersCommitted)
      modifies this`files
      ensures Lookup(files, Launcher(line.name)) == original && Lookup(files, LauncherBackup(line.name)).None?
      ensures forall p :: p !in {Launcher(line.name), LauncherBackup(line.name), LauncherTmp(line.name)} ==>
                Lookup(files, p) == Lookup(old(files), p)
    {
      Remove(LauncherTmp(line.name));
      if launchersCommitted {
        Remove(Launcher(line.name));
      }
      if line.backup && Launcher(line.name) !in files && LauncherBackup(line.name) in files {
        files := (files - {LauncherBackup(line.name)})[Launcher(line.name) := files[LauncherBackup(line.name)]];
      }
    }

    method RestoreLaunchers(lines: seq<Line>)
      requires Distinct(Names(lines))
      requires LaunchersHold(files, origin, lines, launchersCommitted)
      modifies this`files
      ensures forall n :: Lookup(files, Launcher(n)) == Lookup(origin, Launcher(n))
                && Lookup(files, LauncherBackup(n)).None?
      ensures forall p: Place :: !p.Launcher? && !p.LauncherBackup? && !p.LauncherTmp? ==>
                Lookup(files, p) == Lookup(old(files), p)
    {
      hide LauncherOk, LineFor;
      var i := 0;
      while i < |lines|
        invariant 0 <= i <= |lines|
        invariant forall j :: 0 <= j < i ==>
                    Lookup(files, Launcher(lines[j].name)) == Lookup(origin, Launcher(lines[j].name))
                    && Lookup(files, LauncherBackup(lines[j].name)).None?
        invariant forall n :: (forall j :: 0 <= j < i ==> lines[j].name != n) ==>
                    && Lookup(files, Launcher(n)) == Lookup(old(files), Launcher(n))
                    && Lookup(files, LauncherBackup(n)) == Lookup(old(files), LauncherBackup(n))
        invariant forall p: Place :: !p.Launcher? && !p.LauncherBackup? && !p.LauncherTmp? ==>
                    Lookup(files, p) == Lookup(old(files), p)
      {
        forall j | 0 <= j < i ensures lines[j].name != lines[i].name { assert Names(lines)[j] != Names(lines)[i]; }
        LineForAt(lines, i);
        RestoreLauncher(lines[i], Lookup(origin, Launcher(lines[i].name)));
        i := i + 1;
      }
      forall n ensures Lookup(files, Launcher(n)) == Lookup(origin, Launcher(n))
          && Lookup(files, LauncherBackup(n)).None? {
        LineForNone(lines, n);
        if LineFor(lines, n).None? {
          UnlistedLauncher(Lookup(old(files), Launcher(n)), Lookup(old(files), LauncherBackup(n)),
              Lookup(origin, Launcher(n)),
            launchersCommitted);
        }
      }
    }

    // `remove if installed, then bring the backup back` for one generated file.
    method RestoreSlot(p: Place, backup: Place, installed: bool, named: bool, ghost original: Option<Bytes>)
      requires p != backup && SlotOk(Lookup(files, p), Lookup(files, backup), original, installed, named)
      modifies this`files
      ensures Lookup(files, p) == original && Lookup(files, backup).None?
      ensures forall q :: q != p && q != backup ==> Lookup(files, q) == Lookup(old(files), q)
    {
      if installed {
        Remove(p);
      }
      if named && p !in files {
        files := (files - {backup})[p := files[backup]];
      }
    }

    method RemoveTemporaries()
      modifies this`files
      ensures forall p :: Lookup(files, p) ==
                if Temporary(p) && !p.LauncherTmp? && !p.Specs? then None else Lookup(old(files), p)
    {
      Remove(ConfigTmp);
      Remove(StateTmp);
      Remove(CloudTmp);
      Remove(ClientTmp);
      Remove(AppInfoTmp);
    }

    // The links after the trap has run the Cloud tool on these files.
    ghost function LinksUndone(files: Files, links: Links): Links
      reads this`cloudApplied, this`appinfoInstalled
    {
      var image := if appinfoInstalled then AppInfo else AppInfoTmp;
      if cloudApplied && CloudTmp in files && image in files then Unlinked(job, files[image], files[CloudTmp], links)
      else links
    }

    // The Cloud tool's own restore, on whichever image holds its overrides; its
    // failure is ignored.
    method UndoCloud()
      modifies this`files, this`links
      ensures links == LinksUndone(old(files), old(links))
      ensures forall p :: p != AppInfoTmp && !(p == AppInfo && appinfoInstalled) ==>
                Lookup(files, p) == Lookup(old(files), p)
    {
      if cloudApplied && CloudTmp in files {
        var image := if appinfoInstalled then AppInfo else AppInfoTmp;
        if image in files {
          var restored := job.cloudRestore(files[image], files[CloudTmp], links);
          if restored.Some? {
            files := files[image := restored.value.0];
            links := restored.value.1;
          }
        }
      }
    }

    method RestoreActivePlan()
      requires Distinct(Names(Active()))
      requires LaunchersHold(files, origin, Active(), launchersCommitted)
      modifies this`files, this`commitPlan
      ensures forall n :: Lookup(files, Launcher(n)) == Lookup(origin, Launcher(n))
                && Lookup(files, LauncherBackup(n)).None?
      ensures forall n :: Lookup(files, LauncherTmp(n)).None?
      ensures Lookup(files, Specs).None?
      ensures forall p: Place :: !p.Launcher? && !p.LauncherBackup? && !p.LauncherTmp? && !p.Specs? ==>
                Lookup(files, p) == Lookup(old(files), p)
    {
      hide LauncherOk, LineFor, Distinct;
      if commitPlanNamed && commitPlan.Some? {
        RestoreLaunchers(commitPlan.value);
      } else if plan.Some? {
        RestoreLaunchers(plan.value);
      } else {
        RestoreLaunchers([]);
      }
      Remove(Specs);
      commitPlan := None;
      files := map p | p in files && !p.LauncherTmp? :: files[p];
    }

    method ClearScratch()
      requires Distinct(Names(Active())) && LaunchersHold(files, origin, Active(), launchersCommitted)
      modifies this`files, this`links, this`commitPlan
      ensures links == LinksUndone(old(files), old(links))
      ensures forall p: Place :: p.Launcher? ==> Lookup(files, p) == Lookup(origin, p)
      ensures forall p: Place :: p.LauncherBackup? || Temporary(p) ==> Lookup(files, p).None?
      ensures forall p: Place ::
                !p.Launcher? && !p.LauncherBackup? && !Temporary(p) && !(p == AppInfo && appinfoInstalled) ==>
                  Lookup(files, p) == Lookup(old(files), p)
    {
      hide LaunchersHold, Distinct, Lookup;
      UndoCloud();
      RemoveTemporaries();
      SameLaunchers(old(files), files, origin, Active(), launchersCommitted);
      RestoreActivePlan();
    }

    method RestoreImage()
      modifies this`files
      ensures Lookup(files, AppInfo) ==
                if appinfoInstalled && Lookup(files, AppInfoBackup).Some? then Lookup(files, AppInfoBackup)
                    else Lookup(old(files), AppInfo)
      ensures forall p :: p != AppInfo ==> Lookup(files, p) == Lookup(old(files), p)
    {
      if appinfoInstalled && AppInfoBackup in files {
        files := files[AppInfo := files[AppInfoBackup]];
      }
    }

    method RestoreLaunchersAndImage()
      requires Recoverable()
      modifies this`files, this`links, this`commitPlan
      ensures links == LinksUndone(old(files), old(links))
      ensures forall p: Place :: p.Launcher? || p.AppInfo? ==> Lookup(files, p) == Lookup(origin, p)
      ensures forall p: Place :: p.LauncherBackup? || Temporary(p) ==> Lookup(files, p).None?
      ensures forall p: Place :: !p.Launcher? && !p.LauncherBackup? && !Temporary(p) && !p.AppInfo? ==>
                Lookup(files, p) == Lookup(old(files), p)
      ensures SlotsHold(files, origin, Flags())
    {
      hide SlotsHold, LaunchersHold, Distinct, Lookup, Temporary;
      ghost var before := files;
      ClearScratch();
      ghost var cleared := files;
      RestoreImage();
      ImageBack(before, cleared, files, origin, appinfoInstalled, Flags());
    }

    method RestoreGenerated()
      requires SlotsHold(files, origin, Flags())
      modifies this`files
      ensures forall p :: p in {Config, StateFile, CloudFile} ==> Lookup(files, p) == Lookup(origin, p)
      ensures forall p :: p in {ConfigBackup, StateBackup, CloudBackup} ==> Lookup(files, p).None?
      ensures forall p :: p !in {Config, StateFile, CloudFile, ConfigBackup, StateBackup, CloudBackup} ==>
                Lookup(files, p) == Lookup(old(files), p)
    {
      hide SlotOk, Lookup;
      RestoreSlot(Config, ConfigBackup, configInstalled, configBackup, Lookup(origin, Config));
      RestoreSlot(StateFile, StateBackup, stateInstalled, stateBackup, Lookup(origin, StateFile));
      RestoreSlot(CloudFile, CloudBackup, cloudInstalled, cloudBackup, Lookup(origin, CloudFile));
    }

    // The trap: whatever was done so far, the lasting files are what they were.
    // Only the staged client manifest is not put back.
    method Rollback()
      requires Recoverable()
      modifies this`files, this`links, this`commitPlan
      ensures forall p :: Lasting(p) && !p.Client? ==> Lookup(files, p) == Lookup(origin, p)
      ensures forall p :: Temporary(p) || Backup(p) ==> Lookup(files, p).None?
      ensures forall p :: p in {Client, AppInfoBackup} ==> Lookup(files, p) == Lookup(old(files), p)
      ensures links == old(LinksUndone(files, links))
    {
      hide SlotsHold, LaunchersHold, Distinct, Lookup, Unlinked;
      RestoreLaunchersAndImage();
      RestoreGenerated();
    }

    // The script from the trap on. It succeeds exactly when no command stops it.
    // Then the new mapping is in place; otherwise the image, the config, both
    // state files and every launcher are what they were and no temporary file or
    // backup is left, but the client manifest may be the new one, and the links
    // are those the first failure leaves.
    method Install() returns (ok: bool)
      requires AppInfo in files && Idle() && plan.None? && !cloudApplied && (job.client ==> ClientTmp in files)
      requires files == origin && links == linked
      requires forall p :: p in files ==> Lasting(p) || p.ClientTmp?
      requires forall image :: Distinct(job.names(image))
      modifies this
      ensures var s := Start(job, old(files), old(links), fails);
              && (ok <==> FirstFailure(s).None?)
              && (!ok ==>
                    Lookup(files, Client) == Lookup(old(files), if ReplacesManifest(s) then ClientTmp else Client))
              && (!ok ==> links == LinksLeft(job, old(files), old(links), FirstFailure(s).value))
      ensures ok ==>
                && Planned(job, old(files), old(links)).Some?
                && Committed(job, files, old(files), Planned(job, old(files), old(links)).value)
                && links == Planned(job, old(files), old(links)).value.links
                && Lookup(files, Client) == Lookup(old(files), if job.client then ClientTmp else Client)
      ensures !ok ==> forall p :: Lasting(p) && !p.Client? ==> Lookup(files, p) == Lookup(old(files), p)
      ensures !ok ==> forall p :: Temporary(p) || Backup(p) ==> Lookup(files, p).None?
    {
      hide Lookup, Restorable, Committed, Planned, Distinct, Names, Beside, LinksLeft, FirstStop, FirstFailure,
        CopySteps, PrepareSteps, SwapSteps, ClientSteps, CleanUpSteps, EntryNames;
      SameSelf(files);
      ok := Prepare();
      SameClient(files, origin);
      if !ok {
        IdleRecoverable();
        Rollback();
        return;
      }
      StillStaged(origin, files);
      ok := CommitOrRollback(Planned(job, origin, linked).value);
    }

    method CommitOrRollback(ghost out: Outcome) returns (ok: bool)
      requires SameLasting(files, origin) && Idle() && Prepared() && forall p :: Backup(p) ==> p !in origin
      requires out == Planned(job, origin, linked).value && (job.client ==> ClientTmp in files) && Reaches()
      modifies this
      ensures ok <==> FirstFailure(Begun()).None?
      ensures ok ==> Committed(job, files, origin, out) && links == out.links
      ensures ok ==> Lookup(files, Client) == Lookup(old(files), if job.client then ClientTmp else Client)
      ensures !ok ==> forall p :: Lasting(p) && !p.Client? ==> Lookup(files, p) == Lookup(origin, p)
      ensures !ok ==> forall p :: Temporary(p) || Backup(p) ==> Lookup(files, p).None?
      ensures !ok ==>
                Lookup(files, Client) == Lookup(old(files), if ReplacesManifest(Begun()) then ClientTmp else Client)
      ensures !ok ==> links == LinksLeft(job, origin, linked, FirstFailure(Begun()).value)
    {
      hide Lookup, Restorable, Committed, Planned, Distinct, Names, Beside, LinksLeft, Unlinked, FirstStop,
        FirstFailure, CopySteps, PrepareSteps, SwapSteps, ClientSteps, CleanUpSteps, EntryNames, Uncommitted;
      ghost var prepared := files;
      NamesPlanned(Begun(), out);
      CommitFailure(Begun());
      ok := Commit(out);
      if !ok {
        LinksToUndo(prepared, out);
        Rollback();
      }
    }

    // What the trap will do to the links of a failed commit.
    lemma {:induction false} LinksToUndo(before: Files, out: Outcome)
      requires AppInfo in origin && Planned(job, origin, linked) == Some(out) && links == out.links
      requires cloudApplied == job.cloud && Uncommitted(before, out)
      ensures LinksUndone(files, links) == LinksLeft(job, origin, linked, failedAt.value)
      ensures Lookup(files, Client)
           == Lookup(before, if job.client && PhaseOf(failedAt.value) == CleaningUp then ClientTmp else Client)
    {
      hide Unlinked;
    }
  }

  lemma {:induction false} UnlistedLauncher(
    now: Option<Bytes>, saved: Option<Bytes>, orig: Option<Bytes>, committed: bool)
    requires LauncherOk(now, saved, orig, None, committed)
    ensures now == orig && saved.None?
  {
  }

  // --- What a failed install may leave --------------------------------------

  lemma {:induction false} OneLauncher(name: string)
    ensures Distinct([name])
  {
  }

  // A job with native Cloud whose tools accept everything, and whose Cloud
  // restore takes away what one entry owns.
  function CloudJob(state: Bytes, entry: Cloud.CloudEntry): Job {
    Job(
      true, false, false, (image, _) => Some(image),
      (image, _, links) => Some((image, Cloud.RemoveLinks(links, [entry]))), _ => ["game.sh"],
      _ => [], [], image => Some((image, state)), (image, links) => Some((image, state, links)))
  }

  lemma {:induction false} CloudStops(s: Start, state: Bytes, entry: Cloud.CloudEntry)
    requires s.job == CloudJob(state, entry) && s.files.Keys == {AppInfo, CloudFile}
    requires forall c :: s.fails(c) <==> c == PatchImage
    ensures FirstFailure(s) == Some(PatchImage)
    ensures LinksLeft(s.job, s.files, s.links, PatchImage) == Cloud.RemoveLinks(s.links, [entry])
  {
    hide FirstStop, SwapSteps, ClientSteps, CleanUpSteps, CopySteps, MakeSteps;
    forall c ensures Stops(s, c) <==> c == PatchImage { }
    var steps := PrepareSteps(s.job, EntryNames(s));
    assert PatchImage in EditSteps(s.job) && PatchImage in steps;
    CopyPhase(s.job, s.files);
    FailureParts(s);
  }

  // An earlier Cloud mapping comes off the copy, then the patch fails: nothing
  // is installed, the earlier mapping is still recorded, and its link is gone.
  method LoseLink(appinfo: Bytes, state: Bytes, cloudState: Bytes, entry: Cloud.CloudEntry)
    returns (ok: bool, after: Files, before: Links, links: Links)
    requires entry.linkOwned
    ensures !ok && Lookup(after, AppInfo) == Some(appinfo) && Lookup(after, CloudFile) == Some(cloudState)
    ensures before == map[entry.link := Cloud.Link(entry.target)] && links == map[]
  {
    hide Distinct, Stops, FirstStop, FirstFailure, Script, Committed, Planned, LinksLeft, ReplacesManifest;
    OneLauncher("game.sh");
    before := map[entry.link := Cloud.Link(entry.target)];
    var files := map[AppInfo := appinfo, CloudFile := cloudState];
    var install := new Transaction(files, before, CloudJob(state, entry), (c: Step) => c.PatchImage?);
    CloudStops(Start(install.job, files, before, install.fails), state, entry);
    OneLink(entry);
    ok := install.Install();
    after, links := install.files, install.links;
    assert Lookup(files, AppInfo) == Some(appinfo) && Lookup(files, CloudFile) == Some(cloudState);
  }

  lemma {:induction false} OneLink(entry: Cloud.CloudEntry)
    requires entry.linkOwned
    ensures Cloud.RemoveLinks(map[entry.link := Cloud.Link(entry.target)], [entry]) == map[]
  {
    var links := map[entry.link := Cloud.Link(entry.target)];
    assert [entry][1..] == [];
    assert Cloud.RemoveLink(links, entry) == map[];
  }

  // A job whose tools accept everything and that makes one launcher.
  function EasyJob(state: Bytes): Job {
    Job(
      false, true, false, (image, _) => Some(image), (image, _, links) => Some((image, links)), _ => ["game.sh"],
      _ => [], [], image => Some((image, state)), (image, links) => Some((image, state, links)))
  }

  lemma {:induction false} EasyStops(s: Start, state: Bytes)
    requires s.job == EasyJob(state) && AppInfo in s.files && forall p: Place :: p.Launcher? ==> p !in s.files
    ensures forall c :: Stops(s, c) ==> s.fails(c)
  {
  }

  // Everything succeeds but the removal of the scratch files: nothing is
  // installed, but the client manifest is the new one.
  method ReplaceManifest(appinfo: Bytes, state: Bytes, manifest: Bytes, staged: Bytes) returns (ok: bool, after: Files)
    ensures !ok && Lookup(after, AppInfo) == Some(appinfo) && Lookup(after, Config).None?
    ensures Lookup(after, Client) == Some(staged)
  {
    hide Distinct, Stops, FirstStop, FirstFailure, Script, Committed, Planned, LinksLeft;
    OneLauncher("game.sh");
    var files := map[AppInfo := appinfo, Client := manifest, ClientTmp := staged];
    var install := new Transaction(files, map[], EasyJob(state), (c: Step) => c.RemoveSpecs?);
    ghost var s := Start(install.job, files, map[], install.fails);
    EasyStops(s, state);
    ManifestReplacedExactly(s);
    ok := install.Install();
    after := install.files;
    assert Lookup(files, AppInfo) == Some(appinfo) && Lookup(files, Config).None?;
  }
}
