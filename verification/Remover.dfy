// The remove command: restore both layers on a copy of the image, swap it in,
// and retire the generated files.
module Remover {
  import opened Wrappers
  import opened Words
  import Cloud

  type Links = Cloud.Links

  // Retired(p) is p with the suffix of this run.
  datatype Spot =
    | AppInfo | AppInfoTmp | AppInfoBackup
    | Config | StateFile | CloudFile
    | Launcher(name: string)
    | Retired(spot: Spot)

  type Files = map<Spot, Bytes>

  // The commands of the script, in order; CheckLauncher is the test that a
  // recorded launcher lies in the launcher directory.
  datatype Command =
    | BackupImage | ProtectBackup | CopyImage
    | RestoreLaunch | RestoreCloud | SwapImage
    | ListLaunchers | CheckLauncher(name: string) | MoveLauncher(name: string) | UnlinkList
    | MoveConfig | MoveState | MoveCloudState

  // The tools, the launchers a state file names, and those outside the
  // launcher directory.
  datatype Job = Job(
    restore: (Bytes, Bytes) -> Option<Bytes>,
    cloudRestore: (Bytes, Bytes, Links) -> Option<(Bytes, Links)>,
    launchers: Bytes -> seq<string>,
    outside: string -> bool)

  // What a removal starts from, and which commands would fail.
  datatype Start = Start(job: Job, files: Files, links: Links, fails: Command -> bool)

  // The image without the mapping, and the links without those it owned.
  function Restored(job: Job, files: Files, links: Links): Option<(Bytes, Links)>
    requires AppInfo in files && StateFile in files
  {
    var image := job.restore(files[AppInfo], files[StateFile]);
    if image.None? then None
    else if CloudFile !in files then Some((image.value, links))
    else job.cloudRestore(image.value, files[CloudFile], links)
  }

  predicate Generated(p: Spot) {
    p.Config? || p.StateFile? || p.CloudFile? || p.Launcher?
  }

  // --- The commands of a run ------------------------------------------------

  // Every listed launcher, from the i-th on, is checked; one that is there is
  // moved, once.
  function LauncherCommands(names: seq<string>, i: nat, files: Files): seq<Command>
    requires i <= |names|
    decreases |names| - i
  {
    if i == |names| then []
    else
      [CheckLauncher(names[i])]
      + (if Launcher(names[i]) in files && names[i] !in names[..i] then [MoveLauncher(names[i])] else [])
      + LauncherCommands(names, i + 1, files)
  }

  function RestoreCommands(files: Files): seq<Command> {
    [RestoreLaunch] + if CloudFile in files then [RestoreCloud] else []
  }

  function LastCommands(files: Files): seq<Command> {
    [UnlinkList]
    + (if Config in files then [MoveConfig] else [])
    + [MoveState]
    + (if CloudFile in files then [MoveCloudState] else [])
  }

  // Every command of a run in which nothing fails.
  function Script(job: Job, files: Files): seq<Command>
    requires StateFile in files
  {
    [BackupImage, ProtectBackup, CopyImage] + RestoreCommands(files) + [SwapImage, ListLaunchers]
    + LauncherCommands(job.launchers(files[StateFile]), 0, files) + LastCommands(files)
  }

  // A command stops the script when it fails itself or its tool refuses.
  predicate Stops(s: Start, c: Command)
    requires AppInfo in s.files && StateFile in s.files
  {
    match c
    case CheckLauncher(name) => s.job.outside(name)
    case RestoreLaunch => s.fails(c) || s.job.restore(s.files[AppInfo], s.files[StateFile]).None?
    case RestoreCloud =>
      s.fails(c)
      || (s.job.restore(s.files[AppInfo], s.files[StateFile]).Some? && Restored(s.job, s.files, s.links).None?)
    case _ => s.fails(c)
  }

  // The commands that succeed.
  function Ran(s: Start, script: seq<Command>): (r: seq<Command>)
    requires AppInfo in s.files && StateFile in s.files
    ensures r <= script
  {
    if script == [] || Stops(s, script[0]) then [] else [script[0]] + Ran(s, script[1..])
  }

  // The command at which the script stops, if any.
  function FirstFailure(s: Start): Option<Command>
    requires AppInfo in s.files && StateFile in s.files
  {
    var script := Script(s.job, s.files);
    var n := |Ran(s, script)|;
    if n < |script| then Some(script[n]) else None
  }

  // The command that retires a generated file.
  function Mover(p: Spot): Command
    requires Generated(p)
  {
    match p
    case Config => MoveConfig
    case StateFile => MoveState
    case CloudFile => MoveCloudState
    case Launcher(n) => MoveLauncher(n)
  }

  // The links after these commands.
  function LinksAfter(s: Start, ran: seq<Command>): Links
    requires AppInfo in s.files && StateFile in s.files
  {
    if RestoreCloud in ran && Restored(s.job, s.files, s.links).Some?
    then Restored(s.job, s.files, s.links).value.1 else s.links
  }

  lemma {:induction false} LinksKept(s: Start, ran: seq<Command>, c: Command)
    requires AppInfo in s.files && StateFile in s.files && c != RestoreCloud
    ensures LinksAfter(s, ran + [c]) == LinksAfter(s, ran)
  {
  }

  predicate Retires(c: Command) {
    c.MoveConfig? || c.MoveState? || c.MoveCloudState? || c.MoveLauncher?
  }

  // After these commands a generated file is retired if its own command is
  // among them, and where it was otherwise.
  ghost predicate Moved(files: Files, orig: Files, ran: seq<Command>) {
    forall p :: Generated(p) ==>
      if Mover(p) in ran then p !in files && p in orig && Lookup(files, Retired(p)) == Lookup(orig, p)
      else Lookup(files, p) == Lookup(orig, p) && Retired(p) !in files
  }

  // These commands succeeded and these are still to come.
  ghost predicate Running(s: Start, ran: seq<Command>, rest: seq<Command>)
    requires AppInfo in s.files && StateFile in s.files
  {
    ran + rest == Script(s.job, s.files) && forall c :: c in ran ==> !Stops(s, c)
  }

  // These commands succeeded and the next one stopped the script.
  ghost predicate Halted(s: Start, ran: seq<Command>)
    requires AppInfo in s.files && StateFile in s.files
  {
    var script := Script(s.job, s.files);
    && |ran| < |script| && ran == script[..|ran|]
    && (forall c :: c in ran ==> !Stops(s, c)) && Stops(s, script[|ran|])
  }

  lemma {:induction false} RunStep(s: Start, ran: seq<Command>, c: Command, rest: seq<Command>)
    requires AppInfo in s.files && StateFile in s.files && Running(s, ran, [c] + rest)
    ensures Stops(s, c) ==> Halted(s, ran)
    ensures !Stops(s, c) ==> Running(s, ran + [c], rest)
  {
    hide Stops, Script;
    assert ran + ([c] + rest) == (ran + [c]) + rest;
  }

  lemma {:induction false} RanPrefix(s: Start, script: seq<Command>, ran: seq<Command>)
    requires AppInfo in s.files && StateFile in s.files
    requires ran <= script && (forall c :: c in ran ==> !Stops(s, c))
    requires |ran| < |script| ==> Stops(s, script[|ran|])
    ensures ran == Ran(s, script)
    decreases script
  {
    hide Stops;
    if ran != [] {
      assert script[0] == ran[0] && script[1..][..|ran| - 1] == ran[1..];
      RanPrefix(s, script[1..], ran[1..]);
    }
  }

  // So what was done is what succeeds.
  lemma {:induction false} WhereItStops(s: Start, ran: seq<Command>, ok: bool)
    requires AppInfo in s.files && StateFile in s.files
    requires if ok then Running(s, ran, []) else Halted(s, ran)
    ensures ran == Ran(s, Script(s.job, s.files)) && (ok <==> FirstFailure(s).None?)
  {
    hide Stops, Script;
    assert ran + [] == ran;
    RanPrefix(s, Script(s.job, s.files), ran);
  }

  lemma {:induction false} RanNoStop(s: Start, script: seq<Command>)
    requires AppInfo in s.files && StateFile in s.files
    ensures forall c :: c in Ran(s, script) ==> !Stops(s, c)
    ensures Ran(s, script) == script <==> forall c :: c in script ==> !Stops(s, c)
    ensures |Ran(s, script)| < |script| ==> Stops(s, script[|Ran(s, script)|])
    decreases script
  {
    hide Stops;
    if script != [] {
      RanNoStop(s, script[1..]);
      assert script == [script[0]] + script[1..];
    }
  }

  lemma {:induction false} MovedSelf(files: Files)
    requires forall p :: p in files ==> p.AppInfo? || Generated(p)
    ensures Moved(files, files, [])
  {
  }

  lemma {:induction false} MovedBeside(before: Files, after: Files, orig: Files, ran: seq<Command>, c: Command)
    requires Moved(before, orig, ran) && !Retires(c)
    requires forall p :: p !in {AppInfo, AppInfoTmp, AppInfoBackup} ==> Lookup(after, p) == Lookup(before, p)
    ensures Moved(after, orig, ran) && Moved(after, orig, ran + [c])
  {
    forall p | Generated(p) ensures Mover(p) in ran + [c] <==> Mover(p) in ran { }
    assert forall p :: Generated(p) ==> Lookup(after, p) == Lookup(before, p);
    assert forall p :: Generated(p) ==> Lookup(after, Retired(p)) == Lookup(before, Retired(p));
  }

  lemma {:induction false} MovedOne(files: Files, orig: Files, ran: seq<Command>, p: Spot)
    requires Moved(files, orig, ran) && Generated(p) && p in files
    ensures Moved((files - {p})[Retired(p) := files[p]], orig, ran + [Mover(p)])
    ensures Mover(p) !in ran
  {
  }

  lemma {:induction false} MovedBack(before: Files, after: Files, orig: Files, ran: seq<Command>)
    requires Moved(before, orig, ran)
    requires forall p :: p !in {AppInfo, AppInfoTmp} ==> Lookup(after, p) == Lookup(before, p)
    ensures Moved(after, orig, ran)
  {
    MovedBeside(before, after, orig, ran, SwapImage);
  }

  lemma {:induction false} NotThere(files: Files, p: Spot)
    ensures p in files <==> Lookup(files, p).Some?
  {
  }

  lemma {:induction false} RunStart(s: Start)
    requires AppInfo in s.files && StateFile in s.files
    ensures Running(s, [], [BackupImage, ProtectBackup, CopyImage]
              + (RestoreCommands(s.files) + ([SwapImage, ListLaunchers]
              + (LauncherCommands(s.job.launchers(s.files[StateFile]), 0, s.files) + LastCommands(s.files)))))
  {
    hide RestoreCommands, LauncherCommands, LastCommands, Stops;
    var a, b, c := RestoreCommands(s.files), LauncherCommands(s.job.launchers(s.files[StateFile]), 0, s.files),
      LastCommands(s.files);
    var front, swap := [BackupImage, ProtectBackup, CopyImage], [SwapImage, ListLaunchers];
    assert front + (a + (swap + (b + c))) == front + a + swap + b + c;
    assert [] + (front + a + swap + b + c) == front + a + swap + b + c;
  }

  // --- What a failure leaves ------------------------------------------------

  lemma {:induction false} OnlyLaunchers(names: seq<string>, i: nat, files: Files)
    requires i <= |names|
    ensures forall c :: c in LauncherCommands(names, i, files) ==> c.CheckLauncher? || c.MoveLauncher?
    decreases |names| - i
  {
    if i < |names| {
      OnlyLaunchers(names, i + 1, files);
    }
  }

  // The launch state is moved last but for the Cloud state.
  function BeforeState(job: Job, files: Files): seq<Command>
    requires StateFile in files
  {
    [BackupImage, ProtectBackup, CopyImage] + RestoreCommands(files) + [SwapImage, ListLaunchers]
    + LauncherCommands(job.launchers(files[StateFile]), 0, files)
    + [UnlinkList] + if Config in files then [MoveConfig] else []
  }

  lemma {:induction false} StateMovedLast(job: Job, files: Files)
    requires StateFile in files
    ensures Script(job, files)
         == BeforeState(job, files) + ([MoveState] + if CloudFile in files then [MoveCloudState] else [])
    ensures MoveState !in BeforeState(job, files) && MoveCloudState !in BeforeState(job, files)
  {
    hide LauncherCommands;
    OnlyLaunchers(job.launchers(files[StateFile]), 0, files);
  }

  lemma {:induction false} StateOut(s: Start, files: Files, ran: seq<Command>)
    requires AppInfo in s.files && StateFile in s.files && Moved(files, s.files, ran)
    requires ran == Ran(s, Script(s.job, s.files))
    ensures FirstFailure(s).Some? ==> (StateFile !in files <==> FirstFailure(s) == Some(MoveCloudState))
  {
    hide Ran, Script, Stops, BeforeState;
    assert Generated(StateFile) && Lookup(s.files, StateFile).Some?;
    assert StateFile !in files <==> MoveState in ran;
    var script, front := Script(s.job, s.files), BeforeState(s.job, s.files);
    StateMovedLast(s.job, s.files);
    assert ran == script[..|ran|];
    if |ran| <= |front| {
      assert ran == front[..|ran|];
    } else {
      assert ran[|front|] == MoveState;
    }
  }

  function Target(c: Command): (p: Spot)
    requires Retires(c)
    ensures Generated(p) && Mover(p) == c
  {
    match c
    case MoveConfig => Config
    case MoveState => StateFile
    case MoveCloudState => CloudFile
    case MoveLauncher(n) => Launcher(n)
  }

  lemma {:induction false} NothingMoved(files: Files, orig: Files, ran: seq<Command>)
    requires Moved(files, orig, ran)
    ensures (forall p :: Generated(p) ==> Lookup(files, p) == Lookup(orig, p)) <==> forall c :: c in ran ==> !Retires(c)
  {
    if c :| c in ran && Retires(c) {
      var p := Target(c);
      assert Mover(p) == c;
      assert Lookup(files, p) != Lookup(orig, p);
    }
    forall p | Generated(p) && forall c :: c in ran ==> !Retires(c)
      ensures Lookup(files, p) == Lookup(orig, p)
    {
      assert Mover(p) !in ran;
    }
  }

  // --- The launchers of a run -----------------------------------------------

  // The launchers that were there, but for those already named.
  ghost predicate LaunchersLeft(files: Files, orig: Files, named: seq<string>) {
    forall n :: Launcher(n) in files <==> Launcher(n) in orig && n !in named
  }

  lemma {:induction false} LaunchersThere(files: Files, orig: Files)
    requires forall p :: Generated(p) ==> Lookup(files, p) == Lookup(orig, p)
    ensures LaunchersLeft(files, orig, [])
  {
    forall n ensures Launcher(n) in files <==> Launcher(n) in orig {
      assert Lookup(files, Launcher(n)) == Lookup(orig, Launcher(n));
    }
  }

  lemma {:induction false} LaunchersLeftStep(before: Files, after: Files, orig: Files, names: seq<string>, i: nat)
    requires i < |names| && LaunchersLeft(before, orig, names[..i]) && Launcher(names[i]) !in after
    requires forall p: Spot :: p != Launcher(names[i]) && !p.Retired? ==> Lookup(after, p) == Lookup(before, p)
    ensures LaunchersLeft(after, orig, names[..i + 1])
  {
    forall m ensures Launcher(m) in after <==> Launcher(m) in orig && m !in names[..i + 1] {
      assert names[..i + 1] == names[..i] + [names[i]];
      if m != names[i] { assert Lookup(after, Launcher(m)) == Lookup(before, Launcher(m)); }
    }
  }

  lemma {:induction false} LauncherCommandsStep(names: seq<string>, i: nat, orig: Files, rest: seq<Command>)
    requires i < |names|
    ensures var move := if Launcher(names[i]) in orig && names[i] !in names[..i] then [MoveLauncher(names[i])] else [];
            LauncherCommands(names, i, orig) + rest
            == [CheckLauncher(names[i])] + (move + (LauncherCommands(names, i + 1, orig) + rest))
  {
    var check, later := [CheckLauncher(names[i])], LauncherCommands(names, i + 1, orig);
    var move := if Launcher(names[i]) in orig && names[i] !in names[..i] then [MoveLauncher(names[i])] else [];
    assert LauncherCommands(names, i, orig) == check + move + later;
    hide LauncherCommands;
    assert (check + move + later) + rest == check + (move + (later + rest));
  }

  lemma {:induction false} LauncherCommandsEnd(names: seq<string>, orig: Files, rest: seq<Command>)
    ensures LauncherCommands(names, |names|, orig) + rest == rest
  {
  }

  // --- The script -----------------------------------------------------------

  class Removal {
    var files: Files
    var links: Links
    ghost var ran: seq<Command>
    const job: Job
    const fails: Command -> bool

    constructor (files: Files, links: Links, job: Job, fails: Command -> bool)
      ensures this.files == files && this.links == links && this.job == job && this.fails == fails && ran == []
    {
      this.files := files;
      this.links := links;
      this.job := job;
      this.fails := fails;
      ran := [];
    }

    ghost predicate Valid(s: Start)
      reads this
    {
      && s.job == job && s.fails == fails && AppInfo in s.files && StateFile in s.files
      && Moved(files, s.files, ran) && links == LinksAfter(s, ran)
    }

    // A command that changes no file.
    method Run(c: Command, ghost rest: seq<Command>, ghost s: Start) returns (ok: bool)
      requires Valid(s) && Running(s, ran, [c] + rest)
      requires !Retires(c) && !c.CheckLauncher? && !c.RestoreLaunch? && !c.RestoreCloud?
      modifies this`ran
      ensures Valid(s) && if ok then Running(s, ran, rest) else Halted(s, ran)
    {
      hide Moved, Running, Halted;
      RunStep(s, ran, c, rest);
      ok := !fails(c);
      if ok {
        MovedBeside(files, files, s.files, ran, c);
        ran := ran + [c];
      }
    }

    // A command that writes the copy or the backup of the image.
    method Write(
      p: Spot, contents: Option<Bytes>, linked: Links, c: Command, ghost rest: seq<Command>, ghost s: Start)
      returns (ok: bool)
      requires Valid(s) && Running(s, ran, [c] + rest)
      requires p in {AppInfoTmp, AppInfoBackup} && !Retires(c)
      requires Stops(s, c) <==> fails(c) || contents.None?
      requires contents.Some? ==> linked == LinksAfter(s, ran + [c])
      modifies this`ran, this`files, this`links
      ensures Valid(s) && if ok then Running(s, ran, rest) else Halted(s, ran)
      ensures ok ==> contents.Some? && files == old(files)[p := contents.value] && ran == old(ran) + [c]
      ensures !ok ==> files == old(files)
      ensures links == if ok then linked else old(links)
    {
      hide Moved, Running, Halted, Stops, LinksAfter;
      RunStep(s, ran, c, rest);
      ok := !fails(c) && contents.Some?;
      if ok {
        MovedBeside(files, files[p := contents.value], s.files, ran, c);
        files := files[p := contents.value];
        links := linked;
        ran := ran + [c];
      }
    }

    // `mv` of one generated file out of the way, when it is there.
    method Retire(p: Spot, ghost rest: seq<Command>, ghost s: Start) returns (ok: bool)
      requires Valid(s) && Generated(p)
      requires Running(s, ran, (if p in files then [Mover(p)] else []) + rest)
      modifies this`ran, this`files
      ensures Valid(s) && if ok then Running(s, ran, rest) else Halted(s, ran)
      ensures ok ==> p !in files
      ensures forall q: Spot :: q != p && !q.Retired? ==> Lookup(files, q) == Lookup(old(files), q)
    {
      hide Moved, Running, Halted;
      ok := true;
      if p in files {
        RunStep(s, ran, Mover(p), rest);
        ok := !fails(Mover(p));
        if ok {
          MovedOne(files, s.files, ran, p);
          files := (files - {p})[Retired(p) := files[p]];
          ran := ran + [Mover(p)];
        }
      } else {
        assert [] + rest == rest;
      }
    }

    // The backup and the copy, before the trap is set.
    method CopyImages(ghost rest: seq<Command>, ghost s: Start) returns (ok: bool)
      requires Valid(s) && Running(s, ran, [BackupImage, ProtectBackup, CopyImage] + rest) && files == s.files
                 && links == s.links
      modifies this`ran, this`files, this`links
      ensures Valid(s) && if ok then Running(s, ran, rest) else Halted(s, ran)
      ensures links == s.links
      ensures ok ==> files == s.files[AppInfoBackup := s.files[AppInfo]][AppInfoTmp := s.files[AppInfo]]
      ensures !ok ==> forall p :: p != AppInfoBackup ==> Lookup(files, p) == Lookup(s.files, p)
    {
      hide Moved, Running, Halted, Restored, LinksAfter;
      LinksKept(s, ran, BackupImage);
      assert [BackupImage, ProtectBackup, CopyImage] + rest == [BackupImage] + ([ProtectBackup, CopyImage] + rest);
      assert [ProtectBackup, CopyImage] + rest == [ProtectBackup] + ([CopyImage] + rest);
      ok := Write(AppInfoBackup, Some(files[AppInfo]), links, BackupImage, [ProtectBackup, CopyImage] + rest, s);
      if !ok { return; }
      ok := Run(ProtectBackup, [CopyImage] + rest, s);
      if !ok { return; }
      LinksKept(s, ran, CopyImage);
      ok := Write(AppInfoTmp, Some(files[AppInfo]), links, CopyImage, rest, s);
    }

    // Both tools, on the copy.
    method RestoreCopy(ghost rest: seq<Command>, ghost s: Start) returns (ok: bool)
      requires Valid(s) && links == s.links && Running(s, ran, RestoreCommands(s.files) + rest)
      requires Lookup(files, AppInfoTmp) == Lookup(s.files, AppInfo)
      requires forall p :: p in {StateFile, CloudFile} ==> Lookup(files, p) == Lookup(s.files, p)
      modifies this`ran, this`files, this`links
      ensures Valid(s) && if ok then Running(s, ran, rest) else Halted(s, ran)
      ensures ok ==>
                && Restored(job, s.files, s.links).Some?
                && Lookup(files, AppInfoTmp) == Some(Restored(job, s.files, s.links).value.0)
                && links == Restored(job, s.files, s.links).value.1
      ensures forall p :: p != AppInfoTmp ==> Lookup(files, p) == Lookup(old(files), p)
    {
      hide Moved, Running, Halted;
      assert Lookup(files, StateFile) == Lookup(s.files, StateFile);
      assert Lookup(files, CloudFile) == Lookup(s.files, CloudFile);
      ghost var cloud := if CloudFile in s.files then [RestoreCloud] else [];
      assert RestoreCommands(s.files) + rest == [RestoreLaunch] + (cloud + rest);
      var image := job.restore(files[AppInfoTmp], files[StateFile]);
      ok := Write(AppInfoTmp, image, links, RestoreLaunch, cloud + rest, s);
      if !ok { return; }
      if CloudFile in files {
        var restored := job.cloudRestore(files[AppInfoTmp], files[CloudFile], links);
        var cleared := if restored.Some? then Some(restored.value.0) else None;
        ok := Write(AppInfoTmp, cleared, if restored.Some? then restored.value.1 else links, RestoreCloud, rest, s);
      } else {
        assert cloud + rest == rest;
      }
    }

    // The copy becomes the image, and the launchers of the state are listed.
    method SwapIn(ghost rest: seq<Command>, ghost s: Start) returns (ok: bool)
      requires Valid(s) && Running(s, ran, [SwapImage, ListLaunchers] + rest) && AppInfoTmp in files
      modifies this`ran, this`files
      ensures Valid(s) && if ok then Running(s, ran, rest) else Halted(s, ran)
      ensures ok ==> Lookup(files, AppInfo) == Lookup(old(files), AppInfoTmp)
      ensures forall p :: p !in {AppInfo, AppInfoTmp} ==> Lookup(files, p) == Lookup(old(files), p)
      ensures AppInfo in old(files) ==> AppInfo in files
      ensures ok ==> AppInfoTmp !in files
    {
      hide Moved, Running, Halted;
      assert [SwapImage, ListLaunchers] + rest == [SwapImage] + ([ListLaunchers] + rest);
      RunStep(s, ran, SwapImage, [ListLaunchers] + rest);
      ok := !fails(SwapImage);
      if !ok { return; }
      ghost var swapped := (files - {AppInfoTmp})[AppInfo := files[AppInfoTmp]];
      MovedBeside(files, swapped, s.files, ran, SwapImage);
      files := (files - {AppInfoTmp})[AppInfo := files[AppInfoTmp]];
      ran := ran + [SwapImage];
      ok := Run(ListLaunchers, rest, s);
    }

    // A launcher outside the launcher directory stops the script.
    method Check(n: string, ghost rest: seq<Command>, ghost s: Start) returns (ok: bool)
      requires Valid(s) && Running(s, ran, [CheckLauncher(n)] + rest)
      modifies this`ran
      ensures Valid(s) && if ok then Running(s, ran, rest) else Halted(s, ran)
    {
      hide Moved, Running, Halted;
      RunStep(s, ran, CheckLauncher(n), rest);
      ok := !job.outside(n);
      if ok {
        MovedBeside(files, files, s.files, ran, CheckLauncher(n));
        ran := ran + [CheckLauncher(n)];
      }
    }

    // Every launcher the state names is checked and moved.
    method RetireLaunchers(names: seq<string>, ghost rest: seq<Command>, ghost s: Start) returns (ok: bool)
      requires Valid(s) && Running(s, ran, LauncherCommands(names, 0, s.files) + rest)
      requires forall p :: Generated(p) ==> Lookup(files, p) == Lookup(s.files, p)
      modifies this`ran, this`files
      ensures Valid(s) && if ok then Running(s, ran, rest) else Halted(s, ran)
      ensures ok ==> forall n :: n in names ==> Launcher(n) !in files
      ensures forall p: Spot :: !p.Launcher? && !p.Retired? ==> Lookup(files, p) == Lookup(old(files), p)
    {
      hide Moved, Running, Halted, LauncherCommands;
      LaunchersThere(files, s.files);
      var i := 0;
      while i < |names|
        invariant 0 <= i <= |names| && Valid(s) && Running(s, ran, LauncherCommands(names, i, s.files) + rest)
        invariant LaunchersLeft(files, s.files, names[..i])
        invariant forall p: Spot :: !p.Launcher? && !p.Retired? ==> Lookup(files, p) == Lookup(old(files), p)
      {
        var n := names[i];
        ghost var later := LauncherCommands(names, i + 1, s.files) + rest;
        ghost var move := if Launcher(n) in files then [MoveLauncher(n)] else [];
        LauncherCommandsStep(names, i, s.files, rest);
        ok := Check(n, move + later, s);
        if !ok { return; }
        ghost var before := files;
        ok := Retire(Launcher(n), later, s);
        if !ok { return; }
        LaunchersLeftStep(before, files, s.files, names, i);
        i := i + 1;
      }
      LauncherCommandsEnd(names, s.files, rest);
      assert names[..i] == names;
      ok := true;
    }

    // Config, launch state and Cloud state go, in this order.
    method RetireStates(ghost s: Start) returns (ok: bool)
      requires Valid(s) && Running(s, ran, LastCommands(s.files))
      requires forall p :: p in {Config, StateFile, CloudFile} ==> Lookup(files, p) == Lookup(s.files, p)
      modifies this`ran, this`files
      ensures Valid(s) && if ok then Running(s, ran, []) else Halted(s, ran)
      ensures ok ==> Config !in files && StateFile !in files && CloudFile !in files
      ensures forall p: Spot :: p !in {Config, StateFile, CloudFile} && !p.Retired? ==>
                Lookup(files, p) == Lookup(old(files), p)
    {
      hide Moved, Running, Halted;
      assert Lookup(files, Config) == Lookup(s.files, Config);
      assert Lookup(files, StateFile) == Lookup(s.files, StateFile);
      assert Lookup(files, CloudFile) == Lookup(s.files, CloudFile);
      ghost var config := if Config in files then [MoveConfig] else [];
      ghost var cloud := if CloudFile in files then [MoveCloudState] else [];
      assert LastCommands(s.files) == [UnlinkList] + (config + ([MoveState] + cloud));
      ok := Run(UnlinkList, config + ([MoveState] + cloud), s);
      if !ok { return; }
      ok := Retire(Config, [MoveState] + cloud, s);
      if !ok { return; }
      ghost var first := files;
      assert Lookup(first, StateFile) == Lookup(s.files, StateFile);
      ok := Retire(StateFile, cloud, s);
      if !ok { return; }
      ghost var second := files;
      assert Lookup(second, CloudFile) == Lookup(first, CloudFile) && Lookup(second, Config) == Lookup(first, Config);
      assert cloud + [] == cloud;
      ok := Retire(CloudFile, [], s);
      assert Lookup(files, StateFile) == Lookup(second, StateFile) && Lookup(files, Config) == Lookup(second, Config);
    }

    // Launchers, config, launch state and Cloud state.
    method RetireAll(names: seq<string>, ghost s: Start) returns (ok: bool)
      requires Valid(s) && Running(s, ran, LauncherCommands(names, 0, s.files) + LastCommands(s.files))
      requires forall p :: Generated(p) ==> Lookup(files, p) == Lookup(s.files, p)
      modifies this`ran, this`files
      ensures Valid(s) && if ok then Running(s, ran, []) else Halted(s, ran)
      ensures ok ==> Config !in files && StateFile !in files && CloudFile !in files
      ensures ok ==> forall n :: n in names ==> Launcher(n) !in files
      ensures forall p :: p in {AppInfo, AppInfoTmp, AppInfoBackup} ==> Lookup(files, p) == Lookup(old(files), p)
    {
      hide Moved, Running, Halted, LauncherCommands;
      ok := RetireLaunchers(names, LastCommands(s.files), s);
      ghost var first := files;
      assert forall p :: p in {AppInfo, AppInfoTmp, AppInfoBackup, Config, StateFile, CloudFile} ==>
          Lookup(first, p) == Lookup(old(files), p);
      if !ok { return; }
      ok := RetireStates(s);
      forall n | n in names ensures Launcher(n) !in files {
        assert Lookup(files, Launcher(n)) == Lookup(first, Launcher(n));
      }
    }

    // Both tools on the copy, and the swap.
    method SwapRestored(ghost rest: seq<Command>, ghost s: Start) returns (ok: bool)
      requires Valid(s) && Running(s, ran, RestoreCommands(s.files) + ([SwapImage, ListLaunchers] + rest))
      requires links == s.links && Lookup(files, AppInfoTmp) == Lookup(s.files, AppInfo) == Lookup(files, AppInfo)
      requires forall p :: Generated(p) ==> Lookup(files, p) == Lookup(s.files, p)
      modifies this`ran, this`files, this`links
      ensures Valid(s) && if ok then Running(s, ran, rest) else Halted(s, ran)
      ensures ok ==>
                && Restored(job, s.files, s.links).Some?
                && Lookup(files, AppInfo) == Some(Restored(job, s.files, s.links).value.0)
                && links == Restored(job, s.files, s.links).value.1
      ensures AppInfo in files && forall p :: p !in {AppInfo, AppInfoTmp} ==> Lookup(files, p) == Lookup(old(files), p)
      ensures ok ==> AppInfoTmp !in files
    {
      hide Moved, Running, Halted, RestoreCommands, Restored;
      ok := RestoreCopy([SwapImage, ListLaunchers] + rest, s);
      ghost var copied := files;
      assert Lookup(copied, AppInfo) == Lookup(s.files, AppInfo);
      if !ok { return; }
      ok := SwapIn(rest, s);
    }

    // What the trap does.
    method Rollback()
      modifies this`files
      ensures Lookup(files, AppInfo)
           == if AppInfoBackup in old(files) then Lookup(old(files), AppInfoBackup) else Lookup(old(files), AppInfo)
      ensures AppInfoTmp !in files
      ensures forall p :: p !in {AppInfo, AppInfoTmp} ==> Lookup(files, p) == Lookup(old(files), p)
    {
      files := files - {AppInfoTmp};
      if AppInfoBackup in files {
        files := files[AppInfo := files[AppInfoBackup]];
      }
    }

    // From the trap on: a failure puts the image back from its backup.
    method RemoveCopied(ghost s: Start) returns (ok: bool)
      requires Valid(s) && Running(s, ran, RestoreCommands(s.files) + ([SwapImage, ListLaunchers]
                 + (LauncherCommands(s.job.launchers(s.files[StateFile]), 0, s.files) + LastCommands(s.files))))
      requires links == s.links && files == s.files[AppInfoBackup := s.files[AppInfo]][AppInfoTmp := s.files[AppInfo]]
      modifies this`ran, this`files, this`links
      ensures Valid(s) && if ok then Running(s, ran, []) else Halted(s, ran)
      ensures ok ==>
                && Restored(job, s.files, s.links).Some?
                && Lookup(files, AppInfo) == Some(Restored(job, s.files, s.links).value.0)
                && links == Restored(job, s.files, s.links).value.1
                && Config !in files && StateFile !in files && CloudFile !in files
                && forall n :: n in job.launchers(s.files[StateFile]) ==> Launcher(n) !in files
      ensures !ok ==> Lookup(files, AppInfo) == Lookup(s.files, AppInfo)
      ensures AppInfoTmp !in files
    {
      hide Running, Halted, RestoreCommands, LauncherCommands, LastCommands, Restored, Moved;
      var names := job.launchers(files[StateFile]);
      ok := SwapRestored(LauncherCommands(names, 0, s.files) + LastCommands(s.files), s);
      ghost var swapped := files;
      assert Lookup(swapped, AppInfoBackup) == Lookup(s.files, AppInfo);
      NotThere(swapped, AppInfoTmp);
      if ok {
        ok := RetireAll(names, s);
        NotThere(files, AppInfoTmp);
        assert Lookup(files, AppInfoBackup) == Lookup(swapped, AppInfoBackup);
      }
      if !ok {
        ghost var failed := files;
        Rollback();
        MovedBack(failed, files, s.files, ran);
      }
    }

    // The script. Exactly the commands before the first failure run; what they
    // retire is retired and every other generated file is in place. A failed
    // removal leaves the image as it was. It loses the launch state exactly
    // when the Cloud state is the one thing that could not be moved, and leaves
    // all generated files alone exactly when it stopped before the first move.
    method Remove() returns (ok: bool)
      requires AppInfo in files && StateFile in files && ran == []
      requires forall p :: p in files ==> p.AppInfo? || Generated(p)
      modifies this`ran, this`files, this`links
      ensures var s := Start(job, old(files), old(links), fails);
              && Moved(files, old(files), Ran(s, Script(job, old(files))))
              && links == LinksAfter(s, Ran(s, Script(job, old(files))))
              && (ok <==> FirstFailure(s).None?)
              && (!ok ==> (StateFile !in files <==> FirstFailure(s) == Some(MoveCloudState)))
              && (!ok ==> ((forall p :: Generated(p) ==> Lookup(files, p) == Lookup(old(files), p))
                           <==> forall c :: c in Ran(s, Script(job, old(files))) ==> !Retires(c)))
      ensures ok ==>
                && Restored(job, old(files), old(links)).Some?
                && Lookup(files, AppInfo) == Some(Restored(job, old(files), old(links)).value.0)
                && links == Restored(job, old(files), old(links)).value.1
                && Config !in files && StateFile !in files && CloudFile !in files
                && forall n :: n in job.launchers(old(files)[StateFile]) ==> Launcher(n) !in files
      ensures !ok ==> Lookup(files, AppInfo) == Lookup(old(files), AppInfo)
      ensures AppInfoTmp !in files
    {
      hide Running, Halted, RestoreCommands, LauncherCommands, LastCommands, Restored, Moved, Ran, FirstFailure,
        Script;
      ghost var s := Start(job, files, links, fails);
      MovedSelf(files);
      RunStart(s);
      ok := CopyImages(RestoreCommands(s.files) + ([SwapImage, ListLaunchers]
        + (LauncherCommands(s.job.launchers(s.files[StateFile]), 0, s.files) + LastCommands(s.files))), s);
      if ok {
        ok := RemoveCopied(s);
      } else {
        assert Lookup(files, AppInfo) == Lookup(s.files, AppInfo);
        assert Lookup(files, AppInfoTmp) == Lookup(s.files, AppInfoTmp);
      }
      WhereItStops(s, ran, ok);
      StateOut(s, files, ran);
      NothingMoved(files, s.files, ran);
    }
  }

  // In the caller's terms: the launch state is lost if and only if there is a
  // Cloud state and its move is the only command that stops the script.
  lemma {:induction false} StateLostExactly(s: Start)
    requires AppInfo in s.files && StateFile in s.files
    ensures FirstFailure(s) == Some(MoveCloudState) <==>
              && CloudFile in s.files && s.fails(MoveCloudState)
              && forall c :: c in Script(s.job, s.files) && c != MoveCloudState ==> !Stops(s, c)
  {
    hide Ran, Script, BeforeState;
    var script, front := Script(s.job, s.files), BeforeState(s.job, s.files);
    var ran := Ran(s, script);
    StateMovedLast(s.job, s.files);
    RanNoStop(s, script);
    if FirstFailure(s) == Some(MoveCloudState) {
      assert MoveCloudState in script;
      assert |ran| == |script| - 1;
      assert script == ran + [MoveCloudState];
    } else if CloudFile in s.files && s.fails(MoveCloudState) {
      assert MoveCloudState in script && Stops(s, MoveCloudState);
      assert script[|ran|] in script;
    }
  }

  lemma {:induction false} LauncherTests(names: seq<string>, i: nat, files: Files, name: string)
    requires i <= |names|
    ensures CheckLauncher(name) in LauncherCommands(names, i, files) <==> name in names[i..]
    decreases |names| - i
  {
    if i < |names| {
      LauncherTests(names, i + 1, files, name);
      assert names[i..] == [names[i]] + names[i + 1..];
    } else {
      assert names[i..] == [];
    }
  }

  lemma {:induction false} ScriptTests(s: Start, name: string)
    requires AppInfo in s.files && StateFile in s.files
    ensures CheckLauncher(name) in Script(s.job, s.files) <==> name in s.job.launchers(s.files[StateFile])
  {
    hide LauncherCommands;
    var names := s.job.launchers(s.files[StateFile]);
    LauncherTests(names, 0, s.files, name);
    assert names[0..] == names;
  }

  // In the caller's terms: a removal succeeds if and only if the tools accept the
  // image, no recorded launcher lies outside the launcher directory, and no
  // command of the script fails.
  lemma {:induction false} SucceedsExactly(s: Start)
    requires AppInfo in s.files && StateFile in s.files
    ensures FirstFailure(s).None? <==>
              && Restored(s.job, s.files, s.links).Some?
              && (forall name :: name in s.job.launchers(s.files[StateFile]) ==> !s.job.outside(name))
              && forall c :: c in Script(s.job, s.files) && !c.CheckLauncher? ==> !s.fails(c)
  {
    hide Ran, Script, Restored;
    var script := Script(s.job, s.files);
    RanNoStop(s, script);
    RestoresRun(s);
    if FirstFailure(s).None? {
      assert Ran(s, script) == script;
      forall name | name in s.job.launchers(s.files[StateFile]) ensures !s.job.outside(name) {
        ScriptTests(s, name);
        assert !Stops(s, CheckLauncher(name));
      }
    }
    if && Restored(s.job, s.files, s.links).Some?
       && (forall name :: name in s.job.launchers(s.files[StateFile]) ==> !s.job.outside(name))
       && forall c :: c in script && !c.CheckLauncher? ==> !s.fails(c) {
      forall c | c in script ensures !Stops(s, c) {
        if c.CheckLauncher? { ScriptTests(s, c.name); }
      }
    }
  }

  lemma {:induction false} RestoresRun(s: Start)
    requires AppInfo in s.files && StateFile in s.files
    ensures RestoreLaunch in Script(s.job, s.files)
    ensures CloudFile in s.files ==> RestoreCloud in Script(s.job, s.files)
    ensures Restored(s.job, s.files, s.links).Some? ==> s.job.restore(s.files[AppInfo], s.files[StateFile]).Some?
    ensures CloudFile !in s.files && s.job.restore(s.files[AppInfo], s.files[StateFile]).Some? ==>
              Restored(s.job, s.files, s.links).Some?
  {
    hide LauncherCommands;
  }

  lemma {:induction false} OnlyLastFails(s: Start)
    requires AppInfo in s.files && StateFile in s.files && CloudFile in s.files
               && Restored(s.job, s.files, s.links).Some?
    requires (forall c :: s.fails(c) <==> c == MoveCloudState) && forall n :: !s.job.outside(n)
    ensures FirstFailure(s) == Some(MoveCloudState)
  {
    hide FirstFailure, Script;
    forall c | c in Script(s.job, s.files) && c != MoveCloudState ensures !Stops(s, c) { }
    StateLostExactly(s);
  }

  lemma {:induction false} MovedAway(files: Files, orig: Files, ran: seq<Command>, p: Spot)
    requires Moved(files, orig, ran) && Generated(p) && p in orig && p !in files
    ensures Lookup(files, Retired(p)) == Lookup(orig, p)
  {
  }

  // Such a run: the last move fails, the image comes back with its mapping, and
  // the state that could undo the mapping is out of place.
  method LoseState(appinfo: Bytes, state: Bytes, cloudState: Bytes, native: Bytes) returns (ok: bool, after: Files)
    ensures !ok && Lookup(after, AppInfo) == Some(appinfo)
    ensures StateFile !in after && Lookup(after, Retired(StateFile)) == Some(state)
  {
    hide FirstFailure, Script, Ran, Moved;
    var job := Job((_, _) => Some(native), (_, _, links) => Some((native, links)), _ => [], _ => false);
    var files := map[AppInfo := appinfo, StateFile := state, CloudFile := cloudState];
    var removal := new Removal(files, map[], job, (c: Command) => c.MoveCloudState?);
    ghost var s := Start(job, files, map[], removal.fails);
    OnlyLastFails(s);
    ok := removal.Remove();
    after := removal.files;
    MovedAway(after, files, Ran(s, Script(job, files)), StateFile);
  }
}
