// What an installation is to do: its commands in order, the files it is to
// leave, and the command at which it stops.
module InstallPlan {
  import opened Wrappers
  import opened Words
  import Cloud

  type Links = Cloud.Links

  datatype Place =
    | AppInfo | AppInfoTmp | AppInfoBackup
    | Config | ConfigTmp | ConfigBackup
    | StateFile | StateTmp | StateBackup
    | CloudFile | CloudTmp | CloudBackup
    | Launcher(name: string) | LauncherTmp(name: string) | LauncherBackup(name: string)
    | Specs
    | Client | ClientTmp

  type Files = map<Place, Bytes>

  // The commands of the script in order, with the tests that may stop it.
  datatype Step =
    | BackupImage | ProtectBackup | CopyImage | RestoreLaunch | RestoreCloud
    | StartPlan | ListEntries | CheckEntries
    | CheckLauncher(name: string) | WriteLauncher(name: string) | ProtectLauncher(name: string)
    | PlanLauncher(name: string)
    | WriteConfig | PatchImage | WriteState | InstallCloud
    | SwapImage | SetAside(place: Place) | LogLauncher(name: string) | SetAsideLauncher(name: string) | CommitPlan
    | PlaceConfig | PlaceLauncher(name: string) | PlaceState | PlaceCloudState
    | PlaceClient
    | RemoveSpecs | RemovePlan

  datatype Phase = Copying | Preparing | Swapping | PlacingClient | CleaningUp

  function PhaseOf(step: Step): Phase {
    match step
    case BackupImage | ProtectBackup | CopyImage | RestoreLaunch | RestoreCloud => Copying
    case SwapImage | SetAside(_) | LogLauncher(_) | SetAsideLauncher(_) | CommitPlan => Swapping
    case PlaceConfig | PlaceLauncher(_) | PlaceState | PlaceCloudState => Swapping
    case PlaceClient => PlacingClient
    case RemoveSpecs | RemovePlan => CleaningUp
    case _ => Preparing
  }

  // The command line and the tools the script runs on the temporary image.
  datatype Job = Job(
    cloud: bool,
    client: bool,
    force: bool,
    restore: (Bytes, Bytes) -> Option<Bytes>,
    cloudRestore: (Bytes, Bytes, Links) -> Option<(Bytes, Links)>,
    names: Bytes -> seq<string>,
    launcher: string -> Bytes,
    config: Bytes,
    patch: Bytes -> Option<(Bytes, Bytes)>,
    cloudInstall: (Bytes, Links) -> Option<(Bytes, Bytes, Links)>)

  predicate Temporary(p: Place) {
    p.AppInfoTmp? || p.ConfigTmp? || p.StateTmp? || p.CloudTmp? || p.LauncherTmp? || p.Specs? || p.ClientTmp?
  }

  predicate Backup(p: Place) {
    p.ConfigBackup? || p.StateBackup? || p.CloudBackup? || p.LauncherBackup?
  }

  // The files a user keeps.
  predicate Lasting(p: Place) {
    p.AppInfo? || p.Config? || p.StateFile? || p.CloudFile? || p.Launcher? || p.Client?
  }

  // What a successful install leaves.
  datatype Outcome = Outcome(
    appinfo: Bytes, names: seq<string>, state: Bytes, cloudState: Option<Bytes>, links: Links)

  // The copy of the image, without the launch mapping it may hold.
  function WithoutLaunches(job: Job, orig: Files): Option<Bytes>
    requires AppInfo in orig
  {
    if StateFile in orig then job.restore(orig[AppInfo], orig[StateFile]) else Some(orig[AppInfo])
  }

  // And without the Cloud mapping, whose links go.
  function CopiedImage(job: Job, orig: Files, links: Links): Option<(Bytes, Links)>
    requires AppInfo in orig
  {
    var image := WithoutLaunches(job, orig);
    if image.None? then None
    else if !job.cloud || CloudFile !in orig then Some((image.value, links))
    else job.cloudRestore(image.value, orig[CloudFile], links)
  }

  // The edited copy, the state files that record the edits, and the links.
  function EditedImage(job: Job, image: Bytes, links: Links): Option<(Bytes, Bytes, Option<Bytes>, Links)> {
    match job.patch(image)
    case None => None
    case Some((patched, state)) =>
      if !job.cloud then Some((patched, state, None, links))
      else match job.cloudInstall(patched, links)
        case None => None
        case Some((clouded, cloudState, links')) => Some((clouded, state, Some(cloudState), links'))
  }

  // The tools run one after another.
  function Planned(job: Job, orig: Files, links: Links): Option<Outcome>
    requires AppInfo in orig
  {
    match CopiedImage(job, orig, links)
    case None => None
    case Some((image, copied)) =>
      if job.names(image) == [] then None
      else match EditedImage(job, image, copied)
        case None => None
        case Some((edited, state, cloudState, links')) =>
          Some(Outcome(edited, job.names(image), state, cloudState, links'))
  }

  // The links a failed install leaves: what an earlier mapping owned is gone
  // once the copy was made, and what the new one added goes as long as the
  // staged Cloud state is there to say so.
  function LinksLeft(job: Job, orig: Files, links: Links, failed: Step): Links
    requires AppInfo in orig
  {
    if PhaseOf(failed).Copying? || CopiedImage(job, orig, links).None? then links
    else if PhaseOf(failed).Preparing? || Planned(job, orig, links).None? then CopiedImage(job, orig, links).value.1
    else
      var out := Planned(job, orig, links).value;
      if PhaseOf(failed).Swapping?
          && out.cloudState.Some? then Unlinked(job, out.appinfo, out.cloudState.value, out.links)
      else out.links
  }

  // The links after a Cloud restore, which changes nothing when it fails.
  function Unlinked(job: Job, image: Bytes, cloudState: Bytes, links: Links): Links {
    match job.cloudRestore(image, cloudState, links)
    case Some((_, links')) => links'
    case None => links
  }

  // The lasting files after a successful install.
  ghost predicate Committed(job: Job, files: Files, orig: Files, out: Outcome) {
    && Lookup(files, AppInfo) == Some(out.appinfo)
    && Lookup(files, Config) == Some(job.config)
    && Lookup(files, StateFile) == Some(out.state)
    && Lookup(files, CloudFile) == (if job.cloud then out.cloudState else Lookup(orig, CloudFile))
    && (forall i :: 0 <= i < |out.names| ==> Lookup(files, Launcher(out.names[i])) == Some(job.launcher(out.names[i])))
    && (forall n :: n !in out.names ==> Lookup(files, Launcher(n)) == Lookup(orig, Launcher(n)))
  }

  // --- The commands of a run ------------------------------------------------

  // What an installation starts from, and which commands would fail.
  datatype Start = Start(job: Job, files: Files, links: Links, fails: Step -> bool)

  function Copied(s: Start): Option<(Bytes, Links)> {
    if AppInfo in s.files then CopiedImage(s.job, s.files, s.links) else None
  }

  // The launchers the script is to make.
  function EntryNames(s: Start): seq<string> {
    match Copied(s)
    case Some((image, _)) => s.job.names(image)
    case None => []
  }

  // A command stops the script when it fails itself or its tool refuses; the
  // tests for entries and for launchers that are there cannot fail otherwise.
  predicate Stops(s: Start, c: Step) {
    match c
    case CheckEntries => EntryNames(s) == []
    case CheckLauncher(name) => !s.job.force && Launcher(name) in s.files
    case RestoreLaunch =>
      || s.fails(c)
      || (AppInfo in s.files && StateFile in s.files && s.job.restore(s.files[AppInfo], s.files[StateFile]).None?)
    case RestoreCloud => s.fails(c) || Copied(s).None?
    case PatchImage => s.fails(c) || (Copied(s).Some? && s.job.patch(Copied(s).value.0).None?)
    case InstallCloud =>
      s.fails(c) || (Copied(s).Some? && EditedImage(s.job, Copied(s).value.0, Copied(s).value.1).None?)
    case _ => s.fails(c)
  }

  // The first of these steps that stops the script.
  function FirstStop(s: Start, steps: seq<Step>): (r: Option<Step>)
    ensures r.Some? ==> r.value in steps && Stops(s, r.value)
    ensures r.None? ==> forall c :: c in steps ==> !Stops(s, c)
  {
    if steps == [] then None else if Stops(s, steps[0]) then Some(steps[0]) else FirstStop(s, steps[1..])
  }

  lemma {:induction false} FirstStopThen(s: Start, first: seq<Step>, second: seq<Step>)
    ensures FirstStop(s, first + second)
         == if FirstStop(s, first).Some? then FirstStop(s, first) else FirstStop(s, second)
    decreases first
  {
    hide Stops;
    if first == [] {
      assert [] + second == second;
    } else {
      assert (first + second)[1..] == first[1..] + second;
      FirstStopThen(s, first[1..], second);
    }
  }

  lemma {:induction false} FirstStopOne(s: Start, c: Step)
    ensures FirstStop(s, [c]) == if Stops(s, c) then Some(c) else None
  {
    hide Stops;
    assert [c][1..] == [];
  }

  function LaunchStep(files: Files): seq<Step> {
    if StateFile in files then [RestoreLaunch] else []
  }

  function OverridesStep(job: Job, files: Files): seq<Step> {
    if job.cloud && CloudFile in files then [RestoreCloud] else []
  }

  function RestoreSteps(job: Job, files: Files): seq<Step> {
    LaunchStep(files) + OverridesStep(job, files)
  }

  function CopySteps(job: Job, files: Files): seq<Step> {
    ([BackupImage] + ([ProtectBackup] + [CopyImage])) + RestoreSteps(job, files)
  }

  // Every launcher, from the i-th on: written, made executable, planned.
  function MakeSteps(names: seq<string>, i: nat): seq<Step>
    requires i <= |names|
    decreases |names| - i
  {
    if i == |names| then []
    else MakeOneSteps(names[i]) + MakeSteps(names, i + 1)
  }

  function MakeOneSteps(name: string): seq<Step> {
    [CheckLauncher(name)] + ([WriteLauncher(name)] + ([ProtectLauncher(name)] + [PlanLauncher(name)]))
  }

  function LauncherSteps(names: seq<string>): seq<Step> {
    ([ListEntries] + [CheckEntries]) + (MakeSteps(names, 0) + [WriteConfig])
  }

  function EditSteps(job: Job): seq<Step> {
    ([PatchImage] + [WriteState]) + (if job.cloud then [InstallCloud] else [])
  }

  function PrepareSteps(job: Job, names: seq<string>): seq<Step> {
    [StartPlan] + (LauncherSteps(names) + EditSteps(job))
  }

  function AsideStep(p: Place, there: bool): seq<Step> {
    if there then [SetAside(p)] else []
  }

  function GeneratedSteps(job: Job, files: Files): seq<Step> {
    AsideStep(Config, Config in files)
    + (AsideStep(StateFile, StateFile in files) + AsideStep(CloudFile, job.cloud && CloudFile in files))
  }

  // Every old launcher, from the i-th on: its line, and its move if it is there.
  function AsideSteps(names: seq<string>, i: nat, files: Files): seq<Step>
    requires i <= |names|
    decreases |names| - i
  {
    if i == |names| then []
    else AsideOneSteps(names[i], files) + AsideSteps(names, i + 1, files)
  }

  function AsideOneSteps(name: string, files: Files): seq<Step> {
    [LogLauncher(name)] + (if Launcher(name) in files then [SetAsideLauncher(name)] else [])
  }

  function SetAsideSteps(job: Job, files: Files, names: seq<string>): seq<Step> {
    GeneratedSteps(job, files) + (AsideSteps(names, 0, files) + [CommitPlan])
  }

  function MoveInSteps(names: seq<string>, i: nat): seq<Step>
    requires i <= |names|
    decreases |names| - i
  {
    if i == |names| then [] else [PlaceLauncher(names[i])] + MoveInSteps(names, i + 1)
  }

  function StateSteps(job: Job): seq<Step> {
    [PlaceState] + (if job.cloud then [PlaceCloudState] else [])
  }

  function PlaceSteps(job: Job, names: seq<string>): seq<Step> {
    ([PlaceConfig] + MoveInSteps(names, 0)) + StateSteps(job)
  }

  function ClientSteps(job: Job): seq<Step> {
    if job.client then [PlaceClient] else []
  }

  function CleanUpSteps(): seq<Step> {
    [RemoveSpecs] + [RemovePlan]
  }

  // The steps of the commit that a rollback undoes completely.
  function SwapSteps(job: Job, files: Files, names: seq<string>): seq<Step> {
    [SwapImage] + (SetAsideSteps(job, files, names) + PlaceSteps(job, names))
  }

  // Every command of a run in which nothing fails.
  function Script(s: Start): seq<Step> {
    CopySteps(s.job, s.files)
    + (PrepareSteps(s.job, EntryNames(s))
       + (SwapSteps(s.job, s.files, EntryNames(s)) + (ClientSteps(s.job) + CleanUpSteps())))
  }

  // The command at which the script stops, if any.
  function FirstFailure(s: Start): Option<Step> {
    FirstStop(s, Script(s))
  }

  // --- Where the parts belong -----------------------------------------------

  predicate InPhase(steps: seq<Step>, phase: Phase) {
    forall c :: c in steps ==> PhaseOf(c) == phase
  }

  lemma {:induction false} InPhaseThen(first: seq<Step>, second: seq<Step>, phase: Phase)
    requires InPhase(first, phase) && InPhase(second, phase)
    ensures InPhase(first + second, phase)
  {
    hide PhaseOf;
  }

  lemma {:induction false} MakePhase(names: seq<string>, i: nat)
    requires i <= |names|
    ensures InPhase(MakeSteps(names, i), Preparing)
    decreases |names| - i
  {
    if i < |names| {
      MakePhase(names, i + 1);
    }
  }

  lemma {:induction false} AsidePhase(names: seq<string>, i: nat, files: Files)
    requires i <= |names|
    ensures InPhase(AsideSteps(names, i, files), Swapping)
    decreases |names| - i
  {
    if i < |names| {
      AsidePhase(names, i + 1, files);
    }
  }

  lemma {:induction false} MoveInPhase(names: seq<string>, i: nat)
    requires i <= |names|
    ensures InPhase(MoveInSteps(names, i), Swapping)
    decreases |names| - i
  {
    if i < |names| {
      MoveInPhase(names, i + 1);
    }
  }

  lemma {:induction false} InPhaseOne(c: Step)
    ensures InPhase([c], PhaseOf(c))
  {
    hide PhaseOf;
  }

  lemma {:induction false} EditPhase(job: Job)
    ensures InPhase(EditSteps(job), Preparing)
  {
  }

  lemma {:induction false} PreparePhase(job: Job, names: seq<string>)
    ensures InPhase(PrepareSteps(job, names), Preparing)
  {
    hide MakeSteps, EditSteps, InPhase;
    MakePhase(names, 0);
    EditPhase(job);
    InPhaseOne(WriteConfig);
    InPhaseOne(CheckEntries);
    InPhaseOne(ListEntries);
    InPhaseOne(StartPlan);
    InPhaseThen(MakeSteps(names, 0), [WriteConfig], Preparing);
    InPhaseThen([ListEntries], [CheckEntries], Preparing);
    InPhaseThen([ListEntries] + [CheckEntries], MakeSteps(names, 0) + [WriteConfig], Preparing);
    InPhaseThen(LauncherSteps(names), EditSteps(job), Preparing);
    InPhaseThen([StartPlan], LauncherSteps(names) + EditSteps(job), Preparing);
  }

  lemma {:induction false} StatePhase(job: Job)
    ensures InPhase(StateSteps(job), Swapping)
  {
  }

  lemma {:induction false} EndPhases(job: Job)
    ensures InPhase(ClientSteps(job), PlacingClient) && InPhase(CleanUpSteps(), CleaningUp)
  {
  }

  lemma {:induction false} SwapPhase(job: Job, files: Files, names: seq<string>)
    ensures InPhase(SwapSteps(job, files, names), Swapping)
  {
    hide AsideSteps, MoveInSteps, GeneratedSteps, StateSteps, InPhase;
    InPhaseOne(CommitPlan);
    InPhaseOne(PlaceConfig);
    InPhaseOne(SwapImage);
    StatePhase(job);
    AsidePhase(names, 0, files);
    MoveInPhase(names, 0);
    GeneratedPhase(job, files);
    InPhaseThen(AsideSteps(names, 0, files), [CommitPlan], Swapping);
    InPhaseThen(GeneratedSteps(job, files), AsideSteps(names, 0, files) + [CommitPlan], Swapping);
    InPhaseThen([PlaceConfig], MoveInSteps(names, 0), Swapping);
    InPhaseThen([PlaceConfig] + MoveInSteps(names, 0), StateSteps(job), Swapping);
    InPhaseThen(SetAsideSteps(job, files, names), PlaceSteps(job, names), Swapping);
    InPhaseThen([SwapImage], SetAsideSteps(job, files, names) + PlaceSteps(job, names), Swapping);
  }

  lemma {:induction false} GeneratedPhase(job: Job, files: Files)
    ensures InPhase(GeneratedSteps(job, files), Swapping)
  {
  }

  lemma {:induction false} CopyPhase(job: Job, files: Files)
    ensures InPhase(CopySteps(job, files), Copying)
  {
  }

  // The script stops in a phase exactly when a step of it does, and none before.
  lemma {:induction false} FailureParts(s: Start)
    ensures var names := EntryNames(s);
            var copy := FirstStop(s, CopySteps(s.job, s.files));
            var prepare := FirstStop(s, PrepareSteps(s.job, names));
            var swap := FirstStop(s, SwapSteps(s.job, s.files, names));
            var client := FirstStop(s, ClientSteps(s.job));
            FirstFailure(s)
            == if copy.Some? then copy else if prepare.Some? then prepare else if swap.Some? then swap
               else if client.Some? then client else FirstStop(s, CleanUpSteps())
  {
    hide FirstStop, CopySteps, PrepareSteps, SwapSteps, ClientSteps, CleanUpSteps, EntryNames;
    var names := EntryNames(s);
    var a, b, c, d, e := CopySteps(s.job, s.files), PrepareSteps(s.job, names), SwapSteps(s.job, s.files, names),
      ClientSteps(s.job), CleanUpSteps();
    FirstStopThen(s, a, b + (c + (d + e)));
    FirstStopThen(s, b, c + (d + e));
    FirstStopThen(s, c, d + e);
    FirstStopThen(s, d, e);
  }

  // The manifest of the client has been replaced when the script stops if and
  // only if there was one to place, a clean-up command fails, and no earlier
  // command fails or refuses.
  predicate ReplacesManifest(s: Start) {
    s.job.client && FirstFailure(s).Some? && PhaseOf(FirstFailure(s).value) == CleaningUp
  }

  lemma {:induction false} ManifestReplacedExactly(s: Start)
    ensures ReplacesManifest(s) <==>
              && s.job.client && (s.fails(RemoveSpecs) || s.fails(RemovePlan))
              && forall c :: c in Script(s) && PhaseOf(c) != CleaningUp ==> !Stops(s, c)
  {
    hide Stops, CopySteps, PrepareSteps, SwapSteps, ClientSteps, EntryNames;
    var names := EntryNames(s);
    FailureParts(s);
    CopyPhase(s.job, s.files);
    PreparePhase(s.job, names);
    SwapPhase(s.job, s.files, names);
    EndPhases(s.job);
    FirstStopThen(s, [RemoveSpecs], [RemovePlan]);
    FirstStopOne(s, RemoveSpecs);
    FirstStopOne(s, RemovePlan);
    CleanUpFails(s);
    if ReplacesManifest(s) {
      forall c | c in Script(s) && PhaseOf(c) != CleaningUp ensures !Stops(s, c) {
        assert c !in CleanUpSteps();
      }
    }
  }

  lemma {:induction false} CleanUpFails(s: Start)
    ensures Stops(s, RemoveSpecs) == s.fails(RemoveSpecs) && Stops(s, RemovePlan) == s.fails(RemovePlan)
  {
  }

  // --- For the commands in order --------------------------------------------

  lemma {:induction false} NoStop(s: Start)
    ensures FirstStop(s, []) == None
  {
  }

  lemma {:induction false} StoppedCopying(s: Start)
    requires FirstStop(s, CopySteps(s.job, s.files)).Some?
    ensures FirstFailure(s) == FirstStop(s, CopySteps(s.job, s.files)) && PhaseOf(FirstFailure(s).value) == Copying
    ensures AppInfo in s.files ==> LinksLeft(s.job, s.files, s.links, FirstFailure(s).value) == s.links
  {
    hide CopySteps, PrepareSteps, SwapSteps, ClientSteps, CleanUpSteps, EntryNames, Stops, FirstFailure, PhaseOf;
    FailureParts(s);
    CopyPhase(s.job, s.files);
  }

  lemma {:induction false} StoppedPreparing(s: Start)
    requires FirstStop(s, CopySteps(s.job, s.files)).None?
    requires FirstStop(s, PrepareSteps(s.job, EntryNames(s))).Some? && Copied(s).Some?
    ensures FirstFailure(s) == FirstStop(s, PrepareSteps(s.job, EntryNames(s)))
    ensures PhaseOf(FirstFailure(s).value) == Preparing
    ensures LinksLeft(s.job, s.files, s.links, FirstFailure(s).value) == Copied(s).value.1
  {
    hide CopySteps, PrepareSteps, SwapSteps, ClientSteps, CleanUpSteps, EntryNames, Stops, FirstFailure, PhaseOf;
    FailureParts(s);
    PreparePhase(s.job, EntryNames(s));
  }

  lemma {:induction false} PlannedAs(s: Start, image: Bytes, links: Links)
    requires AppInfo in s.files && Copied(s) == Some((image, links)) && s.job.names(image) != []
    requires EditedImage(s.job, image, links).Some?
    ensures var (edited, state, cloudState, links') := EditedImage(s.job, image, links).value;
            Planned(s.job, s.files, s.links) == Some(Outcome(edited, s.job.names(image), state, cloudState, links'))
    ensures EntryNames(s) == s.job.names(image)
  {
  }

  lemma {:induction false} NamesPlanned(s: Start, out: Outcome)
    requires AppInfo in s.files && Planned(s.job, s.files, s.links) == Some(out)
    ensures EntryNames(s) == out.names
  {
  }

  // Past the preparation, the script stops where the commit does.
  lemma {:induction false} CommitFailure(s: Start)
    requires FirstStop(s, CopySteps(s.job, s.files)).None?
    requires FirstStop(s, PrepareSteps(s.job, EntryNames(s))).None?
    ensures FirstFailure(s)
         == FirstStop(s, SwapSteps(s.job, s.files, EntryNames(s)) + (ClientSteps(s.job) + CleanUpSteps()))
  {
    hide FirstStop, CopySteps, PrepareSteps, SwapSteps, ClientSteps, CleanUpSteps, EntryNames;
    var rest := SwapSteps(s.job, s.files, EntryNames(s)) + (ClientSteps(s.job) + CleanUpSteps());
    FirstStopThen(s, CopySteps(s.job, s.files), PrepareSteps(s.job, EntryNames(s)) + rest);
    FirstStopThen(s, PrepareSteps(s.job, EntryNames(s)), rest);
  }

  lemma {:induction false} ToolSteps(job: Job, names: seq<string>)
    ensures var steps := PrepareSteps(job, names);
            CheckEntries in steps && PatchImage in steps && (job.cloud ==> InstallCloud in steps)
  {
    hide MakeSteps;
    assert CheckEntries in LauncherSteps(names);
    assert PatchImage in EditSteps(job);
    if job.cloud { assert InstallCloud in EditSteps(job); }
  }

  lemma {:induction false} CopyReached(s: Start)
    requires AppInfo in s.files && FirstStop(s, CopySteps(s.job, s.files)).None?
    ensures Copied(s).Some?
  {
    hide EntryNames, FirstStop;
    if StateFile in s.files { assert !Stops(s, RestoreLaunch); }
    if s.job.cloud && CloudFile in s.files { assert !Stops(s, RestoreCloud); }
  }

  lemma {:induction false} PlanReached(s: Start)
    requires AppInfo in s.files && Copied(s).Some?
    requires !Stops(s, CheckEntries) && !Stops(s, PatchImage) && (s.job.cloud ==> !Stops(s, InstallCloud))
    ensures Planned(s.job, s.files, s.links).Some?
  {
    hide CopiedImage;
  }

  // Past the preparation, the tools have a plan.
  lemma {:induction false} ReachesPlan(s: Start)
    requires AppInfo in s.files && Copied(s).Some?
    requires FirstStop(s, PrepareSteps(s.job, EntryNames(s))).None?
    ensures Planned(s.job, s.files, s.links).Some?
  {
    hide PrepareSteps, EntryNames, Stops, Copied, Planned;
    ToolSteps(s.job, EntryNames(s));
    PlanReached(s);
  }

  // So wherever the script stops after the copy, there is a copy; and in the
  // commit, a plan.
  lemma {:induction false} FailureReaches(s: Start)
    requires AppInfo in s.files && FirstFailure(s).Some?
    ensures PhaseOf(FirstFailure(s).value) != Copying ==> Copied(s).Some?
    ensures PhaseOf(FirstFailure(s).value) !in {Copying, Preparing} ==> Planned(s.job, s.files, s.links).Some?
  {
    hide FirstStop, CopySteps, PrepareSteps, SwapSteps, ClientSteps, CleanUpSteps, EntryNames, FirstFailure, PhaseOf,
      Copied, Planned;
    FailureParts(s);
    if FirstStop(s, CopySteps(s.job, s.files)).Some? {
      StoppedCopying(s);
    } else {
      CopyReached(s);
      if FirstStop(s, PrepareSteps(s.job, EntryNames(s))).Some? {
        StoppedPreparing(s);
      } else {
        ReachesPlan(s);
      }
    }
  }

  // --- When an installation succeeds ----------------------------------------

  predicate IsTest(c: Step) {
    c.CheckEntries? || c.CheckLauncher?
  }

  lemma {:induction false} MakeTests(names: seq<string>, i: nat, name: string)
    requires i <= |names|
    ensures CheckLauncher(name) in MakeSteps(names, i) <==> name in names[i..]
    decreases |names| - i
  {
    if i < |names| {
      MakeTests(names, i + 1, name);
      assert names[i..] == [names[i]] + names[i + 1..];
      MakeOneTest(names[i], name);
    } else {
      assert names[i..] == [];
    }
  }

  lemma {:induction false} MakeOneTest(made: string, name: string)
    ensures CheckLauncher(name) in MakeOneSteps(made) <==> name == made
  {
  }

  lemma {:induction false} PrepareTests(job: Job, names: seq<string>, name: string)
    ensures CheckLauncher(name) in PrepareSteps(job, names) <==> name in names
  {
    hide MakeSteps;
    MakeTests(names, 0, name);
    assert names[0..] == names;
    assert CheckLauncher(name) !in EditSteps(job);
    assert CheckLauncher(name) in LauncherSteps(names) <==> CheckLauncher(name) in MakeSteps(names, 0);
  }

  lemma {:induction false} ScriptTests(s: Start, name: string)
    ensures CheckLauncher(name) in Script(s) <==> name in EntryNames(s)
  {
    hide CopySteps, PrepareSteps, SwapSteps, ClientSteps, CleanUpSteps, EntryNames;
    var names := EntryNames(s);
    CopyPhase(s.job, s.files);
    SwapPhase(s.job, s.files, names);
    EndPhases(s.job);
    PrepareTests(s.job, names, name);
    assert PhaseOf(CheckLauncher(name)) == Preparing;
  }

  // A tool that is run accepts what it is given, once there is a plan.
  lemma {:induction false} PlannedAccepts(s: Start, c: Step)
    requires AppInfo in s.files && Planned(s.job, s.files, s.links).Some? && c != CheckEntries && !c.CheckLauncher?
    ensures Stops(s, c) ==> s.fails(c)
    ensures !Stops(s, CheckEntries)
  {
  }

  // In the caller's terms: it succeeds if and only if every tool accepts what it
  // is given, there is an entry, no launcher is in the way unless it may be
  // replaced, and no command of the script fails.
  lemma {:induction false} SucceedsExactly(s: Start)
    requires AppInfo in s.files
    ensures FirstFailure(s).None? <==>
              && Planned(s.job, s.files, s.links).Some?
              && (s.job.force || forall name :: name in EntryNames(s) ==> Launcher(name) !in s.files)
              && forall c :: c in Script(s) && !IsTest(c) ==> !s.fails(c)
  {
    hide Planned, Script, EntryNames, Stops;
    if FirstFailure(s).None? {
      NoFailurePlanned(s);
      forall name | name in EntryNames(s) ensures s.job.force || Launcher(name) !in s.files {
        ScriptTests(s, name);
        TestStops(s, name);
      }
      forall c | c in Script(s) && !IsTest(c) ensures !s.fails(c) { FailingStops(s, c); }
    }
    if && Planned(s.job, s.files, s.links).Some?
       && (s.job.force || forall name :: name in EntryNames(s) ==> Launcher(name) !in s.files)
       && forall c :: c in Script(s) && !IsTest(c) ==> !s.fails(c) {
      forall c | c in Script(s) ensures !Stops(s, c) {
        if c.CheckLauncher? {
          ScriptTests(s, c.name);
          TestStops(s, c.name);
        } else if c.CheckEntries? {
          PlannedAccepts(s, PatchImage);
        } else {
          PlannedAccepts(s, c);
        }
      }
    }
  }

  lemma {:induction false} TestStops(s: Start, name: string)
    ensures Stops(s, CheckLauncher(name)) <==> !s.job.force && Launcher(name) in s.files
  {
  }

  lemma {:induction false} FailingStops(s: Start, c: Step)
    requires !IsTest(c)
    ensures s.fails(c) ==> Stops(s, c)
  {
  }

  lemma {:induction false} NoFailurePlanned(s: Start)
    requires AppInfo in s.files && FirstFailure(s).None?
    ensures Planned(s.job, s.files, s.links).Some?
  {
    hide FirstStop, CopySteps, PrepareSteps, SwapSteps, ClientSteps, CleanUpSteps, EntryNames, FirstFailure, Copied,
      Planned;
    FailureParts(s);
    CopyReached(s);
    ReachesPlan(s);
  }
}
