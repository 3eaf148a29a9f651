// Inspecting and repairing one recorded launch mapping.
module Mapping {
  import opened Wrappers
  import opened Words
  import opened Vdf
  import opened Codec
  import opened AppImage
  import opened Launch
  import opened Editor

  datatype Item = Item(entry: string, original: string, installed: string, launcher: string)

  // The state file, normalized: a valid one names an app and at least one entry.
  datatype Recorded = NoFile | Unreadable | Recorded(appid: int, items: seq<Item>)

  datatype Health = Missing | Invalid | Unavailable | Foreign | Stale | Broken | Healthy

  // Is the generated config a file, and is a launcher a regular file?
  datatype Files = Files(config: bool, launcher: string -> bool)

  datatype Info = Info(health: Health, actuals: seq<Option<Value>>)

  // --- Inspecting -----------------------------------------------------------

  // launch.get(entry, {}).get("executable")
  function Actual(launch: Dict, entry: string): Result<Option<Value>, Fault> {
    match Get(launch, entry)
    case None => Ok(None)
    case Some(Sub(item)) => Ok(Get(item, "executable"))
    case _ => Err(NoExecutable)
  }

  function Actuals(launch: Dict, items: seq<Item>): (r: Result<seq<Option<Value>>, Fault>)
    ensures r.Ok? ==> |r.value| == |items|
  {
    if items == [] then Ok([])
    else
      var first :- Actual(launch, items[0].entry);
      var rest :- Actuals(launch, items[1..]);
      Ok([first] + rest)
  }

  function StatusOf(item: Item, actual: Option<Value>, files: Files): Health {
    match actual
    case Some(Text(current)) =>
      if current == item.installed then
        if files.config && files.launcher(item.launcher) then Healthy else Broken
      else if current == item.original then Stale
      else Foreign
    case _ => Stale
  }

  function Statuses(items: seq<Item>, actuals: seq<Option<Value>>, files: Files): (r: seq<Health>)
    requires |items| == |actuals|
    ensures |r| == |items|
  {
    seq(|items|, i requires 0 <= i < |items| => StatusOf(items[i], actuals[i], files))
  }

  function Overall(statuses: seq<Health>): Health {
    if Foreign in statuses then Foreign
    else if Stale in statuses then Stale
    else if Broken in statuses then Broken
    else Healthy
  }

  // The recorded entries of a loaded image.
  function ActualsIn(img: Image, appid: int, items: seq<Item>): (r: Result<seq<Option<Value>>, Fault>)
    ensures r.Ok? ==> |r.value| == |items|
  {
    var sections :- SectionsOf(img, appid, NoLaunchSection);
    match Find(sections, LAUNCH)
    case None => Err(NoLaunchSection)
    case Some(launch) => Actuals(launch, items)
  }

  // inspect_mapping. The only error that escapes is struct.error.
  function Inspect(
    file: Option<Bytes>, recorded: Recorded, expected: Option<int>, files: Files): (r: Result<Info, Fault>)
    ensures r.Ok? && r.value.health in {Foreign, Stale, Broken, Healthy} ==>
              recorded.Recorded? && file.Some? && |r.value.actuals| == |recorded.items|
  {
    match recorded
    case NoFile => Ok(Info(Missing, []))
    case Unreadable => Ok(Info(Invalid, []))
    case Recorded(appid, items) =>
      if expected.Some? && appid != expected.value then Ok(Info(Invalid, []))
      else match file
        case None => Ok(Info(Unavailable, []))
        case Some(bytes) =>
          match Parse(bytes)
          case Err(Truncated) => Err(Truncated)
          case Err(_) => Ok(Info(Unavailable, []))
          case Ok(img) =>
            match ActualsIn(img, appid, items)
            case Err(_) => Ok(Info(Unavailable, []))
            case Ok(actuals) => Ok(Info(Overall(Statuses(items, actuals, files)), actuals))
  }

  // --- Repairing ------------------------------------------------------------

  predicate LaunchersPresent(items: seq<Item>, files: Files) {
    forall i :: 0 <= i < |items| ==> files.launcher(items[i].launcher)
  }

  function Wanted(items: seq<Item>): (r: seq<(string, string)>)
    ensures |r| == |items|
  {
    seq(|items|, i requires 0 <= i < |items| => (items[i].entry, items[i].installed))
  }

  function Expected(items: seq<Item>, actuals: seq<Option<Value>>): map<string, Option<Value>>
    requires |items| == |actuals|
  {
    if items == [] then map[]
    else
      var n := |items| - 1;
      Expected(items[..n], actuals[..n])[items[n].entry := actuals[n]]
  }

  // The file operations of a repair: the first three make the backup and the
  // copy, the others write the copy back and swap it in.
  datatype Operation = MakeBackup | ProtectBackup | CopyImage | WriteCopy | SyncCopy | ProtectCopy | SwapImage

  predicate CopyFails(fails: Operation -> bool) {
    fails(MakeBackup) || fails(ProtectBackup) || fails(CopyImage)
  }

  predicate SwapFails(fails: Operation -> bool) {
    fails(WriteCopy) || fails(SyncCopy) || fails(ProtectCopy) || fails(SwapImage)
  }

  // What the caller of a repair must have in order.
  function Repairable(info: Info, items: seq<Item>, files: Files, force: bool, steamRunning: bool): Result<(), Fault> {
    if info.health != Stale && !(force && info.health == Foreign) then Err(CannotRepair)
    else if !files.config || !LaunchersPresent(items, files) then Err(CannotRepair)
    else if steamRunning then Err(CannotRepair)
    else Ok(())
  }

  // The redirections of a repair on one app's sections.
  function Redirected(h: Host, sections: Dict, items: seq<Item>, actuals: seq<Option<Value>>): Result<Dict, Fault>
    requires |items| == |actuals|
  {
    if |items| == 1 then
      var guard := if actuals[0].None? then Anything else Exactly(actuals[0]);
      var (sections', _) :- ReplaceLaunch(h, sections, items[0].installed, ByEntry(items[0].entry), guard);
      Ok(sections')
    else
      var (sections', _) :- ReplaceLaunches(sections, Wanted(items), Some(Expected(items, actuals)));
      Ok(sections')
  }

  // The rewritten copy of a repair.
  function Repaired(
    h: Host, sums: Sums, file: Bytes, appid: int, items: seq<Item>, actuals: seq<Option<Value>>)
    : Result<Bytes, Fault>
    requires |items| == |actuals|
  {
    var img :- Parse(file);
    ParseSound(file);
    var sections :- SectionsOf(img, appid, if |items| == 1 then NoSuchApp else NoLaunchSection);
    var sections' :- Redirected(h, sections, items, actuals);
    var img' :- RewriteWith(img, appid, sections', sums);
    Ok(img'.data)
  }

  // The copy, once it is swapped in.
  function Swapped(
    h: Host, sums: Sums, file: Bytes, appid: int, items: seq<Item>, actuals: seq<Option<Value>>,
    fails: Operation -> bool)
    : Result<Bytes, Fault>
    requires |items| == |actuals|
  {
    if CopyFails(fails) then Err(Io)
    else
      var file' :- Repaired(h, sums, file, appid, items, actuals);
      if SwapFails(fails) then Err(Io) else Ok(file')
  }

  // repair_mapping: the new file and a fresh inspection of it.
  function Repair(
    h: Host, sums: Sums, file: Option<Bytes>, recorded: Recorded, expected: Option<int>, files: Files, force: bool,
    steamRunning: bool, fails: Operation -> bool)
    : Result<(Option<Bytes>, Info), Fault>
  {
    var info :- Inspect(file, recorded, expected, files);
    if info.health == Healthy then Ok((file, info))
    else if info.health !in {Stale, Foreign} then Err(CannotRepair)
    else
      var _ :- Repairable(info, recorded.items, files, force, steamRunning);
      var file' :- Swapped(h, sums, file.value, recorded.appid, recorded.items, info.actuals, fails);
      var again :- Inspect(Some(file'), recorded, expected, files);
      Ok((Some(file'), again))
  }

  // The file a repair leaves behind, whether it then returns or raises.
  function AfterRepair(
    h: Host, sums: Sums, file: Option<Bytes>, recorded: Recorded, expected: Option<int>, files: Files, force: bool,
    steamRunning: bool, fails: Operation -> bool)
    : Option<Bytes>
  {
    match Inspect(file, recorded, expected, files)
    case Err(_) => file
    case Ok(info) =>
      if info.health !in {Stale, Foreign}
         || Repairable(info, recorded.items, files, force, steamRunning).Err? then file
      else match Swapped(h, sums, file.value, recorded.appid, recorded.items, info.actuals, fails)
        case Ok(file') => Some(file')
        case Err(_) => file
  }
}
