// The mapping tool on files: inspection, and the repair that works on a copy
// and swaps it in.
module MappingFile {
  import opened Wrappers
  import opened Words
  import opened Vdf
  import opened Codec
  import opened AppImage
  import opened Launch
  import opened Editor
  import opened Mapping
  import AppInfoFile

  ghost function Before(
    actuals: seq<Option<Value>>, rest: Result<seq<Option<Value>>, Fault>): Result<seq<Option<Value>>, Fault>
  {
    match rest
    case Ok(more) => Ok(actuals + more)
    case Err(e) => Err(e)
  }

  lemma {:induction false} BeforeNone(rest: Result<seq<Option<Value>>, Fault>)
    ensures Before([], rest) == rest
  {
    if rest.Ok? { assert [] + rest.value == rest.value; }
  }

  // One turn of the collecting loop.
  lemma {:induction false} BeforeOne(launch: Dict, items: seq<Item>, actuals: seq<Option<Value>>)
    requires items != []
    ensures Before(actuals, Actuals(launch, items)) ==
              match Actual(launch, items[0].entry)
              case Ok(one) => Before(actuals + [one], Actuals(launch, items[1..]))
              case Err(e) => Err(e)
  {
    hide Actual;
    var one, rest := Actual(launch, items[0].entry), Actuals(launch, items[1..]);
    if one.Ok? && rest.Ok? {
      assert actuals + ([one.value] + rest.value) == actuals + [one.value] + rest.value;
    }
  }

  // The executables the recorded entries start now.
  method CollectActuals(launch: Dict, items: seq<Item>) returns (r: Result<seq<Option<Value>>, Fault>)
    ensures r == Actuals(launch, items)
  {
    hide Actual, Before, Actuals;
    var actuals: seq<Option<Value>> := [];
    BeforeNone(Actuals(launch, items));
    var i := 0;
    assert items[0..] == items;
    while i < |items|
      invariant 0 <= i <= |items|
      invariant Actuals(launch, items) == Before(actuals, Actuals(launch, items[i..]))
    {
      assert items[i..][0] == items[i] && items[i..][1..] == items[i + 1..];
      BeforeOne(launch, items[i..], actuals);
      var one := Actual(launch, items[i].entry);
      if one.Err? {
        return Err(one.error);
      }
      actuals := actuals + [one.value];
      i := i + 1;
    }
    assert items[i..] == [];
    BeforeLast(launch, actuals);
    return Ok(actuals);
  }

  lemma {:induction false} BeforeLast(launch: Dict, actuals: seq<Option<Value>>)
    ensures Before(actuals, Actuals(launch, [])) == Ok(actuals)
  {
    assert actuals + [] == actuals;
  }

  method Classify(items: seq<Item>, actuals: seq<Option<Value>>, files: Files) returns (health: Health)
    requires |items| == |actuals|
    ensures health == Overall(Statuses(items, actuals, files))
  {
    hide StatusOf;
    var statuses: seq<Health> := [];
    var i := 0;
    while i < |items|
      invariant 0 <= i <= |items|
      invariant statuses == Statuses(items, actuals, files)[..i]
    {
      statuses := statuses + [StatusOf(items[i], actuals[i], files)];
      i := i + 1;
    }
    assert statuses == Statuses(items, actuals, files);
    if Foreign in statuses {
      return Foreign;
    } else if Stale in statuses {
      return Stale;
    } else if Broken in statuses {
      return Broken;
    }
    return Healthy;
  }

  method CheckLaunchers(items: seq<Item>, files: Files) returns (present: bool)
    ensures present == LaunchersPresent(items, files)
  {
    var i := 0;
    while i < |items|
      invariant 0 <= i <= |items|
      invariant forall j :: 0 <= j < i ==> files.launcher(items[j].launcher)
    {
      if !files.launcher(items[i].launcher) {
        return false;
      }
      i := i + 1;
    }
    return true;
  }

  class Tool {
    var appinfo: Option<Bytes>
    var backups: seq<Bytes>
    const recorded: Recorded
    const files: Files
    const sums: Sums
    const host: Host

    constructor (appinfo: Option<Bytes>, recorded: Recorded, files: Files, sums: Sums, host: Host)
      ensures this.appinfo == appinfo && backups == [] && this.recorded == recorded && this.files == files
      ensures this.sums == sums && this.host == host
    {
      this.appinfo := appinfo;
      this.backups := [];
      this.recorded := recorded;
      this.files := files;
      this.sums := sums;
      this.host := host;
    }

    method InspectMapping(expected: Option<int>) returns (r: Result<Info, Fault>)
      ensures r == Inspect(appinfo, recorded, expected, files)
    {
      hide Actuals, Overall, Statuses, Find, Parse;
      match recorded {
        case NoFile => return Ok(Info(Missing, []));
        case Unreadable => return Ok(Info(Invalid, []));
        case Recorded(appid, items) =>
          if expected.Some? && appid != expected.value {
            return Ok(Info(Invalid, []));
          }
          if appinfo.None? {
            return Ok(Info(Unavailable, []));
          }
          var editor := new AppInfoFile.AppInfo(appinfo.value, sums, host);
          var loaded := editor.Load();
          if loaded.Err? {
            return if loaded.error == Truncated then Err(Truncated) else Ok(Info(Unavailable, []));
          }
          var sections := SectionsOf(editor.View(), appid, NoLaunchSection);
          if sections.Err? {
            return Ok(Info(Unavailable, []));
          }
          var launch := Find(sections.value, LAUNCH);
          if launch.None? {
            return Ok(Info(Unavailable, []));
          }
          var actuals := CollectActuals(launch.value, items);
          if actuals.Err? {
            return Ok(Info(Unavailable, []));
          }
          var health := Classify(items, actuals.value, files);
          return Ok(Info(health, actuals.value));
      }
    }

    // Redirect the recorded entries in a copy of the file.
    method Rewritten(
      file: Bytes, appid: int, items: seq<Item>, actuals: seq<Option<Value>>) returns (r: Result<Bytes, Fault>)
      requires |items| == |actuals|
      ensures r == Repaired(host, sums, file, appid, items, actuals)
    {
      hide Parse, Launch.ReplaceLaunch, Launch.ReplaceLaunches, Expected, RewriteWith;
      var editor := new AppInfoFile.AppInfo(file, sums, host);
      var loaded := editor.Load();
      if loaded.Err? {
        return Err(loaded.error);
      }
      ParseSound(file);
      if |items| == 1 {
        var guard := if actuals[0].None? then Anything else Exactly(actuals[0]);
        var changed := editor.ReplaceLaunch(appid, items[0].installed, ByEntry(items[0].entry), guard);
        return if changed.Ok? then Ok(editor.data) else Err(changed.error);
      } else {
        var changed := editor.ReplaceLaunches(appid, Wanted(items), Some(Expected(items, actuals)));
        return if changed.Ok? then Ok(editor.data) else Err(changed.error);
      }
    }

    // The file is swapped only for one that was rewritten completely.
    method RepairMapping(expected: Option<int>, force: bool, steamRunning: bool, fails: Operation -> bool)
      returns (r: Result<Info, Fault>)
      modifies this
      ensures match Repair(host, sums, old(appinfo), recorded, expected, files, force, steamRunning, fails)
              case Ok(out) => r == Ok(out.1) && appinfo == out.0
              case Err(e) => r == Err(e)
      ensures appinfo
           == AfterRepair(host, sums, old(appinfo), recorded, expected, files, force, steamRunning, fails)
      ensures appinfo == old(appinfo)
              || (old(appinfo).Some? && backups == old(backups) + [old(appinfo).value])
      ensures r.Err? && appinfo != old(appinfo) ==>
                recorded.Recorded? && Inspect(appinfo, recorded, expected, files) == Err(r.error)
    {
      hide Inspect, Repaired;
      var info := InspectMapping(expected);
      if info.Err? {
        return Err(info.error);
      }
      if info.value.health == Healthy {
        return Ok(info.value);
      }
      if info.value.health != Stale && !(force && info.value.health == Foreign) {
        return Err(CannotRepair);
      }
      var present := CheckLaunchers(recorded.items, files);
      if !files.config || !present {
        return Err(CannotRepair);
      }
      if steamRunning {
        return Err(CannotRepair);
      }
      if fails(MakeBackup) {
        return Err(Io);
      }
      backups := backups + [appinfo.value];
      if fails(ProtectBackup) || fails(CopyImage) {
        return Err(Io);
      }
      var copy := Rewritten(appinfo.value, recorded.appid, recorded.items, info.value.actuals);
      if copy.Err? {
        return Err(copy.error);
      }
      if fails(WriteCopy) || fails(SyncCopy) || fails(ProtectCopy) || fails(SwapImage) {
        return Err(Io);
      }
      appinfo := Some(copy.value);
      r := InspectMapping(expected);
    }
  }
}
