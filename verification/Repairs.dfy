// What an inspection reports and when a repair goes ahead, in terms of the
// executables in the launch section, the generated files, and the Steam client.
module Repairs {
  import opened Wrappers
  import opened Words
  import opened Vdf
  import opened AppImage
  import opened Launch
  import opened Plan
  import opened Mapping
  import opened Repairing
  import Restoring
  import opened Patching

  // --- Inspecting -----------------------------------------------------------

  // What an entry starts, if it starts a text.
  ghost function Program(t: Section, entry: string): Option<string> {
    if entry in t && t[entry].Branch? && "executable" in t[entry].children && t[entry].children["executable"].Leaf?
    then Some(t[entry].children["executable"].text) else None
  }

  // No recorded entry is anything but a dictionary.
  ghost predicate Readable(t: Section, items: seq<Item>) {
    forall i :: 0 <= i < |items| && items[i].entry in t ==> t[items[i].entry].Branch?
  }

  // It starts something else than what was recorded.
  ghost predicate IsForeign(t: Section, item: Item) {
    var e := Program(t, item.entry);
    e.Some? && e.value != item.installed && e.value != item.original
  }

  // It starts nothing, or what it did before the mapping.
  ghost predicate IsStale(t: Section, item: Item) {
    var e := Program(t, item.entry);
    e.None? || (e.value == item.original && e.value != item.installed)
  }

  ghost predicate IsBroken(item: Item, files: Files) {
    !files.config || !files.launcher(item.launcher)
  }

  ghost function HealthOf(t: Section, items: seq<Item>, files: Files): Health {
    if !Readable(t, items) then Unavailable
    else if exists i :: 0 <= i < |items| && IsForeign(t, items[i]) then Foreign
    else if exists i :: 0 <= i < |items| && IsStale(t, items[i]) then Stale
    else if exists i :: 0 <= i < |items| && IsBroken(items[i], files) then Broken
    else Healthy
  }

  lemma {:induction false} ActualExactly(launch: Dict, entry: string)
    ensures Actual(launch, entry).Ok? <==> (entry in Abs(launch) ==> Abs(launch)[entry].Branch?)
    ensures Actual(launch, entry).Ok? ==>
              match Program(Abs(launch), entry)
              case Some(e) => Actual(launch, entry).value == Some(Text(e))
              case None => Actual(launch, entry).value.None? || !Actual(launch, entry).value.value.Text?
  {
    AbsGet(launch, entry);
    if Has(launch, entry) && Get(launch, entry).value.Sub? {
      AbsGet(Get(launch, entry).value.dict, "executable");
    }
  }

  lemma {:induction false} ActualsReadable(launch: Dict, items: seq<Item>)
    ensures Actuals(launch, items).Ok? <==> Readable(Abs(launch), items)
    decreases items
  {
    hide Actual;
    if items != [] {
      ActualExactly(launch, items[0].entry);
      ActualsReadable(launch, items[1..]);
      assert forall i :: 1 <= i < |items| ==> items[i] == items[1..][i - 1];
      assert forall i :: 0 <= i < |items[1..]| ==> items[1..][i] == items[i + 1];
    }
  }

  lemma {:induction false} StatusExactly(launch: Dict, items: seq<Item>, files: Files, i: nat)
    requires Actuals(launch, items).Ok? && i < |items|
    ensures var t, item := Abs(launch), items[i];
            StatusOf(item, Actuals(launch, items).value[i], files)
            == if IsForeign(t, item) then Foreign else if IsStale(t, item) then Stale
               else if IsBroken(item, files) then Broken else Healthy
  {
    hide Actuals;
    ActualsAt(launch, items, i);
    ActualExactly(launch, items[i].entry);
  }

  lemma {:induction false} OverallExactly(launch: Dict, items: seq<Item>, files: Files)
    requires Actuals(launch, items).Ok?
    ensures Overall(Statuses(items, Actuals(launch, items).value, files)) == HealthOf(Abs(launch), items, files)
  {
    hide Actuals, StatusOf, IsForeign, IsStale, IsBroken, Readable;
    ActualsReadable(launch, items);
    var t, statuses := Abs(launch), Statuses(items, Actuals(launch, items).value, files);
    forall i | 0 <= i < |items|
      ensures statuses[i] == if IsForeign(t, items[i]) then Foreign else if IsStale(t, items[i]) then Stale
                             else if IsBroken(items[i], files) then Broken else Healthy
    {
      StatusExactly(launch, items, files, i);
    }
    InStatuses(statuses, Foreign);
    InStatuses(statuses, Stale);
    InStatuses(statuses, Broken);
  }

  lemma {:induction false} InStatuses(statuses: seq<Health>, health: Health)
    ensures health in statuses <==> exists i :: 0 <= i < |statuses| && statuses[i] == health
  {
  }

  // What is reported, from the state of another app over an unreadable image to
  // the single entries.
  lemma {:induction false} InspectsExactly(
    file: Bytes, img: Image, recorded: Recorded, expected: Option<int>, files: Files)
    requires recorded.Recorded? && Parse(file) == Ok(img)
    ensures Inspect(Some(file), recorded, expected, files).Ok?
    ensures Inspect(Some(file), recorded, expected, files).value.health
         == if expected.Some? && expected.value != recorded.appid then Invalid
            else match Restoring.LaunchIn(img, recorded.appid)
              case None => Unavailable
              case Some(t) => HealthOf(t, recorded.items, files)
  {
    hide Parse, Find, Actuals, Statuses, Overall, HealthOf;
    if !(expected.Some? && expected.value != recorded.appid) {
      InspectLoaded(file, img, recorded, expected, files);
      if Restoring.LaunchIn(img, recorded.appid).Some? {
        var launch := Find(img.records[recorded.appid].sections, LAUNCH).value;
        if Actuals(launch, recorded.items).Ok? {
          OverallExactly(launch, recorded.items, files);
        } else {
          ActualsReadable(launch, recorded.items);
          UnreadableHealth(Abs(launch), recorded.items, files);
        }
      }
    }
  }

  lemma {:induction false} UnreadableHealth(t: Section, items: seq<Item>, files: Files)
    requires !Readable(t, items)
    ensures HealthOf(t, items, files) == Unavailable
  {
  }

  // --- Repairing ------------------------------------------------------------

  // The mapping needs a repair or the caller insists, everything generated is
  // there, and the client does not run.
  ghost predicate MayRepair(health: Health, items: seq<Item>, files: Files, force: bool, running: bool) {
    && (health == Stale || (force && health == Foreign))
    && files.config && (forall item :: item in items ==> files.launcher(item.launcher))
    && !running
  }

  lemma {:induction false} RepairableExactly(info: Info, items: seq<Item>, files: Files, force: bool, running: bool)
    ensures Repairable(info, items, files, force, running).Ok? <==> MayRepair(info.health, items, files, force, running)
  {
    if forall item :: item in items ==> files.launcher(item.launcher) {
      forall i | 0 <= i < |items| ensures files.launcher(items[i].launcher) { assert items[i] in items; }
    }
  }

  lemma {:induction false} RefusedRepair(
    h: Host, sums: Sums, file: Bytes, recorded: Recorded, expected: Option<int>, files: Files, force: bool,
    running: bool, fails: Operation -> bool, info: Info)
    requires recorded.Recorded? && Inspect(Some(file), recorded, expected, files) == Ok(info) && info.health != Healthy
    requires || Repairable(info, recorded.items, files, force, running).Err?
             || CopyFails(fails) || SwapFails(fails)
    ensures Repair(h, sums, Some(file), recorded, expected, files, force, running, fails).Err?
    ensures AfterRepair(h, sums, Some(file), recorded, expected, files, force, running, fails) == Some(file)
  {
    hide Inspect, Repaired, Repairable, CopyFails, SwapFails;
  }

  lemma {:induction false} HealthyRepair(
    h: Host, sums: Sums, file: Bytes, recorded: Recorded, expected: Option<int>, files: Files, force: bool,
    running: bool, fails: Operation -> bool, info: Info)
    requires recorded.Recorded? && Inspect(Some(file), recorded, expected, files) == Ok(info) && info.health == Healthy
    ensures Repair(h, sums, Some(file), recorded, expected, files, force, running, fails) == Ok((Some(file), info))
    ensures AfterRepair(h, sums, Some(file), recorded, expected, files, force, running, fails) == Some(file)
  {
    hide Inspect;
  }

  // A healthy mapping is left alone with success. A repair of any other leaves
  // the file alone and fails, unless it may go ahead and no file operation fails.
  lemma {:induction false} RepairsOnlyWhen(
    h: Host, sums: Sums, file: Bytes, img: Image, recorded: Recorded, expected: Option<int>, files: Files, force: bool,
    running: bool, fails: Operation -> bool, info: Info)
    requires recorded.Recorded? && Parse(file) == Ok(img)
    requires Inspect(Some(file), recorded, expected, files) == Ok(info)
    ensures var r := Repair(h, sums, Some(file), recorded, expected, files, force, running, fails);
            var after := AfterRepair(h, sums, Some(file), recorded, expected, files, force, running, fails);
            && (info.health == Healthy ==> r.Ok? && after == Some(file))
            && (info.health != Healthy && !(MayRepair(info.health, recorded.items, files, force, running)
                                            && forall op :: !fails(op)) ==>
                  r.Err? && after == Some(file))
  {
    hide Inspect, Repair, AfterRepair, MayRepair, Repairable, CopyFails, SwapFails;
    RepairableExactly(info, recorded.items, files, force, running);
    AllOperations(fails);
    if info.health == Healthy {
      HealthyRepair(h, sums, file, recorded, expected, files, force, running, fails, info);
    } else if !(MayRepair(info.health, recorded.items, files, force, running) && forall op :: !fails(op)) {
      RefusedRepair(h, sums, file, recorded, expected, files, force, running, fails, info);
    }
  }

  lemma {:induction false} AllOperations(fails: Operation -> bool)
    ensures CopyFails(fails) || SwapFails(fails) <==> exists op :: fails(op)
  {
    if op :| fails(op) {
      match op
      case MakeBackup =>
      case ProtectBackup =>
      case CopyImage =>
      case WriteCopy =>
      case SyncCopy =>
      case ProtectCopy =>
      case SwapImage =>
    }
  }

  // --- When the redirections succeed ----------------------------------------

  lemma {:induction false} ExpectedAt(items: seq<Item>, actuals: seq<Option<Value>>, i: nat)
    requires |items| == |actuals| && i < |items|
    requires forall i, j :: 0 <= i < j < |items| ==> items[i].entry != items[j].entry
    ensures items[i].entry in Expected(items, actuals) && Expected(items, actuals)[items[i].entry] == actuals[i]
  {
    var n := |items| - 1;
    if i < n {
      ExpectedAt(items[..n], actuals[..n], i);
    }
  }

  // The entry starts what is expected of it.
  ghost predicate Believed(t: Section, entry: string, expects: map<string, Option<Value>>) {
    exists e :: Starts(t, entry, e) && entry in expects && expects[entry] == Some(Text(e))
  }

  // Several redirections of distinct entries succeed if and only if each starts
  // what is expected of it.
  lemma {:induction false} ReplaceExpected(
    launch: Dict, wanted: seq<(string, string)>, expects: map<string, Option<Value>>)
    requires forall i, j :: 0 <= i < j < |wanted| ==> wanted[i].0 != wanted[j].0
    ensures Replace(launch, wanted, Some(expects)).Ok? <==>
              forall i :: 0 <= i < |wanted| ==> Believed(Abs(launch), wanted[i].0, expects)
    decreases wanted
  {
    hide ReplaceOne;
    if wanted != [] {
      var (entry, executable) := wanted[0];
      var guard := GuardOf(Some(expects), entry);
      ReplaceOneExactly(launch, entry, executable, guard);
      assert wanted[0].0 == entry;
      assert StartsBelieved(Abs(launch), entry, guard) <==> Believed(Abs(launch), entry, expects);
      if StartsBelieved(Abs(launch), entry, guard) {
        var launch1 := ReplaceOne(launch, entry, executable, guard).value.0;
        ReplaceExpected(launch1, wanted[1..], expects);
        forall i | 1 <= i < |wanted|
          ensures wanted[i] == wanted[1..][i - 1]
          ensures Believed(Abs(launch1), wanted[i].0, expects) <==> Believed(Abs(launch), wanted[i].0, expects)
        {
          BelievedElsewhere(Abs(launch), Abs(launch1), entry, executable, wanted[i].0, expects);
        }
      }
    }
  }

  lemma {:induction false} BelievedElsewhere(
    t: Section, t': Section, entry: string, executable: string, key: string, expects: map<string, Option<Value>>)
    requires entry in t && t[entry].Branch? && key != entry
    requires t' == t[entry := Branch(t[entry].children["executable" := Leaf(executable)])]
    ensures Believed(t', key, expects) <==> Believed(t, key, expects)
  {
    forall e ensures Starts(t', key, e) <==> Starts(t, key, e) { }
  }

  lemma {:induction false} ReplaceNeeds(
    launch: Dict, wanted: seq<(string, string)>, expects: Option<map<string, Option<Value>>>)
    requires Replace(launch, wanted, expects).Ok?
    ensures forall i :: 0 <= i < |wanted| ==> StartsSomething(Abs(launch), wanted[i].0)
    decreases wanted
  {
    hide ReplaceOne, Starts;
    if wanted != [] {
      var (entry, executable) := wanted[0];
      var guard := GuardOf(expects, entry);
      ReplaceOneExactly(launch, entry, executable, guard);
      var launch1 := ReplaceOne(launch, entry, executable, guard).value.0;
      ReplaceNeeds(launch1, wanted[1..], expects);
      forall i | 0 <= i < |wanted| ensures StartsSomething(Abs(launch), wanted[i].0) {
        if i > 0 && wanted[i].0 != entry {
          assert wanted[i] == wanted[1..][i - 1];
          StartedBefore(Abs(launch), Abs(launch1), entry, executable, wanted[i].0);
        }
      }
    }
  }

  lemma {:induction false} StartedBefore(t: Section, t': Section, entry: string, executable: string, key: string)
    requires StartsSomething(t', key) && key != entry
    requires entry in t && t[entry].Branch?
             && t' == t[entry := Branch(t[entry].children["executable" := Leaf(executable)])]
    ensures StartsSomething(t, key)
  {
    var e :| Starts(t', key, e);
    assert Starts(t, key, e);
  }

  lemma {:induction false} ProgramStarts(t: Section, entry: string)
    ensures forall e :: Starts(t, entry, e) <==> Program(t, entry) == Some(e)
    ensures StartsSomething(t, entry) <==> Program(t, entry).Some?
  {
    assert Program(t, entry).Some? ==> Starts(t, entry, Program(t, entry).value);
  }

  // On what an inspection has just read, the redirections succeed if and only if
  // every recorded entry starts something: a stale entry that is gone or starts
  // nothing cannot be repaired.
  lemma {:induction false} RedirectsExactly(h: Host, sections: Dict, items: seq<Item>)
    requires items != [] && Find(sections, LAUNCH).Some? && Actuals(Find(sections, LAUNCH).value, items).Ok?
    requires forall i, j :: 0 <= i < j < |items| ==> items[i].entry != items[j].entry
    ensures Mapping.Redirected(h, sections, items, Actuals(Find(sections, LAUNCH).value, items).value).Ok? <==>
              forall i :: 0 <= i < |items| ==> Program(Abs(Find(sections, LAUNCH).value), items[i].entry).Some?
  {
    hide Find, Graft, Starts, Replace, ReplaceOne, Actual, Actuals, Program, Expected;
    var launch := Find(sections, LAUNCH).value;
    var actuals, wanted := Actuals(launch, items).value, Wanted(items);
    forall i | 0 <= i < |items|
      ensures StartsSomething(Abs(launch), wanted[i].0) <==> Program(Abs(launch), items[i].entry).Some?
      ensures forall e :: Starts(Abs(launch), items[i].entry, e) ==> actuals[i] == Some(Text(e))
    {
      ProgramStarts(Abs(launch), items[i].entry);
      ActualsAt(launch, items, i);
      ActualExactly(launch, items[i].entry);
    }
    if |items| == 1 {
      OneRedirected(h, sections, items, actuals);
    } else {
      ManyRedirected(sections, items, actuals);
    }
  }

  lemma {:induction false} OneRedirected(h: Host, sections: Dict, items: seq<Item>, actuals: seq<Option<Value>>)
    requires |items| == |actuals| == 1 && Find(sections, LAUNCH).Some?
    requires forall e :: Starts(Abs(Find(sections, LAUNCH).value), items[0].entry, e) ==> actuals[0] == Some(Text(e))
    ensures Mapping.Redirected(h, sections, items, actuals).Ok? <==>
              StartsSomething(Abs(Find(sections, LAUNCH).value), items[0].entry)
  {
    hide Find, Graft, Starts, ReplaceOne;
    var guard := if actuals[0].None? then Anything else Exactly(actuals[0]);
    ReplaceOneExactly(Find(sections, LAUNCH).value, items[0].entry, items[0].installed, guard);
  }

  lemma {:induction false} ManyRedirected(sections: Dict, items: seq<Item>, actuals: seq<Option<Value>>)
    requires |items| == |actuals| > 1 && Find(sections, LAUNCH).Some?
    requires forall i, j :: 0 <= i < j < |items| ==> items[i].entry != items[j].entry
    requires forall i, e :: 0 <= i < |items| && Starts(Abs(Find(sections, LAUNCH).value), items[i].entry, e) ==>
               actuals[i] == Some(Text(e))
    ensures ReplaceLaunches(sections, Wanted(items), Some(Expected(items, actuals))).Ok? <==>
              forall i :: 0 <= i < |items| ==> StartsSomething(Abs(Find(sections, LAUNCH).value), items[i].entry)
  {
    hide Find, Graft, Starts, Replace, Expected;
    var launch, wanted, expects := Find(sections, LAUNCH).value, Wanted(items), Expected(items, actuals);
    if Replace(launch, wanted, Some(expects)).Ok? {
      ReplaceNeeds(launch, wanted, Some(expects));
      ReplacedEach(launch, wanted, Some(expects));
      forall i | 0 <= i < |items| ensures StartsSomething(Abs(launch), items[i].entry) {
        assert wanted[i].0 == items[i].entry;
      }
    }
    if forall i :: 0 <= i < |items| ==> StartsSomething(Abs(launch), items[i].entry) {
      forall i | 0 <= i < |wanted| ensures Believed(Abs(launch), wanted[i].0, expects) {
        var e :| Starts(Abs(launch), items[i].entry, e);
        ExpectedAt(items, actuals, i);
        assert Starts(Abs(launch), wanted[i].0, e);
      }
      ReplaceExpected(launch, wanted, expects);
    }
  }

  lemma {:induction false} ReplacedEach(
    launch: Dict, wanted: seq<(string, string)>, expects: Option<map<string, Option<Value>>>)
    requires Replace(launch, wanted, expects).Ok?
    ensures |Replace(launch, wanted, expects).value.1| == |wanted|
    decreases wanted
  {
    hide ReplaceOne;
    if wanted != [] {
      var (entry, executable) := wanted[0];
      ReplacedEach(
        ReplaceOne(launch, entry, executable, GuardOf(expects, entry)).value.0, wanted[1..], expects);
    }
  }
}
