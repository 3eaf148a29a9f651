// The promises of a repair: it ends healthy, touches only recorded
// executables, and never overwrites a foreign entry unasked.
module Repairing {
  import opened Wrappers
  import opened Words
  import opened Vdf
  import opened Strings
  import opened Codec
  import opened AppImage
  import opened Launch
  import opened Plan
  import opened Undo
  import opened Editor
  import opened Storage
  import opened EndToEnd
  import opened Mapping

  // --- Health ---------------------------------------------------------------

  // Every record starts its launcher, and the generated files are there.
  predicate AllInOrder(items: seq<Item>, actuals: seq<Option<Value>>, files: Files)
    requires |items| == |actuals|
  {
    forall i :: 0 <= i < |items| ==>
      actuals[i] == Some(Text(items[i].installed)) && files.config && files.launcher(items[i].launcher)
  }

  lemma {:induction false} OverallAll(statuses: seq<Health>)
    requires forall i :: 0 <= i < |statuses| ==> statuses[i] in {Foreign, Stale, Broken, Healthy}
    ensures Overall(statuses) == Healthy <==> forall i :: 0 <= i < |statuses| ==> statuses[i] == Healthy
  {
    if Overall(statuses) == Healthy {
      forall i | 0 <= i < |statuses| ensures statuses[i] == Healthy {
        assert statuses[i] in statuses;
      }
    } else {
      var i :| 0 <= i < |statuses| && statuses[i] in {Foreign, Stale, Broken};
      assert statuses[i] != Healthy;
    }
  }

  lemma {:induction false} OverallHealthy(items: seq<Item>, actuals: seq<Option<Value>>, files: Files)
    requires |items| == |actuals|
    ensures Overall(Statuses(items, actuals, files)) == Healthy <==> AllInOrder(items, actuals, files)
  {
    hide StatusOf, Overall;
    var statuses := Statuses(items, actuals, files);
    forall i | 0 <= i < |items|
      ensures statuses[i] in {Foreign, Stale, Broken, Healthy}
      ensures statuses[i] == Healthy <==>
                actuals[i] == Some(Text(items[i].installed)) && files.config && files.launcher(items[i].launcher)
    {
      StatusHealthy(items[i], actuals[i], files);
    }
    OverallAll(statuses);
    if AllInOrder(items, actuals, files) {
      forall i | 0 <= i < |statuses| ensures statuses[i] == Healthy { }
    } else {
      var i :| 0 <= i < |items| && !(actuals[i] == Some(Text(items[i].installed)) && files.config
                                     && files.launcher(items[i].launcher));
      assert statuses[i] != Healthy;
    }
  }

  lemma {:induction false} StatusHealthy(item: Item, actual: Option<Value>, files: Files)
    ensures StatusOf(item, actual, files) in {Foreign, Stale, Broken, Healthy}
    ensures StatusOf(item, actual, files) == Healthy <==>
              actual == Some(Text(item.installed)) && files.config && files.launcher(item.launcher)
  {
  }

  // So it is in this image.
  ghost predicate InOrder(img: Image, appid: int, items: seq<Item>, files: Files) {
    ActualsIn(img, appid, items).Ok? && AllInOrder(items, ActualsIn(img, appid, items).value, files)
  }

  lemma {:induction false} InspectLoaded(
    file: Bytes, img: Image, recorded: Recorded, expected: Option<int>, files: Files)
    requires recorded.Recorded? && (expected.Some? ==> expected.value == recorded.appid)
    requires Parse(file) == Ok(img)
    ensures match ActualsIn(img, recorded.appid, recorded.items)
            case Err(_) => Inspect(Some(file), recorded, expected, files) == Ok(Info(Unavailable, []))
            case Ok(actuals) =>
              Inspect(Some(file), recorded, expected, files)
              == Ok(Info(Overall(Statuses(recorded.items, actuals, files)), actuals))
  {
    hide Parse, ActualsIn, Overall, Statuses;
  }

  // A mapping is healthy if and only if the image can be read and everything
  // recorded is in order.
  lemma {:induction false} HealthyExactly(
    file: Option<Bytes>, recorded: Recorded, expected: Option<int>, files: Files)
    requires recorded.Recorded? && (expected.Some? ==> expected.value == recorded.appid)
    ensures Inspect(file, recorded, expected, files).Ok?
            && Inspect(file, recorded, expected, files).value.health == Healthy
            <==> file.Some? && Parse(file.value).Ok?
                 && InOrder(Parse(file.value).value, recorded.appid, recorded.items, files)
  {
    hide Parse, ActualsIn, Overall, Statuses, AllInOrder;
    if file.Some? && Parse(file.value).Ok? {
      hide Inspect;
      var img := Parse(file.value).value;
      InspectLoaded(file.value, img, recorded, expected, files);
      match ActualsIn(img, recorded.appid, recorded.items)
      case Err(_) =>
        assert !InOrder(img, recorded.appid, recorded.items, files);
      case Ok(actuals) =>
        OverallHealthy(recorded.items, actuals, files);
        assert Overall(Statuses(recorded.items, actuals, files)) == Healthy
               <==> InOrder(img, recorded.appid, recorded.items, files);
    }
  }

  // Without force, an entry that is neither the original nor the installed one
  // stops the repair; the guard that decides is the inspection's.
  lemma {:induction false} ForeignKept(
    h: Host, sums: Sums, file: Bytes, p: Image, recorded: Recorded, expected: Option<int>, files: Files, running: bool,
    fails: Operation -> bool, i: nat, current: string)
    requires recorded.Recorded? && i < |recorded.items| && Parse(file) == Ok(p)
    requires ActualsIn(p, recorded.appid, recorded.items).Ok?
    requires ActualsIn(p, recorded.appid, recorded.items).value[i] == Some(Text(current))
    requires current != recorded.items[i].original && current != recorded.items[i].installed
    ensures Repair(h, sums, Some(file), recorded, expected, files, false, running, fails) == Err(CannotRepair)
    ensures AfterRepair(h, sums, Some(file), recorded, expected, files, false, running, fails) == Some(file)
  {
    hide Parse, ActualsIn, Repaired;
    var actuals := ActualsIn(p, recorded.appid, recorded.items).value;
    assert Statuses(recorded.items, actuals, files)[i] == Foreign;
  }

  // --- The redirections of a repair -----------------------------------------

  // What the last of several redirections of an entry asks for.
  function LastWanted(wanted: seq<(string, string)>, entry: string): Option<string> {
    if wanted == [] then None
    else
      var later := LastWanted(wanted[1..], entry);
      if later.None? && wanted[0].0 == entry then Some(wanted[0].1) else later
  }

  lemma {:induction false} LastWantedAmong(wanted: seq<(string, string)>, entry: string)
    ensures LastWanted(wanted, entry).None? <==> forall i :: 0 <= i < |wanted| ==> wanted[i].0 != entry
    ensures LastWanted(wanted, entry).Some? ==>
              exists i :: 0 <= i < |wanted| && wanted[i] == (entry, LastWanted(wanted, entry).value)
    decreases wanted
  {
    if wanted != [] {
      var rest := wanted[1..];
      LastWantedAmong(rest, entry);
      if LastWanted(rest, entry).Some? {
        var i :| 0 <= i < |rest| && rest[i] == (entry, LastWanted(rest, entry).value);
        assert wanted[i + 1] == rest[i];
      } else {
        assert forall i :: 0 < i < |wanted| ==> wanted[i] == rest[i - 1];
        if wanted[0].0 == entry { assert wanted[0] == (entry, LastWanted(wanted, entry).value); }
      }
    }
  }

  // The recorded redirections as a plan over the section they are applied to:
  // of several records of an entry the last one counts.
  ghost predicate PlansItems(redirects: map<string, (string, string)>, items: seq<Item>) {
    forall k ::
      && (k in redirects <==> LastWanted(Wanted(items), k).Some?)
      && (k in redirects ==> Some(redirects[k].1) == LastWanted(Wanted(items), k))
  }

  lemma {:induction false} PlansOne(item: Item, current: string)
    ensures PlansItems(map[item.entry := (current, item.installed)], [item])
  {
    assert Wanted([item])[1..] == [];
    forall k ensures LastWanted([], k) == None { }
  }

  // A redirection followed by others that may redirect the entry again.
  lemma {:induction false} RedirectAgain(
    native: Section, mid: Section, final: Section, entry: string, current: string, executable: string,
    redirects: map<string, (string, string)>)
    returns (all: map<string, (string, string)>)
    requires Records(Plan(map[entry := (current, executable)], map[]), native)
    requires mid == Overlay(native, Plan(map[entry := (current, executable)], map[]), {entry}, {})
    requires Records(Plan(redirects, map[]), mid)
    requires final == Overlay(mid, Plan(redirects, map[]), redirects.Keys, {})
    ensures all == redirects[entry := (current, if entry in redirects then redirects[entry].1 else executable)]
    ensures Records(Plan(all, map[]), native)
    ensures final == Overlay(native, Plan(all, map[]), all.Keys, {})
  {
    all := redirects[entry := (current, if entry in redirects then redirects[entry].1 else executable)];
    forall k | k in native
      ensures final[k] == OverlayItem(native[k], k, Plan(all, map[]), all.Keys, {})
    {
      if k == entry && entry in redirects {
        var e, d := Leaf(executable), Leaf(redirects[entry].1);
        assert native[k].children["executable" := e]["executable" := d] == native[k].children["executable" := d];
      }
    }
  }

  // Replacing redirects exactly the listed entries, the last time as listed,
  // whether or not an entry is listed more than once.
  lemma {:induction false} ReplaceRedirects(
    launch: Dict, wanted: seq<(string, string)>, expects: Option<map<string, Option<Value>>>, launch': Dict)
    returns (redirects: map<string, (string, string)>)
    requires Replace(launch, wanted, expects).Ok? && Replace(launch, wanted, expects).value.0 == launch'
    ensures forall k ::
              && (k in redirects <==> LastWanted(wanted, k).Some?)
              && (k in redirects ==> Some(redirects[k].1) == LastWanted(wanted, k))
    ensures Records(Plan(redirects, map[]), Abs(launch))
    ensures Abs(launch') == Overlay(Abs(launch), Plan(redirects, map[]), redirects.Keys, {})
    decreases wanted
  {
    hide Records, Overlay, ReplaceOne;
    if wanted == [] {
      redirects := map[];
      assert redirects.Keys == {};
      NothingRedirected(Abs(launch));
    } else {
      var (entry, executable) := wanted[0];
      var guard := GuardOf(expects, entry);
      var (launch1, current) := ReplaceOne(launch, entry, executable, guard).value;
      var rest := ReplaceRedirects(launch1, wanted[1..], expects, launch');
      ReplaceOneOverlay(launch, entry, executable, guard, launch1, current);
      redirects := RedirectAgain(Abs(launch), Abs(launch1), Abs(launch'), entry, current, executable, rest);
    }
  }

  // A repair overlays exactly the recorded entries.
  lemma {:induction false} RedirectedOverlay(
    h: Host, sections: Dict, items: seq<Item>, actuals: seq<Option<Value>>, sections': Dict)
    returns (redirects: map<string, (string, string)>)
    requires Proper(sections) && |items| == |actuals|
    requires Redirected(h, sections, items, actuals) == Ok(sections')
    ensures PlansItems(redirects, items) && Proper(sections')
    ensures Find(sections, LAUNCH).Some? && Find(sections', LAUNCH).Some?
    ensures sections' == Graft(sections, LAUNCH, Find(sections', LAUNCH).value)
    ensures var launch, launch' := Find(sections, LAUNCH).value, Find(sections', LAUNCH).value;
            && Records(Plan(redirects, map[]), Abs(launch))
            && Abs(launch') == Overlay(Abs(launch), Plan(redirects, map[]), redirects.Keys, {})
  {
    hide Records, Overlay, Find, Graft, ReplaceOne;
    var launch := Find(sections, LAUNCH).value;
    ProperFind(sections, LAUNCH);
    if |items| == 1 {
      var guard := if actuals[0].None? then Anything else Exactly(actuals[0]);
      var (launch', current) := ReplaceOne(launch, items[0].entry, items[0].installed, guard).value;
      redirects := map[items[0].entry := (current, items[0].installed)];
      ReplaceOneOverlay(launch, items[0].entry, items[0].installed, guard, launch', current);
      ReplaceOneProper(launch, items[0].entry, items[0].installed, guard, launch', current);
      FindGraft(sections, LAUNCH, launch');
      ProperGraft(sections, LAUNCH, launch');
      assert redirects.Keys == {items[0].entry};
      PlansOne(items[0], current);
      assert items == [items[0]];
    } else {
      var wanted, expects := Wanted(items), Some(Expected(items, actuals));
      var (launch', changed) := Replace(launch, wanted, expects).value;
      redirects := ReplaceRedirects(launch, wanted, expects, launch');
      ReplaceProper(launch, wanted, expects, launch', changed);
      FindGraft(sections, LAUNCH, launch');
      ProperGraft(sections, LAUNCH, launch');
    }
  }

  lemma {:induction false} ActualsAt(launch: Dict, items: seq<Item>, i: nat)
    requires Actuals(launch, items).Ok? && i < |items|
    ensures Actual(launch, items[i].entry) == Ok(Actuals(launch, items).value[i])
    decreases items
  {
    hide Actual;
    if i > 0 {
      ActualsAt(launch, items[1..], i - 1);
    }
  }

  // After it, every recorded entry starts what its last record asks for.
  lemma {:induction false} OverlaidActuals(
    launch': Dict, native: Section, redirects: map<string, (string, string)>, items: seq<Item>)
    requires Records(Plan(redirects, map[]), native)
    requires Abs(launch') == Overlay(native, Plan(redirects, map[]), redirects.Keys, {})
    requires forall i :: 0 <= i < |items| ==> items[i].entry in redirects
    ensures Actuals(launch', items).Ok?
    ensures forall i :: 0 <= i < |items| ==>
              Actuals(launch', items).value[i] == Some(Text(redirects[items[i].entry].1))
    decreases items
  {
    hide Records, Overlay;
    if items != [] {
      var key := items[0].entry;
      OverlayExecutable(native, Plan(redirects, map[]), redirects.Keys, {}, key);
      AbsGet(launch', key);
      AbsGet(Get(launch', key).value.dict, "executable");
      OverlaidActuals(launch', native, redirects, items[1..]);
    }
  }

  // All records of an entry ask for the same executable.
  predicate Agree(items: seq<Item>) {
    forall i, j ::
      0 <= i < |items| && 0 <= j < |items| && items[i].entry == items[j].entry ==>
        items[i].installed == items[j].installed
  }

  lemma {:induction false} ItemsPlanned(redirects: map<string, (string, string)>, items: seq<Item>)
    requires PlansItems(redirects, items)
    ensures forall i :: 0 <= i < |items| ==> items[i].entry in redirects
    ensures forall k :: k in redirects ==>
              exists i :: 0 <= i < |items| && items[i].entry == k && items[i].installed == redirects[k].1
    ensures Agree(items) <==>
              forall i :: 0 <= i < |items| ==>
                items[i].entry in redirects && redirects[items[i].entry].1 == items[i].installed
  {
    var wanted := Wanted(items);
    forall i | 0 <= i < |items| ensures items[i].entry in redirects {
      LastWantedAmong(wanted, items[i].entry);
      assert wanted[i].0 == items[i].entry;
    }
    forall k | k in redirects
      ensures exists i :: 0 <= i < |items| && items[i].entry == k && items[i].installed == redirects[k].1
    {
      LastWantedAmong(wanted, k);
      var i :| 0 <= i < |wanted| && wanted[i] == (k, redirects[k].1);
      assert items[i].entry == k;
    }
  }

  // --- On files -------------------------------------------------------------

  lemma {:induction false} RepairedFits(
    v: Version, pool: seq<string>, sections: Dict, sections': Dict, redirects: map<string, (string, string)>)
    requires FitsAll(v, pool, Abs(sections)) && Find(sections, LAUNCH).Some? && Find(sections', LAUNCH).Some?
    requires sections' == Graft(sections, LAUNCH, Find(sections', LAUNCH).value)
    requires Abs(Find(sections', LAUNCH).value)
          == Overlay(Abs(Find(sections, LAUNCH).value), Plan(redirects, map[]), redirects.Keys, {})
    requires forall k :: k in redirects ==> Storable(redirects[k].1)
    ensures FitsAll(v, pool, Abs(sections'))
  {
    hide Overlay, Find, Graft, FitsAll, Storable;
    var launch, launch' := Find(sections, LAUNCH).value, Find(sections', LAUNCH).value;
    AbsFind(sections, LAUNCH);
    FitsAt(v, pool, Abs(sections), LAUNCH);
    FitsOverlay(v, pool, Abs(launch), Plan(redirects, map[]), redirects.Keys, {});
    AbsGraft(sections, LAUNCH, launch');
    FitsGraft(v, pool, Abs(sections), LAUNCH, Abs(launch'));
  }

  // Rewriting the recorded entries of a file.
  lemma {:induction false} RepairStep(
    h: Host, sums: Sums, file: Bytes, p: Image, appid: Word32, items: seq<Item>, actuals: seq<Option<Value>>,
    file': Bytes)
    returns (q: Image, redirects: map<string, (string, string)>)
    requires Loaded(file, p, appid) && |items| == |actuals|
    requires forall i :: 0 <= i < |items| ==> Storable(items[i].installed)
    requires Repaired(h, sums, file, appid, items, actuals) == Ok(file')
    ensures Loaded(file', q, appid) && OnlyApp(p, q, appid) && PlansItems(redirects, items)
    ensures var sections, sections' := p.records[appid].sections, q.records[appid].sections;
            && Find(sections, LAUNCH).Some? && Find(sections', LAUNCH).Some?
            && sections' == Graft(sections, LAUNCH, Find(sections', LAUNCH).value)
            && Records(Plan(redirects, map[]), Abs(Find(sections, LAUNCH).value))
            && Abs(Find(sections', LAUNCH).value)
               == Overlay(Abs(Find(sections, LAUNCH).value), Plan(redirects, map[]), redirects.Keys, {})
  {
    hide Parse, WellFormed, Representable, FitsAll, Rewrite, Storable, OnlyApp, Find, Graft, Redirected, Records,
      Overlay;
    var sections := p.records[appid].sections;
    var sections' := Redirected(h, sections, items, actuals).value;
    LoadedFits(file, p, appid);
    redirects := RedirectedOverlay(h, sections, items, actuals, sections');
    ItemsPlanned(redirects, items);
    forall k | k in redirects ensures Storable(redirects[k].1) {
      var i :| 0 <= i < |items| && items[i].entry == k;
    }
    RepairedFits(p.version, p.pool, sections, sections', redirects);
    EditStep(file, p, appid, sections', sums);
    q := Parse(file').value;
  }

  // Only the recorded executables differ.
  ghost predicate OnlyExecutables(before: Section, after: Section, items: seq<Item>) {
    && after.Keys == before.Keys
    && forall k :: k in before ==>
         if (exists i :: 0 <= i < |items| && items[i].entry == k)
         then before[k].Branch? && exists e :: after[k] == SetField(before[k], "executable", Leaf(e))
         else after[k] == before[k]
  }

  lemma {:induction false} OverlayOnlyExecutables(
    native: Section, redirects: map<string, (string, string)>, items: seq<Item>)
    requires Records(Plan(redirects, map[]), native) && PlansItems(redirects, items)
    ensures OnlyExecutables(native, Overlay(native, Plan(redirects, map[]), redirects.Keys, {}), items)
  {
    hide OverlayItem, PlansItems, SetField;
    ItemsPlanned(redirects, items);
    forall k | k in native
      ensures OverlayItem(native[k], k, Plan(redirects, map[]), redirects.Keys, {})
           == if k in redirects then SetField(native[k], "executable", Leaf(redirects[k].1)) else native[k]
    {
      RedirectedItem(native[k], k, redirects);
    }
  }

  lemma {:induction false} RedirectedItem(item: Tree, key: string, redirects: map<string, (string, string)>)
    ensures OverlayItem(item, key, Plan(redirects, map[]), redirects.Keys, {})
         == if key in redirects then SetField(item, "executable", Leaf(redirects[key].1)) else item
  {
  }

  // A healthy mapping has records that agree.
  lemma {:induction false} HealthyAgrees(img: Image, appid: int, items: seq<Item>, files: Files)
    requires InOrder(img, appid, items, files)
    ensures Agree(items)
  {
    hide Find;
    var launch := Find(SectionsOf(img, appid, NoLaunchSection).value, LAUNCH).value;
    forall i, j | 0 <= i < |items| && 0 <= j < |items| && items[i].entry == items[j].entry
      ensures items[i].installed == items[j].installed
    {
      ActualsAt(launch, items, i);
      ActualsAt(launch, items, j);
    }
  }

  // What a repair that wrote the file leaves.
  ghost predicate Rewrote(p: Image, file': Bytes, appid: Word32, items: seq<Item>) {
    && Parse(file').Ok?
    && (var q := Parse(file').value;
        && Loaded(file', q, appid) && OnlyApp(p, q, appid)
        && (var sections, sections' := p.records[appid].sections, q.records[appid].sections;
            && Find(sections, LAUNCH).Some? && Find(sections', LAUNCH).Some?
            && sections' == Graft(sections, LAUNCH, Find(sections', LAUNCH).value)
            && OnlyExecutables(
                 Abs(Find(sections, LAUNCH).value), Abs(Find(sections', LAUNCH).value), items)))
  }

  lemma {:induction false} RewroteHealth(
    h: Host, sums: Sums, file: Bytes, p: Image, recorded: Recorded, expected: Option<int>, files: Files,
    actuals: seq<Option<Value>>, file': Bytes)
    requires recorded.Recorded? && 0 <= recorded.appid < LIMIT32 && Loaded(file, p, recorded.appid)
    requires expected.Some? ==> expected.value == recorded.appid
    requires forall i :: 0 <= i < |recorded.items| ==> Storable(recorded.items[i].installed)
    requires files.config && LaunchersPresent(recorded.items, files) && |actuals| == |recorded.items|
    requires Repaired(h, sums, file, recorded.appid, recorded.items, actuals) == Ok(file')
    ensures Rewrote(p, file', recorded.appid, recorded.items)
    ensures Inspect(Some(file'), recorded, expected, files).Ok?
    ensures Inspect(Some(file'), recorded, expected, files).value.health == Healthy <==> Agree(recorded.items)
  {
    hide Loaded, OnlyApp, Inspect, Repaired, OnlyExecutables, Storable, PlansItems, InOrder, Rewrote, Runs,
      ActualsIn, Agree;
    var appid, items := recorded.appid, recorded.items;
    var q, redirects := RewroteImage(h, sums, file, p, appid, items, actuals, file');
    RunsInOrder(q, appid, items, files, redirects);
    InspectLoaded(file', q, recorded, expected, files);
    HealthyExactly(Some(file'), recorded, expected, files);
  }

  // Each recorded entry of the image runs what was planned last.
  ghost predicate Runs(q: Image, appid: int, items: seq<Item>, redirects: map<string, (string, string)>) {
    && ActualsIn(q, appid, items).Ok?
    && forall i :: 0 <= i < |items| ==>
         items[i].entry in redirects
         && ActualsIn(q, appid, items).value[i] == Some(Text(redirects[items[i].entry].1))
  }

  lemma {:induction false} RewroteImage(
    h: Host, sums: Sums, file: Bytes, p: Image, appid: Word32, items: seq<Item>, actuals: seq<Option<Value>>,
    file': Bytes)
    returns (q: Image, redirects: map<string, (string, string)>)
    requires Loaded(file, p, appid) && |items| == |actuals|
    requires forall i :: 0 <= i < |items| ==> Storable(items[i].installed)
    requires Repaired(h, sums, file, appid, items, actuals) == Ok(file')
    ensures Parse(file') == Ok(q) && Rewrote(p, file', appid, items)
    ensures PlansItems(redirects, items) && Runs(q, appid, items, redirects)
  {
    hide Loaded, OnlyApp, Find, Graft, Repaired, Records, Overlay, OnlyExecutables, Storable, PlansItems, Actuals;
    q, redirects := RepairStep(h, sums, file, p, appid, items, actuals, file');
    var _ := SectionsAt(file', q, appid);
    var _ := SectionsAt(file, p, appid);
    var launch := Find(p.records[appid].sections, LAUNCH).value;
    var launch' := Find(q.records[appid].sections, LAUNCH).value;
    OverlayOnlyExecutables(Abs(launch), redirects, items);
    ItemsPlanned(redirects, items);
    OverlaidActuals(launch', Abs(launch), redirects, items);
    assert ActualsIn(q, appid, items) == Actuals(launch', items);
  }

  lemma {:induction false} RunsInOrder(
    q: Image, appid: int, items: seq<Item>, files: Files, redirects: map<string, (string, string)>)
    requires PlansItems(redirects, items) && Runs(q, appid, items, redirects)
    requires files.config && LaunchersPresent(items, files)
    ensures InOrder(q, appid, items, files) <==> Agree(items)
  {
    hide PlansItems, ActualsIn, Agree;
    ItemsPlanned(redirects, items);
  }

  // A repair that returns reports a healthy mapping if and only if all records
  // of an entry agree. Either the mapping was healthy and the file is the same,
  // or the file reads back with nothing changed but the recorded executables of
  // this app.
  lemma {:induction false} RepairHeals(
    h: Host, sums: Sums, file: Bytes, p: Image, recorded: Recorded, expected: Option<int>, files: Files, force: bool,
    running: bool, fails: Operation -> bool, file': Option<Bytes>, info: Info)
    requires recorded.Recorded? && 0 <= recorded.appid < LIMIT32 && Loaded(file, p, recorded.appid)
    requires forall i :: 0 <= i < |recorded.items| ==> Storable(recorded.items[i].installed)
    requires Repair(h, sums, Some(file), recorded, expected, files, force, running, fails) == Ok((file', info))
    ensures info.health == Healthy <==> Agree(recorded.items)
    ensures file'.Some?
    ensures file'.value != file ==> Rewrote(p, file'.value, recorded.appid, recorded.items)
  {
    hide Loaded, Inspect, Repaired, Storable, Rewrote, Agree;
    var first := Inspect(Some(file), recorded, expected, files).value;
    InspectedApp(Some(file), recorded, expected, files);
    if first.health == Healthy {
      HealthyExactly(Some(file), recorded, expected, files);
      HealthyAgrees(Parse(file).value, recorded.appid, recorded.items, files);
    } else {
      RewroteHealth(h, sums, file, p, recorded, expected, files, first.actuals, file'.value);
    }
  }

  lemma {:induction false} InspectedApp(file: Option<Bytes>, recorded: Recorded, expected: Option<int>, files: Files)
    requires recorded.Recorded? && Inspect(file, recorded, expected, files).Ok?
    requires Inspect(file, recorded, expected, files).value.health in {Stale, Foreign, Healthy}
    ensures expected.Some? ==> expected.value == recorded.appid
  {
  }
}
