// The life of an app's Cloud overrides: installed, refreshed by Steam, restored,
// installed again, in any order. Nothing but recorded overrides and owned links
// ever differs from what was there at first, and a restore gives that back unless
// Steam has reset an override.
module CloudLife {
  import opened Wrappers
  import opened Words
  import opened Vdf
  import opened Codec
  import opened AppImage
  import opened Cloud
  import opened CloudUndo
  import opened CloudFiles
  import opened Storage
  import opened EndToEnd
  import CloudRuns
  import Launch

  // The image, the links, and the recorded mapping of one app.
  datatype CloudWorld = CloudWorld(file: Bytes, links: Links, state: Option<CloudState>)

  datatype CloudAction =
    | Install(env: Env)
    | Restore
    | Refresh(newer: Bytes)
    | Reload(again: CloudState)

  // The app has Auto-Cloud rules, and its overrides are a dictionary or missing.
  ghost predicate HasTable(file: Bytes, appid: Word32) {
    && Parse(file).Ok? && Loaded(file, Parse(file).value, appid)
    && (var sections := Parse(file).value.records[appid].sections;
        Find(sections, UFS).Some? && Overrides(Find(sections, UFS).value).Ok?)
  }

  // The overrides of the app; a missing table is an empty one.
  ghost function OverridesOf(file: Bytes, appid: Word32): map<string, Tree>
    requires HasTable(file, appid)
  {
    Abs(Overrides(Find(Parse(file).value.records[appid].sections, UFS).value).value)
  }

  function Entries(w: CloudWorld): seq<CloudEntry> {
    match w.state
    case Some(st) => st.entries
    case None => []
  }

  // --- Runs -----------------------------------------------------------------

  // Steam writes the file anew and may put recorded overrides back.
  ghost predicate Refreshes(appid: Word32, w: CloudWorld, newer: Bytes) {
    && HasTable(w.file, appid) && HasTable(newer, appid)
    && ResetSome(OverridesOf(w.file, appid), OverridesOf(newer, appid), Entries(w))
  }

  ghost predicate ResetSome(table: map<string, Tree>, table': map<string, Tree>, entries: seq<CloudEntry>) {
    forall k :: Lookup(table', k) == Lookup(table, k) || IsReset(table', entries, k)
  }

  ghost predicate IsReset(table: map<string, Tree>, entries: seq<CloudEntry>, key: string) {
    exists i :: 0 <= i < |entries| && entries[i].key == key && Lookup(table, key) == AbsOption(entries[i].original)
  }

  // The scripts take an earlier mapping away before they install.
  ghost predicate Allowed(appid: Word32, w: CloudWorld, a: CloudAction) {
    match a
    case Install(env) => w.state.None? && Arguments(env)
    case Restore => true
    case Refresh(newer) => Refreshes(appid, w, newer)
    case Reload(again) =>
      w.state.Some? && again.appid == w.state.value.appid && Reloaded(w.state.value.entries, again.entries)
  }

  function Next(sums: Sums, appid: Word32, w: CloudWorld, a: CloudAction): CloudWorld {
    match a
    case Install(env) =>
      (match InstallCloud(env, sums, w.file, w.links, appid, true)
       case Ok((file, links, st)) => CloudWorld(file, links, Some(st))
       case Err(_) => w)
    case Restore =>
      if w.state.None? then w
      else (match RestoreCloud(sums, w.file, w.links, w.state.value, Some(appid))
            case Ok((file, links)) => CloudWorld(file, links, None)
            case Err(_) => w)
    case Refresh(newer) => w.(file := newer)
    case Reload(again) => w.(state := Some(again))
  }

  ghost predicate Run(sums: Sums, appid: Word32, w: CloudWorld, actions: seq<CloudAction>, w': CloudWorld)
    decreases actions
  {
    if actions == [] then w' == w
    else Allowed(appid, w, actions[0]) && Run(sums, appid, Next(sums, appid, w, actions[0]), actions[1..], w')
  }

  // --- The invariant --------------------------------------------------------

  // Each recorded override is in force or as it was, and every other is as it was.
  ghost predicate PartlyOverlaid(native: map<string, Tree>, table: map<string, Tree>, entries: seq<CloudEntry>) {
    && (forall i :: 0 <= i < |entries| ==> AbsOption(entries[i].original) == Lookup(native, entries[i].key))
    && (forall i :: 0 <= i < |entries| ==>
          || Lookup(table, entries[i].key) == Some(AbsValue(entries[i].generated))
          || Lookup(table, entries[i].key) == Lookup(native, entries[i].key))
    && (forall k :: (forall i :: 0 <= i < |entries| ==> entries[i].key != k) ==> Lookup(table, k) == Lookup(native, k))
  }

  ghost predicate Recordable(entries: seq<CloudEntry>) {
    entries != [] && DistinctKeys(entries) && ProperEntries(entries)
  }

  // `native` and `before` are the overrides and the links there were at first.
  ghost predicate Safe(appid: Word32, native: map<string, Tree>, before: Links, w: CloudWorld) {
    && HasTable(w.file, appid) && FitsAll(V28, [], native)
    && (match w.state
        case None => OverridesOf(w.file, appid) == native && w.links == before
        case Some(st) =>
          && st.appid == appid && Recordable(st.entries)
          && PartlyOverlaid(native, OverridesOf(w.file, appid), st.entries)
          && LinksAdded(before, w.links, st.entries))
  }

  lemma {:induction false} OverlaidPartly(
    native: map<string, Tree>, table: map<string, Tree>, entries: seq<CloudEntry>)
    ensures Overlaid(native, table, entries) <==> PartlyOverlaid(native, table, entries) && InForce(table, entries)
  {
    hide Lookup;
  }

  lemma {:induction false} InstallKeeps(
    sums: Sums, appid: Word32, native: map<string, Tree>, before: Links, w: CloudWorld, env: Env)
    requires Safe(appid, native, before, w) && w.state.None? && Arguments(env)
    ensures Safe(appid, native, before, Next(sums, appid, w, Install(env)))
  {
    hide Parse, Loaded, OnlyApp, Sized, Find, Graft, CloudInstall, InstallCloud, Overlaid, PartlyOverlaid, LinksAdded,
      Overrides, Arguments, DistinctKeys, ProperEntries, FitsAll, InForce;
    if InstallCloud(env, sums, w.file, w.links, appid, true).Ok? {
      var (file, links, st) := InstallCloud(env, sums, w.file, w.links, appid, true).value;
      var p := Parse(w.file).value;
      var q := CloudStep(env, sums, w.file, p, appid, w.links, file, links, st);
      var sections := SectionsAt(w.file, p, appid);
      var sections' := SectionsAt(file, q, appid);
      InstallsOverrides(env, appid, sections, w.links, sections', links, st.entries);
      OverlaidPartly(native, OverridesOf(file, appid), st.entries);
    }
  }

  lemma {:induction false} OriginalsFit(native: map<string, Tree>, table: map<string, Tree>, entries: seq<CloudEntry>)
    requires FitsAll(V28, [], native) && PartlyOverlaid(native, table, entries) && ProperEntries(entries)
    ensures CloudRuns.OriginalsFit(entries)
  {
    hide Fits;
    forall i | 0 <= i < |entries| && entries[i].original.Some?
      ensures Fits(V28, [], AbsValue(entries[i].original.value))
    {
      assert Lookup(native, entries[i].key) == Some(AbsValue(entries[i].original.value));
    }
  }

  // Restoring a safe world succeeds if and only if every recorded override is in
  // force, unless a field of the format overflows; it then gives back the first
  // overrides and links, and changes no other app.
  lemma {:induction false} RestoreOutcome(
    sums: Sums, appid: Word32, native: map<string, Tree>, before: Links, w: CloudWorld)
    requires Safe(appid, native, before, w) && w.state.Some?
    ensures match RestoreCloud(sums, w.file, w.links, w.state.value, Some(appid))
            case Err(e) =>
              e == if InForce(OverridesOf(w.file, appid), w.state.value.entries) then TooLarge else ChangedUnexpectedly
            case Ok((file, links)) =>
              && InForce(OverridesOf(w.file, appid), w.state.value.entries)
              && HasTable(file, appid) && OverridesOf(file, appid) == native && links == before
              && OnlyApp(Parse(w.file).value, Parse(file).value, appid)
  {
    hide Parse, Loaded, OnlyApp, Sized, Find, Graft, RestoreCloud, CloudRestore, Overlaid, PartlyOverlaid,
      LinksAdded, Overrides, DistinctKeys, ProperEntries, FitsAll, InForce, RemoveLinks, PutBack, RestoreAll,
      CurrentOverrides, CloudRuns.OriginalsFit;
    var st, p := w.state.value, Parse(w.file).value;
    var table := OverridesOf(w.file, appid);
    var sections := SectionsAt(w.file, p, appid);
    var ufs := Find(sections, UFS).value;
    var overrides := Overrides(ufs).value;
    ProperFind(sections, UFS);
    ProperTable(ufs, overrides);
    CloudRuns.CurrentTable(sections, ufs);
    OriginalsFit(native, table, st.entries);
    RestoreExact(overrides, st.entries);
    if InForce(table, st.entries) {
      OverlaidPartly(native, table, st.entries);
      PutBackOverlaid(native, table, Abs(RestoreAll(overrides, st.entries).value), st.entries);
      LinksUndone(before, w.links, st.entries);
      RestoresFile(sums, w.file, p, appid, w.links, st, overrides);
    } else {
      CloudRuns.RestoreRefusal(overrides, st.entries);
      CloudRuns.RefusedOn(sums, w.file, p, appid, w.links, st);
    }
  }

  lemma {:induction false} RestoresFile(
    sums: Sums, file: Bytes, p: Image, appid: Word32, links: Links, st: CloudState, overrides: Dict)
    requires Loaded(file, p, appid) && CloudRuns.OriginalsFit(st.entries) && Recordable(st.entries)
    requires st.appid == appid && CurrentOverrides(p.records[appid].sections) == Ok(overrides)
    requires RestoreAll(overrides, st.entries).Ok?
    ensures match RestoreCloud(sums, file, links, st, Some(appid))
            case Err(e) => e == TooLarge
            case Ok((file', links')) =>
              && HasTable(file', appid) && OverridesOf(file', appid) == Abs(RestoreAll(overrides, st.entries).value)
              && links' == RemoveLinks(links, st.entries)
              && OnlyApp(p, Parse(file').value, appid)
  {
    hide Parse, WellFormed, Representable, Rewrite, OnlyApp, Sized, Find, CloudRestore, DistinctKeys, ProperEntries,
      FitsAll, RemoveLinks, RestoreAll, CurrentOverrides, CloudRuns.OriginalsFit, Abs;
    var sections := p.records[appid].sections;
    LoadedFits(file, p, appid);
    CloudRuns.Restores(sections, st.entries);
    var (sections', changed) := CloudRestore(sections, st.entries).value;
    CloudRuns.RestoredSections(p.version, p.pool, sections, st.entries, sections', changed);
    var ufs, _, restored := CloudRuns.RestoredTable(sections, st.entries, sections', changed);
    GetPut(ufs, "rootoverrides", Sub(restored), "rootoverrides");
    EditStep(file, p, appid, sections', sums);
  }

  lemma {:induction false} RefreshKeeps(
    appid: Word32, native: map<string, Tree>, before: Links, w: CloudWorld, newer: Bytes)
    requires Safe(appid, native, before, w) && Refreshes(appid, w, newer)
    ensures Safe(appid, native, before, w.(file := newer))
  {
    hide HasTable, OverridesOf, FitsAll, LinksAdded, ProperEntries;
    var table, table' := OverridesOf(w.file, appid), OverridesOf(newer, appid);
    if w.state.Some? {
      ResetPartly(native, table, table', w.state.value.entries);
    } else {
      LookupExtensional(table', table);
    }
  }

  lemma {:induction false} ResetPartly(
    native: map<string, Tree>, table: map<string, Tree>, table': map<string, Tree>, entries: seq<CloudEntry>)
    requires PartlyOverlaid(native, table, entries) && ResetSome(table, table', entries) && DistinctKeys(entries)
    ensures PartlyOverlaid(native, table', entries)
  {
    hide Lookup;
  }

  lemma {:induction false} ReloadKeeps(
    appid: Word32, native: map<string, Tree>, before: Links, w: CloudWorld, again: CloudState)
    requires Safe(appid, native, before, w) && w.state.Some? && again.appid == appid
    requires Reloaded(w.state.value.entries, again.entries)
    ensures Safe(appid, native, before, w.(state := Some(again)))
  {
    hide HasTable, OverridesOf, FitsAll, Lookup;
    ReloadedLinks(before, w.links, w.state.value.entries, again.entries);
  }

  lemma {:induction false} NextKeeps(
    sums: Sums, appid: Word32, native: map<string, Tree>, before: Links, w: CloudWorld, a: CloudAction)
    requires Safe(appid, native, before, w) && Allowed(appid, w, a)
    ensures Safe(appid, native, before, Next(sums, appid, w, a))
  {
    hide HasTable, OverridesOf, FitsAll, PartlyOverlaid, LinksAdded, Recordable, Reloaded, InstallCloud, RestoreCloud,
      Arguments, Refreshes, OnlyApp, InForce;
    match a
    case Install(env) => InstallKeeps(sums, appid, native, before, w, env);
    case Restore =>
      if w.state.Some? {
        RestoreOutcome(sums, appid, native, before, w);
      }
    case Refresh(newer) => RefreshKeeps(appid, native, before, w, newer);
    case Reload(again) => ReloadKeeps(appid, native, before, w, again);
  }

  // Whatever happens to a mapping, only its recorded overrides and owned links
  // differ from those at first; without a mapping nothing does.
  lemma {:induction false} EveryRun(
    sums: Sums, appid: Word32, native: map<string, Tree>, before: Links, w: CloudWorld, actions: seq<CloudAction>,
    w': CloudWorld)
    requires Safe(appid, native, before, w) && Run(sums, appid, w, actions, w')
    ensures Safe(appid, native, before, w')
    decreases actions
  {
    hide Safe, Allowed, Next;
    if actions != [] {
      NextKeeps(sums, appid, native, before, w, actions[0]);
      EveryRun(sums, appid, native, before, Next(sums, appid, w, actions[0]), actions[1..], w');
    }
  }

  // --- Other tools ----------------------------------------------------------

  // A file with the same Auto-Cloud section is a refresh that resets nothing.
  lemma {:induction false} SameTableRefreshes(appid: Word32, w: CloudWorld, newer: Bytes)
    requires HasTable(w.file, appid) && Parse(newer).Ok? && Loaded(newer, Parse(newer).value, appid)
    requires Find(Parse(newer).value.records[appid].sections, UFS)
          == Find(Parse(w.file).value.records[appid].sections, UFS)
    ensures HasTable(newer, appid) && OverridesOf(newer, appid) == OverridesOf(w.file, appid)
    ensures Refreshes(appid, w, newer)
  {
    hide Parse, Loaded, Find;
  }

  // So is one with another launch section.
  lemma {:induction false} LaunchRefreshes(appid: Word32, w: CloudWorld, newer: Bytes)
    requires HasTable(w.file, appid) && Parse(newer).Ok? && Loaded(newer, Parse(newer).value, appid)
    requires var sections := Parse(w.file).value.records[appid].sections;
             var sections' := Parse(newer).value.records[appid].sections;
             && Find(sections, Launch.LAUNCH).Some? && Find(sections', Launch.LAUNCH).Some?
             && sections' == Graft(sections, Launch.LAUNCH, Find(sections', Launch.LAUNCH).value)
    ensures HasTable(newer, appid) && OverridesOf(newer, appid) == OverridesOf(w.file, appid)
    ensures Refreshes(appid, w, newer)
  {
    hide Parse, Loaded, Find, Graft;
    var sections := SectionsAt(w.file, Parse(w.file).value, appid);
    var sections' := SectionsAt(newer, Parse(newer).value, appid);
    Places();
    FindGraftOther(sections, Launch.LAUNCH, Find(sections', Launch.LAUNCH).value, UFS);
    SameTableRefreshes(appid, w, newer);
  }

  // --- What a reset does ----------------------------------------------------

  // Some recorded override is not in force any more.
  ghost predicate Locked(appid: Word32, w: CloudWorld) {
    w.state.Some? && HasTable(w.file, appid) && !InForce(OverridesOf(w.file, appid), w.state.value.entries)
  }

  lemma {:induction false} ResetStays(
    native: map<string, Tree>, table: map<string, Tree>, table': map<string, Tree>, entries: seq<CloudEntry>)
    requires PartlyOverlaid(native, table, entries) && ResetSome(table, table', entries) && DistinctKeys(entries)
    requires !InForce(table, entries)
    ensures !InForce(table', entries)
  {
    hide Lookup;
    var i :| 0 <= i < |entries| && Lookup(table, entries[i].key) != Some(AbsValue(entries[i].generated));
    assert Lookup(table', entries[i].key) == Lookup(table, entries[i].key);
  }

  lemma {:induction false} NextLocked(
    sums: Sums, appid: Word32, native: map<string, Tree>, before: Links, w: CloudWorld, a: CloudAction)
    requires Safe(appid, native, before, w) && Allowed(appid, w, a) && Locked(appid, w)
    ensures Locked(appid, Next(sums, appid, w, a)) && Next(sums, appid, w, a).links == w.links
  {
    hide HasTable, OverridesOf, FitsAll, PartlyOverlaid, LinksAdded, Reloaded, InstallCloud, RestoreCloud,
      Arguments, OnlyApp, InForce, DistinctKeys, ProperEntries, ResetSome;
    match a
    case Restore => RestoreOutcome(sums, appid, native, before, w);
    case Refresh(newer) =>
      ResetStays(native, OverridesOf(w.file, appid), OverridesOf(newer, appid), w.state.value.entries);
    case Reload(again) => ReloadLocked(OverridesOf(w.file, appid), w.state.value.entries, again.entries);
    case Install(_) =>
  }

  lemma {:induction false} ReloadLocked(
    table: map<string, Tree>, entries: seq<CloudEntry>, again: seq<CloudEntry>)
    requires Reloaded(entries, again)
    ensures InForce(table, again) <==> InForce(table, entries)
  {
    hide Lookup;
  }

  // The refresh that does it: Steam writes the table there was at first, and the
  // mapping had changed something.
  lemma {:induction false} ResetLocks(
    sums: Sums, appid: Word32, native: map<string, Tree>, before: Links, w: CloudWorld, newer: Bytes, i: nat)
    requires Safe(appid, native, before, w) && HasTable(newer, appid) && OverridesOf(newer, appid) == native
    requires i < |Entries(w)| && AbsOption(Entries(w)[i].original) != Some(AbsValue(Entries(w)[i].generated))
    ensures Allowed(appid, w, Refresh(newer)) && Locked(appid, Next(sums, appid, w, Refresh(newer)))
  {
    hide HasTable, OverridesOf, FitsAll, LinksAdded, Lookup;
    var entries := Entries(w);
    forall k ensures Lookup(native, k) == Lookup(OverridesOf(w.file, appid), k) || IsReset(native, entries, k) {
      if j :| 0 <= j < |entries| && entries[j].key == k {
        assert Lookup(native, entries[j].key) == AbsOption(entries[j].original);
      }
    }
    assert Lookup(native, entries[i].key) == AbsOption(entries[i].original);
  }

  // Once Steam has reset a single override that the mapping had changed, the
  // mapping stays for good: in every later world it is still recorded, its links
  // are there, and the restore is refused.
  lemma {:induction false} LockedForGood(
    sums: Sums, appid: Word32, native: map<string, Tree>, before: Links, w: CloudWorld, actions: seq<CloudAction>,
    w': CloudWorld)
    requires Safe(appid, native, before, w) && Locked(appid, w) && Run(sums, appid, w, actions, w')
    ensures w'.state.Some? && w'.links == w.links
    ensures RestoreCloud(sums, w'.file, w'.links, w'.state.value, Some(appid)) == Err(ChangedUnexpectedly)
    decreases actions
  {
    hide Safe, Allowed, Next, RestoreCloud, InForce;
    if actions == [] {
      RestoreOutcome(sums, appid, native, before, w);
    } else {
      var w1 := Next(sums, appid, w, actions[0]);
      NextKeeps(sums, appid, native, before, w, actions[0]);
      NextLocked(sums, appid, native, before, w, actions[0]);
      LockedForGood(sums, appid, native, before, w1, actions[1..], w');
    }
  }
}
