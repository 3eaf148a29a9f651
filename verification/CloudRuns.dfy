// What the Cloud tools do to a launch mapping: nothing. So in the life of a
// mapping they are refreshes by Steam that reset no entry.
module CloudRuns {
  import opened Wrappers
  import opened Words
  import opened Vdf
  import opened Codec
  import opened AppImage
  import opened Launch
  import opened Plan
  import opened Cloud
  import opened CloudUndo
  import opened CloudFiles
  import opened Storage
  import opened EndToEnd
  import opened Lifecycle
  import opened Sizes
  import Editor

  // --- Restoring overrides --------------------------------------------------

  // The recorded originals are dictionaries an image can hold.
  ghost predicate OriginalsFit(entries: seq<CloudEntry>) {
    && ProperEntries(entries)
    && forall i :: 0 <= i < |entries| && entries[i].original.Some? ==>
         Fits(V28, [], AbsValue(entries[i].original.value))
  }

  lemma {:induction false} RestoreOneFits(v: Version, pool: seq<string>, overrides: Dict, entry: CloudEntry)
    requires Proper(overrides) && FitsAll(v, pool, Abs(overrides)) && RestoreOne(overrides, entry).Ok?
    requires entry.original.Some? ==>
               ProperValue(entry.original.value) && Fits(v, pool, AbsValue(entry.original.value))
    ensures Proper(RestoreOne(overrides, entry).value)
    ensures FitsAll(v, pool, Abs(RestoreOne(overrides, entry).value))
  {
    hide RestoreOne, Fits, KeyFits;
    RestoreOneEffect(overrides, entry);
    var r := Abs(RestoreOne(overrides, entry).value);
    assert Lookup(Abs(overrides), entry.key).Some?;
    forall k | k in r ensures KeyFits(v, pool, k) && Fits(v, pool, r[k]) {
      assert Lookup(r, k).Some?;
    }
  }

  lemma {:induction false} RestoreAllFits(v: Version, pool: seq<string>, overrides: Dict, entries: seq<CloudEntry>)
    requires Proper(overrides) && FitsAll(v, pool, Abs(overrides)) && RestoreAll(overrides, entries).Ok?
    requires OriginalsFit(entries)
    ensures Proper(RestoreAll(overrides, entries).value)
    ensures FitsAll(v, pool, Abs(RestoreAll(overrides, entries).value))
    decreases entries
  {
    hide RestoreOne, Fits, FitsAll;
    if entries != [] {
      if entries[0].original.Some? {
        FitsAnywhere(v, pool, AbsValue(entries[0].original.value));
      }
      RestoreOneFits(v, pool, overrides, entries[0]);
      RestoreAllFits(v, pool, RestoreOne(overrides, entries[0]).value, entries[1..]);
    }
  }

  // The table a restore works on, once there is one.
  lemma {:induction false} CurrentTable(sections: Dict, ufs: Dict)
    requires Find(sections, UFS) == Some(ufs)
    ensures CurrentOverrides(sections) == Overrides(ufs)
  {
    assert UFS[1..] == ["ufs"] && ["appinfo"][1..] == [] && ["ufs"][1..] == [];
  }

  lemma {:induction false} RestoredSections(
    v: Version, pool: seq<string>, sections: Dict, entries: seq<CloudEntry>, sections': Dict, changed: bool)
    requires Proper(sections) && FitsAll(v, pool, Abs(sections)) && OriginalsFit(entries)
    requires CloudRestore(sections, entries) == Ok((sections', changed))
    ensures Proper(sections') && FitsAll(v, pool, Abs(sections'))
    ensures Find(sections', LAUNCH) == Find(sections, LAUNCH)
  {
    hide Fits, FitsAll, Find, Graft, RestoreAll, Abs, CurrentOverrides, Overrides;
    if Find(sections, UFS).Some? {
      var ufs := Find(sections, UFS).value;
      if Has(ufs, "rootoverrides") && entries != [] {
        CurrentTable(sections, ufs);
        var overrides := Overrides(ufs).value;
        ProperFind(sections, UFS);
        ProperTable(ufs, overrides);
        AbsFind(sections, UFS);
        FitsAt(v, pool, Abs(sections), UFS);
        TableIn(v, pool, ufs, overrides);
        RestoreAllFits(v, pool, overrides, entries);
        var restored := RestoreAll(overrides, entries).value;
        var ufs' := Put(ufs, "rootoverrides", Sub(restored));
        ProperPut(ufs, "rootoverrides", Sub(restored));
        ProperGraft(sections, UFS, ufs');
        AbsPut(ufs, "rootoverrides", Sub(restored));
        FitsOverrides(v, pool, Abs(ufs), Abs(restored));
        AbsGraft(sections, UFS, ufs');
        FitsGraft(v, pool, Abs(sections), UFS, Abs(ufs'));
        Places();
        FindGraftOther(sections, UFS, ufs', LAUNCH);
      }
    }
  }

  // --- On files -------------------------------------------------------------

  // The Cloud restore of any recorded state.
  lemma {:induction false} RestoreKeepsLaunch(
    sums: Sums, file: Bytes, appid: Word32, links: Links, st: CloudState, file': Bytes, links': Links)
    requires HasLaunch(file, appid) && OriginalsFit(st.entries)
    requires RestoreCloud(sums, file, links, st, Some(appid)) == Ok((file', links'))
    ensures HasLaunch(file', appid) && LaunchOf(file', appid) == LaunchOf(file, appid)
    ensures OnlyApp(Parse(file).value, Parse(file').value, appid) && links' == RemoveLinks(links, st.entries)
  {
    hide Parse, Loaded, FitsAll, Rewrite, OnlyApp, Find, Graft, CloudRestore, RemoveLinks, OriginalsFit;
    var p := Parse(file).value;
    var sections := SectionsAt(file, p, appid);
    LoadedFits(file, p, appid);
    LoadedSelf(file, p, appid);
    var (sections', changed) := CloudRestore(sections, st.entries).value;
    if changed {
      RestoredSections(p.version, p.pool, sections, st.entries, sections', changed);
      EditStep(file, p, appid, sections', sums);
      var q := Parse(file').value;
      StillHasLaunch(file', q, appid);
    }
  }

  lemma {:induction false} LoadedSelf(file: Bytes, p: Image, appid: Word32)
    requires Loaded(file, p, appid)
    ensures OnlyApp(p, p, appid)
  {
  }

  lemma {:induction false} RestoreRefusal(overrides: Dict, entries: seq<CloudEntry>)
    requires RestoreAll(overrides, entries).Err?
    ensures RestoreAll(overrides, entries).error == ChangedUnexpectedly
    decreases entries
  {
    hide Abs, Get, Put, Del;
    if entries != [] && RestoreOne(overrides, entries[0]).Ok? {
      RestoreRefusal(RestoreOne(overrides, entries[0]).value, entries[1..]);
    }
  }

  // The tables before and after a restore that had something to do.
  lemma {:induction false} RestoredTable(sections: Dict, entries: seq<CloudEntry>, sections': Dict, changed: bool)
    returns (ufs: Dict, overrides: Dict, restored: Dict)
    requires Proper(sections) && entries != [] && DistinctKeys(entries) && ProperEntries(entries)
    requires CloudRestore(sections, entries) == Ok((sections', changed))
    ensures changed && Find(sections, UFS) == Some(ufs) && CurrentOverrides(sections) == Ok(overrides)
    ensures Get(ufs, "rootoverrides") == Some(Sub(overrides)) && Proper(overrides)
    ensures RestoreAll(overrides, entries) == Ok(restored) && CurrentOverrides(sections') == Ok(restored)
    ensures sections' == Graft(sections, UFS, Put(ufs, "rootoverrides", Sub(restored)))
    ensures Find(sections', UFS) == Some(Put(ufs, "rootoverrides", Sub(restored)))
  {
    hide Abs, RestoreAll, Graft, Find, CurrentOverrides;
    overrides := CurrentOverrides(sections).value;
    restored := RestoreAll(overrides, entries).value;
    TableThere(sections, entries, overrides);
    ufs := Find(sections, UFS).value;
    ProperFind(sections, UFS);
    ProperTable(ufs, overrides);
    var ufs' := Put(ufs, "rootoverrides", Sub(restored));
    FindGraft(sections, UFS, ufs');
    GetPut(ufs, "rootoverrides", Sub(restored), "rootoverrides");
    CurrentTable(sections', ufs');
  }

  // What a first entry must find can only be in a table.
  lemma {:induction false} TableThere(sections: Dict, entries: seq<CloudEntry>, overrides: Dict)
    requires entries != [] && CurrentOverrides(sections) == Ok(overrides) && RestoreAll(overrides, entries).Ok?
    ensures Find(sections, UFS).Some? && Get(Find(sections, UFS).value, "rootoverrides") == Some(Sub(overrides))
  {
    assert UFS[1..] == ["ufs"] && ["appinfo"][1..] == [] && ["ufs"][1..] == [];
    assert RestoreOne(overrides, entries[0]).Ok?;
    assert overrides != Empty;
  }

  // Nothing but the table changes, and where every original is what was
  // generated not even that.
  lemma {:induction false} RestoredAgain(
    sections: Dict, entries: seq<CloudEntry>, sections': Dict, changed: bool, sections'': Dict, again: bool)
    requires Proper(sections) && Proper(sections') && entries != [] && DistinctKeys(entries) && ProperEntries(entries)
    requires CloudRestore(sections, entries) == Ok((sections', changed))
    requires CloudRestore(sections', entries) == Ok((sections'', again))
    ensures Abs(sections'') == Abs(sections')
  {
    hide CloudRestore, RestoreAll, Graft, Find, CurrentOverrides, Abs;
    var ufs, overrides, table := RestoredTable(sections, entries, sections', changed);
    var ufs', _, table' := RestoredTable(sections', entries, sections'', again);
    RestoreExact(overrides, entries);
    RestoreExact(table, entries);
    SecondRestore(overrides, entries);
    SamePutBack(Abs(table), Abs(table'), entries);
    AbsPut(ufs', "rootoverrides", Sub(table'));
    AbsGet(ufs', "rootoverrides");
    AbsGraft(sections', UFS, Put(ufs', "rootoverrides", Sub(table')));
    AbsFind(sections', UFS);
    TreeGraftSame(Abs(sections'), UFS, Abs(ufs'), Abs(ufs'));
    assert Abs(ufs')["rootoverrides" := Branch(Abs(table))] == Abs(ufs');
  }

  // A restore whose unlinking failed has written the image already. Run again
  // on that file it succeeds if and only if no recorded override had changed
  // anything, and else is refused.
  lemma {:induction false} SecondRestoreFile(
    sums: Sums, file: Bytes, p: Image, appid: Word32, links: Links, st: CloudState, file': Bytes, links': Links,
    left: Links)
    requires Loaded(file, p, appid) && OriginalsFit(st.entries) && DistinctKeys(st.entries) && st.entries != []
    requires RestoreCloud(sums, file, links, st, Some(appid)) == Ok((file', links'))
    ensures var again := RestoreCloud(sums, file', left, st, Some(appid));
            if forall i :: 0 <= i < |st.entries| ==>
                 AbsOption(st.entries[i].original) == Some(AbsValue(st.entries[i].generated))
            then again.Ok? && again.value.1 == RemoveLinks(left, st.entries)
            else again == Err(ChangedUnexpectedly)
  {
    hide Parse, Loaded, OnlyApp, Sized, CloudRestore, FitsAll, Find, Graft, RestoreAll, RemoveLinks,
      Settled, CurrentOverrides, DistinctKeys, RestoreCloud;
    var q, sections, sections', changed := FirstRestore(sums, file, p, appid, links, st, file', links');
    var ufs, overrides, table := RestoredTable(sections, st.entries, sections', changed);
    RestoreExact(overrides, st.entries);
    SecondRestore(overrides, st.entries);
    if RestoreAll(table, st.entries).Err? {
      RestoreRefusal(table, st.entries);
      RefusedOn(sums, file', q, appid, left, st);
    } else {
      Restores(sections', st.entries);
      SecondFits(sums, file', p, q, appid, left, st, sections, changed);
    }
  }

  lemma {:induction false} FirstRestore(
    sums: Sums, file: Bytes, p: Image, appid: Word32, links: Links, st: CloudState, file': Bytes, links': Links)
    returns (q: Image, sections: Dict, sections': Dict, changed: bool)
    requires Loaded(file, p, appid) && OriginalsFit(st.entries) && st.entries != []
    requires RestoreCloud(sums, file, links, st, Some(appid)) == Ok((file', links'))
    ensures Loaded(file', q, appid) && q.version == p.version && Sized(p, q, appid, sections')
    ensures sections' == q.records[appid].sections && Proper(sections) && Proper(sections') && st.appid == appid
    ensures CloudRestore(sections, st.entries) == Ok((sections', changed))
  {
    hide Parse, WellFormed, Representable, FitsAll, Rewrite, OnlyApp, Find, CloudRestore, RemoveLinks, OriginalsFit,
      Sized;
    sections := p.records[appid].sections;
    LoadedFits(file, p, appid);
    var restored := CloudRestore(sections, st.entries).value;
    sections', changed := restored.0, restored.1;
    Changes(sections, st.entries, sections', changed);
    RestoredSections(p.version, p.pool, sections, st.entries, sections', changed);
    EditStep(file, p, appid, sections', sums);
    q := Parse(file').value;
    OnlyAppPools(p, q, appid);
  }

  lemma {:induction false} Restores(sections: Dict, entries: seq<CloudEntry>)
    requires CurrentOverrides(sections).Ok? && RestoreAll(CurrentOverrides(sections).value, entries).Ok?
    ensures CloudRestore(sections, entries).Ok?
  {
    hide CurrentOverrides, RestoreAll, PutOverrides;
  }

  lemma {:induction false} Changes(sections: Dict, entries: seq<CloudEntry>, sections': Dict, changed: bool)
    requires CloudRestore(sections, entries) == Ok((sections', changed))
    ensures changed <==> entries != []
  {
    hide CurrentOverrides, RestoreAll, PutOverrides;
  }

  lemma {:induction false} RefusedOn(
    sums: Sums, file: Bytes, p: Image, appid: Word32, links: Links, st: CloudState)
    requires Loaded(file, p, appid) && st.appid == appid && CurrentOverrides(p.records[appid].sections).Ok?
    requires RestoreAll(CurrentOverrides(p.records[appid].sections).value, st.entries) == Err(ChangedUnexpectedly)
    ensures RestoreCloud(sums, file, links, st, Some(appid)) == Err(ChangedUnexpectedly)
  {
    hide Parse, WellFormed, Representable, Rewrite, CurrentOverrides, RestoreAll, RemoveLinks;
  }

  // Written once, the same sections have room.
  lemma {:induction false} SecondFits(
    sums: Sums, file: Bytes, p: Image, q: Image, appid: Word32, links: Links, st: CloudState, sections: Dict,
    changed: bool)
    requires Loaded(file, q, appid) && q.version == p.version && Sized(p, q, appid, q.records[appid].sections)
    requires OriginalsFit(st.entries) && DistinctKeys(st.entries) && st.entries != [] && st.appid == appid
    requires Proper(sections) && CloudRestore(sections, st.entries) == Ok((q.records[appid].sections, changed))
    requires CloudRestore(q.records[appid].sections, st.entries).Ok?
    ensures var again := RestoreCloud(sums, file, links, st, Some(appid));
            again.Ok? && again.value.1 == RemoveLinks(links, st.entries)
  {
    hide Parse, WellFormed, Representable, Rewrite, OnlyApp, CloudRestore, FitsAll, RemoveLinks, Settled,
      DistinctKeys, OriginalsFit, Find, Length, EncodeDict;
    var sections' := q.records[appid].sections;
    LoadedFits(file, q, appid);
    var (sections'', again) := CloudRestore(sections', st.entries).value;
    Changes(sections', st.entries, sections'', again);
    RestoredSections(q.version, q.pool, sections', st.entries, sections'', again);
    assert ProperEntries(st.entries) by { FitEntries(st.entries); }
    RestoredAgain(sections, st.entries, sections', changed, sections'', again);
    ParsedSettled(file, q, appid);
    RewriteFailsExactly(file, q, appid, sections'', sums);
    SameLength(q.version, sections', sections'');
    EncodedLength(q.version, sections', p.pool);
    if q.version.V29? {
      OffsetFits(file, q);
    }
  }

  lemma {:induction false} FitEntries(entries: seq<CloudEntry>)
    requires OriginalsFit(entries)
    ensures ProperEntries(entries)
  {
  }

  // A Cloud restore of a file that succeeds was asked for this app, and found
  // every recorded override in force: one that is foreign, and nothing is written.
  lemma {:induction false} RestoreNeeds(
    sums: Sums, file: Bytes, p: Image, appid: Word32, links: Links, st: CloudState, expected: Option<int>)
    requires Loaded(file, p, appid) && st.appid == appid && DistinctKeys(st.entries) && ProperEntries(st.entries)
    requires RestoreCloud(sums, file, links, st, expected).Ok?
    ensures expected.None? || expected.value == appid
    ensures CurrentOverrides(p.records[appid].sections).Ok?
    ensures InForce(Abs(CurrentOverrides(p.records[appid].sections).value), st.entries)
  {
    hide Parse, WellFormed, Representable, Rewrite, RestoreAll, RemoveLinks, InForce, DistinctKeys, ProperEntries, Find,
      Abs;
    var sections := SectionsAt(file, p, appid);
    TableProper(sections);
    RestoreExact(CurrentOverrides(sections).value, st.entries);
  }

  // The table a restore looks at, in fields: an app without an Auto-Cloud section,
  // or without overrides, has an empty one; what is there must be dictionaries.
  lemma {:induction false} TableExactly(sections: Dict)
    ensures var app := Find(sections, ["appinfo"]);
            CurrentOverrides(sections).Ok? <==>
              && app.Some?
              && (Has(app.value, "ufs") ==>
                    && Find(sections, ["appinfo", "ufs"]).Some?
                    && (Has(Find(sections, ["appinfo", "ufs"]).value, "rootoverrides") ==>
                          Find(sections, ["appinfo", "ufs", "rootoverrides"]).Some?))
    ensures CurrentOverrides(sections).Ok? ==>
              CurrentOverrides(sections).value
              == match Find(sections, ["appinfo", "ufs", "rootoverrides"]) case Some(table) => table case None => Empty
  {
    assert ["appinfo"][1..] == [] && ["appinfo", "ufs"][1..] == ["ufs"] && ["ufs"][1..] == [];
    assert ["appinfo", "ufs", "rootoverrides"][1..] == ["ufs", "rootoverrides"];
    assert ["ufs", "rootoverrides"][1..] == ["rootoverrides"] && ["rootoverrides"][1..] == [];
  }

  lemma {:induction false} TableProper(sections: Dict)
    requires Proper(sections) && CurrentOverrides(sections).Ok?
    ensures Proper(CurrentOverrides(sections).value)
  {
    if Find(sections, ["appinfo"]).Some? {
      var app := Find(sections, ["appinfo"]).value;
      ProperFind(sections, ["appinfo"]);
      if Has(app, "ufs") {
        ProperGet(app, "ufs");
        ProperTable(Get(app, "ufs").value.dict, CurrentOverrides(sections).value);
      }
    }
  }

  // The Cloud install.
  lemma {:induction false} InstallKeepsLaunch(
    env: Env, sums: Sums, file: Bytes, appid: Word32, links: Links, file': Bytes, links': Links, st: CloudState)
    requires HasLaunch(file, appid) && Arguments(env)
    requires InstallCloud(env, sums, file, links, appid, true) == Ok((file', links', st))
    ensures HasLaunch(file', appid) && LaunchOf(file', appid) == LaunchOf(file, appid)
    ensures OnlyApp(Parse(file).value, Parse(file').value, appid)
  {
    hide Parse, Loaded, OnlyApp, Find, Graft, CloudInstall, InstallCloud, Overlaid, LinksAdded, Overrides, Arguments,
      DistinctKeys;
    var p := Parse(file).value;
    var q := CloudStep(env, sums, file, p, appid, links, file', links', st);
    var sections := SectionsAt(file, p, appid);
    var sections' := SectionsAt(file', q, appid);
    InstallsOverrides(env, appid, sections, links, sections', links', st.entries);
    Places();
    FindGraftOther(sections, UFS, Find(sections', UFS).value, LAUNCH);
    StillHasLaunch(file', q, appid);
  }

  // Restoring right after the install takes its links away again, unless a
  // field of the format overflows.
  lemma {:induction false} LinksTakenBack(
    env: Env, sums: Sums, file: Bytes, appid: Word32, links: Links, file': Bytes, links': Links, st: CloudState,
    again: CloudState)
    requires HasLaunch(file, appid) && Arguments(env)
    requires InstallCloud(env, sums, file, links, appid, true) == Ok((file', links', st))
    requires again.appid == st.appid && Reloaded(st.entries, again.entries)
    ensures match RestoreCloud(sums, file', links', again, Some(appid))
            case Err(e) => e == TooLarge
            case Ok((_, left)) => left == links
  {
    hide Parse, Loaded, OnlyApp, Find, Graft, CloudInstall, InstallCloud, RestoreCloud, Overlaid, LinksAdded,
      Overrides, Arguments, DistinctKeys, Reloaded, FitsAll;
    var p := Parse(file).value;
    var q := CloudStep(env, sums, file, p, appid, links, file', links', st);
    var sections := SectionsAt(file, p, appid);
    var sections' := SectionsAt(file', q, appid);
    InstallsOverrides(env, appid, sections, links, sections', links', st.entries);
    OnlyAppPools(p, q, appid);
    AllFits(file, p, q, appid);
    var _ := CloudRestoreStep(env, sums, sections, links, sections', links', st.entries, file', q, appid, again);
  }

  // A Cloud install that succeeds has saved its state and has edited an app that
  // is there.
  lemma {:induction false} InstallNeeds(
    env: Env, sums: Sums, file: Bytes, appid: int, links: Links, saved: bool)
    requires InstallCloud(env, sums, file, links, appid, saved).Ok?
    ensures saved && Parse(file).Ok? && 0 <= appid < LIMIT32 && appid in Parse(file).value.records
    ensures CloudInstall(env, appid, Parse(file).value.records[appid].sections, links).Ok?
    ensures InstallCloud(env, sums, file, links, appid, saved).value.2.appid == appid
  {
    hide CloudInstall, Parse, BasePath, Rewrite;
    ParseSound(file);
  }

  // The links of every recorded entry are set by the install.
  lemma {:induction false} InstallSets(
    env: Env, sums: Sums, file: Bytes, appid: int, links: Links, file': Bytes, links': Links, st: CloudState)
    requires InstallCloud(env, sums, file, links, appid, true) == Ok((file', links', st))
    ensures LinksInstalled(links, links', st.entries)
  {
    hide CloudInstall, LinksInstalled, Parse, BasePath;
    ParseSound(file);
    var sections := Editor.SectionsOf(Parse(file).value, appid, NoSuchApp).value;
    var (sections', _, entries) := CloudInstall(env, appid, sections, links).value;
    SectionsSet(env, appid, sections, links, sections', links', entries);
  }

  lemma {:induction false} SectionsSet(
    env: Env, appid: nat, sections: Dict, links: Links, sections': Dict, links': Links, entries: seq<CloudEntry>)
    requires CloudInstall(env, appid, sections, links) == Ok((sections', links', entries))
    ensures LinksInstalled(links, links', entries)
  {
    hide CloudInstall, LinksSet, LinksAdded, Find, Graft, Cloud.InstallAll;
    var _, overrides, roots, addpath, overrides' :=
        InstallSteps(env, appid, sections, links, sections', links', entries);
    InstallSetsLinks(env, addpath, roots, overrides, links, overrides', links', entries);
    InstallLinks(env, addpath, roots, overrides, links, overrides', links', entries);
  }

  lemma {:induction false} ReloadedSets(
    links: Links, links': Links, entries: seq<CloudEntry>, entries': seq<CloudEntry>)
    requires LinksInstalled(links, links', entries) && Reloaded(entries, entries')
    ensures LinksInstalled(links, links', entries')
  {
    hide LinksAdded;
    ReloadedLinks(links, links', entries, entries');
  }

  // --- As refreshes ---------------------------------------------------------

  lemma {:induction false} ResetNothing(t: Section, plan: Plan)
    ensures Reset(t, plan, {}, {}) == t
  {
  }

  // A file with the same launch section is a refresh that resets nothing.
  lemma {:induction false} SameLaunchRefreshes(appid: Word32, native: Section, w: World, newer: Bytes)
    requires Safe(appid, native, w) && HasLaunch(newer, appid) && LaunchOf(newer, appid) == LaunchOf(w.file, appid)
    ensures Refreshes(appid, w, newer)
  {
    hide Loaded, Parse, Find, Reset, FitsAll, Overlay, Records, RedirectMap, DisabledMap, LaunchersStorable;
    var _ := SectionsAt(w.file, Parse(w.file).value, appid);
    var _ := SectionsAt(newer, Parse(newer).value, appid);
    if w.state.Some? {
      var none: set<string> := {};
      ResetNothing(LaunchOf(w.file, appid), PlanOf(w.state.value));
      assert LaunchOf(newer, appid) == Reset(LaunchOf(w.file, appid), PlanOf(w.state.value), none, none);
    }
  }
}
