// Whole runs on the bytes of one appinfo file: install a launch mapping and
// the Cloud overrides, take both away again, one load and one rewrite a step.
module EndToEnd {
  import opened Wrappers
  import opened Words
  import opened Vdf
  import opened Strings
  import opened Codec
  import opened AppImage
  import opened Launch
  import opened Plan
  import opened Undo
  import opened Editor
  import opened Cloud
  import opened CloudUndo
  import opened CloudFiles
  import opened Storage
  import PythonText

  // A well-formed file whose record of an app can be written back.
  ghost predicate Loaded(file: Bytes, p: Image, appid: Word32) {
    && Parse(file) == Ok(p) && WellFormed(file) && Sound(p)
    && appid in p.records
    && Representable(p.version, p.pool, p.records[appid].sections)
  }

  // q is p with the sections of one app edited: the other records keep their
  // header, their sections and their bytes, and the pool only grows.
  ghost predicate OnlyApp(p: Image, q: Image, appid: Word32) {
    && Sound(p) && Sound(q)
    && q.version == p.version && p.pool <= q.pool
    && appid in p.records && q.records.Keys == p.records.Keys
    && (var h, h' := p.records[appid].header, q.records[appid].header;
        h' == h.(size := h'.size, checksumText := h'.checksumText, checksumBinary := h'.checksumBinary))
    && (forall a :: a in p.records && a != appid ==> SameRecord(p, q, a))
    && (SizesExact(p) ==> SizesExact(q))
  }

  lemma {:induction false} OnlyAppSelf(p: Image, appid: Word32)
    requires Sound(p) && appid in p.records
    ensures OnlyApp(p, p, appid)
  {
  }

  lemma {:induction false} OnlyAppTwice(p: Image, q: Image, r: Image, appid: Word32)
    requires OnlyApp(p, q, appid) && OnlyApp(q, r, appid)
    ensures OnlyApp(p, r, appid)
  {
  }

  // --- One step -------------------------------------------------------------

  lemma {:induction false} EditStep(file: Bytes, p: Image, appid: Word32, sections: Dict, sums: Sums)
    requires Loaded(file, p, appid) && Proper(sections) && FitsAll(p.version, p.pool, Abs(sections))
    ensures match RewriteWith(p, appid, sections, sums)
            case Err(e) => e == TooLarge
            case Ok(img) =>
              && Parse(img.data).Ok?
              && (var q := Parse(img.data).value;
                  && Loaded(img.data, q, appid) && OnlyApp(p, q, appid)
                  && q.records[appid].sections == sections && Sized(p, q, appid, sections)
                  && Checked(q, appid, sections, sums))
  {
    hide Rewrite, Parse, WellFormed, Representable, FitsAll, SameRecord, SizesExact, AllKeys, Sized, Checked;
    RepresentableTree(p.version, p.pool, sections);
    match RewriteWith(p, appid, sections, sums)
    case Err(_) => RewriteFails(file, p, appid, sections, sums);
    case Ok(img) =>
      SpliceTheorem(file, p, appid, sections, sums, img);
      var q := Parse(img.data).value;
      assert p.pool <= q.pool;
      FitsAllLonger(p.version, p.pool, q.pool, Abs(sections));
      RepresentableTree(q.version, q.pool, sections);
  }

  lemma {:induction false} LoadedFits(file: Bytes, p: Image, appid: Word32)
    requires Loaded(file, p, appid)
    ensures Proper(p.records[appid].sections)
    ensures FitsAll(p.version, p.pool, Abs(p.records[appid].sections))
  {
    RepresentableTree(p.version, p.pool, p.records[appid].sections);
  }

  // --- What the edits store -------------------------------------------------

  lemma {:induction false} Plain(s: string)
    requires 0 as char !in s && (s != [] ==> s[|s| - 1] != MARK)
    ensures Storable(s)
  {
  }

  lemma {:induction false} Names(s: string)
    requires s in {"config", "executable", "oslist", DISABLED_OSLIST}
             + {"root", "os", "oscompare", "useinstead", "addpath", "=", "MacAppSupport", "rootoverrides"} + ROOTS
    ensures Storable(s)
  {
    hide Storable;
    if s in {"config", "executable", "oslist", DISABLED_OSLIST} {
      Plain(s);
    } else if s in ROOTS {
      Plain(s);
    } else {
      Plain(s);
    }
  }

  lemma {:induction false} Digits(s: string)
    requires PythonText.AsciiDigits(s)
    ensures Storable(s)
  {
    Plain(s);
  }

  lemma {:induction false} FitsSetField(v: Version, pool: seq<string>, t: Tree, field: string, value: Tree)
    requires Fits(v, pool, t) && KeyFits(v, pool, field) && Fits(v, pool, value)
    ensures Fits(v, pool, SetField(t, field, value))
  {
    hide Storable, KeyFits;
  }

  lemma {:induction false} FitsOverlay(
    v: Version, pool: seq<string>, native: Section, plan: Plan, redirected: set<string>, hidden: set<string>)
    requires FitsAll(v, pool, native)
    requires forall k :: k in plan.redirects ==> Storable(plan.redirects[k].1)
    requires forall k :: k in plan.disabled ==> Fits(v, pool, plan.disabled[k].1)
    ensures FitsAll(v, pool, Overlay(native, plan, redirected, hidden))
  {
    hide Storable;
    Names("executable");
    Names("config");
    forall k | k in native
      ensures Fits(v, pool, OverlayItem(native[k], k, plan, redirected, hidden))
    {
      if k in plan.redirects {
        FitsSetField(v, pool, native[k], "executable", Leaf(plan.redirects[k].1));
      }
      if k in plan.disabled {
        var a := if k in redirected && k in plan.redirects
                 then SetField(native[k], "executable", Leaf(plan.redirects[k].1)) else native[k];
        FitsSetField(v, pool, a, "config", plan.disabled[k].1);
      }
    }
  }

  lemma {:induction false} FitsMarked(v: Version, pool: seq<string>, item: Dict)
    requires Fits(v, pool, Branch(Abs(item)))
    ensures Fits(v, pool, MarkedConfig(item))
  {
    hide Storable;
    AbsGet(item, "config");
    Names("oslist");
    Names(DISABLED_OSLIST);
    assert Fits(v, pool, Leaf(DISABLED_OSLIST));
    match Get(item, "config")
    case Some(Sub(config)) => FitsSetField(v, pool, Branch(Abs(config)), "oslist", Leaf(DISABLED_OSLIST));
    case _ => FitsSetField(v, pool, Branch(map[]), "oslist", Leaf(DISABLED_OSLIST));
  }

  // A patched record still fits when its launcher paths do.
  lemma {:induction false} InstalledFits(v: Version, pool: seq<string>, sections: Dict, sections': Dict, st: State)
    requires Proper(sections) && Installed(sections, sections', st) && FitsAll(v, pool, Abs(sections))
    requires forall key :: key in PlanOf(st).redirects ==> Storable(PlanOf(st).redirects[key].1)
    requires var launch := Find(sections, LAUNCH).value;
             forall key :: key in PlanOf(st).disabled ==>
               Has(launch, key) && Get(launch, key).value.Sub?
                   && PlanOf(st).disabled[key].1 == MarkedConfig(Get(launch, key).value.dict)
    ensures FitsAll(v, pool, Abs(sections'))
  {
    hide Storable, FitsAll, Find, Graft, Records, Overlay, MarkedConfig, RedirectMap, DisabledMap;
    var launch := Find(sections, LAUNCH).value;
    var plan := PlanOf(st);
    AbsFind(sections, LAUNCH);
    FitsAt(v, pool, Abs(sections), LAUNCH);
    forall k | k in plan.disabled ensures Fits(v, pool, plan.disabled[k].1) {
      AbsGet(launch, k);
      FitsEntry(v, pool, Abs(launch), k);
      FitsMarked(v, pool, Get(launch, k).value.dict);
    }
    FitsOverlay(v, pool, Abs(launch), plan, plan.redirects.Keys, plan.disabled.Keys);
    var launch' := Find(sections', LAUNCH).value;
    AbsGraft(sections, LAUNCH, launch');
    FitsGraft(v, pool, Abs(sections), LAUNCH, Abs(launch'));
  }

  lemma {:induction false} FitsEntry(v: Version, pool: seq<string>, m: map<string, Tree>, k: string)
    requires FitsAll(v, pool, m) && k in m
    ensures Fits(v, pool, m[k])
  {
  }

  // patch-all on a file.
  lemma {:induction false} PatchStep(
    h: Host, sums: Sums, file: Bytes, p: Image, appid: Word32, template: string -> string, file': Bytes, st: State)
    returns (q: Image)
    requires Loaded(file, p, appid) && forall entry :: Storable(template(entry))
    requires PatchAllFile(h, sums, file, appid, template) == Ok((file', st))
    ensures Loaded(file', q, appid) && OnlyApp(p, q, appid) && Sized(p, q, appid, q.records[appid].sections)
    ensures PatchAll(h, appid, template, p.records[appid].sections) == Ok((q.records[appid].sections, st))
  {
    hide PatchAll, Parse, WellFormed, Representable, FitsAll, Rewrite, Storable, OnlyApp, Between, Graft,
      RedirectMap, DisabledMap, Find, Sized;
    var sections := p.records[appid].sections;
    var sections' := PatchAll(h, appid, template, sections).value.0;
    LoadedFits(file, p, appid);
    PatchAllInstalls(h, appid, template, sections, sections', st);
    forall key | key in PlanOf(st).redirects ensures Storable(PlanOf(st).redirects[key].1) {
      assert PlanOf(st).redirects[key].1 == template(key);
    }
    InstalledFits(p.version, p.pool, sections, sections', st);
    EditStep(file, p, appid, sections', sums);
    q := Parse(file').value;
  }

  // patch on a file.
  lemma {:induction false} PatchOneStep(
    h: Host, sums: Sums, file: Bytes, p: Image, appid: Word32, executable: string, selector: Selector, guard: Guard,
    disable: bool,
    file': Bytes, st: State)
    returns (q: Image)
    requires Loaded(file, p, appid) && Storable(executable)
    requires PatchOneFile(h, sums, file, appid, executable, selector, guard, disable) == Ok((file', st))
    ensures Loaded(file', q, appid) && OnlyApp(p, q, appid) && Sized(p, q, appid, q.records[appid].sections)
    ensures PatchOne(h, appid, executable, selector, guard, disable, p.records[appid].sections)
              == Ok((q.records[appid].sections, st))
  {
    hide PatchOne, Parse, WellFormed, Representable, FitsAll, Rewrite, Storable, OnlyApp, Installed, RedirectMap,
      DisabledMap, Find, Sized;
    var sections := p.records[appid].sections;
    var sections' := PatchOne(h, appid, executable, selector, guard, disable, sections).value.0;
    LoadedFits(file, p, appid);
    PatchOneInstalls(h, appid, executable, selector, guard, disable, sections, sections', st);
    InstalledFits(p.version, p.pool, sections, sections', st);
    EditStep(file, p, appid, sections', sums);
    q := Parse(file').value;
  }

  // restore on a file whose launch section lies between native and installed.
  lemma {:induction false} RestoreStep(
    sums: Sums, file: Bytes, p: Image, appid: Word32, st: State, native: Section, redirected: set<string>,
    hidden: set<string>)
    returns (q: Image)
    requires Loaded(file, p, appid) && Recordable(st) && ProperState(st) && st.appid == appid
    requires Between(p.records[appid].sections, native, PlanOf(st), redirected, hidden)
    requires FitsAll(p.version, p.pool, native)
    ensures match Editor.RestoreFile(sums, file, st, Some(appid))
            case Err(e) => e == TooLarge
            case Ok(file') =>
              && Loaded(file', q, appid) && OnlyApp(p, q, appid)
              && (var sections, sections' := p.records[appid].sections, q.records[appid].sections;
                  && Find(sections', LAUNCH).Some? && Abs(Find(sections', LAUNCH).value) == native
                  && sections' == Graft(sections, LAUNCH, Find(sections', LAUNCH).value))
  {
    hide Parse, WellFormed, Representable, FitsAll, Rewrite, Storable, OnlyApp, Find, Graft, Restore, Records,
      Overlay, RedirectMap, DisabledMap;
    var sections := p.records[appid].sections;
    LoadedFits(file, p, appid);
    RestoreUndoes(sections, st, native, redirected, hidden);
    var (sections', changed) := Restore(sections, st).value;
    OnlyAppSelf(p, appid);
    q := p;
    if changed {
      AbsGraft(sections, LAUNCH, Find(sections', LAUNCH).value);
      FitsGraft(p.version, p.pool, Abs(sections), LAUNCH, native);
      EditStep(file, p, appid, sections', sums);
      if RewriteWith(p, appid, sections', sums).Ok? {
        q := Parse(RewriteWith(p, appid, sections', sums).value.data).value;
      }
    }
  }

  // --- What the Cloud overrides store ---------------------------------------

  // No command-line argument holds a NUL.
  ghost predicate Arguments(env: Env) {
    0 as char !in env.addpathRoot && Storable(env.platform)
  }

  lemma {:induction false} SplitChars(s: string, sep: char, i: nat, c: char)
    requires i < |PythonText.Split(s, sep)| && c in PythonText.Split(s, sep)[i]
    ensures c in s
  {
    if s != [] {
      var rest := PythonText.Split(s[1..], sep);
      if s[0] == sep {
        if i > 0 { SplitChars(s[1..], sep, i - 1, c); }
      } else if i > 0 || c != s[0] {
        SplitChars(s[1..], sep, i, c);
      }
    }
  }

  lemma {:induction false} NonemptyOf(parts: seq<string>, part: string)
    requires part in Nonempty(parts)
    ensures part in parts
  {
    if part != parts[0] {
      NonemptyOf(parts[1..], part);
    }
  }

  lemma {:induction false} JoinChars(parts: seq<string>, sep: char, c: char)
    requires parts != [] && c in PythonText.Join(parts, sep)
    ensures c == sep || exists i :: 0 <= i < |parts| && c in parts[i]
  {
    if c !in parts[0] && c != sep {
      JoinChars(parts[1..], sep, c);
      var i :| 0 <= i < |parts[1..]| && c in parts[1..][i];
      assert c in parts[i + 1];
    }
  }

  lemma {:induction false} BasePlain(env: Env)
    requires Arguments(env) && BasePath(env).Ok?
    ensures 0 as char !in BasePath(env).value
  {
    var all := PythonText.Split(env.addpathRoot, '/');
    var parts := Nonempty(all);
    if 0 as char in PythonText.Join(parts, '/') {
      JoinChars(parts, '/', 0 as char);
      var i :| 0 <= i < |parts| && 0 as char in parts[i];
      NonemptyOf(all, parts[i]);
      var j :| 0 <= j < |all| && all[j] == parts[i];
      SplitChars(env.addpathRoot, '/', j, 0 as char);
    }
  }

  lemma {:induction false} AddPathPlain(env: Env, appid: nat, root: string, count: nat)
    requires Arguments(env) && BasePath(env).Ok? && root in ROOTS
    ensures Storable(AddPath(appid, root, count, BasePath(env).value))
  {
    hide BasePath;
    BasePlain(env);
    var digits := PythonText.Decimal(appid);
    RootPlain(root);
    Plain(AddPath(appid, root, count, BasePath(env).value));
  }

  lemma {:induction false} RootPlain(root: string)
    requires root in ROOTS
    ensures 0 as char !in root && root != [] && root[|root| - 1] != MARK
  {
  }

  lemma {:induction false} FitsCons(v: Version, pool: seq<string>, key: string, text: string, rest: Dict)
    requires Storable(key) && Storable(text) && FitsAll(v, pool, Abs(rest))
    ensures FitsAll(v, pool, Abs(Entry(key, Text(text), rest)))
  {
  }

  lemma {:induction false} GeneratedFits(v: Version, pool: seq<string>, root: string, platform: string, addpath: string)
    requires root in ROOTS && Storable(platform) && Storable(addpath)
    ensures Fits(v, pool, AbsValue(Generated(root, platform, addpath)))
  {
    hide Storable, FitsAll, Abs;
    var d5 := Entry("addpath", Text(addpath), Empty);
    var d4 := Entry("useinstead", Text("MacAppSupport"), d5);
    var d3 := Entry("oscompare", Text("="), d4);
    var d2 := Entry("os", Text(platform), d3);
    Names(root); Names("addpath"); Names("useinstead"); Names("MacAppSupport"); Names("oscompare"); Names("=");
    Names("os"); Names("root");
    FitsEmpty(v, pool);
    FitsCons(v, pool, "addpath", addpath, Empty);
    FitsCons(v, pool, "useinstead", "MacAppSupport", d5);
    FitsCons(v, pool, "oscompare", "=", d4);
    FitsCons(v, pool, "os", platform, d3);
    FitsCons(v, pool, "root", root, d2);
    FitsBranch(v, pool, Abs(Entry("root", Text(root), d2)));
  }

  lemma {:induction false} FitsEmpty(v: Version, pool: seq<string>)
    ensures FitsAll(v, pool, Abs(Empty))
  {
  }

  lemma {:induction false} FitsBranch(v: Version, pool: seq<string>, m: map<string, Tree>)
    ensures Fits(v, pool, Branch(m)) <==> FitsAll(v, pool, m)
  {
  }

  lemma {:induction false} TableFits(
    v: Version, pool: seq<string>, table: map<string, Tree>, table': map<string, Tree>, entries: seq<CloudEntry>)
    requires FitsAll(v, pool, table) && Overlaid(table, table', entries)
    requires forall i :: 0 <= i < |entries| ==>
               Fits(v, pool, AbsValue(entries[i].generated)) && (entries[i].key in table || Storable(entries[i].key))
    ensures FitsAll(v, pool, table')
  {
    hide Storable, Fits;
    forall k | k in table'
      ensures KeyFits(v, pool, k) && Fits(v, pool, table'[k])
    {
      if i :| 0 <= i < |entries| && entries[i].key == k {
        assert Lookup(table', entries[i].key) == Some(AbsValue(entries[i].generated));
      } else {
        assert Lookup(table', k) == Lookup(table, k);
      }
    }
  }

  lemma {:induction false} FitsOverrides(v: Version, pool: seq<string>, m: map<string, Tree>, table: map<string, Tree>)
    requires FitsAll(v, pool, m) && FitsAll(v, pool, table)
    ensures FitsAll(v, pool, m["rootoverrides" := Branch(table)])
  {
  }

  lemma {:induction false} TableIn(v: Version, pool: seq<string>, ufs: Dict, overrides: Dict)
    requires FitsAll(v, pool, Abs(ufs)) && Overrides(ufs) == Ok(overrides)
    ensures FitsAll(v, pool, Abs(overrides))
  {
    hide Storable;
    AbsGet(ufs, "rootoverrides");
    if Has(ufs, "rootoverrides") {
      FitsEntry(v, pool, Abs(ufs), "rootoverrides");
    }
  }

  lemma {:induction false} CloudFits(
    v: Version, pool: seq<string>, env: Env, appid: nat, sections: Dict, links: Links, sections': Dict, links': Links,
    entries: seq<CloudEntry>)
    requires Proper(sections) && CloudInstall(env, appid, sections, links) == Ok((sections', links', entries))
    requires FitsAll(v, pool, Abs(sections)) && Arguments(env)
    ensures FitsAll(v, pool, Abs(sections'))
  {
    hide Storable, FitsAll, Fits, Find, Graft, InstallAll, CloudInstall, CloudRoots, Overlaid, BasePath, AddPath,
      Arguments, RootAt, Generated, Overrides, Abs;
    var ufs, overrides, roots, addpath, overrides' :=
        InstallSteps(env, appid, sections, links, sections', links', entries);
    AbsFind(sections, UFS);
    FitsAt(v, pool, Abs(sections), UFS);
    TableIn(v, pool, ufs, overrides);
    ProperFind(sections, UFS);
    ProperTable(ufs, overrides);
    InstallExact(env, addpath, roots, overrides, links, overrides', links', entries);
    forall i | 0 <= i < |entries|
      ensures Fits(v, pool, AbsValue(entries[i].generated))
                && (entries[i].key in Abs(overrides) || Storable(entries[i].key))
    {
      EntryFits(v, pool, env, appid, roots, addpath, i);
      AbsGet(overrides, entries[i].key);
      if !Has(overrides, entries[i].key) { Digits(entries[i].key); }
    }
    TableFits(v, pool, Abs(overrides), Abs(overrides'), entries);
    FitsOverrides(v, pool, Abs(ufs), Abs(overrides'));
    AbsPut(ufs, "rootoverrides", Sub(overrides'));
    AbsGraft(sections, UFS, Put(ufs, "rootoverrides", Sub(overrides')));
    FitsGraft(v, pool, Abs(sections), UFS, Abs(Put(ufs, "rootoverrides", Sub(overrides'))));
  }

  lemma {:induction false} EntryFits(
    v: Version, pool: seq<string>, env: Env, appid: nat, roots: seq<string>, addpath: string -> string, i: nat)
    requires Arguments(env) && BasePath(env).Ok? && i < |roots| && roots[i] in ROOTS
    requires forall r :: addpath(r) == AddPath(appid, r, |roots|, BasePath(env).value)
    ensures Fits(v, pool, AbsValue(Generated(roots[i], env.platform, addpath(roots[i]))))
  {
    AddPathPlain(env, appid, roots[i], |roots|);
    GeneratedFits(v, pool, roots[i], env.platform, addpath(roots[i]));
  }

  // The Cloud install on a file.
  lemma {:induction false} CloudStep(
    env: Env, sums: Sums, file: Bytes, p: Image, appid: Word32, links: Links, file': Bytes, links': Links,
    st: CloudState)
    returns (q: Image)
    requires Loaded(file, p, appid) && Arguments(env)
    requires InstallCloud(env, sums, file, links, appid, true) == Ok((file', links', st))
    ensures Loaded(file', q, appid) && OnlyApp(p, q, appid) && Sized(p, q, appid, q.records[appid].sections)
    ensures st.appid == appid
    ensures CloudInstall(env, appid, p.records[appid].sections, links)
              == Ok((q.records[appid].sections, links', st.entries))
    ensures Proper(q.records[appid].sections)
  {
    hide CloudInstall, Parse, WellFormed, Representable, FitsAll, Rewrite, OnlyApp, BasePath, Arguments, Sized;
    var sections := p.records[appid].sections;
    var sections' := CloudInstall(env, appid, sections, links).value.0;
    LoadedFits(file, p, appid);
    InstallsOverrides(env, appid, sections, links, sections', links', st.entries);
    CloudFits(p.version, p.pool, env, appid, sections, links, sections', links', st.entries);
    EditStep(file, p, appid, sections', sums);
    q := Parse(file').value;
    LoadedFits(file', q, appid);
  }

  // The Cloud restore on a file whose table of overrides is the installed one.
  lemma {:induction false} CloudRestoreStep(
    env: Env, sums: Sums, sections: Dict, links: Links, sections': Dict, links': Links, entries: seq<CloudEntry>,
    file: Bytes, p: Image, appid: Word32, st: CloudState)
    returns (q: Image)
    requires Proper(sections) && CloudInstall(env, appid, sections, links) == Ok((sections', links', entries))
    requires Reloaded(entries, st.entries) && st.appid == appid
    requires Loaded(file, p, appid) && FitsAll(p.version, p.pool, Abs(sections))
    requires Find(p.records[appid].sections, UFS).Some? && Find(sections', UFS).Some?
    requires Abs(Find(p.records[appid].sections, UFS).value) == Abs(Find(sections', UFS).value)
    ensures match RestoreCloud(sums, file, links', st, Some(appid))
            case Err(e) => e == TooLarge
            case Ok((file', links'')) =>
              && links'' == links
              && Loaded(file', q, appid) && OnlyApp(p, q, appid)
              && Find(sections, UFS).Some? && Overrides(Find(sections, UFS).value).Ok?
              && (var before, after, ufs :=
                  p.records[appid].sections, q.records[appid].sections, Find(sections, UFS).value;
                  && Find(after, UFS).Some?
                  && Abs(Find(after, UFS).value) == Abs(ufs)["rootoverrides" := Branch(Abs(Overrides(ufs).value))]
                  && after == Graft(before, UFS, Find(after, UFS).value))
  {
    hide CloudInstall, CloudRestore, Parse, WellFormed, Representable, FitsAll, Rewrite, OnlyApp, Find, Graft,
      Overrides, RemoveLinks, Reloaded, Storable;
    var before := p.records[appid].sections;
    LoadedFits(file, p, appid);
    CloudUndoes(env, appid, sections, links, sections', links', entries, before, st.entries);
    var now' := CloudRestore(before, st.entries).value.0;
    var ufs := Find(sections, UFS).value;
    AbsFind(sections, UFS);
    FitsAt(p.version, p.pool, Abs(sections), UFS);
    TableIn(p.version, p.pool, ufs, Overrides(ufs).value);
    FitsOverrides(p.version, p.pool, Abs(ufs), Abs(Overrides(ufs).value));
    AbsFind(before, UFS);
    AbsGraft(before, UFS, Find(now', UFS).value);
    FitsGraft(p.version, p.pool, Abs(before), UFS, Abs(Find(now', UFS).value));
    EditStep(file, p, appid, now', sums);
    q := p;
    if RewriteWith(p, appid, now', sums).Ok? {
      q := Parse(RewriteWith(p, appid, now', sums).value.data).value;
    }
  }

  // --- The whole run --------------------------------------------------------

  // A section tree as it is left: an app without a table of overrides now has an
  // empty one.
  function WithTable(t: map<string, Tree>): map<string, Tree>
    requires HasPath(t, UFS)
  {
    var ufs := TreeAt(t, UFS);
    if "rootoverrides" in ufs then t else TreeGraft(t, UFS, ufs["rootoverrides" := Branch(map[])])
  }

  // A launch state file read back.
  ghost predicate SameState(st: State, st': State) {
    Recordable(st) && Recordable(st') && ProperState(st') && st'.appid == st.appid && PlanOf(st') == PlanOf(st)
  }

  lemma {:induction false} Places()
    ensures Diverge(LAUNCH, UFS) && Diverge(UFS, LAUNCH)
  {
    assert LAUNCH[1..] == ["config", "launch"] && UFS[1..] == ["ufs"];
  }

  // The four edits of one app's sections cancel.
  lemma {:induction false} Cancel(
    s0: Dict, s1: Dict, s2: Dict, s3: Dict, s4: Dict, l1: Dict, u2: Dict, l3: Dict, u4: Dict, table: Dict)
    requires Find(s0, LAUNCH).Some? && Find(s0, UFS).Some? && Overrides(Find(s0, UFS).value) == Ok(table)
    requires s1 == Graft(s0, LAUNCH, l1) && Find(s1, UFS).Some? && s2 == Graft(s1, UFS, u2)
    requires Find(s2, LAUNCH).Some? && s3 == Graft(s2, LAUNCH, l3) && Find(s3, UFS).Some? && s4 == Graft(s3, UFS, u4)
    requires Abs(l3) == Abs(Find(s0, LAUNCH).value)
    requires Abs(u4) == Abs(Find(s0, UFS).value)["rootoverrides" := Branch(Abs(table))]
    ensures HasPath(Abs(s0), UFS) && Abs(s4) == WithTable(Abs(s0))
  {
    hide Find, Graft, TreeGraft, TreeAt, HasPath, Abs;
    Places();
    var t, a, b, n, c := Abs(s0), Abs(l1), Abs(u2), Abs(l3), Abs(u4);
    AbsFind(s0, LAUNCH);
    AbsFind(s0, UFS);
    AbsGraft(s0, LAUNCH, l1);
    AbsGraft(s1, UFS, u2);
    AbsGraft(s2, LAUNCH, l3);
    AbsGraft(s3, UFS, u4);
    var t1 := TreeGraft(t, LAUNCH, a);
    var t2 := TreeGraft(t1, UFS, b);
    TreeGraftOther(t, LAUNCH, a, UFS);
    TreeGraftSame(t, LAUNCH, a, n);
    TreeGraftSwap(t1, LAUNCH, n, UFS, b);
    assert TreeGraft(t2, LAUNCH, n) == TreeGraft(t, UFS, b);
    TreeGraftSame(t, UFS, b, c);
    TableLeft(t, Find(s0, UFS).value, table, c);
  }

  lemma {:induction false} TableLeft(t: map<string, Tree>, ufs: Dict, table: Dict, c: map<string, Tree>)
    requires HasPath(t, UFS) && TreeAt(t, UFS) == Abs(ufs) && Overrides(ufs) == Ok(table)
    requires c == Abs(ufs)["rootoverrides" := Branch(Abs(table))]
    ensures TreeGraft(t, UFS, c) == WithTable(t)
  {
    hide TreeGraft, TreeAt, HasPath;
    AbsGet(ufs, "rootoverrides");
    TreeGraftSame(t, UFS, c, c);
    if Has(ufs, "rootoverrides") {
      assert c == Abs(ufs);
    } else {
      assert Abs(Empty) == map[];
    }
  }

  // Patch-all, Cloud install, launch restore, Cloud restore: the restores can
  // fail only by outgrowing a field of the format. Otherwise the file is well
  // formed, every other record is as it was, the links are as they were, and so
  // are the app's sections, but for an empty table of overrides where there was
  // none.
  lemma {:induction false} RoundTrip(
    h: Host, sums: Sums, env: Env, links: Links, appid: Word32, template: string -> string,
    f0: Bytes, p0: Image, f1: Bytes, st: State, f2: Bytes, links2: Links, cst: CloudState, st': State, cst': CloudState)
    requires Loaded(f0, p0, appid) && Arguments(env) && forall entry :: Storable(template(entry))
    requires PatchAllFile(h, sums, f0, appid, template) == Ok((f1, st))
    requires InstallCloud(env, sums, f1, links, appid, true) == Ok((f2, links2, cst))
    requires SameState(st, st') && cst'.appid == cst.appid && Reloaded(cst.entries, cst'.entries)
    ensures match Editor.RestoreFile(sums, f2, st', Some(appid))
            case Err(e) => e == TooLarge
            case Ok(f3) =>
              match RestoreCloud(sums, f3, links2, cst', Some(appid))
              case Err(e) => e == TooLarge
              case Ok((f4, links4)) =>
                && links4 == links
                && WellFormed(f4) && Parse(f4).Ok?
                && (var p4 := Parse(f4).value;
                    && OnlyApp(p0, p4, appid)
                    && HasPath(Abs(p0.records[appid].sections), UFS)
                    && Abs(p4.records[appid].sections) == WithTable(Abs(p0.records[appid].sections)))
  {
    hide Loaded, OnlyApp, PatchAllFile, InstallCloud, Editor.RestoreFile, RestoreCloud, Reloaded, FitsAll, Find,
      Graft, PatchAll, CloudInstall, Holds, Arguments, Overrides, WithTable, PlanOf, Recordable, ProperState, Parse,
      Overlaid, LinksAdded, DistinctKeys;
    var p1 := PatchStep(h, sums, f0, p0, appid, template, f1, st);
    var p2 := CloudStep(env, sums, f1, p1, appid, links, f2, links2, cst);
    var s0 := SectionsAt(f0, p0, appid);
    var s1 := SectionsAt(f1, p1, appid);
    var s2 := SectionsAt(f2, p2, appid);
    OnlyAppPools(p0, p1, appid);
    OnlyAppPools(p1, p2, appid);
    OnlyAppTwice(p0, p1, p2, appid);
    PatchAllInstalls(h, appid, template, s0, s1, st);
    InstallsOverrides(env, appid, s1, links, s2, links2, cst.entries);
    Places();
    var plan := PlanOf(st);
    var l0, l1, u1, u2 := Find(s0, LAUNCH).value, Find(s1, LAUNCH).value, Find(s1, UFS).value, Find(s2, UFS).value;
    SectionFits(f0, p0, p2, appid, LAUNCH);
    FindGraftOther(s0, LAUNCH, l1, UFS);
    FindGraftOther(s1, UFS, u2, LAUNCH);
    var p3 := RestoreStep(sums, f2, p2, appid, st', Abs(l0), plan.redirects.Keys, plan.disabled.Keys);
    if Editor.RestoreFile(sums, f2, st', Some(appid)).Ok? {
      var f3 := Editor.RestoreFile(sums, f2, st', Some(appid)).value;
      var s3 := SectionsAt(f3, p3, appid);
      var l3 := Find(s3, LAUNCH).value;
      OnlyAppPools(p2, p3, appid);
      OnlyAppTwice(p0, p2, p3, appid);
      FindGraftOther(s2, LAUNCH, l3, UFS);
      AllFits(f1, p1, p3, appid);
      var p4 := CloudRestoreStep(env, sums, s1, links, s2, links2, cst.entries, f3, p3, appid, cst');
      if RestoreCloud(sums, f3, links2, cst', Some(appid)).Ok? {
        var (f4, links4) := RestoreCloud(sums, f3, links2, cst', Some(appid)).value;
        var s4 := SectionsAt(f4, p4, appid);
        OnlyAppTwice(p0, p3, p4, appid);
        Cancel(s0, s1, s2, s3, s4, l1, u2, l3, Find(s4, UFS).value, Overrides(u1).value);
      }
    }
  }

  lemma {:induction false} SectionsAt(file: Bytes, p: Image, appid: Word32) returns (sections: Dict)
    requires Loaded(file, p, appid)
    ensures appid in p.records && sections == p.records[appid].sections && Proper(sections)
    ensures WellFormed(file) && Parse(file) == Ok(p)
  {
    sections := p.records[appid].sections;
  }

  lemma {:induction false} OnlyAppPools(p: Image, q: Image, appid: Word32)
    requires OnlyApp(p, q, appid)
    ensures q.version == p.version && p.pool <= q.pool
  {
  }

  lemma {:induction false} AllFits(file: Bytes, p: Image, q: Image, appid: Word32)
    requires Loaded(file, p, appid) && q.version == p.version && p.pool <= q.pool
    ensures FitsAll(q.version, q.pool, Abs(p.records[appid].sections))
  {
    LoadedFits(file, p, appid);
    FitsAllLonger(p.version, p.pool, q.pool, Abs(p.records[appid].sections));
  }

  lemma {:induction false} SectionFits(file: Bytes, p: Image, q: Image, appid: Word32, path: seq<string>)
    requires Loaded(file, p, appid) && q.version == p.version && p.pool <= q.pool
    requires Find(p.records[appid].sections, path).Some?
    ensures FitsAll(q.version, q.pool, Abs(Find(p.records[appid].sections, path).value))
  {
    hide FitsAll, Find;
    AllFits(file, p, q, appid);
    AbsFind(p.records[appid].sections, path);
    FitsAt(q.version, q.pool, Abs(p.records[appid].sections), path);
  }
}
