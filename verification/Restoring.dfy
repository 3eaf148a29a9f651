// When a recorded launch state can be restored, in terms of the fields of the
// launch section alone: every recorded executable and config must be the
// original or the installed one, and then the originals come back.
module Restoring {
  import opened Wrappers
  import opened Words
  import opened Vdf
  import opened Strings
  import opened Codec
  import opened AppImage
  import opened Launch
  import opened Plan
  import opened Undo
  import opened Editor
  import opened Storage
  import opened EndToEnd
  import Lifecycle

  // --- What a state must find -----------------------------------------------

  // The entry starts what it did at first, or what was installed.
  ghost predicate KnownExecutable(t: Section, r: Redirect) {
    && r.original.Text? && r.installed.Text?
    && r.entry in t && t[r.entry].Branch? && "executable" in t[r.entry].children
    && (t[r.entry].children["executable"] == Leaf(r.original.text)
        || t[r.entry].children["executable"] == Leaf(r.installed.text))
  }

  // A record holds the config there was if there was one, and the installed one.
  predicate WellRecorded(d: Disabled) {
    d.installed.Sub? && if d.hadConfig then d.original.Some? && d.original.value.Sub? else d.original.None?
  }

  // The entry has the config it had at first, or the installed one.
  ghost predicate KnownConfig(t: Section, d: Disabled) {
    && WellRecorded(d)
    && d.entry in t && t[d.entry].Branch?
    && (var fields := t[d.entry].children;
        if "config" in fields
        then fields["config"] == AbsValue(d.installed)
             || (d.hadConfig && fields["config"] == AbsValue(d.original.value))
        else !d.hadConfig)
  }

  ghost predicate Known(t: Section, st: State) {
    && st.entries != []
    && (forall i :: 0 <= i < |st.entries| ==> KnownExecutable(t, st.entries[i]))
    && (forall i :: 0 <= i < |st.disabled| ==> KnownConfig(t, st.disabled[i]))
  }

  // --- Validation -----------------------------------------------------------

  lemma {:induction false} CheckRedirectExactly(launch: Dict, r: Redirect)
    ensures CheckRedirect(launch, r).Ok? <==> KnownExecutable(Abs(launch), r)
  {
    AbsGet(launch, r.entry);
    if Has(launch, r.entry) && Get(launch, r.entry).value.Sub? {
      AbsGet(Get(launch, r.entry).value.dict, "executable");
    }
  }

  lemma {:induction false} CheckRedirectsExactly(launch: Dict, entries: seq<Redirect>)
    ensures CheckRedirects(launch, entries).Ok? <==>
              forall i :: 0 <= i < |entries| ==> KnownExecutable(Abs(launch), entries[i])
    decreases entries
  {
    hide CheckRedirect, KnownExecutable;
    if entries != [] {
      CheckRedirectExactly(launch, entries[0]);
      CheckRedirectsExactly(launch, entries[1..]);
      assert forall i :: 1 <= i < |entries| ==> entries[i] == entries[1..][i - 1];
      assert forall i :: 0 <= i < |entries[1..]| ==> entries[1..][i] == entries[i + 1];
    }
  }

  lemma {:induction false} CheckDisabledExactly(launch: Dict, d: Disabled)
    ensures CheckDisabled(launch, d).Ok? <==> KnownConfig(Abs(launch), d)
  {
    AbsGet(launch, d.entry);
    if Has(launch, d.entry) && Get(launch, d.entry).value.Sub? {
      AbsGet(Get(launch, d.entry).value.dict, "config");
    }
  }

  lemma {:induction false} CheckAllDisabledExactly(launch: Dict, disabled: seq<Disabled>)
    ensures CheckAllDisabled(launch, disabled).Ok? <==>
              forall i :: 0 <= i < |disabled| ==> KnownConfig(Abs(launch), disabled[i])
    decreases disabled
  {
    hide CheckDisabled, KnownConfig;
    if disabled != [] {
      CheckDisabledExactly(launch, disabled[0]);
      CheckAllDisabledExactly(launch, disabled[1..]);
      assert forall i :: 1 <= i < |disabled| ==> disabled[i] == disabled[1..][i - 1];
      assert forall i :: 0 <= i < |disabled[1..]| ==> disabled[1..][i] == disabled[i + 1];
    }
  }

  // Validation succeeds if and only if everything recorded is known.
  lemma {:induction false} ValidatesExactly(launch: Dict, st: State)
    ensures Validate(launch, st).Ok? <==> Known(Abs(launch), st)
  {
    hide CheckRedirects, CheckAllDisabled, KnownExecutable, KnownConfig;
    CheckRedirectsExactly(launch, st.entries);
    CheckAllDisabledExactly(launch, st.disabled);
  }

  // --- What a restore leaves ------------------------------------------------

  function OriginalItem(item: Tree, key: string, plan: Plan): Tree {
    var a := if key in plan.redirects then SetField(item, "executable", Leaf(plan.redirects[key].0)) else item;
    if key in plan.disabled then PutBack(a, plan.disabled[key].0) else a
  }

  // The section with every recorded original in its place.
  function Originals(t: Section, plan: Plan): Section {
    map key | key in t :: OriginalItem(t[key], key, plan)
  }

  ghost function Redirected(t: Section, plan: Plan): set<string> {
    set k | k in plan.redirects && k in t && t[k].Branch? && "executable" in t[k].children
            && t[k].children["executable"] == Leaf(plan.redirects[k].1)
  }

  ghost function Hidden(t: Section, plan: Plan): set<string> {
    set k | k in plan.disabled && k in t && t[k].Branch? && "config" in t[k].children
            && t[k].children["config"] == plan.disabled[k].1
  }

  // Everything recorded is known, entry by entry of the plan.
  ghost predicate KnownPlan(t: Section, plan: Plan) {
    && (forall k :: k in plan.redirects ==>
          k in t && t[k].Branch? && "executable" in t[k].children
          && t[k].children["executable"] in {Leaf(plan.redirects[k].0), Leaf(plan.redirects[k].1)})
    && (forall k :: k in plan.disabled ==>
          k in t && t[k].Branch? && plan.disabled[k].1.Branch?
          && (plan.disabled[k].0.Some? ==> plan.disabled[k].0.value.Branch?)
          && Lookup(t[k].children, "config") in {plan.disabled[k].0, Some(plan.disabled[k].1)})
  }

  lemma {:induction false} KnownIsPlan(t: Section, st: State)
    requires Recordable(st) && Known(t, st)
    ensures KnownPlan(t, PlanOf(st))
  {
    hide RedirectMap, DisabledMap;
    var plan := PlanOf(st);
    PlanEntries(st);
    forall k | k in plan.redirects
      ensures k in t && t[k].Branch? && "executable" in t[k].children
              && t[k].children["executable"] in {Leaf(plan.redirects[k].0), Leaf(plan.redirects[k].1)}
    {
      RedirectMapHas(st.entries, k);
      var i :| 0 <= i < |st.entries| && st.entries[i].entry == k;
      assert KnownExecutable(t, st.entries[i]);
    }
    forall k | k in plan.disabled
      ensures k in t && t[k].Branch? && plan.disabled[k].1.Branch?
              && (plan.disabled[k].0.Some? ==> plan.disabled[k].0.value.Branch?)
              && Lookup(t[k].children, "config") in {plan.disabled[k].0, Some(plan.disabled[k].1)}
    {
      DisabledMapHas(st.disabled, k);
      var i :| 0 <= i < |st.disabled| && st.disabled[i].entry == k;
      assert KnownConfig(t, st.disabled[i]);
    }
  }

  lemma {:induction false} KnownItem(t: Section, plan: Plan, key: string)
    requires KnownPlan(t, plan) && key in t
    ensures OverlayItem(OriginalItem(t[key], key, plan), key, plan, Redirected(t, plan), Hidden(t, plan)) == t[key]
  {
    if t[key].Branch? {
      var fields := t[key].children;
      var back := OverlayItem(OriginalItem(t[key], key, plan), key, plan, Redirected(t, plan), Hidden(t, plan));
      forall f ensures Lookup(back.children, f) == Lookup(fields, f) { }
      SameFields(back.children, fields);
    }
  }

  lemma {:induction false} SameFields(a: map<string, Tree>, b: map<string, Tree>)
    requires forall k :: Lookup(a, k) == Lookup(b, k)
    ensures a == b
  {
    forall k ensures k in a <==> k in b { assert Lookup(a, k) == Lookup(b, k); }
    forall k | k in a ensures a[k] == b[k] { assert Lookup(a, k) == Lookup(b, k); }
  }

  lemma {:induction false} OriginalsRecorded(t: Section, plan: Plan)
    requires KnownPlan(t, plan)
    ensures Records(plan, Originals(t, plan))
  {
  }

  // A section in which everything recorded is known lies between the one with
  // all originals and the installed one.
  lemma {:induction false} KnownBetween(sections: Dict, st: State)
    requires Recordable(st) && Find(sections, LAUNCH).Some? && Known(Abs(Find(sections, LAUNCH).value), st)
    ensures var t, plan := Abs(Find(sections, LAUNCH).value), PlanOf(st);
            Between(sections, Originals(t, plan), plan, Redirected(t, plan), Hidden(t, plan))
  {
    hide Find, OverlayItem, OriginalItem, Records, Known, KnownPlan, Redirected, Hidden, RedirectMap, DisabledMap;
    var t, plan := Abs(Find(sections, LAUNCH).value), PlanOf(st);
    KnownIsPlan(t, st);
    OriginalsRecorded(t, plan);
    forall key | key in t
      ensures OverlayItem(OriginalItem(t[key], key, plan), key, plan, Redirected(t, plan), Hidden(t, plan)) == t[key]
    {
      KnownItem(t, plan, key);
    }
  }

  // Validation looks at values without order.
  lemma {:induction false} CheckRedirectAbs(a: Dict, b: Dict, r: Redirect)
    requires Abs(a) == Abs(b)
    ensures CheckRedirect(a, r) == CheckRedirect(b, r)
  {
    AbsGet(a, r.entry);
    AbsGet(b, r.entry);
    if Has(a, r.entry) && Get(a, r.entry).value.Sub? {
      AbsGet(Get(a, r.entry).value.dict, "executable");
      AbsGet(Get(b, r.entry).value.dict, "executable");
    }
  }

  lemma {:induction false} CheckDisabledAbs(a: Dict, b: Dict, d: Disabled)
    requires Abs(a) == Abs(b)
    ensures CheckDisabled(a, d) == CheckDisabled(b, d)
  {
    AbsGet(a, d.entry);
    AbsGet(b, d.entry);
    if Has(a, d.entry) && Get(a, d.entry).value.Sub? {
      AbsGet(Get(a, d.entry).value.dict, "config");
      AbsGet(Get(b, d.entry).value.dict, "config");
    }
  }

  lemma {:induction false} CheckRedirectsAbs(a: Dict, b: Dict, entries: seq<Redirect>)
    requires Abs(a) == Abs(b)
    ensures CheckRedirects(a, entries) == CheckRedirects(b, entries)
    decreases entries
  {
    hide CheckRedirect;
    if entries != [] {
      CheckRedirectAbs(a, b, entries[0]);
      CheckRedirectsAbs(a, b, entries[1..]);
    }
  }

  lemma {:induction false} CheckAllDisabledAbs(a: Dict, b: Dict, disabled: seq<Disabled>)
    requires Abs(a) == Abs(b)
    ensures CheckAllDisabled(a, disabled) == CheckAllDisabled(b, disabled)
    decreases disabled
  {
    hide CheckDisabled;
    if disabled != [] {
      CheckDisabledAbs(a, b, disabled[0]);
      CheckAllDisabledAbs(a, b, disabled[1..]);
    }
  }

  // So a restore that says it changed something did.
  lemma {:induction false} ChangesSomething(sections: Dict, st: State, sections': Dict)
    requires Restore(sections, st) == Ok((sections', true)) && Restore(sections', st) == Ok((sections', false))
    requires Find(sections', LAUNCH).Some?
    ensures Abs(Find(sections', LAUNCH).value) != Abs(Find(sections, LAUNCH).value)
  {
    hide Find, Graft, CheckRedirects, CheckAllDisabled, ApplyConfigs, ApplyExecutables;
    var launch, launch' := Find(sections, LAUNCH).value, Find(sections', LAUNCH).value;
    if Abs(launch) == Abs(launch') {
      CheckRedirectsAbs(launch, launch', st.entries);
      CheckAllDisabledAbs(launch, launch', st.disabled);
    }
  }

  // A restore of a recorded state succeeds if and only if everything recorded is
  // known. Then the launch section is the one with all originals in place and
  // nothing else of the app changes; and it says that it changed something if
  // and only if it did.
  lemma {:induction false} RestoresExactly(sections: Dict, st: State)
    requires Proper(sections) && Recordable(st) && ProperState(st)
    ensures Restore(sections, st).Ok? <==>
              Find(sections, LAUNCH).Some? && Known(Abs(Find(sections, LAUNCH).value), st)
    ensures Restore(sections, st).Ok? ==>
              var (sections', changed) := Restore(sections, st).value;
              && Find(sections', LAUNCH).Some?
              && Abs(Find(sections', LAUNCH).value) == Originals(Abs(Find(sections, LAUNCH).value), PlanOf(st))
              && sections' == Graft(sections, LAUNCH, Find(sections', LAUNCH).value)
              && (changed <==> Abs(Find(sections', LAUNCH).value) != Abs(Find(sections, LAUNCH).value))
  {
    hide Known, Recordable, ProperState, PlanOf, Between, Originals, Redirected, Hidden, Validate, ApplyConfigs,
      ApplyExecutables, Find, Graft;
    if Find(sections, LAUNCH).Some? {
      var launch := Find(sections, LAUNCH).value;
      ValidatesExactly(launch, st);
      if Known(Abs(launch), st) {
        var t, plan := Abs(launch), PlanOf(st);
        KnownBetween(sections, st);
        RestoreUndoes(sections, st, Originals(t, plan), Redirected(t, plan), Hidden(t, plan));
        var (sections', changed) := Restore(sections, st).value;
        if changed { ChangesSomething(sections, st, sections'); }
      }
    }
  }

  // --- On files -------------------------------------------------------------

  // The launch section of an app in an image.
  ghost function LaunchIn(img: Image, appid: int): Option<Section> {
    if 0 <= appid < LIMIT32 && appid in img.records && Find(img.records[appid].sections, LAUNCH).Some?
    then Some(Abs(Find(img.records[appid].sections, LAUNCH).value)) else None
  }

  // A state of another app, or one foreign executable or config, makes the
  // restore of a file an error; whatever else the file and the state hold.
  lemma {:induction false} ForeignRefused(sums: Sums, file: Bytes, st: State, expected: Option<int>)
    requires Parse(file).Ok?
    requires || (expected.Some? && expected.value != st.appid)
             || LaunchIn(Parse(file).value, st.appid).None?
             || !Known(LaunchIn(Parse(file).value, st.appid).value, st)
    ensures RestoreFile(sums, file, st, expected).Err?
  {
    hide Parse, Known, Validate, Find, Graft, Rewrite, ApplyConfigs, ApplyExecutables;
    ParseSound(file);
    if LaunchIn(Parse(file).value, st.appid).Some? {
      ValidatesExactly(Find(Parse(file).value.records[st.appid].sections, LAUNCH).value, st);
    }
  }

  // The recorded originals can be stored in any image.
  ghost predicate OriginalsStorable(st: State)
    requires Recordable(st)
  {
    && (forall k :: k in PlanOf(st).redirects ==> Storable(PlanOf(st).redirects[k].0))
    && (forall k :: k in PlanOf(st).disabled && PlanOf(st).disabled[k].0.Some? ==>
          Fits(V28, [], PlanOf(st).disabled[k].0.value))
  }

  lemma {:induction false} OriginalsFit(v: Version, pool: seq<string>, t: Section, st: State)
    requires FitsAll(v, pool, t) && Recordable(st) && OriginalsStorable(st)
    ensures FitsAll(v, pool, Originals(t, PlanOf(st)))
  {
    hide Storable, Fits, KeyFits, RedirectMap, DisabledMap, Recordable, OriginalItem;
    var plan := PlanOf(st);
    forall k | k in t ensures Fits(v, pool, OriginalItem(t[k], k, plan)) {
      OriginalFits(v, pool, t[k], k, st);
    }
  }

  lemma {:induction false} OriginalFits(v: Version, pool: seq<string>, item: Tree, key: string, st: State)
    requires Fits(v, pool, item) && Recordable(st) && OriginalsStorable(st)
    ensures Fits(v, pool, OriginalItem(item, key, PlanOf(st)))
  {
    hide Storable, RedirectMap, DisabledMap, Recordable;
    var plan := PlanOf(st);
    Names("executable");
    Names("config");
    var a := item;
    if key in plan.redirects {
      a := SetField(item, "executable", Leaf(plan.redirects[key].0));
      FitsSetField(v, pool, item, "executable", Leaf(plan.redirects[key].0));
    }
    if key in plan.disabled && plan.disabled[key].0.Some? {
      Lifecycle.FitsAnywhere(v, pool, plan.disabled[key].0.value);
      FitsSetField(v, pool, a, "config", plan.disabled[key].0.value);
    }
  }

  // On a loaded file, the restore of a recorded state fails if and only if
  // something recorded is not known, or a field of the format overflows. Else the
  // originals are in place and no other app has changed; a file with nothing to
  // restore stays the very same bytes.
  lemma {:induction false} RestoresFileExactly(sums: Sums, file: Bytes, p: Image, appid: Word32, st: State)
    requires Loaded(file, p, appid) && Recordable(st) && ProperState(st) && st.appid == appid && OriginalsStorable(st)
    ensures match RestoreFile(sums, file, st, Some(appid))
            case Err(e) => e == TooLarge || LaunchIn(p, appid).None? || !Known(LaunchIn(p, appid).value, st)
            case Ok(file') =>
              && LaunchIn(p, appid).Some? && Known(LaunchIn(p, appid).value, st)
              && Parse(file').Ok? && Loaded(file', Parse(file').value, appid) && OnlyApp(p, Parse(file').value, appid)
              && LaunchIn(Parse(file').value, appid) == Some(Originals(LaunchIn(p, appid).value, PlanOf(st)))
              && (Originals(LaunchIn(p, appid).value, PlanOf(st)) == LaunchIn(p, appid).value ==> file' == file)
  {
    hide Parse, Loaded, OnlyApp, FitsAll, Find, Graft, Known, Recordable, PlanOf, ProperState, RestoreFile, Between,
      Originals, Redirected, Hidden, OriginalsStorable;
    var sections := SectionsAt(file, p, appid);
    if LaunchIn(p, appid).None? || !Known(LaunchIn(p, appid).value, st) {
      ForeignRefused(sums, file, st, Some(appid));
    } else {
      var t, plan := LaunchIn(p, appid).value, PlanOf(st);
      KnownBetween(sections, st);
      LoadedFits(file, p, appid);
      AbsFind(sections, LAUNCH);
      FitsAt(p.version, p.pool, Abs(sections), LAUNCH);
      OriginalsFit(p.version, p.pool, t, st);
      var q := RestoreStep(sums, file, p, appid, st, Originals(t, plan), Redirected(t, plan), Hidden(t, plan));
      RestoresExactly(sections, st);
      if RestoreFile(sums, file, st, Some(appid)).Ok? {
        var _ := SectionsAt(RestoreFile(sums, file, st, Some(appid)).value, q, appid);
        if !Restore(sections, st).value.1 { UnchangedFile(sums, file, p, appid, st); }
      }
    }
  }

  lemma {:induction false} UnchangedFile(sums: Sums, file: Bytes, p: Image, appid: Word32, st: State)
    requires Loaded(file, p, appid) && RestoreFile(sums, file, st, Some(appid)).Ok?
    requires Restore(p.records[appid].sections, st).Ok? && !Restore(p.records[appid].sections, st).value.1
    ensures RestoreFile(sums, file, st, Some(appid)) == Ok(file)
  {
    hide Parse, WellFormed, Representable, Restore, Rewrite;
  }
}
