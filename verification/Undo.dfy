// The promises of the launch editor: patching records enough to undo itself,
// leaves no Windows entry unattended, and restoring is all or nothing.
module Undo {
  import opened Wrappers
  import opened Vdf
  import opened Launch
  import opened Plan

  // The recorded configs have distinct keys, as every JSON object has.
  predicate ProperState(st: State) {
    forall i :: 0 <= i < |st.disabled| && st.disabled[i].original.Some? ==> ProperValue(st.disabled[i].original.value)
  }

  // The launch section of `sections` is an overlay of `native`.
  ghost predicate Between(sections: Dict, native: Section, plan: Plan, redirected: set<string>, hidden: set<string>) {
    Find(sections, LAUNCH).Some? && Holds(Find(sections, LAUNCH).value, native, plan, redirected, hidden)
  }

  // --- Restore --------------------------------------------------------------

  lemma {:induction false} PlanEntries(st: State)
    requires Recordable(st)
    ensures forall i :: 0 <= i < |st.entries| ==>
              st.entries[i].entry in PlanOf(st).redirects
              && PlanOf(st).redirects[st.entries[i].entry]
                  == (st.entries[i].original.text, st.entries[i].installed.text)
    ensures forall i :: 0 <= i < |st.disabled| ==>
              st.disabled[i].entry in PlanOf(st).disabled
              && PlanOf(st).disabled[st.disabled[i].entry]
                 == (AbsOption(st.disabled[i].original), AbsValue(st.disabled[i].installed))
  {
    forall i | 0 <= i < |st.entries|
      ensures st.entries[i].entry in PlanOf(st).redirects
      ensures PlanOf(st).redirects[st.entries[i].entry] == (st.entries[i].original.text, st.entries[i].installed.text)
    {
      RedirectMapAt(st.entries, i);
    }
    forall i | 0 <= i < |st.disabled|
      ensures st.disabled[i].entry in PlanOf(st).disabled
      ensures PlanOf(st).disabled[st.disabled[i].entry]
           == (AbsOption(st.disabled[i].original), AbsValue(st.disabled[i].installed))
    {
      DisabledMapAt(st.disabled, i);
    }
  }

  // Validation of any overlay succeeds, and applying the changes it lists gives
  // back the native section.
  lemma {:induction false} RestoreLaunch(
    launch: Dict, st: State, native: Section, redirected: set<string>, hidden: set<string>)
    requires Proper(launch) && Recordable(st) && ProperState(st)
    requires Holds(launch, native, PlanOf(st), redirected, hidden)
    ensures Validate(launch, st).Ok?
    ensures var changes := Validate(launch, st).value;
            var r := ApplyConfigs(ApplyExecutables(launch, changes.executables), changes.configs);
            && r.Ok? && Abs(r.value) == native
            && (redirected == {} && hidden == {} ==> !changes.Any())
            && (!changes.Any() ==> r.value == launch)
  {
    hide Holds, Records, Overlay, CheckRedirects, CheckAllDisabled, ApplyExecutables, ApplyConfigs, RedirectMap,
      DisabledMap;
    var plan := PlanOf(st);
    PlanEntries(st);
    CheckRedirectsHold(launch, native, plan, redirected, hidden, st.entries);
    CheckAllDisabledHold(launch, native, plan, redirected, hidden, st.disabled);
    var executables, configs := CheckRedirects(launch, st.entries).value, CheckAllDisabled(launch, st.disabled).value;
    ApplyExecutablesHolds(launch, native, plan, redirected, hidden, executables);
    var launch1 := ApplyExecutables(launch, executables);
    ApplyExecutablesProper(launch, executables);
    ConfigsProper(launch, st, configs);
    ApplyConfigsHolds(launch1, native, plan, redirected - Firsts(executables), hidden, configs);
    Settled(launch, st, native, redirected, hidden, executables, configs, ApplyConfigs(launch1, configs).value);
    NoChange(launch);
    if redirected == {} && hidden == {} {
      NoneLeft(executables, redirected);
      NoneLeft(configs, hidden);
    }
  }

  lemma {:induction false} NoneLeft<T>(changes: seq<(string, T)>, among: set<string>)
    requires forall c :: c in changes ==> c.0 in among
    ensures among == {} ==> changes == []
  {
    assert changes == [] || changes[0] in changes;
  }

  lemma {:induction false} NoChange(launch: Dict)
    ensures ApplyExecutables(launch, []) == launch && ApplyConfigs(launch, []) == Ok(launch)
  {
  }

  lemma {:induction false} ApplyExecutablesProper(launch: Dict, changes: seq<(string, string)>)
    requires Proper(launch)
    ensures Proper(ApplyExecutables(launch, changes))
    decreases changes
  {
    if changes != [] {
      var (entry, executable) := changes[0];
      var item := Fields(launch, entry);
      if Has(launch, entry) { ProperGet(launch, entry); }
      ProperPut(item, "executable", Text(executable));
      ProperPut(launch, entry, Sub(Put(item, "executable", Text(executable))));
      ApplyExecutablesProper(Put(launch, entry, Sub(Put(item, "executable", Text(executable)))), changes[1..]);
    }
  }

  lemma {:induction false} ConfigsProper(launch: Dict, st: State, configs: seq<(string, Option<Value>)>)
    requires ProperState(st) && CheckAllDisabled(launch, st.disabled) == Ok(configs)
    ensures forall i :: 0 <= i < |configs| && configs[i].1.Some? ==> ProperValue(configs[i].1.value)
  {
    ConfigsProperFrom(launch, st.disabled, configs);
  }

  lemma {:induction false} ConfigsProperFrom(
    launch: Dict, disabled: seq<Disabled>, configs: seq<(string, Option<Value>)>)
    requires forall i :: 0 <= i < |disabled| && disabled[i].original.Some? ==> ProperValue(disabled[i].original.value)
    requires CheckAllDisabled(launch, disabled) == Ok(configs)
    ensures forall i :: 0 <= i < |configs| && configs[i].1.Some? ==> ProperValue(configs[i].1.value)
    decreases disabled
  {
    if disabled != [] {
      var first := CheckDisabled(launch, disabled[0]).value;
      var rest := CheckAllDisabled(launch, disabled[1..]).value;
      ConfigsProperFrom(launch, disabled[1..], rest);
    }
  }

  // What validation left alone already had its native value.
  lemma {:induction false} Settled(
    launch: Dict, st: State, native: Section, redirected: set<string>, hidden: set<string>,
    executables: seq<(string, string)>, configs: seq<(string, Option<Value>)>, launch': Dict)
    requires Recordable(st)
    requires Holds(launch', native, PlanOf(st), redirected - Firsts(executables), hidden - Firsts(configs))
    requires forall i :: 0 <= i < |st.entries| ==>
               st.entries[i].entry in Firsts(executables)
               || (st.entries[i].entry in redirected ==> st.entries[i].installed == st.entries[i].original)
    requires forall i :: 0 <= i < |st.disabled| ==>
               st.disabled[i].entry in Firsts(configs)
               || (st.disabled[i].entry in hidden ==>
                     AbsOption(st.disabled[i].original) == Some(AbsValue(st.disabled[i].installed)))
    ensures Abs(launch') == native
  {
    hide Overlay, Records, RedirectMap, DisabledMap;
    var plan := PlanOf(st);
    PlanEntries(st);
    forall k | k in redirected - Firsts(executables) && k in plan.redirects
      ensures plan.redirects[k].1 == plan.redirects[k].0
    {
      RedirectMapHas(st.entries, k);
      var i :| 0 <= i < |st.entries| && st.entries[i].entry == k;
    }
    forall k | k in hidden - Firsts(configs) && k in plan.disabled
      ensures plan.disabled[k].0 == Some(plan.disabled[k].1)
    {
      DisabledMapHas(st.disabled, k);
      var i :| 0 <= i < |st.disabled| && st.disabled[i].entry == k;
    }
    OverlaySettled(native, plan, redirected - Firsts(executables), hidden - Firsts(configs));
  }

  // On every section between native and installed, restoring succeeds, gives
  // back the native launch section, touches nothing else, and is then complete:
  // a second restore has nothing to do.
  lemma {:induction false} RestoreUndoes(
    sections: Dict, st: State, native: Section, redirected: set<string>, hidden: set<string>)
    requires Proper(sections) && Recordable(st) && ProperState(st)
    requires Between(sections, native, PlanOf(st), redirected, hidden)
    ensures Restore(sections, st).Ok?
    ensures var (sections', changed) := Restore(sections, st).value;
            && Proper(sections')
            && Find(sections', LAUNCH).Some? && Abs(Find(sections', LAUNCH).value) == native
            && sections' == Graft(sections, LAUNCH, Find(sections', LAUNCH).value)
            && (!changed ==> sections' == sections)
            && Restore(sections', st) == Ok((sections', false))
  {
    hide Records, Overlay, Find, Graft, ApplyExecutables, ApplyConfigs, Validate;
    var launch := Find(sections, LAUNCH).value;
    ProperFind(sections, LAUNCH);
    RestoreLaunch(launch, st, native, redirected, hidden);
    var changes := Validate(launch, st).value;
    var launch1 := ApplyExecutables(launch, changes.executables);
    var launch' := ApplyConfigs(launch1, changes.configs).value;
    var sections' := Restore(sections, st).value.0;
    FindGraft(sections, LAUNCH, launch');
    GraftFind(sections, LAUNCH);
    ApplyExecutablesProper(launch, changes.executables);
    ChangedConfigsProper(launch, st, changes);
    ApplyConfigsProper(launch1, changes.configs, launch');
    ProperGraft(sections, LAUNCH, launch');
    assert Find(sections', LAUNCH) == Some(launch');
    assert Holds(launch', native, PlanOf(st), {}, {}) by { OverlayNone(native, PlanOf(st)); }
    RestoreLaunch(launch', st, native, {}, {});
  }

  lemma {:induction false} ChangedConfigsProper(launch: Dict, st: State, changes: Changes)
    requires ProperState(st) && Validate(launch, st) == Ok(changes)
    ensures forall i :: 0 <= i < |changes.configs| && changes.configs[i].1.Some? ==>
              ProperValue(changes.configs[i].1.value)
  {
    ConfigsProper(launch, st, changes.configs);
  }

  lemma {:induction false} ApplyConfigsProper(launch: Dict, changes: seq<(string, Option<Value>)>, launch': Dict)
    requires Proper(launch) && ApplyConfigs(launch, changes) == Ok(launch')
    requires forall i :: 0 <= i < |changes| && changes[i].1.Some? ==> ProperValue(changes[i].1.value)
    ensures Proper(launch')
    decreases changes
  {
    if changes != [] {
      var (entry, config) := changes[0];
      var item := Fields(launch, entry);
      if Has(launch, entry) { ProperGet(launch, entry); }
      var item' := if config.Some? then Put(item, "config", config.value) else Del(item, "config");
      if config.Some? { ProperPut(item, "config", config.value); } else { ProperDel(item, "config"); }
      ProperPut(launch, entry, Sub(item'));
      ApplyConfigsProper(Put(launch, entry, Sub(item')), changes[1..], launch');
    }
  }

  // --- When a validated state cannot be applied -----------------------------

  // Some config is deleted again, with nothing put back in between.
  predicate DeletedTwice(configs: seq<(string, Option<Value>)>, gone: set<string>)
    decreases configs
  {
    configs != [] &&
    var (entry, config) := configs[0];
    || (config.None? && entry in gone)
    || DeletedTwice(configs[1..], if config.None? then gone + {entry} else gone - {entry})
  }

  lemma {:induction false} ApplyConfigsExactly(launch: Dict, configs: seq<(string, Option<Value>)>, gone: set<string>)
    requires Proper(launch)
    requires forall i :: 0 <= i < |configs| ==> (Has(Fields(launch, configs[i].0), "config") <==> configs[i].0 !in gone)
    requires forall i :: 0 <= i < |configs| && configs[i].1.Some? ==> ProperValue(configs[i].1.value)
    ensures ApplyConfigs(launch, configs).Err? <==> DeletedTwice(configs, gone)
    decreases configs
  {
    if configs != [] {
      var (entry, config) := configs[0];
      var item := Fields(launch, entry);
      assert configs[0].0 == entry;
      if !(config.None? && entry in gone) {
        var item' := if config.Some? then Put(item, "config", config.value) else Del(item, "config");
        if Has(launch, entry) { ProperGet(launch, entry); }
        if config.Some? { ProperPut(item, "config", config.value); } else { ProperDel(item, "config"); }
        ProperPut(launch, entry, Sub(item'));
        var launch' := Put(launch, entry, Sub(item'));
        var gone' := if config.None? then gone + {entry} else gone - {entry};
        forall i | 0 <= i < |configs[1..]|
          ensures Has(Fields(launch', configs[1..][i].0), "config") <==> configs[1..][i].0 !in gone'
        {
          var other := configs[i + 1].0;
          GetPut(launch, entry, Sub(item'), other);
          if config.Some? { GetPut(item, "config", config.value, "config"); } else { GetDel(item, "config", "config"); }
        }
        ApplyConfigsExactly(launch', configs[1..], gone');
      }
    }
  }

  lemma {:induction false} ChangedHaveConfig(launch: Dict, disabled: seq<Disabled>)
    requires CheckAllDisabled(launch, disabled).Ok?
    ensures forall i :: 0 <= i < |CheckAllDisabled(launch, disabled).value| ==>
              Has(Fields(launch, CheckAllDisabled(launch, disabled).value[i].0), "config")
    decreases disabled
  {
    if disabled != [] {
      ChangedHaveConfig(launch, disabled[1..]);
    }
  }

  lemma {:induction false} ExecutablesKeepConfigs(launch: Dict, changes: seq<(string, string)>, entry: string)
    ensures Has(Fields(ApplyExecutables(launch, changes), entry), "config") <==> Has(Fields(launch, entry), "config")
    decreases changes
  {
    if changes != [] {
      var (key, executable) := changes[0];
      var item := Put(Fields(launch, key), "executable", Text(executable));
      GetPut(launch, key, Sub(item), entry);
      GetPut(Fields(launch, key), "executable", Text(executable), "config");
      ExecutablesKeepConfigs(Put(launch, key, Sub(item)), changes[1..], entry);
    }
  }

  // A record of an entry that had no config and has one now.
  predicate Removes(launch: Dict, d: Disabled) {
    !d.hadConfig && Has(Fields(launch, d.entry), "config")
  }

  // A record of an entry whose config is not the one it had.
  predicate PutsBack(launch: Dict, d: Disabled) {
    d.hadConfig && !(ConfigOf(Fields(launch, d.entry)).Some? && d.original.Some?
                     && SameValue(ConfigOf(Fields(launch, d.entry)).value, d.original.value))
  }

  // Two records remove the config of one entry, and none between them puts one
  // back.
  ghost predicate RemovesTwice(launch: Dict, disabled: seq<Disabled>) {
    exists i, j ::
      && 0 <= i < j < |disabled| && disabled[i].entry == disabled[j].entry
      && Removes(launch, disabled[i]) && Removes(launch, disabled[j])
      && NoneBack(launch, disabled, i + 1, j)
  }

  // No record from `lo` up to the j-th puts back a config of the j-th one's entry.
  ghost predicate NoneBack(launch: Dict, disabled: seq<Disabled>, lo: nat, j: nat)
    requires j < |disabled|
  {
    forall k :: lo <= k < j && disabled[k].entry == disabled[j].entry ==> !PutsBack(launch, disabled[k])
  }

  // A record removes a config that is gone already.
  ghost predicate RemovesGone(launch: Dict, disabled: seq<Disabled>, gone: set<string>) {
    exists j ::
      && 0 <= j < |disabled| && disabled[j].entry in gone && Removes(launch, disabled[j])
      && NoneBack(launch, disabled, 0, j)
  }

  lemma {:induction false} NoneBackTail(launch: Dict, disabled: seq<Disabled>, lo: nat, j: nat)
    requires 0 < lo && 0 < j < |disabled|
    ensures NoneBack(launch, disabled, lo, j) <==> NoneBack(launch, disabled[1..], lo - 1, j - 1)
  {
    hide PutsBack;
    var tail := disabled[1..];
    if NoneBack(launch, tail, lo - 1, j - 1) {
      forall k | lo <= k < j && disabled[k].entry == disabled[j].entry ensures !PutsBack(launch, disabled[k]) {
        assert tail[k - 1] == disabled[k] && tail[j - 1] == disabled[j];
      }
    }
  }

  lemma {:induction false} RemovesTwiceFirst(launch: Dict, disabled: seq<Disabled>)
    requires disabled != [] && RemovesTwice(launch, disabled)
    ensures || RemovesTwice(launch, disabled[1..])
            || (Removes(launch, disabled[0]) && RemovesGone(launch, disabled[1..], {disabled[0].entry}))
  {
    hide Removes, NoneBack;
    var tail := disabled[1..];
    var i, j :| && 0 <= i < j < |disabled| && disabled[i].entry == disabled[j].entry
                && Removes(launch, disabled[i]) && Removes(launch, disabled[j]) && NoneBack(launch, disabled, i + 1, j);
    NoneBackTail(launch, disabled, i + 1, j);
    assert tail[j - 1] == disabled[j];
    if i > 0 {
      assert tail[i - 1].entry == tail[j - 1].entry;
    }
  }

  lemma {:induction false} RemovesTwiceLater(launch: Dict, disabled: seq<Disabled>)
    requires disabled != [] && RemovesTwice(launch, disabled[1..])
    ensures RemovesTwice(launch, disabled)
  {
    hide Removes, NoneBack;
    var tail := disabled[1..];
    var i, j :| && 0 <= i < j < |tail| && tail[i].entry == tail[j].entry
                && Removes(launch, tail[i]) && Removes(launch, tail[j]) && NoneBack(launch, tail, i + 1, j);
    NoneBackTail(launch, disabled, i + 2, j + 1);
    assert disabled[i + 1].entry == disabled[j + 1].entry;
  }

  lemma {:induction false} RemovesTwiceSplit(launch: Dict, disabled: seq<Disabled>)
    requires disabled != []
    ensures RemovesTwice(launch, disabled) <==>
              || RemovesTwice(launch, disabled[1..])
              || (Removes(launch, disabled[0]) && RemovesGone(launch, disabled[1..], {disabled[0].entry}))
  {
    hide Removes, NoneBack;
    if RemovesTwice(launch, disabled) { RemovesTwiceFirst(launch, disabled); }
    if RemovesTwice(launch, disabled[1..]) { RemovesTwiceLater(launch, disabled); }
    if Removes(launch, disabled[0]) && RemovesGone(launch, disabled[1..], {disabled[0].entry}) {
      var tail := disabled[1..];
      var j :| && 0 <= j < |tail| && tail[j].entry in {disabled[0].entry} && Removes(launch, tail[j])
               && NoneBack(launch, tail, 0, j);
      NoneBackTail(launch, disabled, 1, j + 1);
      assert disabled[0].entry == disabled[j + 1].entry;
    }
  }

  lemma {:induction false} RemovesGoneSplit(launch: Dict, disabled: seq<Disabled>, gone: set<string>)
    requires disabled != []
    ensures var d := disabled[0];
            RemovesGone(launch, disabled, gone) <==>
              || (Removes(launch, d) && d.entry in gone)
              || RemovesGone(launch, disabled[1..], if PutsBack(launch, d) then gone - {d.entry} else gone)
  {
    hide Removes, PutsBack;
    var d, tail := disabled[0], disabled[1..];
    var later := if PutsBack(launch, d) then gone - {d.entry} else gone;
    forall j | 0 < j < |disabled|
      ensures tail[j - 1] == disabled[j]
      ensures NoneBack(launch, disabled, 0, j) <==>
                NoneBack(launch, tail, 0, j - 1) && !(disabled[j].entry == d.entry && PutsBack(launch, d))
    {
      NoneBackTail(launch, disabled, 1, j);
    }
    if RemovesGone(launch, disabled, gone) {
      var j :| && 0 <= j < |disabled| && disabled[j].entry in gone && Removes(launch, disabled[j])
               && NoneBack(launch, disabled, 0, j);
      if j > 0 { assert tail[j - 1].entry in later; }
    }
    if RemovesGone(launch, tail, later) {
      var j :| 0 <= j < |tail| && tail[j].entry in later && Removes(launch, tail[j]) && NoneBack(launch, tail, 0, j);
      assert disabled[j + 1].entry in gone;
    }
    if Removes(launch, d) && d.entry in gone { assert NoneBack(launch, disabled, 0, 0); }
  }

  lemma {:induction false} RemovesGoneUnion(launch: Dict, disabled: seq<Disabled>, a: set<string>, b: set<string>)
    ensures RemovesGone(launch, disabled, a + b) <==>
              RemovesGone(launch, disabled, a) || RemovesGone(launch, disabled, b)
  {
    hide Removes, NoneBack;
  }

  lemma {:induction false} CheckedChange(launch: Dict, d: Disabled)
    requires CheckDisabled(launch, d).Ok?
    ensures CheckDisabled(launch, d).value
         == if Removes(launch, d) then [(d.entry, None)]
            else if PutsBack(launch, d) then [(d.entry, d.original)] else []
    ensures PutsBack(launch, d) ==> d.original.Some?
    ensures !(Removes(launch, d) && PutsBack(launch, d))
  {
  }

  lemma {:induction false} DeletedTwiceExactly(launch: Dict, disabled: seq<Disabled>, gone: set<string>)
    requires CheckAllDisabled(launch, disabled).Ok?
    ensures DeletedTwice(CheckAllDisabled(launch, disabled).value, gone) <==>
              RemovesTwice(launch, disabled) || RemovesGone(launch, disabled, gone)
    decreases disabled
  {
    hide Removes, PutsBack, RemovesTwice, RemovesGone, CheckDisabled;
    if disabled == [] {
      NothingRemoved(launch, gone);
    } else {
      var d, tail := disabled[0], disabled[1..];
      var first, rest := CheckDisabled(launch, d).value, CheckAllDisabled(launch, tail).value;
      CheckedChange(launch, d);
      RemovesTwiceSplit(launch, disabled);
      RemovesGoneSplit(launch, disabled, gone);
      var gone' := if Removes(launch, d) then gone + {d.entry}
                   else if PutsBack(launch, d) then gone - {d.entry} else gone;
      DeletedTwiceExactly(launch, tail, gone');
      RemovesGoneUnion(launch, tail, gone, {d.entry});
      if first == [] { assert first + rest == rest; } else { assert (first + rest)[1..] == rest; }
    }
  }

  lemma {:induction false} NothingRemoved(launch: Dict, gone: set<string>)
    ensures !RemovesTwice(launch, []) && !RemovesGone(launch, [], gone)
  {
  }

  // Once a state has been validated, applying it can fail in one way only: two
  // of its records remove the config of one entry, and no record between them
  // puts another one back. Then nothing is written.
  lemma {:induction false} RestoreFailsExactly(sections: Dict, st: State)
    requires Proper(sections) && ProperState(st) && Find(sections, LAUNCH).Some?
    requires Validate(Find(sections, LAUNCH).value, st).Ok?
    ensures Restore(sections, st).Err? <==> RemovesTwice(Find(sections, LAUNCH).value, st.disabled)
  {
    hide Find, Graft, CheckRedirects, CheckAllDisabled, ApplyExecutables, ApplyConfigs, RemovesTwice, RemovesGone;
    var launch := Find(sections, LAUNCH).value;
    var changes := Validate(launch, st).value;
    var launch1 := ApplyExecutables(launch, changes.executables);
    ProperFind(sections, LAUNCH);
    ApplyExecutablesProper(launch, changes.executables);
    ConfigsProper(launch, st, changes.configs);
    ChangedHaveConfig(launch, st.disabled);
    forall i | 0 <= i < |changes.configs| ensures Has(Fields(launch1, changes.configs[i].0), "config") {
      ExecutablesKeepConfigs(launch, changes.executables, changes.configs[i].0);
    }
    ApplyConfigsExactly(launch1, changes.configs, {});
    DeletedTwiceExactly(launch, st.disabled, {});
    NothingGone(launch, st.disabled);
  }

  lemma {:induction false} NothingGone(launch: Dict, disabled: seq<Disabled>)
    ensures !RemovesGone(launch, disabled, {})
  {
  }

  // Such a state: it lists entry 1 twice, which had no config and has the
  // marker now. Its validation succeeds, and the restore fails.
  lemma {:induction false} RemovedTwice()
    returns (sections: Dict, st: State)
    ensures Proper(sections) && ProperState(st) && Find(sections, LAUNCH).Some?
    ensures Validate(Find(sections, LAUNCH).value, st).Ok? && Restore(sections, st).Err?
  {
    hide Restore, Validate, RemovesTwice;
    var marker := Sub(Entry("oslist", Text(DISABLED_OSLIST), Empty));
    var launch := Entry("0", Sub(Entry("executable", Text("new.exe"), Empty)),
                        Entry("1", Sub(Entry("config", marker, Empty)), Empty));
    sections := Entry("appinfo", Sub(Entry("config", Sub(Entry("launch", Sub(launch), Empty)), Empty)), Empty);
    var d := Disabled("1", false, None, marker);
    st := State(1, [Redirect("0", Text("old.exe"), Text("new.exe"))], [d, d]);
    assert Proper(Entry("launch", Sub(launch), Empty)) by {
      assert Proper(Entry("config", marker, Empty));
      assert Proper(launch);
    }
    assert LAUNCH[1..] == ["config", "launch"] && LAUNCH[1..][1..] == ["launch"] && ["launch"][1..] == [];
    assert Find(sections, LAUNCH) == Some(launch);
    TwiceValid(launch, d, st);
    RestoreFailsExactly(sections, st);
  }

  lemma {:induction false} CheckedTwice(launch: Dict, d: Disabled)
    requires CheckDisabled(launch, d).Ok?
    ensures CheckAllDisabled(launch, [d, d]).Ok?
  {
    hide CheckDisabled;
    assert [d, d][1..] == [d] && [d][1..] == [];
    assert CheckAllDisabled(launch, []).Ok?;
    assert CheckAllDisabled(launch, [d]).Ok?;
  }

  lemma {:induction false} TwiceValid(launch: Dict, d: Disabled, st: State)
    requires launch == Entry("0", Sub(Entry("executable", Text("new.exe"), Empty)),
                             Entry("1", Sub(Entry("config", d.installed, Empty)), Empty))
    requires d.installed.Sub? && d == Disabled("1", false, None, d.installed)
    requires st == State(1, [Redirect("0", Text("old.exe"), Text("new.exe"))], [d, d])
    ensures Validate(launch, st).Ok? && RemovesTwice(launch, st.disabled)
  {
    assert "0"[0] != "1"[0];
    assert Get(launch, "1") == Get(launch.rest, "1") == Some(Sub(Entry("config", d.installed, Empty)));
    assert CheckDisabled(launch, d).Ok?;
    CheckedTwice(launch, d);
    assert "old.exe"[0] != "new.exe"[0];
    assert st.entries[1..] == [];
    assert CheckRedirects(launch, st.entries).Ok?;
    assert st.disabled[0].entry == st.disabled[1].entry && NoneBack(launch, st.disabled, 1, 1);
  }

  // --- Patching -------------------------------------------------------------

  // The listed launches are exactly the usable Windows entries, each once.
  lemma {:induction false} SelectExact(h: Host, commonOs: Option<Value>, launch: Dict)
    requires Proper(launch)
    ensures var list := Select(h, commonOs, launch);
            && (forall i, j :: 0 <= i < j < |list| ==> list[i].entry != list[j].entry)
            && (forall key :: key in Entries(list) <==>
                  Has(launch, key) && IsUsable(h, commonOs, key, Get(launch, key).value))
    decreases launch
  {
    hide IsUsable;
    if launch.Entry? {
      var rest := Select(h, commonOs, launch.rest);
      SelectExact(h, commonOs, launch.rest);
      forall i | 0 <= i < |rest| ensures Has(launch.rest, rest[i].entry) { assert rest[i].entry in Entries(rest); }
      assert Entries(Select(h, commonOs, launch))
          == (if IsUsable(h, commonOs, launch.key, launch.value) then {launch.key} else {}) + Entries(rest) by {
        SelectSplit(h, commonOs, launch);
      }
    }
  }

  lemma {:induction false} SelectSplit(h: Host, commonOs: Option<Value>, launch: Dict)
    requires launch.Entry?
    ensures Entries(Select(h, commonOs, launch))
         == (if IsUsable(h, commonOs, launch.key, launch.value) then {launch.key} else {})
            + Entries(Select(h, commonOs, launch.rest))
  {
  }

  // What a successful patch leaves: a recorded plan of the native section and
  // the section with the whole plan in force.
  ghost predicate Installed(sections: Dict, sections': Dict, st: State) {
    && Find(sections, LAUNCH).Some?
    && Recordable(st) && ProperState(st)
    && (var native, plan := Abs(Find(sections, LAUNCH).value), PlanOf(st);
        Between(sections', native, plan, plan.redirects.Keys, plan.disabled.Keys))
    && sections' == Graft(sections, LAUNCH, Find(sections', LAUNCH).value)
  }

  lemma {:induction false} DisabledProper(
    h: Host, commonOs: Option<Value>, supported: set<string>, launch: Dict, launch': Dict, disabled: seq<Disabled>)
    requires Proper(launch) && Disable(h, commonOs, supported, launch) == Ok((launch', disabled))
    ensures Proper(launch')
    ensures forall k :: Has(launch', k) <==> Has(launch, k)
    ensures forall i :: 0 <= i < |disabled| && disabled[i].original.Some? ==> ProperValue(disabled[i].original.value)
    decreases launch
  {
    hide IsWindowsEntry, Disable;
    match launch
    case Empty =>
      DisableEmpty(h, commonOs, supported, launch', disabled);
    case Entry(key, item, rest) =>
      var rest', more := DisableStep(h, commonOs, supported, key, item, rest, launch', disabled);
      DisabledProper(h, commonOs, supported, rest, rest', more);
      if key !in supported && IsWindowsEntry(h, commonOs, key, item) {
        if Has(item.dict, "config") {
          ProperGet(item.dict, "config");
          ProperPut(Get(item.dict, "config").value.dict, "oslist", Text(DISABLED_OSLIST));
        }
        ProperPut(item.dict, "config", Sub(InstalledConfig(item.dict)));
        assert more == disabled[1..];
      }
      forall k ensures Has(launch', k) <==> Has(launch, k) { assert Has(rest', k) <==> Has(rest, k); }
      assert !Has(rest', key);
  }

  lemma {:induction false} ReplaceProper(
    launch: Dict, replacements: seq<(string, string)>, expects: Option<map<string, Option<Value>>>, launch': Dict,
    changed: seq<Redirect>)
    requires Proper(launch) && Replace(launch, replacements, expects) == Ok((launch', changed))
    ensures Proper(launch')
    decreases replacements
  {
    if replacements != [] {
      var (entry, executable) := replacements[0];
      var (launch1, current) := ReplaceOne(launch, entry, executable, GuardOf(expects, entry)).value;
      var item := Get(launch, entry).value.dict;
      ProperGet(launch, entry);
      ProperPut(item, "executable", Text(executable));
      ProperPut(launch, entry, Sub(Put(item, "executable", Text(executable))));
      ReplaceProper(launch1, replacements[1..], expects, launch', Replace(launch1, replacements[1..], expects).value.1);
    }
  }

  // The steps of a successful patch-all.
  lemma {:induction false} PatchAllSteps(
    h: Host, appid: int, template: string -> string, sections: Dict, sections': Dict, st: State)
    returns (launch: Dict, launches: seq<WindowsLaunch>, launch1: Dict, launch2: Dict)
    requires PatchAll(h, appid, template, sections) == Ok((sections', st))
    ensures Find(sections, LAUNCH) == Some(launch) && st.appid == appid && st.entries != []
    ensures launches == Select(h, CommonOs(sections), launch) && WindowsLaunches(h, sections) == Ok(launches)
    ensures Disable(h, CommonOs(sections), Entries(launches), launch) == Ok((launch1, st.disabled))
    ensures Replace(launch1, Replacements(launches, template), None) == Ok((launch2, st.entries))
    ensures sections' == Graft(sections, LAUNCH, launch2)
  {
    hide Find, Graft, Disable, Replace, Select, CommonOs, CommonOk;
    launch := Find(sections, LAUNCH).value;
    launches := WindowsLaunches(h, sections).value;
    launch1 := Disable(h, CommonOs(sections), Entries(launches), launch).value.0;
    FindGraft(sections, LAUNCH, launch1);
    launch2 := Replace(launch1, Replacements(launches, template), None).value.0;
    GraftGraft(sections, LAUNCH, launch1, launch2);
  }

  // patch-all is undone by restore: it records the native section and installs
  // the whole of its plan.
  lemma {:induction false} PatchAllInstalls(
    h: Host, appid: int, template: string -> string, sections: Dict, sections': Dict, st: State)
    requires Proper(sections) && PatchAll(h, appid, template, sections) == Ok((sections', st))
    ensures st.appid == appid && Installed(sections, sections', st) && Proper(sections')
    ensures PlanOf(st).redirects.Keys == Entries(WindowsLaunches(h, sections).value)
    ensures forall key :: key in PlanOf(st).redirects ==> PlanOf(st).redirects[key].1 == template(key)
    ensures var launch := Find(sections, LAUNCH).value;
            forall key :: key in PlanOf(st).disabled <==>
              Has(launch, key) && key !in PlanOf(st).redirects
              && IsWindowsEntry(h, CommonOs(sections), key, Get(launch, key).value)
    ensures var launch := Find(sections, LAUNCH).value;
            forall key :: key in PlanOf(st).disabled ==>
              Has(launch, key) && Get(launch, key).value.Sub?
                  && PlanOf(st).disabled[key].1 == MarkedConfig(Get(launch, key).value.dict)
  {
    hide Records, Overlay, Find, Graft, Disable, Replace, IsWindowsEntry, Select, CommonOs, CommonOk, PatchAll,
      RedirectMap, DisabledMap, MarkedConfig;
    var launch, launches, launch1, launch2 := PatchAllSteps(h, appid, template, sections, sections', st);
    var commonOs := CommonOs(sections);
    var replacements := Replacements(launches, template);
    ProperFind(sections, LAUNCH);
    SelectExact(h, commonOs, launch);
    DistinctReplacements(launches, template);
    DisableOverlay(h, commonOs, Entries(launches), launch, launch1, st.disabled);
    DisabledProper(h, commonOs, Entries(launches), launch, launch1, st.disabled);
    ReplaceOverlay(launch1, replacements, None, launch2, st.entries);
    ReplaceProper(launch1, replacements, None, launch2, st.entries);
    ChangedKeys(launches, template, st.entries);
    CombineOverlays(Abs(launch), Abs(launch1), Abs(launch2), RedirectMap(st.entries), DisabledMap(st.disabled));
    FindGraft(sections, LAUNCH, launch2);
    ProperGraft(sections, LAUNCH, launch2);
  }

  lemma {:induction false} DistinctReplacements(launches: seq<WindowsLaunch>, template: string -> string)
    requires forall i, j :: 0 <= i < j < |launches| ==> launches[i].entry != launches[j].entry
    ensures var r := Replacements(launches, template);
            && (forall i :: 0 <= i < |r| ==> r[i].0 == launches[i].entry && r[i].1 == template(launches[i].entry))
            && (forall i, j :: 0 <= i < j < |r| ==> r[i].0 != r[j].0)
  {
  }

  lemma {:induction false} ChangedKeys(launches: seq<WindowsLaunch>, template: string -> string, changed: seq<Redirect>)
    requires RedirectsTyped(changed) && |changed| == |launches|
    requires forall i, j :: 0 <= i < j < |launches| ==> launches[i].entry != launches[j].entry
    requires forall i :: 0 <= i < |changed| ==>
               changed[i].entry == launches[i].entry && changed[i].installed == Text(template(launches[i].entry))
    ensures RedirectMap(changed).Keys == Entries(launches)
    ensures forall key :: key in RedirectMap(changed) ==> RedirectMap(changed)[key].1 == template(key)
  {
    forall key
      ensures key in RedirectMap(changed) <==> key in Entries(launches)
    {
      RedirectMapHas(changed, key);
      assert key in Entries(launches) <==> exists i :: 0 <= i < |launches| && launches[i].entry == key;
    }
    forall key | key in RedirectMap(changed)
      ensures RedirectMap(changed)[key].1 == template(key)
    {
      RedirectMapHas(changed, key);
      var i :| 0 <= i < |changed| && changed[i].entry == key;
      RedirectMapAt(changed, i);
    }
  }

  // After patch-all every entry the client offers on Windows either starts its
  // own launcher or carries the private marker, never both; every other entry
  // is as it was.
  lemma {:induction false} PatchAllCovers(
    h: Host, appid: int, template: string -> string, sections: Dict, sections': Dict, st: State, key: string)
    requires Proper(sections) && PatchAll(h, appid, template, sections) == Ok((sections', st))
    requires Find(sections, LAUNCH).Some? && Has(Find(sections, LAUNCH).value, key)
    ensures Find(sections', LAUNCH).Some? && Has(Find(sections', LAUNCH).value, key)
    ensures var item, item' :=
              Get(Find(sections, LAUNCH).value, key).value, Get(Find(sections', LAUNCH).value, key).value;
            if IsUsable(h, CommonOs(sections), key, item)
            then AbsValue(item') == SetField(AbsValue(item), "executable", Leaf(template(key)))
            else if IsWindowsEntry(h, CommonOs(sections), key, item)
            then AbsValue(item') == SetField(AbsValue(item), "config", MarkedConfig(item.dict))
            else AbsValue(item') == AbsValue(item)
  {
    hide Records, Find, PatchAll, RedirectMap, DisabledMap, IsWindowsEntry, IsUsable, Select, MarkedConfig;
    var launch := Find(sections, LAUNCH).value;
    PatchAllInstalls(h, appid, template, sections, sections', st);
    var _, launches, _, _ := PatchAllSteps(h, appid, template, sections, sections', st);
    ProperFind(sections, LAUNCH);
    SelectExact(h, CommonOs(sections), launch);
    var plan := PlanOf(st);
    var launch' := Find(sections', LAUNCH).value;
    AbsGet(launch, key);
    AbsGet(launch', key);
    UsableIsWindows(h, CommonOs(sections), key, Get(launch, key).value);
  }

  lemma {:induction false} UsableIsWindows(h: Host, commonOs: Option<Value>, key: string, item: Value)
    ensures IsUsable(h, commonOs, key, item) ==> IsWindowsEntry(h, commonOs, key, item)
  {
  }

  // The steps of a successful single patch.
  lemma {:induction false} PatchOneSteps(
    h: Host, appid: int, executable: string, selector: Selector, guard: Guard, disable: bool, sections: Dict,
    sections': Dict, st: State)
    returns (launch: Dict, supported: set<string>, launch1: Dict, launch2: Dict, entry: string, current: string)
    requires PatchOne(h, appid, executable, selector, guard, disable, sections) == Ok((sections', st))
    ensures Find(sections, LAUNCH) == Some(launch) && st.appid == appid
    ensures if disable then Disable(h, CommonOs(sections), supported, launch) == Ok((launch1, st.disabled))
            else launch1 == launch && st.disabled == []
    ensures ReplaceOne(launch1, entry, executable, guard) == Ok((launch2, current))
    ensures st.entries == [Redirect(entry, Text(current), Text(executable))]
    ensures sections' == Graft(sections, LAUNCH, launch2)
  {
    hide Find, Graft, Disable, ReplaceOne, CommonOs, CommonOk, FirstMatch, Select;
    launch := Find(sections, LAUNCH).value;
    supported := if disable then Entries(WindowsLaunches(h, sections).value) else {};
    launch1 := if disable then Disable(h, CommonOs(sections), supported, launch).value.0 else launch;
    FindGraft(sections, LAUNCH, launch1);
    entry := st.entries[0].entry;
    launch2 := ReplaceOne(launch1, entry, executable, guard).value.0;
    current := ReplaceOne(launch1, entry, executable, guard).value.1;
    GraftGraft(sections, LAUNCH, launch1, launch2);
  }

  // So does a single patch, whichever entry it selects and whether or not it
  // disables the rest.
  lemma {:induction false} PatchOneInstalls(
    h: Host, appid: int, executable: string, selector: Selector, guard: Guard, disable: bool, sections: Dict,
    sections': Dict, st: State)
    requires Proper(sections)
               && PatchOne(h, appid, executable, selector, guard, disable, sections) == Ok((sections', st))
    ensures st.appid == appid && Installed(sections, sections', st) && Proper(sections')
    ensures forall key :: key in PlanOf(st).redirects ==> PlanOf(st).redirects[key].1 == executable
    ensures var launch := Find(sections, LAUNCH).value;
            forall key :: key in PlanOf(st).disabled ==>
              Has(launch, key) && Get(launch, key).value.Sub?
                  && PlanOf(st).disabled[key].1 == MarkedConfig(Get(launch, key).value.dict)
  {
    hide Records, Overlay, Find, Graft, Disable, IsWindowsEntry, CommonOs, PatchOne, ReplaceOne, MarkedConfig;
    var launch, supported, launch1, launch2, entry, current :=
      PatchOneSteps(h, appid, executable, selector, guard, disable, sections, sections', st);
    ProperFind(sections, LAUNCH);
    if disable {
      DisableOverlay(h, CommonOs(sections), supported, launch, launch1, st.disabled);
      DisabledProper(h, CommonOs(sections), supported, launch, launch1, st.disabled);
    } else {
      NothingRedirected(Abs(launch));
    }
    assert DisabledMap(st.disabled).Keys == {} || disable;
    ReplaceOneOverlay(launch1, entry, executable, guard, launch2, current);
    ReplaceOneProper(launch1, entry, executable, guard, launch2, current);
    assert RedirectMap(st.entries) == map[entry := (current, executable)];
    assert RedirectMap(st.entries).Keys == {entry};
    CombineOverlays(Abs(launch), Abs(launch1), Abs(launch2), RedirectMap(st.entries), DisabledMap(st.disabled));
    FindGraft(sections, LAUNCH, launch2);
    ProperGraft(sections, LAUNCH, launch2);
  }

  lemma {:induction false} ReplaceOneProper(
    launch: Dict, entry: string, executable: string, guard: Guard, launch': Dict, current: string)
    requires Proper(launch) && ReplaceOne(launch, entry, executable, guard) == Ok((launch', current))
    ensures Proper(launch')
  {
    var item := Get(launch, entry).value.dict;
    ProperGet(launch, entry);
    ProperPut(item, "executable", Text(executable));
    ProperPut(launch, entry, Sub(Put(item, "executable", Text(executable))));
  }
}

