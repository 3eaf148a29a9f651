// A mapping state seen through dictionaries without order: what it recorded of
// the native launch section, and which launch sections lie between the native
// and the fully installed one.
module Plan {
  import opened Wrappers
  import opened Vdf
  import opened Launch

  type Section = map<string, Tree>

  // Per entry: the native and the installed executable, and the native and the
  // installed config.
  datatype Plan = Plan(redirects: map<string, (string, string)>, disabled: map<string, (Option<Tree>, Tree)>)

  // --- From a recorded state ------------------------------------------------

  predicate RedirectsTyped(entries: seq<Redirect>) {
    forall i :: 0 <= i < |entries| ==> entries[i].original.Text? && entries[i].installed.Text?
  }

  predicate DisabledTyped(disabled: seq<Disabled>) {
    forall i :: 0 <= i < |disabled| ==>
      var d := disabled[i];
      && d.installed.Sub?
      && (d.hadConfig <==> d.original.Some?)
      && (d.original.Some? ==> d.original.value.Sub?)
  }

  // The types and the distinct entries every state written by a driver has.
  predicate Recordable(st: State) {
    && st.entries != []
    && RedirectsTyped(st.entries)
    && DisabledTyped(st.disabled)
    && (forall i, j :: 0 <= i < j < |st.entries| ==> st.entries[i].entry != st.entries[j].entry)
    && (forall i, j :: 0 <= i < j < |st.disabled| ==> st.disabled[i].entry != st.disabled[j].entry)
  }

  function RedirectMap(entries: seq<Redirect>): map<string, (string, string)>
    requires RedirectsTyped(entries)
  {
    if entries == [] then map[]
    else RedirectMap(entries[1..])[entries[0].entry := (entries[0].original.text, entries[0].installed.text)]
  }

  function DisabledMap(disabled: seq<Disabled>): map<string, (Option<Tree>, Tree)>
    requires DisabledTyped(disabled)
  {
    if disabled == [] then map[]
    else
      var d := disabled[0];
      DisabledMap(disabled[1..])[d.entry := (AbsOption(d.original), AbsValue(d.installed))]
  }

  function PlanOf(st: State): Plan
    requires Recordable(st)
  {
    Plan(RedirectMap(st.entries), DisabledMap(st.disabled))
  }

  // --- Between native and installed -----------------------------------------

  function SetField(item: Tree, field: string, value: Tree): Tree {
    if item.Branch? then Branch(item.children[field := value]) else item
  }

  function OverlayItem(item: Tree, key: string, plan: Plan, redirected: set<string>, hidden: set<string>): Tree {
    var a := if key in redirected && key in plan.redirects
             then SetField(item, "executable", Leaf(plan.redirects[key].1)) else item;
    if key in hidden && key in plan.disabled then SetField(a, "config", plan.disabled[key].1) else a
  }

  // The native section with the entries of `redirected` redirected and the
  // entries of `hidden` disabled.
  function Overlay(native: Section, plan: Plan, redirected: set<string>, hidden: set<string>): Section {
    map key | key in native :: OverlayItem(native[key], key, plan, redirected, hidden)
  }

  // The plan records the native values of its entries.
  ghost predicate Records(plan: Plan, native: Section) {
    && (forall key :: key in plan.redirects ==>
          && key in native && native[key].Branch?
          && "executable" in native[key].children
          && native[key].children["executable"] == Leaf(plan.redirects[key].0))
    && (forall key :: key in plan.disabled ==>
          && key in native && native[key].Branch?
          && plan.disabled[key].1.Branch?
          && ("config" in native[key].children <==> plan.disabled[key].0.Some?)
          && (plan.disabled[key].0.Some? ==>
                plan.disabled[key].0.value.Branch? && native[key].children["config"] == plan.disabled[key].0.value))
  }

  lemma {:induction false} OverlayNone(native: Section, plan: Plan)
    ensures Overlay(native, plan, {}, {}) == native
  {
  }

  // --- Abs, key by key ------------------------------------------------------

  lemma {:induction false} RedirectMapAt(entries: seq<Redirect>, i: nat)
    requires RedirectsTyped(entries) && i < |entries|
    requires forall i, j :: 0 <= i < j < |entries| ==> entries[i].entry != entries[j].entry
    ensures entries[i].entry in RedirectMap(entries)
    ensures RedirectMap(entries)[entries[i].entry] == (entries[i].original.text, entries[i].installed.text)
  {
    if i > 0 {
      RedirectMapAt(entries[1..], i - 1);
    }
  }

  lemma {:induction false} RedirectMapHas(entries: seq<Redirect>, key: string)
    requires RedirectsTyped(entries)
    ensures key in RedirectMap(entries) <==> exists i :: 0 <= i < |entries| && entries[i].entry == key
  {
    if entries != [] {
      RedirectMapHas(entries[1..], key);
      if key in RedirectMap(entries[1..]) {
        var i :| 0 <= i < |entries[1..]| && entries[1..][i].entry == key;
        assert entries[i + 1].entry == key;
      }
      if i :| 0 < i < |entries| && entries[i].entry == key {
        assert entries[1..][i - 1].entry == key;
      }
    }
  }

  lemma {:induction false} DisabledMapAt(disabled: seq<Disabled>, i: nat)
    requires DisabledTyped(disabled) && i < |disabled|
    requires forall i, j :: 0 <= i < j < |disabled| ==> disabled[i].entry != disabled[j].entry
    ensures disabled[i].entry in DisabledMap(disabled)
    ensures DisabledMap(disabled)[disabled[i].entry]
              == (AbsOption(disabled[i].original), AbsValue(disabled[i].installed))
  {
    if i > 0 {
      DisabledMapAt(disabled[1..], i - 1);
    }
  }

  lemma {:induction false} DisabledMapHas(disabled: seq<Disabled>, key: string)
    requires DisabledTyped(disabled)
    ensures key in DisabledMap(disabled) <==> exists i :: 0 <= i < |disabled| && disabled[i].entry == key
  {
    if disabled != [] {
      DisabledMapHas(disabled[1..], key);
      if key in DisabledMap(disabled[1..]) {
        var i :| 0 <= i < |disabled[1..]| && disabled[1..][i].entry == key;
        assert disabled[i + 1].entry == key;
      }
      if i :| 0 < i < |disabled| && disabled[i].entry == key {
        assert disabled[1..][i - 1].entry == key;
      }
    }
  }

  // --- Installing -----------------------------------------------------------

  lemma {:induction false} SetFieldPut(item: Dict, field: string, value: Value)
    ensures AbsValue(Sub(Put(item, field, value))) == SetField(AbsValue(Sub(item)), field, AbsValue(value))
  {
    AbsPut(item, field, value);
  }

  predicate DistinctDisabled(disabled: seq<Disabled>) {
    forall i, j :: 0 <= i < j < |disabled| ==> disabled[i].entry != disabled[j].entry
  }

  // The config of a disabled entry: the native one with the private marker.
  function MarkedConfig(item: Dict): Tree {
    Branch((match Get(item, "config") case Some(Sub(config)) => Abs(config) case _ => map[])
      ["oslist" := Leaf(DISABLED_OSLIST)])
  }

  lemma {:induction false} InstalledMarked(item: Dict)
    ensures AbsValue(Sub(InstalledConfig(item))) == MarkedConfig(item)
  {
    match Get(item, "config")
    case Some(Sub(config)) => AbsPut(config, "oslist", Text(DISABLED_OSLIST));
    case _ => AbsPut(Empty, "oslist", Text(DISABLED_OSLIST));
  }

  // One turn of the disabling loop.
  lemma {:induction false} DisableStep(
    h: Host, commonOs: Option<Value>, supported: set<string>, key: string, item: Value, rest: Dict,
    launch': Dict, disabled: seq<Disabled>) returns (rest': Dict, more: seq<Disabled>)
    requires Disable(h, commonOs, supported, Entry(key, item, rest)) == Ok((launch', disabled))
    ensures Disable(h, commonOs, supported, rest) == Ok((rest', more))
    ensures if key !in supported && IsWindowsEntry(h, commonOs, key, item)
            then
              && item.Sub?
              && (Has(item.dict, "config") ==> Get(item.dict, "config").value.Sub?)
              && (var installed := Sub(InstalledConfig(item.dict));
                  && launch' == Entry(key, Sub(Put(item.dict, "config", installed)), rest')
                  && disabled == [Disabled(key, Has(item.dict, "config"), Get(item.dict, "config"), installed)] + more)
            else launch' == Entry(key, item, rest') && disabled == more
  {
    var r := Disable(h, commonOs, supported, rest).value;
    rest', more := r.0, r.1;
  }

  // One more disabled entry, on trees.
  lemma {:induction false} HideCons(
    native: Section, disabled: map<string, (Option<Tree>, Tree)>, key: string, item: Tree, record: (Option<Tree>, Tree))
    requires Records(Plan(map[], disabled), native) && key !in native
    requires item.Branch? && record.1.Branch?
    requires "config" in item.children <==> record.0.Some?
    requires record.0.Some? ==> record.0.value.Branch? && item.children["config"] == record.0.value
    ensures Records(Plan(map[], disabled[key := record]), native[key := item])
    ensures Overlay(native[key := item], Plan(map[], disabled[key := record]), {}, disabled[key := record].Keys)
         == Overlay(native, Plan(map[], disabled), {}, disabled.Keys)[key := SetField(item, "config", record.1)]
  {
  }

  lemma {:induction false} KeepCons(
    native: Section, disabled: map<string, (Option<Tree>, Tree)>, key: string, item: Tree)
    requires Records(Plan(map[], disabled), native) && key !in native
    ensures Records(Plan(map[], disabled), native[key := item])
    ensures Overlay(native[key := item], Plan(map[], disabled), {}, disabled.Keys)
         == Overlay(native, Plan(map[], disabled), {}, disabled.Keys)[key := item]
  {
  }

  // Disabling hides exactly the unsupported Windows entries and records their
  // configs.
  lemma {:induction false} DisableOverlay(
    h: Host, commonOs: Option<Value>, supported: set<string>, launch: Dict, launch': Dict, disabled: seq<Disabled>)
    requires Proper(launch) && Disable(h, commonOs, supported, launch) == Ok((launch', disabled))
    ensures DisabledTyped(disabled) && DistinctDisabled(disabled)
    ensures forall key :: key in DisabledMap(disabled) <==>
              Has(launch, key) && key !in supported && IsWindowsEntry(h, commonOs, key, Get(launch, key).value)
    ensures forall key :: key in DisabledMap(disabled) ==>
              Has(launch, key) && Get(launch, key).value.Sub?
                  && DisabledMap(disabled)[key].1 == MarkedConfig(Get(launch, key).value.dict)
    ensures var plan := Plan(map[], DisabledMap(disabled));
            && Records(plan, Abs(launch))
            && Abs(launch') == Overlay(Abs(launch), plan, {}, plan.disabled.Keys)
    decreases launch
  {
    hide IsWindowsEntry, Records, Overlay, Disable;
    match launch
    case Empty =>
      DisableEmpty(h, commonOs, supported, launch', disabled);
      assert DisabledMap(disabled).Keys == {};
      NothingHidden();
    case Entry(key, item, rest) =>
      var rest', more := DisableStep(h, commonOs, supported, key, item, rest, launch', disabled);
      DisableOverlay(h, commonOs, supported, rest, rest', more);
      AbsGet(rest, key);
      if key !in supported && IsWindowsEntry(h, commonOs, key, item) {
        var installed := Sub(InstalledConfig(item.dict));
        InstalledMarked(item.dict);
        SetFieldPut(item.dict, "config", installed);
        AbsGet(item.dict, "config");
        assert disabled[1..] == more;
        forall i | 0 <= i < |more| ensures more[i].entry != key { DisabledMapHas(more, more[i].entry); }
        HideCons(Abs(rest), DisabledMap(more), key, AbsValue(item),
            (AbsOption(Get(item.dict, "config")), AbsValue(installed)));
      } else {
        KeepCons(Abs(rest), DisabledMap(more), key, AbsValue(item));
      }
  }

  lemma {:induction false} DisableEmpty(
    h: Host, commonOs: Option<Value>, supported: set<string>, launch': Dict, disabled: seq<Disabled>)
    requires Disable(h, commonOs, supported, Empty) == Ok((launch', disabled))
    ensures launch' == Empty && disabled == []
  {
  }

  lemma {:induction false} NothingHidden()
    ensures Records(Plan(map[], map[]), map[]) && Overlay(map[], Plan(map[], map[]), {}, {}) == map[]
  {
  }

  // One redirected entry, on trees.
  lemma {:induction false} RedirectOne(native: Section, entry: string, current: string, executable: string)
    requires entry in native && native[entry].Branch? && "executable" in native[entry].children
    requires native[entry].children["executable"] == Leaf(current)
    ensures var plan := Plan(map[entry := (current, executable)], map[]);
            && Records(plan, native)
            && native[entry := SetField(native[entry], "executable", Leaf(executable))]
                == Overlay(native, plan, {entry}, {})
  {
  }

  // One redirection.
  lemma {:induction false} ReplaceOneOverlay(
    launch: Dict, entry: string, executable: string, guard: Guard, launch': Dict, current: string)
    requires ReplaceOne(launch, entry, executable, guard) == Ok((launch', current))
    ensures var plan := Plan(map[entry := (current, executable)], map[]);
            && Records(plan, Abs(launch))
            && Abs(launch') == Overlay(Abs(launch), plan, {entry}, {})
  {
    hide Records, Overlay;
    var item := Get(launch, entry).value.dict;
    AbsGet(launch, entry);
    AbsGet(item, "executable");
    SetFieldPut(item, "executable", Text(executable));
    AbsPut(launch, entry, Sub(Put(item, "executable", Text(executable))));
    RedirectOne(Abs(launch), entry, current, executable);
  }

  // A redirection followed by others, on trees.
  lemma {:induction false} RedirectCons(
    native: Section, mid: Section, final: Section, entry: string, record: (string, string), redirects: map<string,
    (string, string)>)
    requires Records(Plan(map[entry := record], map[]), native)
    requires mid == Overlay(native, Plan(map[entry := record], map[]), {entry}, {})
    requires Records(Plan(redirects, map[]), mid) && entry !in redirects
    requires final == Overlay(mid, Plan(redirects, map[]), redirects.Keys, {})
    ensures Records(Plan(redirects[entry := record], map[]), native)
    ensures final == Overlay(native, Plan(redirects[entry := record], map[]), redirects[entry := record].Keys, {})
  {
  }

  // Replacing redirects exactly the listed entries and records their executables.
  lemma {:induction false} ReplaceOverlay(
    launch: Dict, replacements: seq<(string, string)>, expects: Option<map<string, Option<Value>>>,
    launch': Dict, changed: seq<Redirect>)
    requires Replace(launch, replacements, expects) == Ok((launch', changed))
    requires forall i, j :: 0 <= i < j < |replacements| ==> replacements[i].0 != replacements[j].0
    ensures RedirectsTyped(changed) && |changed| == |replacements|
    ensures forall i :: 0 <= i < |changed| ==>
              changed[i].entry == replacements[i].0 && changed[i].installed == Text(replacements[i].1)
    ensures var plan := Plan(RedirectMap(changed), map[]);
            && Records(plan, Abs(launch))
            && Abs(launch') == Overlay(Abs(launch), plan, plan.redirects.Keys, {})
    decreases replacements
  {
    hide Records, Overlay, ReplaceOne;
    if replacements == [] {
      assert RedirectMap(changed).Keys == {};
      NothingRedirected(Abs(launch));
    } else {
      var (entry, executable) := replacements[0];
      var guard := GuardOf(expects, entry);
      var (launch1, current) := ReplaceOne(launch, entry, executable, guard).value;
      var rest := Replace(launch1, replacements[1..], expects).value.1;
      ReplaceOneOverlay(launch, entry, executable, guard, launch1, current);
      ReplaceOverlay(launch1, replacements[1..], expects, launch', rest);
      RedirectMapHas(rest, entry);
      assert changed[1..] == rest;
      RedirectCons(Abs(launch), Abs(launch1), Abs(launch'), entry, (current, executable), RedirectMap(rest));
    }
  }

  lemma {:induction false} NothingRedirected(native: Section)
    ensures Records(Plan(map[], map[]), native) && Overlay(native, Plan(map[], map[]), {}, {}) == native
  {
  }

  // Disabling and then redirecting is one overlay.
  lemma {:induction false} CombineOverlays(
    native: Section, mid: Section, final: Section, redirects: map<string, (string, string)>,
    disabled: map<string, (Option<Tree>, Tree)>)
    requires Records(Plan(map[], disabled), native)
    requires mid == Overlay(native, Plan(map[], disabled), {}, disabled.Keys)
    requires Records(Plan(redirects, map[]), mid)
    requires final == Overlay(mid, Plan(redirects, map[]), redirects.Keys, {})
    ensures var plan := Plan(redirects, disabled);
            && Records(plan, native)
            && final == Overlay(native, plan, redirects.Keys, disabled.Keys)
  {
    hide OverlayItem;
    forall key | key in native
      ensures final[key] == OverlayItem(native[key], key, Plan(redirects, disabled), redirects.Keys, disabled.Keys)
    {
      CombineItem(native[key], key, redirects, disabled);
    }
    CombineRecords(native, mid, redirects, disabled);
  }

  lemma {:induction false} CombineItem(
    item: Tree, key: string, redirects: map<string, (string, string)>, disabled: map<string, (Option<Tree>, Tree)>)
    ensures OverlayItem(
              OverlayItem(item, key, Plan(map[], disabled), {}, disabled.Keys), key, Plan(redirects, map[]),
              redirects.Keys, {})
         == OverlayItem(item, key, Plan(redirects, disabled), redirects.Keys, disabled.Keys)
  {
    if item.Branch? && key in disabled && key in redirects {
      var (e, c) := (Leaf(redirects[key].1), disabled[key].1);
      assert item.children["config" := c]["executable" := e] == item.children["executable" := e]["config" := c];
    }
  }

  lemma {:induction false} CombineRecords(
    native: Section, mid: Section, redirects: map<string, (string, string)>,
    disabled: map<string, (Option<Tree>, Tree)>)
    requires Records(Plan(map[], disabled), native)
    requires mid == Overlay(native, Plan(map[], disabled), {}, disabled.Keys)
    requires Records(Plan(redirects, map[]), mid)
    ensures Records(Plan(redirects, disabled), native)
  {
  }

  // --- Restoring ------------------------------------------------------------

  lemma {:induction false} UnredirectOne(
    native: Section, plan: Plan, redirected: set<string>, hidden: set<string>, key: string)
    requires Records(plan, native) && key in plan.redirects
    ensures var t := Overlay(native, plan, redirected, hidden);
            && key in t && t[key].Branch?
            && t[key := SetField(t[key], "executable", Leaf(plan.redirects[key].0))]
               == Overlay(native, plan, redirected - {key}, hidden)
  {
    var t := Overlay(native, plan, redirected, hidden);
    var n := native[key].children;
    var restored := SetField(t[key], "executable", Leaf(plan.redirects[key].0));
    assert restored == OverlayItem(native[key], key, plan, redirected - {key}, hidden) by {
      assert n["executable" := Leaf(plan.redirects[key].0)] == n;
      if key in hidden && key in plan.disabled {
        var c := plan.disabled[key].1;
        assert restored.children == n["config" := c];
      } else {
        assert restored.children == n;
      }
    }
  }

  function PutBack(item: Tree, config: Option<Tree>): Tree {
    if !item.Branch? then item
    else if config.Some? then Branch(item.children["config" := config.value])
    else Branch(item.children - {"config"})
  }

  lemma {:induction false} UnhideOne(
    native: Section, plan: Plan, redirected: set<string>, hidden: set<string>, key: string)
    requires Records(plan, native) && key in plan.disabled
    ensures var t := Overlay(native, plan, redirected, hidden);
            && key in t && t[key].Branch?
            && (key in hidden ==> "config" in t[key].children)
            && t[key := PutBack(t[key], plan.disabled[key].0)] == Overlay(native, plan, redirected, hidden - {key})
  {
    var t := Overlay(native, plan, redirected, hidden);
    var item := native[key];
    var a := if key in redirected && key in plan.redirects
             then SetField(item, "executable", Leaf(plan.redirects[key].1)) else item;
    var c := plan.disabled[key].0;
    assert PutBack(t[key], c) == a by {
      if c.Some? {
        assert a.children["config"] == c.value;
        assert PutBack(t[key], c).children == a.children;
      } else {
        assert "config" !in a.children;
        assert PutBack(t[key], c).children == a.children;
      }
    }
  }

  // Nothing recorded differs from the native section any more.
  lemma {:induction false} OverlaySettled(native: Section, plan: Plan, redirected: set<string>, hidden: set<string>)
    requires Records(plan, native)
    requires forall k :: k in redirected && k in plan.redirects ==> plan.redirects[k].1 == plan.redirects[k].0
    requires forall k :: k in hidden && k in plan.disabled ==> plan.disabled[k].0 == Some(plan.disabled[k].1)
    ensures Overlay(native, plan, redirected, hidden) == native
  {
    forall key | key in native
      ensures OverlayItem(native[key], key, plan, redirected, hidden) == native[key]
    {
      if native[key].Branch? {
        var n := native[key].children;
        if key in redirected && key in plan.redirects {
          assert n["executable" := Leaf(plan.redirects[key].1)] == n;
        }
        if key in hidden && key in plan.disabled {
          assert n["config" := plan.disabled[key].1] == n;
        }
      }
    }
  }

  lemma {:induction false} OverlayExecutable(
    native: Section, plan: Plan, redirected: set<string>, hidden: set<string>, key: string)
    requires Records(plan, native) && key in plan.redirects
    ensures var t := Overlay(native, plan, redirected, hidden);
            && key in t && t[key].Branch? && "executable" in t[key].children
            && t[key].children["executable"]
               == Leaf(if key in redirected then plan.redirects[key].1 else plan.redirects[key].0)
  {
  }

  lemma {:induction false} OverlayConfig(
    native: Section, plan: Plan, redirected: set<string>, hidden: set<string>, key: string)
    requires Records(plan, native) && key in plan.disabled
    ensures var t := Overlay(native, plan, redirected, hidden);
            && key in t && t[key].Branch?
            && (if key in hidden
                then "config" in t[key].children && t[key].children["config"] == plan.disabled[key].1
                else ("config" in t[key].children <==> plan.disabled[key].0.Some?)
                     && ("config" in t[key].children ==> Some(t[key].children["config"]) == plan.disabled[key].0))
  {
  }

  // The launch dictionary holds an overlay.
  ghost predicate Holds(launch: Dict, native: Section, plan: Plan, redirected: set<string>, hidden: set<string>) {
    Records(plan, native) && Abs(launch) == Overlay(native, plan, redirected, hidden)
  }

  lemma {:induction false} CheckRedirectHolds(
    launch: Dict, native: Section, plan: Plan, redirected: set<string>, hidden: set<string>, item: Redirect)
    requires Holds(launch, native, plan, redirected, hidden)
    requires item.original.Text? && item.installed.Text?
    requires item.entry in plan.redirects && plan.redirects[item.entry] == (item.original.text, item.installed.text)
    ensures var r := CheckRedirect(launch, item);
            && r.Ok?
            && ((r.value == [(item.entry, item.original.text)] && item.entry in redirected)
                || (r.value == [] && (item.entry in redirected ==> item.installed == item.original)))
  {
    hide Overlay, Records;
    OverlayExecutable(native, plan, redirected, hidden, item.entry);
    AbsGet(launch, item.entry);
    var fields := Get(launch, item.entry).value.dict;
    AbsGet(fields, "executable");
  }

  lemma {:induction false} CheckDisabledHolds(
    launch: Dict, native: Section, plan: Plan, redirected: set<string>, hidden: set<string>, item: Disabled)
    requires Holds(launch, native, plan, redirected, hidden)
    requires item.installed.Sub? && (item.hadConfig <==> item.original.Some?)
    requires item.original.Some? ==> item.original.value.Sub?
    requires item.entry in plan.disabled
               && plan.disabled[item.entry] == (AbsOption(item.original), AbsValue(item.installed))
    ensures var r := CheckDisabled(launch, item);
            && r.Ok?
            && ((r.value == [(item.entry, item.original)] && item.entry in hidden)
                || (r.value == []
                    && (item.entry in hidden ==> AbsOption(item.original) == Some(AbsValue(item.installed)))))
  {
    hide Overlay, Records;
    OverlayConfig(native, plan, redirected, hidden, item.entry);
    AbsGet(launch, item.entry);
    var fields := Get(launch, item.entry).value.dict;
    AbsGet(fields, "config");
  }

  function Firsts<T(==)>(changes: seq<(string, T)>): set<string> {
    set c | c in changes :: c.0
  }

  // Validation of the redirected entries succeeds and lists what to undo.
  lemma {:induction false} CheckRedirectsHold(
    launch: Dict, native: Section, plan: Plan, redirected: set<string>, hidden: set<string>, entries: seq<Redirect>)
    requires Holds(launch, native, plan, redirected, hidden) && RedirectsTyped(entries)
    requires forall i :: 0 <= i < |entries| ==>
               entries[i].entry in plan.redirects
               && plan.redirects[entries[i].entry] == (entries[i].original.text, entries[i].installed.text)
    ensures var r := CheckRedirects(launch, entries);
            && r.Ok?
            && (forall c :: c in r.value ==> c.0 in redirected && c.0 in plan.redirects && c.1 == plan.redirects[c.0].0)
            && (forall i :: 0 <= i < |entries| ==>
                  entries[i].entry in Firsts(r.value)
                  || (entries[i].entry in redirected ==> entries[i].installed == entries[i].original))
    decreases entries
  {
    hide Holds, CheckRedirect;
    if entries != [] {
      CheckRedirectHolds(launch, native, plan, redirected, hidden, entries[0]);
      CheckRedirectsHold(launch, native, plan, redirected, hidden, entries[1..]);
      var first, rest := CheckRedirect(launch, entries[0]).value, CheckRedirects(launch, entries[1..]).value;
      if first != [] { assert first[0] in first + rest; }
      forall i | 0 <= i < |entries|
        ensures entries[i].entry in Firsts(first + rest)
                || (entries[i].entry in redirected ==> entries[i].installed == entries[i].original)
      {
        if i > 0 { assert entries[i] == entries[1..][i - 1]; }
      }
    }
  }

  // The changes undo recorded entries that are hidden, each once.
  ghost predicate Undoes(
    plan: Plan, hidden: set<string>, disabled: seq<Disabled>, changes: seq<(string, Option<Value>)>)
  {
    && (forall i, j :: 0 <= i < j < |changes| ==> changes[i].0 != changes[j].0)
    && (forall c :: c in changes ==>
          c.0 in plan.disabled && c.0 in hidden && AbsOption(c.1) == plan.disabled[c.0].0
          && exists i :: 0 <= i < |disabled| && disabled[i].entry == c.0)
  }

  // They leave out only what is as it was.
  ghost predicate Covers(hidden: set<string>, disabled: seq<Disabled>, changes: seq<(string, Option<Value>)>) {
    forall i :: 0 <= i < |disabled| ==>
      disabled[i].entry in Firsts(changes)
      || (disabled[i].entry in hidden ==> AbsOption(disabled[i].original) == Some(AbsValue(disabled[i].installed)))
  }

  lemma {:induction false} CheckAllDisabledHold(
    launch: Dict, native: Section, plan: Plan, redirected: set<string>, hidden: set<string>, disabled: seq<Disabled>)
    requires Holds(launch, native, plan, redirected, hidden) && DisabledTyped(disabled) && DistinctDisabled(disabled)
    requires forall i :: 0 <= i < |disabled| ==>
               disabled[i].entry in plan.disabled
               && plan.disabled[disabled[i].entry] == (AbsOption(disabled[i].original), AbsValue(disabled[i].installed))
    ensures CheckAllDisabled(launch, disabled).Ok?
    ensures var changes := CheckAllDisabled(launch, disabled).value;
            Undoes(plan, hidden, disabled, changes) && Covers(hidden, disabled, changes)
    decreases disabled
  {
    hide Holds, CheckDisabled, Undoes, Covers;
    if disabled == [] {
      UndoesNothing(plan, hidden);
    } else {
      CheckDisabledHolds(launch, native, plan, redirected, hidden, disabled[0]);
      CheckAllDisabledHold(launch, native, plan, redirected, hidden, disabled[1..]);
      var first, rest := CheckDisabled(launch, disabled[0]).value, CheckAllDisabled(launch, disabled[1..]).value;
      if first == [] {
        assert first + rest == rest;
        UndoesLess(plan, hidden, disabled, rest);
      } else {
        UndoesMore(plan, hidden, disabled, rest);
      }
    }
  }

  lemma {:induction false} UndoesNothing(plan: Plan, hidden: set<string>)
    ensures Undoes(plan, hidden, [], []) && Covers(hidden, [], [])
  {
  }

  // The first entry is as it was.
  lemma {:induction false} UndoesLess(
    plan: Plan, hidden: set<string>, disabled: seq<Disabled>, rest: seq<(string, Option<Value>)>)
    requires disabled != [] && Undoes(plan, hidden, disabled[1..], rest) && Covers(hidden, disabled[1..], rest)
    requires disabled[0].entry in hidden ==> AbsOption(disabled[0].original) == Some(AbsValue(disabled[0].installed))
    ensures Undoes(plan, hidden, disabled, rest) && Covers(hidden, disabled, rest)
  {
    var tail := disabled[1..];
    forall c | c in rest ensures exists i :: 0 <= i < |disabled| && disabled[i].entry == c.0 {
      ListedMore(disabled, c.0);
    }
    forall i | 1 <= i < |disabled| ensures disabled[i] == tail[i - 1] { }
  }

  lemma {:induction false} ListedMore(disabled: seq<Disabled>, entry: string)
    requires disabled != [] && exists i :: 0 <= i < |disabled[1..]| && disabled[1..][i].entry == entry
    ensures exists i :: 1 <= i < |disabled| && disabled[i].entry == entry
  {
    var i :| 0 <= i < |disabled[1..]| && disabled[1..][i].entry == entry;
    assert disabled[i + 1].entry == entry;
  }

  // The first entry is undone.
  lemma {:induction false} UndoesMore(
    plan: Plan, hidden: set<string>, disabled: seq<Disabled>, rest: seq<(string, Option<Value>)>)
    requires disabled != [] && DistinctDisabled(disabled)
    requires Undoes(plan, hidden, disabled[1..], rest) && Covers(hidden, disabled[1..], rest)
    requires disabled[0].entry in plan.disabled && disabled[0].entry in hidden
    requires plan.disabled[disabled[0].entry].0 == AbsOption(disabled[0].original)
    ensures var changes := [(disabled[0].entry, disabled[0].original)] + rest;
            Undoes(plan, hidden, disabled, changes) && Covers(hidden, disabled, changes)
  {
    hide Firsts, Covers;
    var one := (disabled[0].entry, disabled[0].original);
    forall c | c in rest
      ensures c.0 != one.0 && exists i :: 0 <= i < |disabled| && disabled[i].entry == c.0
    {
      ListedMore(disabled, c.0);
    }
    DistinctMore(one, rest);
    CoversMore(hidden, disabled, rest);
  }

  lemma {:induction false} DistinctMore<T>(one: (string, T), rest: seq<(string, T)>)
    requires forall i, j :: 0 <= i < j < |rest| ==> rest[i].0 != rest[j].0
    requires forall c :: c in rest ==> c.0 != one.0
    ensures var changes := [one] + rest;
            forall i, j :: 0 <= i < j < |changes| ==> changes[i].0 != changes[j].0
  {
  }

  lemma {:induction false} CoversMore(
    hidden: set<string>, disabled: seq<Disabled>, rest: seq<(string, Option<Value>)>)
    requires disabled != [] && Covers(hidden, disabled[1..], rest)
    ensures Covers(hidden, disabled, [(disabled[0].entry, disabled[0].original)] + rest)
  {
    hide Firsts;
    var one, tail := (disabled[0].entry, disabled[0].original), disabled[1..];
    FirstsMore(one, rest);
    forall i | 1 <= i < |disabled| ensures disabled[i] == tail[i - 1] { }
  }

  lemma {:induction false} FirstsMore<T>(one: (string, T), rest: seq<(string, T)>)
    ensures Firsts([one] + rest) == {one.0} + Firsts(rest)
  {
    assert ([one] + rest)[0] == one;
  }

  lemma {:induction false} FieldsTree(launch: Dict, key: string)
    requires key in Abs(launch) && Abs(launch)[key].Branch?
    ensures Get(launch, key) == Some(Sub(Fields(launch, key))) && Abs(launch)[key] == Branch(Abs(Fields(launch, key)))
  {
    AbsGet(launch, key);
  }

  lemma {:induction false} ApplyExecutablesHolds(
    launch: Dict, native: Section, plan: Plan, redirected: set<string>, hidden: set<string>,
    changes: seq<(string, string)>)
    requires Holds(launch, native, plan, redirected, hidden)
    requires forall c :: c in changes ==> c.0 in plan.redirects && c.1 == plan.redirects[c.0].0
    ensures Holds(ApplyExecutables(launch, changes), native, plan, redirected - Firsts(changes), hidden)
    decreases changes
  {
    hide Overlay, Records;
    if changes == [] {
      assert redirected - Firsts(changes) == redirected;
    } else {
      var (entry, executable) := changes[0];
      assert changes[0] in changes;
      UnredirectOne(native, plan, redirected, hidden, entry);
      FieldsTree(launch, entry);
      var item' := Put(Fields(launch, entry), "executable", Text(executable));
      SetFieldPut(Fields(launch, entry), "executable", Text(executable));
      AbsPut(launch, entry, Sub(item'));
      var launch1 := Put(launch, entry, Sub(item'));
      ApplyExecutablesHolds(launch1, native, plan, redirected - {entry}, hidden, changes[1..]);
      assert changes == [changes[0]] + changes[1..];
      assert redirected - {entry} - Firsts(changes[1..]) == redirected - Firsts(changes);
    }
  }

  lemma {:induction false} ApplyConfigsHolds(
    launch: Dict, native: Section, plan: Plan, redirected: set<string>, hidden: set<string>,
    changes: seq<(string, Option<Value>)>)
    requires Holds(launch, native, plan, redirected, hidden) && Proper(launch)
    requires forall i, j :: 0 <= i < j < |changes| ==> changes[i].0 != changes[j].0
    requires forall c: (string, Option<Value>) :: c in changes ==>
               c.0 in plan.disabled && c.0 in hidden && AbsOption(c.1) == plan.disabled[c.0].0
    requires forall i :: 0 <= i < |changes| && changes[i].1.Some? ==> ProperValue(changes[i].1.value)
    ensures var r := ApplyConfigs(launch, changes);
            r.Ok? && Holds(r.value, native, plan, redirected, hidden - Firsts(changes))
    decreases changes
  {
    hide Overlay, Records;
    if changes == [] {
      assert hidden - Firsts(changes) == hidden;
    } else {
      var (entry, config) := changes[0];
      assert changes[0] in changes;
      UnhideOne(native, plan, redirected, hidden, entry);
      FieldsTree(launch, entry);
      var item := Fields(launch, entry);
      AbsGet(item, "config");
      ProperGet(launch, entry);
      var item' := if config.Some? then Put(item, "config", config.value) else Del(item, "config");
      if config.Some? {
        AbsPut(item, "config", config.value);
        ProperPut(item, "config", config.value);
      } else {
        AbsDel(item, "config");
        ProperDel(item, "config");
      }
      AbsPut(launch, entry, Sub(item'));
      ProperPut(launch, entry, Sub(item'));
      var launch1 := Put(launch, entry, Sub(item'));
      forall i | 0 <= i < |changes[1..]| ensures changes[1..][i].0 != entry {
        assert changes[1..][i] == changes[i + 1];
      }
      ApplyConfigsHolds(launch1, native, plan, redirected, hidden - {entry}, changes[1..]);
      assert changes == [changes[0]] + changes[1..];
      assert hidden - {entry} - Firsts(changes[1..]) == hidden - Firsts(changes);
    }
  }
}
