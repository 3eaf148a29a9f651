// What the patch commands select, when they succeed, and what they leave, in
// terms of the fields of the launch section.
module Patching {
  import opened Wrappers
  import opened Vdf
  import opened Launch
  import opened Plan
  import opened Offers
  import PythonText

  // --- One redirection ------------------------------------------------------

  // The entry starts this executable.
  ghost predicate Starts(t: Section, key: string, executable: string) {
    && key in t && t[key].Branch? && "executable" in t[key].children
    && t[key].children["executable"] == Leaf(executable)
  }

  ghost predicate StartsSomething(t: Section, key: string) {
    exists executable :: Starts(t, key, executable)
  }

  // What the caller believes the entry to start.
  predicate Believes(guard: Guard, executable: string) {
    guard == Anything || guard == Exactly(Some(Text(executable)))
  }

  ghost predicate StartsBelieved(t: Section, key: string, guard: Guard) {
    exists executable :: Starts(t, key, executable) && Believes(guard, executable)
  }

  // A redirection succeeds if and only if the entry starts something, and that
  // is what the caller believes; it then starts the new executable and nothing
  // else has changed.
  lemma {:induction false} ReplaceOneExactly(launch: Dict, entry: string, executable: string, guard: Guard)
    ensures var r, t := ReplaceOne(launch, entry, executable, guard), Abs(launch);
            && (r.Ok? <==> StartsBelieved(t, entry, guard))
            && (r.Ok? ==>
                  && Starts(t, entry, r.value.1) && Believes(guard, r.value.1)
                  && Abs(r.value.0) == t[entry := Branch(t[entry].children["executable" := Leaf(executable)])])
  {
    var t := Abs(launch);
    AbsGet(launch, entry);
    if Has(launch, entry) && Get(launch, entry).value.Sub? {
      var item := Get(launch, entry).value.dict;
      AbsGet(item, "executable");
      AbsPut(item, "executable", Text(executable));
      AbsPut(launch, entry, Sub(Put(item, "executable", Text(executable))));
      if Has(item, "executable") && Get(item, "executable").value.Text? {
        assert Starts(t, entry, Get(item, "executable").value.text);
      }
    }
  }

  // Without expectations several succeed if each entry starts something.
  lemma {:induction false} ReplaceSucceeds(launch: Dict, replacements: seq<(string, string)>)
    requires forall i :: 0 <= i < |replacements| ==> StartsSomething(Abs(launch), replacements[i].0)
    ensures Replace(launch, replacements, None).Ok?
    decreases replacements
  {
    hide ReplaceOne, Starts;
    if replacements != [] {
      var (entry, executable) := replacements[0];
      assert StartsSomething(Abs(launch), replacements[0].0);
      ReplaceOneExactly(launch, entry, executable, Anything);
      var launch1 := ReplaceOne(launch, entry, executable, Anything).value.0;
      forall i | 0 <= i < |replacements[1..]| ensures StartsSomething(Abs(launch1), replacements[1..][i].0) {
        assert replacements[1..][i] == replacements[i + 1];
        StillStarts(Abs(launch), Abs(launch1), entry, executable, replacements[i + 1].0);
      }
      ReplaceSucceeds(launch1, replacements[1..]);
    }
  }

  lemma {:induction false} StillStarts(t: Section, t': Section, entry: string, executable: string, key: string)
    requires StartsSomething(t, entry) && StartsSomething(t, key)
    requires entry in t && t[entry].Branch?
             && t' == t[entry := Branch(t[entry].children["executable" := Leaf(executable)])]
    ensures StartsSomething(t', key)
  {
    if key == entry {
      assert Starts(t', key, executable);
    } else {
      var current :| Starts(t, key, current);
      assert Starts(t', key, current);
    }
  }

  // --- patch-all ------------------------------------------------------------

  // An offered entry that cannot be started has a config that cannot be hidden.
  ghost predicate BadConfigAt(h: Host, sections: Dict, launch: Dict, supported: set<string>, key: string) {
    && Has(launch, key) && key !in supported && WindowsEntry(h, sections, key, Get(launch, key).value)
    && Has(Get(launch, key).value.dict, "config") && !Get(Get(launch, key).value.dict, "config").value.Sub?
  }

  lemma {:induction false} DisableFailsExactly(h: Host, sections: Dict, launch: Dict, supported: set<string>)
    requires Proper(launch)
    ensures Disable(h, CommonOs(sections), supported, launch).Err? <==>
              exists key :: BadConfigAt(h, sections, launch, supported, key)
    decreases launch
  {
    hide IsWindowsEntry, WindowsEntry, CommonOs, InstalledConfig;
    if launch.Entry? {
      WindowsExactly(h, sections, launch.key, launch.value);
      if IsWindowsEntry(h, CommonOs(sections), launch.key, launch.value) {
        WindowsHasFields(h, sections, launch.key, launch.value);
      }
      DisableFailsExactly(h, sections, launch.rest, supported);
      if key :| BadConfigAt(h, sections, launch.rest, supported, key) {
        assert BadConfigAt(h, sections, launch, supported, key);
      }
      if key :| BadConfigAt(h, sections, launch, supported, key) {
        assert key == launch.key || BadConfigAt(h, sections, launch.rest, supported, key);
      }
      DisableHead(h, CommonOs(sections), supported, launch);
      if Disable(h, CommonOs(sections), supported, launch).Err?
         && Disable(h, CommonOs(sections), supported, launch.rest).Ok? {
        assert BadConfigAt(h, sections, launch, supported, launch.key);
      }
    }
  }

  lemma {:induction false} DisableHead(h: Host, commonOs: Option<Value>, supported: set<string>, launch: Dict)
    requires launch.Entry?
    ensures Disable(h, commonOs, supported, launch).Err? <==>
              || Disable(h, commonOs, supported, launch.rest).Err?
              || (launch.key !in supported && IsWindowsEntry(h, commonOs, launch.key, launch.value)
                  && ConfigOf(launch.value.dict).Some? && !ConfigOf(launch.value.dict).value.Sub?)
  {
    hide IsWindowsEntry, InstalledConfig;
  }

  // Hiding a config leaves what every entry starts.
  lemma {:induction false} DisabledStarts(
    h: Host, commonOs: Option<Value>, supported: set<string>, launch: Dict, launch': Dict, disabled: seq<Disabled>,
    key: string)
    requires Proper(launch) && Disable(h, commonOs, supported, launch) == Ok((launch', disabled))
    ensures forall executable :: Starts(Abs(launch'), key, executable) <==> Starts(Abs(launch), key, executable)
  {
    hide Disable, IsWindowsEntry, MarkedConfig;
    DisableOverlay(h, commonOs, supported, launch, launch', disabled);
  }

  // patch-all succeeds if and only if some offered entry can be started, and no
  // entry that would have to be hidden has a config that is no dictionary.
  lemma {:induction false} PatchAllSucceedsExactly(
    h: Host, appid: int, template: string -> string, sections: Dict)
    requires Proper(sections)
    ensures PatchAll(h, appid, template, sections).Ok? <==>
              && WindowsLaunches(h, sections).Ok?
              && var launch, supported := Find(sections, LAUNCH).value, Entries(WindowsLaunches(h, sections).value);
                 forall key :: !BadConfigAt(h, sections, launch, supported, key)
  {
    hide Select, Listed, BadConfigAt, CommonOs, CommonOk, Disable, Replace, Find, Graft;
    if WindowsLaunches(h, sections).Ok? {
      var launches := WindowsLaunches(h, sections).value;
      var launch := Find(sections, LAUNCH).value;
      LaunchesExactly(h, sections);
      ProperFind(sections, LAUNCH);
      DisableFailsExactly(h, sections, launch, Entries(launches));
      if Disable(h, CommonOs(sections), Entries(launches), launch).Ok? {
        var (launch1, disabled) := Disable(h, CommonOs(sections), Entries(launches), launch).value;
        FindGraft(sections, LAUNCH, launch1);
        Replaceable(h, sections, template, launch, launch1, launches, disabled);
      }
    }
  }

  lemma {:induction false} Replaceable(
    h: Host, sections: Dict, template: string -> string, launch: Dict, launch1: Dict, launches: seq<WindowsLaunch>,
    disabled: seq<Disabled>)
    requires Proper(launch) && launches != [] && forall l :: l in launches <==> Listed(h, sections, launch, l)
    requires Disable(h, CommonOs(sections), Entries(launches), launch) == Ok((launch1, disabled))
    ensures Replace(launch1, Replacements(launches, template), None).Ok?
    ensures Replace(launch1, Replacements(launches, template), None).value.1 != []
  {
    hide WindowsEntry, CommonOs, Disable, Starts, Replace;
    var replacements := Replacements(launches, template);
    forall i | 0 <= i < |replacements| ensures StartsSomething(Abs(launch1), replacements[i].0) {
      assert launches[i] in launches;
      ListedStarts(h, sections, launch, launches[i]);
      DisabledStarts(h, CommonOs(sections), Entries(launches), launch, launch1, disabled, launches[i].entry);
      assert Starts(Abs(launch1), launches[i].entry, launches[i].executable);
    }
    ReplaceSucceeds(launch1, replacements);
    ReplacesEach(launch1, replacements);
  }

  lemma {:induction false} ReplacesEach(launch: Dict, replacements: seq<(string, string)>)
    requires Replace(launch, replacements, None).Ok?
    ensures |Replace(launch, replacements, None).value.1| == |replacements|
    decreases replacements
  {
    if replacements != [] {
      var (entry, executable) := replacements[0];
      ReplacesEach(ReplaceOne(launch, entry, executable, Anything).value.0, replacements[1..]);
    }
  }

  lemma {:induction false} ListedStarts(h: Host, sections: Dict, launch: Dict, l: WindowsLaunch)
    requires Listed(h, sections, launch, l)
    ensures Starts(Abs(launch), l.entry, l.executable)
  {
    hide WindowsEntry;
    WindowsHasFields(h, sections, l.entry, Get(launch, l.entry).value);
    AbsGet(launch, l.entry);
    AbsGet(Get(launch, l.entry).value.dict, "executable");
  }

  // --- The selection of a single patch --------------------------------------

  // The file name of a Windows or Unix path: what follows its last slash of
  // either kind.
  lemma {:induction false} BaseNameExactly(path: string)
    ensures var base := BaseName(path);
            && |base| <= |path| && base == path[|path| - |base|..]
            && (forall c :: c in base ==> c !in {'/', '\\'})
            && (|base| < |path| ==> path[|path| - |base| - 1] in {'/', '\\'})
  {
    hide PythonText.Split;
    var s, base := Slashes(path), BaseName(path);
    AfterSlash(s);
    forall i | |s| - |base| <= i < |s| ensures s[i] == path[i] { assert s[i] == base[i - (|s| - |base|)]; }
    assert base == path[|path| - |base|..];
  }

  lemma {:induction false} AfterSlash(s: string)
    ensures var parts := PythonText.Split(s, '/');
            var base := parts[|parts| - 1];
            && |base| <= |s| && base == s[|s| - |base|..] && '/' !in base
            && (|base| < |s| ==> s[|s| - |base| - 1] == '/')
  {
    PythonText.JoinSplit(s, '/');
    LastPart(PythonText.Split(s, '/'));
  }

  lemma {:induction false} LastPart(parts: seq<string>)
    requires parts != []
    ensures var s, base := PythonText.Join(parts, '/'), parts[|parts| - 1];
            && |base| <= |s| && s[|s| - |base|..] == base
            && (|base| < |s| ==> s[|s| - |base| - 1] == '/')
    decreases parts
  {
    if |parts| > 1 {
      LastPart(parts[1..]);
      var rest, s := PythonText.Join(parts[1..], '/'), PythonText.Join(parts, '/');
      assert s == parts[0] + ['/'] + rest;
      assert s[|s| - |rest|..] == rest;
    }
  }

  // The entry starts something, of the wanted file name if one is wanted.
  ghost predicate Named(h: Host, name: Option<string>, item: Value) {
    && item.Sub?
    && exists executable ::
         && Get(item.dict, "executable") == Some(Text(executable))
         && (name.Some? ==> h.lower(BaseName(executable)) == h.lower(name.value))
  }

  // The first such entry in the order of the section, if there is one.
  lemma {:induction false} FirstMatchExactly(h: Host, name: Option<string>, launch: Dict)
    returns (before: Dict, after: Dict)
    requires Proper(launch)
    ensures match FirstMatch(h, name, launch)
            case None => forall key :: Has(launch, key) ==> !Named(h, name, Get(launch, key).value)
            case Some(key) =>
              && Has(launch, key) && Named(h, name, Get(launch, key).value)
              && launch == Append(before, Entry(key, Get(launch, key).value, after))
              && forall k :: Has(before, k) ==> !Named(h, name, Get(before, k).value)
    decreases launch
  {
    hide BaseName;
    before, after := Empty, Empty;
    match launch
    case Empty =>
    case Entry(key, item, rest) =>
      if Matches(h, name, item) {
        after := rest;
      } else {
        var b;
        b, after := FirstMatchExactly(h, name, rest);
        before := Entry(key, item, b);
      }
  }

  // Hiding configs selects the same entry.
  lemma {:induction false} SameMatch(
    h: Host, commonOs: Option<Value>, supported: set<string>, launch: Dict, launch': Dict, disabled: seq<Disabled>,
    name: Option<string>)
    requires Proper(launch) && Disable(h, commonOs, supported, launch) == Ok((launch', disabled))
    ensures FirstMatch(h, name, launch') == FirstMatch(h, name, launch)
    decreases launch
  {
    hide IsWindowsEntry, Disable, BaseName;
    match launch
    case Empty => DisableEmpty(h, commonOs, supported, launch', disabled);
    case Entry(key, item, rest) =>
      var rest', more := DisableStep(h, commonOs, supported, key, item, rest, launch', disabled);
      SameMatch(h, commonOs, supported, rest, rest', more, name);
      if item.Sub? {
        GetPut(item.dict, "config", Sub(InstalledConfig(item.dict)), "executable");
      }
  }

  // The entry a selector means.
  function Selected(h: Host, selector: Selector, launch: Dict): Option<string> {
    match selector
    case ByEntry(entry) => Some(entry)
    case ByMatch(name) => FirstMatch(h, name, launch)
  }

  // The entries a patch hides: with --disable-unsupported those offered ones that
  // cannot be started, and else none.
  ghost predicate Hides(h: Host, sections: Dict, launch: Dict, disable: bool, key: string)
    requires Has(launch, key)
  {
    && disable && WindowsEntry(h, sections, key, Get(launch, key).value)
    && !(exists l :: Listed(h, sections, launch, l) && l.entry == key)
  }

  lemma {:induction false} PatchOneParts(
    h: Host, appid: int, executable: string, selector: Selector, guard: Guard, disable: bool, sections: Dict,
    sections': Dict, st: State)
    returns (launch1: Dict, launch2: Dict, entry: string, current: string)
    requires Proper(sections)
    requires PatchOne(h, appid, executable, selector, guard, disable, sections) == Ok((sections', st))
    ensures Find(sections, LAUNCH).Some? && sections' == Graft(sections, LAUNCH, launch2)
    ensures var launch := Find(sections, LAUNCH).value;
            && (if disable
                then && WindowsLaunches(h, sections).Ok?
                     && Disable(h, CommonOs(sections), Entries(WindowsLaunches(h, sections).value), launch)
                        == Ok((launch1, st.disabled))
                else launch1 == launch && st.disabled == [])
            && Selected(h, selector, launch) == Some(entry)
    ensures ReplaceOne(launch1, entry, executable, guard) == Ok((launch2, current))
    ensures st.entries == [Redirect(entry, Text(current), Text(executable))]
  {
    hide Find, Graft, Disable, ReplaceOne, CommonOs, CommonOk, FirstMatch, Select;
    var launch := Find(sections, LAUNCH).value;
    launch1 := launch;
    if disable {
      var supported := Entries(WindowsLaunches(h, sections).value);
      launch1 := Disable(h, CommonOs(sections), supported, launch).value.0;
      ProperFind(sections, LAUNCH);
      if selector.ByMatch? {
        SameMatch(h, CommonOs(sections), supported, launch, launch1, st.disabled, selector.name);
      }
    }
    FindGraft(sections, LAUNCH, launch1);
    entry := st.entries[0].entry;
    launch2 := ReplaceOne(launch1, entry, executable, guard).value.0;
    current := ReplaceOne(launch1, entry, executable, guard).value.1;
    GraftGraft(sections, LAUNCH, launch1, launch2);
  }

  lemma {:induction false} HidesExactly(
    h: Host, sections: Dict, launch: Dict, launch1: Dict, disable: bool, disabled: seq<Disabled>, key: string)
    requires Proper(sections) && Find(sections, LAUNCH) == Some(launch) && Has(launch, key)
    requires if disable
             then && WindowsLaunches(h, sections).Ok?
                  && Disable(h, CommonOs(sections), Entries(WindowsLaunches(h, sections).value), launch)
                     == Ok((launch1, disabled))
             else launch1 == launch
    ensures key in Abs(launch) && key in Abs(launch1)
    ensures Effect(Abs(launch)[key], Abs(launch1)[key], Hides(h, sections, launch, disable, key), None)
  {
    hide Find, Disable, CommonOs, Listed, WindowsEntry, IsWindowsEntry, MarkedConfig, WindowsLaunches, HiddenConfig;
    AbsGet(launch, key);
    if disable {
      var launches := WindowsLaunches(h, sections).value;
      LaunchesExactly(h, sections);
      ListedEntries(h, sections, launch, launches);
      ProperFind(sections, LAUNCH);
      DisableOverlay(h, CommonOs(sections), Entries(launches), launch, launch1, disabled);
      WindowsExactly(h, sections, key, Get(launch, key).value);
      if Hides(h, sections, launch, disable, key) {
        WindowsHasFields(h, sections, key, Get(launch, key).value);
        MarkedIsHidden(Get(launch, key).value.dict);
      }
    }
  }

  lemma {:induction false} HiddenKeys(
    h: Host, sections: Dict, launch: Dict, launch1: Dict, disable: bool, disabled: seq<Disabled>)
    requires Proper(launch) && (disable ==> WindowsLaunches(h, sections).Ok?)
    requires if disable
             then Disable(h, CommonOs(sections), Entries(WindowsLaunches(h, sections).value), launch)
                  == Ok((launch1, disabled))
             else launch1 == launch
    ensures Abs(launch1).Keys == Abs(launch).Keys
  {
    hide Disable, CommonOs, IsWindowsEntry, MarkedConfig, WindowsLaunches;
    if disable {
      DisableOverlay(
        h, CommonOs(sections), Entries(WindowsLaunches(h, sections).value), launch, launch1, disabled);
    }
  }

  lemma {:induction false} ListedEntries(h: Host, sections: Dict, launch: Dict, launches: seq<WindowsLaunch>)
    requires forall l :: l in launches <==> Listed(h, sections, launch, l)
    ensures forall key :: key in Entries(launches) <==> exists l :: Listed(h, sections, launch, l) && l.entry == key
  {
    hide Listed;
    forall key | exists l :: Listed(h, sections, launch, l) && l.entry == key ensures key in Entries(launches) {
      var l :| Listed(h, sections, launch, l) && l.entry == key;
      assert l in launches;
    }
  }

  // A single patch that succeeds has redirected the selected entry, which started
  // what the caller believed, and hidden these; every other entry is as it was.
  lemma {:induction false} PatchOneExactly(
    h: Host, appid: int, executable: string, selector: Selector, guard: Guard, disable: bool, sections: Dict,
    sections': Dict, st: State)
    returns (entry: string, current: string)
    requires Proper(sections)
    requires PatchOne(h, appid, executable, selector, guard, disable, sections) == Ok((sections', st))
    ensures Find(sections, LAUNCH).Some? && Find(sections', LAUNCH).Some?
    ensures var launch, launch' := Find(sections, LAUNCH).value, Find(sections', LAUNCH).value;
            && Selected(h, selector, launch) == Some(entry)
            && Starts(Abs(launch), entry, current) && Believes(guard, current)
            && st.entries == [Redirect(entry, Text(current), Text(executable))]
            && Abs(launch').Keys == Abs(launch).Keys
            && forall key :: Has(launch, key) ==>
                 key in Abs(launch')
                 && Effect(Abs(launch)[key], Abs(launch')[key], Hides(h, sections, launch, disable, key),
                           if key == entry then Some(executable) else None)
  {
    hide Disable, CommonOs, PatchOne, ReplaceOne, WindowsLaunches, WindowsEntry, Listed, Starts, Select, MarkedConfig,
      Find, Graft, FirstMatch, Effect;
    var launch1, launch2;
    launch1, launch2, entry, current :=
      PatchOneParts(h, appid, executable, selector, guard, disable, sections, sections', st);
    var launch := Find(sections, LAUNCH).value;
    ProperFind(sections, LAUNCH);
    FindGraft(sections, LAUNCH, launch2);
    ReplaceOneExactly(launch1, entry, executable, guard);
    var t, t1, t2 := Abs(launch), Abs(launch1), Abs(launch2);
    HiddenKeys(h, sections, launch, launch1, disable, st.disabled);
    if disable {
      DisabledStarts(
        h, CommonOs(sections), Entries(WindowsLaunches(h, sections).value), launch, launch1, st.disabled, entry);
    }
    forall key | Has(launch, key)
      ensures key in t2 && Effect(t[key], t2[key], Hides(h, sections, launch, disable, key),
                             if key == entry then Some(executable) else None)
    {
      HidesExactly(h, sections, launch, launch1, disable, st.disabled, key);
      EffectThen(t[key], t1[key], Hides(h, sections, launch, disable, key), executable);
    }
  }

  lemma {:induction false} EffectThen(before: Tree, mid: Tree, hidden: bool, executable: string)
    requires Effect(before, mid, hidden, None)
    ensures mid.Branch? ==>
              Effect(before, Branch(mid.children["executable" := Leaf(executable)]), hidden, Some(executable))
  {
  }

  // What one item becomes: its config hidden or not, and then redirected or not.
  ghost predicate Effect(before: Tree, after: Tree, hidden: bool, executable: Option<string>) {
    var mid := if hidden && before.Branch? then Branch(before.children["config" := HiddenConfig(before)]) else before;
    && (hidden ==> before.Branch?)
    && match executable
       case None => after == mid
       case Some(s) => mid.Branch? && after == Branch(mid.children["executable" := Leaf(s)])
  }

  // The selected entry starts what the caller believes.
  ghost predicate Selectable(h: Host, launch: Dict, selector: Selector, guard: Guard) {
    Selected(h, selector, launch).Some? && StartsBelieved(Abs(launch), Selected(h, selector, launch).value, guard)
  }

  lemma {:induction false} ReplaceLaunchExactly(
    h: Host, sections: Dict, executable: string, selector: Selector, guard: Guard)
    ensures ReplaceLaunch(h, sections, executable, selector, guard).Ok? <==>
              Find(sections, LAUNCH).Some? && Selectable(h, Find(sections, LAUNCH).value, selector, guard)
  {
    hide ReplaceOne, StartsBelieved, Starts, Find, Graft, FirstMatch;
    if Find(sections, LAUNCH).Some? && Selected(h, selector, Find(sections, LAUNCH).value).Some? {
      var launch := Find(sections, LAUNCH).value;
      ReplaceOneExactly(launch, Selected(h, selector, launch).value, executable, guard);
    }
  }

  lemma {:induction false} SameSelectable(
    h: Host, commonOs: Option<Value>, supported: set<string>, launch: Dict, launch': Dict, disabled: seq<Disabled>,
    selector: Selector, guard: Guard)
    requires Proper(launch) && Disable(h, commonOs, supported, launch) == Ok((launch', disabled))
    ensures Selectable(h, launch', selector, guard) <==> Selectable(h, launch, selector, guard)
  {
    hide Disable, Starts, FirstMatch;
    if selector.ByMatch? {
      SameMatch(h, commonOs, supported, launch, launch', disabled, selector.name);
    }
    if Selected(h, selector, launch).Some? {
      var entry := Selected(h, selector, launch).value;
      DisabledStarts(h, commonOs, supported, launch, launch', disabled, entry);
      assert StartsBelieved(Abs(launch'), entry, guard) <==> StartsBelieved(Abs(launch), entry, guard);
    }
  }

  // What is to be hidden can be.
  ghost predicate Hideable(h: Host, sections: Dict)
    requires Find(sections, LAUNCH).Some?
  {
    && WindowsLaunches(h, sections).Ok?
    && forall key ::
         !BadConfigAt(h, sections, Find(sections, LAUNCH).value, Entries(WindowsLaunches(h, sections).value), key)
  }

  // It succeeds if and only if the selector means an entry that starts what the
  // caller believes, and what is to be hidden can be.
  lemma {:induction false} PatchOneSucceedsExactly(
    h: Host, appid: int, executable: string, selector: Selector, guard: Guard, disable: bool, sections: Dict)
    requires Proper(sections)
    ensures PatchOne(h, appid, executable, selector, guard, disable, sections).Ok? <==>
              && Find(sections, LAUNCH).Some? && (disable ==> Hideable(h, sections))
              && Selectable(h, Find(sections, LAUNCH).value, selector, guard)
  {
    hide Disable, CommonOs, CommonOk, ReplaceLaunch, BadConfigAt, Selectable, Select, Find, Graft;
    if !disable {
      ReplaceLaunchExactly(h, sections, executable, selector, guard);
    } else if WindowsLaunches(h, sections).Ok? {
      var launch, supported := Find(sections, LAUNCH).value, Entries(WindowsLaunches(h, sections).value);
      ProperFind(sections, LAUNCH);
      DisableFailsExactly(h, sections, launch, supported);
      if Disable(h, CommonOs(sections), supported, launch).Ok? {
        var (launch1, disabled) := Disable(h, CommonOs(sections), supported, launch).value;
        FindGraft(sections, LAUNCH, launch1);
        ReplaceLaunchExactly(h, Graft(sections, LAUNCH, launch1), executable, selector, guard);
        SameSelectable(h, CommonOs(sections), supported, launch, launch1, disabled, selector, guard);
      }
    }
  }
}
