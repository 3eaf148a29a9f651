// Which launch entries the client offers on Windows, and which of them can be
// started, in terms of the fields of the app's sections alone.
module Offers {
  import opened Wrappers
  import opened Vdf
  import opened Launch
  import opened Plan
  import opened Undo
  import PythonText

  // --- Fields ---------------------------------------------------------------

  // One of the comma-separated parts of an oslist, stripped and lowered, is
  // "windows".
  ghost predicate NamesWindows(h: Host, oslist: Value) {
    var text := if oslist.Text? then oslist.text else h.show(oslist);
    exists part :: part in PythonText.Split(text, ',') && h.lower(PythonText.Strip(part)) == "windows"
  }

  // The entry's own oslist decides whatever the app's says; where the entry has
  // none the app's decides; and with neither the entry is offered.
  ghost predicate Offered(h: Host, sections: Dict, item: Dict) {
    var config, common := Find(item, ["config"]), Find(sections, ["appinfo", "common"]);
    if config.Some? && Has(config.value, "oslist") then NamesWindows(h, Get(config.value, "oslist").value)
    else common.Some? && Has(common.value, "oslist") ==> NamesWindows(h, Get(common.value, "oslist").value)
  }

  // A numbered entry that starts something and is offered.
  ghost predicate WindowsEntry(h: Host, sections: Dict, key: string, item: Value) {
    && key != "" && (forall c :: c in key ==> '0' <= c <= '9')
    && item.Sub? && (exists executable :: Get(item.dict, "executable") == Some(Text(executable)))
    && Offered(h, sections, item.dict)
  }

  // It starts an .exe of the depot, in a directory of the depot if it names one.
  ghost predicate Startable(h: Host, item: Dict, executable: string, workingdir: string) {
    && Get(item, "executable") == Some(Text(executable))
    && (if exists s :: Get(item, "workingdir") == Some(Text(s)) then Get(item, "workingdir") == Some(Text(workingdir))
        else workingdir == "")
    && (exists stem :: h.lower(executable) == stem + ".exe")
    && h.usable(executable, workingdir)
  }

  lemma {:induction false} OneField(d: Dict, key: string)
    ensures Find(d, [key]) == match Get(d, key) case Some(Sub(e)) => Some(e) case _ => None
  {
    assert [key][1..] == [];
  }

  lemma {:induction false} NamesExactly(h: Host, oslist: Value)
    ensures AllowsWindows(h, Some(oslist)) <==> NamesWindows(h, oslist)
  {
    var parts := PythonText.Split(Str(h, oslist), ',');
    if NamesWindows(h, oslist) {
      var part :| part in parts && h.lower(PythonText.Strip(part)) == "windows";
      var i :| 0 <= i < |parts| && parts[i] == part;
    }
    if AllowsWindows(h, Some(oslist)) {
      var i :| 0 <= i < |parts| && h.lower(PythonText.Strip(parts[i])) == "windows";
      assert parts[i] in parts;
    }
  }

  lemma {:induction false} OfferedExactly(h: Host, sections: Dict, item: Dict)
    ensures AllowsWindows(h, EffectiveOs(item, CommonOs(sections))) <==> Offered(h, sections, item)
  {
    hide AllowsWindows, NamesWindows, Find;
    OneField(item, "config");
    NoList(h);
    if EffectiveOs(item, CommonOs(sections)).Some? {
      NamesExactly(h, EffectiveOs(item, CommonOs(sections)).value);
    }
  }

  lemma {:induction false} NoList(h: Host)
    ensures AllowsWindows(h, None)
  {
  }

  lemma {:induction false} WindowsExactly(h: Host, sections: Dict, key: string, item: Value)
    ensures IsWindowsEntry(h, CommonOs(sections), key, item) <==> WindowsEntry(h, sections, key, item)
  {
    hide AllowsWindows, EffectiveOs, Offered, CommonOs;
    if item.Sub? { OfferedExactly(h, sections, item.dict); }
    assert (forall c :: c in key ==> '0' <= c <= '9') ==> forall i :: 0 <= i < |key| ==> key[i] in key;
  }

  lemma {:induction false} StartableExactly(h: Host, item: Dict, executable: string, workingdir: string)
    ensures Startable(h, item, executable, workingdir) <==>
              && Get(item, "executable") == Some(Text(executable)) && workingdir == WorkingDir(item)
              && PythonText.EndsWith(h.lower(executable), ".exe") && h.usable(executable, workingdir)
  {
    var lowered := h.lower(executable);
    if PythonText.EndsWith(lowered, ".exe") {
      assert lowered == lowered[..|lowered| - 4] + ".exe";
    }
    if stem :| lowered == stem + ".exe" {
      assert lowered[|lowered| - 4..] == ".exe";
    }
  }

  // --- Selecting ------------------------------------------------------------

  ghost predicate Listed(h: Host, sections: Dict, launch: Dict, l: WindowsLaunch) {
    && Has(launch, l.entry) && WindowsEntry(h, sections, l.entry, Get(launch, l.entry).value)
    && Startable(h, Get(launch, l.entry).value.dict, l.executable, l.workingdir)
  }

  // An entry is listed by what it holds.
  lemma {:induction false} UsableExactly(h: Host, sections: Dict, key: string, item: Value, l: WindowsLaunch)
    ensures IsUsable(h, CommonOs(sections), key, item)
            && l == WindowsLaunch(key, Get(item.dict, "executable").value.text, WorkingDir(item.dict))
       <==> l.entry == key && WindowsEntry(h, sections, key, item)
            && Startable(h, item.dict, l.executable, l.workingdir)
  {
    hide AllowsWindows, EffectiveOs, Offered, CommonOs, WindowsEntry, Startable, WorkingDir, PythonText.EndsWith;
    WindowsExactly(h, sections, key, item);
    if item.Sub? { StartableExactly(h, item.dict, l.executable, l.workingdir); }
  }

  lemma {:induction false} SelectHead(h: Host, commonOs: Option<Value>, launch: Dict, l: WindowsLaunch)
    requires launch.Entry?
    ensures l in Select(h, commonOs, launch) <==>
              || l in Select(h, commonOs, launch.rest)
              || (IsUsable(h, commonOs, launch.key, launch.value)
                  && l == WindowsLaunch(launch.key, Get(launch.value.dict, "executable").value.text,
                                        WorkingDir(launch.value.dict)))
  {
    hide IsWindowsEntry, PythonText.EndsWith, WorkingDir;
  }

  // The launches of a section are, each once, exactly the offered entries that
  // can be started, with what they start and where.
  lemma {:induction false} SelectsExactly(h: Host, sections: Dict, launch: Dict)
    requires Proper(launch)
    ensures forall l :: l in Select(h, CommonOs(sections), launch) <==> Listed(h, sections, launch, l)
    ensures var list := Select(h, CommonOs(sections), launch);
            forall i, j :: 0 <= i < j < |list| ==> list[i].entry != list[j].entry
    decreases launch
  {
    hide IsUsable, WindowsEntry, Startable, CommonOs, WorkingDir, Select;
    SelectExact(h, CommonOs(sections), launch);
    if launch.Entry? {
      SelectsExactly(h, sections, launch.rest);
      forall l ensures l in Select(h, CommonOs(sections), launch) <==> Listed(h, sections, launch, l) {
        UsableExactly(h, sections, launch.key, launch.value, l);
        SelectHead(h, CommonOs(sections), launch, l);
      }
    } else {
      NothingListed(h, CommonOs(sections));
    }
  }

  lemma {:induction false} NothingListed(h: Host, commonOs: Option<Value>)
    ensures Select(h, commonOs, Empty) == []
  {
  }

  // The Windows launches of an app are these, if there are any; anything else is
  // an error.
  lemma {:induction false} LaunchesExactly(h: Host, sections: Dict)
    requires Proper(sections)
    ensures var r := WindowsLaunches(h, sections);
            && (r.Ok? <==>
                && Find(sections, LAUNCH).Some?
                && (Has(Find(sections, ["appinfo"]).value, "common") ==> Find(sections, ["appinfo", "common"]).Some?)
                && exists l :: Listed(h, sections, Find(sections, LAUNCH).value, l))
            && (r.Ok? ==> forall l :: l in r.value <==> Listed(h, sections, Find(sections, LAUNCH).value, l))
  {
    hide Select, Listed, CommonOs;
    assert LAUNCH[1..] == ["config", "launch"] && ["appinfo", "common"][1..] == ["common"] && ["common"][1..] == [];
    assert ["appinfo"][1..] == [];
    if Find(sections, LAUNCH).Some? {
      var launch := Find(sections, LAUNCH).value;
      ProperFind(sections, LAUNCH);
      SelectsExactly(h, sections, launch);
      var list := Select(h, CommonOs(sections), launch);
      assert list != [] ==> list[0] in list;
    }
  }

  // The item with one field set.
  ghost predicate WithField(before: Tree, after: Tree, field: string, value: Tree) {
    before.Branch? && after == Branch(before.children[field := value])
  }

  // The config of an item with an oslist no platform has.
  ghost function HiddenConfig(item: Tree): Tree {
    Branch((if item.Branch? && "config" in item.children && item.children["config"].Branch?
            then item.children["config"].children else map[])["oslist" := Leaf("ullage-disabled")])
  }

  // After patch-all an entry that can be started starts its own launcher, an
  // offered one that cannot is hidden from every platform, and every other entry
  // is as it was.
  lemma {:induction false} PatchAllExactly(
    h: Host, appid: int, template: string -> string, sections: Dict, sections': Dict, st: State, key: string)
    requires Proper(sections) && PatchAll(h, appid, template, sections) == Ok((sections', st))
    requires Find(sections, LAUNCH).Some? && Has(Find(sections, LAUNCH).value, key)
    ensures Find(sections', LAUNCH).Some? && Has(Find(sections', LAUNCH).value, key)
    ensures var launch, launch' := Find(sections, LAUNCH).value, Find(sections', LAUNCH).value;
            var before, after := AbsValue(Get(launch, key).value), AbsValue(Get(launch', key).value);
            if exists l :: Listed(h, sections, launch, l) && l.entry == key
            then WithField(before, after, "executable", Leaf(template(key)))
            else if WindowsEntry(h, sections, key, Get(launch, key).value)
            then WithField(before, after, "config", HiddenConfig(before))
            else after == before
  {
    hide IsUsable, IsWindowsEntry, WindowsEntry, Listed, CommonOs, PatchAll, MarkedConfig, HiddenConfig, Find;
    var launch := Find(sections, LAUNCH).value;
    var item := Get(launch, key).value;
    PatchAllCovers(h, appid, template, sections, sections', st, key);
    WindowsExactly(h, sections, key, item);
    ListedKey(h, sections, launch, key);
    if IsUsable(h, CommonOs(sections), key, item) { UsableHasFields(h, CommonOs(sections), key, item); }
    if WindowsEntry(h, sections, key, item) {
      WindowsHasFields(h, sections, key, item);
      MarkedIsHidden(item.dict);
    }
  }

  lemma {:induction false} WindowsHasFields(h: Host, sections: Dict, key: string, item: Value)
    requires WindowsEntry(h, sections, key, item)
    ensures item.Sub?
  {
  }

  lemma {:induction false} MarkedIsHidden(item: Dict)
    ensures MarkedConfig(item) == HiddenConfig(AbsValue(Sub(item)))
  {
    AbsGet(item, "config");
  }

  // Some launch of this entry is listed.
  lemma {:induction false} ListedKey(h: Host, sections: Dict, launch: Dict, key: string)
    requires Has(launch, key)
    ensures IsUsable(h, CommonOs(sections), key, Get(launch, key).value) <==>
              exists l :: Listed(h, sections, launch, l) && l.entry == key
  {
    hide IsUsable, WindowsEntry, Startable, CommonOs, WorkingDir;
    var item := Get(launch, key).value;
    if IsUsable(h, CommonOs(sections), key, item) {
      UsableHasFields(h, CommonOs(sections), key, item);
      var l := WindowsLaunch(key, Get(item.dict, "executable").value.text, WorkingDir(item.dict));
      UsableExactly(h, sections, key, item, l);
      assert Listed(h, sections, launch, l);
    }
    if l :| Listed(h, sections, launch, l) && l.entry == key {
      UsableExactly(h, sections, key, item, l);
    }
  }

  lemma {:induction false} UsableHasFields(h: Host, commonOs: Option<Value>, key: string, item: Value)
    requires IsUsable(h, commonOs, key, item)
    ensures item.Sub? && Get(item.dict, "executable").Some? && Get(item.dict, "executable").value.Text?
  {
  }
}
