// The launch section of one app: selecting the Windows entries, disabling the
// unusable ones, redirecting the others, and restoring a recorded state.
module Launch {
  import opened Wrappers
  import opened Vdf
  import opened Codec
  import PythonText

  const DISABLED_OSLIST := "ullage-disabled"
  const LAUNCH := ["appinfo", "config", "launch"]

  // What the editor asks of Python and of the file system: str.lower, str() of
  // a value that is not text, and whether an entry's executable and working
  // directory exist in the depot.
  datatype Host = Host(
    lower: string -> string,
    show: Value -> string,
    usable: (string, string) -> bool)

  datatype WindowsLaunch = WindowsLaunch(entry: string, executable: string, workingdir: string)

  // One redirected entry of a mapping state, with the values a JSON file may hold.
  datatype Redirect = Redirect(entry: string, original: Value, installed: Value)

  // One disabled entry; a missing config is recorded as had_config = false.
  datatype Disabled = Disabled(entry: string, hadConfig: bool, original: Option<Value>, installed: Value)

  datatype State = State(appid: int, entries: seq<Redirect>, disabled: seq<Disabled>)

  // --- Selecting ------------------------------------------------------------

  function Str(h: Host, v: Value): string {
    if v.Text? then v.text else h.show(v)
  }

  // An absent oslist allows every platform.
  predicate AllowsWindows(h: Host, oslist: Option<Value>) {
    oslist.None? ||
    exists i ::
      && 0 <= i < |PythonText.Split(Str(h, oslist.value), ',')|
      && h.lower(PythonText.Strip(PythonText.Split(Str(h, oslist.value), ',')[i])) == "windows"
  }

  function EntryOs(item: Dict): Option<Value> {
    match Get(item, "config")
    case Some(Sub(config)) => Get(config, "oslist")
    case _ => None
  }

  function EffectiveOs(item: Dict, commonOs: Option<Value>): Option<Value> {
    var own := EntryOs(item);
    if own.Some? then own else commonOs
  }

  // A numbered entry with an executable that the client offers on Windows.
  predicate IsWindowsEntry(h: Host, commonOs: Option<Value>, key: string, item: Value) {
    && PythonText.AsciiDigits(key)
    && item.Sub?
    && Get(item.dict, "executable").Some?
    && Get(item.dict, "executable").value.Text?
    && AllowsWindows(h, EffectiveOs(item.dict, commonOs))
  }

  function WorkingDir(item: Dict): string {
    match Get(item, "workingdir")
    case Some(Text(s)) => s
    case _ => ""
  }

  predicate IsUsable(h: Host, commonOs: Option<Value>, key: string, item: Value) {
    && IsWindowsEntry(h, commonOs, key, item)
    && (var executable := Get(item.dict, "executable").value.text;
        && PythonText.EndsWith(h.lower(executable), ".exe")
        && h.usable(executable, WorkingDir(item.dict)))
  }

  function Select(h: Host, commonOs: Option<Value>, launch: Dict): seq<WindowsLaunch> {
    match launch
    case Empty => []
    case Entry(key, item, rest) =>
      (if IsUsable(h, commonOs, key, item)
       then [WindowsLaunch(key, Get(item.dict, "executable").value.text, WorkingDir(item.dict))] else [])
      + Select(h, commonOs, rest)
  }

  // The `common` section's oslist, when that section is a dictionary.
  function CommonOs(sections: Dict): Option<Value> {
    match Find(sections, ["appinfo", "common"])
    case Some(common) => Get(common, "oslist")
    case None => None
  }

  // A `common` that is not a dictionary raises AttributeError.
  predicate CommonOk(sections: Dict) {
    match Find(sections, ["appinfo"])
    case Some(app) => Has(app, "common") ==> Get(app, "common").value.Sub?
    case None => true
  }

  // AppInfo.windows_launches on one app's sections
  function WindowsLaunches(h: Host, sections: Dict): Result<seq<WindowsLaunch>, Fault> {
    match Find(sections, LAUNCH)
    case None => Err(NoLaunchSection)
    case Some(launch) =>
      if !CommonOk(sections) then Err(NoLaunchSection)
      else
        var result := Select(h, CommonOs(sections), launch);
        if result == [] then Err(NoWindowsLaunch) else Ok(result)
  }

  // --- Disabling ------------------------------------------------------------

  function ConfigOf(item: Dict): Option<Value> {
    Get(item, "config")
  }

  function InstalledConfig(item: Dict): Dict {
    match ConfigOf(item)
    case Some(Sub(config)) => Put(config, "oslist", Text(DISABLED_OSLIST))
    case _ => Put(Empty, "oslist", Text(DISABLED_OSLIST))
  }

  // AppInfo.disable_unusable_windows_launches on the launch dictionary
  function Disable(h: Host, commonOs: Option<Value>, supported: set<string>, launch: Dict)
    : Result<(Dict, seq<Disabled>), Fault>
  {
    match launch
    case Empty => Ok((Empty, []))
    case Entry(key, item, rest) =>
      if key !in supported && IsWindowsEntry(h, commonOs, key, item) then
        var config := ConfigOf(item.dict);
        if config.Some? && !config.value.Sub? then Err(BadConfig)
        else
          var (rest', disabled) :- Disable(h, commonOs, supported, rest);
          var installed := Sub(InstalledConfig(item.dict));
          Ok((Entry(key, Sub(Put(item.dict, "config", installed)), rest'),
              [Disabled(key, config.Some?, config, installed)] + disabled))
      else
        var (rest', disabled) :- Disable(h, commonOs, supported, rest);
        Ok((Entry(key, item, rest'), disabled))
  }

  // --- Redirecting ----------------------------------------------------------

  // What the caller believes the current executable to be.
  datatype Guard = Anything | Exactly(value: Option<Value>)

  // expects.get(entry)
  function GuardOf(expects: Option<map<string, Option<Value>>>, entry: string): Guard {
    match expects
    case None => Anything
    case Some(values) => Exactly(if entry in values then values[entry] else None)
  }

  // One step of AppInfo.replace_launches: the new launch section and the
  // executable it replaced.
  function ReplaceOne(launch: Dict, entry: string, executable: string, guard: Guard): Result<(Dict, string), Fault> {
    match Get(launch, entry)
    case None => Err(NoSuchEntry)
    case Some(Sub(item)) =>
      (match Get(item, "executable")
       case Some(Text(current)) =>
         if guard.Exactly? && guard.value != Some(Text(current)) then Err(ChangedUnexpectedly)
         else Ok((Put(launch, entry, Sub(Put(item, "executable", Text(executable)))), current))
       case _ => Err(NoExecutable))
    case _ => Err(NoExecutable)
  }

  function Replace(launch: Dict, replacements: seq<(string, string)>, expects: Option<map<string, Option<Value>>>)
    : Result<(Dict, seq<Redirect>), Fault>
    decreases replacements
  {
    if replacements == [] then Ok((launch, []))
    else
      var (entry, executable) := replacements[0];
      var (launch', current) :- ReplaceOne(launch, entry, executable, GuardOf(expects, entry));
      var (final, changed) :- Replace(launch', replacements[1..], expects);
      Ok((final, [Redirect(entry, Text(current), Text(executable))] + changed))
  }

  // AppInfo.replace_launches up to the rewrite
  function ReplaceLaunches(
    sections: Dict, replacements: seq<(string, string)>, expects: Option<map<string, Option<Value>>>)
    : Result<(Dict, seq<Redirect>), Fault>
  {
    match Find(sections, LAUNCH)
    case None => Err(NoLaunchSection)
    case Some(launch) =>
      var (launch', changed) :- Replace(launch, replacements, expects);
      if changed == [] then Err(NothingToReplace)
      else Ok((Graft(sections, LAUNCH, launch'), changed))
  }

  function Replacements(launches: seq<WindowsLaunch>, template: string -> string): (r: seq<(string, string)>)
    ensures |r| == |launches|
  {
    seq(|launches|, i requires 0 <= i < |launches| => (launches[i].entry, template(launches[i].entry)))
  }

  function Entries(launches: seq<WindowsLaunch>): set<string> {
    set l | l in launches :: l.entry
  }

  // The patch-all driver with --disable-unsupported, up to the rewrite.
  // `template` is the executable template with the entry filled in.
  function PatchAll(h: Host, appid: int, template: string -> string, sections: Dict): Result<(Dict, State), Fault> {
    var launches :- WindowsLaunches(h, sections);
    var (launch, disabled) :- Disable(h, CommonOs(sections), Entries(launches), Find(sections, LAUNCH).value);
    var (sections', changed) :- ReplaceLaunches(Graft(sections, LAUNCH, launch), Replacements(launches, template),
        None);
    Ok((sections', State(appid, changed, disabled)))
  }

  // --- The single-entry driver ----------------------------------------------

  datatype Selector = ByEntry(entry: string) | ByMatch(name: Option<string>)

  function Slashes(s: string): string {
    seq(|s|, i requires 0 <= i < |s| => if s[i] == '\\' then '/' else s[i])
  }

  // path.replace("\\", "/").rsplit("/", 1)[-1]
  function BaseName(path: string): string {
    var parts := PythonText.Split(Slashes(path), '/');
    parts[|parts| - 1]
  }

  predicate Matches(h: Host, name: Option<string>, item: Value) {
    && item.Sub?
    && Get(item.dict, "executable").Some?
    && Get(item.dict, "executable").value.Text?
    && (name.None? || h.lower(BaseName(Get(item.dict, "executable").value.text)) == h.lower(name.value))
  }

  function FirstMatch(h: Host, name: Option<string>, launch: Dict): Option<string> {
    match launch
    case Empty => None
    case Entry(key, item, rest) => if Matches(h, name, item) then Some(key) else FirstMatch(h, name, rest)
  }

  // AppInfo.replace_launch up to the rewrite
  function ReplaceLaunch(h: Host, sections: Dict, executable: string, selector: Selector, guard: Guard)
    : Result<(Dict, Redirect), Fault>
  {
    match Find(sections, LAUNCH)
    case None => Err(NoLaunchSection)
    case Some(launch) =>
      var selected := match selector
        case ByEntry(entry) => Some(entry)
        case ByMatch(name) => FirstMatch(h, name, launch);
      if selected.None? then Err(NoMatch)
      else
        var (launch', current) :- ReplaceOne(launch, selected.value, executable, guard);
        Ok((Graft(sections, LAUNCH, launch'), Redirect(selected.value, Text(current), Text(executable))))
  }

  // The patch driver, with or without --disable-unsupported, up to the rewrite.
  function PatchOne(
    h: Host, appid: int, executable: string, selector: Selector, guard: Guard, disable: bool, sections: Dict)
    : Result<(Dict, State), Fault>
  {
    var launches :- if disable then WindowsLaunches(h, sections) else Ok([]);
    var (launch, disabled) :-
      if disable then Disable(h, CommonOs(sections), Entries(launches), Find(sections, LAUNCH).value)
      else Ok((Empty, []));
    var sections1 := if disable then Graft(sections, LAUNCH, launch) else sections;
    var (sections', redirect) :- ReplaceLaunch(h, sections1, executable, selector, guard);
    Ok((sections', State(appid, [redirect], disabled)))
  }

  // --- Restoring ------------------------------------------------------------

  // Validating one redirected entry: the executable to write, if any.
  function CheckRedirect(launch: Dict, item: Redirect): Result<seq<(string, string)>, Fault> {
    match Get(launch, item.entry)
    case Some(Sub(fields)) =>
      (match Get(fields, "executable")
       case Some(current) =>
         if !item.original.Text? || !item.installed.Text? then Err(BadState)
         else if current == item.original then Ok([])
         else if current == item.installed then Ok([(item.entry, item.original.text)])
         else Err(ChangedUnexpectedly)
       case None => Err(NoSuchEntry))
    case _ => Err(NoSuchEntry)
  }

  function CheckRedirects(launch: Dict, entries: seq<Redirect>): Result<seq<(string, string)>, Fault> {
    if entries == [] then Ok([])
    else
      var first :- CheckRedirect(launch, entries[0]);
      var rest :- CheckRedirects(launch, entries[1..]);
      Ok(first + rest)
  }

  predicate SameValue(a: Value, b: Value) {
    AbsValue(a) == AbsValue(b)
  }

  // Validating one disabled entry: the config to put back (None: delete it).
  function CheckDisabled(launch: Dict, item: Disabled): Result<seq<(string, Option<Value>)>, Fault> {
    match Get(launch, item.entry)
    case None => Err(NoSuchEntry)
    case Some(fields) =>
      if !item.installed.Sub? then Err(BadState)
      else if item.hadConfig && !(item.original.Some? && item.original.value.Sub?) then Err(BadState)
      else if !item.hadConfig && item.original.Some? then Err(BadState)
      else if !fields.Sub? then Err(ChangedUnexpectedly)
      else
        var current := ConfigOf(fields.dict);
        if current.Some? == item.hadConfig
            && (!item.hadConfig || SameValue(current.value, item.original.value)) then Ok([])
        else if current.Some? && current.value.Sub? && SameValue(current.value, item.installed) then
          Ok([(item.entry, item.original)])
        else Err(ChangedUnexpectedly)
  }

  function CheckAllDisabled(launch: Dict, disabled: seq<Disabled>): Result<seq<(string, Option<Value>)>, Fault> {
    if disabled == [] then Ok([])
    else
      var first :- CheckDisabled(launch, disabled[0]);
      var rest :- CheckAllDisabled(launch, disabled[1..]);
      Ok(first + rest)
  }

  datatype Changes = Changes(executables: seq<(string, string)>, configs: seq<(string, Option<Value>)>) {
    predicate Any() {
      executables != [] || configs != []
    }
  }

  // The validation phase of AppInfo.restore_state
  function Validate(launch: Dict, st: State): Result<Changes, Fault> {
    if st.entries == [] then Err(BadState)
    else
      var executables :- CheckRedirects(launch, st.entries);
      var configs :- CheckAllDisabled(launch, st.disabled);
      Ok(Changes(executables, configs))
  }

  function Fields(launch: Dict, entry: string): Dict {
    match Get(launch, entry)
    case Some(Sub(item)) => item
    case _ => Empty
  }

  function ApplyExecutables(launch: Dict, changes: seq<(string, string)>): Dict
    decreases changes
  {
    if changes == [] then launch
    else
      var (entry, executable) := changes[0];
      ApplyExecutables(
        Put(launch, entry, Sub(Put(Fields(launch, entry), "executable", Text(executable)))), changes[1..])
  }

  // Deleting a config twice raises KeyError, after the earlier edits.
  function ApplyConfigs(launch: Dict, changes: seq<(string, Option<Value>)>): Result<Dict, Fault>
    decreases changes
  {
    if changes == [] then Ok(launch)
    else
      var (entry, config) := changes[0];
      var item := Fields(launch, entry);
      if config.None? && !Has(item, "config") then Err(NoSuchEntry)
      else
        var item' := if config.Some? then Put(item, "config", config.value) else Del(item, "config");
        ApplyConfigs(Put(launch, entry, Sub(item')), changes[1..])
  }

  // AppInfo.restore_state up to the rewrite: the new sections, and whether a
  // rewrite is needed at all.
  function Restore(sections: Dict, st: State): Result<(Dict, bool), Fault> {
    match Find(sections, LAUNCH)
    case None => Err(BadState)
    case Some(launch) =>
      var changes :- Validate(launch, st);
      if !changes.Any() then Ok((sections, false))
      else
        var launch' :- ApplyConfigs(ApplyExecutables(launch, changes.executables), changes.configs);
        Ok((Graft(sections, LAUNCH, launch'), true))
  }
}
