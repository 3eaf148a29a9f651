// Native Cloud overrides: the entries and links that make Steam's Auto-Cloud
// look inside the Wine prefix, and the record that takes them away again.
module Cloud {
  import opened Wrappers
  import opened Vdf
  import opened Codec
  import PythonText

  type Path = string

  // What stands at a path: a symbolic link to a resolved directory, or
  // anything else.
  datatype Node = Link(target: Path) | Other

  type Links = map<Path, Node>

  const UFS := ["appinfo", "ufs"]

  const ROOTS := {
    "WindowsHome", "WinMyDocuments", "WinAppDataLocal", "WinAppDataLocalLow", "WinAppDataRoaming", "WinSavedGames",
    "WinProgramData", "SteamCloudDocuments", "gameinstall"}

  // The command line and the machine: where each root lies in the prefix, where
  // an addpath lies under the native base, and which links can be created.
  datatype Env = Env(
    platform: string,
    addpathRoot: string,
    initialized: bool,
    gameDir: bool,
    account: bool,
    wineUser: bool,
    target: string -> Option<Path>,
    link: string -> Path,
    creatable: Path -> bool)

  // One recorded override.
  datatype CloudEntry = CloudEntry(
    key: string, root: string, original: Option<Value>, generated: Value, link: Path, target: Path, linkOwned: bool)

  // --- The roots of an app --------------------------------------------------

  // Each supported root once, in the order of the save-file rules. Looking up
  // an unhashable root raises TypeError.
  function SupportedRoots(savefiles: Dict, roots: seq<string>): Result<seq<string>, Fault> {
    match savefiles
    case Empty => Ok(roots)
    case Entry(_, Sub(rule), rest) =>
      (match Get(rule, "root")
       case Some(Sub(_)) => Err(BadConfig)
       case Some(Text(root)) =>
         SupportedRoots(rest, if root in ROOTS && root !in roots then roots + [root] else roots)
       case _ => SupportedRoots(rest, roots))
    case Entry(_, _, rest) => SupportedRoots(rest, roots)
  }

  predicate HasUnsupported(savefiles: Dict) {
    match savefiles
    case Empty => false
    case Entry(_, Sub(rule), rest) =>
      || (match Get(rule, "root") case Some(Text(root)) => "Win" <= root && root !in ROOTS case _ => false)
      || HasUnsupported(rest)
    case Entry(_, _, rest) => HasUnsupported(rest)
  }

  // --- Keys and values of overrides -----------------------------------------

  // The first override of a root on a platform; a missing comparison means "=".
  function ExistingKey(overrides: Dict, root: string, platform: string): Option<string> {
    match overrides
    case Empty => None
    case Entry(key, item, rest) =>
      if && item.Sub?
         && Get(item.dict, "root") == Some(Text(root))
         && Get(item.dict, "os") == Some(Text(platform))
         && Get(item.dict, "oscompare") in {None, Some(Text("="))}
      then Some(key)
      else ExistingKey(rest, root, platform)
  }

  // max(int(key) for numeric keys, default=-1)
  function MaxNumber(d: Dict): (n: int)
    ensures n >= -1
  {
    match d
    case Empty => -1
    case Entry(key, _, rest) =>
      var m := MaxNumber(rest);
      if PythonText.AsciiDigits(key) && PythonText.Value(key) > m then PythonText.Value(key) else m
  }

  lemma {:induction false} KeysHas(d: Dict, key: string)
    ensures key in Keys(d) <==> Has(d, key)
  {
    if d.Entry? {
      KeysHas(d.rest, key);
    }
  }

  function NumbersFrom(d: Dict, n: nat): set<string> {
    set k | k in Keys(d) && PythonText.AsciiDigits(k) && PythonText.Value(k) >= n
  }

  // The first decimal key from `n` on that is not taken.
  function NextFrom(d: Dict, n: nat): (key: string)
    ensures !Has(d, key) && PythonText.AsciiDigits(key)
    decreases NumbersFrom(d, n)
  {
    var key := PythonText.Decimal(n);
    if Has(d, key) then
      assert key in Keys(d) by { KeysHas(d, key); }
      assert PythonText.Value(key) == n by { PythonText.ValueDecimal(n); }
      assert key in NumbersFrom(d, n) - NumbersFrom(d, n + 1);
      NextFrom(d, n + 1)
    else key
  }

  function NextKey(d: Dict): (key: string)
    ensures !Has(d, key) && PythonText.AsciiDigits(key)
  {
    NextFrom(d, MaxNumber(d) + 1)
  }

  lemma {:induction false} NumbersBelow(d: Dict, key: string)
    requires Has(d, key) && PythonText.AsciiDigits(key)
    ensures PythonText.Value(key) <= MaxNumber(d)
  {
    if d.key != key {
      NumbersBelow(d.rest, key);
    }
  }

  // The loop that looks for a free key stops at once: one past the largest
  // number is always free.
  lemma {:induction false} NextKeyIsNext(d: Dict)
    ensures NextKey(d) == PythonText.Decimal(MaxNumber(d) + 1)
  {
    var n: nat := MaxNumber(d) + 1;
    if Has(d, PythonText.Decimal(n)) {
      NumbersBelow(d, PythonText.Decimal(n));
      PythonText.ValueDecimal(n);
      assert false;
    }
  }

  // An existing key that is empty counts as none.
  function ChosenKey(overrides: Dict, root: string, platform: string): (string, bool) {
    match ExistingKey(overrides, root, platform)
    case Some(key) => if key != "" then (key, true) else (NextKey(overrides), false)
    case None => (NextKey(overrides), false)
  }

  function Nonempty(parts: seq<string>): seq<string> {
    if parts == [] then []
    else (if parts[0] != "" then [parts[0]] else []) + Nonempty(parts[1..])
  }

  function NormalizeRoot(addpathRoot: string): Result<string, Fault> {
    var parts := Nonempty(PythonText.Split(addpathRoot, '/'));
    if parts == [] || "." in parts || ".." in parts then Err(BadAddPath) else Ok(PythonText.Join(parts, '/'))
  }

  // The directory of all links, once the Wine prefix is known to be initialized.
  function BasePath(env: Env): Result<string, Fault> {
    if env.initialized then NormalizeRoot(env.addpathRoot) else Err(Io)
  }

  function AddPath(appid: nat, root: string, count: nat, base: string): string {
    base + "/" + PythonText.Decimal(appid) + (if count > 1 then "/" + root else "")
  }

  function Generated(root: string, platform: string, addpath: string): Value {
    Sub(Entry("root", Text(root), Entry("os", Text(platform), Entry("oscompare", Text("="),
        Entry("useinstead", Text("MacAppSupport"), Entry("addpath", Text(addpath), Empty))))))
  }

  // --- Installing -----------------------------------------------------------

  // One turn of the install loop.
  function InstallOne(env: Env, addpath: string, root: string, overrides: Dict, links: Links)
    : Result<(Dict, Links, CloudEntry), Fault>
  {
    match env.target(root)
    case None => Err(Io)
    case Some(target) =>
      var link := env.link(addpath);
      var (key, existing) := ChosenKey(overrides, root, env.platform);
      var generated := Generated(root, env.platform, addpath);
      var entry := CloudEntry(
        key, root, if existing then Get(overrides, key) else None, generated, link, target, link !in links);
      if link in links then
        if links[link] == Link(target) then Ok((Put(overrides, key, generated), links, entry)) else Err(PathTaken)
      else if !env.creatable(link) then Err(Io)
      else Ok((Put(overrides, key, generated), links[link := Link(target)], entry))
  }

  function InstallAll(env: Env, addpath: string -> string, roots: seq<string>, overrides: Dict, links: Links)
    : Result<(Dict, Links, seq<CloudEntry>), Fault>
    decreases roots
  {
    if roots == [] then Ok((overrides, links, []))
    else
      var (overrides1, links1, entry) :- InstallOne(env, addpath(roots[0]), roots[0], overrides, links);
      var (overrides2, links2, entries) :- InstallAll(env, addpath, roots[1..], overrides1, links1);
      Ok((overrides2, links2, [entry] + entries))
  }

  function Rules(sections: Dict): Dict {
    match Find(sections, UFS + ["savefiles"])
    case Some(savefiles) => savefiles
    case None => Empty
  }

  // ufs.setdefault("rootoverrides", {})
  function Overrides(ufs: Dict): Result<Dict, Fault> {
    match Get(ufs, "rootoverrides")
    case None => Ok(Empty)
    case Some(Sub(overrides)) => Ok(overrides)
    case _ => Err(BadOverrides)
  }

  // The roots to redirect, or why there are none.
  function CloudRoots(env: Env, sections: Dict): Result<seq<string>, Fault> {
    var roots :- SupportedRoots(Rules(sections), []);
    if HasUnsupported(Rules(sections)) then Err(UnsupportedRoot)
    else if roots == [] then Err(NoCloudRoot)
    else if "gameinstall" in roots && !env.gameDir then Err(Io)
    else if "SteamCloudDocuments" in roots && !env.account then Err(Io)
    else if !env.wineUser then Err(Io)
    else Ok(roots)
  }

  // The install command on one app's sections and the links, up to the rewrite.
  function CloudInstall(
    env: Env, appid: nat, sections: Dict, links: Links): Result<(Dict, Links, seq<CloudEntry>), Fault>
  {
    var base :- BasePath(env);
    var roots :- CloudRoots(env, sections);
    match Find(sections, UFS)
    case None => Err(NoCloudRoot)
    case Some(ufs) =>
      var overrides :- Overrides(ufs);
      var addpath := (root: string) => AddPath(appid, root, |roots|, base);
      var (overrides', links', entries) :- InstallAll(env, addpath, roots, overrides, links);
      Ok((Graft(sections, UFS, Put(ufs, "rootoverrides", Sub(overrides'))), links', entries))
  }

  // --- Restoring ------------------------------------------------------------

  // One turn of the restore loop: the override must still be the recorded one.
  function RestoreOne(overrides: Dict, entry: CloudEntry): Result<Dict, Fault> {
    var current := Get(overrides, entry.key);
    if current.None? || AbsValue(current.value) != AbsValue(entry.generated) then Err(ChangedUnexpectedly)
    else if entry.original.None? then Ok(Del(overrides, entry.key))
    else Ok(Put(overrides, entry.key, entry.original.value))
  }

  function RestoreAll(overrides: Dict, entries: seq<CloudEntry>): Result<Dict, Fault>
    decreases entries
  {
    if entries == [] then Ok(overrides)
    else
      var overrides1 :- RestoreOne(overrides, entries[0]);
      RestoreAll(overrides1, entries[1..])
  }

  // record.get("ufs", {}).get("rootoverrides", {})
  function CurrentOverrides(sections: Dict): Result<Dict, Fault> {
    match Find(sections, ["appinfo"])
    case None => Err(NoSuchApp)
    case Some(app) =>
      match Get(app, "ufs")
      case None => Ok(Empty)
      case Some(Sub(ufs)) => Overrides(ufs)
      case _ => Err(BadOverrides)
  }

  // The overrides are edited where they stand; a missing table stays missing.
  function PutOverrides(sections: Dict, overrides: Dict): Dict {
    match Find(sections, UFS)
    case Some(ufs) =>
      if Has(ufs, "rootoverrides") then Graft(sections, UFS, Put(ufs, "rootoverrides", Sub(overrides))) else sections
    case None => sections
  }

  // The restore command on one app's sections, up to the rewrite, and whether a
  // rewrite is needed.
  function CloudRestore(sections: Dict, entries: seq<CloudEntry>): Result<(Dict, bool), Fault> {
    var overrides :- CurrentOverrides(sections);
    var overrides' :- RestoreAll(overrides, entries);
    Ok((if entries == [] then sections else PutOverrides(sections, overrides'), entries != []))
  }

  function RemoveLink(links: Links, entry: CloudEntry): Links {
    if entry.linkOwned && entry.link in links && links[entry.link] == Link(entry.target) then links - {entry.link}
    else links
  }

  // Then every link that is owned and still points where it did goes away.
  function RemoveLinks(links: Links, entries: seq<CloudEntry>): Links
    decreases entries
  {
    if entries == [] then links else RemoveLinks(RemoveLink(links, entries[0]), entries[1..])
  }
}
