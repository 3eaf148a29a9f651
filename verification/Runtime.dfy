// The runtime package store: verified staging, the current pointer, and the
// history that a rollback walks.
module Runtime {
  import opened Wrappers
  import opened Words

  // What a path of an artifact tree resolves to. Escaping means outside the tree.
  datatype Node = File(contents: Bytes) | Symlink | Escaping | Unreadable

  type Tree = map<string, Node>

  datatype Spec = Spec(path: string, digest: string, size: nat)

  datatype Manifest = Manifest(id: string, version: string, specs: seq<Spec>)

  datatype Provenance = Provenance(schema: bool, id: Option<string>, version: Option<string>, digest: Option<string>)

  datatype Package =
    | LinkedDirectory
    | Package(manifest: Option<Bytes>, bridge: Tree, bridgeLinked: bool, provenance: Option<Provenance>)

  datatype Pointer = Pointer(id: string, version: string, digest: string)

  // A pointer as a JSON file holds it; a field of another type counts as absent.
  datatype Raw = Raw(schema: bool, id: Option<string>, version: Option<string>, digest: Option<string>)

  // An absent or unreadable file reads as no pointer and no history.
  datatype Store = Store(packages: map<(string, string), Package>, current: Option<Raw>, history: seq<Raw>)

  // Reading JSON, and SHA-256.
  datatype Env = Env(parse: Bytes -> Option<Manifest>, sha: Bytes -> string)

  datatype Problem =
    | BadManifest | NotVerified | BadPackagePath | AlreadyExists | CopyFailed | WriteFailed
    | NoActivePackage | NotReady | NoTarget

  // Which of the two writes of an activation succeed. Each replaces its file or
  // leaves it alone.
  datatype Writes = Writes(history: bool, pointer: bool)

  // What a command leaves, and why it failed, if it did.
  datatype Outcome = Outcome(store: Store, problem: Option<Problem>)

  // What a check found: is everything in order, and which package is it?
  datatype Report = Report(ready: bool, identity: Option<Pointer>)

  const LIMIT := 16

  const REQUIRED := {
    "x86_64-unix/lsteamclient.so", "i386-windows/lsteamclient.dll", "x86_64-windows/lsteamclient.dll",
    "x86_64-windows/steamclient64.dll"}

  // --- Names, digests, manifests --------------------------------------------

  predicate Alphanumeric(c: char) {
    'A' <= c <= 'Z' || 'a' <= c <= 'z' || '0' <= c <= '9'
  }

  predicate SafeName(s: string) {
    s != "" && Alphanumeric(s[0]) && forall i :: 0 < i < |s| ==> Alphanumeric(s[i]) || s[i] in {'.', '_', '+', '-'}
  }

  predicate IsDigest(s: string) {
    |s| == 64 && forall i :: 0 <= i < |s| ==> '0' <= s[i] <= '9' || 'a' <= s[i] <= 'f'
  }

  predicate ValidManifest(m: Manifest) {
    && SafeName(m.id) && SafeName(m.version)
    && (forall i, j :: 0 <= i < j < |m.specs| ==> m.specs[i].path != m.specs[j].path)
    && (forall i :: 0 <= i < |m.specs| ==> IsDigest(m.specs[i].digest))
    && (forall path :: path in REQUIRED ==> exists i :: 0 <= i < |m.specs| && m.specs[i].path == path)
  }

  function ManifestData(env: Env, raw: Option<Bytes>): Option<Manifest> {
    if raw.None? then None
    else match env.parse(raw.value)
      case Some(m) => if ValidManifest(m) then Some(m) else None
      case None => None
  }

  predicate Matches(env: Env, spec: Spec, tree: Tree) {
    && spec.path in tree && tree[spec.path].File?
    && |tree[spec.path].contents| == spec.size && env.sha(tree[spec.path].contents) == spec.digest
  }

  predicate AllMatch(env: Env, specs: seq<Spec>, tree: Tree) {
    forall i :: 0 <= i < |specs| ==> Matches(env, specs[i], tree)
  }

  function IdentityOf(env: Env, m: Manifest, raw: Bytes): Pointer {
    Pointer(m.id, m.version, env.sha(raw))
  }

  // verify_manifest
  function VerifyManifest(env: Env, raw: Option<Bytes>, tree: Tree): Report {
    match ManifestData(env, raw)
    case None => Report(false, None)
    case Some(m) => Report(AllMatch(env, m.specs, tree), Some(IdentityOf(env, m, raw.value)))
  }

  predicate Certifies(p: Option<Provenance>, identity: Pointer) {
    p == Some(Provenance(true, Some(identity.id), Some(identity.version), Some(identity.digest)))
  }

  // _installed_package: the manifest, and a provenance that names it
  function InstalledReport(env: Env, package: Package): Report
    requires package.Package?
  {
    var r := VerifyManifest(env, package.manifest, package.bridge);
    if r.ready && !package.bridgeLinked && r.identity.Some? && Certifies(package.provenance, r.identity.value) then r
    else r.(ready := false)
  }

  // --- Pointers -------------------------------------------------------------

  function ValidPointer(raw: Raw): Option<Pointer> {
    if && raw.schema && raw.id.Some? && SafeName(raw.id.value) && raw.version.Some? && SafeName(raw.version.value)
       && raw.digest.Some? && IsDigest(raw.digest.value)
    then Some(Pointer(raw.id.value, raw.version.value, raw.digest.value)) else None
  }

  function RawOf(p: Pointer): Raw {
    Raw(true, Some(p.id), Some(p.version), Some(p.digest))
  }

  function RawsOf(ps: seq<Pointer>): (raws: seq<Raw>)
    ensures |raws| == |ps| && forall i :: 0 <= i < |ps| ==> raws[i] == RawOf(ps[i])
  {
    seq(|ps|, i requires 0 <= i < |ps| => RawOf(ps[i]))
  }

  // _history_entries: the valid ones, in order
  function HistoryEntries(history: seq<Raw>): seq<Pointer> {
    if history == [] then []
    else
      var rest := HistoryEntries(history[1..]);
      match ValidPointer(history[0])
      case Some(p) => [p] + rest
      case None => rest
  }

  function Without(ps: seq<Pointer>, p: Pointer): seq<Pointer> {
    if ps == [] then []
    else (if ps[0] == p then [] else [ps[0]]) + Without(ps[1..], p)
  }

  function CurrentPointer(store: Store): Option<Pointer> {
    if store.current.None? then None else ValidPointer(store.current.value)
  }

  function Cut(ps: seq<Pointer>): seq<Pointer> {
    if |ps| <= LIMIT then ps else ps[..LIMIT]
  }

  // _activate_package, when both writes succeed
  function Activate(store: Store, p: Pointer): Store {
    match CurrentPointer(store)
    case None => store.(current := Some(RawOf(p)))
    case Some(was) =>
      if was == p then store.(current := Some(RawOf(p)))
      else store.(current := Some(RawOf(p)), history :=
          RawsOf(Cut([was] + Without(HistoryEntries(store.history), was))))
  }

  // The history is written before the pointer, and only when the pointer changes.
  function ActivateWith(store: Store, p: Pointer, writes: Writes): Outcome {
    var whole := Activate(store, p);
    var changes := CurrentPointer(store).Some? && CurrentPointer(store).value != p;
    if changes && !writes.history then Outcome(store, Some(WriteFailed))
    else if !writes.pointer then Outcome(store.(history := whole.history), Some(WriteFailed))
    else Outcome(whole, None)
  }

  // --- Packages of a store --------------------------------------------------

  // verify_installed with a name
  function VerifyInstalled(env: Env, store: Store, id: string, version: string): Report {
    if !SafeName(id) || !SafeName(version) then Report(false, None)
    else if (id, version) !in store.packages || store.packages[(id, version)].LinkedDirectory? then Report(false, None)
    else InstalledReport(env, store.packages[(id, version)])
  }

  // current_package
  function CurrentPackage(env: Env, store: Store): Option<Report> {
    match store.current
    case None => None
    case Some(raw) =>
      if !raw.schema || raw.id.None? || raw.version.None? then Some(Report(false, None))
      else
        var r := VerifyInstalled(env, store, raw.id.value, raw.version.value);
        if raw.digest.Some? && IsDigest(raw.digest.value) && r.identity.Some?
            && raw.digest.value == r.identity.value.digest then Some(r)
        else Some(r.(ready := false))
  }

  // The artifacts a manifest lists, copied from a tree that has them.
  function Staged(specs: seq<Spec>, source: Tree): Tree {
    map i | 0 <= i < |specs| && specs[i].path in source
        && source[specs[i].path].File? :: specs[i].path := source[specs[i].path]
  }

  function StagedPackage(env: Env, m: Manifest, raw: Bytes, source: Tree): Package {
    Package(Some(raw), Staged(m.specs, source), false,
      Some(Provenance(true, Some(m.id), Some(m.version), Some(env.sha(raw)))))
  }

  // install_manifest; `copies` says whether the copies succeed. A package whose
  // activation fails stays installed.
  function Install(env: Env, store: Store, raw: Option<Bytes>, source: Tree, copies: bool, writes: Writes): Outcome {
    match ManifestData(env, raw)
    case None => Outcome(store, Some(BadManifest))
    case Some(m) =>
      if !VerifyManifest(env, raw, source).ready then Outcome(store, Some(NotVerified))
      else
        var key := (m.id, m.version);
        if key in store.packages then
          if store.packages[key].LinkedDirectory? then Outcome(store, Some(BadPackagePath))
          else
            var existing := InstalledReport(env, store.packages[key]);
            if existing.ready && existing.identity.Some? && existing.identity.value.digest == env.sha(raw.value)
            then ActivateWith(store, existing.identity.value, writes) else Outcome(store, Some(AlreadyExists))
        else if !copies then Outcome(store, Some(CopyFailed))
        else
          var package := StagedPackage(env, m, raw.value, source);
          if !VerifyManifest(env, package.manifest, package.bridge).ready then Outcome(store, Some(NotVerified))
          else
            ActivateWith(
              store.(packages := store.packages[key := package]), IdentityOf(env, m, raw.value), writes)
  }

  // The first entry of the history that can be made current.
  function FindTarget(env: Env, store: Store, entries: seq<Pointer>, current: Option<Pointer>): Option<Pointer> {
    if entries == [] then None
    else
      var p := entries[0];
      var candidate := VerifyInstalled(env, store, p.id, p.version);
      if Some(p) != current && candidate.ready && candidate.identity.Some?
          && candidate.identity.value.digest == p.digest
      then candidate.identity
      else FindTarget(env, store, entries[1..], current)
  }

  // rollback, to a named package or to the latest of the history
  function Rollback(env: Env, store: Store, named: Option<(string, string)>, writes: Writes): Outcome {
    var current := CurrentPackage(env, store);
    if current.None? || !current.value.ready then Outcome(store, Some(NoActivePackage))
    else match named
      case Some((id, version)) =>
        var candidate := VerifyInstalled(env, store, id, version);
        if candidate.ready && candidate.identity.Some? then ActivateWith(store, candidate.identity.value, writes)
        else Outcome(store, Some(NotReady))
      case None =>
        match FindTarget(env, store, HistoryEntries(store.history), current.value.identity)
        case None => Outcome(store, Some(NoTarget))
        case Some(p) => ActivateWith(store, p, writes)
  }

  // --- The invariant --------------------------------------------------------

  // SHA-256 in lower-case hexadecimal
  ghost predicate HexDigests(env: Env) {
    forall b :: IsDigest(env.sha(b))
  }

  // An installed package has the manifest and the provenance of its own path.
  ghost predicate NamesItself(env: Env, package: Package, id: string, version: string) {
    && package.Package? && ManifestData(env, package.manifest).Some?
    && (var m := ManifestData(env, package.manifest).value;
        && m.id == id && m.version == version
        && Certifies(package.provenance, IdentityOf(env, m, package.manifest.value)))
  }

  // A valid pointer to an installed package with the manifest it names.
  ghost predicate Points(env: Env, store: Store, p: Pointer) {
    && ValidPointer(RawOf(p)) == Some(p)
    && (p.id, p.version) in store.packages
    && NamesItself(env, store.packages[(p.id, p.version)], p.id, p.version)
    && env.sha(store.packages[(p.id, p.version)].manifest.value) == p.digest
  }

  ghost predicate DistinctPointers(ps: seq<Pointer>) {
    forall i, j :: 0 <= i < j < |ps| ==> ps[i] != ps[j]
  }

  ghost predicate Sound(env: Env, store: Store, entries: seq<Pointer>) {
    && (forall key {:trigger store.packages[key]} :: key in store.packages ==>
        NamesItself(env, store.packages[key], key.0, key.1))
    && store.history == RawsOf(entries)
    && |entries| <= LIMIT && DistinctPointers(entries)
    && (forall i :: 0 <= i < |entries| ==> Points(env, store, entries[i]))
    && (match store.current
        case None => entries == []
        case Some(raw) =>
          && ValidPointer(raw).Some? && raw == RawOf(ValidPointer(raw).value)
          && Points(env, store, ValidPointer(raw).value))
  }

  // The history is headed by another package than the current one.
  predicate HeadApart(store: Store, entries: seq<Pointer>) {
    entries != [] ==> CurrentPointer(store) != Some(entries[0])
  }

  // The current package, if there is one, passes its check.
  predicate CurrentReady(env: Env, store: Store) {
    store.current.Some? ==> CurrentPackage(env, store).Some? && CurrentPackage(env, store).value.ready
  }
}
