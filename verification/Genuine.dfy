// What the checks of the runtime store mean for the bytes of a package: every
// listed artifact is a regular file of the listed size and digest, and nothing
// else is installed, made current or rolled back to.
module Genuine {
  import opened Wrappers
  import opened Words
  import opened Runtime
  import opened RuntimeRuns

  // --- The bytes ------------------------------------------------------------

  // A regular file of this size and digest stands there.
  ghost predicate Genuine(env: Env, spec: Spec, tree: Tree) {
    exists contents: Bytes ::
      && spec.path in tree && tree[spec.path] == File(contents)
      && |contents| == spec.size && env.sha(contents) == spec.digest
  }

  // A letter or digit, and then letters, digits and a few marks.
  ghost predicate PlainName(s: string) {
    && s != "" && s[0] !in {'.', '_', '+', '-'}
    && forall c :: c in s ==> 'a' <= c <= 'z' || 'A' <= c <= 'Z' || '0' <= c <= '9' || c in {'.', '_', '+', '-'}
  }

  ghost predicate Hexadecimal(s: string) {
    |s| == 64 && forall c :: c in s ==> '0' <= c <= '9' || 'a' <= c <= 'f'
  }

  ghost predicate ListsPath(specs: seq<Spec>, path: string) {
    exists spec :: spec in specs && spec.path == path
  }

  // A manifest the tool accepts.
  ghost predicate Acceptable(m: Manifest) {
    && PlainName(m.id) && PlainName(m.version)
    && (forall i, j :: 0 <= i < j < |m.specs| ==> m.specs[i].path != m.specs[j].path)
    && (forall spec :: spec in m.specs ==> Hexadecimal(spec.digest))
    && ListsPath(m.specs, "x86_64-unix/lsteamclient.so") && ListsPath(m.specs, "i386-windows/lsteamclient.dll")
    && ListsPath(m.specs, "x86_64-windows/lsteamclient.dll") && ListsPath(m.specs, "x86_64-windows/steamclient64.dll")
  }

  // The bytes read as an acceptable manifest of these artifacts, all genuine.
  ghost predicate Vouched(env: Env, raw: Option<Bytes>, m: Manifest, tree: Tree) {
    && raw.Some? && env.parse(raw.value) == Some(m) && Acceptable(m)
    && forall spec :: spec in m.specs ==> Genuine(env, spec, tree)
  }

  lemma {:induction false} NameExactly(s: string)
    ensures SafeName(s) <==> PlainName(s)
  {
    if PlainName(s) {
      forall i | 0 < i < |s| ensures Alphanumeric(s[i]) || s[i] in {'.', '_', '+', '-'} { assert s[i] in s; }
      assert s[0] in s;
    }
    if SafeName(s) {
      forall c | c in s ensures Alphanumeric(c) || c in {'.', '_', '+', '-'} {
        var i :| 0 <= i < |s| && s[i] == c;
      }
    }
  }

  lemma {:induction false} DigestExactly(s: string)
    ensures IsDigest(s) <==> Hexadecimal(s)
  {
    if Hexadecimal(s) {
      forall i | 0 <= i < |s| ensures '0' <= s[i] <= '9' || 'a' <= s[i] <= 'f' { assert s[i] in s; }
    }
  }

  lemma {:induction false} ListedExactly(specs: seq<Spec>, path: string)
    ensures (exists i :: 0 <= i < |specs| && specs[i].path == path) <==> ListsPath(specs, path)
  {
    if ListsPath(specs, path) {
      var spec :| spec in specs && spec.path == path;
      var i :| 0 <= i < |specs| && specs[i] == spec;
    }
    if i :| 0 <= i < |specs| && specs[i].path == path {
      assert specs[i] in specs;
    }
  }

  lemma {:induction false} AcceptableExactly(m: Manifest)
    ensures ValidManifest(m) <==> Acceptable(m)
  {
    hide SafeName, PlainName, IsDigest, Hexadecimal, ListsPath;
    NameExactly(m.id);
    NameExactly(m.version);
    forall i | 0 <= i < |m.specs| ensures IsDigest(m.specs[i].digest) <==> Hexadecimal(m.specs[i].digest) {
      DigestExactly(m.specs[i].digest);
    }
    assert (forall i :: 0 <= i < |m.specs| ==> Hexadecimal(m.specs[i].digest))
      <==> (forall spec :: spec in m.specs ==> Hexadecimal(spec.digest));
    forall path | path in REQUIRED
      ensures (exists i :: 0 <= i < |m.specs| && m.specs[i].path == path) <==> ListsPath(m.specs, path)
    {
      ListedExactly(m.specs, path);
    }
  }

  lemma {:induction false} MatchExactly(env: Env, specs: seq<Spec>, tree: Tree)
    ensures AllMatch(env, specs, tree) <==> forall spec :: spec in specs ==> Genuine(env, spec, tree)
  {
    forall i | 0 <= i < |specs| ensures Matches(env, specs[i], tree) <==> Genuine(env, specs[i], tree) {
      if Matches(env, specs[i], tree) {
        assert tree[specs[i].path] == File(tree[specs[i].path].contents);
      }
    }
    if forall spec :: spec in specs ==> Genuine(env, spec, tree) {
      forall i | 0 <= i < |specs| ensures Matches(env, specs[i], tree) { assert specs[i] in specs; }
    }
  }

  // A verification is ready if and only if the manifest is acceptable and every
  // artifact is genuine.
  lemma {:induction false} VerifiesExactly(env: Env, raw: Option<Bytes>, tree: Tree)
    ensures var r := VerifyManifest(env, raw, tree);
            && (r.ready <==> exists m :: Vouched(env, raw, m, tree))
            && (forall m :: raw.Some? && env.parse(raw.value) == Some(m) && Acceptable(m) ==>
                  r.identity == Some(Pointer(m.id, m.version, env.sha(raw.value))))
            && (r.identity.Some? ==> raw.Some? && env.parse(raw.value).Some? && Acceptable(env.parse(raw.value).value))
  {
    hide ValidManifest, Acceptable, AllMatch, Genuine;
    if raw.Some? && env.parse(raw.value).Some? {
      var m := env.parse(raw.value).value;
      AcceptableExactly(m);
      MatchExactly(env, m.specs, tree);
      assert Vouched(env, raw, m, tree) <==> VerifyManifest(env, raw, tree).ready;
    }
  }

  // --- Installed packages ---------------------------------------------------

  // A package in place, genuine in every artifact of its manifest, with a
  // provenance that names that very manifest.
  ghost predicate Sealed(env: Env, package: Package, m: Manifest) {
    && package.Package? && !package.bridgeLinked && Vouched(env, package.manifest, m, package.bridge)
    && package.provenance
       == Some(Provenance(true, Some(m.id), Some(m.version), Some(env.sha(package.manifest.value))))
  }

  lemma {:induction false} ReportExactly(env: Env, package: Package)
    requires package.Package?
    ensures InstalledReport(env, package).ready <==> exists m :: Sealed(env, package, m)
    ensures forall m :: Sealed(env, package, m) ==>
              InstalledReport(env, package)
              == Report(true, Some(Pointer(m.id, m.version, env.sha(package.manifest.value))))
  {
    hide VerifyManifest, Acceptable, Genuine;
    VerifiesExactly(env, package.manifest, package.bridge);
    if InstalledReport(env, package).ready {
      var m :| Vouched(env, package.manifest, m, package.bridge);
      assert Sealed(env, package, m);
    }
    if m :| Sealed(env, package, m) {
      assert Vouched(env, package.manifest, m, package.bridge);
    }
  }

  // A sealed package is there under plain names.
  ghost predicate Installed(env: Env, store: Store, id: string, version: string, m: Manifest) {
    && PlainName(id) && PlainName(version) && (id, version) in store.packages
    && Sealed(env, store.packages[(id, version)], m)
  }

  ghost function Naming(env: Env, store: Store, id: string, version: string, m: Manifest): Pointer
    requires Installed(env, store, id, version, m)
  {
    Pointer(m.id, m.version, env.sha(store.packages[(id, version)].manifest.value))
  }

  // A named package is ready if and only if it is installed like that.
  lemma {:induction false} InstalledExactly(env: Env, store: Store, id: string, version: string)
    ensures VerifyInstalled(env, store, id, version).ready <==> exists m :: Installed(env, store, id, version, m)
    ensures forall m :: Installed(env, store, id, version, m) ==>
              VerifyInstalled(env, store, id, version) == Report(true, Some(Naming(env, store, id, version, m)))
  {
    hide SafeName, PlainName, InstalledReport, Vouched;
    NameExactly(id);
    NameExactly(version);
    if (id, version) in store.packages && store.packages[(id, version)].Package? {
      ReportExactly(env, store.packages[(id, version)]);
      if PlainName(id) && PlainName(version) && VerifyInstalled(env, store, id, version).ready {
        var m :| Sealed(env, store.packages[(id, version)], m);
        assert Installed(env, store, id, version, m);
      }
    }
  }

  // The pointer file names a sealed package and its very manifest.
  ghost predicate Current(env: Env, store: Store, id: string, version: string, m: Manifest) {
    && Installed(env, store, id, version, m)
    && (var digest := env.sha(store.packages[(id, version)].manifest.value);
        Hexadecimal(digest) && store.current == Some(Raw(true, Some(id), Some(version), Some(digest))))
  }

  // The current package is ready if and only if that is so.
  lemma {:induction false} CurrentExactly(env: Env, store: Store)
    ensures CurrentPackage(env, store).Some? && CurrentPackage(env, store).value.ready <==>
              exists id, version, m :: Current(env, store, id, version, m)
  {
    hide PlainName, Hexadecimal, IsDigest, VerifyInstalled, Sealed;
    if store.current.Some? && store.current.value.id.Some? && store.current.value.version.Some? {
      var id, version := store.current.value.id.value, store.current.value.version.value;
      InstalledExactly(env, store, id, version);
      if store.current.value.digest.Some? { DigestExactly(store.current.value.digest.value); }
      if CurrentPackage(env, store).value.ready {
        var m :| Installed(env, store, id, version, m);
        assert Current(env, store, id, version, m);
      }
    }
  }

  // --- The commands ---------------------------------------------------------

  // The writes an activation of this package needs.
  ghost predicate Written(store: Store, p: Pointer, writes: Writes) {
    writes.pointer && (CurrentPointer(store).Some? && CurrentPointer(store) != Some(p) ==> writes.history)
  }

  lemma {:induction false} ActivatesExactly(store: Store, p: Pointer, writes: Writes)
    ensures ActivateWith(store, p, writes).problem.None? <==> Written(store, p, writes)
    ensures ActivateWith(store, p, writes).problem.None? ==>
              ActivateWith(store, p, writes).store.current == Some(RawOf(p))
    ensures ActivateWith(store, p, writes).store.packages == store.packages
  {
    hide ValidPointer, HistoryEntries, Cut, Without;
  }

  // The package that an install of this manifest would make current: the one
  // there is, if it is sealed with the very manifest, or else a new one.
  ghost predicate CanInstall(env: Env, store: Store, raw: Bytes, m: Manifest, copies: bool) {
    if (m.id, m.version) in store.packages
    then exists m' :: Sealed(env, store.packages[(m.id, m.version)], m')
                      && env.sha(store.packages[(m.id, m.version)].manifest.value) == env.sha(raw)
    else copies
  }

  // An install succeeds if and only if the manifest is acceptable, every artifact
  // of the source is genuine, what is installed under its name is the same, the
  // copies succeed where there is nothing, and the pointer can be written.
  lemma {:induction false} InstallsExactly(
    env: Env, store: Store, entries: seq<Pointer>, raw: Option<Bytes>, source: Tree, copies: bool, writes: Writes)
    requires HexDigests(env) && Sound(env, store, entries)
    ensures Install(env, store, raw, source, copies, writes).problem.None? <==>
              exists m ::
                && Vouched(env, raw, m, source) && CanInstall(env, store, raw.value, m, copies)
                && Written(store, Pointer(m.id, m.version, env.sha(raw.value)), writes)
  {
    hide ManifestData, VerifyManifest, Vouched, Sealed, Acceptable, InstalledReport, ActivateWith, Sound, Written,
      StagedPackage, CanInstall;
    VerifiesExactly(env, raw, source);
    if ManifestData(env, raw).Some? && VerifyManifest(env, raw, source).ready {
      var m := ManifestData(env, raw).value;
      VouchedManifest(env, raw, source, m);
      InstallsManifest(env, store, entries, raw.value, m, source, copies, writes);
    }
    if VerifyManifest(env, raw, source).ready { ReadyHasManifest(env, raw, source); }
  }

  lemma {:induction false} ReadyHasManifest(env: Env, raw: Option<Bytes>, tree: Tree)
    requires VerifyManifest(env, raw, tree).ready
    ensures ManifestData(env, raw).Some?
  {
    hide ManifestData, AllMatch;
  }

  lemma {:induction false} VouchedManifest(env: Env, raw: Option<Bytes>, tree: Tree, m: Manifest)
    requires VerifyManifest(env, raw, tree).ready && ManifestData(env, raw) == Some(m)
    ensures raw.Some? && forall m' :: Vouched(env, raw, m', tree) <==> m' == m
    ensures IdentityOf(env, m, raw.value) == Pointer(m.id, m.version, env.sha(raw.value))
  {
    hide VerifyManifest, Acceptable, Genuine, ValidManifest;
    VerifiesExactly(env, raw, tree);
  }

  // What is sealed under its own name is identified by that name.
  lemma {:induction false} SealedOwn(
    env: Env, store: Store, entries: seq<Pointer>, id: string, version: string, m: Manifest)
    requires Sound(env, store, entries) && (id, version) in store.packages
    requires Sealed(env, store.packages[(id, version)], m)
    ensures m.id == id && m.version == version
  {
    hide Points, DistinctPointers, ValidManifest, Acceptable, Genuine;
    assert NamesItself(env, store.packages[(id, version)], id, version);
  }

  lemma {:induction false} InstallsManifest(
    env: Env, store: Store, entries: seq<Pointer>, raw: Bytes, m: Manifest, source: Tree, copies: bool, writes: Writes)
    requires Sound(env, store, entries)
    requires ManifestData(env, Some(raw)) == Some(m) && VerifyManifest(env, Some(raw), source).ready
    ensures var p := Pointer(m.id, m.version, env.sha(raw));
            var out := Install(env, store, Some(raw), source, copies, writes);
            && (out.problem.None? <==> CanInstall(env, store, raw, m, copies) && Written(store, p, writes))
            && (out.problem.None? ==> out.store.current == Some(RawOf(p)))
  {
    hide ManifestData, VerifyManifest, Vouched, InstalledReport, ActivateWith, Sound, Written, Sealed, StagedPackage;
    var key, p := (m.id, m.version), Pointer(m.id, m.version, env.sha(raw));
    if key in store.packages {
      if store.packages[key].Package? {
        ReportExactly(env, store.packages[key]);
        if m' :| Sealed(env, store.packages[key], m') {
          SealedOwn(env, store, entries, m.id, m.version, m');
          ActivatesExactly(store, p, writes);
        }
      } else {
        NotSealed(env, store.packages[key]);
      }
    } else if copies {
      StagedVerifies(env, raw, source);
      StagedIsPackage(env, m, raw, source);
      var added := store.(packages := store.packages[key := StagedPackage(env, m, raw, source)]);
      ActivatesExactly(added, p, writes);
      SameWritten(store, added, p, writes);
    }
  }

  lemma {:induction false} NotSealed(env: Env, package: Package)
    requires !package.Package?
    ensures forall m :: !Sealed(env, package, m)
  {
  }

  lemma {:induction false} SameWritten(store: Store, store': Store, p: Pointer, writes: Writes)
    requires store'.current == store.current
    ensures Written(store', p, writes) <==> Written(store, p, writes)
  {
  }

  // Then the current package is sealed, under the manifest that was installed.
  lemma {:induction false} InstallsGenuine(
    env: Env, store: Store, entries: seq<Pointer>, raw: Option<Bytes>, source: Tree, copies: bool, writes: Writes)
    returns (m: Manifest, m': Manifest)
    requires HexDigests(env) && Sound(env, store, entries)
    requires Install(env, store, raw, source, copies, writes).problem.None?
    ensures var store' := Install(env, store, raw, source, copies, writes).store;
            && Vouched(env, raw, m, source) && Current(env, store', m.id, m.version, m')
            && env.sha(store'.packages[(m.id, m.version)].manifest.value) == env.sha(raw.value)
  {
    hide ManifestData, VerifyManifest, Vouched, Sealed, PlainName, Sound, Install, CurrentPackage, Written, CanInstall,
      HexDigests, Hexadecimal;
    var store' := Install(env, store, raw, source, copies, writes).store;
    HasManifest(env, store, raw, source, copies, writes);
    InstallsExactly(env, store, entries, raw, source, copies, writes);
    m :| Vouched(env, raw, m, source) && CanInstall(env, store, raw.value, m, copies)
         && Written(store, Pointer(m.id, m.version, env.sha(raw.value)), writes);
    VouchedReady(env, raw, source, m);
    InstallsManifest(env, store, entries, raw.value, m, source, copies, writes);
    var _ := InstallSound(env, store, entries, raw, source, copies, writes);
    CurrentExactly(env, store');
    var id, version, n :| Current(env, store', id, version, n);
    m' := n;
  }

  lemma {:induction false} HasManifest(
    env: Env, store: Store, raw: Option<Bytes>, source: Tree, copies: bool, writes: Writes)
    requires Install(env, store, raw, source, copies, writes).problem.None?
    ensures raw.Some?
  {
    hide VerifyManifest, InstalledReport, ActivateWith;
  }

  lemma {:induction false} VouchedReady(env: Env, raw: Option<Bytes>, tree: Tree, m: Manifest)
    requires Vouched(env, raw, m, tree)
    ensures VerifyManifest(env, raw, tree).ready && ManifestData(env, raw) == Some(m)
  {
    hide VerifyManifest, Acceptable, Genuine, ValidManifest;
    VerifiesExactly(env, raw, tree);
    AcceptableExactly(m);
  }

  // A new package holds the listed artifacts of the source and nothing else.
  lemma {:induction false} StagesExactly(m: Manifest, source: Tree, env: Env, raw: Bytes)
    requires Vouched(env, Some(raw), m, source)
    ensures var bridge := StagedPackage(env, m, raw, source).bridge;
            forall path :: Lookup(bridge, path) == if ListsPath(m.specs, path) then Lookup(source, path) else None
  {
    hide Acceptable;
    var bridge := Staged(m.specs, source);
    forall path ensures Lookup(bridge, path) == if ListsPath(m.specs, path) then Lookup(source, path) else None {
      ListedExactly(m.specs, path);
      if i :| 0 <= i < |m.specs| && m.specs[i].path == path {
        assert Genuine(env, m.specs[i], source);
      }
    }
  }

  // --- Damage ---------------------------------------------------------------

  // One artifact that is not genuine any more, and the package is not ready: a
  // rollback to it by name is refused, a default one does not choose it, and
  // while it is current no rollback succeeds at all.
  lemma {:induction false} DamageRefused(
    env: Env, store: Store, entries: seq<Pointer>, key: (string, string), bridge: Tree, linked: bool, m: Manifest,
    spec: Spec, writes: Writes)
    requires HexDigests(env) && Sound(env, store, entries)
    requires key in store.packages && store.packages[key].Package? && store.packages[key].manifest.Some?
    requires env.parse(store.packages[key].manifest.value) == Some(m) && spec in m.specs && !Genuine(env, spec, bridge)
    ensures var store' := Next(env, store, Damage(key, bridge, linked));
            && !VerifyInstalled(env, store', key.0, key.1).ready
            && Rollback(env, store', Some(key), writes).problem.Some?
            && (var out := Rollback(env, store', None, writes);
                out.problem.None? ==>
                  forall digest :: out.store.current != Some(Raw(true, Some(key.0), Some(key.1), digest)))
            && (store.current.Some? && store.current.value.id == Some(key.0)
                && store.current.value.version == Some(key.1) ==>
                  forall named :: Rollback(env, store', named, writes).problem.Some?)
  {
    hide VerifyInstalled, Sound, ActivateWith, FindTarget, Genuine, Acceptable, PlainName, Next, HexDigests;
    var store' := Next(env, store, Damage(key, bridge, linked));
    Damaged(env, store, key, bridge, linked, m, spec);
    InstalledExactly(env, store', key.0, key.1);
    DamageSound(env, store, entries, key, bridge, linked);
    SoundHistory(env, store', entries);
    var out := Rollback(env, store', None, writes);
    if out.problem.None? {
      var current := CurrentPackage(env, store').value.identity;
      TargetReady(env, store', entries, entries, current);
      var p := FindTarget(env, store', entries, current).value;
      ActivatesExactly(store', p, writes);
    }
  }

  lemma {:induction false} Damaged(
    env: Env, store: Store, key: (string, string), bridge: Tree, linked: bool, m: Manifest, spec: Spec)
    requires key in store.packages && store.packages[key].Package? && store.packages[key].manifest.Some?
    requires env.parse(store.packages[key].manifest.value) == Some(m) && spec in m.specs && !Genuine(env, spec, bridge)
    ensures var store' := Next(env, store, Damage(key, bridge, linked));
            && store'.current == store.current && forall n :: !Installed(env, store', key.0, key.1, n)
  {
    hide Genuine, Acceptable, PlainName;
  }

  // --- Rolling back ---------------------------------------------------------

  // A package of the history that is not current, and is still what it was.
  ghost predicate Target(env: Env, store: Store, p: Pointer) {
    && Some(p) != CurrentPointer(store)
    && exists m ::
         Installed(env, store, p.id, p.version, m) && Naming(env, store, p.id, p.version, m).digest == p.digest
  }

  lemma {:induction false} FindsExactly(
    env: Env, store: Store, history: seq<Pointer>, entries: seq<Pointer>)
    requires HexDigests(env) && Sound(env, store, history)
    ensures match FindTarget(env, store, entries, CurrentPointer(store))
            case None => forall i :: 0 <= i < |entries| ==> !Target(env, store, entries[i])
            case Some(p) =>
              exists i ::
                && 0 <= i < |entries| && entries[i] == p && Target(env, store, p)
                && forall j :: 0 <= j < i ==> !Target(env, store, entries[j])
  {
    hide VerifyInstalled, Sound, CurrentPointer, Sealed, PlainName;
    if entries != [] {
      var p := entries[0];
      InstalledExactly(env, store, p.id, p.version);
      if FindTarget(env, store, entries, CurrentPointer(store)).Some? {
        TargetReady(env, store, history, entries, CurrentPointer(store));
      }
      if !Target(env, store, p) {
        FindsExactly(env, store, history, entries[1..]);
        assert FindTarget(env, store, entries, CurrentPointer(store))
            == FindTarget(env, store, entries[1..], CurrentPointer(store));
        forall i | 1 <= i < |entries| ensures entries[i] == entries[1..][i - 1] { }
        if FindTarget(env, store, entries, CurrentPointer(store)).Some? {
          var q := FindTarget(env, store, entries, CurrentPointer(store)).value;
          var i :| && 0 <= i < |entries[1..]| && entries[1..][i] == q && Target(env, store, q)
                   && forall j :: 0 <= j < i ==> !Target(env, store, entries[1..][j]);
          assert entries[i + 1] == q;
        }
      } else {
        var m :|
          Installed(env, store, p.id, p.version, m) && Naming(env, store, p.id, p.version, m).digest == p.digest;
        SealedOwn(env, store, history, p.id, p.version, m);
        assert Naming(env, store, p.id, p.version, m) == p;
        assert FindTarget(env, store, entries, CurrentPointer(store)) == Some(p);
      }
    }
  }

  // A rollback succeeds if and only if the current package is ready, the named
  // package or else some target of the history is, and the writes succeed. A
  // default one then makes the latest target current.
  lemma {:induction false} RollsBackExactly(
    env: Env, store: Store, entries: seq<Pointer>, named: Option<(string, string)>, writes: Writes)
    requires HexDigests(env) && Sound(env, store, entries)
    ensures Rollback(env, store, named, writes).problem.None? <==>
              && (exists id, version, m :: Current(env, store, id, version, m))
              && match named
                 case Some((id, version)) =>
                   exists m :: Installed(env, store, id, version, m)
                               && Written(store, Naming(env, store, id, version, m), writes)
                 case None =>
                   writes.history && writes.pointer
                   && exists i :: 0 <= i < |entries| && Target(env, store, entries[i])
    ensures Rollback(env, store, None, writes).problem.None? ==>
              exists i ::
                && 0 <= i < |entries| && Target(env, store, entries[i])
                && (forall j :: 0 <= j < i ==> !Target(env, store, entries[j]))
                && Rollback(env, store, None, writes).store.current == Some(RawOf(entries[i]))
  {
    hide VerifyInstalled, Sound, ActivateWith, FindTarget, CurrentPackage, Current, Installed, Target, HexDigests,
      CurrentPointer;
    CurrentExactly(env, store);
    if CurrentPackage(env, store).Some? && CurrentPackage(env, store).value.ready {
      ReadyCurrentPointer(env, store, entries);
      SoundHistory(env, store, entries);
      FindsExactly(env, store, entries, entries);
      if FindTarget(env, store, entries, CurrentPointer(store)).Some? {
        var p := FindTarget(env, store, entries, CurrentPointer(store)).value;
        TargetReady(env, store, entries, entries, CurrentPointer(store));
        ActivatesExactly(store, p, writes);
      }
      if named.Some? {
        var (id, version) := named.value;
        InstalledExactly(env, store, id, version);
        if m :| Installed(env, store, id, version, m) {
          ActivatesExactly(store, Naming(env, store, id, version, m), writes);
        }
      }
    }
  }

  // Without damage, whatever the commands and failing writes, the current package
  // is genuine in every artifact.
  lemma {:induction false} AlwaysGenuine(env: Env, actions: seq<Action>)
    requires HexDigests(env) && forall a :: a in actions ==> !a.Damage?
    ensures var store := Run(env, Store(map[], None, []), actions);
            store.current.Some? ==> exists id, version, m :: Current(env, store, id, version, m)
  {
    hide Run, HexDigests, CurrentPackage, Current, Sound;
    var _ := EveryRun(env, actions, []);
    CurrentExactly(env, Run(env, Store(map[], None, []), actions));
  }

  // --- The history ----------------------------------------------------------

  function Sixteen(ps: seq<Pointer>): seq<Pointer> {
    if |ps| <= 16 then ps else ps[..16]
  }

  lemma {:induction false} WithoutParts(ps: seq<Pointer>, p: Pointer)
    returns (before: seq<Pointer>, after: seq<Pointer>)
    requires DistinctPointers(ps)
    ensures ps == before + (if p in ps then [p] else []) + after && Without(ps, p) == before + after
  {
    before, after := [], [];
    if ps != [] {
      assert DistinctPointers(ps[1..]);
      if ps[0] == p {
        after := ps[1..];
        WithoutNothing(ps[1..], p);
      } else {
        before, after := WithoutParts(ps[1..], p);
        before := [ps[0]] + before;
      }
    }
  }

  lemma {:induction false} WithoutNothing(ps: seq<Pointer>, p: Pointer)
    requires p !in ps
    ensures Without(ps, p) == ps
  {
    if ps != [] {
      WithoutNothing(ps[1..], p);
    }
  }

  // A pointer is valid if and only if it has the schema, plain names and a
  // hexadecimal digest.
  lemma {:induction false} PointerExactly(raw: Raw)
    ensures match ValidPointer(raw)
            case Some(p) =>
              raw == Raw(true, Some(p.id), Some(p.version), Some(p.digest)) && PlainName(p.id) && PlainName(p.version)
              && Hexadecimal(p.digest)
            case None =>
              !exists p: Pointer ::
                 && raw == Raw(true, Some(p.id), Some(p.version), Some(p.digest)) && PlainName(p.id)
                 && PlainName(p.version) && Hexadecimal(p.digest)
  {
    hide SafeName, PlainName, IsDigest, Hexadecimal;
    if raw.id.Some? { NameExactly(raw.id.value); }
    if raw.version.Some? { NameExactly(raw.version.value); }
    if raw.digest.Some? { DigestExactly(raw.digest.value); }
  }

  // The history is read entry by entry: each valid one counts, whatever stands
  // before and after it.
  lemma {:induction false} EntriesExactly(before: seq<Raw>, raw: Raw, after: seq<Raw>)
    ensures HistoryEntries([]) == []
    ensures HistoryEntries(before + [raw] + after)
         == HistoryEntries(before) + (match ValidPointer(raw) case Some(p) => [p] case None => [])
            + HistoryEntries(after)
    decreases before
  {
    hide ValidPointer;
    var all := before + [raw] + after;
    if before == [] {
      assert all[0] == raw && all[1..] == after;
    } else {
      assert all[0] == before[0] && all[1..] == before[1..] + [raw] + after;
      EntriesExactly(before[1..], raw, after);
    }
  }

  // Making another package current puts the old one before the others, which keep
  // their order, and keeps sixteen in all.
  lemma {:induction false} HistoryExactly(env: Env, store: Store, entries: seq<Pointer>, p: Pointer)
    returns (before: seq<Pointer>, after: seq<Pointer>)
    requires Sound(env, store, entries) && Points(env, store, p)
    requires CurrentPointer(store).Some? && CurrentPointer(store) != Some(p)
    ensures var was := CurrentPointer(store).value;
            && entries == before + (if was in entries then [was] else []) + after
            && HistoryEntries(Activate(store, p).history) == Sixteen([was] + before + after)
  {
    hide Points, NamesItself, Activate, ValidPointer;
    var was := CurrentPointer(store).value;
    before, after := WithoutParts(entries, was);
    ActivateSound(env, store, entries, p);
    SoundHistory(env, Activate(store, p), NextEntries(store, entries, p));
    assert [was] + before + after == [was] + (before + after);
  }
}
