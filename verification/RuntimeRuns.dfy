// The promises of the runtime package store: what is staged stays verified,
// pointers name what is installed over every run, and a rollback undoes a
// rollback.
module RuntimeRuns {
  import opened Wrappers
  import opened Words
  import opened Runtime

  // --- Verified copies ------------------------------------------------------

  // A copy of a tree that passes verification passes it too, and the package
  // around it passes the stricter check of installed packages.
  lemma {:induction false} StagedVerifies(env: Env, raw: Bytes, source: Tree)
    requires VerifyManifest(env, Some(raw), source).ready
    ensures ManifestData(env, Some(raw)).Some?
    ensures var m := ManifestData(env, Some(raw)).value;
            var package := StagedPackage(env, m, raw, source);
            && VerifyManifest(env, Some(raw), package.bridge).ready
            && InstalledReport(env, package) == Report(true, Some(IdentityOf(env, m, raw)))
            && NamesItself(env, package, m.id, m.version)
  {
  }

  // --- Histories ------------------------------------------------------------

  lemma {:induction false} EntriesOfRaws(ps: seq<Pointer>)
    requires forall i :: 0 <= i < |ps| ==> ValidPointer(RawOf(ps[i])) == Some(ps[i])
    ensures HistoryEntries(RawsOf(ps)) == ps
  {
    if ps != [] {
      assert RawsOf(ps)[1..] == RawsOf(ps[1..]);
      EntriesOfRaws(ps[1..]);
    }
  }

  lemma {:induction false} WithoutKeeps(ps: seq<Pointer>, p: Pointer)
    ensures forall q :: q in Without(ps, p) <==> q in ps && q != p
    ensures DistinctPointers(ps) ==> DistinctPointers(Without(ps, p))
    ensures |Without(ps, p)| <= |ps|
  {
    if ps != [] {
      WithoutKeeps(ps[1..], p);
      var rest := Without(ps[1..], p);
      assert ps == [ps[0]] + ps[1..];
      if DistinctPointers(ps) {
        forall i | 0 <= i < |rest| ensures rest[i] != ps[0] {
          assert rest[i] in ps[1..];
          var j :| 0 <= j < |ps[1..]| && ps[1..][j] == rest[i];
          assert ps[j + 1] == rest[i];
        }
        assert DistinctPointers(ps[1..]);
      }
    }
  }

  // The history after an activation.
  function NextEntries(store: Store, entries: seq<Pointer>, p: Pointer): seq<Pointer> {
    match CurrentPointer(store)
    case None => entries
    case Some(was) => if was == p then entries else Cut([was] + Without(entries, was))
  }

  lemma {:induction false} CutKeeps(ps: seq<Pointer>)
    ensures |Cut(ps)| <= LIMIT && Cut(ps) <= ps && (ps != [] ==> Cut(ps) != [] && Cut(ps)[0] == ps[0])
    ensures DistinctPointers(ps) ==> DistinctPointers(Cut(ps))
  {
  }

  lemma {:induction false} PointsAnyway(env: Env, store: Store, store': Store, p: Pointer)
    requires Points(env, store, p) && store'.packages == store.packages
    ensures Points(env, store', p)
  {
  }

  lemma {:induction false} PointsValid(env: Env, store: Store, p: Pointer)
    requires Points(env, store, p)
    ensures ValidPointer(RawOf(p)) == Some(p)
  {
  }

  // What the history file of a sound store reads as.
  lemma {:induction false} SoundHistory(env: Env, store: Store, entries: seq<Pointer>)
    requires Sound(env, store, entries)
    ensures HistoryEntries(store.history) == entries
  {
    hide Points, NamesItself, ValidPointer;
    forall i | 0 <= i < |entries| ensures ValidPointer(RawOf(entries[i])) == Some(entries[i]) {
      PointsValid(env, store, entries[i]);
    }
    EntriesOfRaws(entries);
  }

  lemma {:induction false} NextEntriesGood(env: Env, store: Store, entries: seq<Pointer>, was: Pointer)
    requires |entries| <= LIMIT && DistinctPointers(entries) && Points(env, store, was)
    requires forall i :: 0 <= i < |entries| ==> Points(env, store, entries[i])
    ensures var next := Cut([was] + Without(entries, was));
            && |next| <= LIMIT && DistinctPointers(next) && next != [] && next[0] == was
            && forall i :: 0 <= i < |next| ==> Points(env, store, next[i])
  {
    hide Points, Without;
    var all := [was] + Without(entries, was);
    WithoutKeeps(entries, was);
    forall i | 0 <= i < |all| ensures Points(env, store, all[i]) {
      if i > 0 {
        assert all[i] in Without(entries, was);
        var j :| 0 <= j < |entries| && entries[j] == all[i];
      }
    }
    forall i, j | 0 <= i < j < |all| ensures all[i] != all[j] {
      assert all[j] in Without(entries, was);
      if i > 0 { assert Without(entries, was)[i - 1] != Without(entries, was)[j - 1]; }
    }
    CutKeeps(all);
    forall i | 0 <= i < |Cut(all)| ensures Points(env, store, Cut(all)[i]) { assert Cut(all)[i] == all[i]; }
  }

  // Activating an installed package keeps the store sound.
  lemma {:induction false} ActivateSound(env: Env, store: Store, entries: seq<Pointer>, p: Pointer)
    requires Sound(env, store, entries) && Points(env, store, p)
    ensures Sound(env, Activate(store, p), NextEntries(store, entries, p))
    ensures CurrentPointer(Activate(store, p)) == Some(p)
    ensures Activate(store, p).packages == store.packages
  {
    hide NamesItself, ValidPointer, Points, Without, Cut, DistinctPointers;
    SoundHistory(env, store, entries);
    var store' := Activate(store, p);
    var entries' := NextEntries(store, entries, p);
    if store.current.Some? && CurrentPointer(store).value != p {
      NextEntriesGood(env, store, entries, CurrentPointer(store).value);
    }
    PointsValid(env, store, p);
    PointsAnyway(env, store, store', p);
    forall i | 0 <= i < |entries'| ensures Points(env, store', entries'[i]) {
      PointsAnyway(env, store, store', entries'[i]);
    }
  }

  // The pointer is not written although the history was.
  predicate Interrupts(writes: Writes) {
    writes.history && !writes.pointer
  }

  // An interrupted one does too: the current package is the one before.
  lemma {:induction false} ActivateWithSound(
    env: Env, store: Store, entries: seq<Pointer>, p: Pointer, writes: Writes) returns (entries': seq<Pointer>)
    requires Sound(env, store, entries) && Points(env, store, p)
    ensures var out := ActivateWith(store, p, writes);
            && Sound(env, out.store, entries') && out.store.packages == store.packages
            && (if out.problem.None? then out.store == Activate(store, p) && CurrentPointer(out.store) == Some(p)
                else out.store.current == store.current)
            && (HeadApart(out.store, entries') <==>
                  if out.store == store then HeadApart(store, entries) else out.problem.None?)
  {
    hide NamesItself, ValidPointer, Points, Without, Cut, DistinctPointers;
    var out := ActivateWith(store, p, writes);
    var next := NextEntries(store, entries, p);
    ActivateSound(env, store, entries, p);
    entries' := if out.store.history == store.history then entries else next;
    var whole := Activate(store, p);
    if CurrentPointer(store).Some? {
      CutKeeps([CurrentPointer(store).value] + Without(entries, CurrentPointer(store).value));
    }
    if out.problem.Some? && out.store.history != store.history {
      var was := CurrentPointer(store).value;
      forall i | 0 <= i < |next| ensures Points(env, out.store, next[i]) {
        PointsAnyway(env, whole, out.store, next[i]);
      }
      PointsAnyway(env, store, out.store, was);
    }
  }

  // Cut short between its writes, it leaves the current package at the head.
  lemma {:induction false} InterruptedHead(env: Env, store: Store, entries: seq<Pointer>, p: Pointer)
    returns (entries': seq<Pointer>)
    requires Sound(env, store, entries) && HeadApart(store, entries) && Points(env, store, p)
    requires CurrentPointer(store).Some? && CurrentPointer(store) != Some(p)
    ensures var out := ActivateWith(store, p, Writes(true, false));
            out.store.current == store.current && Sound(env, out.store, entries') && !HeadApart(out.store, entries')
  {
    hide NamesItself, ValidPointer, Points, Without, DistinctPointers;
    var was := CurrentPointer(store).value;
    entries' := ActivateWithSound(env, store, entries, p, Writes(true, false));
    CutKeeps([was] + Without(entries, was));
    assert ActivateWith(store, p, Writes(true, false)).store.history[0] == RawOf(was);
    assert entries != [] ==> store.history[0] == RawOf(entries[0]);
  }

  // --- Every operation ------------------------------------------------------

  lemma {:induction false} ReportIdentity(env: Env, package: Package)
    requires package.Package?
    ensures InstalledReport(env, package).identity
         == match ManifestData(env, package.manifest)
            case None => None
            case Some(m) => Some(IdentityOf(env, m, package.manifest.value))
  {
    hide ManifestData, AllMatch;
  }

  lemma {:induction false} IdentityPoints(env: Env, store: Store, id: string, version: string)
    requires HexDigests(env) && SafeName(id) && SafeName(version)
    requires (id, version) in store.packages && NamesItself(env, store.packages[(id, version)], id, version)
    ensures var package := store.packages[(id, version)];
            Points(env, store, IdentityOf(env, ManifestData(env, package.manifest).value, package.manifest.value))
  {
    hide SafeName, IsDigest;
  }

  // An installed package of a sound store is what its path says.
  lemma {:induction false} ReadyPoints(env: Env, store: Store, entries: seq<Pointer>, id: string, version: string)
    requires HexDigests(env) && Sound(env, store, entries)
    requires VerifyInstalled(env, store, id, version).identity.Some?
    ensures var p := VerifyInstalled(env, store, id, version).identity.value;
            Points(env, store, p) && p.id == id && p.version == version
  {
    hide SafeName, ManifestData, InstalledReport, Points, DistinctPointers, HexDigests;
    var package := store.packages[(id, version)];
    assert NamesItself(env, package, id, version);
    ReportIdentity(env, package);
    IdentityPoints(env, store, id, version);
  }

  lemma {:induction false} AddedSound(
    env: Env, store: Store, entries: seq<Pointer>, key: (string, string), package: Package)
    requires Sound(env, store, entries) && key !in store.packages && NamesItself(env, package, key.0, key.1)
    ensures Sound(env, store.(packages := store.packages[key := package]), entries)
  {
    hide NamesItself, ValidPointer;
    var store' := store.(packages := store.packages[key := package]);
    forall p | Points(env, store, p) ensures Points(env, store', p) {
      assert (p.id, p.version) != key;
    }
  }

  // More packages do not change what is checked of those there are.
  lemma {:induction false} AddedReady(env: Env, store: Store, key: (string, string), package: Package)
    requires CurrentReady(env, store) && key !in store.packages
    ensures CurrentReady(env, store.(packages := store.packages[key := package]))
  {
    hide SafeName, IsDigest, InstalledReport;
  }

  // Whatever an install meets, the store stays sound, no installed package is
  // rewritten, and a ready current package stays ready. One that succeeds
  // leaves a verified package current.
  lemma {:induction false} InstallSound(
    env: Env, store: Store, entries: seq<Pointer>, raw: Option<Bytes>, source: Tree, copies: bool, writes: Writes)
    returns (entries': seq<Pointer>)
    requires HexDigests(env) && Sound(env, store, entries)
    ensures var out := Install(env, store, raw, source, copies, writes);
            && Sound(env, out.store, entries')
            && (forall key :: key in store.packages ==>
                  key in out.store.packages && out.store.packages[key] == store.packages[key])
            && (out.problem.None? ==>
                CurrentPackage(env, out.store).Some? && CurrentPackage(env, out.store).value.ready)
            && (CurrentReady(env, store) ==> CurrentReady(env, out.store))
            && (!Interrupts(writes) && HeadApart(store, entries) ==> HeadApart(out.store, entries'))
  {
    hide NamesItself, SafeName, IsDigest, ValidManifest, AllMatch, Staged, Sound, ActivateWith, HeadApart,
      ValidPointer, ManifestData, VerifyManifest, InstalledReport, Points, StagedPackage, HexDigests, CurrentReady;
    entries' := entries;
    var out := Install(env, store, raw, source, copies, writes);
    if ManifestData(env, raw).Some? && VerifyManifest(env, raw, source).ready {
      var m := ManifestData(env, raw).value;
      var key := (m.id, m.version);
      SafeManifest(env, raw, m);
      if key in store.packages {
        if store.packages[key].Package? {
          var existing := InstalledReport(env, store.packages[key]);
          if existing.ready && existing.identity.Some? && existing.identity.value.digest == env.sha(raw.value) {
            entries' := ActivatedSound(env, store, entries, m.id, m.version, writes);
          }
        }
      } else if copies {
        entries' := AddedActivated(env, store, entries, raw.value, m, source, writes);
      }
    }
  }

  lemma {:induction false} AddedActivated(
    env: Env, store: Store, entries: seq<Pointer>, raw: Bytes, m: Manifest, source: Tree, writes: Writes)
    returns (entries': seq<Pointer>)
    requires HexDigests(env) && Sound(env, store, entries) && SafeName(m.id) && SafeName(m.version)
    requires ManifestData(env, Some(raw)) == Some(m) && VerifyManifest(env, Some(raw), source).ready
    requires (m.id, m.version) !in store.packages
    ensures var package := StagedPackage(env, m, raw, source);
            var added := store.(packages := store.packages[(m.id, m.version) := package]);
            var out := ActivateWith(added, IdentityOf(env, m, raw), writes);
            && VerifyManifest(env, package.manifest, package.bridge).ready
            && Sound(env, out.store, entries') && out.store.packages == added.packages
            && (out.problem.None? ==>
                CurrentPackage(env, out.store).Some? && CurrentPackage(env, out.store).value.ready)
            && (CurrentReady(env, store) ==> CurrentReady(env, out.store))
            && (!Interrupts(writes) && HeadApart(store, entries) ==> HeadApart(out.store, entries'))
  {
    hide NamesItself, SafeName, Sound, ActivateWith, HeadApart, ManifestData, VerifyManifest, InstalledReport,
      Points, StagedPackage, HexDigests, CurrentReady;
    var key, package := (m.id, m.version), StagedPackage(env, m, raw, source);
    var added := store.(packages := store.packages[key := package]);
    StagedVerifies(env, raw, source);
    StagedIsPackage(env, m, raw, source);
    AddedSound(env, store, entries, key, package);
    if CurrentReady(env, store) { AddedReady(env, store, key, package); }
    SameHead(store, added, entries);
    entries' := ActivatedSound(env, added, entries, m.id, m.version, writes);
  }

  lemma {:induction false} StagedIsPackage(env: Env, m: Manifest, raw: Bytes, source: Tree)
    ensures var package := StagedPackage(env, m, raw, source);
            package.Package? && package.manifest == Some(raw)
  {
  }

  lemma {:induction false} SameHead(store: Store, store': Store, entries: seq<Pointer>)
    requires store'.current == store.current
    ensures HeadApart(store', entries) <==> HeadApart(store, entries)
  {
  }

  // Activating a package that its check calls ready.
  lemma {:induction false} ActivatedSound(
    env: Env, store: Store, entries: seq<Pointer>, id: string, version: string, writes: Writes)
    returns (entries': seq<Pointer>)
    requires HexDigests(env) && Sound(env, store, entries)
    requires VerifyInstalled(env, store, id, version).ready && VerifyInstalled(env, store, id, version).identity.Some?
    ensures var p := VerifyInstalled(env, store, id, version).identity.value;
            var out := ActivateWith(store, p, writes);
            && Sound(env, out.store, entries') && out.store.packages == store.packages
            && (out.problem.None? ==>
                  && CurrentPackage(env, out.store) == Some(VerifyInstalled(env, store, id, version))
                  && CurrentPointer(out.store) == Some(p))
            && (CurrentReady(env, store) ==> CurrentReady(env, out.store))
            && (!Interrupts(writes) && HeadApart(store, entries) ==> HeadApart(out.store, entries'))
  {
    hide NamesItself, SafeName, IsDigest, Sound, InstalledReport, Points, HexDigests, HeadApart, Without, Cut;
    var p := VerifyInstalled(env, store, id, version).identity.value;
    ReadyPoints(env, store, entries, id, version);
    PointsValid(env, store, p);
    entries' := ActivateWithSound(env, store, entries, p, writes);
    var out := ActivateWith(store, p, writes);
    SamePackages(env, store, out.store, id, version);
    if out.problem.None? {
      ReadyCurrent(env, out.store, p);
    } else if CurrentReady(env, store) {
      SameCurrent(env, store, out.store);
    }
  }

  lemma {:induction false} SameCurrent(env: Env, store: Store, store': Store)
    requires store'.packages == store.packages && store'.current == store.current
    ensures CurrentPackage(env, store') == CurrentPackage(env, store)
  {
  }

  lemma {:induction false} SafeManifest(env: Env, raw: Option<Bytes>, m: Manifest)
    requires ManifestData(env, raw) == Some(m)
    ensures SafeName(m.id) && SafeName(m.version) && raw.Some?
  {
    hide SafeName;
  }

  lemma {:induction false} ReadyCurrent(env: Env, store: Store, p: Pointer)
    requires store.current == Some(RawOf(p)) && ValidPointer(RawOf(p)) == Some(p)
    requires VerifyInstalled(env, store, p.id, p.version) == Report(true, Some(p))
    ensures CurrentPackage(env, store) == Some(Report(true, Some(p)))
  {
  }

  // FindTarget's answer is an installed package other than the current one.
  lemma {:induction false} TargetReady(
    env: Env, store: Store, history: seq<Pointer>, entries: seq<Pointer>, current: Option<Pointer>)
    requires HexDigests(env) && Sound(env, store, history) && FindTarget(env, store, entries, current).Some?
    ensures var p := FindTarget(env, store, entries, current).value;
            && p in entries && Some(p) != current
            && VerifyInstalled(env, store, p.id, p.version) == Report(true, Some(p))
  {
    hide VerifyInstalled, Sound;
    var candidate := VerifyInstalled(env, store, entries[0].id, entries[0].version);
    if Some(entries[0]) != current && candidate.ready && candidate.identity.Some?
       && candidate.identity.value.digest == entries[0].digest {
      ReadyPoints(env, store, history, entries[0].id, entries[0].version);
      assert candidate.identity.value == entries[0];
    } else {
      TargetReady(env, store, history, entries[1..], current);
    }
  }

  // A rollback does too, and changes no package at all.
  lemma {:induction false} RollbackSound(
    env: Env, store: Store, entries: seq<Pointer>, named: Option<(string, string)>, writes: Writes)
    returns (entries': seq<Pointer>)
    requires HexDigests(env) && Sound(env, store, entries)
    ensures var out := Rollback(env, store, named, writes);
            && Sound(env, out.store, entries') && out.store.packages == store.packages
            && (out.problem.None? ==>
                CurrentPackage(env, out.store).Some? && CurrentPackage(env, out.store).value.ready)
            && (CurrentReady(env, store) ==> CurrentReady(env, out.store))
            && (!Interrupts(writes) && HeadApart(store, entries) ==> HeadApart(out.store, entries'))
  {
    hide Sound, ActivateWith, HeadApart, CurrentReady, CurrentPackage, VerifyInstalled, HexDigests;
    entries' := entries;
    var current := CurrentPackage(env, store);
    if current.Some? && current.value.ready {
      match named {
        case Some((id, version)) =>
          var candidate := VerifyInstalled(env, store, id, version);
          if candidate.ready && candidate.identity.Some? {
            entries' := ActivatedSound(env, store, entries, id, version, writes);
          }
        case None =>
          SoundHistory(env, store, entries);
          if FindTarget(env, store, entries, current.value.identity).Some? {
            TargetReady(env, store, entries, entries, current.value.identity);
            var p := FindTarget(env, store, entries, current.value.identity).value;
            entries' := ActivatedSound(env, store, entries, p.id, p.version, writes);
          }
      }
    }
  }

  // --- Every run ------------------------------------------------------------

  // Besides the commands, artifacts of an installed package may be damaged.
  datatype Action =
    | InstallManifest(raw: Option<Bytes>, source: Tree, copies: bool, writes: Writes)
    | RollbackTo(named: Option<(string, string)>, writes: Writes)
    | Damage(key: (string, string), bridge: Tree, linked: bool)

  function Next(env: Env, store: Store, a: Action): Store {
    match a
    case InstallManifest(raw, source, copies, writes) => Install(env, store, raw, source, copies, writes).store
    case RollbackTo(named, writes) => Rollback(env, store, named, writes).store
    case Damage(key, bridge, linked) =>
      if key in store.packages && store.packages[key].Package?
      then store.(packages := store.packages[key := store.packages[key].(bridge := bridge, bridgeLinked := linked)])
      else store
  }

  function Run(env: Env, store: Store, actions: seq<Action>): Store
    decreases actions
  {
    if actions == [] then store else Run(env, Next(env, store, actions[0]), actions[1..])
  }

  // What a manifest and a provenance say of a package.
  ghost predicate SameIdentity(a: Package, b: Package) {
    a.Package? && b.Package? && a.manifest == b.manifest && a.provenance == b.provenance
  }

  ghost predicate NothingRewritten(before: Store, after: Store) {
    forall key {:trigger after.packages[key]} {:trigger before.packages[key]} ::
      key in before.packages && before.packages[key].Package? ==>
        key in after.packages && SameIdentity(before.packages[key], after.packages[key])
  }

  lemma {:induction false} DamagedNames(
    env: Env, package: Package, id: string, version: string, bridge: Tree, linked: bool)
    requires NamesItself(env, package, id, version)
    ensures NamesItself(env, package.(bridge := bridge, bridgeLinked := linked), id, version)
  {
  }

  lemma {:induction false} DamageSound(
    env: Env, store: Store, entries: seq<Pointer>, key: (string, string), bridge: Tree, linked: bool)
    requires Sound(env, store, entries) && key in store.packages && store.packages[key].Package?
    ensures Sound(env, Next(env, store, Damage(key, bridge, linked)), entries)
  {
    hide ValidPointer, NamesItself, DistinctPointers;
    var store' := Next(env, store, Damage(key, bridge, linked));
    forall k | k in store'.packages ensures NamesItself(env, store'.packages[k], k.0, k.1) {
      assert NamesItself(env, store.packages[k], k.0, k.1);
      if k == key { DamagedNames(env, store.packages[k], k.0, k.1, bridge, linked); }
    }
    forall p | Points(env, store, p) ensures Points(env, store', p) {
      assert NamesItself(env, store'.packages[(p.id, p.version)], p.id, p.version);
    }
  }

  // An action in which a pointer is not written after the history was.
  predicate Cuts(a: Action) {
    match a
    case InstallManifest(_, _, _, writes) => Interrupts(writes)
    case RollbackTo(_, writes) => Interrupts(writes)
    case Damage(_, _, _) => false
  }

  // What every action keeps, what those without damage keep, and what those
  // that are not cut short keep.
  lemma {:induction false} NextSound(env: Env, store: Store, entries: seq<Pointer>, a: Action)
    returns (entries': seq<Pointer>)
    requires HexDigests(env) && Sound(env, store, entries)
    ensures Sound(env, Next(env, store, a), entries') && NothingRewritten(store, Next(env, store, a))
    ensures !a.Damage? && CurrentReady(env, store) ==> CurrentReady(env, Next(env, store, a))
    ensures !Cuts(a) && HeadApart(store, entries) ==> HeadApart(Next(env, store, a), entries')
  {
    hide Sound, Install, Rollback, CurrentReady, HeadApart, Interrupts, HexDigests;
    entries' := entries;
    match a {
      case InstallManifest(raw, source, copies, writes) =>
        entries' := InstallSound(env, store, entries, raw, source, copies, writes);
      case RollbackTo(named, writes) =>
        entries' := RollbackSound(env, store, entries, named, writes);
      case Damage(key, bridge, linked) =>
        if key in store.packages && store.packages[key].Package? {
          DamageSound(env, store, entries, key, bridge, linked);
        }
        SameHead(store, Next(env, store, a), entries);
    }
  }

  lemma {:induction false} RunSound(env: Env, store: Store, entries: seq<Pointer>, actions: seq<Action>)
    returns (entries': seq<Pointer>)
    requires HexDigests(env) && Sound(env, store, entries)
    ensures var store' := Run(env, store, actions);
            && Sound(env, store', entries') && NothingRewritten(store, store')
            && (CurrentReady(env, store) && (forall a :: a in actions ==> !a.Damage?) ==> CurrentReady(env, store'))
            && (HeadApart(store, entries) && (forall a :: a in actions ==> !Cuts(a)) ==> HeadApart(store', entries'))
    decreases actions
  {
    hide Sound, Next, CurrentReady, HeadApart, Cuts, HexDigests;
    entries' := entries;
    if actions != [] {
      var store1 := Next(env, store, actions[0]);
      var entries1 := NextSound(env, store, entries, actions[0]);
      entries' := RunSound(env, store1, entries1, actions[1..]);
    }
  }

  // From an empty state, however writes fail and artifacts are damaged: the
  // history holds at most 16 distinct valid pointers, each to an installed
  // package with the manifest it names, and no installed identity is ever
  // rewritten. Without damage the current package, if any, is ready. Unless a
  // pointer write failed after its history write, the history is headed by
  // another package than the current one.
  lemma {:induction false} EveryRun(env: Env, actions: seq<Action>, more: seq<Action>)
    returns (entries: seq<Pointer>)
    requires HexDigests(env)
    ensures var store := Run(env, Store(map[], None, []), actions);
            && Sound(env, store, entries) && HistoryEntries(store.history) == entries
            && NothingRewritten(store, Run(env, store, more))
            && ((forall a :: a in actions ==> !a.Damage?) ==> CurrentReady(env, store))
            && ((forall a :: a in actions ==> !Cuts(a)) ==> HeadApart(store, entries))
  {
    hide Cuts;
    var empty := Store(map[], None, []);
    assert Sound(env, empty, []) && CurrentReady(env, empty) && HeadApart(empty, []);
    entries := RunSound(env, empty, [], actions);
    SoundHistory(env, Run(env, empty, actions), entries);
    var _ := RunSound(env, Run(env, empty, actions), entries, more);
  }

  // --- Rollback undoes rollback ---------------------------------------------

  lemma {:induction false} ReadyCurrentPointer(env: Env, store: Store, entries: seq<Pointer>)
    requires HexDigests(env) && Sound(env, store, entries)
    requires CurrentPackage(env, store).Some? && CurrentPackage(env, store).value.ready
    ensures CurrentPointer(store).Some? && CurrentPackage(env, store).value.identity == CurrentPointer(store)
    ensures var was := CurrentPointer(store).value;
            store.current == Some(RawOf(was))
                && VerifyInstalled(env, store, was.id, was.version) == Report(true, Some(was))
  {
  }

  // Whatever the history, however many unready entries were skipped, whether or
  // not the oldest entry was cut, and even when an earlier activation was cut
  // short: after a default rollback another one succeeds and makes the starting
  // package current again.
  lemma {:induction false} RollbackUndoesRollback(
    env: Env, store: Store, entries: seq<Pointer>, first: Writes, store': Store)
    requires HexDigests(env) && Sound(env, store, entries)
    requires Rollback(env, store, None, first) == Outcome(store', None)
    ensures var again := Rollback(env, store', None, Writes(true, true));
            && again.problem.None? && again.store.current == store.current && again.store.packages == store.packages
    ensures store'.current != store.current
  {
    hide SafeName, IsDigest, InstalledReport, NamesItself, Points, Sound, Without, VerifyInstalled, HexDigests;
    SoundHistory(env, store, entries);
    ReadyCurrentPointer(env, store, entries);
    var was := CurrentPointer(store).value;
    TargetReady(env, store, entries, entries, Some(was));
    var target := FindTarget(env, store, entries, Some(was)).value;
    ReadyPoints(env, store, entries, target.id, target.version);
    ActivateSound(env, store, entries, target);
    var entries' := NextEntries(store, entries, target);
    SoundHistory(env, store', entries');
    PointsValid(env, store, target);
    SamePackages(env, store, store', target.id, target.version);
    ReadyCurrent(env, store', target);
    CutKeeps([was] + Without(entries, was));
    assert entries'[0] == was;
    SamePackages(env, store, store', was.id, was.version);
    assert FindTarget(env, store', entries', Some(target)) == Some(was);
  }

  lemma {:induction false} SamePackages(env: Env, store: Store, store': Store, id: string, version: string)
    requires store'.packages == store.packages
    ensures VerifyInstalled(env, store', id, version) == VerifyInstalled(env, store, id, version)
  {
  }
}
