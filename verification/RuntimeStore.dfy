// The package store as the tool keeps it: files it reads, loops over and
// replaces.
module RuntimeStore {
  import opened Wrappers
  import opened Words
  import opened Runtime

  class PackageStore {
    var packages: map<(string, string), Package>
    var current: Option<Raw>
    var history: seq<Raw>
    const env: Env

    constructor (env: Env)
      ensures View() == Store(map[], None, []) && this.env == env
    {
      packages := map[];
      current := None;
      history := [];
      this.env := env;
    }

    function View(): Store
      reads this
    {
      Store(packages, current, history)
    }

    method ReadHistory() returns (entries: seq<Pointer>)
      ensures entries == HistoryEntries(history)
    {
      entries := [];
      var i := 0;
      assert history[0..] == history;
      while i < |history|
        invariant 0 <= i <= |history|
        invariant HistoryEntries(history) == entries + HistoryEntries(history[i..])
      {
        var pointer := ValidPointer(history[i]);
        assert history[i..][0] == history[i] && history[i..][1..] == history[i + 1..];
        if pointer.Some? {
          entries := entries + [pointer.value];
        }
        i := i + 1;
      }
    }

    // Make a package current; the one it replaces heads the history, which is
    // written first.
    method ActivatePackage(p: Pointer, writes: Writes) returns (problem: Option<Problem>)
      modifies this`current, this`history
      ensures Outcome(View(), problem) == ActivateWith(old(View()), p, writes)
    {
      hide ValidPointer, HistoryEntries;
      var was := if current.Some? then ValidPointer(current.value) else None;
      if was.Some? && was.value != p {
        var older := ReadHistory();
        var entries, i := [was.value], 0;
        assert older[0..] == older;
        while i < |older|
          invariant 0 <= i <= |older|
          invariant [was.value] + Without(older, was.value) == entries + Without(older[i..], was.value)
        {
          assert older[i..][0] == older[i] && older[i..][1..] == older[i + 1..];
          if older[i] != was.value {
            entries := entries + [older[i]];
          }
          i := i + 1;
        }
        if !writes.history {
          return Some(WriteFailed);
        }
        history := RawsOf(Cut(entries));
      }
      if !writes.pointer {
        return Some(WriteFailed);
      }
      current := Some(RawOf(p));
      return None;
    }

    method Verify(raw: Option<Bytes>, tree: Tree) returns (r: Report)
      ensures r == VerifyManifest(env, raw, tree)
    {
      hide Matches, ValidManifest;
      var m := ManifestData(env, raw);
      if m.None? {
        return Report(false, None);
      }
      var ready, i := true, 0;
      while i < |m.value.specs|
        invariant 0 <= i <= |m.value.specs|
        invariant ready <==> forall j :: 0 <= j < i ==> Matches(env, m.value.specs[j], tree)
      {
        ready := ready && Matches(env, m.value.specs[i], tree);
        i := i + 1;
      }
      return Report(ready, Some(IdentityOf(env, m.value, raw.value)));
    }

    method CheckInstalled(package: Package) returns (r: Report)
      requires package.Package?
      ensures r == InstalledReport(env, package)
    {
      r := Verify(package.manifest, package.bridge);
      if !(r.ready && !package.bridgeLinked && r.identity.Some? && Certifies(package.provenance, r.identity.value)) {
        r := r.(ready := false);
      }
    }

    // The copies of the listed artifacts, in a temporary directory.
    method CopyArtifacts(specs: seq<Spec>, source: Tree) returns (staged: Tree)
      requires AllMatch(env, specs, source)
      ensures staged == Staged(specs, source)
    {
      staged := map[];
      var i := 0;
      while i < |specs|
        invariant 0 <= i <= |specs|
        invariant staged == Staged(specs[..i], source)
      {
        assert Matches(env, specs[i], source);
        assert specs[..i + 1] == specs[..i] + [specs[i]];
        StagedOne(specs[..i], specs[i], source);
        staged := staged[specs[i].path := source[specs[i].path]];
        i := i + 1;
      }
      assert specs[..i] == specs;
    }

    // Verify, copy beside, verify the copy, move it into place, make it current.
    method InstallManifest(raw: Option<Bytes>, source: Tree, copies: bool, writes: Writes)
      returns (problem: Option<Problem>)
      modifies this
      ensures Outcome(View(), problem) == Install(env, old(View()), raw, source, copies, writes)
    {
      hide ValidManifest, Matches, ActivateWith, Staged;
      var m := ManifestData(env, raw);
      if m.None? {
        return Some(BadManifest);
      }
      var verification := Verify(raw, source);
      if !verification.ready {
        return Some(NotVerified);
      }
      var key := (m.value.id, m.value.version);
      if key in packages {
        if packages[key].LinkedDirectory? {
          return Some(BadPackagePath);
        }
        var existing := CheckInstalled(packages[key]);
        if existing.ready && existing.identity.Some? && existing.identity.value.digest == env.sha(raw.value) {
          problem := ActivatePackage(existing.identity.value, writes);
          return;
        }
        return Some(AlreadyExists);
      }
      if !copies {
        return Some(CopyFailed);
      }
      var staged := CopyArtifacts(m.value.specs, source);
      var again := Verify(raw, staged);
      if !again.ready {
        return Some(NotVerified);
      }
      var provenance := Provenance(true, Some(m.value.id), Some(m.value.version), Some(env.sha(raw.value)));
      packages := packages[key := Package(raw, staged, false, Some(provenance))];
      var installed := CheckInstalled(packages[key]);
      problem := ActivatePackage(installed.identity.value, writes);
    }

    method CheckNamed(id: string, version: string) returns (r: Report)
      ensures r == VerifyInstalled(env, View(), id, version)
    {
      if !SafeName(id) || !SafeName(version) || (id, version) !in packages || packages[(id, version)].LinkedDirectory? {
        return Report(false, None);
      }
      r := CheckInstalled(packages[(id, version)]);
    }

    // Switch to a named package, or to the first ready one of the history.
    method RollbackTo(named: Option<(string, string)>, writes: Writes) returns (problem: Option<Problem>)
      modifies this`current, this`history
      ensures Outcome(View(), problem) == Rollback(env, old(View()), named, writes)
    {
      hide VerifyInstalled, ActivateWith, HistoryEntries;
      var active := CurrentPackage(env, View());
      if active.None? || !active.value.ready {
        return Some(NoActivePackage);
      }
      if named.Some? {
        var candidate := CheckNamed(named.value.0, named.value.1);
        if !(candidate.ready && candidate.identity.Some?) {
          return Some(NotReady);
        }
        problem := ActivatePackage(candidate.identity.value, writes);
        return;
      }
      var entries := ReadHistory();
      var i := 0;
      assert entries[0..] == entries;
      while i < |entries|
        invariant 0 <= i <= |entries|
        invariant FindTarget(env, View(), entries, active.value.identity)
               == FindTarget(env, View(), entries[i..], active.value.identity)
        invariant View() == old(View())
      {
        var pointer := entries[i];
        assert entries[i..][0] == pointer && entries[i..][1..] == entries[i + 1..];
        if Some(pointer) != active.value.identity {
          var candidate := CheckNamed(pointer.id, pointer.version);
          if candidate.ready && candidate.identity.Some? && candidate.identity.value.digest == pointer.digest {
            problem := ActivatePackage(candidate.identity.value, writes);
            return;
          }
        }
        i := i + 1;
      }
      return Some(NoTarget);
    }
  }

  lemma {:induction false} StagedOne(specs: seq<Spec>, spec: Spec, source: Tree)
    requires spec.path in source && source[spec.path].File?
    ensures Staged(specs + [spec], source) == Staged(specs, source)[spec.path := source[spec.path]]
  {
    var all := specs + [spec];
    var left, right := Staged(all, source), Staged(specs, source)[spec.path := source[spec.path]];
    forall path ensures path in left <==> path in right {
      if path in Staged(specs, source) {
        var i :| 0 <= i < |specs| && specs[i].path == path && path in source && source[path].File?;
        assert all[i].path == path;
      }
      assert all[|specs|] == spec;
    }
  }
}
