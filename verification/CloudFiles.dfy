// The native Cloud adapter on files: the appinfo image, the links under the
// native base, and the recorded state.
module CloudFiles {
  import opened Wrappers
  import opened Words
  import opened Vdf
  import opened Codec
  import opened AppImage
  import opened Editor
  import opened Cloud
  import AppInfoFile
  import Launch
  import PythonText

  datatype CloudState = CloudState(appid: int, entries: seq<CloudEntry>)

  // What the install command turns a file and the links into. `saved` says
  // whether seeding and writing the state file succeed.
  function InstallCloud(env: Env, sums: Sums, file: Bytes, links: Links, appid: int, saved: bool)
    : Result<(Bytes, Links, CloudState), Fault>
  {
    var _ :- BasePath(env);
    var img :- Parse(file);
    ParseSound(file);
    var sections :- SectionsOf(img, appid, NoSuchApp);
    var (sections', links', entries) :- CloudInstall(env, appid, sections, links);
    var img' :- RewriteWith(img, appid, sections', sums);
    if !saved then Err(Io) else Ok((img'.data, links', CloudState(appid, entries)))
  }

  // The file operations of a restore: writing the image, then unlinking.
  datatype Operation = WriteImage | Unlink(index: nat)

  // What a failing write leaves of the image: the file as it was when it cannot
  // be opened, and else the first bytes of the new one.
  function Torn(file: Bytes, written: Bytes, cut: Option<nat>): Bytes {
    match cut
    case None => file
    case Some(n) => if n < |written| then written[..n] else written
  }

  // The link of an entry goes: it is owned and still points where it did.
  predicate Unlinkable(links: Links, entry: CloudEntry) {
    entry.linkOwned && entry.link in links && links[entry.link] == Link(entry.target)
  }

  // The entry at which the unlinking loop, begun at the i-th one, stops.
  function UnlinkStops(links: Links, entries: seq<CloudEntry>, i: nat, fails: Operation -> bool): (n: nat)
    requires i <= |entries|
    ensures i <= n <= |entries|
    decreases |entries| - i
  {
    if i == |entries| || (Unlinkable(links, entries[i]) && fails(Unlink(i))) then i
    else UnlinkStops(RemoveLink(links, entries[i]), entries, i + 1, fails)
  }

  lemma {:induction false} RemoveLinksOne(links: Links, entries: seq<CloudEntry>, more: seq<CloudEntry>)
    ensures RemoveLinks(links, entries + more) == RemoveLinks(RemoveLinks(links, entries), more)
    decreases entries
  {
    if entries == [] {
      assert [] + more == more;
    } else {
      assert (entries + more)[1..] == entries[1..] + more;
      RemoveLinksOne(RemoveLink(links, entries[0]), entries[1..], more);
    }
  }

  lemma {:induction false} RemovedUpTo(links: Links, entries: seq<CloudEntry>, i: nat)
    requires i < |entries|
    ensures RemoveLinks(links, entries[..i + 1]) == RemoveLink(RemoveLinks(links, entries[..i]), entries[i])
  {
    assert entries[..i + 1] == entries[..i] + [entries[i]];
    RemoveLinksOne(links, entries[..i], [entries[i]]);
    assert [entries[i]][1..] == [];
  }

  // Unlinking stops at the first entry whose link is there, is owned, points where
  // it did, and cannot be removed; and only there.
  lemma {:induction false} StopsExactly(links: Links, entries: seq<CloudEntry>, i: nat, fails: Operation -> bool)
    requires i <= |entries|
    ensures var n := UnlinkStops(RemoveLinks(links, entries[..i]), entries, i, fails);
            && (forall j :: i <= j < n ==> !StopsAt(links, entries, j, fails))
            && (n < |entries| ==> StopsAt(links, entries, n, fails))
    decreases |entries| - i
  {
    hide RemoveLink, RemoveLinks;
    if i < |entries| {
      RemovedUpTo(links, entries, i);
      StopsExactly(links, entries, i + 1, fails);
    }
  }

  // The link of the j-th entry, once those before it are gone.
  predicate StopsAt(links: Links, entries: seq<CloudEntry>, j: nat, fails: Operation -> bool)
    requires j < |entries|
  {
    var left, entry := RemoveLinks(links, entries[..j]), entries[j];
    && entry.linkOwned && entry.link in left && left[entry.link] == Link(entry.target) && fails(Unlink(j))
  }

  // What the restore command turns them into.
  function RestoreCloud(
    sums: Sums, file: Bytes, links: Links, st: CloudState, expected: Option<int>): Result<(Bytes, Links), Fault>
  {
    if expected.Some? && expected.value != st.appid then Err(WrongApp)
    else
      var img :- Parse(file);
      ParseSound(file);
      var sections :- SectionsOf(img, st.appid, NoSuchApp);
      var (sections', changed) :- CloudRestore(sections, st.entries);
      if !changed then Ok((file, RemoveLinks(links, st.entries)))
      else
        var img' :- RewriteWith(img, st.appid, sections', sums);
        Ok((img'.data, RemoveLinks(links, st.entries)))
  }

  // After a write cut within the file header, no restore reads the image again.
  lemma {:induction false} CutUnreadable(
    sums: Sums, file: Bytes, written: Bytes, n: nat, links: Links, st: CloudState, expected: Option<int>)
    requires n < 16
    ensures RestoreCloud(sums, Torn(file, written, Some(n)), links, st, expected).Err?
  {
    hide CloudRestore, RemoveLinks, Rewrite;
    if |written| < 16 || n < |written| {
      assert |Torn(file, written, Some(n))| < 16;
      assert Parse(Torn(file, written, Some(n))) == Err(TooShort);
    }
  }

  // --- The loops ------------------------------------------------------------

  method CollectRoots(savefiles: Dict) returns (r: Result<seq<string>, Fault>)
    ensures r == SupportedRoots(savefiles, [])
  {
    var items, roots := savefiles, [];
    while items.Entry?
      invariant SupportedRoots(savefiles, []) == SupportedRoots(items, roots)
      decreases items
    {
      if items.value.Sub? {
        var root := Get(items.value.dict, "root");
        if root.Some? && root.value.Sub? {
          return Err(BadConfig);
        }
        if root.Some? && root.value.Text? && root.value.text in ROOTS && root.value.text !in roots {
          roots := roots + [root.value.text];
        }
      }
      items := items.rest;
    }
    return Ok(roots);
  }

  method FindExisting(overrides: Dict, root: string, platform: string) returns (key: Option<string>)
    ensures key == ExistingKey(overrides, root, platform)
  {
    var items := overrides;
    while items.Entry?
      invariant ExistingKey(overrides, root, platform) == ExistingKey(items, root, platform)
      decreases items
    {
      var item := items.value;
      if item.Sub?
         && Get(item.dict, "root") == Some(Text(root))
         && Get(item.dict, "os") == Some(Text(platform))
         && Get(item.dict, "oscompare") in {None, Some(Text("="))} {
        return Some(items.key);
      }
      items := items.rest;
    }
    return None;
  }

  method NextOverrideKey(overrides: Dict) returns (key: string)
    ensures key == NextKey(overrides) && !Has(overrides, key)
  {
    var items, largest := overrides, -1;
    while items.Entry?
      invariant largest >= -1
      invariant MaxNumber(overrides) == if largest > MaxNumber(items) then largest else MaxNumber(items)
      decreases items
    {
      if PythonText.AsciiDigits(items.key) && PythonText.Value(items.key) > largest {
        largest := PythonText.Value(items.key);
      }
      items := items.rest;
    }
    var n: nat := largest + 1;
    while Has(overrides, PythonText.Decimal(n))
      invariant NextKey(overrides) == NextFrom(overrides, n)
      decreases NumbersFrom(overrides, n)
    {
      KeysHas(overrides, PythonText.Decimal(n));
      PythonText.ValueDecimal(n);
      assert PythonText.Decimal(n) in NumbersFrom(overrides, n) - NumbersFrom(overrides, n + 1);
      n := n + 1;
    }
    return PythonText.Decimal(n);
  }

  // Replace one app's sections and rewrite its record: the bytes to write.
  method RewriteSections(editor: AppInfoFile.AppInfo, appid: Word32, sections: Dict) returns (r: Result<Bytes, Fault>)
    requires Sound(editor.View()) && appid in editor.records
    modifies editor
    ensures match RewriteWith(old(editor.View()), appid, sections, editor.sums)
            case Ok(img) => r == Ok(img.data)
            case Err(e) => r == Err(e)
  {
    hide Rewrite;
    editor.records := editor.records[appid := editor.records[appid].(sections := sections)];
    var rewritten := editor.RewriteRecord(appid);
    return if rewritten.Ok? then Ok(editor.data) else Err(rewritten.error);
  }

  // The links that were there before and those just created.
  ghost predicate Grown(before: Links, links: Links, created: seq<Path>) {
    && (forall p :: p in links <==> p in before || p in created)
    && (forall p :: p in before ==> links[p] == before[p] && p !in created)
    && (forall p :: p in created ==> links[p].Link?)
  }

  lemma {:induction false} GrownStep(before: Links, links: Links, created: seq<Path>, link: Path, target: Path)
    requires Grown(before, links, created)
    ensures link !in links ==> Grown(before, links[link := Link(target)], created + [link])
  {
  }

  class Adapter {
    var appinfo: Bytes
    var links: Links
    var state: Option<CloudState>
    const env: Env
    const sums: Sums
    const host: Launch.Host

    constructor (appinfo: Bytes, links: Links, state: Option<CloudState>, env: Env, sums: Sums, host: Launch.Host)
      ensures this.appinfo == appinfo && this.links == links && this.state == state
      ensures this.env == env && this.sums == sums && this.host == host
    {
      this.appinfo := appinfo;
      this.links := links;
      this.state := state;
      this.env := env;
      this.sums := sums;
      this.host := host;
    }

    // The undo of a failed install: the links it created, latest first.
    method RemoveCreated(created: seq<Path>, ghost before: Links)
      requires Grown(before, links, created)
      modifies this`links
      ensures links == before
    {
      var i := |created|;
      while i > 0
        invariant 0 <= i <= |created|
        invariant forall p :: p in links <==> p in before || p in created[..i]
        invariant forall p :: p in before ==> links[p] == before[p] && p !in created
      {
        i := i - 1;
        assert created[..i + 1] == created[..i] + [created[i]];
        // A path created twice would be gone already.
        if created[i] !in created[..i] {
          links := links - {created[i]};
        }
      }
    }

    // Install the override and the link of one root.
    method InstallRoot(addpath: string, root: string, table: Dict) returns (r: Result<(Dict, CloudEntry), Fault>)
      modifies this`links
      ensures match InstallOne(env, addpath, root, table, old(links))
              case Ok(out) => r == Ok((out.0, out.2)) && links == out.1
              case Err(e) => r == Err(e) && links == old(links)
      ensures r.Ok? ==> r.value.1.linkOwned == (r.value.1.link !in old(links))
      ensures r.Ok? ==> links == if r.value.1.link in old(links) then old(links)
                                 else old(links)[r.value.1.link := Link(r.value.1.target)]
    {
      hide ExistingKey, NextKey, Generated, Put;
      var target := env.target(root);
      if target.None? {
        return Err(Io);
      }
      var link := env.link(addpath);
      var existing := FindExisting(table, root, env.platform);
      var next := NextOverrideKey(table);
      var reused := existing.Some? && existing.value != "";
      var key := if reused then existing.value else next;
      assert (key, reused) == ChosenKey(table, root, env.platform);
      var original := if reused then Get(table, key) else None;
      var generated := Generated(root, env.platform, addpath);
      var owned := link !in links;
      if owned {
        if !env.creatable(link) {
          return Err(Io);
        }
        links := links[link := Link(target.value)];
      } else if links[link] != Link(target.value) {
        return Err(PathTaken);
      }
      return Ok((Put(table, key, generated), CloudEntry(key, root, original, generated, link, target.value, owned)));
    }

    // Install every root, in place.
    method InstallRoots(addpath: string -> string, roots: seq<string>, table: Dict)
      returns (r: Result<(Dict, seq<CloudEntry>), Fault>, created: seq<Path>)
      modifies this`links
      ensures match InstallAll(env, addpath, roots, table, old(links))
              case Ok(out) => r == Ok((out.0, out.2)) && links == out.1
              case Err(e) => r == Err(e)
      ensures Grown(old(links), links, created)
    {
      hide InstallOne;
      var overrides := table;
      var entries: seq<CloudEntry> := [];
      created := [];
      assert forall more: seq<CloudEntry> :: entries + more == more;
      var i := 0;
      while i < |roots|
        invariant 0 <= i <= |roots|
        invariant Grown(old(links), links, created)
        invariant InstallAll(env, addpath, roots, table, old(links)) ==
                  match InstallAll(env, addpath, roots[i..], overrides, links)
                  case Ok(out) => Ok((out.0, out.1, entries + out.2))
                  case Err(e) => Err(e)
      {
        assert roots[i..][0] == roots[i] && roots[i..][1..] == roots[i + 1..];
        ghost var before := links;
        var one := InstallRoot(addpath(roots[i]), roots[i], overrides);
        if one.Err? {
          return Err(one.error), created;
        }
        overrides := one.value.0;
        var entry := one.value.1;
        GrownStep(old(links), before, created, entry.link, entry.target);
        if entry.linkOwned {
          created := created + [entry.link];
        }
        ghost var rest := InstallAll(env, addpath, roots[i + 1..], overrides, links);
        if rest.Ok? {
          assert entries + ([entry] + rest.value.2) == entries + [entry] + rest.value.2;
        }
        entries := entries + [entry];
        i := i + 1;
      }
      assert entries + [] == entries;
      return Ok((overrides, entries)), created;
    }

    // The install command. Whatever fails, the image and the links are as they
    // were.
    method Install(appid: int, saved: bool) returns (r: Result<(), Fault>)
      modifies this
      ensures match InstallCloud(env, sums, old(appinfo), old(links), appid, saved)
              case Ok(out) => r.Ok? && appinfo == out.0 && links == out.1 && state == Some(out.2)
              case Err(e) => r == Err(e) && appinfo == old(appinfo) && links == old(links) && state == old(state)
    {
      hide InstallAll, Find, Graft, RewriteWith, Parse, AddPath, BasePath, SupportedRoots, HasUnsupported, Rules,
        Grown;
      var base := BasePath(env);
      if base.Err? {
        return Err(base.error);
      }
      var editor := new AppInfoFile.AppInfo(appinfo, sums, host);
      var loaded := editor.Load();
      if loaded.Err? {
        return Err(loaded.error);
      }
      ParseSound(appinfo);
      var found := SectionsOf(editor.View(), appid, NoSuchApp);
      if found.Err? {
        return Err(found.error);
      }
      var sections := found.value;
      var roots := CollectRoots(Rules(sections));
      var checked := CloudRoots(env, sections);
      if checked.Err? {
        return Err(checked.error);
      }
      var ufs := Find(sections, UFS);
      if ufs.None? {
        return Err(NoCloudRoot);
      }
      var table := Overrides(ufs.value);
      if table.Err? {
        return Err(table.error);
      }
      var addpath := (root: string) => AddPath(appid, root, |roots.value|, base.value);
      var original := appinfo;
      var edited, created := InstallRoots(addpath, roots.value, table.value);
      if edited.Err? {
        RemoveCreated(created, old(links));
        return Err(edited.error);
      }
      var sections' := Graft(sections, UFS, Put(ufs.value, "rootoverrides", Sub(edited.value.0)));
      var rewritten := RewriteSections(editor, appid, sections');
      if rewritten.Err? {
        RemoveCreated(created, old(links));
        return Err(rewritten.error);
      }
      appinfo := rewritten.value;
      if !saved {
        appinfo := original;
        RemoveCreated(created, old(links));
        return Err(Io);
      }
      state := Some(CloudState(appid, edited.value.1));
      return Ok(());
    }

    // Unlink what install linked, unless it changed since.
    method UnlinkOwned(entries: seq<CloudEntry>, fails: Operation -> bool) returns (ok: bool)
      modifies this`links
      ensures var n := UnlinkStops(old(links), entries, 0, fails);
              links == RemoveLinks(old(links), entries[..n]) && (ok <==> n == |entries|)
    {
      hide Unlinkable, RemoveLink;
      var i := 0;
      assert entries[..0] == [];
      while i < |entries|
        invariant 0 <= i <= |entries| && links == RemoveLinks(old(links), entries[..i])
        invariant UnlinkStops(old(links), entries, 0, fails) == UnlinkStops(links, entries, i, fails)
      {
        RemovedUpTo(old(links), entries, i);
        if Unlinkable(links, entries[i]) && fails(Unlink(i)) {
          return false;
        }
        links := RemoveLink(links, entries[i]);
        i := i + 1;
      }
      ok := true;
    }

    // The restore command. A failing write may cut the image; when a link cannot
    // be removed, it is the last one looked at and the image stays restored.
    method Restore(expected: Option<int>, fails: Operation -> bool, cut: Option<nat>) returns (r: Result<(), Fault>)
      requires state.Some?
      modifies this`appinfo, this`links
      ensures match RestoreCloud(sums, old(appinfo), old(links), state.value, expected)
              case Err(e) => r == Err(e) && appinfo == old(appinfo) && links == old(links)
              case Ok(out) =>
                var entries := state.value.entries;
                var n := UnlinkStops(old(links), entries, 0, fails);
                if entries != [] && fails(WriteImage) then
                  r == Err(Io) && appinfo == Torn(old(appinfo), out.0, cut) && links == old(links)
                else
                  && appinfo == out.0 && links == RemoveLinks(old(links), entries[..n])
                  && r == (if n == |entries| then Ok(()) else Err(Io))
      ensures r.Ok? ==> links == RemoveLinks(old(links), state.value.entries)
    {
      hide Find, Graft, RewriteWith, Parse, CurrentOverrides, RestoreAll, RemoveLinks, UnlinkStops;
      var st := state.value;
      if expected.Some? && expected.value != st.appid {
        return Err(WrongApp);
      }
      var editor := new AppInfoFile.AppInfo(appinfo, sums, host);
      var loaded := editor.Load();
      if loaded.Err? {
        return Err(loaded.error);
      }
      ParseSound(appinfo);
      var found := SectionsOf(editor.View(), st.appid, NoSuchApp);
      if found.Err? {
        return Err(found.error);
      }
      var current := CurrentOverrides(found.value);
      if current.Err? {
        return Err(current.error);
      }
      var restored := RestoreOverrides(current.value, st.entries);
      if restored.Err? {
        return Err(restored.error);
      }
      if st.entries != [] {
        var sections' := PutOverrides(found.value, restored.value);
        var rewritten := RewriteSections(editor, st.appid, sections');
        if rewritten.Err? {
          return Err(rewritten.error);
        }
        if fails(WriteImage) {
          appinfo := Torn(appinfo, rewritten.value, cut);
          return Err(Io);
        }
        appinfo := rewritten.value;
      }
      var unlinked := UnlinkOwned(st.entries, fails);
      assert st.entries[..|st.entries|] == st.entries;
      return if unlinked then Ok(()) else Err(Io);
    }
  }

  method RestoreOverrides(table: Dict, entries: seq<CloudEntry>) returns (r: Result<Dict, Fault>)
    ensures r == RestoreAll(table, entries)
  {
    var overrides, i := table, 0;
    while i < |entries|
      invariant 0 <= i <= |entries|
      invariant RestoreAll(table, entries) == RestoreAll(overrides, entries[i..])
    {
      var entry := entries[i];
      assert entries[i..][0] == entry && entries[i..][1..] == entries[i + 1..];
      var current := Get(overrides, entry.key);
      if current.None? || AbsValue(current.value) != AbsValue(entry.generated) {
        return Err(ChangedUnexpectedly);
      }
      overrides := if entry.original.None? then Del(overrides, entry.key)
          else Put(overrides, entry.key, entry.original.value);
      i := i + 1;
    }
    return Ok(overrides);
  }
}
