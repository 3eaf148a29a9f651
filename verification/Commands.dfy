// The command-line drivers of the editor, on the bytes of one appinfo file:
// load a fresh object, edit it once, write it back.
module Commands {
  import opened Wrappers
  import opened Words
  import opened Vdf
  import opened Codec
  import opened AppImage
  import opened Launch
  import opened Editor
  import opened AppInfoFile

  // patch-all --disable-unsupported
  method PatchAllCommand(h: Host, sums: Sums, file: Bytes, appid: int, template: string -> string)
    returns (r: Result<(Bytes, State), Fault>)
    ensures r == PatchAllFile(h, sums, file, appid, template)
  {
    hide Rewrite, Launch.WindowsLaunches, Launch.ReplaceLaunches, Disable, Find, Graft, CommonOs;
    var appinfo := new AppInfo(file, sums, h);
    var loaded := appinfo.Load();
    if loaded.Err? {
      return Err(loaded.error);
    }
    ParseSound(file);
    var launches := appinfo.WindowsLaunches(appid);
    if launches.Err? {
      return Err(launches.error);
    }
    FoundLaunch(h, appinfo.records[appid].sections);
    var disabled := appinfo.DisableUnusable(appid, Entries(launches.value));
    if disabled.Err? {
      return Err(disabled.error);
    }
    ghost var before := Parse(file).value;
    assert appinfo.View() == WithSections(before, appid, appinfo.records[appid].sections);
    ghost var sections1 := appinfo.records[appid].sections;
    RewriteAfterEdit(before, appid, sections1, sums);
    var changed := appinfo.ReplaceLaunches(appid, Replacements(launches.value, template), None);
    if changed.Err? {
      return Err(changed.error);
    }
    return Ok((appinfo.data, State(appid, changed.value, disabled.value)));
  }

  lemma {:induction false} FoundLaunch(h: Host, sections: Dict)
    requires Launch.WindowsLaunches(h, sections).Ok?
    ensures Find(sections, LAUNCH).Some?
  {
  }

  // An edit already made in memory does not matter to the rewrite that follows.
  lemma {:induction false} RewriteAfterEdit(img: Image, appid: int, sections: Dict, sums: Sums)
    requires Sound(img) && 0 <= appid < LIMIT32 && appid in img.records
    ensures var edited := WithSections(img, appid, sections);
            && Sound(edited) && SectionsOf(edited, appid, NoSuchApp) == Ok(sections)
            && forall s :: RewriteWith(edited, appid, s, sums) == RewriteWith(img, appid, s, sums)
  {
    hide Rewrite;
    forall s ensures WithSections(WithSections(img, appid, sections), appid, s) == WithSections(img, appid, s) { }
  }

  // patch, with or without --disable-unsupported
  method PatchCommand(
    h: Host, sums: Sums, file: Bytes, appid: int, executable: string, selector: Selector, guard: Guard, disable: bool)
    returns (r: Result<(Bytes, State), Fault>)
    ensures r == PatchOneFile(h, sums, file, appid, executable, selector, guard, disable)
  {
    hide Rewrite, Launch.WindowsLaunches, Launch.ReplaceLaunch, Disable, Find, Graft, CommonOs;
    var appinfo := new AppInfo(file, sums, h);
    var loaded := appinfo.Load();
    if loaded.Err? {
      return Err(loaded.error);
    }
    ParseSound(file);
    var hidden: seq<Disabled> := [];
    if disable {
      var launches := appinfo.WindowsLaunches(appid);
      if launches.Err? {
        return Err(launches.error);
      }
      FoundLaunch(h, appinfo.records[appid].sections);
      var disabled := appinfo.DisableUnusable(appid, Entries(launches.value));
      if disabled.Err? {
        return Err(disabled.error);
      }
      hidden := disabled.value;
    }
    ghost var before := Parse(file).value;
    if disable {
      assert appinfo.View() == WithSections(before, appid, appinfo.records[appid].sections);
      RewriteAfterEdit(before, appid, appinfo.records[appid].sections, sums);
    }
    var changed := appinfo.ReplaceLaunch(appid, executable, selector, guard);
    if changed.Err? {
      return Err(changed.error);
    }
    return Ok((appinfo.data, State(appid, [changed.value], hidden)));
  }

  // restore: the file is written only when the state was still in force
  method RestoreCommand(h: Host, sums: Sums, file: Bytes, st: State, expected: Option<int>)
    returns (r: Result<Bytes, Fault>)
    ensures r == RestoreFile(sums, file, st, expected)
  {
    hide RestoreImage;
    var appinfo := new AppInfo(file, sums, h);
    var loaded := appinfo.Load();
    if loaded.Err? {
      return Err(loaded.error);
    }
    ParseSound(file);
    var restored := appinfo.RestoreState(st, expected);
    if restored.Err? {
      return Err(restored.error);
    }
    return Ok(if appinfo.lastRestoreChanged then appinfo.data else file);
  }
}
