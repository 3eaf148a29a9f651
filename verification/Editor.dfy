// The editor's commands on whole images: what each turns one appinfo file into.
module Editor {
  import opened Wrappers
  import opened Words
  import opened Vdf
  import opened Codec
  import opened AppImage
  import opened Launch

  // The sections of an app, or the error every section lookup raises.
  function SectionsOf(img: Image, appid: int, missing: Fault): Result<Dict, Fault> {
    if 0 <= appid < LIMIT32 && appid in img.records then Ok(img.records[appid].sections) else Err(missing)
  }

  function RewriteWith(img: Image, appid: int, sections: Dict, sums: Sums): Result<Image, Fault>
    requires Sound(img) && 0 <= appid < LIMIT32 && appid in img.records
  {
    Rewrite(WithSections(img, appid, sections), appid, sums)
  }

  // patch-all --disable-unsupported on a loaded image
  function PatchAllImage(
    h: Host, sums: Sums, img: Image, appid: int, template: string -> string): Result<(Image, State), Fault>
    requires Sound(img)
  {
    var sections :- SectionsOf(img, appid, NoLaunchSection);
    var (sections', st) :- PatchAll(h, appid, template, sections);
    var img' :- RewriteWith(img, appid, sections', sums);
    Ok((img', st))
  }

  // patch on a loaded image
  function PatchOneImage(
    h: Host, sums: Sums, img: Image, appid: int, executable: string, selector: Selector, guard: Guard, disable: bool)
    : Result<(Image, State), Fault>
    requires Sound(img)
  {
    var sections :- SectionsOf(img, appid, if disable then NoLaunchSection else NoSuchApp);
    var (sections', st) :- PatchOne(h, appid, executable, selector, guard, disable, sections);
    var img' :- RewriteWith(img, appid, sections', sums);
    Ok((img', st))
  }

  // The validation phase of AppInfo.restore_state on a loaded image
  function ValidateImage(img: Image, st: State, expected: Option<int>): Result<Changes, Fault> {
    if st.entries == [] then Err(BadState)
    else if expected.Some? && expected.value != st.appid then Err(WrongApp)
    else
      var sections :- SectionsOf(img, st.appid, BadState);
      match Find(sections, LAUNCH)
      case None => Err(BadState)
      case Some(launch) => Validate(launch, st)
  }

  // AppInfo.restore_state on a loaded image: the image, and whether it changed
  function RestoreImage(sums: Sums, img: Image, st: State, expected: Option<int>): Result<(Image, bool), Fault>
    requires Sound(img)
  {
    if st.entries == [] then Err(BadState)
    else if expected.Some? && expected.value != st.appid then Err(WrongApp)
    else
      var sections :- SectionsOf(img, st.appid, BadState);
      var (sections', changed) :- Restore(sections, st);
      if !changed then Ok((img, false))
      else
        var img' :- RewriteWith(img, st.appid, sections', sums);
        Ok((img', true))
  }

  // The same commands on the bytes of the file: load, edit, write. An error
  // leaves the file as it is.
  function PatchAllFile(
    h: Host, sums: Sums, file: Bytes, appid: int, template: string -> string): Result<(Bytes, State), Fault>
  {
    var img :- Parse(file);
    ParseSound(file);
    var (img', st) :- PatchAllImage(h, sums, img, appid, template);
    Ok((img'.data, st))
  }

  function PatchOneFile(
    h: Host, sums: Sums, file: Bytes, appid: int, executable: string, selector: Selector, guard: Guard, disable: bool)
    : Result<(Bytes, State), Fault>
  {
    var img :- Parse(file);
    ParseSound(file);
    var (img', st) :- PatchOneImage(h, sums, img, appid, executable, selector, guard, disable);
    Ok((img'.data, st))
  }

  function RestoreFile(sums: Sums, file: Bytes, st: State, expected: Option<int>): Result<Bytes, Fault> {
    var img :- Parse(file);
    ParseSound(file);
    var (img', changed) :- RestoreImage(sums, img, st, expected);
    Ok(if changed then img'.data else file)
  }
}
