// The editor object: the bytes of one appinfo file, what was read from them,
// and the edits made in place.
module AppInfoFile {
  import opened Wrappers
  import opened Words
  import opened Vdf
  import opened Codec
  import opened AppImage
  import opened Launch
  import opened Editor
  import Strings

  class AppInfo {
    var data: Bytes
    var version: Version
    var pool: seq<string>
    var poolCount: nat
    var stringOffset: nat
    var records: map<Word32, Record>
    var lastRestoreChanged: bool
    const sums: Sums
    const host: Host

    constructor (contents: Bytes, sums: Sums, host: Host)
      ensures data == contents && this.sums == sums && this.host == host
    {
      data := contents;
      version := V28;
      pool := [];
      poolCount := 0;
      stringOffset := 0;
      records := map[];
      lastRestoreChanged := false;
      this.sums := sums;
      this.host := host;
    }

    function View(): Image
      reads this
    {
      Image(version, data, pool, poolCount, stringOffset, records)
    }

    // --- Reading ------------------------------------------------------------

    // The rest of AppInfo.__init__ once the file is read.
    method Load() returns (r: Result<(), Fault>)
      modifies this
      ensures data == old(data)
      ensures match Parse(data)
              case Ok(img) => r.Ok? && View() == img
              case Err(e) => r == Err(e)
    {
      hide ReadStrings, Scan, Index, Unpack32, Unpack64;
      if |data| < 16 {
        return Err(TooShort);
      }
      var magic := Unpack64(data[..8]);
      if magic != MAGIC28 && magic != MAGIC29 {
        return Err(BadVersion);
      }
      pool := [];
      poolCount := 0;
      lastRestoreChanged := false;
      var limit := |data|;
      if magic == MAGIC29 {
        version := V29;
        var table := UnpackSigned64(data[8..16]);
        if !(16 <= table <= |data| - 4) {
          return Err(BadTableOffset);
        }
        stringOffset := table;
        var p := ReadPool();
        if p.Err? {
          return Err(p.error);
        }
        limit := table;
      } else {
        version := V28;
        stringOffset := 0;
      }
      var found := ReadRecords(limit);
      if found.Err? {
        return Err(found.error);
      }
      records := found.value;
      return Ok(());
    }

    method ReadPool() returns (r: Result<(), Fault>)
      requires stringOffset + 4 <= |data| && pool == []
      modifies this`pool, this`poolCount
      ensures match ReadStrings(data, stringOffset + 4, Unpack32(data[stringOffset..stringOffset + 4]))
              case Ok(strings) => r.Ok? && pool == strings.0 && poolCount == |pool|
              case Err(e) => r == Err(e)
    {
      hide ReadString, Unpack32;
      var offset := stringOffset;
      var count := Unpack32(data[offset..offset + 4]);
      offset := offset + 4;
      ghost var from := offset;
      assert forall rest: seq<string> :: pool + rest == rest;
      for i := 0 to count
        invariant from <= offset <= |data|
        invariant ReadStrings(data, from, count) ==
                  match ReadStrings(data, offset, count - i)
                  case Ok((rest, end)) => Ok((pool + rest, end))
                  case Err(e) => Err(e)
      {
        var s := ReadString(data, offset);
        if s.Err? {
          return Err(s.error);
        }
        ghost var after := ReadStrings(data, s.value.1, count - i - 1);
        if after.Ok? {
          assert pool + ([s.value.0] + after.value.0) == pool + [s.value.0] + after.value.0;
        }
        pool := pool + [s.value.0];
        offset := s.value.1;
      }
      poolCount := |pool|;
      return Ok(());
    }

    method ReadValue(offset: nat, tag: Byte) returns (r: Result<(Value, nat), Fault>)
      requires offset <= |data|
      ensures r == Codec.ReadValue(version, data, pool, offset, tag)
      decreases |data| - offset, 1
    {
      if tag == SUB {
        var d := ReadDict(offset);
        return if d.Ok? then Ok((Sub(d.value.0), d.value.1)) else Err(d.error);
      } else if tag == TEXT {
        var s := ReadString(data, offset);
        return if s.Ok? then Ok((Text(s.value.0), s.value.1)) else Err(s.error);
      } else if tag == WORD {
        var n := ReadWord(data, offset);
        return if n.Ok? then Ok((Num(n.value.0), n.value.1)) else Err(n.error);
      } else {
        return Err(UnsupportedType);
      }
    }

    method ReadDict(start: nat) returns (r: Result<(Dict, nat), Fault>)
      requires start <= |data|
      ensures r == Codec.ReadDict(version, data, pool, start, Empty)
      decreases |data| - start, 0
    {
      hide Codec.ReadKey;
      var result, offset := Empty, start;
      while offset < |data|
        invariant start <= offset <= |data|
        invariant Codec.ReadDict(version, data, pool, start, Empty)
                    == Codec.ReadDict(version, data, pool, offset, result)
        decreases |data| - offset
      {
        var tag := data[offset];
        if tag == END {
          return Ok((result, offset + 1));
        }
        var key := ReadKey(version, data, pool, offset + 1);
        if key.Err? {
          return Err(key.error);
        }
        var value := ReadValue(key.value.1, tag);
        if value.Err? {
          return Err(value.error);
        }
        result := Put(result, key.value.0, value.value.0);
        offset := value.value.1;
      }
      return Err(Unterminated);
    }

    method ReadRecords(limit: nat) returns (r: Result<map<Word32, Record>, Fault>)
      requires FIRST <= |data| && limit <= |data|
      ensures match Scan(version, data, pool, limit, FIRST)
              case Ok(recs) => r == Ok(Index(recs))
              case Err(e) => r == Err(e)
    {
      hide Codec.ReadDict, AppImage.ReadHeader;
      var found: map<Word32, Record> := map[];
      var offset := FIRST;
      ghost var seen: seq<Record> := [];
      assert forall rest: seq<Record> :: seen + rest == rest;
      while offset + HEADER <= limit
        invariant FIRST <= offset <= |data|
        invariant found == Index(seen)
        invariant Scan(version, data, pool, limit, FIRST) ==
                  match Scan(version, data, pool, limit, offset)
                  case Ok(rest) => Ok(seen + rest)
                  case Err(e) => Err(e)
        decreases |data| - offset
      {
        var header := ReadHeader(data[offset..offset + HEADER]);
        if header.appid == 0 {
          break;
        }
        var d := ReadDict(offset + HEADER);
        if d.Err? {
          return Err(d.error);
        }
        var rec := Record(header.appid, offset, d.value.1, header, d.value.0);
        found := found[header.appid := rec];
        assert (seen + [rec])[..|seen|] == seen;
        ghost var after := Scan(version, data, pool, limit, d.value.1);
        if after.Ok? {
          assert seen + ([rec] + after.value) == seen + [rec] + after.value;
        }
        seen := seen + [rec];
        offset := d.value.1;
      }
      assert seen + [] == seen;
      return Ok(found);
    }

    // --- Writing ------------------------------------------------------------

    // A key new to a version 29 image is appended to the pool.
    method EncodeKey(key: string) returns (r: Result<Bytes, Fault>)
      modifies this`pool
      ensures match Codec.EncodeKey(version, key, old(pool))
              case Ok(e) => r == Ok(e.bytes) && pool == e.pool
              case Err(e) => r == Err(e)
    {
      if version.V29? {
        var found := PoolIndex(pool, key);
        if found.None? {
          pool := pool + [key];
        }
        return EncodeWord(if found.Some? then found.value else |pool| - 1);
      }
      return EncodeString(key);
    }

    method EncodeDict(value: Dict) returns (r: Result<Bytes, Fault>)
      modifies this`pool
      ensures match Codec.EncodeDict(version, value, old(pool))
              case Ok(e) => r == Ok(e.bytes) && pool == e.pool
              case Err(e) => r == Err(e)
      decreases value
    {
      hide Codec.EncodeKey, Strings.Encode;
      var encoded: Bytes := [];
      var items := value;
      assert forall e: Bytes :: encoded + e == e;
      while items.Entry?
        invariant items == value || items < value
        invariant Codec.EncodeDict(version, value, old(pool)) ==
                  match Codec.EncodeDict(version, items, pool)
                  case Ok(e) => Ok(Encoded(encoded + e.bytes, e.pool))
                  case Err(e) => Err(e)
        decreases items
      {
        ghost var before, poolBefore, itemsBefore := encoded, pool, items;
        encoded := encoded + [Tag(items.value)];
        var key := EncodeKey(items.key);
        if key.Err? {
          return Err(key.error);
        }
        ghost var k := Encoded(key.value, pool);
        encoded := encoded + key.value;
        var item;
        match items.value {
          case Sub(d) =>
            item := EncodeDict(d);
          case Text(s) =>
            item := EncodeString(s);
          case Num(n) =>
            item := EncodeWord(n);
        }
        if item.Err? {
          return Err(item.error);
        }
        ghost var x := Encoded(item.value, pool);
        encoded := encoded + item.value;
        EntryEncoded(version, items, poolBefore, k, x, before, encoded);
        items := items.rest;
      }
      encoded := encoded + [END];
      return Ok(encoded);
    }

    // Re-encode one app record after an edit of its sections, in place.
    method RewriteRecord(appid: Word32) returns (r: Result<(), Fault>)
      requires Sound(View())
      modifies this`data, this`pool
      ensures match Rewrite(old(View()), appid, sums)
              case Ok(img) => r.Ok? && View() == img
              case Err(e) => r == Err(e)
    {
      hide Codec.EncodeDict, PackHeader, EncodeStrings, Pack32, Pack64, PackInto;
      if appid !in records {
        return Err(NoSuchApp);
      }
      var rec := records[appid];
      var e := EncodeDict(rec.sections);
      if e.Err? {
        return Err(e.error);
      }
      var encodedSections := e.value;
      if |encodedSections| + HEADER - 8 >= LIMIT32 {
        return Err(TooLarge);
      }
      var replacement := PackHeader(NewHeader(rec, encodedSections, sums)) + encodedSections;
      data := data[..rec.start] + replacement + data[rec.end..];
      if version.V29? {
        var table := stringOffset + |replacement| - (rec.end - rec.start);
        var additions := EncodeStrings(pool[poolCount..]);
        if additions.Err? {
          return Err(additions.error);
        }
        data := data + additions.value;
        if !(-LIMIT63 <= table < LIMIT63) || |pool| >= LIMIT32 {
          return Err(TooLarge);
        }
        var moved := PackInto(data, 8, Pack64(if table < 0 then table + LIMIT64 else table));
        if moved.Err? {
          return Err(moved.error);
        }
        data := moved.value;
        var counted := PackInto(data, table, Pack32(|pool|));
        if counted.Err? {
          return Err(counted.error);
        }
        data := counted.value;
      }
      return Ok(());
    }

    // --- Launch entries -----------------------------------------------------

    method WindowsLaunches(appid: int) returns (r: Result<seq<WindowsLaunch>, Fault>)
      ensures r == match SectionsOf(View(), appid, NoLaunchSection)
                   case Ok(sections) => Launch.WindowsLaunches(host, sections)
                   case Err(e) => Err(e)
    {
      hide IsUsable, CommonOs, CommonOk, Find;
      var found := SectionsOf(View(), appid, NoLaunchSection);
      if found.Err? {
        return Err(found.error);
      }
      var sections := found.value;
      var launch := Find(sections, LAUNCH);
      if launch.None? || !CommonOk(sections) {
        return Err(NoLaunchSection);
      }
      var commonOs := CommonOs(sections);
      var result: seq<WindowsLaunch> := [];
      var items := launch.value;
      while items.Entry?
        invariant items == launch.value || items < launch.value
        invariant result + Select(host, commonOs, items) == Select(host, commonOs, launch.value)
        decreases items
      {
        if IsUsable(host, commonOs, items.key, items.value) {
          UsableHasExecutable(host, commonOs, items.key, items.value);
          var item := items.value.dict;
          result := result + [WindowsLaunch(items.key, Get(item, "executable").value.text, WorkingDir(item))];
        }
        items := items.rest;
      }
      assert result + [] == result;
      return if result == [] then Err(NoWindowsLaunch) else Ok(result);
    }

    // Hide the Windows entries that are not supported. No rewrite yet.
    method DisableUnusable(appid: int, supported: set<string>) returns (r: Result<seq<Disabled>, Fault>)
      modifies this`records
      ensures match SectionsOf(old(View()), appid, NoLaunchSection)
              case Err(e) => r == Err(e)
              case Ok(sections) =>
                (match Find(sections, LAUNCH)
                 case None => r == Err(NoLaunchSection)
                 case Some(launch) =>
                   (match Disable(host, CommonOs(sections), supported, launch)
                    case Err(e) => r == Err(e)
                    case Ok(edit) =>
                      && r == Ok(edit.1)
                      && View() == WithSections(old(View()), appid, Graft(sections, LAUNCH, edit.0))))
    {
      hide IsWindowsEntry, CommonOs, Find, Graft;
      var found := SectionsOf(View(), appid, NoLaunchSection);
      if found.Err? {
        return Err(found.error);
      }
      var sections := found.value;
      var launch := Find(sections, LAUNCH);
      if launch.None? {
        return Err(NoLaunchSection);
      }
      var commonOs := CommonOs(sections);
      var front, items := Empty, launch.value;
      var disabled: seq<Disabled> := [];
      assert forall more: seq<Disabled> :: disabled + more == more;
      while items.Entry?
        invariant View() == old(View())
        invariant items == launch.value || items < launch.value
        invariant Disable(host, commonOs, supported, launch.value) ==
                  match Disable(host, commonOs, supported, items)
                  case Ok(edit) => Ok((Append(front, edit.0), disabled + edit.1))
                  case Err(e) => Err(e)
        decreases items
      {
        var key, item := items.key, items.value;
        ghost var after := Disable(host, commonOs, supported, items.rest);
        if key !in supported && IsWindowsEntry(host, commonOs, key, item) {
          WindowsHasFields(host, commonOs, key, item);
          var config := ConfigOf(item.dict);
          if config.Some? && !config.value.Sub? {
            return Err(BadConfig);
          }
          var installed := Sub(InstalledConfig(item.dict));
          var record := Disabled(key, config.Some?, config, installed);
          var item' := Sub(Put(item.dict, "config", installed));
          if after.Ok? {
            AppendOne(front, key, item', after.value.0);
            assert disabled + ([record] + after.value.1) == disabled + [record] + after.value.1;
          }
          front := Append(front, Entry(key, item', Empty));
          disabled := disabled + [record];
        } else {
          if after.Ok? {
            AppendOne(front, key, item, after.value.0);
          }
          front := Append(front, Entry(key, item, Empty));
        }
        items := items.rest;
      }
      AppendEmpty(front);
      assert disabled + [] == disabled;
      records := records[appid := records[appid].(sections := Graft(sections, LAUNCH, front))];
      return Ok(disabled);
    }

    // Redirect several entries in place and rewrite the record once. A failure
    // leaves the entries before it redirected in memory, and the bytes as they were.
    method ReplaceLaunches(appid: int, replacements: seq<(string, string)>, expects: Option<map<string, Option<Value>>>)
      returns (r: Result<seq<Redirect>, Fault>)
      requires Sound(View())
      modifies this`records, this`data, this`pool
      ensures match SectionsOf(old(View()), appid, NoLaunchSection)
              case Err(e) => r == Err(e) && View() == old(View())
              case Ok(sections) =>
                (match Launch.ReplaceLaunches(sections, replacements, expects)
                 case Err(e) => r == Err(e) && data == old(data) && pool == old(pool)
                 case Ok(edit) =>
                   (match RewriteWith(old(View()), appid, edit.0, sums)
                    case Ok(img) => r == Ok(edit.1) && View() == img
                    case Err(e) => r == Err(e)))
    {
      hide Find, Graft, Replace, Rewrite;
      var found := SectionsOf(View(), appid, NoLaunchSection);
      if found.Err? {
        return Err(found.error);
      }
      var sections := found.value;
      var launch := Find(sections, LAUNCH);
      if launch.None? {
        return Err(NoLaunchSection);
      }
      var redirected := RedirectEach(appid, sections, launch.value, replacements, expects);
      if redirected.Err? {
        return Err(redirected.error);
      }
      if redirected.value.1 == [] {
        return Err(NothingToReplace);
      }
      var w := RewriteRecord(appid);
      return if w.Ok? then Ok(redirected.value.1) else Err(w.error);
    }

    // The entries in memory, one after another.
    method RedirectEach(
      appid: Word32, sections: Dict, launch: Dict, replacements: seq<(string, string)>,
      expects: Option<map<string, Option<Value>>>)
      returns (r: Result<(Dict, seq<Redirect>), Fault>)
      requires appid in records && Find(sections, LAUNCH).Some?
      modifies this`records
      ensures r == Replace(launch, replacements, expects)
      ensures r.Ok? ==>
                && |r.value.1| == |replacements|
                && records == if replacements == [] then old(records)
                              else old(records)[appid :=
                                  old(records)[appid].(sections := Graft(sections, LAUNCH, r.value.0))]
    {
      hide Find, Graft, ReplaceOne, Replace, GuardOf, Then;
      var edited := launch;
      var changed: seq<Redirect> := [];
      assert replacements[0..] == replacements;
      ThenNothing(Replace(launch, replacements, expects));
      var i := 0;
      while i < |replacements|
        invariant 0 <= i <= |replacements| && |changed| == i
        invariant records == if i == 0 then old(records)
                             else old(records)[appid :=
                                 old(records)[appid].(sections := Graft(sections, LAUNCH, edited))]
        invariant Replace(launch, replacements, expects) == Then(Replace(edited, replacements[i..], expects), changed)
      {
        var (entry, executable) := replacements[i];
        ReplaceThen(edited, replacements, i, expects, changed);
        var one := ReplaceOne(edited, entry, executable, GuardOf(expects, entry));
        if one.Err? {
          return Err(one.error);
        }
        edited := one.value.0;
        records := records[appid := records[appid].(sections := Graft(sections, LAUNCH, edited))];
        changed := changed + [Redirect(entry, Text(one.value.1), Text(executable))];
        i := i + 1;
      }
      ReplaceEnds(edited, replacements, expects, changed);
      return Ok((edited, changed));
    }

    // Redirect one entry, given by key or found by its executable's name.
    method ReplaceLaunch(appid: int, executable: string, selector: Selector, guard: Guard)
      returns (r: Result<Redirect, Fault>)
      requires Sound(View())
      modifies this`records, this`data, this`pool
      ensures match SectionsOf(old(View()), appid, NoSuchApp)
              case Err(e) => r == Err(e) && View() == old(View())
              case Ok(sections) =>
                (match Launch.ReplaceLaunch(host, sections, executable, selector, guard)
                 case Err(e) => r == Err(e) && View() == old(View())
                 case Ok(edit) =>
                   (match RewriteWith(old(View()), appid, edit.0, sums)
                    case Ok(img) => r == Ok(edit.1) && View() == img
                    case Err(e) => r == Err(e)))
    {
      hide Find, Graft, ReplaceOne, Rewrite, Matches;
      var found := SectionsOf(View(), appid, NoSuchApp);
      if found.Err? {
        return Err(found.error);
      }
      var sections := found.value;
      var launch := Find(sections, LAUNCH);
      if launch.None? {
        return Err(NoLaunchSection);
      }
      var selected := None;
      match selector {
        case ByEntry(entry) =>
          selected := Some(entry);
        case ByMatch(name) =>
          var items := launch.value;
          while items.Entry? && selected.None?
            invariant items == launch.value || items < launch.value
            invariant FirstMatch(host, name, launch.value) ==
                      if selected.Some? then selected else FirstMatch(host, name, items)
            decreases items
          {
            if Matches(host, name, items.value) {
              selected := Some(items.key);
            }
            items := items.rest;
          }
      }
      if selected.None? {
        return Err(NoMatch);
      }
      var one := ReplaceOne(launch.value, selected.value, executable, guard);
      if one.Err? {
        return Err(one.error);
      }
      records := records[appid := records[appid].(sections := Graft(sections, LAUNCH, one.value.0))];
      var w := RewriteRecord(appid);
      return if w.Ok? then Ok(Redirect(selected.value, Text(one.value.1), Text(executable))) else Err(w.error);
    }

    // Restore a recorded state: validate everything, then apply everything.
    method RestoreState(st: State, expected: Option<int>) returns (r: Result<(), Fault>)
      requires Sound(View())
      modifies this`records, this`data, this`pool, this`lastRestoreChanged
      ensures match RestoreImage(sums, old(View()), st, expected)
              case Ok(edit) => r.Ok? && View() == edit.0 && lastRestoreChanged == edit.1
              case Err(e) => r == Err(e) && !lastRestoreChanged
      ensures ValidateImage(old(View()), st, expected).Err? ==> r.Err? && View() == old(View())
    {
      hide Find, Graft, CheckRedirects, CheckAllDisabled, ApplyExecutables, ApplyConfigs, Rewrite;
      lastRestoreChanged := false;
      if st.entries == [] {
        return Err(BadState);
      }
      if expected.Some? && expected.value != st.appid {
        return Err(WrongApp);
      }
      var found := SectionsOf(View(), st.appid, BadState);
      if found.Err? {
        return Err(found.error);
      }
      var sections := found.value;
      var launch := Find(sections, LAUNCH);
      if launch.None? {
        return Err(BadState);
      }
      var executables := CollectRedirects(launch.value, st.entries);
      if executables.Err? {
        return Err(executables.error);
      }
      var configs := CollectDisabled(launch.value, st.disabled);
      if configs.Err? {
        return Err(configs.error);
      }
      if executables.value != [] || configs.value != [] {
        var edited := WriteExecutables(launch.value, executables.value);
        var applied := WriteConfigs(edited, configs.value);
        if applied.Err? {
          return Err(applied.error);
        }
        records := records[st.appid := records[st.appid].(sections := Graft(sections, LAUNCH, applied.value))];
        var w := RewriteRecord(st.appid);
        if w.Err? {
          return Err(w.error);
        }
        lastRestoreChanged := true;
      }
      return Ok(());
    }
  }

  // The validation loops of restore_state.
  method CollectRedirects(launch: Dict, entries: seq<Redirect>) returns (r: Result<seq<(string, string)>, Fault>)
    ensures r == CheckRedirects(launch, entries)
  {
    hide CheckRedirect;
    var changes: seq<(string, string)> := [];
    PrependNothing(CheckRedirects(launch, entries));
    for i := 0 to |entries|
      invariant CheckRedirects(launch, entries) == Prepend(changes, CheckRedirects(launch, entries[i..]))
    {
      var one := CheckRedirect(launch, entries[i]);
      CheckRedirectsStep(launch, entries, i);
      if one.Err? {
        return Err(one.error);
      }
      PrependTwice(changes, one.value, CheckRedirects(launch, entries[i + 1..]));
      changes := changes + one.value;
    }
    assert changes + [] == changes;
    return Ok(changes);
  }

  method CollectDisabled(launch: Dict, disabled: seq<Disabled>) returns (r: Result<seq<(string, Option<Value>)>, Fault>)
    ensures r == CheckAllDisabled(launch, disabled)
  {
    hide CheckDisabled;
    var changes: seq<(string, Option<Value>)> := [];
    PrependNothing(CheckAllDisabled(launch, disabled));
    for i := 0 to |disabled|
      invariant CheckAllDisabled(launch, disabled) == Prepend(changes, CheckAllDisabled(launch, disabled[i..]))
    {
      var one := CheckDisabled(launch, disabled[i]);
      CheckAllDisabledStep(launch, disabled, i);
      if one.Err? {
        return Err(one.error);
      }
      PrependTwice(changes, one.value, CheckAllDisabled(launch, disabled[i + 1..]));
      changes := changes + one.value;
    }
    assert changes + [] == changes;
    return Ok(changes);
  }

  function Prepend<T>(front: seq<T>, r: Result<seq<T>, Fault>): Result<seq<T>, Fault> {
    match r
    case Ok(rest) => Ok(front + rest)
    case Err(e) => Err(e)
  }

  lemma {:induction false} PrependNothing<T>(r: Result<seq<T>, Fault>)
    ensures Prepend([], r) == r
  {
    if r.Ok? { assert [] + r.value == r.value; }
  }

  lemma {:induction false} PrependTwice<T>(a: seq<T>, b: seq<T>, r: Result<seq<T>, Fault>)
    ensures Prepend(a, Prepend(b, r)) == Prepend(a + b, r)
  {
    if r.Ok? { assert a + (b + r.value) == a + b + r.value; }
  }

  // What was changed before, and the rest.
  function Then(r: Result<(Dict, seq<Redirect>), Fault>, changed: seq<Redirect>): Result<(Dict, seq<Redirect>), Fault> {
    match r
    case Ok((launch, more)) => Ok((launch, changed + more))
    case Err(e) => Err(e)
  }

  lemma {:induction false} ThenNothing(r: Result<(Dict, seq<Redirect>), Fault>)
    ensures Then(r, []) == r
  {
    if r.Ok? { assert [] + r.value.1 == r.value.1; }
  }

  lemma {:induction false} ReplaceThen(
    launch: Dict, replacements: seq<(string, string)>, i: nat, expects: Option<map<string, Option<Value>>>,
    changed: seq<Redirect>)
    requires i < |replacements|
    ensures var (entry, executable) := replacements[i];
            Then(Replace(launch, replacements[i..], expects), changed) ==
            match ReplaceOne(launch, entry, executable, GuardOf(expects, entry))
            case Ok((launch', current)) =>
              Then(Replace(launch', replacements[i + 1..], expects),
                changed + [Redirect(entry, Text(current), Text(executable))])
            case Err(e) => Err(e)
  {
    hide ReplaceOne, GuardOf;
    var (entry, executable) := replacements[i];
    assert replacements[i..][0] == replacements[i] && replacements[i..][1..] == replacements[i + 1..];
    var one := ReplaceOne(launch, entry, executable, GuardOf(expects, entry));
    if one.Ok? && Replace(one.value.0, replacements[i + 1..], expects).Ok? {
      var record := Redirect(entry, Text(one.value.1), Text(executable));
      var more := Replace(one.value.0, replacements[i + 1..], expects).value.1;
      assert changed + ([record] + more) == changed + [record] + more;
    }
  }

  lemma {:induction false} ReplaceEnds(
    launch: Dict, replacements: seq<(string, string)>, expects: Option<map<string, Option<Value>>>,
    changed: seq<Redirect>)
    ensures Then(Replace(launch, replacements[|replacements|..], expects), changed) == Ok((launch, changed))
  {
    assert replacements[|replacements|..] == [] && changed + [] == changed;
  }

  lemma {:induction false} CheckRedirectsStep(launch: Dict, entries: seq<Redirect>, i: nat)
    requires i < |entries|
    ensures CheckRedirects(launch, entries[i..]) ==
            match CheckRedirect(launch, entries[i])
            case Ok(first) => Prepend(first, CheckRedirects(launch, entries[i + 1..]))
            case Err(e) => Err(e)
  {
  }

  lemma {:induction false} CheckAllDisabledStep(launch: Dict, disabled: seq<Disabled>, i: nat)
    requires i < |disabled|
    ensures CheckAllDisabled(launch, disabled[i..]) ==
            match CheckDisabled(launch, disabled[i])
            case Ok(first) => Prepend(first, CheckAllDisabled(launch, disabled[i + 1..]))
            case Err(e) => Err(e)
  {
  }

  method WriteExecutables(launch: Dict, changes: seq<(string, string)>) returns (edited: Dict)
    ensures edited == ApplyExecutables(launch, changes)
  {
    edited := launch;
    for i := 0 to |changes|
      invariant ApplyExecutables(edited, changes[i..]) == ApplyExecutables(launch, changes)
    {
      var (entry, executable) := changes[i];
      assert changes[i..][1..] == changes[i + 1..];
      edited := Put(edited, entry, Sub(Put(Fields(edited, entry), "executable", Text(executable))));
    }
  }

  method WriteConfigs(launch: Dict, changes: seq<(string, Option<Value>)>) returns (r: Result<Dict, Fault>)
    ensures r == ApplyConfigs(launch, changes)
  {
    var edited := launch;
    for i := 0 to |changes|
      invariant ApplyConfigs(edited, changes[i..]) == ApplyConfigs(launch, changes)
    {
      var (entry, config) := changes[i];
      assert changes[i..][1..] == changes[i + 1..];
      var item := Fields(edited, entry);
      if config.None? && !Has(item, "config") {
        return Err(NoSuchEntry);
      }
      edited := Put(edited, entry,
          Sub(if config.Some? then Put(item, "config", config.value) else Del(item, "config")));
    }
    return Ok(edited);
  }

  lemma {:induction false} UsableHasExecutable(h: Host, commonOs: Option<Value>, key: string, item: Value)
    requires IsUsable(h, commonOs, key, item)
    ensures item.Sub? && Get(item.dict, "executable").Some? && Get(item.dict, "executable").value.Text?
  {
  }

  lemma {:induction false} WindowsHasFields(h: Host, commonOs: Option<Value>, key: string, item: Value)
    requires IsWindowsEntry(h, commonOs, key, item)
    ensures item.Sub?
  {
  }

  lemma {:induction false} AppendOne(front: Dict, key: string, item: Value, rest: Dict)
    ensures Append(Append(front, Entry(key, item, Empty)), rest) == Append(front, Entry(key, item, rest))
  {
    if front.Entry? {
      AppendOne(front.rest, key, item, rest);
    }
  }

  // One turn of the encoding loop.
  lemma {:induction false} EntryEncoded(
    v: Version, items: Dict, pool: seq<string>, k: Encoded, x: Encoded, before: Bytes, after: Bytes)
    requires items.Entry? && Codec.EncodeKey(v, items.key, pool) == Ok(k)
               && EncodeValue(v, items.value, k.pool) == Ok(x)
    requires after == before + [Tag(items.value)] + k.bytes + x.bytes
    ensures match Codec.EncodeDict(v, items.rest, x.pool)
            case Ok(r) =>
              var whole := Codec.EncodeDict(v, items, pool);
              whole.Ok? && whole.value.pool == r.pool && before + whole.value.bytes == after + r.bytes
            case Err(e) => Codec.EncodeDict(v, items, pool) == Err(e)
  {
    hide Codec.EncodeKey, Strings.Encode;
    var r := Codec.EncodeDict(v, items.rest, x.pool);
    if r.Ok? {
      assert before + ([Tag(items.value)] + k.bytes + x.bytes + r.value.bytes) == after + r.value.bytes;
    }
  }
}