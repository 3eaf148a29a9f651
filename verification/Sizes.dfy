// How long a record is, and so when a rewrite overflows: the length of an
// encoding depends on the tree alone, and an edit that needs no new key fails
// exactly when a size or an offset outgrows its field.
module Sizes {
  import opened Wrappers
  import opened Words
  import opened Strings
  import opened Vdf
  import opened Codec
  import opened AppImage
  import opened Storage
  import opened Cloud
  import opened CloudUndo
  import opened CloudFiles
  import opened EndToEnd
  import Editor

  // --- The length of an encoding --------------------------------------------

  // A NUL-terminated string.
  function TextLength(s: string): nat {
    match Encode(s)
    case Some(raw) => |raw| + 1
    case None => 1
  }

  function KeyLength(v: Version, key: string): nat {
    if v.V29? then 4 else TextLength(key)
  }

  function ValueLength(v: Version, x: Value): nat {
    match x
    case Sub(d) => Length(v, d)
    case Text(s) => TextLength(s)
    case Num(_) => 4
  }

  function Length(v: Version, d: Dict): nat {
    match d
    case Empty => 1
    case Entry(key, x, rest) => 1 + KeyLength(v, key) + ValueLength(v, x) + Length(v, rest)
  }

  lemma {:induction false} EncodedKeyLength(v: Version, key: string, pool: seq<string>)
    requires EncodeKey(v, key, pool).Ok?
    ensures |EncodeKey(v, key, pool).value.bytes| == KeyLength(v, key)
  {
    hide Encode;
  }

  lemma {:induction false} EncodedLength(v: Version, d: Dict, pool: seq<string>)
    requires EncodeDict(v, d, pool).Ok?
    ensures |EncodeDict(v, d, pool).value.bytes| == Length(v, d)
    decreases d, 0
  {
    hide EncodeKey, EncodeString, EncodeWord;
    if d.Entry? {
      var k, x, r := EncodedEntry(v, d.key, d.value, d.rest, pool, EncodeDict(v, d, pool).value);
      EncodedKeyLength(v, d.key, pool);
      EncodedValueLength(v, d.value, k.pool);
      EncodedLength(v, d.rest, x.pool);
    }
  }

  lemma {:induction false} EncodedValueLength(v: Version, x: Value, pool: seq<string>)
    requires EncodeValue(v, x, pool).Ok?
    ensures |EncodeValue(v, x, pool).value.bytes| == ValueLength(v, x)
    decreases x, 1
  {
    hide Encode, EncodeKey;
    if x.Sub? {
      EncodedLength(v, x.dict, pool);
    }
  }

  // --- It depends on the tree alone -----------------------------------------

  lemma {:induction false} DelLength(v: Version, d: Dict, key: string)
    requires Has(d, key)
    ensures Length(v, d)
         == Length(v, Del(d, key)) + 1 + KeyLength(v, key) + ValueLength(v, Get(d, key).value)
  {
    hide KeyLength;
    if d.key != key {
      DelLength(v, d.rest, key);
    }
  }

  lemma {:induction false} NothingAbs(d: Dict)
    ensures Abs(d) == map[] <==> d == Empty
  {
    if d.Entry? {
      assert d.key in Abs(d);
    }
  }

  lemma {:induction false} SameLength(v: Version, a: Dict, b: Dict)
    requires Proper(a) && Proper(b) && Abs(a) == Abs(b)
    ensures Length(v, a) == Length(v, b)
    decreases a, 0
  {
    hide KeyLength;
    match a
    case Empty =>
      NothingAbs(b);
    case Entry(key, x, rest) =>
      AbsGet(b, key);
      assert Has(b, key) && AbsValue(Get(b, key).value) == AbsValue(x);
      AbsGet(rest, key);
      AbsDel(b, key);
      assert Abs(rest) == Abs(Del(b, key));
      ProperDel(b, key);
      ProperGet(b, key);
      DelLength(v, b, key);
      SameLength(v, rest, Del(b, key));
      SameValueLength(v, x, Get(b, key).value);
  }

  lemma {:induction false} SameValueLength(v: Version, x: Value, y: Value)
    requires ProperValue(x) && ProperValue(y) && AbsValue(x) == AbsValue(y)
    ensures ValueLength(v, x) == ValueLength(v, y)
    decreases x, 1
  {
    if x.Sub? {
      SameLength(v, x.dict, y.dict);
    }
  }

  lemma {:induction false} PutLength(v: Version, d: Dict, key: string, x: Value)
    ensures Length(v, Put(d, key, x))
         == (if Has(d, key) then Length(v, d) - ValueLength(v, Get(d, key).value)
             else Length(v, d) + 1 + KeyLength(v, key))
            + ValueLength(v, x)
  {
    hide KeyLength;
    if d.Entry? && d.key != key {
      PutLength(v, d.rest, key, x);
    }
  }

  lemma {:induction false} GraftLength(v: Version, d: Dict, path: seq<string>, sub: Dict)
    requires Find(d, path).Some?
    ensures Length(v, Graft(d, path, sub)) == Length(v, d) + Length(v, sub) - Length(v, Find(d, path).value)
    decreases path
  {
    if path != [] {
      var e := Get(d, path[0]).value.dict;
      GraftLength(v, e, path[1..], sub);
      PutLength(v, d, path[0], Sub(Graft(e, path[1..], sub)));
    }
  }

  // --- What was read needs no new key ---------------------------------------

  // Every number is a word, and every key has its place in the pool.
  predicate Settled(v: Version, pool: seq<string>, t: Tree) {
    match t
    case Branch(m) => forall k :: k in m ==> (v.V29? ==> k in pool) && Settled(v, pool, m[k])
    case Leaf(_) => true
    case Count(n) => 0 <= n < LIMIT32
  }

  lemma {:induction false} SettledPut(v: Version, pool: seq<string>, d: Dict, key: string, x: Value)
    requires Settled(v, pool, Branch(Abs(d))) && Settled(v, pool, AbsValue(x)) && (v.V29? ==> key in pool)
    ensures Settled(v, pool, Branch(Abs(Put(d, key, x))))
  {
    AbsPut(d, key, x);
  }

  lemma {:induction false} KeySettled(v: Version, data: Bytes, pool: seq<string>, offset: nat)
    ensures var r := ReadKey(v, data, pool, offset); v.V29? && r.Ok? ==> r.value.0 in pool
  {
    hide ReadString, ReadWord;
  }

  lemma {:induction false} ReadSettled(v: Version, data: Bytes, pool: seq<string>, offset: nat, acc: Dict)
    requires offset <= |data| && Settled(v, pool, Branch(Abs(acc)))
    ensures var r := ReadDict(v, data, pool, offset, acc); r.Ok? ==> Settled(v, pool, Branch(Abs(r.value.0)))
    decreases |data| - offset
  {
    hide ReadString, ReadWord, ReadKey;
    if offset < |data| && data[offset] != END && ReadDict(v, data, pool, offset, acc).Ok? {
      var (key, o1) := ReadKey(v, data, pool, offset + 1).value;
      var (x, o2) := ReadValue(v, data, pool, o1, data[offset]).value;
      KeySettled(v, data, pool, offset + 1);
      if data[offset] == SUB {
        ReadSettled(v, data, pool, o1, Empty);
      }
      SettledPut(v, pool, acc, key, x);
      ReadSettled(v, data, pool, o2, Put(acc, key, x));
    }
  }

  lemma {:induction false} ScanSettled(
    v: Version, data: Bytes, pool: seq<string>, limit: nat, offset: nat, recs: seq<Record>)
    requires limit <= |data| && offset <= |data| && Scan(v, data, pool, limit, offset) == Ok(recs)
    ensures forall i :: 0 <= i < |recs| ==> Settled(v, pool, Branch(Abs(recs[i].sections)))
    decreases |data| - offset
  {
    hide Settled, ReadDict;
    if recs != [] {
      assert Settled(v, pool, Branch(Abs(Empty))) by { NothingSettled(v, pool); }
      ReadSettled(v, data, pool, offset + HEADER, Empty);
      var rest := recs[1..];
      ScanSettled(v, data, pool, limit, recs[0].end, rest);
      forall i | 0 <= i < |recs| ensures Settled(v, pool, Branch(Abs(recs[i].sections))) {
        if i > 0 { assert recs[i] == rest[i - 1]; }
      }
    }
  }

  lemma {:induction false} NothingSettled(v: Version, pool: seq<string>)
    ensures Settled(v, pool, Branch(Abs(Empty)))
  {
  }

  lemma {:induction false} ParsedSettled(data: Bytes, p: Image, appid: Word32)
    requires Parse(data) == Ok(p) && appid in p.records
    ensures Settled(p.version, p.pool, Branch(Abs(p.records[appid].sections)))
    ensures |p.pool| < LIMIT32
  {
    hide Settled, Index, Scan, ReadStrings;
    var l := ReadLayout(data).value;
    IndexMember(l.recs, appid);
    ScanSettled(l.version, data, l.pool, l.limit, FIRST, l.recs);
  }

  lemma {:induction false} SettledCons(v: Version, pool: seq<string>, key: string, x: Value, rest: Dict)
    requires Settled(v, pool, Branch(Abs(Entry(key, x, rest)))) && !Has(rest, key)
    ensures (v.V29? ==> key in pool) && Settled(v, pool, AbsValue(x)) && Settled(v, pool, Branch(Abs(rest)))
  {
    AbsGet(rest, key);
    var m, r := Abs(Entry(key, x, rest)), Abs(rest);
    assert m[key] == AbsValue(x);
    forall k | k in r ensures (v.V29? ==> k in pool) && Settled(v, pool, r[k]) { assert k in m && m[k] == r[k]; }
  }

  // Such sections can be encoded, and the pool stays as it is.
  lemma {:induction false} SettledEncodes(v: Version, pool: seq<string>, d: Dict)
    requires Proper(d) && Writable(v, d) && Settled(v, pool, Branch(Abs(d))) && |pool| < LIMIT32
    ensures EncodeDict(v, d, pool).Ok? && EncodeDict(v, d, pool).value.pool == pool
    decreases d, 0
  {
    hide Storable, Settled, EncodeKey;
    if d.Entry? {
      SettledCons(v, pool, d.key, d.value, d.rest);
      SettledKey(v, pool, d.key);
      SettledValueEncodes(v, pool, d.value);
      SettledEncodes(v, pool, d.rest);
    }
  }

  lemma {:induction false} SettledKey(v: Version, pool: seq<string>, key: string)
    requires if v.V29? then key in pool else Storable(key)
    requires |pool| < LIMIT32
    ensures EncodeKey(v, key, pool).Ok? && EncodeKey(v, key, pool).value.pool == pool
  {
    if v.V28? {
      EncodeStorable(key);
    }
  }

  lemma {:induction false} SettledValueEncodes(v: Version, pool: seq<string>, x: Value)
    requires ProperValue(x) && WritableValue(v, x) && Settled(v, pool, AbsValue(x)) && |pool| < LIMIT32
    ensures EncodeValue(v, x, pool).Ok? && EncodeValue(v, x, pool).value.pool == pool
    decreases x, 1
  {
    hide EncodeKey;
    match x
    case Sub(d) => SettledEncodes(v, pool, d);
    case Text(s) => EncodeStorable(s);
    case Num(_) =>
  }

  // --- When a rewrite overflows ---------------------------------------------

  // An app's record of `n` bytes of sections outgrows the size field, or pushes
  // the string table past its offset field.
  predicate Overflows(p: Image, appid: Word32, n: nat)
    requires appid in p.records
  {
    || n + HEADER - 8 >= LIMIT32
    || (p.version.V29?
        && p.stringOffset + HEADER + n - (p.records[appid].end - p.records[appid].start) >= LIMIT63)
  }

  // Sections that need no new key are rewritten unless they are too long.
  lemma {:induction false} RewriteFailsExactly(
    file: Bytes, p: Image, appid: Word32, sections: Dict, sums: Sums)
    requires Loaded(file, p, appid) && Proper(sections) && FitsAll(p.version, p.pool, Abs(sections))
    requires Settled(p.version, p.pool, Branch(Abs(sections)))
    ensures Editor.RewriteWith(p, appid, sections, sums).Err? <==> Overflows(p, appid, Length(p.version, sections))
  {
    hide Index, Scan, ReadStrings, EncodeDict, PackHeader, Pack32, Pack64, ReadLayout, PackInto, Storable, Settled,
      FitsAll, Length;
    RepresentableTree(p.version, p.pool, sections);
    var l := ParsedParts(file, p);
    ParsedSettled(file, p, appid);
    SettledEncodes(p.version, p.pool, sections);
    EncodedLength(p.version, sections, p.pool);
    var e := EncodeDict(p.version, sections, p.pool).value;
    assert e.pool[p.poolCount..] == [];
    var target := p.records[appid];
    IndexMember(l.recs, appid);
    EndsWithin(l.recs, l.limit);
    if p.version.V29? && |e.bytes| + HEADER - 8 < LIMIT32 {
      var replacement := PackHeader(NewHeader(target.(sections := sections), e.bytes, sums)) + e.bytes;
      var limit' := l.limit + |replacement| - (target.end - target.start);
      if limit' < LIMIT63 {
        PatchFits(file, target.start, target.end, l.limit, replacement, [], limit', Pack64(limit'), Pack32(|e.pool|));
      }
    }
  }

  // --- Taking an installed Cloud mapping back -------------------------------

  // The sections with a table of overrides: an empty one if there was none.
  function WithOverrides(sections: Dict): Dict
    requires Find(sections, UFS).Some? && Overrides(Find(sections, UFS).value).Ok?
  {
    var ufs := Find(sections, UFS).value;
    Graft(sections, UFS, Put(ufs, "rootoverrides", Sub(Overrides(ufs).value)))
  }

  // That costs nothing where there was a table: else 16 bytes, or 6 in version 29.
  lemma {:induction false} OverridesLength(v: Version, sections: Dict)
    requires Find(sections, UFS).Some? && Overrides(Find(sections, UFS).value).Ok?
    ensures Length(v, WithOverrides(sections))
         == Length(v, sections)
            + if Has(Find(sections, UFS).value, "rootoverrides") then 0 else if v.V28? then 16 else 6
  {
    hide Find, Graft;
    var ufs := Find(sections, UFS).value;
    var overrides := Overrides(ufs).value;
    PutLength(v, ufs, "rootoverrides", Sub(overrides));
    GraftLength(v, sections, UFS, Put(ufs, "rootoverrides", Sub(overrides)));
    TableName(v);
  }

  lemma {:induction false} AsciiLength(s: string)
    requires forall i :: 0 <= i < |s| ==> s[i] as int < 0x80
    ensures |Utf8(s)| == |s|
  {
    if s != [] {
      AsciiLength(s[1..]);
    }
  }

  lemma {:induction false} AsciiTextLength(s: string)
    requires forall i :: 0 <= i < |s| ==> s[i] as int < 0x80
    requires s == "" || s[|s| - 1] != MARK
    ensures TextLength(s) == |s| + 1
  {
    hide Utf8, Latin1, IsLatin1;
    AsciiLength(s);
  }

  lemma {:induction false} TableName(v: Version)
    ensures KeyLength(v, "rootoverrides") == if v.V28? then 14 else 4
  {
    hide TextLength;
    AsciiTextLength("rootoverrides");
  }

  // The sections a Cloud restore leaves are those from before the install, with
  // a table of overrides; they need no key the installed image lacks.
  lemma {:induction false} UndoneSections(
    env: Env, appid: nat, sections: Dict, links: Links, sections': Dict, links': Links, entries: seq<CloudEntry>,
    entries': seq<CloudEntry>)
    requires Proper(sections) && CloudInstall(env, appid, sections, links) == Ok((sections', links', entries))
    requires Reloaded(entries, entries')
    ensures Find(sections, UFS).Some? && Overrides(Find(sections, UFS).value).Ok?
    ensures Proper(sections') && CloudRestore(sections', entries').Ok? && CloudRestore(sections', entries').value.1
    ensures var now := CloudRestore(sections', entries').value.0;
            && Proper(now) && Proper(WithOverrides(sections)) && Abs(now) == Abs(WithOverrides(sections))
  {
    hide Find, Graft, CloudInstall, CloudRestore, Overlaid, LinksAdded, Overrides, DistinctKeys, Reloaded, RemoveLinks,
      ProperEntries;
    InstallsOverrides(env, appid, sections, links, sections', links', entries);
    CloudUndoes(env, appid, sections, links, sections', links', entries, sections', entries');
    var now, ufs := CloudRestore(sections', entries').value.0, Find(sections, UFS).value;
    var ufs', overrides := Find(now, UFS).value, Overrides(ufs).value;
    var table := Put(ufs, "rootoverrides", Sub(overrides));
    AbsPut(ufs, "rootoverrides", Sub(overrides));
    GraftGraft(sections, UFS, Find(sections', UFS).value, ufs');
    AbsGraft(sections, UFS, ufs');
    AbsGraft(sections, UFS, table);
    ProperFind(sections, UFS);
    ProperTable(ufs, overrides);
    ProperPut(ufs, "rootoverrides", Sub(overrides));
    ProperGraft(sections, UFS, table);
  }

  lemma {:induction false} SettledLonger(v: Version, pool: seq<string>, pool': seq<string>, t: Tree)
    requires Settled(v, pool, t) && pool <= pool'
    ensures Settled(v, pool', t)
    decreases t
  {
    if t.Branch? {
      forall k | k in t.children ensures (v.V29? ==> k in pool') && Settled(v, pool', t.children[k]) {
        SettledLonger(v, pool, pool', t.children[k]);
        assert k in pool ==> k in pool';
      }
    }
  }

  lemma {:induction false} SettledAt(v: Version, pool: seq<string>, t: map<string, Tree>, path: seq<string>)
    requires Settled(v, pool, Branch(t)) && HasPath(t, path)
    ensures Settled(v, pool, Branch(TreeAt(t, path)))
    decreases path
  {
    if path != [] {
      SettledAt(v, pool, t[path[0]].children, path[1..]);
    }
  }

  lemma {:induction false} SettledGraft(
    v: Version, pool: seq<string>, t: map<string, Tree>, path: seq<string>, sub: map<string, Tree>)
    requires Settled(v, pool, Branch(t)) && HasPath(t, path) && Settled(v, pool, Branch(sub))
    ensures Settled(v, pool, Branch(TreeGraft(t, path, sub)))
    decreases path
  {
    if path != [] {
      SettledGraft(v, pool, t[path[0]].children, path[1..], sub);
    }
  }

  // The table of an app, and the app with it.
  lemma {:induction false} TableSettled(
    v: Version, pool: seq<string>, ufs: Dict, overrides: Dict)
    requires Settled(v, pool, Branch(Abs(ufs))) && Overrides(ufs) == Ok(overrides)
    requires v.V29? ==> "rootoverrides" in pool
    ensures Settled(v, pool, Branch(Abs(ufs)["rootoverrides" := Branch(Abs(overrides))]))
  {
    AbsGet(ufs, "rootoverrides");
    if Has(ufs, "rootoverrides") {
      assert Settled(v, pool, Abs(ufs)["rootoverrides"]);
    }
  }

  lemma {:induction false} UndoneSettled(v: Version, pool: seq<string>, sections: Dict, sections': Dict)
    requires Settled(v, pool, Branch(Abs(sections))) && Settled(v, pool, Branch(Abs(sections')))
    requires Find(sections, UFS).Some? && Overrides(Find(sections, UFS).value).Ok?
    requires Find(sections', UFS).Some? && Has(Find(sections', UFS).value, "rootoverrides")
    ensures Settled(v, pool, Branch(Abs(WithOverrides(sections))))
  {
    hide Settled, Find, Graft, Overrides;
    var ufs, ufs' := Find(sections, UFS).value, Find(sections', UFS).value;
    AbsFind(sections, UFS);
    AbsFind(sections', UFS);
    SettledAt(v, pool, Abs(sections), UFS);
    SettledAt(v, pool, Abs(sections'), UFS);
    AbsGet(ufs', "rootoverrides");
    SettledChild(v, pool, Abs(ufs'), "rootoverrides");
    var overrides := Overrides(ufs).value;
    TableSettled(v, pool, ufs, overrides);
    AbsPut(ufs, "rootoverrides", Sub(overrides));
    AbsGraft(sections, UFS, Put(ufs, "rootoverrides", Sub(overrides)));
    SettledGraft(v, pool, Abs(sections), UFS, Abs(Put(ufs, "rootoverrides", Sub(overrides))));
  }

  lemma {:induction false} SettledChild(v: Version, pool: seq<string>, m: map<string, Tree>, key: string)
    requires Settled(v, pool, Branch(m)) && key in m
    ensures v.V29? ==> key in pool
  {
  }

  lemma {:induction false} UndoneFits(v: Version, pool: seq<string>, sections: Dict)
    requires FitsAll(v, pool, Abs(sections))
    requires Find(sections, UFS).Some? && Overrides(Find(sections, UFS).value).Ok?
    ensures FitsAll(v, pool, Abs(WithOverrides(sections)))
  {
    hide FitsAll, Find, Graft, Overrides;
    var ufs := Find(sections, UFS).value;
    var overrides := Overrides(ufs).value;
    AbsFind(sections, UFS);
    FitsAt(v, pool, Abs(sections), UFS);
    TableIn(v, pool, ufs, overrides);
    FitsOverrides(v, pool, Abs(ufs), Abs(overrides));
    AbsPut(ufs, "rootoverrides", Sub(overrides));
    AbsGraft(sections, UFS, Put(ufs, "rootoverrides", Sub(overrides)));
    FitsGraft(v, pool, Abs(sections), UFS, Abs(Put(ufs, "rootoverrides", Sub(overrides))));
  }

  lemma {:induction false} SameOverflow(p: Image, q: Image, appid: Word32, sections: Dict, n: nat)
    requires Sized(p, q, appid, sections) && q.version == p.version
    ensures Overflows(q, appid, n) <==> Overflows(p, appid, n)
  {
    hide EncodeDict;
  }

  // Right after the install, the Cloud restore fails if and only if the image
  // it was installed on has no room for the app with a table of overrides.
  lemma {:induction false} UndoFailsExactly(
    env: Env, sums: Sums, file: Bytes, p: Image, appid: Word32, links: Links, file': Bytes, links': Links,
    st: CloudState, again: CloudState)
    requires Loaded(file, p, appid) && Arguments(env)
    requires InstallCloud(env, sums, file, links, appid, true) == Ok((file', links', st))
    requires again.appid == st.appid && Reloaded(st.entries, again.entries)
    ensures var sections := p.records[appid].sections;
            && Find(sections, UFS).Some? && Overrides(Find(sections, UFS).value).Ok?
            && (RestoreCloud(sums, file', links', again, Some(appid)).Err?
                <==> Overflows(p, appid, Length(p.version, WithOverrides(sections))))
  {
    hide Parse, WellFormed, Find, CloudInstall, CloudRestore, InstallCloud, WithOverrides, Overrides, OnlyApp, Sized,
      Representable, FitsAll, Settled, Reloaded, Arguments, Editor.RewriteWith, RemoveLinks, Overflows, Length,
      Overlaid, LinksAdded, DistinctKeys, ProperEntries, Graft;
    var q := CloudStep(env, sums, file, p, appid, links, file', links', st);
    var sections, sections' := p.records[appid].sections, q.records[appid].sections;
    LoadedFits(file, p, appid);
    UndoneSections(env, appid, sections, links, sections', links', st.entries, again.entries);
    var now := CloudRestore(sections', again.entries).value.0;
    UndoneLoaded(env, file, p, appid, links, file', q, links', st);
    OnlyAppPools(p, q, appid);
    RewriteFailsExactly(file', q, appid, now, sums);
    SameLength(p.version, now, WithOverrides(sections));
    SameOverflow(p, q, appid, sections', Length(p.version, now));
    UndoRewrites(sums, file', q, appid, links', again);
  }

  lemma {:induction false} UndoRewrites(
    sums: Sums, file: Bytes, p: Image, appid: Word32, links: Links, st: CloudState)
    requires Loaded(file, p, appid) && st.appid == appid
    requires CloudRestore(p.records[appid].sections, st.entries).Ok?
    requires CloudRestore(p.records[appid].sections, st.entries).value.1
    ensures RestoreCloud(sums, file, links, st, Some(appid)).Err?
       <==> Editor.RewriteWith(p, appid, CloudRestore(p.records[appid].sections, st.entries).value.0, sums).Err?
  {
    hide Parse, WellFormed, CloudRestore, Representable, Rewrite, RemoveLinks;
  }

  lemma {:induction false} UndoneLoaded(
    env: Env, file: Bytes, p: Image, appid: Word32, links: Links, file': Bytes, q: Image, links': Links, st: CloudState)
    requires Loaded(file, p, appid) && Loaded(file', q, appid) && OnlyApp(p, q, appid)
    requires CloudInstall(env, appid, p.records[appid].sections, links)
          == Ok((q.records[appid].sections, links', st.entries))
    ensures var sections := p.records[appid].sections;
            && Find(sections, UFS).Some? && Overrides(Find(sections, UFS).value).Ok?
            && Settled(q.version, q.pool, Branch(Abs(WithOverrides(sections))))
            && FitsAll(q.version, q.pool, Abs(WithOverrides(sections)))
  {
    hide Parse, WellFormed, Find, CloudInstall, WithOverrides, Overrides, SameRecord, SizesExact, Representable,
      FitsAll, Settled, Overlaid, LinksAdded, DistinctKeys, ProperEntries, Graft;
    var sections, sections' := p.records[appid].sections, q.records[appid].sections;
    LoadedFits(file, p, appid);
    InstallsOverrides(env, appid, sections, links, sections', links', st.entries);
    var overrides' := Overrides(Find(sections', UFS).value).value;
    GetPut(Find(sections, UFS).value, "rootoverrides", Sub(overrides'), "rootoverrides");
    ParsedSettled(file, p, appid);
    ParsedSettled(file', q, appid);
    SettledLonger(p.version, p.pool, q.pool, Branch(Abs(sections)));
    UndoneSettled(q.version, q.pool, sections, sections');
    AllFits(file, p, q, appid);
    UndoneFits(q.version, q.pool, sections);
  }

  // --- In terms of the image before the install -----------------------------

  // The app has no table of overrides, and its record or the string table has no
  // room for an empty one.
  ghost predicate NoRoomForTable(p: Image, appid: Word32)
    requires appid in p.records && Find(p.records[appid].sections, UFS).Some?
  {
    var rec := p.records[appid];
    var room := if p.version.V28? then 16 else 6;
    && !Has(Find(rec.sections, UFS).value, "rootoverrides")
    && (rec.end - rec.start + room >= LIMIT32 + 8 || (p.version.V29? && p.stringOffset + room >= LIMIT63))
  }

  lemma {:induction false} OffsetFits(data: Bytes, p: Image)
    requires Parse(data) == Ok(p) && p.version.V29?
    ensures p.stringOffset < LIMIT63
  {
    hide Scan, ReadStrings, Index;
  }

  // On an image whose record of the app was written by a rewrite, that is all
  // that makes the Cloud restore fail.
  lemma {:induction false} RewrittenOverflows(before: Image, file: Bytes, p: Image, appid: Word32)
    requires Parse(file) == Ok(p) && appid in p.records && Find(p.records[appid].sections, UFS).Some?
    requires Overrides(Find(p.records[appid].sections, UFS).value).Ok?
    requires Sized(before, p, appid, p.records[appid].sections) && before.version == p.version
    ensures Overflows(p, appid, Length(p.version, WithOverrides(p.records[appid].sections)))
       <==> NoRoomForTable(p, appid)
  {
    hide Parse, Find, WithOverrides, Overrides, EncodeDict, Length;
    var sections := p.records[appid].sections;
    OverridesLength(p.version, sections);
    EncodedLength(p.version, sections, before.pool);
    if p.version.V29? {
      OffsetFits(file, p);
    }
  }
}
