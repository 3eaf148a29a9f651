// A state that records one entry twice, and what a repair makes of it.
module Repeated {
  import opened Wrappers
  import opened Words
  import opened Vdf
  import opened Strings
  import opened Codec
  import opened AppImage
  import opened Launch
  import opened Editor
  import opened EndToEnd
  import opened Mapping
  import opened Repairing
  import opened Scratch

  // --- Small images ---------------------------------------------------------

  // Only texts and dictionaries.
  predicate Texts(d: Dict) {
    match d
    case Empty => true
    case Entry(_, Sub(sub), rest) => Texts(sub) && Texts(rest)
    case Entry(_, Text(_), rest) => Texts(rest)
    case _ => false
  }

  // A bound on the bytes of a tree in version 28.
  function Weight(d: Dict): nat {
    match d
    case Empty => 1
    case Entry(key, Sub(sub), rest) => 2 + 4 * |key| + Weight(sub) + Weight(rest)
    case Entry(key, Text(text), rest) => 3 + 4 * |key| + 4 * |text| + Weight(rest)
    case Entry(key, _, rest) => 6 + 4 * |key| + Weight(rest)
  }

  lemma {:induction false} Utf8Size(s: string)
    ensures |Utf8(s)| <= 4 * |s|
  {
    if s != [] {
      Utf8Size(s[1..]);
    }
  }

  lemma {:induction false} StringSize(s: string)
    requires Storable(s)
    ensures EncodeString(s).Ok? && |EncodeString(s).value| <= 4 * |s| + 1
  {
    Utf8Size(s);
  }

  lemma {:induction false} EncodedSize(d: Dict)
    requires Texts(d) && Writable(V28, d)
    ensures EncodeDict(V28, d, []).Ok? && |EncodeDict(V28, d, []).value.bytes| <= Weight(d)
    ensures EncodeDict(V28, d, []).value.pool == []
    decreases d
  {
    hide Storable, EncodeString;
    if d.Entry? {
      StringSize(d.key);
      EncodedSize(d.rest);
      match d.value
      case Sub(sub) => EncodedSize(sub);
      case Text(text) => StringSize(text);
    }
  }

  // A tree within a weight, as a version 28 image can hold it.
  predicate Light(d: Dict, weight: nat) {
    Proper(d) && Texts(d) && Writable(V28, d) && Weight(d) <= weight
  }

  // A light tree can be written into an image of version 28.
  lemma {:induction false} LightRewrite(p: Image, appid: Word32, sections: Dict, sums: Sums)
    requires Sound(p) && appid in p.records && p.version.V28? && p.pool == []
    requires Light(sections, 0x800)
    ensures RewriteWith(p, appid, sections, sums).Ok?
  {
    hide EncodeDict, PackHeader, Weight;
    EncodedSize(sections);
  }

  // --- The app --------------------------------------------------------------

  function OneLaunch(executable: string): Dict {
    Entry("0", Sub(Entry("executable", Text(executable), Empty)), Empty)
  }

  function OneApp(executable: string): Dict {
    Entry("appinfo", Sub(Entry("config", Sub(Entry("launch", Sub(OneLaunch(executable)), Empty)), Empty)), Empty)
  }

  lemma {:induction false} LightBranch(key: string, d: Dict, weight: nat)
    requires Storable(key) && Light(d, weight)
    ensures Light(Entry(key, Sub(d), Empty), weight + 4 * |key| + 3)
  {
    hide Storable;
    assert Light(Empty, 1);
    assert ProperValue(Sub(d)) && WritableValue(V28, Sub(d));
    assert Proper(Entry(key, Sub(d), Empty));
    assert Writable(V28, Entry(key, Sub(d), Empty));
    assert Texts(Entry(key, Sub(d), Empty));
    assert Weight(Entry(key, Sub(d), Empty)) <= weight + 4 * |key| + 3;
  }

  lemma {:induction false} LightText(key: string, text: string)
    requires Storable(key) && Storable(text)
    ensures Light(Entry(key, Text(text), Empty), 4 * |key| + 4 * |text| + 4)
  {
    hide Storable;
    assert Light(Empty, 1);
    assert ProperValue(Text(text)) && WritableValue(V28, Text(text));
    assert Proper(Entry(key, Text(text), Empty));
    assert Writable(V28, Entry(key, Text(text), Empty));
    assert Texts(Entry(key, Text(text), Empty));
    assert Weight(Entry(key, Text(text), Empty)) <= 4 * |text| + 4 * |key| + 4;
  }

  lemma {:induction false} OneAppLight(executable: string)
    requires Storable(executable) && |executable| < 0x100
    ensures Light(OneApp(executable), 0x800)
  {
    hide Storable;
    EndToEnd.Plain("appinfo");
    EndToEnd.Plain("config");
    EndToEnd.Plain("launch");
    EndToEnd.Plain("0");
    EndToEnd.Plain("executable");
    hide Light;
    var item, launch := Entry("executable", Text(executable), Empty), OneLaunch(executable);
    LightText("executable", executable);
    LightBranch("0", item, 44 + 4 * |executable|);
    LightBranch("launch", launch, 51 + 4 * |executable|);
    LightBranch("config", Entry("launch", Sub(launch), Empty), 78 + 4 * |executable|);
    LightBranch("appinfo", Entry("config", Sub(Entry("launch", Sub(launch), Empty)), Empty), 105 + 4 * |executable|);
    LightMore(OneApp(executable), 136 + 4 * |executable|, 0x800);
  }

  lemma {:induction false} LightMore(d: Dict, weight: nat, more: nat)
    requires Light(d, weight) && weight <= more
    ensures Light(d, more)
  {
  }

  lemma {:induction false} OneAppLaunch(executable: string, other: string)
    ensures Find(OneApp(executable), LAUNCH) == Some(OneLaunch(executable))
    ensures Graft(OneApp(executable), LAUNCH, OneLaunch(other)) == OneApp(other)
  {
    assert LAUNCH[1..] == ["config", "launch"] && LAUNCH[1..][1..] == ["launch"] && ["launch"][1..] == [];
  }

  // --- The state ------------------------------------------------------------

  // Its second record starts where its first one ends.
  const FIRST_RECORD := Item("0", "a.exe", "b.exe", "l")
  const SECOND_RECORD := Item("0", "b.exe", "c.exe", "l")
  const RECORDS := [FIRST_RECORD, SECOND_RECORD]

  lemma {:induction false} ActualsPair(launch: Dict, first: Item, second: Item, actual: Option<Value>)
    requires Actual(launch, first.entry) == Ok(actual) && second.entry == first.entry
    ensures Actuals(launch, [first, second]) == Ok([actual, actual])
  {
    hide Actual;
    assert [first, second][1..] == [second];
    assert Actuals(launch, []) == Ok([]) && [second][1..] == [];
    assert [actual] + [] == [actual];
    assert Actuals(launch, [second]) == Ok([actual]);
    assert [actual] + [actual] == [actual, actual];
  }

  // The repair redirects the entry twice.
  lemma {:induction false} RedirectedTwice(h: Host)
    ensures var b := Some(Text("b.exe"));
            Redirected(h, OneApp("b.exe"), RECORDS, [b, b]) == Ok(OneApp("c.exe"))
  {
    var b := Some(Text("b.exe"));
    OneAppLaunch("b.exe", "c.exe");
    var expects := Expected(RECORDS, [b, b]);
    assert expects["0"] == b;
    assert Wanted(RECORDS) == [("0", "b.exe"), ("0", "c.exe")] && Wanted(RECORDS)[1..] == [("0", "c.exe")];
    assert ReplaceOne(OneLaunch("b.exe"), "0", "b.exe", Exactly(b)) == Ok((OneLaunch("b.exe"), "b.exe"));
    assert ReplaceOne(OneLaunch("b.exe"), "0", "c.exe", Exactly(b)) == Ok((OneLaunch("c.exe"), "b.exe"));
    assert Replace(OneLaunch("b.exe"), [("0", "c.exe")], Some(expects)).value.0 == OneLaunch("c.exe") by {
      assert [("0", "c.exe")][1..] == [];
    }
  }

  lemma {:induction false} StaleFirst(files: Files)
    requires files.config && files.launcher("l")
    ensures var b := Some(Text("b.exe"));
            && Actuals(OneLaunch("b.exe"), RECORDS) == Ok([b, b])
            && Overall(Statuses(RECORDS, [b, b], files)) == Stale
    ensures !Agree(RECORDS)
  {
    var b := Some(Text("b.exe"));
    assert "a.exe"[0] != "b.exe"[0] && "b.exe"[0] != "c.exe"[0];
    ActualsPair(OneLaunch("b.exe"), FIRST_RECORD, SECOND_RECORD, b);
    assert Statuses(RECORDS, [b, b], files) == [Healthy, Stale];
    assert RECORDS[0].entry == RECORDS[1].entry && RECORDS[0].installed != RECORDS[1].installed;
  }

  lemma {:induction false} RecordsStorable()
    ensures forall i :: 0 <= i < |RECORDS| ==> Storable(RECORDS[i].installed)
    ensures Storable("b.exe") && Storable("c.exe")
  {
    EndToEnd.Plain("b.exe");
    EndToEnd.Plain("c.exe");
  }

  // A file and a state for which the mapping is stale, the repair succeeds, and
  // the mapping is not healthy afterwards.
  lemma {:induction false} RepeatedEntry(h: Host, sums: Sums, files: Files)
    returns (file: Bytes, file': Bytes, info: Info)
    requires files.config && files.launcher("l")
    ensures var recorded := Recorded(1, RECORDS);
            && Inspect(Some(file), recorded, Some(1), files).Ok?
            && Inspect(Some(file), recorded, Some(1), files).value.health == Stale
            && Repair(h, sums, Some(file), recorded, Some(1), files, false, false, _ => false)
               == Ok((Some(file'), info))
            && info.health != Healthy
  {
    hide Storable, Parse, Loaded, EncodeDict, Find, Graft, Actuals, Overall, Statuses, Redirected, Inspect, Repaired,
      Rewrote, Agree, RewriteWith, Light;
    var recorded, b := Recorded(1, RECORDS), Some(Text("b.exe"));
    RecordsStorable();
    OneAppLight("b.exe");
    var e := LightLoads(OneApp("b.exe"));
    file := Made28(1, e.bytes);
    var p := Parse(file).value;
    OneAppLaunch("b.exe", "c.exe");
    StaleFirst(files);
    InspectLoaded(file, p, recorded, Some(1), files);
    RedirectedTwice(h);
    OneAppLight("c.exe");
    file' := RepairedLight(h, sums, file, p, OneApp("b.exe"), RECORDS, [b, b], OneApp("c.exe"));
    RewroteHealth(h, sums, file, p, recorded, Some(1), files, [b, b], file');
    info := Inspect(Some(file'), recorded, Some(1), files).value;
    Present(files);
  }

  lemma {:induction false} Present(files: Files)
    requires files.launcher("l")
    ensures LaunchersPresent(RECORDS, files)
  {
  }

  lemma {:induction false} LightLoads(sections: Dict) returns (e: Encoded)
    requires Light(sections, 0x800)
    ensures |e.bytes| + HEADER - 8 < LIMIT32
    ensures Parse(Made28(1, e.bytes)).Ok?
    ensures var p := Parse(Made28(1, e.bytes)).value;
            && Loaded(Made28(1, e.bytes), p, 1) && Sound(p) && 1 in p.records && p.records[1].sections == sections
            && p.version.V28? && p.pool == []
  {
    hide Parse, EncodeDict;
    EncodedSize(sections);
    e := EncodeDict(V28, sections, []).value;
    Made28Loads(1, sections, e);
  }

  lemma {:induction false} RepairedLight(
    h: Host, sums: Sums, file: Bytes, p: Image, sections: Dict, items: seq<Item>, actuals: seq<Option<Value>>,
    sections': Dict)
    returns (file': Bytes)
    requires Parse(file) == Ok(p) && Sound(p) && 1 in p.records && p.records[1].sections == sections
    requires p.version.V28? && p.pool == [] && |items| == |actuals|
    requires Redirected(h, sections, items, actuals) == Ok(sections')
    requires Light(sections', 0x800)
    ensures Repaired(h, sums, file, 1, items, actuals) == Ok(file')
  {
    hide Parse, RewriteWith, Redirected;
    LightRewrite(p, 1, sections', sums);
    file' := RewriteWith(p, 1, sections', sums).value.data;
  }
}
