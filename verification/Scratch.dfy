// An image made from scratch, as the repository's own tests make it: one
// record, a blank header, and in version 29 a string table. So every tree the
// format can hold stands in some well-formed file.
module Scratch {
  import opened Wrappers
  import opened Words
  import opened Vdf
  import opened Strings
  import opened Codec
  import opened AppImage
  import opened Launch
  import opened Storage
  import opened EndToEnd
  import Lifecycle

  function Zeros(n: nat): (bs: Bytes)
    ensures |bs| == n && forall i :: 0 <= i < n ==> bs[i] == 0
  {
    seq(n, _ => 0)
  }

  function ScratchHeader(appid: Word32, encoded: Bytes): Header
    requires |encoded| + HEADER - 8 < LIMIT32
  {
    Header(appid, |encoded| + HEADER - 8, 0, 0, 0, Zeros(20), 0, Zeros(20))
  }

  // The records: one, and a blank header that ends them.
  function Body(appid: Word32, encoded: Bytes): Bytes
    requires |encoded| + HEADER - 8 < LIMIT32
  {
    PackHeader(ScratchHeader(appid, encoded)) + encoded + Zeros(HEADER)
  }

  function Made28(appid: Word32, encoded: Bytes): Bytes
    requires |encoded| + HEADER - 8 < LIMIT32
  {
    Pack64(MAGIC28) + Zeros(8) + Body(appid, encoded)
  }

  function Made29(appid: Word32, encoded: Bytes, count: Word32, strings: Bytes): Bytes
    requires |encoded| + HEADER - 8 < LIMIT32
  {
    Pack64(MAGIC29) + Pack64(FIRST + |Body(appid, encoded)|) + Body(appid, encoded) + (Pack32(count) + strings)
  }

  lemma {:induction false} BlankHeader(data: Bytes, offset: nat)
    requires At(data, offset, Zeros(HEADER))
    ensures ReadHeader(data[offset..offset + HEADER]).appid == 0
  {
    assert data[offset..offset + HEADER][0..4] == [0, 0, 0, 0];
  }

  // The scan finds the one record and stops at the blank header.
  lemma {:induction false} BodyScan(v: Version, data: Bytes, limit: nat, appid: Word32, sections: Dict, e: Encoded)
    requires Proper(sections) && Writable(v, sections) && EncodeDict(v, sections, []) == Ok(e)
    requires appid != 0 && |e.bytes| + HEADER - 8 < LIMIT32
    requires At(data, FIRST, Body(appid, e.bytes)) && limit == FIRST + |Body(appid, e.bytes)| <= |data|
    ensures var h := ScratchHeader(appid, e.bytes);
            Scan(v, data, e.pool, limit, FIRST) == Ok([Record(appid, FIRST, FIRST + HEADER + |e.bytes|, h, sections)])
  {
    hide ReadDict, ReadHeader, PackHeader, EncodeDict;
    var h := ScratchHeader(appid, e.bytes);
    var end := FIRST + HEADER + |e.bytes|;
    AtConcat(data, FIRST, PackHeader(h) + e.bytes, Zeros(HEADER));
    AtConcat(data, FIRST, PackHeader(h), e.bytes);
    ReadPackHeader(h);
    ReadDictAt(v, data, FIRST + HEADER, end, sections, [], e, e.pool, Empty);
    BlankHeader(data, end);
    assert Scan(v, data, e.pool, limit, end) == Ok([]);
    ScanStep(v, data, e.pool, limit, FIRST, h, sections, end, []);
    var r := Record(appid, FIRST, end, h, sections);
    assert [r] + [] == [r];
  }

  lemma {:induction false} OneRecord(r: Record)
    ensures Index([r]) == map[r.appid := r] && Stop([r]) == r.end
  {
    assert Index([]) == map[] && [r][..0] == [];
  }

  // Version 28: any tree with distinct keys and storable keys and texts.
  lemma {:induction false} Made28Loads(appid: Word32, sections: Dict, e: Encoded)
    requires appid != 0 && Representable(V28, [], sections)
    requires EncodeDict(V28, sections, []) == Ok(e) && |e.bytes| + HEADER - 8 < LIMIT32
    ensures Parse(Made28(appid, e.bytes)).Ok?
    ensures var p := Parse(Made28(appid, e.bytes)).value;
            && Loaded(Made28(appid, e.bytes), p, appid)
            && p.version.V28? && p.pool == []
            && p.records.Keys == {appid} && p.records[appid].sections == sections && SizesExact(p)
  {
    hide Scan, EncodeDict, PackHeader, Pack64, Unpack64, Index, ReadLayout, Representable;
    var data := Made28(appid, e.bytes);
    var end := FIRST + HEADER + |e.bytes|;
    var r := Record(appid, FIRST, end, ScratchHeader(appid, e.bytes), sections);
    EncodeDictPool28(sections, []);
    UnpackPack64(MAGIC28);
    assert data[..8] == Pack64(MAGIC28);
    assert At(data, FIRST, Body(appid, e.bytes)) by {
      assert data == (Pack64(MAGIC28) + Zeros(8)) + Body(appid, e.bytes);
    }
    RepresentableParts(V28, [], sections);
    BodyScan(V28, data, |data|, appid, sections, e);
    LayoutParts(data, Layout(V28, [], |data|, |data|, [r]));
    OneRecord(r);
    ParseSound(data);
  }

  lemma {:induction false} RepresentableParts(v: Version, pool: seq<string>, sections: Dict)
    requires Representable(v, pool, sections)
    ensures Proper(sections) && Writable(v, sections)
  {
  }

  // Version 29: the table holds exactly the keys, in the order of their use.
  lemma {:induction false} Made29Loads(appid: Word32, sections: Dict, e: Encoded, strings: Bytes)
    requires appid != 0 && Representable(V29, [], sections)
    requires EncodeDict(V29, sections, []) == Ok(e) && |e.bytes| + HEADER - 8 < LIMIT32
    requires EncodeStrings(e.pool) == Ok(strings) && |e.pool| < LIMIT32
    ensures Parse(Made29(appid, e.bytes, |e.pool|, strings)).Ok?
    ensures var p := Parse(Made29(appid, e.bytes, |e.pool|, strings)).value;
            && Loaded(Made29(appid, e.bytes, |e.pool|, strings), p, appid)
            && p.pool == e.pool
            && p.records.Keys == {appid} && p.records[appid].sections == sections && SizesExact(p)
  {
    hide Scan, EncodeDict, PackHeader, Pack64, Unpack64, Pack32, Unpack32, Index, ReadLayout, Representable,
      ReadStrings, EncodeStrings, Storable;
    var data := Made29(appid, e.bytes, |e.pool|, strings);
    var limit := FIRST + |Body(appid, e.bytes)|;
    var end := FIRST + HEADER + |e.bytes|;
    var r := Record(appid, FIRST, end, ScratchHeader(appid, e.bytes), sections);
    RepresentableParts(V29, [], sections);
    Made29Parts(appid, e.bytes, |e.pool|, strings);
    PoolStorable(sections, e);
    ReadStringsAt(data, limit + 4, e.pool, strings, |data|);
    BodyScan(V29, data, limit, appid, sections, e);
    LayoutParts(data, Layout(V29, e.pool, limit, |data|, [r]));
    OneRecord(r);
    ParseSound(data);
    FitsInPool(sections, e);
  }

  lemma {:induction false} Made29Parts(appid: Word32, encoded: Bytes, count: Word32, strings: Bytes)
    requires |encoded| + HEADER - 8 < LIMIT32
    ensures var data, limit := Made29(appid, encoded, count, strings), FIRST + |Body(appid, encoded)|;
            && |data| == limit + 4 + |strings| && At(data, FIRST, Body(appid, encoded)) && At(data, limit + 4, strings)
            && Unpack64(data[..8]) == MAGIC29 && UnpackSigned64(data[8..16]) == limit
            && Unpack32(data[limit..limit + 4]) == count
  {
    hide Pack64, Unpack64, Pack32, Unpack32, Body;
    var data, limit := Made29(appid, encoded, count, strings), FIRST + |Body(appid, encoded)|;
    BodySize(appid, encoded);
    UnpackPack64(MAGIC29);
    UnpackPack64(limit);
    UnpackPack32(count);
    assert data[..8] == Pack64(MAGIC29) && data[8..16] == Pack64(limit);
    assert data[FIRST..limit] == Body(appid, encoded);
    assert data[limit..limit + 4] == Pack32(count) && data[limit + 4..] == strings;
  }

  lemma {:induction false} BodySize(appid: Word32, encoded: Bytes)
    requires |encoded| + HEADER - 8 < LIMIT32
    ensures |Body(appid, encoded)| == 2 * HEADER + |encoded| && FIRST + |Body(appid, encoded)| < LIMIT63
  {
  }

  lemma {:induction false} PoolStorable(sections: Dict, e: Encoded)
    requires Representable(V29, [], sections) && EncodeDict(V29, sections, []) == Ok(e)
    ensures forall s :: s in e.pool ==> Storable(s)
  {
    hide Storable, EncodeDict;
    EncodeDictPool(sections, []);
    forall s | s in e.pool ensures Storable(s) { assert s in e.pool[0..]; }
  }

  lemma {:induction false} FitsInPool(sections: Dict, e: Encoded)
    requires Representable(V29, [], sections)
    ensures Representable(V29, e.pool, sections)
  {
  }

  // So the lifecycle can start from any launch section.
  lemma {:induction false} AnyLaunchSection(appid: Word32, sections: Dict, e: Encoded)
    requires appid != 0 && Representable(V28, [], sections) && Find(sections, LAUNCH).Some?
    requires EncodeDict(V28, sections, []) == Ok(e) && |e.bytes| + HEADER - 8 < LIMIT32
    ensures var file := Made28(appid, e.bytes);
            && Lifecycle.HasLaunch(file, appid)
            && Lifecycle.LaunchOf(file, appid) == Abs(Find(sections, LAUNCH).value)
            && Lifecycle.Safe(appid, Abs(Find(sections, LAUNCH).value), Lifecycle.World(file, None))
  {
    hide Loaded, Parse, EncodeDict, Find, Representable, FitsAll;
    Made28Loads(appid, sections, e);
    RepresentableParts(V28, [], sections);
    RepresentableTree(V28, [], sections);
    AbsFind(sections, LAUNCH);
    FitsAt(V28, [], Abs(sections), LAUNCH);
  }
}
