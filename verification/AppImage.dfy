// The byte image of appinfo.vdf: its records, its string table, and the splice
// that rewrites one record in place.
module AppImage {
  import opened Wrappers
  import opened Words
  import opened Strings
  import opened Vdf
  import opened Codec

  const MAGIC28 := 0x1_0756_4428
  const MAGIC29 := 0x1_0756_4429
  const HEADER := 68
  const FIRST := 16

  type Digest = d: Bytes | |d| == 20 witness seq(20, i => 0)

  datatype Header = Header(
    appid: Word32, size: Word32, state: Word32, lastUpdate: Word32,
    accessToken: Word64, checksumText: Digest, changeNumber: Word32, checksumBinary: Digest)

  datatype Record = Record(appid: Word32, start: nat, end: nat, header: Header, sections: Dict)

  // SHA-1 of the textual and of the binary form of a record.
  datatype Sums = Sums(text: Dict -> Digest, binary: Bytes -> Digest)

  // struct.unpack("<4IQ20sI20s", bs)
  function ReadHeader(bs: Bytes): Header
    requires |bs| == HEADER
  {
    Header(
      Unpack32(bs[0..4]), Unpack32(bs[4..8]), Unpack32(bs[8..12]), Unpack32(bs[12..16]),
      Unpack64(bs[16..24]), bs[24..44], Unpack32(bs[44..48]), bs[48..68])
  }

  // struct.pack("<4IQ20sI20s", ...)
  function PackHeader(h: Header): (bs: Bytes)
    ensures |bs| == HEADER
  {
    Pack32(h.appid) + Pack32(h.size) + Pack32(h.state) + Pack32(h.lastUpdate) +
    Pack64(h.accessToken) + h.checksumText + Pack32(h.changeNumber) + h.checksumBinary
  }

  // The fields of a header, by position.
  lemma {:induction false} HeaderSlices(
    a: Bytes, b: Bytes, c: Bytes, d: Bytes, e: Bytes, f: Bytes, g: Bytes, h: Bytes)
    requires |a| == |b| == |c| == |d| == |g| == 4 && |e| == 8 && |f| == |h| == 20
    ensures var bs := a + b + c + d + e + f + g + h;
            && bs[0..4] == a && bs[4..8] == b && bs[8..12] == c && bs[12..16] == d
            && bs[16..24] == e && bs[24..44] == f && bs[44..48] == g && bs[48..68] == h
  {
    var abcd := a + b + c + d;
    var bs := abcd + e + f + g + h;
    assert abcd[0..4] == a && abcd[4..8] == b && abcd[8..12] == c && abcd[12..16] == d;
    assert bs[..16] == abcd;
    assert bs[0..4] == bs[..16][0..4] && bs[4..8] == bs[..16][4..8];
    assert bs[8..12] == bs[..16][8..12] && bs[12..16] == bs[..16][12..16];
  }

  lemma {:induction false} ReadPackHeader(h: Header)
    ensures ReadHeader(PackHeader(h)) == h
  {
    hide Pack32, Pack64, Unpack32, Unpack64;
    HeaderSlices(
      Pack32(h.appid), Pack32(h.size), Pack32(h.state), Pack32(h.lastUpdate), Pack64(h.accessToken),
      h.checksumText, Pack32(h.changeNumber), h.checksumBinary);
    UnpackPack32(h.appid);
    UnpackPack32(h.size);
    UnpackPack32(h.state);
    UnpackPack32(h.lastUpdate);
    UnpackPack32(h.changeNumber);
    UnpackPack64(h.accessToken);
  }

  // --- Parsing --------------------------------------------------------------

  // `count` consecutive strings of the string table
  function ReadStrings(data: Bytes, offset: nat, count: nat): (r: Result<(seq<string>, nat), Fault>)
    requires offset <= |data|
    ensures r.Ok? ==> |r.value.0| == count && offset <= r.value.1 <= |data|
    decreases count
  {
    if count == 0 then Ok(([], offset))
    else
      var (s, next) :- ReadString(data, offset);
      var (rest, end) :- ReadStrings(data, next, count - 1);
      Ok(([s] + rest, end))
  }

  // The records from `offset` on, in file order.
  function Scan(v: Version, data: Bytes, pool: seq<string>, limit: nat, offset: nat): (r: Result<seq<Record>, Fault>)
    requires limit <= |data| && offset <= |data|
    decreases |data| - offset
  {
    if limit < offset + HEADER then Ok([])
    else
      var h := ReadHeader(data[offset..offset + HEADER]);
      if h.appid == 0 then Ok([])
      else
        var (sections, end) :- ReadDict(v, data, pool, offset + HEADER, Empty);
        var rest :- Scan(v, data, pool, limit, end);
        Ok([Record(h.appid, offset, end, h, sections)] + rest)
  }

  // `records` as the reader's dictionary: a later record replaces an earlier one.
  function Index(recs: seq<Record>): map<Word32, Record> {
    if recs == [] then map[]
    else
      var last := recs[|recs| - 1];
      Index(recs[..|recs| - 1])[last.appid := last]
  }

  // Everything the reader learns about an image. In version 28 there is no
  // string table and `limit` is the end of the file.
  datatype Layout = Layout(version: Version, pool: seq<string>, limit: nat, tableEnd: nat, recs: seq<Record>)

  function ReadLayout(data: Bytes): (r: Result<Layout, Fault>)
    ensures r.Ok? ==> FIRST <= r.value.limit <= |data|
    ensures r.Ok? && r.value.version.V29? ==> r.value.limit + 4 <= |data|
  {
    if |data| < 16 then Err(TooShort)
    else
      var magic := Unpack64(data[..8]);
      if magic == MAGIC29 then
        var table := UnpackSigned64(data[8..16]);
        if !(16 <= table <= |data| - 4) then Err(BadTableOffset)
        else
          var (pool, tableEnd) :- ReadStrings(data, table + 4, Unpack32(data[table..table + 4]));
          var recs :- Scan(V29, data, pool, table, FIRST);
          Ok(Layout(V29, pool, table, tableEnd, recs))
      else if magic == MAGIC28 then
        var recs :- Scan(V28, data, [], |data|, FIRST);
        Ok(Layout(V28, [], |data|, |data|, recs))
      else
        Err(BadVersion)
  }

  // The editor object. `stringOffset` is 0 in version 28, where Python has None.
  datatype Image = Image(
    version: Version, data: Bytes, pool: seq<string>, poolCount: nat, stringOffset: nat, records: map<Word32, Record>)

  function Parse(data: Bytes): Result<Image, Fault> {
    var l :- ReadLayout(data);
    Ok(Image(l.version, data, l.pool, |l.pool|, if l.version.V29? then l.limit else 0, Index(l.recs)))
  }

  function Stop(recs: seq<Record>): nat {
    if recs == [] then FIRST else recs[|recs| - 1].end
  }

  // The records end before the string table, and the string table is the tail
  // of the file.
  predicate WellFormed(data: Bytes) {
    var r := ReadLayout(data);
    r.Ok? && Stop(r.value.recs) <= r.value.limit && r.value.tableEnd == |data|
  }

  // --- Layout of the records ------------------------------------------------

  // The scanned ranges are contiguous from the start of the scan.
  lemma {:induction false} ScanContiguous(
    v: Version, data: Bytes, pool: seq<string>, limit: nat, offset: nat, recs: seq<Record>)
    requires limit <= |data| && offset <= |data| && Scan(v, data, pool, limit, offset) == Ok(recs)
    ensures recs != [] ==> recs[0].start == offset
    ensures forall i, j :: 0 <= i < j < |recs| && j == i + 1 ==> recs[i].end == recs[j].start
    ensures forall i :: 0 <= i < |recs| ==>
              offset <= recs[i].start && recs[i].start + HEADER < recs[i].end <= |data|
                  && recs[i].start + HEADER <= limit
    ensures forall i :: 0 <= i < |recs| ==> recs[i].appid == recs[i].header.appid != 0
    decreases |data| - offset
  {
    if recs != [] {
      var rest := recs[1..];
      ScanContiguous(v, data, pool, limit, recs[0].end, rest);
      forall i, j | 0 <= i < j < |recs| && j == i + 1 ensures recs[i].end == recs[j].start {
        if i > 0 { assert rest[i - 1].end == rest[i].start; }
      }
      forall i | 0 <= i < |recs|
        ensures offset <= recs[i].start && recs[i].start + HEADER < recs[i].end <= |data|
                  && recs[i].start + HEADER <= limit
        ensures recs[i].appid == recs[i].header.appid != 0
      {
        if i > 0 { assert recs[i] == rest[i - 1]; }
      }
    }
  }

  lemma {:induction false} IndexMember(recs: seq<Record>, appid: Word32)
    requires appid in Index(recs)
    ensures Index(recs)[appid] in recs && Index(recs)[appid].appid == appid
  {
    var last := recs[|recs| - 1];
    if last.appid != appid {
      IndexMember(recs[..|recs| - 1], appid);
    }
  }

  // Of several records of one app the last counts.
  lemma {:induction false} IndexLast(recs: seq<Record>, appid: Word32)
    ensures appid in Index(recs) <==> exists i :: 0 <= i < |recs| && recs[i].appid == appid
    ensures appid in Index(recs) ==>
              exists i ::
                && 0 <= i < |recs| && recs[i] == Index(recs)[appid] && recs[i].appid == appid
                && forall j :: i < j < |recs| ==> recs[j].appid != appid
  {
    if recs != [] {
      var n := |recs| - 1;
      IndexLast(recs[..n], appid);
      assert forall i :: 0 <= i < n ==> recs[..n][i] == recs[i];
      if recs[n].appid == appid {
        assert recs[n] == Index(recs)[appid];
      } else if appid in Index(recs) {
        var i :| && 0 <= i < n && recs[..n][i] == Index(recs[..n])[appid] && recs[..n][i].appid == appid
                 && forall j :: i < j < n ==> recs[..n][j].appid != appid;
        assert recs[i] == Index(recs)[appid];
      }
    }
  }

  // --- The rewrite ----------------------------------------------------------

  function EncodeStrings(strings: seq<string>): Result<Bytes, Fault> {
    if strings == [] then Ok([])
    else
      var first :- EncodeString(strings[0]);
      var rest :- EncodeStrings(strings[1..]);
      Ok(first + rest)
  }

  // struct.pack_into: a negative offset counts from the end of the buffer
  function PackInto(data: Bytes, offset: int, bytes: Bytes): Result<Bytes, Fault> {
    var o := if offset < 0 then offset + |data| else offset;
    if 0 <= o && o + |bytes| <= |data| then Ok(data[..o] + bytes + data[o + |bytes|..]) else Err(Truncated)
  }

  // What a load guarantees and section edits keep.
  ghost predicate Sound(img: Image) {
    && img.poolCount <= |img.pool|
    && forall a {:trigger img.records[a]} :: a in img.records ==>
         img.records[a].appid == a && FIRST <= img.records[a].start <= img.records[a].end <= |img.data|
  }

  function NewHeader(rec: Record, encoded: Bytes, sums: Sums): Header
    requires |encoded| + HEADER - 8 < LIMIT32
  {
    rec.header.(
      size := |encoded| + HEADER - 8,
      checksumText := sums.text(rec.sections),
      checksumBinary := sums.binary(encoded))
  }

  // AppInfo.rewrite_record on a value. An error may leave Python's object half
  // edited; nothing is written to disk then.
  function Rewrite(img: Image, appid: Word32, sums: Sums): Result<Image, Fault>
    requires Sound(img)
  {
    if appid !in img.records then Err(NoSuchApp)
    else
      var rec := img.records[appid];
      var e :- EncodeDict(img.version, rec.sections, img.pool);
      if |e.bytes| + HEADER - 8 >= LIMIT32 then Err(TooLarge)
      else
        var replacement := PackHeader(NewHeader(rec, e.bytes, sums)) + e.bytes;
        var spliced := img.data[..rec.start] + replacement + img.data[rec.end..];
        if img.version.V28? then Ok(img.(data := spliced, pool := e.pool))
        else
          var table := img.stringOffset + |replacement| - (rec.end - rec.start);
          var additions :- EncodeStrings(e.pool[img.poolCount..]);
          if !(-LIMIT63 <= table < LIMIT63) || |e.pool| >= LIMIT32 then Err(TooLarge)
          else
            var offsetBytes := Pack64(if table < 0 then table + LIMIT64 else table);
            var moved :- PackInto(spliced + additions, 8, offsetBytes);
            var counted :- PackInto(moved, table, Pack32(|e.pool|));
            Ok(img.(data := counted, pool := e.pool))
  }

  // --- The splice theorem ---------------------------------------------------

  function WithSections(img: Image, appid: Word32, sections: Dict): Image
    requires appid in img.records
  {
    img.(records := img.records[appid := img.records[appid].(sections := sections)])
  }

  function Shift(position: nat, delta: int): nat {
    if position + delta < 0 then 0 else position + delta
  }

  // Where a record of the old image is found in the new one.
  function Relocate(r: Record, at: nat, replaced: Record, delta: int): Record {
    if r.start < at then r
    else if r.start == at then replaced
    else r.(start := Shift(r.start, delta), end := Shift(r.end, delta))
  }

  function RelocateAll(recs: seq<Record>, at: nat, replaced: Record, delta: int): (out: seq<Record>)
    ensures |out| == |recs|
    ensures forall i :: 0 <= i < |recs| ==> out[i] == Relocate(recs[i], at, replaced, delta)
  {
    seq(|recs|, i requires 0 <= i < |recs| => Relocate(recs[i], at, replaced, delta))
  }

  lemma {:induction false} RelocateAllCons(r: Record, rest: seq<Record>, at: nat, replaced: Record, delta: int)
    ensures RelocateAll([r] + rest, at, replaced, delta)
         == [Relocate(r, at, replaced, delta)] + RelocateAll(rest, at, replaced, delta)
  {
  }

  // One turn of the scan's loop.
  lemma {:induction false} ScanStep(
    v: Version, data: Bytes, pool: seq<string>, limit: nat, offset: nat, h: Header, sections: Dict, end: nat,
    rest: seq<Record>)
    requires offset + HEADER <= limit <= |data| && h.appid != 0
    requires ReadHeader(data[offset..offset + HEADER]) == h
    requires ReadDict(v, data, pool, offset + HEADER, Empty) == Ok((sections, end))
    requires Scan(v, data, pool, limit, end) == Ok(rest)
    ensures Scan(v, data, pool, limit, offset) == Ok([Record(h.appid, offset, end, h, sections)] + rest)
  {
    hide ReadDict, ReadHeader;
  }

  // The record the scan found first, and where it went on.
  lemma {:induction false} ScanFirst(
    v: Version, data: Bytes, pool: seq<string>, limit: nat, offset: nat, recs: seq<Record>)
    requires limit <= |data| && offset <= |data| && Scan(v, data, pool, limit, offset) == Ok(recs) && recs != []
    ensures recs == [recs[0]] + recs[1..] && recs[0].start == offset && offset + HEADER < recs[0].end <= |data|
    ensures offset + HEADER <= limit && ReadHeader(data[offset..offset + HEADER]) == recs[0].header
    ensures recs[0].appid == recs[0].header.appid != 0
    ensures ReadDict(v, data, pool, offset + HEADER, Empty) == Ok((recs[0].sections, recs[0].end))
    ensures Scan(v, data, pool, limit, recs[0].end) == Ok(recs[1..])
  {
    hide ReadDict, ReadHeader;
  }

  // A record is read again where its bytes reappear.
  lemma {:induction false} RecordMoved(
    v: Version, data: Bytes, data': Bytes, pool: seq<string>, pool': seq<string>,
    limit: nat, limit': nat, offset: nat, offset': nat, delta: int, recs: seq<Record>, end': nat, rest': seq<Record>)
    requires limit <= |data| && offset <= |data| && limit' <= |data'| && pool <= pool'
    requires Scan(v, data, pool, limit, offset) == Ok(recs) && recs != []
    requires offset' == offset + delta && end' == recs[0].end + delta && offset' + HEADER <= limit'
    requires Moved(data, data', offset, recs[0].end, delta)
    requires Scan(v, data', pool', limit', end') == Ok(rest')
    ensures Scan(v, data', pool', limit', offset')
         == Ok([Record(recs[0].appid, offset', end', recs[0].header, recs[0].sections)] + rest')
  {
    hide ReadDict, ReadHeader, Scan;
    var r := recs[0];
    ScanFirst(v, data, pool, limit, offset, recs);
    MovedSlice(data, data', offset, r.end, delta, offset, offset + HEADER);
    MovedPart(data, data', offset, r.end, delta, offset + HEADER, r.end);
    ReadDictMoved(v, data, data', pool, pool', offset + HEADER, delta, Empty, r.sections, r.end);
    var body': nat := offset' + HEADER;
    ScanStep(v, data', pool', limit', offset', r.header, r.sections, end', rest');
  }

  // Records behind the splice are found again, shifted.
  lemma {:induction false} ScanMoved(
    v: Version, data: Bytes, data': Bytes, pool: seq<string>, pool': seq<string>,
    limit: nat, limit': nat, offset: nat, offset': nat, delta: int, recs: seq<Record>, at: nat, replaced: Record)
    requires offset <= |data| && limit <= |data| && limit' <= |data'| && pool <= pool'
    requires Scan(v, data, pool, limit, offset) == Ok(recs)
    requires at < offset <= limit && (recs != [] ==> recs[|recs| - 1].end <= limit)
    requires limit' == limit + delta && offset' == offset + delta && Moved(data, data', offset, limit, delta)
    ensures Scan(v, data', pool', limit', offset') == Ok(RelocateAll(recs, at, replaced, delta))
    decreases |data| - offset
  {
    hide ReadDict, ReadHeader;
    if recs == [] {
      if offset + HEADER <= limit {
        MovedSlice(data, data', offset, limit, delta, offset, offset + HEADER);
      }
      assert Scan(v, data', pool', limit', offset') == Ok([]);
    } else {
      var r, rest := recs[0], recs[1..];
      ScanContiguous(v, data, pool, limit, offset, recs);
      EndsWithin(recs, limit);
      ScanFirst(v, data, pool, limit, offset, recs);
      MovedPart(data, data', offset, limit, delta, r.end, limit);
      MovedPart(data, data', offset, limit, delta, offset, r.end);
      var end': nat := r.end + delta;
      ScanMoved(v, data, data', pool, pool', limit, limit', r.end, end', delta, rest, at, replaced);
      RelocateAllCons(r, rest, at, replaced, delta);
      RecordMoved(v, data, data', pool, pool', limit, limit', offset, offset', delta, recs, end',
        RelocateAll(rest, at, replaced, delta));
    }
  }

  lemma {:induction false} EndsWithin(recs: seq<Record>, limit: nat)
    requires recs != [] ==> recs[|recs| - 1].end <= limit
    requires forall i, j :: 0 <= i < j < |recs| && j == i + 1 ==> recs[i].end == recs[j].start
    requires forall i :: 0 <= i < |recs| ==> recs[i].start < recs[i].end
    ensures forall i :: 0 <= i < |recs| ==> recs[i].end <= limit
  {
    if |recs| > 1 {
      var rest := recs[1..];
      EndsWithin(rest, limit);
      assert rest[0].end <= limit;
      forall i | 0 < i < |recs| ensures recs[i].end <= limit {
        assert recs[i] == rest[i - 1];
      }
    }
  }

  // The whole scan, seen from a start at or before the replaced record.
  lemma {:induction false} ScanSplice(
    v: Version, data: Bytes, data': Bytes, pool: seq<string>, pool': seq<string>,
    limit: nat, limit': nat, offset: nat, delta: int, recs: seq<Record>, target: Record, edited: Record)
    requires offset <= |data| && limit <= |data| && limit' <= |data'| && pool <= pool'
    requires Scan(v, data, pool, limit, offset) == Ok(recs) && target in recs
    requires recs[|recs| - 1].end <= limit
    requires limit' == limit + delta && edited.start == target.start && edited.end == target.end + delta
    requires target.start + HEADER <= limit' && Moved(data, data', offset, target.start, 0)
    requires target.end <= limit && Moved(data, data', target.end, limit, delta)
    requires ReadHeader(data'[target.start..target.start + HEADER]) == edited.header
    requires edited.appid == edited.header.appid != 0
    requires ReadDict(v, data', pool', target.start + HEADER, Empty) == Ok((edited.sections, edited.end))
    ensures Scan(v, data', pool', limit', offset) == Ok(RelocateAll(recs, target.start, edited, delta))
    decreases |data| - offset
  {
    hide ReadDict, ReadHeader, Scan;
    var r, rest := recs[0], recs[1..];
    ScanContiguous(v, data, pool, limit, offset, recs);
    EndsWithin(recs, limit);
    ScanFirst(v, data, pool, limit, offset, recs);
    ScanContiguous(v, data, pool, limit, r.end, rest);
    if target == r {
      ScanMoved(v, data, data', pool, pool', limit, limit', r.end, edited.end, delta, rest, target.start, edited);
      RelocateAllCons(r, rest, target.start, edited, delta);
      ScanStep(v, data', pool', limit', offset, edited.header, edited.sections, edited.end,
        RelocateAll(rest, target.start, edited, delta));
      assert Scan(v, data', pool', limit', offset) == Ok(RelocateAll(recs, target.start, edited, delta));
    } else {
      assert target in rest;
      MovedPart(data, data', offset, target.start, 0, r.end, target.start);
      MovedPart(data, data', offset, target.start, 0, offset, r.end);
      ScanSplice(v, data, data', pool, pool', limit, limit', r.end, delta, rest, target, edited);
      RelocateAllCons(r, rest, target.start, edited, delta);
      assert r == Record(r.appid, offset, r.end, r.header, r.sections);
      assert Relocate(r, target.start, edited, delta) == r;
      RecordMoved(v, data, data', pool, pool', limit, limit', offset, offset, 0, recs, r.end,
        RelocateAll(rest, target.start, edited, delta));
      assert Scan(v, data', pool', limit', offset) == Ok(RelocateAll(recs, target.start, edited, delta));
    }
  }

  // --- The string table after a rewrite -------------------------------------

  // The old table followed by more strings is one longer table.
  lemma {:induction false} ReadStringsMoved(
    data: Bytes, data': Bytes, offset: nat, offset': nat, delta: int, count: nat, strings: seq<string>, end: nat,
    more: seq<string>, end': nat)
    requires offset <= |data| && ReadStrings(data, offset, count) == Ok((strings, end))
    requires Moved(data, data', offset, end, delta) && offset' == offset + delta
    requires ReadStrings(data', end + delta, |more|) == Ok((more, end'))
    ensures ReadStrings(data', offset', count + |more|) == Ok((strings + more, end'))
    decreases count
  {
    hide ReadString;
    if count == 0 {
      assert strings + more == more;
    } else {
      var (s, next) := ReadString(data, offset).value;
      MovedPart(data, data', offset, end, delta, offset, next);
      ReadStringMoved(data, data', offset, delta);
      MovedPart(data, data', offset, end, delta, next, end);
      var next': nat := next + delta;
      ReadStringsMoved(data, data', next, next', delta, count - 1, strings[1..], end, more, end');
      assert strings + more == [s] + (strings[1..] + more);
    }
  }

  lemma {:induction false} ReadStringsAt(data: Bytes, offset: nat, strings: seq<string>, bytes: Bytes, end: nat)
    requires EncodeStrings(strings) == Ok(bytes) && (forall s :: s in strings ==> Storable(s))
    requires At(data, offset, bytes) && end == offset + |bytes|
    ensures ReadStrings(data, offset, |strings|) == Ok((strings, end))
    decreases strings
  {
    hide ReadString, EncodeString;
    if strings != [] {
      var first := EncodeString(strings[0]).value;
      var rest := EncodeStrings(strings[1..]).value;
      AtConcat(data, offset, first, rest);
      ReadStringAt(data, offset, strings[0]);
      ReadStringsAt(data, offset + |first|, strings[1..], rest, end);
      assert strings == [strings[0]] + strings[1..];
    }
  }

  // --- Where the bytes of the new image come from ---------------------------

  ghost predicate SplicedBytes(data: Bytes, data': Bytes, start: nat, end: nat, limit: nat, replacement: Bytes)
  {
    var delta := start + |replacement| - end;
    && FIRST <= start <= end <= limit <= |data| && limit + delta <= |data'|
    && data'[..8] == data[..8]
    && Moved(data, data', FIRST, start, 0)
    && At(data', start, replacement)
    && Moved(data, data', end, limit, delta)
  }

  ghost predicate TableBytes(data: Bytes, data': Bytes, limit: nat, limit': nat, count: Word32, additions: Bytes)
  {
    var delta := limit' - limit;
    && limit + 4 <= |data| && |data'| == |data| + delta + |additions|
    && FIRST <= limit' && limit' + 4 <= |data'| && data'[8..16] == Pack64(if limit' < LIMIT64 then limit' else 0)
    && data'[limit'..limit' + 4] == Pack32(count)
    && Moved(data, data', limit + 4, |data|, delta)
    && At(data', |data| + delta, additions)
  }

  lemma {:induction false} SpliceBytes(data: Bytes, start: nat, end: nat, limit: nat, replacement: Bytes, more: Bytes)
    requires FIRST <= start <= end <= limit <= |data|
    ensures SplicedBytes(data, data[..start] + replacement + data[end..] + more, start, end, limit, replacement)
  {
    hide Pack32, Pack64;
  }

  lemma {:induction false} PackIntoKeeps(data: Bytes, offset: nat, bytes: Bytes, data': Bytes)
    requires PackInto(data, offset, bytes) == Ok(data')
    ensures |data'| == |data| && offset + |bytes| <= |data| && data'[offset..offset + |bytes|] == bytes
    ensures forall i {:trigger data'[i]} :: 0 <= i < |data| && !(offset <= i < offset + |bytes|) ==> data'[i] == data[i]
  {
  }

  lemma {:induction false} PatchBytes(
    data: Bytes, start: nat, end: nat, limit: nat, limit': nat, replacement: Bytes, additions: Bytes, count: Word32,
    data': Bytes)
    requires FIRST <= start <= end <= limit && limit + 4 <= |data|
    requires limit' == limit + |replacement| - (end - start) < LIMIT63
    requires PackInto(data[..start] + replacement + data[end..] + additions, 8, Pack64(limit')).Ok?
    requires PackInto(PackInto(data[..start] + replacement + data[end..] + additions, 8, Pack64(limit')).value,
               limit', Pack32(count))
          == Ok(data')
    ensures SplicedBytes(data, data', start, end, limit, replacement)
    ensures TableBytes(data, data', limit, limit', count, additions)
  {
    hide Pack32, Pack64;
    var spliced := data[..start] + replacement + data[end..] + additions;
    var moved := PackInto(spliced, 8, Pack64(limit')).value;
    SpliceBytes(data, start, end, limit, replacement, additions);
    PackIntoKeeps(spliced, 8, Pack64(limit'), moved);
    PackIntoKeeps(moved, limit', Pack32(count), data');
  }

  // --- The image a rewrite leaves behind ------------------------------------

  // What the caller must know of the new sections: distinct keys, storable
  // texts, and storable names for keys the pool does not have yet.
  ghost predicate Representable(v: Version, pool: seq<string>, sections: Dict) {
    && Proper(sections)
    && Writable(v, sections)
    && (v.V29? ==> forall k :: k in AllKeys(sections) && k !in pool ==> Storable(k))
  }

  function EditedRecord(rec: Record, encoded: Bytes, sums: Sums): Record
    requires |encoded| + HEADER - 8 < LIMIT32
  {
    Record(rec.appid, rec.start, rec.start + HEADER + |encoded|, NewHeader(rec, encoded, sums), rec.sections)
  }

  lemma {:induction false} ParseSound(data: Bytes)
    requires Parse(data).Ok?
    ensures Sound(Parse(data).value)
    ensures forall a :: a in Parse(data).value.records ==> Parse(data).value.records[a].header.appid == a != 0
  {
    hide Scan, ReadStrings;
    var l := ReadLayout(data).value;
    ScanContiguous(l.version, data, l.pool, l.limit, FIRST, l.recs);
    forall a | a in Index(l.recs)
      ensures Index(l.recs)[a].appid == a == Index(l.recs)[a].header.appid != 0
      ensures FIRST <= Index(l.recs)[a].start <= Index(l.recs)[a].end <= |data|
    {
      IndexMember(l.recs, a);
    }
  }

  // Scanning the spliced bytes finds the edited record and all the others.
  lemma {:induction false} EditedScan(
    v: Version, data: Bytes, data': Bytes, pool: seq<string>, e: Encoded, limit: nat, limit': nat,
    recs: seq<Record>, target: Record, sections: Dict, sums: Sums)
    requires FIRST <= |data| && limit <= |data| && Scan(v, data, pool, limit, FIRST) == Ok(recs)
    requires target in recs && Stop(recs) <= limit
    requires Proper(sections) && Writable(v, sections) && EncodeDict(v, sections, pool) == Ok(e)
    requires |e.bytes| + HEADER - 8 < LIMIT32
    requires var rec := target.(sections := sections);
             && SplicedBytes(data, data', target.start, target.end, limit,
                  PackHeader(NewHeader(rec, e.bytes, sums)) + e.bytes)
             && limit' == limit + HEADER + |e.bytes| - (target.end - target.start) <= |data'|
    ensures var edited := EditedRecord(target.(sections := sections), e.bytes, sums);
            Scan(v, data', e.pool, limit', FIRST) == Ok(RelocateAll(recs, target.start, edited, limit' - limit))
  {
    hide Scan, ReadDict, EncodeDict, ReadHeader, PackHeader;
    var edited := EditedRecord(target.(sections := sections), e.bytes, sums);
    ScanContiguous(v, data, pool, limit, FIRST, recs);
    EndsWithin(recs, limit);
    AtConcat(data', target.start, PackHeader(edited.header), e.bytes);
    ReadPackHeader(edited.header);
    ReadDictAt(v, data', target.start + HEADER, edited.end, sections, pool, e, e.pool, Empty);
    ScanSplice(v, data, data', pool, e.pool, limit, limit', FIRST, limit' - limit, recs, target, edited);
  }

  // The parts of a layout, one by one; both directions of ReadLayout.
  ghost predicate Parts28(data: Bytes, recs: seq<Record>) {
    && |data| >= FIRST && Unpack64(data[..8]) == MAGIC28
    && Scan(V28, data, [], |data|, FIRST) == Ok(recs)
  }

  ghost predicate Parts29(data: Bytes, pool: seq<string>, limit: nat, tableEnd: nat, recs: seq<Record>) {
    && FIRST <= limit && limit + 4 <= |data| && Unpack64(data[..8]) == MAGIC29
    && UnpackSigned64(data[8..16]) == limit && Unpack32(data[limit..limit + 4]) == |pool|
    && ReadStrings(data, limit + 4, |pool|) == Ok((pool, tableEnd))
    && Scan(V29, data, pool, limit, FIRST) == Ok(recs)
  }

  lemma {:induction false} LayoutParts(data: Bytes, l: Layout)
    ensures l.version.V28? ==>
              (ReadLayout(data) == Ok(l) <==>
               l.pool == [] && l.limit == l.tableEnd == |data| && Parts28(data, l.recs))
    ensures l.version.V29? ==>
              (ReadLayout(data) == Ok(l) <==> Parts29(data, l.pool, l.limit, l.tableEnd, l.recs))
  {
    hide Scan, ReadStrings, Unpack32, Unpack64;
  }

  lemma {:induction false} RewriteLayout28(
    data: Bytes, recs: seq<Record>, appid: Word32, sections: Dict, e: Encoded, sums: Sums, data': Bytes)
    requires Parts28(data, recs) && appid in Index(recs) && Representable(V28, [], sections)
    requires EncodeDict(V28, sections, []) == Ok(e) && |e.bytes| + HEADER - 8 < LIMIT32
    requires var rec := Index(recs)[appid].(sections := sections);
             && rec.start <= rec.end <= |data|
             && data' == data[..rec.start] + (PackHeader(NewHeader(rec, e.bytes, sums)) + e.bytes) + data[rec.end..]
    ensures var target := Index(recs)[appid];
            var edited := EditedRecord(target.(sections := sections), e.bytes, sums);
            && Parts28(data', RelocateAll(recs, target.start, edited, edited.end - target.end))
            && e.pool == [] && |data'| == |data| + edited.end - target.end
  {
    hide Scan, ReadDict, EncodeDict, ReadHeader, PackHeader, Index;
    var target := Index(recs)[appid];
    var rec := target.(sections := sections);
    var replacement := PackHeader(NewHeader(rec, e.bytes, sums)) + e.bytes;
    IndexMember(recs, appid);
    ScanContiguous(V28, data, [], |data|, FIRST, recs);
    assert SplicedBytes(data, data', target.start, target.end, |data|, replacement) by {
      SpliceBytes(data, target.start, target.end, |data|, replacement, []);
      assert data' == data[..rec.start] + replacement + data[rec.end..] + [];
    }
    EncodeDictPool28(sections, []);
    EditedScan(V28, data, data', [], e, |data|, |data'|, recs, target, sections, sums);
    assert data'[..8] == data[..8];
  }

  lemma {:induction false} RewriteLayout29(
    data: Bytes, pool: seq<string>, limit: nat, recs: seq<Record>, appid: Word32, sections: Dict, e: Encoded,
    sums: Sums,
    limit': nat, additions: Bytes, data': Bytes)
    requires Parts29(data, pool, limit, |data|, recs) && Stop(recs) <= limit
    requires appid in Index(recs) && Representable(V29, pool, sections)
    requires EncodeDict(V29, sections, pool) == Ok(e) && |e.bytes| + HEADER - 8 < LIMIT32
    requires pool <= e.pool && EncodeStrings(e.pool[|pool|..]) == Ok(additions) && |e.pool| < LIMIT32
    requires limit' == limit + HEADER + |e.bytes| - (Index(recs)[appid].end - Index(recs)[appid].start) < LIMIT63
    requires var rec := Index(recs)[appid].(sections := sections);
             && SplicedBytes(data, data', rec.start, rec.end, limit,
                  PackHeader(NewHeader(rec, e.bytes, sums)) + e.bytes)
             && TableBytes(data, data', limit, limit', |e.pool|, additions)
    ensures var target := Index(recs)[appid];
            var edited := EditedRecord(target.(sections := sections), e.bytes, sums);
            Parts29(data', e.pool, limit', |data'|, RelocateAll(recs, target.start, edited, edited.end - target.end))
  {
    hide Scan, ReadDict, EncodeDict, ReadHeader, PackHeader, Index, ReadStrings, EncodeStrings, Pack32, Unpack32,
      Pack64, Unpack64;
    var target := Index(recs)[appid];
    IndexMember(recs, appid);
    ScanContiguous(V29, data, pool, limit, FIRST, recs);
    EditedScan(V29, data, data', pool, e, limit, limit', recs, target, sections, sums);
    assert data'[..8] == data[..8];
    UnpackPack64(limit');
    UnpackPack32(|e.pool|);
    NewTable(data, data', pool, limit, limit', sections, e, additions);
  }

  // The new string table is the old pool followed by the added keys.
  lemma {:induction false} NewTable(
    data: Bytes, data': Bytes, pool: seq<string>, limit: nat, limit': nat, sections: Dict, e: Encoded, additions: Bytes)
    requires limit + 4 <= |data| && ReadStrings(data, limit + 4, |pool|) == Ok((pool, |data|))
    requires Representable(V29, pool, sections) && EncodeDict(V29, sections, pool) == Ok(e)
    requires pool <= e.pool && EncodeStrings(e.pool[|pool|..]) == Ok(additions) && |e.pool| < LIMIT32
    requires TableBytes(data, data', limit, limit', |e.pool|, additions)
    ensures ReadStrings(data', limit' + 4, |e.pool|) == Ok((e.pool, |data'|))
  {
    hide EncodeDict, ReadStrings, EncodeStrings, Pack32, Pack64;
    var more := e.pool[|pool|..];
    EncodeDictPool(sections, pool);
    assert e.pool == pool + more;
    var from: nat := |data| + (limit' - limit);
    ReadStringsAt(data', from, more, additions, |data'|);
    ReadStringsMoved(data, data', limit + 4, limit' + 4, limit' - limit, |pool|, pool, |data|, more, |data'|);
  }

  // The last record still ends before the limit.
  lemma {:induction false} StopMoved(
    recs: seq<Record>, target: Record, edited: Record, delta: int, limit: nat, limit': nat)
    requires target in recs && Stop(recs) <= limit && edited.end == target.end + delta && edited.start == target.start
    requires forall i, j :: 0 <= i < j < |recs| && j == i + 1 ==> recs[i].end == recs[j].start
    requires forall i :: 0 <= i < |recs| ==> recs[i].start < recs[i].end
    requires limit' == limit + delta
    ensures Stop(RelocateAll(recs, target.start, edited, delta)) <= limit'
  {
    var i :| 0 <= i < |recs| && recs[i] == target;
    StartsGrow(recs, i);
    EndsWithin(recs, limit);
  }

  lemma {:induction false} StartsGrow(recs: seq<Record>, i: nat)
    requires i < |recs|
    requires forall i, j :: 0 <= i < j < |recs| && j == i + 1 ==> recs[i].end == recs[j].start
    requires forall i :: 0 <= i < |recs| ==> recs[i].start < recs[i].end
    ensures i < |recs| - 1 ==> recs[i].start < recs[|recs| - 1].start
    decreases |recs| - i
  {
    if i < |recs| - 1 {
      assert recs[i].end == recs[i + 1].start;
      StartsGrow(recs, i + 1);
    }
  }

  // --- The splice theorem ---------------------------------------------------

  lemma {:induction false} IndexRelocate(recs: seq<Record>, at: nat, replaced: Record, delta: int)
    requires forall i :: 0 <= i < |recs| && recs[i].start == at ==> recs[i].appid == replaced.appid
    ensures var index, index' := Index(recs), Index(RelocateAll(recs, at, replaced, delta));
            && index'.Keys == index.Keys
            && forall a :: a in index ==> index'[a] == Relocate(index[a], at, replaced, delta)
  {
    if recs != [] {
      var n := |recs| - 1;
      IndexRelocate(recs[..n], at, replaced, delta);
      assert RelocateAll(recs, at, replaced, delta)[..n] == RelocateAll(recs[..n], at, replaced, delta);
      assert Relocate(recs[n], at, replaced, delta).appid == recs[n].appid;
    }
  }

  lemma {:induction false} Ordered(recs: seq<Record>, i: nat, j: nat)
    requires i < j < |recs|
    requires forall i, j :: 0 <= i < j < |recs| && j == i + 1 ==> recs[i].end == recs[j].start
    requires forall i :: 0 <= i < |recs| ==> recs[i].start < recs[i].end
    ensures recs[i].end <= recs[j].start
    decreases j
  {
    if i < j - 1 {
      Ordered(recs, i, j - 1);
      assert recs[j - 1].end == recs[j].start;
    }
  }

  // Two records of one image are the same or apart.
  lemma {:induction false} Apart(recs: seq<Record>, a: Record, b: Record)
    requires a in recs && b in recs
    requires forall i, j :: 0 <= i < j < |recs| && j == i + 1 ==> recs[i].end == recs[j].start
    requires forall i :: 0 <= i < |recs| ==> recs[i].start < recs[i].end
    ensures a == b || a.end <= b.start || b.end <= a.start
  {
    var i :| 0 <= i < |recs| && recs[i] == a;
    var j :| 0 <= j < |recs| && recs[j] == b;
    if i < j { Ordered(recs, i, j); } else if j < i { Ordered(recs, j, i); }
  }

  // Everything about an app except where its record stands.
  ghost predicate SameRecord(p: Image, q: Image, a: Word32)
    requires Sound(p) && Sound(q)
    requires a in p.records && a in q.records
  {
    var r, r' := p.records[a], q.records[a];
    && r'.header == r.header
    && r'.sections == r.sections
    && q.data[r'.start..r'.end] == p.data[r.start..r.end]
  }

  // `size` counts the record from its third word on.
  ghost predicate SizesExact(img: Image) {
    forall a :: a in img.records ==>
      img.records[a].header.size + 8 == img.records[a].end - img.records[a].start
  }

  // q is p with the sections of one app replaced and nothing else.
  ghost predicate OneAppEdited(p: Image, q: Image, appid: Word32, sections: Dict) {
    && Sound(p) && Sound(q)
    && q.version == p.version
    && (p.version.V28? ==> q.pool == p.pool == [])
    && (p.version.V29? ==> Extends(p.pool, q.pool, AllKeys(sections)))
    && appid in p.records
    && q.records.Keys == p.records.Keys
    && q.records[appid].sections == sections
    && (var h, h' := p.records[appid].header, q.records[appid].header;
        h' == h.(size := h'.size, checksumText := h'.checksumText, checksumBinary := h'.checksumBinary))
    && (forall a :: a in p.records && a != appid ==> SameRecord(p, q, a))
    && (SizesExact(p) ==> SizesExact(q))
  }

  // A successful rewrite, step by step.
  lemma {:induction false} UnfoldRewrite(
    img: Image, appid: Word32, sums: Sums, img': Image) returns (e: Encoded, additions: Bytes, limit': int)
    requires Sound(img) && Rewrite(img, appid, sums) == Ok(img')
    ensures appid in img.records && EncodeDict(img.version, img.records[appid].sections, img.pool) == Ok(e)
    ensures |e.bytes| + HEADER - 8 < LIMIT32 && img.pool <= e.pool && img'.pool == e.pool && img'.version == img.version
    ensures var rec := img.records[appid];
            var replacement := PackHeader(NewHeader(rec, e.bytes, sums)) + e.bytes;
            var spliced := img.data[..rec.start] + replacement + img.data[rec.end..];
            && limit' == img.stringOffset + |replacement| - (rec.end - rec.start)
            && (img.version.V28? ==> img'.data == spliced)
            && (img.version.V29? ==>
                  && img.poolCount <= |e.pool| < LIMIT32 && EncodeStrings(e.pool[img.poolCount..]) == Ok(additions)
                  && (0 <= limit' ==>
                        && limit' < LIMIT63
                        && PackInto(spliced + additions, 8, Pack64(limit')).Ok?
                        && PackInto(PackInto(spliced + additions, 8, Pack64(limit')).value, limit', Pack32(|e.pool|))
                           == Ok(img'.data)))
  {
    hide EncodeDict, PackHeader, EncodeStrings, Pack32, Pack64, PackInto;
    var rec := img.records[appid];
    e := EncodeDict(img.version, rec.sections, img.pool).value;
    limit' := img.stringOffset + HEADER + |e.bytes| - (rec.end - rec.start);
    additions := [];
    if img.version.V29? {
      additions := EncodeStrings(e.pool[img.poolCount..]).value;
    }
  }

  ghost predicate Contiguous(recs: seq<Record>) {
    && (forall i, j :: 0 <= i < j < |recs| && j == i + 1 ==> recs[i].end == recs[j].start)
    && (forall i :: 0 <= i < |recs| ==> FIRST <= recs[i].start < recs[i].end)
  }

  lemma {:induction false} OtherBytes(
    data: Bytes, data': Bytes, recs: seq<Record>, limit: nat, target: Record, edited: Record, replacement: Bytes,
    r: Record)
    requires Contiguous(recs) && target in recs && r in recs && r != target && r.end <= limit
    requires SplicedBytes(data, data', target.start, target.end, limit, replacement)
    requires edited.end == target.start + |replacement|
    ensures var r' := Relocate(r, target.start, edited, edited.end - target.end);
            && r.end <= |data| && r'.end <= |data'| && r'.end - r'.start == r.end - r.start > 0
            && r'.header == r.header && r'.sections == r.sections
            && data'[r'.start..r'.end] == data[r.start..r.end]
  {
    var delta := edited.end - target.end;
    Apart(recs, r, target);
    if r.end <= target.start {
      MovedSlice(data, data', FIRST, target.start, 0, r.start, r.end);
    } else {
      MovedSlice(data, data', target.end, limit, delta, r.start, r.end);
    }
  }

  // From the relocated record list to the reader's dictionary.
  lemma {:induction false} RelocatedIndex(recs: seq<Record>, appid: Word32, edited: Record, delta: int)
    requires Contiguous(recs) && appid in Index(recs) && edited.appid == appid
    ensures var index, at := Index(recs), Index(recs)[appid].start;
            var index' := Index(RelocateAll(recs, at, edited, delta));
            && index'.Keys == index.Keys && index'[appid] == edited
            && forall a :: a in index ==> index'[a] == Relocate(index[a], at, edited, delta)
  {
    hide Index;
    var target := Index(recs)[appid];
    IndexMember(recs, appid);
    forall i | 0 <= i < |recs| && recs[i].start == target.start ensures recs[i].appid == edited.appid {
      Apart(recs, recs[i], target);
    }
    IndexRelocate(recs, target.start, edited, delta);
  }

  lemma {:induction false} ParsedParts(data: Bytes, p: Image) returns (l: Layout)
    requires Parse(data) == Ok(p)
    ensures ReadLayout(data) == Ok(l) && p.data == data && p.version == l.version && p.pool == l.pool
    ensures p.poolCount == |l.pool| && p.records == Index(l.recs)
    ensures p.stringOffset == if l.version.V29? then l.limit else 0
    ensures Contiguous(l.recs) && Sound(p)
  {
    hide Index, Scan, ReadStrings;
    l := ReadLayout(data).value;
    ScanContiguous(l.version, data, l.pool, l.limit, FIRST, l.recs);
    ParseSound(data);
  }

  // What a rewrite turns the layout and the bytes into.
  ghost predicate Spliced(
    l: Layout, l': Layout, data: Bytes, data': Bytes, appid: Word32, sections: Dict, e: Encoded, sums: Sums)
  {
    && appid in Index(l.recs) && |e.bytes| + HEADER - 8 < LIMIT32
    && (var target := Index(l.recs)[appid];
        var edited := EditedRecord(target.(sections := sections), e.bytes, sums);
        && ReadLayout(data') == Ok(l') && l'.version == l.version && l'.pool == e.pool && l'.tableEnd == |data'|
        && l'.recs == RelocateAll(l.recs, target.start, edited, edited.end - target.end)
        && l'.limit == l.limit + edited.end - target.end
        && SplicedBytes(data, data', target.start, target.end, l.limit, PackHeader(edited.header) + e.bytes))
  }

  lemma {:induction false} SplicedLayout(
    data: Bytes, p: Image, l: Layout, appid: Word32, sections: Dict, sums: Sums, img': Image)
    returns (e: Encoded, l': Layout)
    requires Parse(data) == Ok(p) && ReadLayout(data) == Ok(l) && appid in p.records
    requires Stop(l.recs) <= l.limit && l.tableEnd == |data|
    requires Representable(p.version, p.pool, sections)
    requires Sound(WithSections(p, appid, sections))
               && Rewrite(WithSections(p, appid, sections), appid, sums) == Ok(img')
    ensures EncodeDict(p.version, sections, p.pool) == Ok(e) && img'.pool == e.pool
    ensures p.version.V28? ==> p.pool == e.pool == []
    ensures Spliced(l, l', data, img'.data, appid, sections, e, sums)
  {
    hide Index, Scan, ReadStrings, EncodeDict, EncodeStrings, PackHeader, Pack32, Pack64, Unpack32, Unpack64,
      ReadLayout, PackInto, Rewrite, Parts28, Parts29, Spliced, Representable;
    var _ := ParsedParts(data, p);
    var additions, limit';
    e, additions, limit' := UnfoldRewrite(WithSections(p, appid, sections), appid, sums, img');
    IndexMember(l.recs, appid);
    EndsWithin(l.recs, l.limit);
    LayoutParts(data, l);
    if l.version.V28? {
      l' := SplicedLayout28(data, l, appid, sections, e, sums, img'.data);
    } else {
      l' := SplicedLayout29(data, l, appid, sections, e, sums, limit', additions, img'.data);
    }
  }

  lemma {:induction false} SplicedLayout28(
    data: Bytes, l: Layout, appid: Word32, sections: Dict, e: Encoded, sums: Sums, data': Bytes)
    returns (l': Layout)
    requires l.version.V28? && Parts28(data, l.recs) && l.limit == |data|
    requires appid in Index(l.recs) && Representable(V28, [], sections)
    requires EncodeDict(V28, sections, []) == Ok(e) && |e.bytes| + HEADER - 8 < LIMIT32
    requires var rec := Index(l.recs)[appid].(sections := sections);
             && FIRST <= rec.start <= rec.end <= |data|
             && data' == data[..rec.start] + (PackHeader(NewHeader(rec, e.bytes, sums)) + e.bytes) + data[rec.end..]
    ensures e.pool == [] && Spliced(l, l', data, data', appid, sections, e, sums)
  {
    hide Index, Scan, EncodeDict, PackHeader, ReadLayout, Parts28, Parts29;
    var target := Index(l.recs)[appid];
    var edited := EditedRecord(target.(sections := sections), e.bytes, sums);
    var replacement := PackHeader(edited.header) + e.bytes;
    l' := Layout(V28, [], |data'|, |data'|, RelocateAll(l.recs, target.start, edited, edited.end - target.end));
    RewriteLayout28(data, l.recs, appid, sections, e, sums, data');
    SpliceBytes(data, target.start, target.end, l.limit, replacement, []);
    assert data' == data[..target.start] + replacement + data[target.end..] + [];
    LayoutParts(data', l');
  }

  lemma {:induction false} SplicedLayout29(
    data: Bytes, l: Layout, appid: Word32, sections: Dict, e: Encoded, sums: Sums, limit': int, additions: Bytes,
    data': Bytes)
    returns (l': Layout)
    requires l.version.V29? && Parts29(data, l.pool, l.limit, |data|, l.recs) && Stop(l.recs) <= l.limit
    requires appid in Index(l.recs) && Representable(V29, l.pool, sections)
    requires EncodeDict(V29, sections, l.pool) == Ok(e) && |e.bytes| + HEADER - 8 < LIMIT32
    requires l.pool <= e.pool && EncodeStrings(e.pool[|l.pool|..]) == Ok(additions) && |e.pool| < LIMIT32
    requires FIRST <= Index(l.recs)[appid].start <= Index(l.recs)[appid].end <= l.limit <= |data|
    requires var rec := Index(l.recs)[appid].(sections := sections);
             var replacement := PackHeader(NewHeader(rec, e.bytes, sums)) + e.bytes;
             var spliced := data[..rec.start] + replacement + data[rec.end..] + additions;
             && 0 <= limit' == l.limit + |replacement| - (rec.end - rec.start) < LIMIT63
             && PackInto(spliced, 8, Pack64(limit')).Ok?
             && PackInto(PackInto(spliced, 8, Pack64(limit')).value, limit', Pack32(|e.pool|)) == Ok(data')
    ensures Spliced(l, l', data, data', appid, sections, e, sums)
  {
    hide Index, Scan, ReadStrings, EncodeDict, EncodeStrings, PackHeader, Pack32, Pack64, ReadLayout, PackInto,
      Parts28;
    var target := Index(l.recs)[appid];
    var edited := EditedRecord(target.(sections := sections), e.bytes, sums);
    var replacement := PackHeader(edited.header) + e.bytes;
    l' := Layout(V29, e.pool, limit', |data'|, RelocateAll(l.recs, target.start, edited, edited.end - target.end));
    PatchBytes(data, target.start, target.end, l.limit, limit', replacement, additions, |e.pool|, data');
    RewriteLayout29(data, l.pool, l.limit, l.recs, appid, sections, e, sums, limit', additions, data');
    LayoutParts(data', l');
  }

  lemma {:induction false} SplicedOther(
    p: Image, q: Image, l: Layout, l': Layout, appid: Word32, sections: Dict, e: Encoded, sums: Sums, a: Word32)
    requires Sound(p) && Sound(q) && Contiguous(l.recs) && Stop(l.recs) <= l.limit
    requires p.records == Index(l.recs) && Spliced(l, l', p.data, q.data, appid, sections, e, sums)
    requires a in p.records && a != appid && a in q.records
    requires var edited := EditedRecord(p.records[appid].(sections := sections), e.bytes, sums);
             q.records[a] == Relocate(p.records[a], edited.start, edited, edited.end - p.records[appid].end)
    ensures SameRecord(p, q, a)
    ensures q.records[a].end - q.records[a].start == p.records[a].end - p.records[a].start
  {
    hide PackHeader, Index, ReadLayout, RelocateAll, SplicedBytes, Relocate, Contiguous, Stop, NewHeader;
    var target := p.records[appid];
    var edited := EditedRecord(target.(sections := sections), e.bytes, sums);
    IndexMember(l.recs, appid);
    RecordWithin(l.recs, l.limit, a);
    OtherBytes(
      p.data, q.data, l.recs, l.limit, target, edited, PackHeader(edited.header) + e.bytes, p.records[a]);
  }

  lemma {:induction false} RecordWithin(recs: seq<Record>, limit: nat, a: Word32)
    requires Contiguous(recs) && Stop(recs) <= limit && a in Index(recs)
    ensures Index(recs)[a] in recs && Index(recs)[a].appid == a && Index(recs)[a].end <= limit
  {
    hide Index;
    IndexMember(recs, a);
    EndsWithin(recs, limit);
  }

  // The edited record, and all others as they were.
  lemma {:induction false} SplicedRecords(
    p: Image, q: Image, l: Layout, l': Layout, appid: Word32, sections: Dict, e: Encoded, sums: Sums)
    requires Sound(p) && Sound(q) && Contiguous(l.recs) && Stop(l.recs) <= l.limit
    requires p.records == Index(l.recs) && q.records == Index(l'.recs)
    requires Spliced(l, l', p.data, q.data, appid, sections, e, sums)
    ensures q.records.Keys == p.records.Keys
    ensures q.records[appid] == EditedRecord(p.records[appid].(sections := sections), e.bytes, sums)
    ensures forall a :: a in p.records && a != appid ==> SameRecord(p, q, a)
    ensures SizesExact(p) ==> SizesExact(q)
  {
    hide PackHeader, Index, ReadLayout, SplicedBytes, SameRecord;
    var edited := EditedRecord(p.records[appid].(sections := sections), e.bytes, sums);
    RelocatedIndex(l.recs, appid, edited, edited.end - p.records[appid].end);
    forall a | a in p.records && a != appid
      ensures SameRecord(p, q, a)
      ensures q.records[a].end - q.records[a].start == p.records[a].end - p.records[a].start
    {
      SplicedOther(p, q, l, l', appid, sections, e, sums, a);
    }
    SizesKept(p, q, appid);
  }

  lemma {:induction false} SizesKept(p: Image, q: Image, appid: Word32)
    requires Sound(p) && Sound(q) && q.records.Keys == p.records.Keys && appid in p.records
    requires q.records[appid].header.size + 8 == q.records[appid].end - q.records[appid].start
    requires forall a :: a in p.records && a != appid ==>
               && SameRecord(p, q, a)
               && q.records[a].end - q.records[a].start == p.records[a].end - p.records[a].start
    ensures SizesExact(p) ==> SizesExact(q)
  {
  }

  // The image that is read back.
  lemma {:induction false} SplicedImage(
    data: Bytes, p: Image, l: Layout, l': Layout, data': Bytes, appid: Word32, sections: Dict, e: Encoded, sums: Sums)
    returns (q: Image)
    requires Parse(data) == Ok(p) && ReadLayout(data) == Ok(l) && Stop(l.recs) <= l.limit
    requires Spliced(l, l', data, data', appid, sections, e, sums)
    ensures WellFormed(data') && Parse(data') == Ok(q) && Sound(p) && Sound(q) && q.version == p.version
    ensures p.records == Index(l.recs) && Contiguous(l.recs)
    ensures q.pool == e.pool && q.data == data' && q.records == Index(l'.recs)
    ensures q.version.V29? ==> p.stringOffset == l.limit && q.stringOffset == l'.limit
  {
    hide Index, ReadLayout, PackHeader, SplicedBytes, Stop, Contiguous, RelocateAll;
    var _ := ParsedParts(data, p);
    SplicedStop(l, l', data, data', appid, sections, e, sums);
    ParseSound(data');
    q := Parse(data').value;
  }

  lemma {:induction false} SplicedStop(
    l: Layout, l': Layout, data: Bytes, data': Bytes, appid: Word32, sections: Dict, e: Encoded, sums: Sums)
    requires Stop(l.recs) <= l.limit && Contiguous(l.recs)
    requires Spliced(l, l', data, data', appid, sections, e, sums)
    ensures Stop(l'.recs) <= l'.limit
  {
    hide Index, ReadLayout, PackHeader, SplicedBytes;
    var target := Index(l.recs)[appid];
    var edited := EditedRecord(target.(sections := sections), e.bytes, sums);
    IndexMember(l.recs, appid);
    StopMoved(l.recs, target, edited, edited.end - target.end, l.limit, l'.limit);
  }

  // A record is as long as its header and its encoding, and the string table
  // of version 29 moves with it.
  ghost predicate Sized(p: Image, q: Image, appid: Word32, sections: Dict) {
    && appid in p.records && appid in q.records && EncodeDict(p.version, sections, p.pool).Ok?
    && (var size, size' :=
          p.records[appid].end - p.records[appid].start, q.records[appid].end - q.records[appid].start;
        && size' == HEADER + |EncodeDict(p.version, sections, p.pool).value.bytes| < LIMIT32 + 8
        && (p.version.V29? ==> q.stringOffset == p.stringOffset + size' - size))
  }

  // The header of the edited record is true of what follows it: it counts its
  // bytes, and its digests are those of the new sections and their encoding.
  ghost predicate Checked(q: Image, appid: Word32, sections: Dict, sums: Sums) {
    && appid in q.records
    && (var r := q.records[appid];
        && r.start + HEADER <= r.end <= |q.data|
        && r.header.size + 8 == r.end - r.start
        && r.header.checksumText == sums.text(sections)
        && r.header.checksumBinary == sums.binary(q.data[r.start + HEADER..r.end]))
  }

  // The splice theorem: rewriting one app of a well-formed image gives a
  // well-formed image that reads back as the old one with that app's sections
  // replaced, every other record byte for byte the same, the pool extended by
  // exactly the keys it lacked, and the string table moved by what the record
  // grew; the size and both digests of the record are fresh.
  lemma {:induction false} SpliceTheorem(data: Bytes, p: Image, appid: Word32, sections: Dict, sums: Sums, img': Image)
    requires Parse(data) == Ok(p) && WellFormed(data) && appid in p.records
    requires Representable(p.version, p.pool, sections)
    requires Sound(WithSections(p, appid, sections))
               && Rewrite(WithSections(p, appid, sections), appid, sums) == Ok(img')
    ensures WellFormed(img'.data)
    ensures Parse(img'.data).Ok? && Parse(img'.data).value.pool == img'.pool
    ensures OneAppEdited(p, Parse(img'.data).value, appid, sections)
    ensures Sized(p, Parse(img'.data).value, appid, sections)
    ensures Checked(Parse(img'.data).value, appid, sections, sums)
  {
    hide Index, EncodeDict, ReadLayout, Rewrite, Parse, Representable, Spliced, SameRecord, SizesExact, WithSections,
      Contiguous, Stop, Extends, AllKeys, Checked;
    var l := ParsedParts(data, p);
    WellFormedParts(data, l);
    var e, l' := SplicedLayout(data, p, l, appid, sections, sums, img');
    var q := SplicedImage(data, p, l, l', img'.data, appid, sections, e, sums);
    SplicedRecords(p, q, l, l', appid, sections, e, sums);
    SplicedLimit(l, l', data, img'.data, appid, sections, e, sums);
    SplicedChecked(p, q, l, l', appid, sections, e, sums);
    if p.version.V29? {
      EncodeDictPool(sections, p.pool);
    }
  }

  // So an image whose headers are all true stays one.
  ghost predicate AllChecked(img: Image, sums: Sums) {
    forall a :: a in img.records ==> Checked(img, a, img.records[a].sections, sums)
  }

  lemma {:induction false} ChecksKept(p: Image, q: Image, appid: Word32, sections: Dict, sums: Sums)
    requires OneAppEdited(p, q, appid, sections) && Checked(q, appid, sections, sums)
    ensures AllChecked(p, sums) ==> AllChecked(q, sums)
  {
    hide Extends, SizesExact, AllKeys;
    if AllChecked(p, sums) {
      forall a | a in q.records ensures Checked(q, a, q.records[a].sections, sums) {
        if a != appid { CheckKept(p, q, a, sums); }
      }
    }
  }

  lemma {:induction false} CheckKept(p: Image, q: Image, a: Word32, sums: Sums)
    requires Sound(p) && Sound(q) && a in p.records && a in q.records && SameRecord(p, q, a)
    requires Checked(p, a, p.records[a].sections, sums)
    ensures Checked(q, a, q.records[a].sections, sums)
  {
    var r, r' := p.records[a], q.records[a];
    assert |q.data[r'.start..r'.end]| == |p.data[r.start..r.end]|;
    assert q.data[r'.start + HEADER..r'.end] == q.data[r'.start..r'.end][HEADER..];
    assert p.data[r.start + HEADER..r.end] == p.data[r.start..r.end][HEADER..];
  }

  lemma {:induction false} SplicedChecked(
    p: Image, q: Image, l: Layout, l': Layout, appid: Word32, sections: Dict, e: Encoded, sums: Sums)
    requires p.records == Index(l.recs) && Spliced(l, l', p.data, q.data, appid, sections, e, sums)
    requires appid in q.records
    requires q.records[appid] == EditedRecord(p.records[appid].(sections := sections), e.bytes, sums)
    ensures Checked(q, appid, sections, sums)
  {
    hide PackHeader, Index, ReadLayout, RelocateAll;
    var r := q.records[appid];
    AtConcat(q.data, r.start, PackHeader(r.header), e.bytes);
    assert q.data[r.start + HEADER..r.end] == e.bytes;
  }

  lemma {:induction false} WellFormedParts(data: Bytes, l: Layout)
    requires WellFormed(data) && ReadLayout(data) == Ok(l)
    ensures Stop(l.recs) <= l.limit && l.tableEnd == |data|
  {
    hide ReadLayout;
  }

  lemma {:induction false} SplicedLimit(
    l: Layout, l': Layout, data: Bytes, data': Bytes, appid: Word32, sections: Dict, e: Encoded, sums: Sums)
    requires Spliced(l, l', data, data', appid, sections, e, sums)
    ensures appid in Index(l.recs) && |e.bytes| + HEADER - 8 < LIMIT32
    ensures l'.limit == l.limit + HEADER + |e.bytes| - (Index(l.recs)[appid].end - Index(l.recs)[appid].start)
  {
    hide Index, ReadLayout, PackHeader, SplicedBytes;
  }

  // --- When a rewrite can fail ----------------------------------------------

  lemma {:induction false} EncodeFails(v: Version, d: Dict, pool: seq<string>)
    requires Writable(v, d) && EncodeDict(v, d, pool).Err?
    ensures EncodeDict(v, d, pool).error == TooLarge
    decreases d
  {
    hide Encode, Storable;
    var k := EncodeKey(v, d.key, pool);
    if k.Err? {
      if v.V28? { EncodeStorable(d.key); }
      assert k.error == TooLarge;
    } else {
      var x := EncodeValue(v, d.value, k.value.pool);
      if x.Ok? {
        EncodeFails(v, d.rest, x.value.pool);
      } else if d.value.Sub? {
        EncodeFails(v, d.value.dict, k.value.pool);
      } else if d.value.Text? {
        EncodeStorable(d.value.text);
      }
    }
  }

  lemma {:induction false} EncodeStorable(s: string)
    requires Storable(s)
    ensures EncodeString(s).Ok?
  {
    DecodeEncode(s);
  }

  lemma {:induction false} EncodeStringsStorable(strings: seq<string>)
    requires forall s :: s in strings ==> Storable(s)
    ensures EncodeStrings(strings).Ok?
  {
    hide EncodeString, Storable;
    if strings != [] {
      EncodeStorable(strings[0]);
      EncodeStringsStorable(strings[1..]);
    }
  }

  lemma {:induction false} PatchFits(
    data: Bytes, start: nat, end: nat, limit: nat, replacement: Bytes, additions: Bytes, limit': int, offset: Bytes,
    count: Bytes)
    requires FIRST <= start <= end <= limit && limit + 4 <= |data| && |offset| == 8 && |count| == 4
    requires limit' == limit + |replacement| - (end - start)
    ensures 0 <= limit'
    ensures PackInto(data[..start] + replacement + data[end..] + additions, 8, offset).Ok?
    ensures PackInto(PackInto(data[..start] + replacement + data[end..] + additions, 8, offset).value, limit',
              count).Ok?
  {
  }

  // A rewrite of a well-formed image with representable sections fails only
  // when a size, a count or an offset outgrows its field.
  lemma {:induction false} RewriteFails(data: Bytes, p: Image, appid: Word32, sections: Dict, sums: Sums)
    requires Parse(data) == Ok(p) && WellFormed(data) && appid in p.records
    requires Representable(p.version, p.pool, sections) && Sound(WithSections(p, appid, sections))
    requires Rewrite(WithSections(p, appid, sections), appid, sums).Err?
    ensures Rewrite(WithSections(p, appid, sections), appid, sums).error == TooLarge
  {
    hide Index, Scan, ReadStrings, EncodeDict, EncodeStrings, PackHeader, Pack32, Pack64, ReadLayout, PackInto,
      Storable;
    var l := ParsedParts(data, p);
    var target := p.records[appid];
    IndexMember(l.recs, appid);
    EndsWithin(l.recs, l.limit);
    var encoded := EncodeDict(p.version, sections, p.pool);
    if encoded.Err? {
      EncodeFails(p.version, sections, p.pool);
    } else if p.version.V29? && |encoded.value.bytes| + HEADER - 8 < LIMIT32 {
      var e := encoded.value;
      EncodeDictPool(sections, p.pool);
      EncodeStringsStorable(e.pool[|p.pool|..]);
      var rec := target.(sections := sections);
      var replacement := PackHeader(NewHeader(rec, e.bytes, sums)) + e.bytes;
      var limit' := l.limit + |replacement| - (target.end - target.start);
      if limit' < LIMIT63 && |e.pool| < LIMIT32 {
        PatchFits(data, target.start, target.end, l.limit, replacement, EncodeStrings(e.pool[|p.pool|..]).value, limit',
          Pack64(limit'), Pack32(|e.pool|));
      }
    }
  }
}