// The binary dictionary codec of appinfo.vdf. Keys are inline NUL-terminated
// strings in version 28 and indices into a shared string pool in version 29.
module Codec {
  import opened Wrappers
  import opened Words
  import opened Strings
  import opened Vdf

  datatype Version = V28 | V29

  // Every exception the editor can raise while reading or writing an image.
  datatype Fault =
    | Truncated          // struct.error while unpacking
    | TooShort           // less than a file header
    | Unterminated       // no NUL, or a dictionary without its end marker
    | UnsupportedType
    | BadPoolIndex
    | BadVersion
    | BadTableOffset
    | Unencodable        // UnicodeEncodeError
    | TooLarge           // struct.error while packing
    | NoSuchApp
    | NoLaunchSection
    | NoWindowsLaunch
    | NoSuchEntry
    | NoExecutable
    | NoMatch
    | ChangedUnexpectedly
    | BadConfig
    | BadState
    | WrongApp
    | NothingToReplace
    | BadAddPath
    | NoCloudRoot
    | UnsupportedRoot
    | BadOverrides
    | PathTaken
    | Io                 // OSError
    | CannotRepair

  const SUB: Byte := 0
  const TEXT: Byte := 1
  const WORD: Byte := 2
  const END: Byte := 8

  // --- Reading --------------------------------------------------------------

  // data.find(b"\0", offset)
  function FindNul(data: Bytes, offset: nat): (r: Option<nat>)
    ensures r.Some? ==> offset <= r.value < |data| && data[r.value] == 0
    ensures r.Some? ==> forall i :: offset <= i < r.value ==> data[i] != 0
    ensures r.None? ==> forall i :: offset <= i < |data| ==> data[i] != 0
    decreases |data| - offset
  {
    if offset >= |data| then None
    else if data[offset] == 0 then Some(offset)
    else FindNul(data, offset + 1)
  }

  function ReadString(data: Bytes, offset: nat): (r: Result<(string, nat), Fault>)
    ensures r.Ok? ==> offset < r.value.1 <= |data|
  {
    match FindNul(data, offset)
    case None => Err(Unterminated)
    case Some(end) => Ok((Decode(data[offset..end]), end + 1))
  }

  function ReadWord(data: Bytes, offset: nat): (r: Result<(Word32, nat), Fault>)
    ensures r.Ok? ==> offset < r.value.1 <= |data|
  {
    if offset + 4 <= |data| then Ok((Unpack32(data[offset..offset + 4]), offset + 4)) else Err(Truncated)
  }

  function ReadKey(v: Version, data: Bytes, pool: seq<string>, offset: nat): (r: Result<(string, nat), Fault>)
    ensures r.Ok? ==> offset < r.value.1 <= |data|
  {
    if v.V29? then
      var (index, next) :- ReadWord(data, offset);
      if index < |pool| then Ok((pool[index], next)) else Err(BadPoolIndex)
    else
      ReadString(data, offset)
  }

  function ReadValue(
    v: Version, data: Bytes, pool: seq<string>, offset: nat, tag: Byte): (r: Result<(Value, nat), Fault>)
    requires offset <= |data|
    ensures r.Ok? ==> offset < r.value.1 <= |data|
    decreases |data| - offset, 1
  {
    if tag == SUB then
      var (d, next) :- ReadDict(v, data, pool, offset, Empty);
      Ok((Sub(d), next))
    else if tag == TEXT then
      var (s, next) :- ReadString(data, offset);
      Ok((Text(s), next))
    else if tag == WORD then
      var (n, next) :- ReadWord(data, offset);
      Ok((Num(n), next))
    else
      Err(UnsupportedType)
  }

  // `acc` holds the entries read so far; a repeated key overwrites in place.
  function ReadDict(v: Version, data: Bytes, pool: seq<string>, offset: nat, acc: Dict): (r: Result<(Dict, nat), Fault>)
    requires offset <= |data|
    ensures r.Ok? ==> offset < r.value.1 <= |data|
    decreases |data| - offset, 0
  {
    if offset == |data| then Err(Unterminated)
    else if data[offset] == END then Ok((acc, offset + 1))
    else
      var (key, o1) :- ReadKey(v, data, pool, offset + 1);
      var (value, o2) :- ReadValue(v, data, pool, o1, data[offset]);
      ReadDict(v, data, pool, o2, Put(acc, key, value))
  }

  lemma {:induction false} ReadDictProper(v: Version, data: Bytes, pool: seq<string>, offset: nat, acc: Dict)
    requires offset <= |data| && Proper(acc)
    ensures var r := ReadDict(v, data, pool, offset, acc); r.Ok? ==> Proper(r.value.0)
    decreases |data| - offset
  {
    hide ReadString, ReadWord, EncodeString, EncodeWord, ReadKey, EncodeKey;
    if offset < |data| && data[offset] != END && ReadDict(v, data, pool, offset, acc).Ok? {
      var (key, o1) := ReadKey(v, data, pool, offset + 1).value;
      var (value, o2) := ReadValue(v, data, pool, o1, data[offset]).value;
      if data[offset] == SUB {
        ReadDictProper(v, data, pool, o1, Empty);
      }
      ProperPut(acc, key, value);
      ReadDictProper(v, data, pool, o2, Put(acc, key, value));
    }
  }

  // --- Writing --------------------------------------------------------------

  datatype Encoded = Encoded(bytes: Bytes, pool: seq<string>)

  // pool.index(key)
  function PoolIndex(pool: seq<string>, key: string): (r: Option<nat>)
    ensures r.Some? ==> r.value < |pool| && pool[r.value] == key && key !in pool[..r.value]
    ensures r.None? <==> key !in pool
  {
    if pool == [] then None
    else if pool[0] == key then Some(0)
    else
      assert pool == [pool[0]] + pool[1..];
      match PoolIndex(pool[1..], key)
      case None => None
      case Some(i) =>
        assert pool[..i + 1] == [pool[0]] + pool[1..][..i];
        Some(i + 1)
  }

  function EncodeString(s: string): Result<Bytes, Fault> {
    match Encode(s)
    case None => Err(Unencodable)
    case Some(raw) => Ok(raw + [0])
  }

  function EncodeWord(n: int): Result<Bytes, Fault> {
    if 0 <= n < LIMIT32 then Ok(Pack32(n)) else Err(TooLarge)
  }

  function EncodeKey(v: Version, key: string, pool: seq<string>): (r: Result<Encoded, Fault>)
    ensures r.Ok? ==> pool <= r.value.pool
  {
    if v.V29? then
      var found := PoolIndex(pool, key);
      var bytes :- EncodeWord(if found.Some? then found.value else |pool|);
      Ok(Encoded(bytes, if found.Some? then pool else pool + [key]))
    else
      var bytes :- EncodeString(key);
      Ok(Encoded(bytes, pool))
  }

  function Tag(value: Value): Byte {
    match value
    case Sub(_) => SUB
    case Text(_) => TEXT
    case Num(_) => WORD
  }

  function EncodeValue(v: Version, value: Value, pool: seq<string>): (r: Result<Encoded, Fault>)
    ensures r.Ok? ==> pool <= r.value.pool
    decreases value
  {
    match value
    case Sub(d) => EncodeDict(v, d, pool)
    case Text(s) => var bytes :- EncodeString(s); Ok(Encoded(bytes, pool))
    case Num(n) => var bytes :- EncodeWord(n); Ok(Encoded(bytes, pool))
  }

  function EncodeDict(v: Version, d: Dict, pool: seq<string>): (r: Result<Encoded, Fault>)
    ensures r.Ok? ==> pool <= r.value.pool && r.value.bytes != []
    decreases d
  {
    match d
    case Empty => Ok(Encoded([END], pool))
    case Entry(key, value, rest) =>
      var k :- EncodeKey(v, key, pool);
      var x :- EncodeValue(v, value, k.pool);
      var r :- EncodeDict(v, rest, x.pool);
      Ok(Encoded([Tag(value)] + k.bytes + x.bytes + r.bytes, r.pool))
  }

  // --- The reader looks only at the bytes it consumes -----------------------

  // data'[from + delta .. to + delta] equals data[from .. to]
  ghost predicate Moved(data: Bytes, data': Bytes, from: nat, to: nat, delta: int) {
    && from <= to <= |data|
    && 0 <= from + delta
    && to + delta <= |data'|
    && forall i {:trigger data[i]} :: from <= i < to ==> data'[i + delta] == data[i]
  }

  lemma {:induction false} FindNulMoved(data: Bytes, data': Bytes, offset: nat, delta: int)
    requires FindNul(data, offset).Some?
    requires Moved(data, data', offset, FindNul(data, offset).value + 1, delta)
    ensures FindNul(data', offset + delta) == Some(FindNul(data, offset).value + delta)
    decreases |data| - offset
  {
    assert data'[offset + delta] == data[offset];
    if data[offset] != 0 {
      FindNulMoved(data, data', offset + 1, delta);
    }
  }

  lemma {:induction false} MovedSlice(data: Bytes, data': Bytes, from: nat, to: nat, delta: int, a: nat, b: nat)
    requires Moved(data, data', from, to, delta) && from <= a <= b <= to
    ensures data'[a + delta..b + delta] == data[a..b]
  {
  }

  lemma {:induction false} ReadStringMoved(data: Bytes, data': Bytes, offset: nat, delta: int)
    requires ReadString(data, offset).Ok?
    requires Moved(data, data', offset, ReadString(data, offset).value.1, delta)
    ensures var (s, end) := ReadString(data, offset).value;
            ReadString(data', offset + delta) == Ok((s, end + delta))
  {
    hide FromUtf8, Decode;
    FindNulMoved(data, data', offset, delta);
    var end := FindNul(data, offset).value;
    MovedSlice(data, data', offset, end + 1, delta, offset, end);
  }

  lemma {:induction false} ReadWordMoved(data: Bytes, data': Bytes, offset: nat, delta: int)
    requires ReadWord(data, offset).Ok?
    requires Moved(data, data', offset, offset + 4, delta)
    ensures var (n, end) := ReadWord(data, offset).value;
            ReadWord(data', offset + delta) == Ok((n, end + delta))
  {
    MovedSlice(data, data', offset, offset + 4, delta, offset, offset + 4);
  }

  lemma {:induction false} ReadKeyMoved(
    v: Version, data: Bytes, data': Bytes, pool: seq<string>, pool': seq<string>, offset: nat, delta: int)
    requires ReadKey(v, data, pool, offset).Ok? && pool <= pool'
    requires Moved(data, data', offset, ReadKey(v, data, pool, offset).value.1, delta)
    ensures var (key, end) := ReadKey(v, data, pool, offset).value;
            ReadKey(v, data', pool', offset + delta) == Ok((key, end + delta))
  {
    hide Decode, ReadString;
    if v.V29? {
      ReadWordMoved(data, data', offset, delta);
    } else {
      ReadStringMoved(data, data', offset, delta);
    }
  }

  lemma {:induction false} MovedPart(data: Bytes, data': Bytes, from: nat, to: nat, delta: int, a: nat, b: nat)
    requires Moved(data, data', from, to, delta) && from <= a <= b <= to
    ensures Moved(data, data', a, b, delta)
  {
  }

  // One turn of the reader's loop.
  lemma {:induction false} ReadDictStep(
    v: Version, data: Bytes, pool: seq<string>, offset: nat, acc: Dict, tag: Byte, key: string, o1: nat, value: Value,
    o2: nat)
    requires offset < |data| && data[offset] == tag != END
    requires ReadKey(v, data, pool, offset + 1) == Ok((key, o1))
    requires ReadValue(v, data, pool, o1, tag) == Ok((value, o2))
    ensures ReadDict(v, data, pool, offset, acc) == ReadDict(v, data, pool, o2, Put(acc, key, value))
  {
    hide ReadString, ReadWord, ReadKey;
  }

  lemma {:induction false} ReadEntryMoved(
    v: Version, data: Bytes, data': Bytes, pool: seq<string>, pool': seq<string>, offset: nat, delta: int,
    key: string, o1: nat, value: Value, o2: nat)
    requires offset < |data| && pool <= pool'
    requires ReadKey(v, data, pool, offset + 1) == Ok((key, o1))
    requires ReadValue(v, data, pool, o1, data[offset]) == Ok((value, o2))
    requires Moved(data, data', offset, o2, delta)
    ensures ReadKey(v, data', pool', offset + delta + 1) == Ok((key, o1 + delta))
    ensures ReadValue(v, data', pool', o1 + delta, data[offset]) == Ok((value, o2 + delta))
    decreases |data| - offset, 0
  {
    hide ReadString, ReadWord, EncodeString, EncodeWord, ReadKey, EncodeKey;
    MovedPart(data, data', offset, o2, delta, offset + 1, o1);
    ReadKeyMoved(v, data, data', pool, pool', offset + 1, delta);
    MovedPart(data, data', offset, o2, delta, o1, o2);
    ReadValueMoved(v, data, data', pool, pool', o1, delta, data[offset], value, o2);
  }

  // A successful read is repeated wherever its bytes reappear, also under a
  // longer pool.
  lemma {:induction false} ReadDictMoved(
    v: Version, data: Bytes, data': Bytes, pool: seq<string>, pool': seq<string>, offset: nat, delta: int,
    acc: Dict, d: Dict, end: nat)
    requires offset <= |data| && pool <= pool'
    requires ReadDict(v, data, pool, offset, acc) == Ok((d, end))
    requires Moved(data, data', offset, end, delta)
    ensures ReadDict(v, data', pool', offset + delta, acc) == Ok((d, end + delta))
    decreases |data| - offset, 1
  {
    hide ReadString, ReadWord, EncodeString, EncodeWord, ReadKey, EncodeKey;
    var tag, offset': nat := data[offset], offset + delta;
    assert data'[offset'] == tag;
    if tag != END {
      var (key, o1) := ReadKey(v, data, pool, offset + 1).value;
      var (value, o2) := ReadValue(v, data, pool, o1, tag).value;
      ReadDictStep(v, data, pool, offset, acc, tag, key, o1, value, o2);
      ReadEntryMoved(v, data, data', pool, pool', offset, delta, key, o1, value, o2);
      ReadDictStep(v, data', pool', offset', acc, tag, key, o1 + delta, value, o2 + delta);
      ReadDictMoved(v, data, data', pool, pool', o2, delta, Put(acc, key, value), d, end);
      assert ReadDict(v, data', pool', offset', acc) == Ok((d, end + delta));
    } else {
      assert d == acc && end == offset + 1;
      assert ReadDict(v, data', pool', offset', acc) == Ok((d, end + delta));
    }
  }

  lemma {:induction false} ReadValueMoved(
    v: Version, data: Bytes, data': Bytes, pool: seq<string>, pool': seq<string>, offset: nat, delta: int,
    tag: Byte, x: Value, end: nat)
    requires offset <= |data| && pool <= pool'
    requires ReadValue(v, data, pool, offset, tag) == Ok((x, end))
    requires Moved(data, data', offset, end, delta)
    ensures ReadValue(v, data', pool', offset + delta, tag) == Ok((x, end + delta))
    decreases |data| - offset, 2
  {
    hide Decode, Encode, ReadKey, EncodeKey;
    if tag == SUB {
      ReadDictMoved(v, data, data', pool, pool', offset, delta, Empty, x.dict, end);
    } else if tag == TEXT {
      ReadStringMoved(data, data', offset, delta);
    } else {
      ReadWordMoved(data, data', offset, delta);
    }
  }

  // --- Reading what was written ---------------------------------------------

  // Every text, and in version 28 every key, survives the string encoding.
  predicate Writable(v: Version, d: Dict) {
    match d
    case Empty => true
    case Entry(key, value, rest) =>
      && (v.V28? ==> Storable(key))
      && WritableValue(v, value)
      && Writable(v, rest)
  }

  predicate WritableValue(v: Version, value: Value) {
    match value
    case Sub(d) => Writable(v, d)
    case Text(s) => Storable(s)
    case Num(_) => true
  }

  // `bytes` occur in `data` at `offset`
  ghost predicate At(data: Bytes, offset: nat, bytes: Bytes) {
    offset + |bytes| <= |data| && data[offset..offset + |bytes|] == bytes
  }

  lemma {:induction false} AtConcat(data: Bytes, offset: nat, a: Bytes, b: Bytes)
    requires At(data, offset, a + b)
    ensures At(data, offset, a) && At(data, offset + |a|, b)
  {
    assert data[offset..offset + |a|] == (a + b)[..|a|];
    assert data[offset + |a|..offset + |a| + |b|] == (a + b)[|a|..];
  }

  lemma {:induction false} FindNulAt(data: Bytes, offset: nat, raw: Bytes)
    requires At(data, offset, raw + [0]) && 0 !in raw
    ensures FindNul(data, offset) == Some(offset + |raw|)
    decreases raw
  {
    assert data[offset] == (raw + [0])[0];
    if raw != [] {
      assert raw + [0] == [raw[0]] + (raw[1..] + [0]);
      AtConcat(data, offset, [raw[0]], raw[1..] + [0]);
      FindNulAt(data, offset + 1, raw[1..]);
    }
  }

  lemma {:induction false} ReadStringAt(data: Bytes, offset: nat, s: string)
    requires Storable(s) && EncodeString(s).Ok? && At(data, offset, EncodeString(s).value)
    ensures ReadString(data, offset) == Ok((s, offset + |EncodeString(s).value|))
  {
    DecodeEncode(s);
    var raw := Encode(s).value;
    FindNulAt(data, offset, raw);
    AtConcat(data, offset, raw, [0]);
  }

  lemma {:induction false} ReadWordAt(data: Bytes, offset: nat, n: Word32)
    requires At(data, offset, Pack32(n))
    ensures ReadWord(data, offset) == Ok((n, offset + 4))
  {
    UnpackPack32(n);
  }

  lemma {:induction false} ReadKeyAt(
    v: Version, data: Bytes, offset: nat, key: string, pool: seq<string>, final: seq<string>)
    requires EncodeKey(v, key, pool).Ok? && At(data, offset, EncodeKey(v, key, pool).value.bytes)
    requires EncodeKey(v, key, pool).value.pool <= final && (v.V28? ==> Storable(key))
    ensures ReadKey(v, data, final, offset) == Ok((key, offset + |EncodeKey(v, key, pool).value.bytes|))
  {
    hide Decode, Encode, ReadString, EncodeString;
    if v.V29? {
      var found := PoolIndex(pool, key);
      var index := if found.Some? then found.value else |pool|;
      ReadWordAt(data, offset, index);
      assert EncodeKey(v, key, pool).value.pool[index] == key;
    } else {
      ReadStringAt(data, offset, key);
    }
  }

  // Codec round trip: the encoding of a proper, storable dictionary reads back
  // as that dictionary wherever it stands, up to and including its end marker.
  lemma {:induction false} ReadDictAt(
    v: Version, data: Bytes, offset: nat, end: nat, d: Dict, pool: seq<string>, e: Encoded, final: seq<string>,
    acc: Dict)
    requires Proper(d) && Writable(v, d) && Fresh(d, acc)
    requires EncodeDict(v, d, pool) == Ok(e) && e.pool <= final
    requires At(data, offset, e.bytes) && end == offset + |e.bytes|
    ensures ReadDict(v, data, final, offset, acc) == Ok((Append(acc, d), end))
    decreases d, 0
  {
    hide ReadString, ReadWord, EncodeString, EncodeWord, ReadKey, EncodeKey;
    match d
    case Empty =>
      assert e.bytes == [END] && data[offset] == e.bytes[0];
      AppendEmpty(acc);
      assert ReadDict(v, data, final, offset, acc) == Ok((acc, end));
    case Entry(key, value, rest) =>
      var k, x, r := EncodedEntry(v, key, value, rest, pool, e);
      var o1 := offset + 1 + |k.bytes|;
      var o2 := o1 + |x.bytes|;
      EntryAt(data, offset, Tag(value), k.bytes, x.bytes, r.bytes);
      ReadEntryAt(v, data, offset, o1, o2, key, value, pool, k, x, final);
      FreshRest(key, value, rest, acc);
      ReadDictAt(v, data, o2, end, rest, x.pool, r, final, Put(acc, key, value));
      ReadConsAt(v, data, offset, o1, o2, end, key, value, rest, final, acc);
  }

  lemma {:induction false} ReadConsAt(
    v: Version, data: Bytes, offset: nat, o1: nat, o2: nat, end: nat, key: string, value: Value, rest: Dict,
    final: seq<string>, acc: Dict)
    requires offset < |data| && data[offset] == Tag(value) && !Has(acc, key)
    requires ReadKey(v, data, final, offset + 1) == Ok((key, o1))
    requires ReadValue(v, data, final, o1, Tag(value)) == Ok((value, o2))
    requires ReadDict(v, data, final, o2, Put(acc, key, value)) == Ok((Append(Put(acc, key, value), rest), end))
    ensures ReadDict(v, data, final, offset, acc) == Ok((Append(acc, Entry(key, value, rest)), end))
  {
    hide ReadString, ReadWord, EncodeString, EncodeWord, ReadKey, EncodeKey;
    PutFresh(acc, key, value, rest);
    ReadDictStep(v, data, final, offset, acc, Tag(value), key, o1, value, o2);
  }

  lemma {:induction false} EncodedEntry(
    v: Version, key: string, value: Value, rest: Dict, pool: seq<string>, e: Encoded)
    returns (k: Encoded, x: Encoded, r: Encoded)
    requires EncodeDict(v, Entry(key, value, rest), pool) == Ok(e)
    ensures EncodeKey(v, key, pool) == Ok(k)
    ensures EncodeValue(v, value, k.pool) == Ok(x)
    ensures EncodeDict(v, rest, x.pool) == Ok(r)
    ensures e == Encoded([Tag(value)] + k.bytes + x.bytes + r.bytes, r.pool)
  {
    hide ReadString, ReadWord, EncodeString, EncodeWord, ReadKey, EncodeKey;
    k := EncodeKey(v, key, pool).value;
    x := EncodeValue(v, value, k.pool).value;
    r := EncodeDict(v, rest, x.pool).value;
  }

  lemma {:induction false} ReadEntryAt(
    v: Version, data: Bytes, offset: nat, o1: nat, o2: nat, key: string, value: Value, pool: seq<string>,
    k: Encoded, x: Encoded, final: seq<string>)
    requires ProperValue(value) && WritableValue(v, value) && (v.V28? ==> Storable(key))
    requires EncodeKey(v, key, pool) == Ok(k) && EncodeValue(v, value, k.pool) == Ok(x) && x.pool <= final
    requires o1 == offset + 1 + |k.bytes| && o2 == o1 + |x.bytes|
    requires At(data, offset + 1, k.bytes) && At(data, o1, x.bytes)
    ensures ReadKey(v, data, final, offset + 1) == Ok((key, o1))
    ensures ReadValue(v, data, final, o1, Tag(value)) == Ok((value, o2))
    decreases value, 2
  {
    hide ReadString, ReadWord, EncodeString, EncodeWord, ReadKey, EncodeKey;
    ReadKeyAt(v, data, offset + 1, key, pool, final);
    ReadValueAt(v, data, o1, o2, value, k.pool, x, final);
  }

  lemma {:induction false} EntryAt(data: Bytes, offset: nat, tag: Byte, k: Bytes, x: Bytes, r: Bytes)
    requires At(data, offset, [tag] + k + x + r)
    ensures offset < |data| && data[offset] == tag
    ensures At(data, offset + 1, k) && At(data, offset + 1 + |k|, x) && At(data, offset + 1 + |k| + |x|, r)
  {
    AtConcat(data, offset, [tag] + k + x, r);
    AtConcat(data, offset, [tag] + k, x);
    AtConcat(data, offset, [tag], k);
    assert data[offset] == data[offset..offset + 1][0];
  }

  lemma {:induction false} ReadValueAt(
    v: Version, data: Bytes, offset: nat, end: nat, value: Value, pool: seq<string>, e: Encoded, final: seq<string>)
    requires ProperValue(value) && WritableValue(v, value)
    requires EncodeValue(v, value, pool) == Ok(e) && e.pool <= final
    requires At(data, offset, e.bytes) && end == offset + |e.bytes|
    ensures ReadValue(v, data, final, offset, Tag(value)) == Ok((value, end))
    decreases value, 1
  {
    hide Decode, Encode, ReadKey, EncodeKey;
    match value
    case Sub(d) => ReadDictAt(v, data, offset, end, d, pool, e, final, Empty);
    case Text(s) => ReadStringAt(data, offset, s);
    case Num(n) => ReadWordAt(data, offset, n);
  }

  // --- What the encoder adds to the pool ------------------------------------

  function AllKeys(d: Dict): set<string> {
    match d
    case Empty => {}
    case Entry(key, value, rest) => {key} + (if value.Sub? then AllKeys(value.dict) else {}) + AllKeys(rest)
  }

  // `pool'` is `pool` followed by distinct new keys, exactly those of `keys`
  // that `pool` lacks.
  ghost predicate Extends(pool: seq<string>, pool': seq<string>, keys: set<string>) {
    && pool <= pool'
    && (forall i, j :: |pool| <= i < |pool'| && 0 <= j < i ==> pool'[i] != pool'[j])
    && (forall k :: k in pool'[|pool|..] <==> k in keys && k !in pool)
  }

  lemma {:induction false} ExtendsTwice(
    a: seq<string>, b: seq<string>, c: seq<string>, keys: set<string>, more: set<string>)
    requires Extends(a, b, keys) && Extends(b, c, more)
    ensures Extends(a, c, keys + more)
  {
  }

  lemma {:induction false} EncodeKeyPool(key: string, pool: seq<string>)
    requires EncodeKey(V29, key, pool).Ok?
    ensures Extends(pool, EncodeKey(V29, key, pool).value.pool, {key})
  {
  }

  lemma {:induction false} EncodeDictPool(d: Dict, pool: seq<string>)
    requires EncodeDict(V29, d, pool).Ok?
    ensures Extends(pool, EncodeDict(V29, d, pool).value.pool, AllKeys(d))
    decreases d
  {
    hide ReadString, ReadWord, EncodeString, EncodeWord, ReadKey, EncodeKey;
    match d
    case Empty => assert pool[|pool|..] == [];
    case Entry(key, value, rest) =>
      var k := EncodeKey(V29, key, pool).value;
      var x := EncodeValue(V29, value, k.pool).value;
      var r := EncodeDict(V29, rest, x.pool).value;
      var keys := if value.Sub? then AllKeys(value.dict) else {};
      EncodeKeyPool(key, pool);
      assert Extends(k.pool, x.pool, keys) by {
        if value.Sub? { EncodeDictPool(value.dict, k.pool); } else { assert x.pool[|x.pool|..] == []; }
      }
      EncodeDictPool(rest, x.pool);
      ExtendsTwice(pool, k.pool, x.pool, {key}, keys);
      ExtendsTwice(pool, x.pool, r.pool, {key} + keys, AllKeys(rest));
  }

  lemma {:induction false} EncodeDictPool28(d: Dict, pool: seq<string>)
    requires EncodeDict(V28, d, pool).Ok?
    ensures EncodeDict(V28, d, pool).value.pool == pool
    decreases d
  {
    if d.Entry? {
      if d.value.Sub? {
        EncodeDictPool28(d.value.dict, pool);
      }
      EncodeDictPool28(d.rest, pool);
    }
  }

  // --- Writing what was read ------------------------------------------------

  // Not valid UTF-8 that ends in the fallback marker.
  predicate Plain(raw: Bytes) {
    !(ValidUtf8(raw) && raw != [] && raw[|raw| - 1] == 6)
  }

  predicate PlainString(data: Bytes, offset: nat) {
    FindNul(data, offset).Some? ==> Plain(data[offset..FindNul(data, offset).value])
  }

  predicate PlainKey(v: Version, data: Bytes, pool: seq<string>, offset: nat) {
    if v.V28? then PlainString(data, offset)
    else
      var r := ReadWord(data, offset);
      r.Ok? && r.value.0 < |pool| ==> pool[r.value.0] !in pool[..r.value.0]
  }

  // No key is repeated at its level, no string is marked by accident, and every
  // pool index is the first one that holds its key.
  predicate Canonical(v: Version, data: Bytes, pool: seq<string>, offset: nat, acc: Dict)
    requires offset <= |data|
    decreases |data| - offset
  {
    if offset == |data| || data[offset] == END then true
    else
      var k := ReadKey(v, data, pool, offset + 1);
      if k.Err? then true
      else
        var (key, o1) := k.value;
        var x := ReadValue(v, data, pool, o1, data[offset]);
        && PlainKey(v, data, pool, offset + 1)
        && !Has(acc, key)
        && (data[offset] == SUB ==> Canonical(v, data, pool, o1, Empty))
        && (data[offset] == TEXT ==> PlainString(data, o1))
        && (x.Ok? ==> Canonical(v, data, pool, x.value.1, Put(acc, key, x.value.0)))
  }

  lemma {:induction false} EncodeReadString(data: Bytes, offset: nat, s: string, end: nat)
    requires ReadString(data, offset) == Ok((s, end)) && PlainString(data, offset)
    ensures EncodeString(s) == Ok(data[offset..end])
  {
    var raw := data[offset..FindNul(data, offset).value];
    EncodeDecode(raw);
    assert data[offset..end] == raw + [0];
  }

  lemma {:induction false} EncodeReadWord(data: Bytes, offset: nat, n: Word32, end: nat)
    requires ReadWord(data, offset) == Ok((n, end))
    ensures EncodeWord(n) == Ok(data[offset..end])
  {
    PackUnpack32(data[offset..offset + 4]);
  }

  lemma {:induction false} EncodeReadKey(v: Version, data: Bytes, pool: seq<string>, offset: nat, key: string, end: nat)
    requires ReadKey(v, data, pool, offset) == Ok((key, end)) && PlainKey(v, data, pool, offset)
    ensures EncodeKey(v, key, pool) == Ok(Encoded(data[offset..end], pool))
  {
    hide Decode, Encode, ReadString, EncodeString;
    if v.V28? {
      EncodeReadString(data, offset, key, end);
    } else {
      var index := ReadWord(data, offset).value.0;
      EncodeReadWord(data, offset, index, end);
      var found := PoolIndex(pool, key).value;
      forall j | 0 <= j < index ensures pool[j] != key { assert pool[j] == pool[..index][j]; }
      forall j | 0 <= j < found ensures pool[j] != key { assert pool[j] == pool[..found][j]; }
    }
  }

  // Re-encoding a canonical dictionary gives back its very bytes and needs no
  // new pool entry. `rest` is what this call added to `acc`.
  lemma {:induction false} EncodeReadDict(
    v: Version, data: Bytes, pool: seq<string>, offset: nat, acc: Dict, d: Dict, end: nat)
    returns (rest: Dict)
    requires offset <= |data| && ReadDict(v, data, pool, offset, acc) == Ok((d, end))
    requires Canonical(v, data, pool, offset, acc)
    ensures d == Append(acc, rest)
    ensures EncodeDict(v, rest, pool) == Ok(Encoded(data[offset..end], pool))
    decreases |data| - offset, 0
  {
    hide ReadString, ReadWord, EncodeString, EncodeWord, ReadKey, EncodeKey;
    var tag := data[offset];
    if tag == END {
      rest := Empty;
      AppendEmpty(acc);
      assert data[offset..end] == [END];
    } else {
      var (key, o1) := ReadKey(v, data, pool, offset + 1).value;
      var (value, o2) := ReadValue(v, data, pool, o1, tag).value;
      ReadDictStep(v, data, pool, offset, acc, tag, key, o1, value, o2);
      EncodeReadKey(v, data, pool, offset + 1, key, o1);
      EncodeReadValue(v, data, pool, o1, tag, value, o2);
      var more := EncodeReadDict(v, data, pool, o2, Put(acc, key, value), d, end);
      rest := Entry(key, value, more);
      PutFresh(acc, key, value, more);
      assert EncodeDict(v, rest, pool)
          == Ok(Encoded([tag] + data[offset + 1..o1] + data[o1..o2] + data[o2..end], pool));
      EntrySlices(data, offset, o1, o2, end);
    }
  }

  lemma {:induction false} EntrySlices(data: Bytes, offset: nat, o1: nat, o2: nat, end: nat)
    requires offset < o1 <= o2 <= end <= |data|
    ensures data[offset..end] == [data[offset]] + data[offset + 1..o1] + data[o1..o2] + data[o2..end]
  {
  }

  lemma {:induction false} EncodeReadValue(
    v: Version, data: Bytes, pool: seq<string>, offset: nat, tag: Byte, value: Value, end: nat)
    requires offset <= |data| && ReadValue(v, data, pool, offset, tag) == Ok((value, end))
    requires tag == SUB ==> Canonical(v, data, pool, offset, Empty)
    requires tag == TEXT ==> PlainString(data, offset)
    ensures Tag(value) == tag
    ensures EncodeValue(v, value, pool) == Ok(Encoded(data[offset..end], pool))
    decreases |data| - offset, 1
  {
    hide Decode, Encode, ReadKey, EncodeKey;
    if tag == SUB {
      var rest := EncodeReadDict(v, data, pool, offset, Empty, value.dict, end);
    } else if tag == TEXT {
      EncodeReadString(data, offset, value.text, end);
    } else {
      EncodeReadWord(data, offset, value.num, end);
    }
  }
}
