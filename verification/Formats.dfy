// Bytes as the formats have them: little-endian words, UTF-8 as in its standard,
// the fields of a record header by position, and a small dictionary in both
// versions.
module Formats {
  import opened Wrappers
  import opened Words
  import opened Strings
  import opened Vdf
  import opened Codec
  import opened AppImage
  import Cloud
  import Launch
  import PythonText

  // The first byte is the lowest.
  lemma {:induction false} LittleEndian()
    ensures Pack32(0x0403_0201) == [1, 2, 3, 4] && Unpack32([1, 2, 3, 4]) == 0x0403_0201
    ensures Pack64(0x0807_0605_0403_0201) == [1, 2, 3, 4, 5, 6, 7, 8]
    ensures Unpack64([1, 2, 3, 4, 5, 6, 7, 8]) == 0x0807_0605_0403_0201
  {
    var bs: Bytes := [1, 2, 3, 4, 5, 6, 7, 8];
    assert bs[..4] == [1, 2, 3, 4] && bs[4..] == [5, 6, 7, 8];
  }

  // An offset of all ones is minus one.
  lemma {:induction false} SignedOffset()
    ensures UnpackSigned64([0xFF, 0xFF, 0xFF, 0xFF, 0xFF, 0xFF, 0xFF, 0xFF]) == -1
  {
    var bs: Bytes := [0xFF, 0xFF, 0xFF, 0xFF, 0xFF, 0xFF, 0xFF, 0xFF];
    assert bs[..4] == [0xFF, 0xFF, 0xFF, 0xFF] && bs[4..] == [0xFF, 0xFF, 0xFF, 0xFF];
    assert Unpack32([0xFF, 0xFF, 0xFF, 0xFF]) == 0xFFFF_FFFF;
  }

  // The examples of RFC 3629, section 7: A, a Greek Alpha and a relation between
  // them, and a character beyond the first plane.
  lemma {:induction false} Utf8Examples()
    ensures Utf8("A\U{2262}\U{0391}.") == [0x41, 0xE2, 0x89, 0xA2, 0xCE, 0x91, 0x2E]
    ensures Utf8("\U{233B4}") == [0xF0, 0xA3, 0x8E, 0xB4]
  {
    Utf8Cons('A', "\U{2262}\U{0391}.");
    Utf8Cons('\U{2262}', "\U{0391}.");
    Utf8Cons('\U{0391}', ".");
    Utf8Cons('.', "");
    Utf8Cons('\U{233B4}', "");
  }

  lemma {:induction false} Utf8Cons(c: char, rest: string)
    ensures Utf8([c] + rest) == Utf8Char(c) + Utf8(rest)
    ensures Utf8("") == []
  {
    assert ([c] + rest)[1..] == rest;
  }

  // Every field of a record header at its place.
  lemma {:induction false} HeaderFields(h: Header)
    ensures var bs := PackHeader(h);
            && |bs| == 68
            && bs[0..4] == Pack32(h.appid) && bs[4..8] == Pack32(h.size) && bs[8..12] == Pack32(h.state)
            && bs[12..16] == Pack32(h.lastUpdate) && bs[16..24] == Pack64(h.accessToken)
            && bs[24..44] == h.checksumText && bs[44..48] == Pack32(h.changeNumber) && bs[48..68] == h.checksumBinary
  {
    hide Pack32, Pack64;
    HeaderSlices(
      Pack32(h.appid), Pack32(h.size), Pack32(h.state), Pack32(h.lastUpdate), Pack64(h.accessToken),
      h.checksumText, Pack32(h.changeNumber), h.checksumBinary);
  }

  // The eight bytes each version begins with.
  lemma {:induction false} VersionNumbers()
    ensures Pack64(MAGIC28) == [0x28, 0x44, 0x56, 0x07, 1, 0, 0, 0]
    ensures Pack64(MAGIC29) == [0x29, 0x44, 0x56, 0x07, 1, 0, 0, 0]
  {
    assert MAGIC28 % LIMIT32 == 0x0756_4428 && MAGIC28 / LIMIT32 == 1;
    assert MAGIC29 % LIMIT32 == 0x0756_4429 && MAGIC29 / LIMIT32 == 1;
  }

  lemma {:induction false} AsciiText(s: string)
    requires |s| == 1 && 6 < s[0] as int < 0x80
    ensures EncodeString(s) == Ok([s[0] as int as Byte, 0])
  {
    assert s[1..] == "" && Utf8("") == [];
    assert Utf8(s) == Utf8Char(s[0]) + Utf8(s[1..]) == [s[0] as int as Byte];
    assert !Marked(s) && Encode(s) == Some([s[0] as int as Byte]);
    assert [s[0] as int as Byte] + [0] == [s[0] as int as Byte, 0];
  }

  lemma {:induction false} EntryBytes(
    v: Version, key: string, value: Value, rest: Dict, pool: seq<string>, k: Encoded, x: Encoded, r: Encoded,
    bytes: Bytes)
    requires EncodeKey(v, key, pool) == Ok(k) && EncodeValue(v, value, k.pool) == Ok(x)
    requires EncodeDict(v, rest, x.pool) == Ok(r) && bytes == [Tag(value)] + k.bytes + x.bytes + r.bytes
    ensures EncodeDict(v, Entry(key, value, rest), pool) == Ok(Encoded(bytes, r.pool))
  {
    hide EncodeKey;
  }

  lemma {:induction false} EmptyBytes(v: Version, pool: seq<string>)
    ensures EncodeDict(v, Empty, pool) == Ok(Encoded([8], pool))
  {
  }

  lemma {:induction false} TextKey(s: string)
    requires |s| == 1 && 6 < s[0] as int < 0x80
    ensures EncodeKey(V28, s, []) == Ok(Encoded([s[0] as int as Byte, 0], []))
    ensures forall v, pool :: EncodeValue(v, Text(s), pool) == Ok(Encoded([s[0] as int as Byte, 0], pool))
  {
    hide EncodeString;
    AsciiText(s);
  }

  // A dictionary of one entry, and one of two.
  lemma {:induction false} OneEntry(
    v: Version, key: string, value: Value, pool: seq<string>, k: Encoded, x: Encoded, bytes: Bytes)
    requires EncodeKey(v, key, pool) == Ok(k) && EncodeValue(v, value, k.pool) == Ok(x)
    requires bytes == [Tag(value)] + k.bytes + x.bytes + [8]
    ensures EncodeDict(v, Entry(key, value, Empty), pool) == Ok(Encoded(bytes, x.pool))
  {
    hide EncodeKey;
    EmptyBytes(v, x.pool);
    EntryBytes(v, key, value, Empty, pool, k, x, Encoded([8], x.pool), bytes);
  }

  // A dictionary with the text c under b, and one with the number 7 under n: keys
  // are texts in version 28.
  lemma {:induction false} DictExample28()
    ensures EncodeDict(V28, Entry("b", Text("c"), Empty), []) == Ok(Encoded([1, 0x62, 0, 0x63, 0, 8], []))
    ensures EncodeDict(V28, Entry("n", Num(7), Empty), []) == Ok(Encoded([2, 0x6E, 0, 7, 0, 0, 0, 8], []))
  {
    hide EncodeKey, EncodeDict;
    TextKey("b");
    TextKey("c");
    TextKey("n");
    OneEntry(V28, "b", Text("c"), [], Encoded([0x62, 0], []), Encoded([0x63, 0], []), [1, 0x62, 0, 0x63, 0, 8]);
    OneEntry(V28, "n", Num(7), [], Encoded([0x6E, 0], []), Encoded([7, 0, 0, 0], []), [2, 0x6E, 0, 7, 0, 0, 0, 8]);
  }

  lemma {:induction false} NewKey(key: string, pool: seq<string>)
    requires key !in pool && |pool| < 0x100
    ensures EncodeKey(V29, key, pool) == Ok(Encoded([|pool| as Byte, 0, 0, 0], pool + [key]))
  {
  }

  lemma {:induction false} FirstKey(key: string, pool: seq<string>)
    requires pool != [] && pool[0] == key
    ensures EncodeKey(V29, key, pool) == Ok(Encoded([0, 0, 0, 0], pool))
  {
  }

  // In version 29 they are places in the pool, which gains what it lacks.
  lemma {:induction false} DictExample29()
    ensures EncodeDict(V29, Entry("b", Text("c"), Empty), ["n"])
         == Ok(Encoded([1, 1, 0, 0, 0, 0x63, 0, 8], ["n", "b"]))
    ensures EncodeDict(V29, Entry("n", Num(7), Empty), ["n"])
         == Ok(Encoded([2, 0, 0, 0, 0, 7, 0, 0, 0, 8], ["n"]))
  {
    hide EncodeKey, EncodeDict;
    TextKey("c");
    var pool, more := ["n"], ["n", "b"];
    assert "b"[0] != "n"[0] && pool + ["b"] == more;
    NewKey("b", pool);
    FirstKey("n", pool);
    OneEntry(V29, "b", Text("c"), pool, Encoded([1, 0, 0, 0], more), Encoded([0x63, 0], more),
      [1, 1, 0, 0, 0, 0x63, 0, 8]);
    OneEntry(V29, "n", Num(7), pool, Encoded([0, 0, 0, 0], pool), Encoded([7, 0, 0, 0], pool),
      [2, 0, 0, 0, 0, 7, 0, 0, 0, 8]);
  }

  // A sub-dictionary follows its tag and key, with an end marker of its own.
  lemma {:induction false} NestedExample()
    ensures EncodeDict(V28, Entry("a", Sub(Entry("b", Text("c"), Empty)), Empty), [])
         == Ok(Encoded([0, 0x61, 0, 1, 0x62, 0, 0x63, 0, 8, 8], []))
  {
    hide EncodeKey, EncodeDict;
    TextKey("a");
    DictExample28();
    var inner := Entry("b", Text("c"), Empty);
    assert EncodeValue(V28, Sub(inner), []) == EncodeDict(V28, inner, []);
    OneEntry(V28, "a", Sub(inner), [], Encoded([0x61, 0], []), Encoded([1, 0x62, 0, 0x63, 0, 8], []),
      [0, 0x61, 0, 1, 0x62, 0, 0x63, 0, 8, 8]);
  }

  // Where an app keeps its launch entries, its Auto-Cloud section and the rules of
  // it, and which roots of rules are known.
  lemma {:induction false} Places(sections: Dict)
    ensures Launch.LAUNCH == ["appinfo", "config", "launch"] && Cloud.UFS == ["appinfo", "ufs"]
    ensures Find(sections, ["appinfo", "ufs", "savefiles"]) == Some(Cloud.Rules(sections))
            || (Find(sections, ["appinfo", "ufs", "savefiles"]).None? && Cloud.Rules(sections) == Empty)
    ensures Cloud.ROOTS
         == {"WindowsHome", "WinMyDocuments", "WinSavedGames", "WinProgramData"}
            + {"WinAppDataLocal", "WinAppDataLocalLow", "WinAppDataRoaming", "SteamCloudDocuments", "gameinstall"}
  {
    assert Cloud.UFS + ["savefiles"] == ["appinfo", "ufs", "savefiles"];
  }

  // Blanks, tabs, line ends and their wide relatives are stripped; what an oslist
  // is made of is not.
  lemma {:induction false} Spaces()
    ensures forall c :: c in [' ', '\t', '\n', '\r', '\U{0B}', '\U{0C}', '\U{85}', '\U{A0}', '\U{2003}', '\U{3000}'] ==>
              PythonText.IsSpace(c)
    ensures forall c :: 'a' <= c <= 'z' || 'A' <= c <= 'Z' || '0' <= c <= '9' || c in {',', '-', '_'} ==>
              !PythonText.IsSpace(c)
  {
  }
}
