// Python text: strict UTF-8 (RFC 3629, section 4) with the editor's marked
// Latin-1 fallback, and the few `str` operations the tools use.
module Strings {
  import opened Wrappers
  import opened Words

  // --- UTF-8 --------------------------------------------------------------

  predicate Scalar(n: int) {
    0 <= n < 0xD800 || 0xE000 <= n < 0x11_0000
  }

  // A continuation byte holding the low six bits of `n`.
  function Tail(n: nat): Byte {
    (0x80 + n % 0x40) as Byte
  }

  function Utf8Char(c: char): (bs: Bytes)
    ensures 1 <= |bs| <= 4
  {
    var n := c as int;
    if n < 0x80 then [n as Byte]
    else if n < 0x800 then [(0xC0 + n / 0x40) as Byte, Tail(n)]
    else if n < 0x1_0000 then [(0xE0 + n / 0x1000) as Byte, Tail(n / 0x40), Tail(n)]
    else [(0xF0 + n / 0x4_0000) as Byte, Tail(n / 0x1000), Tail(n / 0x40), Tail(n)]
  }

  // str.encode("utf-8")
  function Utf8(s: string): Bytes {
    if s == [] then [] else Utf8Char(s[0]) + Utf8(s[1..])
  }

  predicate Continuation(b: Byte) {
    0x80 <= b < 0xC0
  }

  // The scalar value at the head of `bs` and its width, in shortest form only.
  function Utf8Head(bs: Bytes): (r: Option<(char, nat)>)
    requires bs != []
    ensures r.Some? ==> 1 <= r.value.1 <= |bs|
  {
    var a := bs[0] as int;
    if a < 0x80 then Some((a as char, 1))
    else if a < 0xC0 || |bs| < 2 || !Continuation(bs[1]) then None
    else
      var b := bs[1] as int - 0x80;
      if a < 0xE0 then
        var n := (a - 0xC0) * 0x40 + b;
        if 0x80 <= n then Some((n as char, 2)) else None
      else if |bs| < 3 || !Continuation(bs[2]) then None
      else
        var c := bs[2] as int - 0x80;
        if a < 0xF0 then
          var n := ((a - 0xE0) * 0x40 + b) * 0x40 + c;
          if 0x800 <= n && Scalar(n) then Some((n as char, 3)) else None
        else if |bs| < 4 || !Continuation(bs[3]) then None
        else
          var n := (((a - 0xF0) * 0x40 + b) * 0x40 + c) * 0x40 + (bs[3] as int - 0x80);
          if 0x1_0000 <= n && Scalar(n) then Some((n as char, 4)) else None
  }

  // bytes.decode("utf-8"); None stands for UnicodeDecodeError
  function FromUtf8(bs: Bytes): Option<string> {
    if bs == [] then Some("")
    else match Utf8Head(bs)
      case None => None
      case Some((c, n)) =>
        match FromUtf8(bs[n..])
        case None => None
        case Some(rest) => Some([c] + rest)
  }

  lemma {:induction false} SixBits(n: nat)
    ensures n == n / 0x40 * 0x40 + n % 0x40
    ensures Continuation(Tail(n)) && Tail(n) as int - 0x80 == n % 0x40
  {
  }

  lemma {:induction false} Shift12(n: nat)
    ensures n / 0x40 / 0x40 == n / 0x1000
  {
  }

  lemma {:induction false} Shift18(n: nat)
    ensures n / 0x1000 / 0x40 == n / 0x4_0000
  {
  }

  lemma {:induction false} Utf8HeadOfChar(c: char, rest: Bytes)
    ensures Utf8Head(Utf8Char(c) + rest) == Some((c, |Utf8Char(c)|))
  {
    hide Tail, Continuation;
    var n := c as int;
    var bs := Utf8Char(c) + rest;
    SixBits(n); SixBits(n / 0x40); SixBits(n / 0x1000); Shift12(n); Shift18(n);
    if n < 0x800 {
      assert Utf8Head(bs) == Some((c, |Utf8Char(c)|));
    } else if n < 0x1_0000 {
      assert bs[0] as int == 0xE0 + n / 0x1000 && bs[1] == Tail(n / 0x40) && bs[2] == Tail(n);
      assert Utf8Head(bs) == Some((c, 3));
    } else {
      assert bs[0] as int == 0xF0 + n / 0x4_0000;
      assert bs[1] == Tail(n / 0x1000) && bs[2] == Tail(n / 0x40) && bs[3] == Tail(n);
      assert Utf8Head(bs) == Some((c, 4));
    }
  }

  lemma {:induction false} TailOf(n: nat, high: nat, b: Byte)
    requires Continuation(b) && n == high * 0x40 + (b as int - 0x80)
    ensures n / 0x40 == high && Tail(n) == b
  {
  }

  lemma {:induction false} CharOfUtf8Head(bs: Bytes)
    requires bs != [] && Utf8Head(bs).Some?
    ensures Utf8Char(Utf8Head(bs).value.0) == bs[..Utf8Head(bs).value.1]
  {
    hide Tail;
    var a := bs[0] as int;
    var (c, k) := Utf8Head(bs).value;
    var n := c as int;
    if k == 1 {
      assert Utf8Char(c) == bs[..1];
    } else if k == 2 {
      TailOf(n, a - 0xC0, bs[1]);
      assert Utf8Char(c) == bs[..2];
    } else if k == 3 {
      var t: nat := (a - 0xE0) * 0x40 + (bs[1] as int - 0x80);
      TailOf(t, a - 0xE0, bs[1]);
      TailOf(n, t, bs[2]);
      Shift12(n);
      assert Utf8Char(c) == bs[..3];
    } else {
      var t: nat := (a - 0xF0) * 0x40 + (bs[1] as int - 0x80);
      var u: nat := t * 0x40 + (bs[2] as int - 0x80);
      TailOf(t, a - 0xF0, bs[1]);
      TailOf(u, t, bs[2]);
      TailOf(n, u, bs[3]);
      Shift12(n);
      Shift18(n);
      assert Utf8Char(c) == bs[..4];
    }
  }

  lemma {:induction false} FromUtf8OfUtf8(s: string)
    ensures FromUtf8(Utf8(s)) == Some(s)
  {
    hide Utf8Char, Utf8Head;
    if s != [] {
      Utf8HeadOfChar(s[0], Utf8(s[1..]));
      assert Utf8(s) == Utf8Char(s[0]) + Utf8(s[1..]);
      assert Utf8(s)[|Utf8Char(s[0])|..] == Utf8(s[1..]);
      FromUtf8OfUtf8(s[1..]);
      assert s == [s[0]] + s[1..];
    }
  }

  lemma {:induction false} Utf8OfFromUtf8(bs: Bytes)
    requires FromUtf8(bs).Some?
    ensures Utf8(FromUtf8(bs).value) == bs
  {
    hide Utf8Char, Utf8Head;
    if bs != [] {
      var (c, n) := Utf8Head(bs).value;
      CharOfUtf8Head(bs);
      Utf8OfFromUtf8(bs[n..]);
      assert FromUtf8(bs).value[1..] == FromUtf8(bs[n..]).value;
    }
  }

  lemma {:induction false} Utf8Length(s: string)
    ensures |s| <= |Utf8(s)|
  {
    hide Utf8Char;
    if s != [] {
      Utf8Length(s[1..]);
    }
  }

  // --- Latin-1 ------------------------------------------------------------

  function FromLatin1(bs: Bytes): (s: string)
    ensures |s| == |bs|
  {
    seq(|bs|, i requires 0 <= i < |bs| => bs[i] as int as char)
  }

  predicate IsLatin1(s: string) {
    forall i :: 0 <= i < |s| ==> s[i] as int < 0x100
  }

  function Latin1(s: string): (bs: Bytes)
    requires IsLatin1(s)
    ensures |bs| == |s|
  {
    seq(|s|, i requires 0 <= i < |s| => s[i] as int as Byte)
  }

  // --- The editor's string encoding ---------------------------------------

  const MARK := 6 as char

  predicate Marked(s: string) {
    s != [] && s[|s| - 1] == MARK
  }

  // AppInfo._decode
  function Decode(raw: Bytes): string {
    match FromUtf8(raw)
    case Some(s) => s
    case None => FromLatin1(raw) + [MARK]
  }

  // AppInfo._encode_string without the terminating NUL; None stands for
  // UnicodeEncodeError.
  function Encode(s: string): Option<Bytes> {
    if Marked(s) then
      var body := s[..|s| - 1];
      if IsLatin1(body) then Some(Latin1(body)) else None
    else
      Some(Utf8(s))
  }

  predicate ValidUtf8(raw: Bytes) {
    FromUtf8(raw).Some?
  }

  // The texts the format can hold: no NUL, and the marker only in the fallback
  // form that `Decode` produces.
  predicate Storable(s: string) {
    && 0 as char !in s
    && (Marked(s) ==>
          var body := s[..|s| - 1];
          IsLatin1(body) && !ValidUtf8(Latin1(body)))
  }

  lemma {:induction false} Utf8HasNul(s: string)
    ensures 0 in Utf8(s) <==> 0 as char in s
  {
    if s != [] {
      Utf8HasNul(s[1..]);
      assert s == [s[0]] + s[1..];
      assert 0 in Utf8Char(s[0]) <==> s[0] == 0 as char;
    }
  }

  lemma {:induction false} Latin1OfFromLatin1(raw: Bytes)
    ensures IsLatin1(FromLatin1(raw)) && Latin1(FromLatin1(raw)) == raw
  {
  }

  lemma {:induction false} FromLatin1OfLatin1(s: string)
    requires IsLatin1(s)
    ensures FromLatin1(Latin1(s)) == s
  {
  }

  // Writing a text and reading it back is the identity exactly on storable texts.
  lemma {:induction false} DecodeEncode(s: string)
    ensures Storable(s) <==>
            Encode(s).Some? && 0 !in Encode(s).value && Decode(Encode(s).value) == s
  {
    if Marked(s) {
      var body := s[..|s| - 1];
      if IsLatin1(body) {
        var raw := Latin1(body);
        FromLatin1OfLatin1(body);
        assert s == body + [MARK];
        assert 0 in raw <==> 0 as char in body by {
          if 0 in raw { var i :| 0 <= i < |raw| && raw[i] == 0; assert body[i] == 0 as char; }
          if 0 as char in body { var i :| 0 <= i < |body| && body[i] == 0 as char; assert raw[i] == 0; }
        }
        if ValidUtf8(raw) {
          Utf8OfFromUtf8(raw);
          Utf8Length(FromUtf8(raw).value);
          assert |Decode(raw)| < |s|;
        }
      }
    } else {
      FromUtf8OfUtf8(s);
      Utf8HasNul(s);
    }
  }

  // Reading bytes and writing them back is the identity exactly when they are
  // not valid UTF-8 that happens to end in the marker.
  lemma {:induction false} EncodeDecode(raw: Bytes)
    ensures Encode(Decode(raw)) == Some(raw) <==> !(ValidUtf8(raw) && raw != [] && raw[|raw| - 1] == 6)
  {
    if ValidUtf8(raw) {
      Utf8OfFromUtf8(raw);
      LastByte(Decode(raw));
      Utf8Length(Decode(raw));
    } else {
      var s := Decode(raw);
      assert s[..|s| - 1] == FromLatin1(raw);
      Latin1OfFromLatin1(raw);
    }
  }

  // One byte that is not written back.
  lemma {:induction false} MarkLost()
    ensures Encode(Decode([6])) == Some([])
  {
    assert FromUtf8([]) == Some([]);
    assert Utf8Head([6]) == Some((6 as char, 1)) && [6][1..] == [];
    assert Decode([6]) == [6 as char];
    assert Decode([6])[..0] == [];
  }

  lemma {:induction false} LastByte(s: string)
    ensures s == [] <==> Utf8(s) == []
    ensures s != [] ==> (Utf8(s)[|Utf8(s)| - 1] == 6 <==> s[|s| - 1] == MARK)
  {
    if |s| > 1 {
      LastByte(s[1..]);
    } else if |s| == 1 {
      assert Utf8(s) == Utf8Char(s[0]);
    }
  }
}
