// What the path of a save-file rule means when it holds placeholders, and which
// slashes around it count.
module Templates {
  import opened Globs
  import PythonText

  // --- Stripping ------------------------------------------------------------

  // What is stripped are slashes, and none is left at either end.
  lemma {:induction false} StripsExactly(s: string) returns (before: string, after: string)
    ensures s == before + StripSlashes(s) + after
    ensures (forall c :: c in before ==> c == '/') && (forall c :: c in after ==> c == '/')
    ensures StripSlashes(s) != "" ==> StripSlashes(s)[0] != '/' && StripSlashes(s)[|StripSlashes(s)| - 1] != '/'
    decreases |s|
  {
    before, after := "", "";
    if s != "" && s[0] == '/' {
      before, after := StripsExactly(s[1..]);
      before := ['/'] + before;
    } else if s != "" && s[|s| - 1] == '/' {
      before, after := StripsExactly(s[..|s| - 1]);
      after := after + ['/'];
    }
  }

  lemma {:induction false} StripsSpace(s: string) returns (before: string, after: string)
    ensures s == before + PythonText.Strip(s) + after
    ensures (forall c :: c in before ==> PythonText.IsSpace(c)) && (forall c :: c in after ==> PythonText.IsSpace(c))
    ensures var t := PythonText.Strip(s);
            t != "" ==> !PythonText.IsSpace(t[0]) && !PythonText.IsSpace(t[|t| - 1])
    decreases |s|
  {
    hide PythonText.IsSpace;
    before, after := "", "";
    if s != "" && PythonText.IsSpace(s[0]) {
      before, after := StripsSpace(s[1..]);
      before := [s[0]] + before;
    } else if s != "" && PythonText.IsSpace(s[|s| - 1]) {
      before, after := StripsSpace(s[..|s| - 1]);
      after := after + [s[|s| - 1]];
    }
  }

  // --- Placeholders ---------------------------------------------------------

  // A placeholder stands from i to j.
  ghost predicate PlaceholderAt(s: string, i: nat, j: nat) {
    && i + 1 < j < |s| && s[i] == '{' && s[j] == '}'
    && forall k :: i < k < j ==> s[k] !in {'{', '}'}
  }

  lemma {:induction false} BraceFirst(s: string, i: nat)
    requires i <= |s| && '{' !in s[..i] && '}' !in s[..i] && (i < |s| ==> s[i] in {'{', '}'})
    ensures BraceAt(s) == i
  {
    var j := BraceAt(s);
    assert forall k :: 0 <= k < i ==> s[k] == s[..i][k];
    assert forall k :: 0 <= k < j ==> s[k] == s[..j][k];
  }

  lemma {:induction false} LaterPlaceholder(s: string, i: nat, j: nat)
    requires s != ""
    ensures PlaceholderAt(s[1..], i, j) ==> PlaceholderAt(s, i + 1, j + 1)
  {
    if PlaceholderAt(s[1..], i, j) {
      forall k | i + 1 < k < j + 1 ensures s[k] !in {'{', '}'} { assert s[k] == s[1..][k - 1]; }
    }
  }

  // A path without placeholders stays as it is.
  lemma {:induction false} ExpandPlain(s: string)
    requires forall i: nat, j: nat :: !PlaceholderAt(s, i, j)
    ensures ExpandTemplate(s) == s
    decreases |s|
  {
    if s != "" {
      forall i: nat, j: nat ensures !PlaceholderAt(s[1..], i, j) {
        LaterPlaceholder(s, i, j);
      }
      ExpandPlain(s[1..]);
      if s[0] == '{' {
        var i := BraceAt(s[1..]);
        if 0 < i < |s| - 1 && s[1 + i] == '}' {
          forall k | 0 < k < i + 1 ensures s[k] !in {'{', '}'} { assert s[k] == s[1..][..i][k - 1]; }
          assert PlaceholderAt(s, 0, i + 1);
        }
      }
      assert s == [s[0]] + s[1..];
    }
  }

  lemma {:induction false} ExpandHere(name: string, after: string)
    requires name != "" && '{' !in name && '}' !in name
    ensures ExpandTemplate("{" + name + "}" + after) == "*" + ExpandTemplate(after)
  {
    hide BraceAt;
    var s := "{" + name + "}" + after;
    assert s[0] == '{' && s[1..] == name + "}" + after;
    assert s[1..][..|name|] == name;
    BraceFirst(s[1..], |name|);
    assert s[|name| + 2..] == after;
  }

  // The next brace stands where it stood, if there is one before.
  lemma {:induction false} SameBrace(rest: string, more: string)
    requires more != "" && more[0] == '{'
    ensures BraceAt(rest + more) == BraceAt(rest)
  {
    var i := BraceAt(rest);
    assert (rest + more)[..i] == rest[..i];
    BraceFirst(rest + more, i);
  }

  // One step of the expansion.
  lemma {:induction false} ExpandStep(s: string)
    requires s != ""
    ensures var i := BraceAt(s[1..]);
            ExpandTemplate(s)
            == if s[0] == '{' && 0 < i < |s| - 1 && s[1..][i] == '}' then "*" + ExpandTemplate(s[1..][i + 1..])
               else [s[0]] + ExpandTemplate(s[1..])
  {
    hide BraceAt;
    var i := BraceAt(s[1..]);
    if i < |s| - 1 { assert s[1..][i + 1..] == s[i + 2..]; }
  }

  // No placeholder reaches across an opening brace.
  lemma {:induction false} ExpandAcross(before: string, more: string)
    requires more != "" && more[0] == '{'
    ensures ExpandTemplate(before + more) == ExpandTemplate(before) + ExpandTemplate(more)
    decreases |before|
  {
    hide BraceAt, ExpandTemplate;
    if before == "" {
      assert before + more == more;
      assert ExpandTemplate("") == "" by { NothingExpands(); }
    } else {
      var s, rest := before + more, before[1..];
      assert s[0] == before[0] && s[1..] == rest + more;
      SameBrace(rest, more);
      ExpandStep(s);
      ExpandStep(before);
      var i := BraceAt(rest);
      if i < |rest| && rest[i] == '}' && before[0] == '{' && 0 < i {
        assert s[1..][i + 1..] == rest[i + 1..] + more;
        ExpandAcross(rest[i + 1..], more);
      } else {
        ExpandAcross(rest, more);
      }
    }
  }

  lemma {:induction false} NothingExpands()
    ensures ExpandTemplate("") == ""
  {
  }

  // Each placeholder becomes a star, whatever stands around it.
  lemma {:induction false} ExpandOne(before: string, name: string, after: string)
    requires name != "" && '{' !in name && '}' !in name
    ensures ExpandTemplate(before + "{" + name + "}" + after) == ExpandTemplate(before) + "*" + ExpandTemplate(after)
  {
    hide ExpandTemplate;
    var more := "{" + name + "}" + after;
    assert before + "{" + name + "}" + after == before + more;
    ExpandHere(name, after);
    ExpandAcross(before, more);
  }

  // --- What a placeholder matches -------------------------------------------

  ghost predicate Splits(a: string, b: string, s: string) {
    exists k :: 0 <= k <= |s| && Glob(a, s[..k]) && Glob(b, s[k..])
  }

  lemma {:induction false} Prefixes(s: string, k: nat)
    requires 0 < k <= |s|
    ensures s[..k][0] == s[0] && s[..k][1..] == s[1..][..k - 1] && s[k..] == s[1..][k - 1..]
  {
  }

  lemma {:induction false} StarSplits(a: string, b: string, s: string)
    requires a != "" && a[0] == '*'
    ensures Splits(a, b, s) <==> Splits(a[1..], b, s) || (s != "" && s[0] != '/' && Splits(a, b, s[1..]))
  {
    if k :| 0 <= k <= |s| && Glob(a, s[..k]) && Glob(b, s[k..]) {
      if k > 0 { Prefixes(s, k); }
      assert Glob(a[1..], s[..k]) || (k > 0 && s[0] != '/' && Glob(a, s[1..][..k - 1]));
    }
    if s != "" && s[0] != '/' && Splits(a, b, s[1..]) {
      var k :| 0 <= k <= |s[1..]| && Glob(a, s[1..][..k]) && Glob(b, s[1..][k..]);
      Prefixes(s, k + 1);
      assert Glob(a, s[..k + 1]);
    }
  }

  lemma {:induction false} LetterSplits(a: string, b: string, s: string)
    requires a != "" && a[0] != '*' && s != ""
    ensures Splits(a, b, s) <==> (if a[0] == '?' then s[0] != '/' else s[0] == a[0]) && Splits(a[1..], b, s[1..])
  {
    if k :| 0 <= k <= |s| && Glob(a, s[..k]) && Glob(b, s[k..]) {
      Prefixes(s, k);
    }
    if (if a[0] == '?' then s[0] != '/' else s[0] == a[0]) && Splits(a[1..], b, s[1..]) {
      var k :| 0 <= k <= |s[1..]| && Glob(a[1..], s[1..][..k]) && Glob(b, s[1..][k..]);
      Prefixes(s, k + 1);
      assert Glob(a, s[..k + 1]);
    }
  }

  lemma {:induction false} GlobCat(a: string, b: string, s: string)
    ensures Glob(a + b, s) <==> Splits(a, b, s)
    decreases |a| + |s|
  {
    if a == "" {
      assert a + b == b && s[0..] == s;
      assert Glob(b, s) ==> Glob(a, s[..0]) && Glob(b, s[0..]);
    } else {
      assert (a + b)[0] == a[0] && (a + b)[1..] == a[1..] + b;
      if a[0] == '*' {
        GlobCat(a[1..], b, s);
        if s != "" { GlobCat(a, b, s[1..]); }
        StarSplits(a, b, s);
      } else if s != "" {
        GlobCat(a[1..], b, s[1..]);
        LetterSplits(a, b, s);
      }
    }
  }

  // A placeholder stands for any text without a slash, what is before and after
  // it for what they mean alone. With ExpandPlain this says what every path means.
  lemma {:induction false} PlaceholderMeans(before: string, name: string, after: string, s: string)
    requires name != "" && '{' !in name && '}' !in name
    ensures Glob(ExpandTemplate(before + "{" + name + "}" + after), s) <==>
              exists i, j ::
                && 0 <= i <= j <= |s| && Glob(ExpandTemplate(before), s[..i])
                && '/' !in s[i..j] && Glob(ExpandTemplate(after), s[j..])
  {
    var a, b := ExpandTemplate(before), ExpandTemplate(after);
    ExpandOne(before, name, after);
    assert a + "*" + b == a + ("*" + b);
    GlobCat(a, "*" + b, s);
    assert ("*" + b)[1..] == b;
    forall i | 0 <= i <= |s|
      ensures Glob("*" + b, s[i..]) <==> exists j :: i <= j <= |s| && '/' !in s[i..j] && Glob(b, s[j..])
    {
      StarFrom(b, s, i);
    }
    if i, j :| && 0 <= i <= j <= |s| && Glob(a, s[..i]) && '/' !in s[i..j] && Glob(b, s[j..]) {
      assert Glob("*" + b, s[i..]);
    }
  }

  lemma {:induction false} StarFrom(b: string, s: string, i: nat)
    requires i <= |s|
    ensures Glob("*" + b, s[i..]) <==> exists j :: i <= j <= |s| && '/' !in s[i..j] && Glob(b, s[j..])
  {
    GlobStar("*" + b, s[i..]);
    assert ("*" + b)[1..] == b;
    if k :| 0 <= k <= |s[i..]| && '/' !in s[i..][..k] && Glob(b, s[i..][k..]) {
      assert s[i..][..k] == s[i..i + k] && s[i..][k..] == s[i + k..];
    }
    if j :| i <= j <= |s| && '/' !in s[i..j] && Glob(b, s[j..]) {
      assert s[i..][..j - i] == s[i..j] && s[i..][j - i..] == s[j..];
    }
  }
}
