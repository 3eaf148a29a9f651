// The glob of a save-file rule: the regular expression it is translated to, and
// what that expression means segment by segment.
module Globs {
  import PythonText

  // The regular expressions the translation produces, and full matches of them.
  // A dot matches anything but a newline.
  datatype Regex = Nothing | Lit(c: char) | NonSlash | Dot | Cat(a: Regex, b: Regex) | Many(r: Regex) | Maybe(r: Regex)

  predicate In(r: Regex, s: string)
    decreases r, |s|
  {
    match r
    case Nothing => s == ""
    case Lit(c) => s == [c]
    case NonSlash => |s| == 1 && s[0] != '/'
    case Dot => |s| == 1 && s[0] != '\n'
    case Cat(a, b) => exists k :: 0 <= k <= |s| && In(a, s[..k]) && In(b, s[k..])
    case Many(a) => s == "" || exists k :: 0 < k <= |s| && In(a, s[..k]) && In(r, s[k..])
    case Maybe(a) => s == "" || In(a, s)
  }

  function Atom(c: char): Regex {
    if c == '*' then Many(NonSlash) else if c == '?' then NonSlash else Lit(c)
  }

  // _glob_regex
  function Translate(value: string): Regex {
    if value == "" then Nothing else Cat(Atom(value[0]), Translate(value[1..]))
  }

  // The expression the parent directory must match.
  function ParentRegex(path: string, recursive: bool): Regex {
    if !recursive then Translate(path)
    else if path == "" then Many(Dot)
    else Cat(Translate(path), Maybe(Cat(Lit('/'), Many(Dot))))
  }

  // re.sub(r"\{[^{}]+\}", "*", s): each innermost placeholder becomes a star
  function BraceAt(s: string): (i: nat)
    ensures i <= |s| && '{' !in s[..i] && '}' !in s[..i]
    ensures i < |s| ==> s[i] in {'{', '}'}
  {
    if s == "" || s[0] in {'{', '}'} then 0
    else
      assert s[..BraceAt(s[1..]) + 1] == [s[0]] + s[1..][..BraceAt(s[1..])];
      BraceAt(s[1..]) + 1
  }

  function ExpandTemplate(s: string): string
    decreases |s|
  {
    if s == "" then ""
    else if s[0] == '{' then
      var i := BraceAt(s[1..]);
      if 0 < i < |s| - 1 && s[1 + i] == '}' then "*" + ExpandTemplate(s[i + 2..])
      else "{" + ExpandTemplate(s[1..])
    else [s[0]] + ExpandTemplate(s[1..])
  }

  function StripSlashes(s: string): string
    decreases |s|
  {
    if s != "" && s[0] == '/' then StripSlashes(s[1..])
    else if s != "" && s[|s| - 1] == '/' then StripSlashes(s[..|s| - 1])
    else s
  }

  datatype Rule = Rule(path: string, pattern: string, recursive: bool)

  // remote_name.rpartition("/")
  function Parent(name: string): string {
    var parts := PythonText.Split(name, '/');
    if |parts| == 1 then "" else PythonText.Join(parts[..|parts| - 1], '/')
  }

  function FileName(name: string): string {
    var parts := PythonText.Split(name, '/');
    parts[|parts| - 1]
  }

  // _savefile_matches; `fnmatch` is the library's match of one file name.
  predicate SavefileMatches(name: string, rule: Rule, fnmatch: (string, string) -> bool) {
    && In(ParentRegex(ExpandTemplate(StripSlashes(rule.path)), rule.recursive), Parent(name))
    && fnmatch(FileName(name), rule.pattern)
  }

  // --- What the translation means -------------------------------------------

  // A star stands for any text without a slash, a question mark for one
  // character that is not a slash, and anything else for itself.
  predicate Glob(p: string, s: string)
    decreases |p| + |s|
  {
    if p == "" then s == ""
    else if p[0] == '*' then Glob(p[1..], s) || (s != "" && s[0] != '/' && Glob(p, s[1..]))
    else s != "" && (if p[0] == '?' then s[0] != '/' else s[0] == p[0]) && Glob(p[1..], s[1..])
  }

  lemma {:induction false} ManyOf(r: Regex, bad: char, s: string)
    requires (r == NonSlash && bad == '/') || (r == Dot && bad == '\n')
    ensures In(Many(r), s) <==> bad !in s
    decreases |s|
  {
    if s != "" {
      assert s == s[..1] + s[1..] && s[..1] == [s[0]];
      ManyOf(r, bad, s[1..]);
      if In(Many(r), s) {
        var k :| 0 < k <= |s| && In(r, s[..k]) && In(Many(r), s[k..]);
        assert k == 1 && s[..k][0] == s[0];
      }
      if bad !in s {
        assert In(r, s[..1]) && In(Many(r), s[1..]);
      }
    }
  }

  lemma {:induction false} GlobStar(p: string, s: string)
    requires p != "" && p[0] == '*'
    ensures Glob(p, s) <==> exists k :: 0 <= k <= |s| && '/' !in s[..k] && Glob(p[1..], s[k..])
    decreases |s|
  {
    if s != "" {
      GlobStar(p, s[1..]);
    }
    if Glob(p, s) {
      if Glob(p[1..], s) {
        assert s[0..] == s && '/' !in s[..0];
      } else {
        var k :| 0 <= k <= |s[1..]| && '/' !in s[1..][..k] && Glob(p[1..], s[1..][k..]);
        assert s[..k + 1] == [s[0]] + s[1..][..k] && s[k + 1..] == s[1..][k..];
      }
    }
    if k :| 0 <= k <= |s| && '/' !in s[..k] && Glob(p[1..], s[k..]) {
      if k == 0 {
        assert s[0..] == s;
      } else {
        assert s[..k][0] == s[0] && s[1..][k - 1..] == s[k..];
        forall c | c in s[1..][..k - 1] ensures c in s[..k] {
          var i :| 0 <= i < k - 1 && s[1..][..k - 1][i] == c;
          assert s[..k][i + 1] == c;
        }
      }
    }
  }

  // The translation has the glob's meaning.
  lemma {:induction false} TranslateMeans(p: string, s: string)
    ensures In(Translate(p), s) <==> Glob(p, s)
    decreases |p|
  {
    if p != "" {
      forall k | 0 <= k <= |s| ensures In(Translate(p[1..]), s[k..]) <==> Glob(p[1..], s[k..]) {
        TranslateMeans(p[1..], s[k..]);
      }
      if p[0] == '*' {
        GlobStar(p, s);
        forall k | 0 <= k <= |s| ensures In(Many(NonSlash), s[..k]) <==>
            '/' !in s[..k] { ManyOf(NonSlash, '/', s[..k]); }
      } else {
        if In(Translate(p), s) {
          var k :| 0 <= k <= |s| && In(Atom(p[0]), s[..k]) && In(Translate(p[1..]), s[k..]);
          assert |s[..k]| == 1 && s[..k][0] == s[0];
        }
        if Glob(p, s) {
          assert s[..1] == [s[0]] && In(Atom(p[0]), s[..1]) && In(Translate(p[1..]), s[1..]);
        }
      }
    }
  }

  // --- Segments -------------------------------------------------------------

  lemma {:induction false} GlobNoSlash(a: string, s: string)
    requires '/' !in a && Glob(a, s)
    ensures '/' !in s
    decreases |a| + |s|
  {
    if a != "" {
      assert a == [a[0]] + a[1..];
      if s != "" { assert s == [s[0]] + s[1..]; }
      if a[0] == '*' {
        if Glob(a[1..], s) { GlobNoSlash(a[1..], s); } else { GlobNoSlash(a, s[1..]); }
      } else {
        GlobNoSlash(a[1..], s[1..]);
      }
    }
  }

  lemma {:induction false} GlobNeedsSlash(a: string, b: string, s: string)
    requires '/' !in a && '/' !in s
    ensures !Glob(a + ['/'] + b, s)
    decreases |a| + |s|
  {
    var p := a + ['/'] + b;
    if s != "" { assert s == [s[0]] + s[1..]; }
    if a == "" {
      assert p[0] == '/';
    } else {
      assert a == [a[0]] + a[1..] && p[0] == a[0] && p[1..] == a[1..] + ['/'] + b;
      if a[0] == '*' {
        GlobNeedsSlash(a[1..], b, s);
        if s != "" { GlobNeedsSlash(a, b, s[1..]); }
      } else if s != "" {
        GlobNeedsSlash(a[1..], b, s[1..]);
      }
    }
  }

  lemma {:induction false} GlobSlash(a: string, b: string, x: string, y: string)
    requires '/' !in a && '/' !in x
    ensures Glob(a + ['/'] + b, x + ['/'] + y) <==> Glob(a, x) && Glob(b, y)
    decreases |a| + |x|
  {
    var p, s := a + ['/'] + b, x + ['/'] + y;
    if x != "" { assert x == [x[0]] + x[1..] && s[0] == x[0] && s[1..] == x[1..] + ['/'] + y; }
    if a == "" {
      assert p[0] == '/' && p[1..] == b;
      if x == "" { assert s[0] == '/' && s[1..] == y; }
    } else {
      assert a == [a[0]] + a[1..] && p[0] == a[0] && p[1..] == a[1..] + ['/'] + b;
      if a[0] == '*' {
        GlobSlash(a[1..], b, x, y);
        if x != "" { GlobSlash(a, b, x[1..], y); } else { assert s[0] == '/'; }
      } else if x != "" {
        GlobSlash(a[1..], b, x[1..], y);
      } else {
        assert s[0] == '/';
      }
    }
  }

  // s up to its first slash and after it
  lemma {:induction false} FirstSlash(s: string) returns (x: string, y: string)
    requires '/' in s
    ensures s == x + ['/'] + y && '/' !in x
  {
    if s[0] == '/' {
      x, y := "", s[1..];
    } else {
      assert s == [s[0]] + s[1..];
      var x1, y1 := FirstSlash(s[1..]);
      x, y := [s[0]] + x1, y1;
    }
  }

  function Segments(s: string): seq<string> {
    PythonText.Split(s, '/')
  }

  lemma {:induction false} SegmentsOne(x: string)
    requires '/' !in x
    ensures Segments(x) == [x]
  {
    if x != "" {
      assert x == [x[0]] + x[1..];
      SegmentsOne(x[1..]);
    }
  }

  lemma {:induction false} SegmentsCons(x: string, y: string)
    requires '/' !in x
    ensures Segments(x + ['/'] + y) == [x] + Segments(y)
  {
    var s := x + ['/'] + y;
    if x == "" {
      assert s[0] == '/' && s[1..] == y;
    } else {
      assert x == [x[0]] + x[1..] && s[0] == x[0] && s[1..] == x[1..] + ['/'] + y;
      SegmentsCons(x[1..], y);
      assert ([x[1..]] + Segments(y))[1..] == Segments(y);
    }
  }

  ghost predicate SegmentsMatch(p: seq<string>, s: seq<string>) {
    |p| == |s| && forall i :: 0 <= i < |p| ==> Glob(p[i], s[i])
  }

  lemma {:induction false} SegmentsMatchCons(a: string, p: seq<string>, x: string, s: seq<string>)
    ensures SegmentsMatch([a] + p, [x] + s) <==> Glob(a, x) && SegmentsMatch(p, s)
  {
    if SegmentsMatch([a] + p, [x] + s) {
      assert ([a] + p)[0] == a && ([x] + s)[0] == x;
      forall i | 0 <= i < |p| ensures Glob(p[i], s[i]) { assert ([a] + p)[i + 1] == p[i] && ([x] + s)[i + 1] == s[i]; }
    }
  }

  lemma {:induction false} GlobSegments(p: string, s: string)
    ensures Glob(p, s) <==> SegmentsMatch(Segments(p), Segments(s))
    decreases |p|
  {
    if '/' in p {
      var a, b := FirstSlash(p);
      SegmentsCons(a, b);
      if '/' in s {
        var x, y := FirstSlash(s);
        SegmentsCons(x, y);
        GlobSlash(a, b, x, y);
        GlobSegments(b, y);
        SegmentsMatchCons(a, Segments(b), x, Segments(y));
      } else {
        SegmentsOne(s);
        GlobNeedsSlash(a, b, s);
        assert |Segments(p)| >= 2;
      }
    } else {
      SegmentsOne(p);
      if '/' in s {
        var x, y := FirstSlash(s);
        SegmentsCons(x, y);
        if Glob(p, s) { GlobNoSlash(p, s); }
        assert |Segments(s)| >= 2;
      } else {
        SegmentsOne(s);
        assert Segments(p)[0] == p && Segments(s)[0] == s;
      }
    }
  }

  // A rule that is not recursive matches exactly the parents with as many
  // segments as its path, segment by segment.
  lemma {:induction false} PlainRule(path: string, parent: string)
    ensures In(ParentRegex(path, false), parent) <==> SegmentsMatch(Segments(path), Segments(parent))
  {
    TranslateMeans(path, parent);
    GlobSegments(path, parent);
  }

  // --- Recursive rules ------------------------------------------------------

  // The length of the first n segments with the slashes between them.
  function Leading(s: string, n: nat): (k: nat)
    requires 1 <= n <= |Segments(s)|
    ensures k <= |s|
    decreases |s|
  {
    if s == "" then 0
    else if s[0] == '/' then (if n == 1 then 0 else 1 + Leading(s[1..], n - 1))
    else 1 + Leading(s[1..], n)
  }

  lemma {:induction false} SegmentsStep(c: char, t: string)
    ensures Segments([c] + t) == if c == '/' then [""] + Segments(t) else [[c] + Segments(t)[0]] + Segments(t)[1..]
  {
    assert ([c] + t)[1..] == t;
  }

  lemma {:induction false} LeadingCut(s: string, n: nat)
    requires 1 <= n <= |Segments(s)|
    ensures var k := Leading(s, n);
            && (k == |s| || s[k] == '/')
            && Segments(s[..k]) == Segments(s)[..n]
    decreases |s|
  {
    if s == "" {
      assert Segments("")[..n] == Segments("");
    } else {
      var c, t := s[0], s[1..];
      assert s == [c] + t;
      SegmentsStep(c, t);
      if c == '/' && n == 1 {
        assert s[..0] == "" && Segments(s)[..1] == [""];
      } else {
        var m := if c == '/' then n - 1 else n;
        var k := Leading(t, m);
        LeadingCut(t, m);
        assert s[..1 + k] == [c] + t[..k];
        SegmentsStep(c, t[..k]);
        StepCut(c, Segments(t), m);
      }
    }
  }

  lemma {:induction false} StepCut(c: char, parts: seq<string>, m: nat)
    requires 1 <= m <= |parts|
    ensures ([""] + parts)[..m + 1] == [""] + parts[..m]
    ensures ([[c] + parts[0]] + parts[1..])[..m] == [[c] + parts[..m][0]] + parts[..m][1..]
  {
  }

  // A prefix that ends at a slash or at the end is a number of whole segments.
  lemma {:induction false} WholeSegments(s: string, k: nat)
    requires k <= |s| && (k == |s| || s[k] == '/')
    ensures |Segments(s[..k])| <= |Segments(s)| && k == Leading(s, |Segments(s[..k])|)
    decreases |s|
  {
    if s != "" {
      if k == 0 {
        assert s[..0] == "";
      } else {
        assert s[..k][0] == s[0] && s[..k][1..] == s[1..][..k - 1];
        WholeSegments(s[1..], k - 1);
      }
    }
  }

  ghost predicate LeadingMatch(p: string, s: string) {
    var n := |Segments(p)|;
    n <= |Segments(s)| && SegmentsMatch(Segments(p), Segments(s)[..n])
  }

  lemma {:induction false} TailMeans(r: string)
    ensures In(Maybe(Cat(Lit('/'), Many(Dot))), r) <==> r == "" || (r[0] == '/' && '\n' !in r[1..])
  {
    if r != "" {
      assert r[..1] == [r[0]];
      ManyOf(Dot, '\n', r[1..]);
      if In(Cat(Lit('/'), Many(Dot)), r) {
        var k :| 0 <= k <= |r| && In(Lit('/'), r[..k]) && In(Many(Dot), r[k..]);
        assert |r[..k]| == 1 && r[..k][0] == r[0];
      }
      if r[0] == '/' && '\n' !in r[1..] {
        assert In(Lit('/'), r[..1]) && In(Many(Dot), r[1..]);
      }
    }
  }

  // A recursive rule with a path matches exactly the parents whose leading
  // segments match it and that hold no newline after them.
  lemma {:induction false} RecursiveRule(path: string, parent: string)
    requires path != ""
    ensures In(ParentRegex(path, true), parent) <==>
              LeadingMatch(path, parent) && '\n' !in parent[Leading(parent, |Segments(path)|)..]
  {
    var n := |Segments(path)|;
    var tail := Maybe(Cat(Lit('/'), Many(Dot)));
    if In(ParentRegex(path, true), parent) {
      var k :| 0 <= k <= |parent| && In(Translate(path), parent[..k]) && In(tail, parent[k..]);
      TailMeans(parent[k..]);
      TranslateMeans(path, parent[..k]);
      GlobSegments(path, parent[..k]);
      WholeSegments(parent, k);
      LeadingCut(parent, n);
      NoNewline(parent[k..]);
    }
    if LeadingMatch(path, parent) && '\n' !in parent[Leading(parent, n)..] {
      var k := Leading(parent, n);
      LeadingCut(parent, n);
      GlobSegments(path, parent[..k]);
      TranslateMeans(path, parent[..k]);
      TailMeans(parent[k..]);
      NoNewline(parent[k..]);
      assert In(Translate(path), parent[..k]) && In(tail, parent[k..]);
    }
  }

  lemma {:induction false} NoNewline(r: string)
    ensures (r == "" || (r[0] == '/' && '\n' !in r[1..])) <==> (r == "" || r[0] == '/') && '\n' !in r
  {
    if r != "" { assert r == [r[0]] + r[1..]; }
  }

  // For the path "a", a parent of that name followed by a newline is missed,
  // though its leading segment matches.
  lemma {:induction false} NewlineMissed()
    ensures var parent := "a/" + ['\n'];
            LeadingMatch("a", parent) && !In(ParentRegex("a", true), parent)
  {
    var parent := "a/" + ['\n'];
    SegmentsOne("a");
    SegmentsOne(['\n']);
    SegmentsCons("a", ['\n']);
    assert parent == "a" + ['/'] + ['\n'];
    assert Segments(parent) == ["a", ['\n']] && Segments(parent)[..1] == ["a"];
    GlobSegments("a", "a");
    assert Glob("a", "a");
    RecursiveRule("a", parent);
    assert Leading(parent, 1) == 1 && parent[1..] == ['/', '\n'] && parent[1..][1] == '\n';
  }

  // So for names without newlines the leading segments decide.
  lemma {:induction false} RecursiveRulePlainNames(path: string, parent: string)
    requires path != "" && '\n' !in parent
    ensures In(ParentRegex(path, true), parent) <==> LeadingMatch(path, parent)
  {
    RecursiveRule(path, parent);
  }

  // A recursive rule without a path matches every name without a newline.
  lemma {:induction false} RecursiveRoot(parent: string)
    ensures In(ParentRegex("", true), parent) <==> '\n' !in parent
  {
    ManyOf(Dot, '\n', parent);
  }

  // A whole rule: the directory by segments, the file name by the library.
  lemma {:induction false} RuleMeans(name: string, rule: Rule, fnmatch: (string, string) -> bool)
    requires '\n' !in name
    ensures var path, parent := ExpandTemplate(StripSlashes(rule.path)), Parent(name);
            SavefileMatches(name, rule, fnmatch) <==>
              && fnmatch(FileName(name), rule.pattern)
              && (if !rule.recursive then SegmentsMatch(Segments(path), Segments(parent))
                  else path == "" || LeadingMatch(path, parent))
  {
    var path, parent := ExpandTemplate(StripSlashes(rule.path)), Parent(name);
    ParentOf(name);
    assert forall c :: c in parent ==> c in parent + ['/'] + FileName(name);
    if !rule.recursive {
      PlainRule(path, parent);
    } else if path == "" {
      RecursiveRoot(parent);
    } else {
      RecursiveRulePlainNames(path, parent);
    }
  }

  // The parent and the file name are the whole name.
  lemma {:induction false} ParentOf(name: string)
    ensures '/' in name ==> Parent(name) + ['/'] + FileName(name) == name
    ensures '/' !in name ==> Parent(name) == "" && FileName(name) == name
    ensures '/' !in FileName(name)
  {
    var parts := Segments(name);
    PythonText.JoinSplit(name, '/');
    if '/' in name {
      var x, y := FirstSlash(name);
      SegmentsCons(x, y);
      JoinLast(parts);
    } else {
      SegmentsOne(name);
    }
  }

  lemma {:induction false} JoinLast(parts: seq<string>)
    requires |parts| >= 2
    ensures PythonText.Join(parts, '/') == PythonText.Join(parts[..|parts| - 1], '/') + ['/'] + parts[|parts| - 1]
  {
    var front := parts[..|parts| - 1];
    if |parts| > 2 {
      JoinLast(parts[1..]);
      assert parts[1..][..|parts| - 2] == front[1..];
    } else {
      assert PythonText.Join(parts[1..], '/') == parts[1];
    }
  }
}
