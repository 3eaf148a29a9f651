// Which override a Cloud install takes for a root, what it writes there, and
// when it succeeds, in terms of the fields of the app's sections.
module Overriding {
  import opened Wrappers
  import opened Vdf
  import opened Cloud
  import opened CloudUndo
  import PythonText

  // --- The override of a root -----------------------------------------------

  // An override of this root on this platform; a missing comparison means "=".
  ghost predicate For(t: Tree, root: string, platform: string) {
    && t.Branch?
    && "root" in t.children && t.children["root"] == Leaf(root)
    && "os" in t.children && t.children["os"] == Leaf(platform)
    && ("oscompare" in t.children ==> t.children["oscompare"] == Leaf("="))
  }

  lemma {:induction false} ForExactly(item: Value, root: string, platform: string)
    ensures For(AbsValue(item), root, platform) <==>
              && item.Sub?
              && Get(item.dict, "root") == Some(Text(root))
              && Get(item.dict, "os") == Some(Text(platform))
              && Get(item.dict, "oscompare") in {None, Some(Text("="))}
  {
    if item.Sub? {
      AbsGet(item.dict, "root");
      AbsGet(item.dict, "os");
      AbsGet(item.dict, "oscompare");
    }
  }

  // The first override of a root, in the order of the table.
  ghost predicate First(overrides: Dict, root: string, platform: string, key: string) {
    exists before, item, after ::
      && overrides == Append(before, Entry(key, item, after)) && For(AbsValue(item), root, platform)
      && forall k :: Has(before, k) ==> !For(AbsValue(Get(before, k).value), root, platform)
  }

  lemma {:induction false} FirstExactly(overrides: Dict, root: string, platform: string)
    requires Proper(overrides)
    ensures match ExistingKey(overrides, root, platform)
            case None =>
              forall k :: Has(overrides, k) ==> !For(AbsValue(Get(overrides, k).value), root, platform)
            case Some(key) =>
              && First(overrides, root, platform, key) && Has(overrides, key)
              && For(AbsValue(Get(overrides, key).value), root, platform)
    decreases overrides
  {
    hide For;
    match overrides
    case Empty =>
    case Entry(key, item, rest) =>
      ForExactly(item, root, platform);
      FirstExactly(rest, root, platform);
      if For(AbsValue(item), root, platform) {
        assert overrides == Append(Empty, Entry(key, item, rest));
      } else if ExistingKey(rest, root, platform).Some? {
        FirstCons(overrides, root, platform, ExistingKey(rest, root, platform).value);
      }
  }

  lemma {:induction false} FirstCons(overrides: Dict, root: string, platform: string, key: string)
    requires overrides.Entry? && First(overrides.rest, root, platform, key)
    requires !For(AbsValue(overrides.value), root, platform)
    ensures First(overrides, root, platform, key)
  {
    hide For;
    var before, item, after :|
      && overrides.rest == Append(before, Entry(key, item, after)) && For(AbsValue(item), root, platform)
      && forall k :: Has(before, k) ==> !For(AbsValue(Get(before, k).value), root, platform);
    var before' := Entry(overrides.key, overrides.value, before);
    assert overrides == Append(before', Entry(key, item, after));
    forall k | Has(before', k) ensures !For(AbsValue(Get(before', k).value), root, platform) {
      assert k != overrides.key ==> Has(before, k) && Get(before', k) == Get(before, k);
    }
  }

  lemma {:induction false} FirstIs(overrides: Dict, root: string, platform: string, key: string)
    requires Proper(overrides) && First(overrides, root, platform, key)
    ensures ExistingKey(overrides, root, platform) == Some(key)
  {
    hide For;
    var before, item, after :|
      && overrides == Append(before, Entry(key, item, after)) && For(AbsValue(item), root, platform)
      && forall k :: Has(before, k) ==> !For(AbsValue(Get(before, k).value), root, platform);
    FirstAfter(before, key, item, after, root, platform);
  }

  lemma {:induction false} FirstAfter(
    before: Dict, key: string, item: Value, after: Dict, root: string, platform: string)
    requires Proper(Append(before, Entry(key, item, after))) && For(AbsValue(item), root, platform)
    requires forall k :: Has(before, k) ==> !For(AbsValue(Get(before, k).value), root, platform)
    ensures ExistingKey(Append(before, Entry(key, item, after)), root, platform) == Some(key)
    decreases before
  {
    hide For;
    match before
    case Empty => ForExactly(item, root, platform);
    case Entry(k, v, rest) =>
      assert Has(before, k);
      ForExactly(v, root, platform);
      forall other | Has(rest, other) ensures !For(AbsValue(Get(rest, other).value), root, platform) {
        AppendHas(rest, Entry(key, item, after), other);
        assert Has(before, other);
      }
      FirstAfter(rest, key, item, after, root, platform);
  }

  lemma {:induction false} AppendHas(a: Dict, b: Dict, key: string)
    requires Has(a, key)
    ensures Has(Append(a, b), key)
  {
    if a.key != key {
      AppendHas(a.rest, b, key);
    }
  }

  // --- What is written ------------------------------------------------------

  lemma {:induction false} GeneratedExactly(root: string, platform: string, addpath: string)
    ensures AbsValue(Generated(root, platform, addpath))
         == Branch(map["addpath" := Leaf(addpath)]["useinstead" := Leaf("MacAppSupport")]["oscompare" := Leaf("=")]
                      ["os" := Leaf(platform)]["root" := Leaf(root)])
  {
    var d4 := Entry("addpath", Text(addpath), Empty);
    var d3 := Entry("useinstead", Text("MacAppSupport"), d4);
    var d2 := Entry("oscompare", Text("="), d3);
    var d1 := Entry("os", Text(platform), d2);
    TextEntry("addpath", addpath, Empty);
    TextEntry("useinstead", "MacAppSupport", d4);
    TextEntry("oscompare", "=", d3);
    TextEntry("os", platform, d2);
    TextEntry("root", root, d1);
    assert Abs(Empty) == map[];
  }

  lemma {:induction false} TextEntry(key: string, text: string, rest: Dict)
    ensures Abs(Entry(key, Text(text), rest)) == Abs(rest)[key := Leaf(text)]
  {
  }

  // An override for another root does not change which one is first for this.
  lemma {:induction false} OtherRoot(
    overrides: Dict, key: string, item: Value, root: string, platform: string)
    requires Has(overrides, key) ==> !For(AbsValue(Get(overrides, key).value), root, platform)
    requires !For(AbsValue(item), root, platform)
    ensures ExistingKey(Put(overrides, key, item), root, platform) == ExistingKey(overrides, root, platform)
    decreases overrides
  {
    hide For;
    ForExactly(item, root, platform);
    if overrides.Entry? {
      ForExactly(overrides.value, root, platform);
      if overrides.key != key {
        OtherRoot(overrides.rest, key, item, root, platform);
      }
    }
  }

  lemma {:induction false} GeneratedRoot(root: string, platform: string, addpath: string, other: string)
    requires other != root
    ensures !For(AbsValue(Generated(root, platform, addpath)), other, platform)
  {
    GeneratedExactly(root, platform, addpath);
  }

  lemma {:induction false} OneRoot(t: Tree, root: string, other: string, platform: string)
    requires For(t, root, platform) && other != root
    ensures !For(t, other, platform)
  {
  }

  // One turn of the install changes no other root's first override.
  lemma {:induction false} TurnKeepsOthers(
    env: Env, addpath: string, root: string, overrides: Dict, links: Links, other: string)
    requires Proper(overrides) && InstallOne(env, addpath, root, overrides, links).Ok? && other != root
    ensures var overrides' := InstallOne(env, addpath, root, overrides, links).value.0;
            ExistingKey(overrides', other, env.platform) == ExistingKey(overrides, other, env.platform)
  {
    hide For, Generated, NextKey, ExistingKey;
    FirstExactly(overrides, root, env.platform);
    var key := ChosenKey(overrides, root, env.platform).0;
    if Has(overrides, key) {
      OneRoot(AbsValue(Get(overrides, key).value), root, other, env.platform);
    }
    GeneratedRoot(root, env.platform, addpath, other);
    OtherRoot(overrides, key, Generated(root, env.platform, addpath), other, env.platform);
  }

  // The key of an entry is the first override of its root on this platform,
  // unless there is none or its key is empty: then it is new.
  ghost predicate Takes(overrides: Dict, platform: string, entry: CloudEntry) {
    if exists key :: key != "" && First(overrides, entry.root, platform, key)
    then First(overrides, entry.root, platform, entry.key) && entry.key != "" && Has(overrides, entry.key)
         && entry.original == Get(overrides, entry.key)
    else !Has(overrides, entry.key) && entry.original == None
  }

  lemma {:induction false} TurnTakes(
    env: Env, addpath: string, root: string, overrides: Dict, links: Links, entry: CloudEntry)
    requires Proper(overrides) && InstallOne(env, addpath, root, overrides, links).Ok?
    requires entry == InstallOne(env, addpath, root, overrides, links).value.2
    ensures entry.root == root && Takes(overrides, env.platform, entry)
  {
    hide First, Generated, NextKey, For, ExistingKey;
    FirstExactly(overrides, root, env.platform);
    forall key | First(overrides, root, env.platform, key)
      ensures ExistingKey(overrides, root, env.platform) == Some(key)
    {
      FirstIs(overrides, root, env.platform, key);
    }
  }

  // What a later root takes of the table it finds, it takes of the first table.
  lemma {:induction false} TakesBefore(
    overrides: Dict, overrides1: Dict, platform: string, changed: string, entry: CloudEntry)
    requires Proper(overrides) && Proper(overrides1) && Takes(overrides1, platform, entry)
    requires ExistingKey(overrides1, entry.root, platform) == ExistingKey(overrides, entry.root, platform)
    requires forall k :: k != changed ==> Get(overrides1, k) == Get(overrides, k)
    requires Has(overrides1, changed) && entry.key != changed
    ensures Takes(overrides, platform, entry)
  {
    hide First, ExistingKey;
    FirstExactly(overrides, entry.root, platform);
    FirstExactly(overrides1, entry.root, platform);
    forall key ensures First(overrides, entry.root, platform, key) <==> First(overrides1, entry.root, platform, key) {
      if First(overrides, entry.root, platform, key) { FirstIs(overrides, entry.root, platform, key); }
      if First(overrides1, entry.root, platform, key) { FirstIs(overrides1, entry.root, platform, key); }
    }
  }

  // Each root takes the first override it has on this platform, or a new key.
  lemma {:induction false} InstallTakes(
    env: Env, addpath: string -> string, roots: seq<string>, overrides: Dict, links: Links,
    overrides': Dict, links': Links, entries: seq<CloudEntry>)
    requires Proper(overrides) && InstallAll(env, addpath, roots, overrides, links) == Ok((overrides', links', entries))
    requires forall i, j :: 0 <= i < j < |roots| ==> roots[i] != roots[j]
    ensures |entries| == |roots|
    ensures forall i :: 0 <= i < |entries| ==> entries[i].root == roots[i] && Takes(overrides, env.platform, entries[i])
    decreases roots
  {
    hide InstallOne, Takes, Overlaid, ExistingKey, RootAt, Lookup, Generated;
    InstallExact(env, addpath, roots, overrides, links, overrides', links', entries);
    if roots != [] {
      var (overrides1, links1, entry) := InstallOne(env, addpath(roots[0]), roots[0], overrides, links).value;
      var tail := entries[1..];
      InstallOneEffect(env, addpath(roots[0]), roots[0], overrides, links, overrides1, links1, entry);
      TurnTakes(env, addpath(roots[0]), roots[0], overrides, links, entry);
      InstallTakes(env, addpath, roots[1..], overrides1, links1, overrides', links', tail);
      forall i | 0 <= i < |tail| ensures Takes(overrides, env.platform, tail[i]) {
        TurnKeepsOthers(env, addpath(roots[0]), roots[0], overrides, links, roots[i + 1]);
        assert tail[i] == entries[i + 1] && entries[0].key != entries[i + 1].key;
        TakesBefore(overrides, overrides1, env.platform, entry.key, tail[i]);
      }
    }
  }

  // So an override of another platform, another comparison or another root keeps
  // its value, whatever is installed.
  lemma {:induction false} OthersKept(
    env: Env, addpath: string -> string, roots: seq<string>, overrides: Dict, links: Links,
    overrides': Dict, links': Links, entries: seq<CloudEntry>, key: string)
    requires Proper(overrides) && InstallAll(env, addpath, roots, overrides, links) == Ok((overrides', links', entries))
    requires forall i, j :: 0 <= i < j < |roots| ==> roots[i] != roots[j]
    requires Has(overrides, key)
    requires forall root :: root in roots ==> !For(AbsValue(Get(overrides, key).value), root, env.platform)
    ensures Lookup(Abs(overrides'), key) == Lookup(Abs(overrides), key)
  {
    hide First, For, InstallAll, Generated, RootAt;
    InstallExact(env, addpath, roots, overrides, links, overrides', links', entries);
    InstallTakes(env, addpath, roots, overrides, links, overrides', links', entries);
    forall i | 0 <= i < |entries| ensures entries[i].key != key {
      assert roots[i] in roots;
      NotFirst(overrides, roots[i], env.platform, key);
    }
  }

  lemma {:induction false} NotFirst(overrides: Dict, root: string, platform: string, key: string)
    requires Proper(overrides) && Has(overrides, key) && !For(AbsValue(Get(overrides, key).value), root, platform)
    ensures !First(overrides, root, platform, key)
  {
    hide For, First;
    FirstExactly(overrides, root, platform);
    if First(overrides, root, platform, key) {
      FirstIs(overrides, root, platform, key);
    }
  }

  // --- When an install succeeds ---------------------------------------------

  // Every root has its directory; what stands where its link belongs is that very
  // link, or nothing and the link can be made; and no two roots want one link for
  // two directories.
  ghost predicate Linkable(env: Env, addpath: string -> string, roots: seq<string>, links: Links) {
    && (forall i :: 0 <= i < |roots| ==>
          && env.target(roots[i]).Some?
          && (var link := env.link(addpath(roots[i]));
              if link in links then links[link] == Link(env.target(roots[i]).value) else env.creatable(link)))
    && (forall i, j ::
          0 <= i < |roots| && 0 <= j < |roots| && env.link(addpath(roots[i])) == env.link(addpath(roots[j])) ==>
            env.target(roots[i]) == env.target(roots[j]))
  }

  lemma {:induction false} LinksExactly(
    env: Env, addpath: string -> string, roots: seq<string>, overrides: Dict, links: Links)
    ensures InstallAll(env, addpath, roots, overrides, links).Ok? <==> Linkable(env, addpath, roots, links)
    decreases roots
  {
    hide ChosenKey, Generated;
    if roots != [] {
      var tail := roots[1..];
      assert forall i :: 1 <= i < |roots| ==> roots[i] == tail[i - 1];
      assert forall i :: 0 <= i < |tail| ==> tail[i] == roots[i + 1];
      if InstallOne(env, addpath(roots[0]), roots[0], overrides, links).Ok? {
        var (overrides1, links1, entry) := InstallOne(env, addpath(roots[0]), roots[0], overrides, links).value;
        LinksExactly(env, addpath, tail, overrides1, links1);
        LinkableCons(env, addpath, roots, links, links1);
      }
    }
  }

  lemma {:induction false} LinkableCons(
    env: Env, addpath: string -> string, roots: seq<string>, links: Links, links1: Links)
    requires roots != [] && env.target(roots[0]).Some?
    requires var link, target := env.link(addpath(roots[0])), env.target(roots[0]).value;
             && links1 == links[link := Link(target)]
             && (if link in links then links[link] == Link(target) else env.creatable(link))
    ensures Linkable(env, addpath, roots, links) <==> Linkable(env, addpath, roots[1..], links1)
  {
    var tail := roots[1..];
    assert forall i :: 1 <= i < |roots| ==> roots[i] == tail[i - 1];
    assert forall i :: 0 <= i < |tail| ==> tail[i] == roots[i + 1];
    if Linkable(env, addpath, tail, links1) {
      forall i | 0 <= i < |roots|
        ensures env.target(roots[i]).Some?
        ensures var link := env.link(addpath(roots[i]));
                if link in links then links[link] == Link(env.target(roots[i]).value) else env.creatable(link)
        ensures env.link(addpath(roots[i])) == env.link(addpath(roots[0])) ==>
                  env.target(roots[i]) == env.target(roots[0])
      {
        if i > 0 { assert roots[i] == tail[i - 1]; }
      }
      forall i, j | 0 <= i < |roots| && 0 <= j < |roots| && env.link(addpath(roots[i])) == env.link(addpath(roots[j]))
        ensures env.target(roots[i]) == env.target(roots[j])
      {
        if i > 0 && j > 0 { assert roots[i] == tail[i - 1] && roots[j] == tail[j - 1]; }
      }
    }
  }

  // The root of a save-file rule.
  ghost predicate HasRoot(rules: Dict, key: string, root: string) {
    && Has(rules, key) && Get(rules, key).value.Sub? && Get(Get(rules, key).value.dict, "root") == Some(Text(root))
  }

  ghost predicate Names(rules: Dict, root: string) {
    exists key :: HasRoot(rules, key, root)
  }

  // A rule whose root is itself a dictionary.
  ghost predicate BadRule(rules: Dict, key: string) {
    && Has(rules, key) && Get(rules, key).value.Sub?
    && Has(Get(rules, key).value.dict, "root") && Get(Get(rules, key).value.dict, "root").value.Sub?
  }

  // A root for Windows that the tool does not know.
  ghost predicate UnknownRoot(root: string) {
    && root !in ROOTS && |root| >= 3 && root[0] == 'W' && root[1] == 'i' && root[2] == 'n'
  }

  lemma {:induction false} NamedExactly(rules: Dict, root: string)
    requires Proper(rules)
    ensures Named(rules, root) <==> Names(rules, root)
    decreases rules
  {
    if rules.Entry? {
      NamedExactly(rules.rest, root);
      if key :| HasRoot(rules.rest, key, root) { assert HasRoot(rules, key, root); }
      if key :| HasRoot(rules, key, root) { assert key == rules.key || HasRoot(rules.rest, key, root); }
      if rules.value.Sub? && Get(rules.value.dict, "root") == Some(Text(root)) {
        assert HasRoot(rules, rules.key, root);
      }
    }
  }

  lemma {:induction false} RefusedExactly(rules: Dict)
    requires Proper(rules)
    ensures HasUnsupported(rules) <==> exists root :: UnknownRoot(root) && Names(rules, root)
    decreases rules
  {
    hide HasRoot;
    if rules.Entry? {
      RefusedExactly(rules.rest);
      forall root
        ensures Names(rules, root) <==>
                  Names(rules.rest, root) || (rules.value.Sub? && Get(rules.value.dict, "root") == Some(Text(root)))
      {
        NamedExactly(rules, root);
        NamedExactly(rules.rest, root);
      }
      if rules.value.Sub? && Get(rules.value.dict, "root").Some? && Get(rules.value.dict, "root").value.Text? {
        WinPrefix(Get(rules.value.dict, "root").value.text);
      }
    } else {
      forall root ensures !Names(rules, root) { NamedExactly(rules, root); }
    }
  }

  lemma {:induction false} WinPrefix(root: string)
    ensures "Win" <= root && root !in ROOTS <==> UnknownRoot(root)
  {
  }

  lemma {:induction false} RootsFailExactly(rules: Dict, roots: seq<string>)
    requires Proper(rules)
    ensures SupportedRoots(rules, roots).Err? <==> exists key :: BadRule(rules, key)
    decreases rules
  {
    if rules.Entry? {
      forall more ensures SupportedRoots(rules.rest, more).Err? <==> exists key :: BadRule(rules.rest, key) {
        RootsFailExactly(rules.rest, more);
      }
      if key :| BadRule(rules.rest, key) { assert BadRule(rules, key); }
      if key :| BadRule(rules, key) { assert key == rules.key || BadRule(rules.rest, key); }
      if rules.value.Sub? && Has(rules.value.dict, "root") && Get(rules.value.dict, "root").value.Sub? {
        assert BadRule(rules, rules.key);
      }
    }
  }

  // --- The directory of the links -------------------------------------------

  // A relative directory: some part is not empty, and none is a dot or two.
  ghost predicate RelativeDirectory(path: string) {
    var parts := PythonText.Split(path, '/');
    (exists part :: part in parts && part != "") && "." !in parts && ".." !in parts
  }

  lemma {:induction false} NonemptyExactly(parts: seq<string>)
    ensures forall part :: part in Nonempty(parts) <==> part in parts && part != ""
  {
    if parts != [] {
      NonemptyExactly(parts[1..]);
      assert parts == [parts[0]] + parts[1..];
    }
  }

  lemma {:induction false} SplitJoin(parts: seq<string>)
    requires parts != [] && forall part :: part in parts ==> '/' !in part
    ensures PythonText.Split(PythonText.Join(parts, '/'), '/') == parts
    decreases parts
  {
    if |parts| == 1 {
      SplitOne(parts[0]);
      assert parts == [parts[0]];
    } else {
      SplitJoin(parts[1..]);
      assert parts[0] in parts;
      SplitTwo(parts[0], PythonText.Join(parts[1..], '/'));
      assert parts == [parts[0]] + parts[1..];
    }
  }

  lemma {:induction false} SplitOne(part: string)
    requires '/' !in part
    ensures PythonText.Split(part, '/') == [part]
  {
    if part != "" {
      assert part == [part[0]] + part[1..];
      SplitOne(part[1..]);
    }
  }

  lemma {:induction false} SplitTwo(part: string, rest: string)
    requires '/' !in part
    ensures PythonText.Split(part + ['/'] + rest, '/') == [part] + PythonText.Split(rest, '/')
  {
    var s := part + ['/'] + rest;
    if part == "" {
      assert s[0] == '/' && s[1..] == rest;
    } else {
      assert part == [part[0]] + part[1..];
      assert s[0] == part[0] && s[1..] == part[1..] + ['/'] + rest;
      SplitTwo(part[1..], rest);
      assert PythonText.Split(s[1..], '/')[1..] == PythonText.Split(rest, '/');
    }
  }

  // The directory is accepted if and only if it is one, and keeps its parts but
  // for the empty ones.
  lemma {:induction false} NormalizesExactly(path: string)
    ensures NormalizeRoot(path).Ok? <==> RelativeDirectory(path)
    ensures NormalizeRoot(path).Ok? ==>
              PythonText.Split(NormalizeRoot(path).value, '/') == Nonempty(PythonText.Split(path, '/'))
  {
    var parts := PythonText.Split(path, '/');
    NonemptyExactly(parts);
    if NormalizeRoot(path).Ok? {
      SplitJoin(Nonempty(parts));
      assert Nonempty(parts)[0] in Nonempty(parts);
    }
    if part :| part in parts && part != "" {
      assert part in Nonempty(parts);
    }
  }

  // Two roots of one app never share a directory, nor do two apps whatever their
  // roots.
  lemma {:induction false} AddPathsApart(appid: nat, root: string, other: string, count: nat, base: string)
    requires count > 1 && root != other
    ensures AddPath(appid, root, count, base) != AddPath(appid, other, count, base)
    ensures base + "/" + PythonText.Decimal(appid) <= AddPath(appid, root, count, base)
  {
    var from := base + "/" + PythonText.Decimal(appid) + "/";
    assert AddPath(appid, root, count, base) == from + root && AddPath(appid, other, count, base) == from + other;
    assert (from + root)[|from|..] == root && (from + other)[|from|..] == other;
  }

  lemma {:induction false} DecimalFirst(appid: nat, root: string, count: nat)
    ensures var rest := PythonText.Decimal(appid) + (if count > 1 then "/" + root else "");
            PythonText.Split(rest, '/')[0] == PythonText.Decimal(appid)
  {
    var number := PythonText.Decimal(appid);
    assert '/' !in number by {
      forall i | 0 <= i < |number| ensures number[i] != '/' { assert PythonText.IsDigit(number[i]); }
    }
    if count > 1 {
      SplitTwo(number, root);
      assert number + ['/'] + root == number + ("/" + root);
    } else {
      SplitOne(number);
      assert number + "" == number;
    }
  }

  lemma {:induction false} AppsApart(
    appid: nat, other: nat, root: string, root': string, count: nat, count': nat, base: string)
    requires appid != other
    ensures AddPath(appid, root, count, base) != AddPath(other, root', count', base)
  {
    var rest := PythonText.Decimal(appid) + (if count > 1 then "/" + root else "");
    var rest' := PythonText.Decimal(other) + (if count' > 1 then "/" + root' else "");
    DecimalFirst(appid, root, count);
    DecimalFirst(other, root', count');
    PythonText.ValueDecimal(appid);
    PythonText.ValueDecimal(other);
    var from := base + "/";
    assert AddPath(appid, root, count, base) == from + rest && AddPath(other, root', count', base) == from + rest';
    assert (from + rest)[|from|..] == rest && (from + rest')[|from|..] == rest';
  }

  // --- The whole install ----------------------------------------------------

  // What the rules of an app ask of the machine.
  ghost predicate Served(env: Env, rules: Dict) {
    && (forall key :: !BadRule(rules, key))
    && (forall root :: UnknownRoot(root) ==> !Names(rules, root))
    && (exists root :: root in ROOTS && Names(rules, root))
    && (Names(rules, "gameinstall") ==> env.gameDir)
    && (Names(rules, "SteamCloudDocuments") ==> env.account)
    && env.wineUser
  }

  lemma {:induction false} RootsExactly(env: Env, sections: Dict)
    requires Proper(sections)
    ensures CloudRoots(env, sections).Ok? <==> Served(env, Rules(sections))
    ensures CloudRoots(env, sections).Ok? ==>
              var roots := CloudRoots(env, sections).value;
              && (forall i, j :: 0 <= i < j < |roots| ==> roots[i] != roots[j])
              && (forall root :: root in roots <==> root in ROOTS && Names(Rules(sections), root))
  {
    hide HasUnsupported, SupportedRoots, UnknownRoot, Names, BadRule, Find, Named;
    var rules := Rules(sections);
    RulesProper(sections);
    RootsFailExactly(rules, []);
    RefusedExactly(rules);
    if SupportedRoots(rules, []).Ok? {
      var roots := SupportedRoots(rules, []).value;
      SupportedRootsExact(rules, []);
      forall root ensures root in roots <==> root in ROOTS && Names(rules, root) { NamedExactly(rules, root); }
      assert roots != [] ==> roots[0] in roots;
      assert "gameinstall" in ROOTS && "SteamCloudDocuments" in ROOTS;
    }
  }

  lemma {:induction false} RulesProper(sections: Dict)
    requires Proper(sections)
    ensures Proper(Rules(sections))
  {
    hide Find;
    if Find(sections, UFS + ["savefiles"]).Some? {
      ProperFind(sections, UFS + ["savefiles"]);
    }
  }

  // Every link of the app's roots is there or can be made.
  ghost predicate LinksPossible(env: Env, appid: nat, sections: Dict, links: Links) {
    var base, roots := NormalizeRoot(env.addpathRoot), CloudRoots(env, sections);
    && base.Ok? && roots.Ok?
    && Linkable(env, (root: string) => AddPath(appid, root, |roots.value|, base.value), roots.value, links)
  }

  // A Cloud install succeeds if and only if the prefix and the directory of the
  // links are in order, the rules of the app can be served, its overrides are a
  // dictionary or missing, and every link is there or can be made.
  lemma {:induction false} InstallSucceedsExactly(env: Env, appid: nat, sections: Dict, links: Links)
    requires Proper(sections)
    ensures CloudInstall(env, appid, sections, links).Ok? <==>
              && env.initialized && RelativeDirectory(env.addpathRoot)
              && Served(env, Rules(sections))
              && Find(sections, UFS).Some? && Overrides(Find(sections, UFS).value).Ok?
              && LinksPossible(env, appid, sections, links)
  {
    hide Find, Graft, CloudRoots, InstallAll, Linkable, AddPath, Served, RelativeDirectory, NormalizeRoot;
    NormalizesExactly(env.addpathRoot);
    RootsExactly(env, sections);
    if BasePath(env).Ok? && CloudRoots(env, sections).Ok? && Find(sections, UFS).Some?
       && Overrides(Find(sections, UFS).value).Ok? {
      var roots, base := CloudRoots(env, sections).value, BasePath(env).value;
      LinksExactly(env, (root: string) => AddPath(appid, root, |roots|, base), roots,
        Overrides(Find(sections, UFS).value).value, links);
    }
  }
}
