// The promises of the Cloud overrides: distinct keys, no other override
// touched, and a restore that is exact or changes nothing.
module CloudUndo {
  import opened Wrappers
  import opened Vdf
  import opened Cloud
  import Codec
  import PythonText

  ghost predicate DistinctKeys(entries: seq<CloudEntry>) {
    forall i, j :: 0 <= i < j < |entries| ==> entries[i].key != entries[j].key
  }

  ghost predicate ProperEntries(entries: seq<CloudEntry>) {
    forall i :: 0 <= i < |entries| && entries[i].original.Some? ==> ProperValue(entries[i].original.value)
  }

  // --- Restore: exactly when nothing recorded has changed -------------------

  // The table holds every recorded override as it was generated.
  ghost predicate InForce(table: map<string, Tree>, entries: seq<CloudEntry>) {
    forall i :: 0 <= i < |entries| ==> Lookup(table, entries[i].key) == Some(AbsValue(entries[i].generated))
  }

  // `final` is `table` with every recorded override back to its original.
  ghost predicate PutBack(table: map<string, Tree>, final: map<string, Tree>, entries: seq<CloudEntry>) {
    && (forall i :: 0 <= i < |entries| ==> Lookup(final, entries[i].key) == AbsOption(entries[i].original))
    && (forall k :: (forall i :: 0 <= i < |entries| ==> entries[i].key != k) ==> Lookup(final, k) == Lookup(table, k))
  }

  lemma {:induction false} RestoreOneEffect(overrides: Dict, entry: CloudEntry)
    requires Proper(overrides) && (entry.original.Some? ==> ProperValue(entry.original.value))
    ensures RestoreOne(overrides, entry).Ok? <==> Lookup(Abs(overrides), entry.key) == Some(AbsValue(entry.generated))
    ensures RestoreOne(overrides, entry).Ok? ==>
              var r := RestoreOne(overrides, entry).value;
              && Proper(r)
              && forall k :: Lookup(Abs(r), k) == if k == entry.key then AbsOption(entry.original)
                  else Lookup(Abs(overrides), k)
  {
    AbsGet(overrides, entry.key);
    if entry.original.Some? {
      AbsPut(overrides, entry.key, entry.original.value);
      ProperPut(overrides, entry.key, entry.original.value);
    } else {
      AbsDel(overrides, entry.key);
      ProperDel(overrides, entry.key);
    }
  }

  // Restoring succeeds if and only if every recorded override is still in
  // force; it then puts back exactly the recorded originals.
  lemma {:induction false} RestoreExact(overrides: Dict, entries: seq<CloudEntry>)
    requires Proper(overrides) && DistinctKeys(entries) && ProperEntries(entries)
    ensures RestoreAll(overrides, entries).Ok? <==> InForce(Abs(overrides), entries)
    ensures RestoreAll(overrides, entries).Ok? ==>
              && Proper(RestoreAll(overrides, entries).value)
              && PutBack(Abs(overrides), Abs(RestoreAll(overrides, entries).value), entries)
    decreases entries
  {
    hide RestoreOne;
    if entries != [] {
      var tail := entries[1..];
      RestoreOneEffect(overrides, entries[0]);
      if RestoreOne(overrides, entries[0]).Ok? {
        var overrides1 := RestoreOne(overrides, entries[0]).value;
        RestoreExact(overrides1, tail);
        InForceTail(Abs(overrides), Abs(overrides1), entries);
        if RestoreAll(overrides1, tail).Ok? {
          PutBackCons(Abs(overrides), Abs(overrides1), Abs(RestoreAll(overrides1, tail).value), entries);
        }
      }
    }
  }

  lemma {:induction false} InForceTail(table: map<string, Tree>, table1: map<string, Tree>, entries: seq<CloudEntry>)
    requires entries != [] && DistinctKeys(entries)
    requires Lookup(table, entries[0].key) == Some(AbsValue(entries[0].generated))
    requires forall k :: k != entries[0].key ==> Lookup(table1, k) == Lookup(table, k)
    ensures InForce(table, entries) <==> InForce(table1, entries[1..])
  {
  }

  lemma {:induction false} PutBackCons(
    table: map<string, Tree>, table1: map<string, Tree>, final: map<string, Tree>, entries: seq<CloudEntry>)
    requires entries != [] && DistinctKeys(entries)
    requires forall k :: Lookup(table1, k) == if k == entries[0].key then AbsOption(entries[0].original)
               else Lookup(table, k)
    requires PutBack(table1, final, entries[1..])
    ensures PutBack(table, final, entries)
  {
  }

  // --- Install --------------------------------------------------------------

  // The root an override is for.
  function RootAt(overrides: Dict, key: string): Option<string> {
    match Get(overrides, key)
    case Some(Sub(item)) => (match Get(item, "root") case Some(Text(root)) => Some(root) case _ => None)
    case _ => None
  }

  lemma {:induction false} ExistingKeyFound(overrides: Dict, root: string, platform: string)
    requires Proper(overrides) && ExistingKey(overrides, root, platform).Some?
    ensures var key := ExistingKey(overrides, root, platform).value;
            Has(overrides, key) && RootAt(overrides, key) == Some(root)
  {
    var Entry(key, item, rest) := overrides;
    if ExistingKey(overrides, root, platform) != Some(key) {
      ExistingKeyFound(rest, root, platform);
    } else if !(item.Sub? && Get(item.dict, "root") == Some(Text(root))) {
      ExistingKeyFound(rest, root, platform);
    }
  }

  lemma {:induction false} ProperEntry(key: string, value: Value, rest: Dict)
    requires Proper(rest) && ProperValue(value) && !Has(rest, key)
    ensures Proper(Entry(key, value, rest))
    ensures forall k :: Has(Entry(key, value, rest), k) <==> k == key || Has(rest, k)
  {
  }

  lemma {:induction false} GeneratedProper(root: string, platform: string, addpath: string)
    ensures Generated(root, platform, addpath).Sub? && ProperValue(Generated(root, platform, addpath))
    ensures Get(Generated(root, platform, addpath).dict, "root") == Some(Text(root))
  {
    var d5 := Entry("addpath", Text(addpath), Empty);
    var d4 := Entry("useinstead", Text("MacAppSupport"), d5);
    var d3 := Entry("oscompare", Text("="), d4);
    var d2 := Entry("os", Text(platform), d3);
    ProperEntry("addpath", Text(addpath), Empty);
    ProperEntry("useinstead", Text("MacAppSupport"), d5);
    ProperEntry("oscompare", Text("="), d4);
    ProperEntry("os", Text(platform), d3);
    ProperEntry("root", Text(root), d2);
  }

  ghost predicate Recorded(overrides: Dict, entry: CloudEntry, root: string) {
    && entry.root == root
    && AbsOption(entry.original) == Lookup(Abs(overrides), entry.key)
    && (entry.original.Some? ==> ProperValue(entry.original.value))
    && (if Has(overrides, entry.key) then RootAt(overrides, entry.key) == Some(root)
        else PythonText.AsciiDigits(entry.key))
  }

  lemma {:induction false} InstallOneEffect(
    env: Env, addpath: string, root: string, overrides: Dict, links: Links, overrides': Dict, links': Links,
    entry: CloudEntry)
    requires Proper(overrides) && InstallOne(env, addpath, root, overrides, links) == Ok((overrides', links', entry))
    ensures Recorded(overrides, entry, root)
    ensures entry.generated == Generated(root, env.platform, addpath)
    ensures Proper(overrides') && RootAt(overrides', entry.key) == Some(root)
    ensures Has(overrides', entry.key)
    ensures forall k :: k != entry.key ==> Get(overrides', k) == Get(overrides, k)
    ensures forall k :: Lookup(Abs(overrides'), k)
              == if k == entry.key then Some(AbsValue(entry.generated)) else Lookup(Abs(overrides), k)
  {
    hide NextKey, ExistingKey, Generated;
    if ExistingKey(overrides, root, env.platform).Some? {
      ExistingKeyFound(overrides, root, env.platform);
    }
    AbsGet(overrides, entry.key);
    if Has(overrides, entry.key) {
      ProperGet(overrides, entry.key);
    }
    GeneratedProper(root, env.platform, addpath);
    AbsPut(overrides, entry.key, entry.generated);
    ProperPut(overrides, entry.key, entry.generated);
    forall k ensures Get(overrides', k) == if k == entry.key then Some(entry.generated) else Get(overrides, k) {
      GetPut(overrides, entry.key, entry.generated, k);
    }
  }

  // What an installed table is to the one before it.
  ghost predicate Overlaid(table: map<string, Tree>, table': map<string, Tree>, entries: seq<CloudEntry>) {
    && InForce(table', entries)
    && (forall i :: 0 <= i < |entries| ==> AbsOption(entries[i].original) == Lookup(table, entries[i].key))
    && (forall k :: (forall i :: 0 <= i < |entries| ==> entries[i].key != k) ==> Lookup(table', k) == Lookup(table, k))
  }

  // For any table of overrides and any distinct roots, the keys are pairwise
  // distinct, an override that was there is reused only for its own root and
  // recorded, and no other override changes.
  lemma {:induction false} InstallExact(
    env: Env, addpath: string -> string, roots: seq<string>, overrides: Dict, links: Links,
    overrides': Dict, links': Links, entries: seq<CloudEntry>)
    requires Proper(overrides) && InstallAll(env, addpath, roots, overrides, links) == Ok((overrides', links', entries))
    requires forall i, j :: 0 <= i < j < |roots| ==> roots[i] != roots[j]
    ensures |entries| == |roots| && DistinctKeys(entries) && ProperEntries(entries)
    ensures forall i :: 0 <= i < |entries| ==>
              && entries[i].root == roots[i]
              && entries[i].generated == Generated(roots[i], env.platform, addpath(roots[i]))
              && (if Has(overrides, entries[i].key) then RootAt(overrides, entries[i].key) == Some(roots[i])
                  else PythonText.AsciiDigits(entries[i].key))
    ensures Proper(overrides') && Overlaid(Abs(overrides), Abs(overrides'), entries)
    decreases roots
  {
    hide InstallOne, Generated, Lookup, RootAt;
    if roots != [] {
      var (overrides1, links1, entry) := InstallOne(env, addpath(roots[0]), roots[0], overrides, links).value;
      var tail := entries[1..];
      InstallOneEffect(env, addpath(roots[0]), roots[0], overrides, links, overrides1, links1, entry);
      InstallExact(env, addpath, roots[1..], overrides1, links1, overrides', links', tail);
      assert entries == [entry] + tail;
      OthersApart(overrides1, entry, roots, tail);
      forall i | 0 <= i < |tail|
        ensures if Has(overrides, tail[i].key) then RootAt(overrides, tail[i].key) == Some(roots[i + 1])
                else PythonText.AsciiDigits(tail[i].key)
      {
        SameRoot(overrides, overrides1, tail[i].key);
      }
      OverlaidCons(Abs(overrides), Abs(overrides1), Abs(overrides'), entry, tail);
    }
  }

  lemma {:induction false} SameRoot(overrides: Dict, overrides1: Dict, key: string)
    requires Get(overrides1, key) == Get(overrides, key)
    ensures Has(overrides1, key) == Has(overrides, key) && RootAt(overrides1, key) == RootAt(overrides, key)
  {
  }

  lemma {:induction false} OthersApart(overrides1: Dict, entry: CloudEntry, roots: seq<string>, tail: seq<CloudEntry>)
    requires roots != [] && |tail| == |roots| - 1
    requires forall i, j :: 0 <= i < j < |roots| ==> roots[i] != roots[j]
    requires Has(overrides1, entry.key) && RootAt(overrides1, entry.key) == Some(roots[0])
    requires forall i :: 0 <= i < |tail| && Has(overrides1, tail[i].key) ==>
               RootAt(overrides1, tail[i].key) == Some(roots[1..][i])
    ensures forall i :: 0 <= i < |tail| ==> tail[i].key != entry.key
  {
  }

  lemma {:induction false} OverlaidCons(
    table: map<string, Tree>, table1: map<string, Tree>, final: map<string, Tree>, entry: CloudEntry,
    tail: seq<CloudEntry>)
    requires AbsOption(entry.original) == Lookup(table, entry.key)
    requires forall k :: Lookup(table1, k) == if k == entry.key then Some(AbsValue(entry.generated))
               else Lookup(table, k)
    requires Overlaid(table1, final, tail) && forall i :: 0 <= i < |tail| ==> tail[i].key != entry.key
    ensures Overlaid(table, final, [entry] + tail)
  {
    hide Lookup;
    var entries := [entry] + tail;
    forall i | 0 <= i < |entries|
      ensures Lookup(final, entries[i].key) == Some(AbsValue(entries[i].generated))
      ensures AbsOption(entries[i].original) == Lookup(table, entries[i].key)
    {
      if i > 0 { assert entries[i] == tail[i - 1]; }
    }
    forall k | forall i :: 0 <= i < |entries| ==> entries[i].key != k
      ensures Lookup(final, k) == Lookup(table, k)
    {
      assert entries[0].key != k;
      forall i | 0 <= i < |tail| ensures tail[i].key != k { assert entries[i + 1] == tail[i]; }
    }
  }

  lemma {:induction false} LookupExtensional(a: map<string, Tree>, b: map<string, Tree>)
    requires forall k :: Lookup(a, k) == Lookup(b, k)
    ensures a == b
  {
    forall k ensures k in a <==> k in b { assert Lookup(a, k) == Lookup(b, k); }
    forall k | k in a ensures a[k] == b[k] { assert Lookup(a, k) == Lookup(b, k); }
  }

  // Putting back an installed table gives the table before it.
  lemma {:induction false} PutBackOverlaid(
    table: map<string, Tree>, table': map<string, Tree>, final: map<string, Tree>, entries: seq<CloudEntry>)
    requires Overlaid(table, table', entries) && PutBack(table', final, entries)
    ensures final == table
  {
    hide Lookup;
    forall k ensures Lookup(final, k) == Lookup(table, k) {
      if i :| 0 <= i < |entries| && entries[i].key == k {
        assert Lookup(final, entries[i].key) == AbsOption(entries[i].original);
      }
    }
    LookupExtensional(final, table);
  }

  // --- Links ----------------------------------------------------------------

  ghost predicate LinksAdded(links: Links, links': Links, entries: seq<CloudEntry>) {
    && (forall p :: p in links ==> p in links' && links'[p] == links[p])
    && (forall p :: p in links' && p !in links ==> Removable(links', entries, p))
    && (forall i :: 0 <= i < |entries| && entries[i].linkOwned ==> entries[i].link !in links)
  }

  // An entry owns the link at `p`, and it still points where it did.
  ghost predicate Removable(links: Links, entries: seq<CloudEntry>, p: Path)
    requires p in links
  {
    exists i :: 0 <= i < |entries| && entries[i].linkOwned && entries[i].link == p
        && links[p] == Link(entries[i].target)
  }

  lemma {:induction false} InstallLinks(
    env: Env, addpath: string -> string, roots: seq<string>, overrides: Dict, links: Links,
    overrides': Dict, links': Links, entries: seq<CloudEntry>)
    requires InstallAll(env, addpath, roots, overrides, links) == Ok((overrides', links', entries))
    ensures LinksAdded(links, links', entries)
    decreases roots
  {
    hide ChosenKey, Generated, Put;
    if roots != [] {
      var (overrides1, links1, entry) := InstallOne(env, addpath(roots[0]), roots[0], overrides, links).value;
      var tail := entries[1..];
      InstallLinks(env, addpath, roots[1..], overrides1, links1, overrides', links', tail);
      forall p | p in links' && p !in links
        ensures Removable(links', entries, p)
      {
        if p in links1 {
          assert entries[0].linkOwned && entries[0].link == p;
        } else {
          var i :| 0 <= i < |tail| && tail[i].linkOwned && tail[i].link == p && links'[p] == Link(tail[i].target);
          assert entries[i + 1] == tail[i];
        }
      }
      forall i | 0 <= i < |entries| && entries[i].linkOwned
        ensures entries[i].link !in links
      {
        if i > 0 { assert tail[i - 1] == entries[i]; }
      }
    }
  }

  // `links'` is `links` with the link of every entry pointing to its target.
  ghost predicate LinksSet(links: Links, links': Links, entries: seq<CloudEntry>) {
    && (forall i :: 0 <= i < |entries| ==> Lookup(links', entries[i].link) == Some(Link(entries[i].target)))
    && (forall p :: (forall i :: 0 <= i < |entries| ==> entries[i].link != p) ==> Lookup(links', p) == Lookup(links, p))
  }

  lemma {:induction false} InstallSetsLinks(
    env: Env, addpath: string -> string, roots: seq<string>, overrides: Dict, links: Links,
    overrides': Dict, links': Links, entries: seq<CloudEntry>)
    requires InstallAll(env, addpath, roots, overrides, links) == Ok((overrides', links', entries))
    ensures LinksSet(links, links', entries)
    ensures |entries| == |roots|
    ensures forall i :: 0 <= i < |entries| ==>
              entries[i].link == env.link(addpath(roots[i])) && env.target(roots[i]) == Some(entries[i].target)
    decreases roots
  {
    hide ChosenKey, Generated, Put;
    if roots != [] {
      var (overrides1, links1, entry) := InstallOne(env, addpath(roots[0]), roots[0], overrides, links).value;
      var tail := entries[1..];
      InstallSetsLinks(env, addpath, roots[1..], overrides1, links1, overrides', links', tail);
      InstallLinks(env, addpath, roots[1..], overrides1, links1, overrides', links', tail);
      assert entries == [entry] + tail;
      SetCons(links, links1, links', entry, tail);
    }
  }

  lemma {:induction false} SetCons(
    links: Links, links1: Links, links': Links, entry: CloudEntry, tail: seq<CloudEntry>)
    requires Lookup(links1, entry.link) == Some(Link(entry.target))
    requires forall p :: p != entry.link ==> Lookup(links1, p) == Lookup(links, p)
    requires LinksSet(links1, links', tail) && Lookup(links', entry.link) == Lookup(links1, entry.link)
    ensures LinksSet(links, links', [entry] + tail)
  {
    hide Lookup;
    var entries := [entry] + tail;
    forall p | forall i :: 0 <= i < |entries| ==> entries[i].link != p
      ensures Lookup(links', p) == Lookup(links, p)
    {
      assert entries[0].link != p;
      forall i | 0 <= i < |tail| ensures tail[i].link != p { assert entries[i + 1] == tail[i]; }
    }
  }

  // Restoring removes the owned links that still point where they did, and no
  // other.
  lemma {:induction false} RemoveExact(links: Links, entries: seq<CloudEntry>)
    ensures forall p :: p in RemoveLinks(links, entries) <==> p in links && !Removable(links, entries, p)
    ensures forall p :: p in RemoveLinks(links, entries) ==> RemoveLinks(links, entries)[p] == links[p]
    decreases entries
  {
    if entries != [] {
      var links1, tail := RemoveLink(links, entries[0]), entries[1..];
      RemoveExact(links1, tail);
      forall p | p in links1 ensures Removable(links1, tail, p) <==> Removable(links, entries, p) {
        if Removable(links1, tail, p) {
          var i :| 0 <= i < |tail| && tail[i].linkOwned && tail[i].link == p && links1[p] == Link(tail[i].target);
          assert entries[i + 1] == tail[i];
        }
        if Removable(links, entries, p) {
          var i :| 0 <= i < |entries| && entries[i].linkOwned && entries[i].link == p
              && links[p] == Link(entries[i].target);
          assert i > 0 && tail[i - 1] == entries[i];
        }
      }
      forall p | p in links && p !in links1 ensures Removable(links, entries, p) { assert entries[0].link == p; }
    }
  }

  lemma {:induction false} LinksUndone(links: Links, links': Links, entries: seq<CloudEntry>)
    requires LinksAdded(links, links', entries)
    ensures RemoveLinks(links', entries) == links
  {
    RemoveExact(links', entries);
    var r := RemoveLinks(links', entries);
    forall p | p in links ensures !Removable(links', entries, p) { }
    assert forall p :: p in r <==> p in links;
  }

  // The links an install of these entries leaves.
  ghost predicate LinksInstalled(links: Links, links': Links, entries: seq<CloudEntry>) {
    LinksSet(links, links', entries) && LinksAdded(links, links', entries)
  }

  // Every link of these entries was there, and so was every link that goes.
  ghost predicate Recreated(links: Links, earlier: seq<CloudEntry>, entries: seq<CloudEntry>) {
    && (forall i :: 0 <= i < |entries| ==> Lookup(links, entries[i].link) == Some(Link(entries[i].target)))
    && (forall p :: p in links && Removable(links, earlier, p) ==>
          exists i :: 0 <= i < |entries| && entries[i].link == p)
  }

  // After the owned links of an earlier mapping went and those of a new one were
  // set, the links are the earlier ones if and only if the new mapping makes
  // each that went again and no other.
  lemma {:induction false} RecreatedExactly(
    links: Links, earlier: seq<CloudEntry>, links': Links, entries: seq<CloudEntry>)
    requires LinksSet(RemoveLinks(links, earlier), links', entries)
    ensures links' == links <==> Recreated(links, earlier, entries)
  {
    hide RemoveLinks, Removable;
    var cleared := RemoveLinks(links, earlier);
    RemoveExact(links, earlier);
    if links' == links {
      forall p | p in links && Removable(links, earlier, p)
        ensures exists i :: 0 <= i < |entries| && entries[i].link == p
      {
        assert Lookup(links', p) != Lookup(cleared, p);
      }
    }
    if Recreated(links, earlier, entries) {
      forall p ensures Lookup(links', p) == Lookup(links, p) {
        if i :| 0 <= i < |entries| && entries[i].link == p {
          assert Lookup(links, entries[i].link) == Lookup(links', entries[i].link);
        } else {
          assert Lookup(links', p) == Lookup(cleared, p);
          assert p in links ==> !Removable(links, earlier, p);
        }
      }
      SameLinks(links', links);
    }
  }

  lemma {:induction false} SameLinks(links: Links, links': Links)
    requires forall p :: Lookup(links, p) == Lookup(links', p)
    ensures links == links'
  {
    forall p ensures p in links <==> p in links' { assert Lookup(links, p) == Lookup(links', p); }
    forall p | p in links ensures links[p] == links'[p] { assert Lookup(links, p) == Lookup(links', p); }
  }

  // A restore that gave up on a link cannot be run again: the table is already
  // the original one, and that is in force only where nothing was changed.
  lemma {:induction false} SecondRestore(overrides: Dict, entries: seq<CloudEntry>)
    requires Proper(overrides) && DistinctKeys(entries) && ProperEntries(entries) && RestoreAll(overrides, entries).Ok?
    ensures RestoreAll(RestoreAll(overrides, entries).value, entries).Ok? <==>
              forall i :: 0 <= i < |entries| ==> AbsOption(entries[i].original) == Some(AbsValue(entries[i].generated))
  {
    hide RestoreAll;
    RestoreExact(overrides, entries);
    RestoreExact(RestoreAll(overrides, entries).value, entries);
  }

  lemma {:induction false} SamePutBack(
    table: map<string, Tree>, final: map<string, Tree>, entries: seq<CloudEntry>)
    requires InForce(table, entries) && PutBack(table, final, entries)
    requires forall i :: 0 <= i < |entries| ==> AbsOption(entries[i].original) == Some(AbsValue(entries[i].generated))
    ensures final == table
  {
    hide Lookup;
    forall k ensures Lookup(final, k) == Lookup(table, k) {
      if i :| 0 <= i < |entries| && entries[i].key == k {
        assert Lookup(table, entries[i].key) == Some(AbsValue(entries[i].generated));
      }
    }
    LookupExtensional(final, table);
  }

  // So it is for an override that was not there before: the first restore takes
  // it away, the second misses it.
  lemma {:induction false} SecondRestoreRefused(entry: CloudEntry)
    requires entry.original.None?
    ensures var installed := Entry(entry.key, entry.generated, Empty);
            RestoreAll(installed, [entry]) == Ok(Empty) && RestoreAll(Empty, [entry]) == Err(Codec.ChangedUnexpectedly)
  {
    assert [entry][1..] == [];
  }

  // --- One app's sections ---------------------------------------------------

  // A save-file rule names this root.
  predicate Named(savefiles: Dict, root: string) {
    match savefiles
    case Empty => false
    case Entry(_, rule, rest) => (rule.Sub? && Get(rule.dict, "root") == Some(Text(root))) || Named(rest, root)
  }

  // Each supported root that a rule names is listed, once, and no other.
  lemma {:induction false} SupportedRootsExact(savefiles: Dict, roots: seq<string>)
    requires SupportedRoots(savefiles, roots).Ok?
    requires forall i, j :: 0 <= i < j < |roots| ==> roots[i] != roots[j]
    ensures var all := SupportedRoots(savefiles, roots).value;
            && (forall i, j :: 0 <= i < j < |all| ==> all[i] != all[j])
            && (forall r :: r in all <==> r in roots || (r in ROOTS && Named(savefiles, r)))
  {
    if savefiles.Entry? {
      var rule := savefiles.value;
      if rule.Sub? && Get(rule.dict, "root").Some? && Get(rule.dict, "root").value.Text? {
        var root := Get(rule.dict, "root").value.text;
        SupportedRootsExact(savefiles.rest, if root in ROOTS && root !in roots then roots + [root] else roots);
      } else {
        SupportedRootsExact(savefiles.rest, roots);
      }
    }
  }

  // A Cloud state file read back: the same entries, dictionaries without order.
  ghost predicate Reloaded(entries: seq<CloudEntry>, entries': seq<CloudEntry>) {
    && |entries'| == |entries|
    && forall i :: 0 <= i < |entries| ==>
         var e, e' := entries[i], entries'[i];
         && e' == e.(original := e'.original, generated := e'.generated)
         && AbsOption(e'.original) == AbsOption(e.original)
         && AbsValue(e'.generated) == AbsValue(e.generated)
         && (e'.original.Some? ==> ProperValue(e'.original.value))
  }

  // The steps of a successful install.
  lemma {:induction false} InstallSteps(
    env: Env, appid: nat, sections: Dict, links: Links, sections': Dict, links': Links, entries: seq<CloudEntry>)
    returns (ufs: Dict, overrides: Dict, roots: seq<string>, addpath: string -> string, overrides': Dict)
    requires CloudInstall(env, appid, sections, links) == Ok((sections', links', entries))
    ensures Find(sections, UFS) == Some(ufs) && Overrides(ufs) == Ok(overrides)
    ensures roots != [] && forall i, j :: 0 <= i < j < |roots| ==> roots[i] != roots[j]
    ensures CloudRoots(env, sections) == Ok(roots)
    ensures forall r :: r in roots <==> r in ROOTS && Named(Rules(sections), r)
    ensures InstallAll(env, addpath, roots, overrides, links) == Ok((overrides', links', entries))
    ensures BasePath(env).Ok?
    ensures forall r :: addpath(r) == AddPath(appid, r, |roots|, BasePath(env).value)
    ensures sections' == Graft(sections, UFS, Put(ufs, "rootoverrides", Sub(overrides')))
  {
    hide Find, Graft, InstallAll, SupportedRoots, HasUnsupported, Rules, AddPath, BasePath;
    var base := BasePath(env).value;
    ufs := Find(sections, UFS).value;
    overrides := Overrides(ufs).value;
    roots := CloudRoots(env, sections).value;
    SupportedRootsExact(Rules(sections), []);
    addpath := (root: string) => AddPath(appid, root, |roots|, base);
    overrides' := InstallAll(env, addpath, roots, overrides, links).value.0;
  }

  // Installing edits the override table and nothing else of the app.
  lemma {:induction false} InstallsOverrides(
    env: Env, appid: nat, sections: Dict, links: Links, sections': Dict, links': Links, entries: seq<CloudEntry>)
    requires Proper(sections) && CloudInstall(env, appid, sections, links) == Ok((sections', links', entries))
    ensures entries != [] && DistinctKeys(entries) && ProperEntries(entries) && Proper(sections')
    ensures Find(sections, UFS).Some? && Overrides(Find(sections, UFS).value).Ok?
    ensures var ufs := Find(sections, UFS).value;
            && Find(sections', UFS).Some? && Overrides(Find(sections', UFS).value).Ok?
            && (var overrides, overrides' := Overrides(ufs).value, Overrides(Find(sections', UFS).value).value;
                && Proper(overrides') && Overlaid(Abs(overrides), Abs(overrides'), entries)
                && Find(sections', UFS) == Some(Put(ufs, "rootoverrides", Sub(overrides')))
                && sections' == Graft(sections, UFS, Find(sections', UFS).value))
    ensures LinksAdded(links, links', entries)
  {
    hide Find, Graft, InstallAll, CloudInstall, CloudRoots, Overlaid, LinksAdded;
    var ufs, overrides, roots, addpath, overrides' :=
        InstallSteps(env, appid, sections, links, sections', links', entries);
    ProperFind(sections, UFS);
    if Has(ufs, "rootoverrides") {
      ProperGet(ufs, "rootoverrides");
    }
    InstallExact(env, addpath, roots, overrides, links, overrides', links', entries);
    InstallLinks(env, addpath, roots, overrides, links, overrides', links', entries);
    GetPut(ufs, "rootoverrides", Sub(overrides'), "rootoverrides");
    ProperPut(ufs, "rootoverrides", Sub(overrides'));
    FindGraft(sections, UFS, Put(ufs, "rootoverrides", Sub(overrides')));
    ProperGraft(sections, UFS, Put(ufs, "rootoverrides", Sub(overrides')));
  }

  lemma {:induction false} ReloadedInForce(
    table: map<string, Tree>, table': map<string, Tree>, entries: seq<CloudEntry>, entries': seq<CloudEntry>)
    requires Overlaid(table, table', entries) && Reloaded(entries, entries') && DistinctKeys(entries)
    ensures Overlaid(table, table', entries') && DistinctKeys(entries') && ProperEntries(entries')
  {
  }

  lemma {:induction false} CurrentInstalled(now: Dict, ufs: Dict, overrides: Dict)
    requires Find(now, UFS) == Some(ufs) && Overrides(ufs) == Ok(overrides)
    ensures CurrentOverrides(now) == Ok(overrides)
  {
    assert UFS[1..] == ["ufs"] && ["appinfo"][1..] == [];
  }

  // As long as the app's table of overrides is the installed one, restoring
  // succeeds, puts the original table back (an absent one is left empty) and
  // changes nothing else; and the links are those there were before.
  lemma {:induction false} CloudUndoes(
    env: Env, appid: nat, sections: Dict, links: Links, sections': Dict, links': Links, entries: seq<CloudEntry>,
    now: Dict, entries': seq<CloudEntry>)
    requires Proper(sections) && CloudInstall(env, appid, sections, links) == Ok((sections', links', entries))
    requires Reloaded(entries, entries') && Proper(now)
    requires Find(now, UFS).Some? && Find(sections', UFS).Some?
    requires Abs(Find(now, UFS).value) == Abs(Find(sections', UFS).value)
    ensures Find(sections, UFS).Some? && Overrides(Find(sections, UFS).value).Ok?
    ensures CloudRestore(now, entries').Ok?
    ensures var (now', changed) := CloudRestore(now, entries').value;
            var ufs := Find(sections, UFS).value;
            && changed && Proper(now') && Find(now', UFS).Some?
            && now' == Graft(now, UFS, Find(now', UFS).value)
            && Abs(Find(now', UFS).value) == Abs(ufs)["rootoverrides" := Branch(Abs(Overrides(ufs).value))]
    ensures RemoveLinks(links', entries') == links
  {
    hide Find, Graft, CloudInstall, Overlaid, LinksAdded, RestoreAll, PutBack, CurrentOverrides, Overrides, InForce;
    InstallsOverrides(env, appid, sections, links, sections', links', entries);
    var ufs, ufs', ufsNow := Find(sections, UFS).value, Find(sections', UFS).value, Find(now, UFS).value;
    var overrides, overrides' := Overrides(ufs).value, Overrides(ufs').value;
    FindGraft(sections, UFS, Put(ufs, "rootoverrides", Sub(overrides')));
    var current := TableOf(ufs', ufsNow, ufs, overrides');
    CurrentInstalled(now, ufsNow, current);
    ReloadedInForce(Abs(overrides), Abs(overrides'), entries, entries');
    ProperFind(now, UFS);
    ProperTable(ufsNow, current);
    OverlaidInForce(Abs(overrides), Abs(overrides'), entries');
    RestoreExact(current, entries');
    var restored := RestoreAll(current, entries').value;
    PutBackOverlaid(Abs(overrides), Abs(overrides'), Abs(restored), entries');
    AbsPut(ufsNow, "rootoverrides", Sub(restored));
    AbsPut(ufs, "rootoverrides", Sub(overrides'));
    UpdateTwice(Abs(ufs), "rootoverrides", Branch(Abs(overrides')), Branch(Abs(overrides)));
    assert Abs(Put(ufsNow, "rootoverrides", Sub(restored))) == Abs(ufs)["rootoverrides" := Branch(Abs(overrides))];
    ProperPut(ufsNow, "rootoverrides", Sub(restored));
    FindGraft(now, UFS, Put(ufsNow, "rootoverrides", Sub(restored)));
    ProperGraft(now, UFS, Put(ufsNow, "rootoverrides", Sub(restored)));
    ReloadedLinks(links, links', entries, entries');
    LinksUndone(links, links', entries');
  }

  lemma {:induction false} UpdateTwice(m: map<string, Tree>, key: string, a: Tree, b: Tree)
    ensures m[key := a][key := b] == m[key := b]
  {
  }

  lemma {:induction false} OverlaidInForce(
    table: map<string, Tree>, table': map<string, Tree>, entries: seq<CloudEntry>)
    requires Overlaid(table, table', entries)
    ensures InForce(table', entries)
  {
  }

  lemma {:induction false} TableOf(ufs': Dict, ufsNow: Dict, ufs: Dict, overrides': Dict) returns (current: Dict)
    requires Abs(ufsNow) == Abs(ufs') && ufs' == Put(ufs, "rootoverrides", Sub(overrides'))
    ensures Overrides(ufsNow) == Ok(current) && Abs(current) == Abs(overrides') && Has(ufsNow, "rootoverrides")
    ensures Get(ufsNow, "rootoverrides") == Some(Sub(current))
  {
    GetPut(ufs, "rootoverrides", Sub(overrides'), "rootoverrides");
    AbsGet(ufs', "rootoverrides");
    AbsGet(ufsNow, "rootoverrides");
    current := Get(ufsNow, "rootoverrides").value.dict;
  }

  lemma {:induction false} ProperTable(ufs: Dict, overrides: Dict)
    requires Proper(ufs) && Overrides(ufs) == Ok(overrides)
    ensures Proper(overrides)
  {
    if Has(ufs, "rootoverrides") {
      ProperGet(ufs, "rootoverrides");
    }
  }

  lemma {:induction false} ReloadedLinks(
    links: Links, links': Links, entries: seq<CloudEntry>, entries': seq<CloudEntry>)
    requires LinksAdded(links, links', entries) && Reloaded(entries, entries')
    ensures LinksAdded(links, links', entries')
  {
  }
}
