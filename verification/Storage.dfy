// Which sections an image can hold, as a property of trees that edits keep:
// every text is storable, and so is every key the string pool lacks.
module Storage {
  import opened Vdf
  import opened Strings
  import opened Codec
  import opened AppImage

  predicate KeyFits(v: Version, pool: seq<string>, key: string) {
    (v.V29? && key in pool) || Storable(key)
  }

  predicate Fits(v: Version, pool: seq<string>, t: Tree) {
    match t
    case Branch(m) => forall k :: k in m ==> KeyFits(v, pool, k) && Fits(v, pool, m[k])
    case Leaf(s) => Storable(s)
    case Count(_) => true
  }

  predicate FitsAll(v: Version, pool: seq<string>, m: map<string, Tree>) {
    forall k :: k in m ==> KeyFits(v, pool, k) && Fits(v, pool, m[k])
  }

  predicate NewKeysStorable(v: Version, pool: seq<string>, keys: set<string>) {
    v.V29? ==> forall k :: k in keys && k !in pool ==> Storable(k)
  }

  lemma {:induction false} FitsAbs(v: Version, pool: seq<string>, d: Dict)
    requires Proper(d)
    ensures FitsAll(v, pool, Abs(d)) <==> Writable(v, d) && NewKeysStorable(v, pool, AllKeys(d))
    decreases d, 0
  {
    hide Storable;
    if d.Entry? {
      AbsGet(d.rest, d.key);
      FitsAbs(v, pool, d.rest);
      FitsValue(v, pool, d.value);
      var m, r := Abs(d), Abs(d.rest);
      forall k ensures k in m <==> k == d.key || k in r { }
      forall k | k in r ensures m[k] == r[k] { }
      assert m[d.key] == AbsValue(d.value);
      var sub := if d.value.Sub? then AllKeys(d.value.dict) else {};
      assert AllKeys(d) == {d.key} + sub + AllKeys(d.rest);
    }
  }

  lemma {:induction false} FitsValue(v: Version, pool: seq<string>, x: Value)
    requires ProperValue(x)
    ensures Fits(v, pool, AbsValue(x)) <==>
              WritableValue(v, x) && NewKeysStorable(v, pool, if x.Sub? then AllKeys(x.dict) else {})
    decreases x, 1
  {
    if x.Sub? {
      FitsAbs(v, pool, x.dict);
    }
  }

  // The rewrite's precondition depends on the tree alone.
  lemma {:induction false} RepresentableTree(v: Version, pool: seq<string>, d: Dict)
    requires Proper(d)
    ensures Representable(v, pool, d) <==> FitsAll(v, pool, Abs(d))
  {
    FitsAbs(v, pool, d);
  }

  // A longer pool holds no less.
  lemma {:induction false} FitsLonger(v: Version, pool: seq<string>, pool': seq<string>, t: Tree)
    requires Fits(v, pool, t) && pool <= pool'
    ensures Fits(v, pool', t)
    decreases t
  {
    hide Storable;
    if t.Branch? {
      forall k | k in t.children
        ensures KeyFits(v, pool', k) && Fits(v, pool', t.children[k])
      {
        FitsLonger(v, pool, pool', t.children[k]);
        assert k in pool ==> k in pool';
      }
    }
  }

  lemma {:induction false} FitsAllLonger(v: Version, pool: seq<string>, pool': seq<string>, m: map<string, Tree>)
    requires FitsAll(v, pool, m) && pool <= pool'
    ensures FitsAll(v, pool', m)
  {
    FitsLonger(v, pool, pool', Branch(m));
  }

  lemma {:induction false} FitsAt(v: Version, pool: seq<string>, t: map<string, Tree>, path: seq<string>)
    requires FitsAll(v, pool, t) && HasPath(t, path)
    ensures FitsAll(v, pool, TreeAt(t, path))
    decreases path
  {
    hide Storable;
    if path != [] {
      assert Fits(v, pool, t[path[0]]);
      FitsAt(v, pool, t[path[0]].children, path[1..]);
    }
  }

  lemma {:induction false} FitsGraft(
    v: Version, pool: seq<string>, t: map<string, Tree>, path: seq<string>, sub: map<string, Tree>)
    requires FitsAll(v, pool, t) && HasPath(t, path) && FitsAll(v, pool, sub)
    ensures FitsAll(v, pool, TreeGraft(t, path, sub))
    decreases path
  {
    hide Storable;
    if path != [] {
      var below := t[path[0]].children;
      assert Fits(v, pool, t[path[0]]);
      FitsGraft(v, pool, below, path[1..], sub);
      assert Fits(v, pool, Branch(TreeGraft(below, path[1..], sub)));
    }
  }
}
