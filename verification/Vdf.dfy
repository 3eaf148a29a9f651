// Valve's nested dictionaries. A Dict is a Python dict: distinct keys in
// insertion order. A Tree is the same value with the order forgotten, which is
// what Python's `==` on dictionaries and a JSON file with sorted keys preserve.
module Vdf {
  import opened Wrappers

  datatype Value = Sub(dict: Dict) | Text(text: string) | Num(num: int)

  datatype Dict = Empty | Entry(key: string, value: Value, rest: Dict)

  datatype Tree = Branch(children: map<string, Tree>) | Leaf(text: string) | Count(num: int)

  // --- Dictionary operations ----------------------------------------------

  // d.get(key)
  function Get(d: Dict, key: string): Option<Value> {
    match d
    case Empty => None
    case Entry(k, v, rest) => if k == key then Some(v) else Get(rest, key)
  }

  predicate Has(d: Dict, key: string) {
    Get(d, key).Some?
  }

  // d[key] = value: in place when the key is present, at the end otherwise
  function Put(d: Dict, key: string, value: Value): Dict {
    match d
    case Empty => Entry(key, value, Empty)
    case Entry(k, v, rest) => if k == key then Entry(k, value, rest) else Entry(k, v, Put(rest, key, value))
  }

  // del d[key]
  function Del(d: Dict, key: string): Dict {
    match d
    case Empty => Empty
    case Entry(k, v, rest) => if k == key then rest else Entry(k, v, Del(rest, key))
  }

  function Append(a: Dict, b: Dict): Dict {
    match a
    case Empty => b
    case Entry(k, v, rest) => Entry(k, v, Append(rest, b))
  }

  function Keys(d: Dict): set<string> {
    match d
    case Empty => {}
    case Entry(k, _, rest) => {k} + Keys(rest)
  }

  // Keys are distinct at every level, as in every Python dict.
  predicate Proper(d: Dict) {
    match d
    case Empty => true
    case Entry(k, v, rest) => !Has(rest, k) && ProperValue(v) && Proper(rest)
  }

  predicate ProperValue(v: Value) {
    v.Sub? ==> Proper(v.dict)
  }

  // --- Order-free view ------------------------------------------------------

  function Abs(d: Dict): map<string, Tree> {
    match d
    case Empty => map[]
    case Entry(k, v, rest) => Abs(rest)[k := AbsValue(v)]
  }

  function AbsValue(v: Value): Tree {
    match v
    case Sub(d) => Branch(Abs(d))
    case Text(s) => Leaf(s)
    case Num(n) => Count(n)
  }

  function AbsOption(o: Option<Value>): Option<Tree> {
    match o
    case None => None
    case Some(v) => Some(AbsValue(v))
  }

  lemma {:induction false} AbsGet(d: Dict, key: string)
    ensures Has(d, key) <==> key in Abs(d)
    ensures Has(d, key) ==> Abs(d)[key] == AbsValue(Get(d, key).value)
  {
    if d.Entry? {
      AbsGet(d.rest, key);
    }
  }

  lemma {:induction false} AbsPut(d: Dict, key: string, value: Value)
    ensures Abs(Put(d, key, value)) == Abs(d)[key := AbsValue(value)]
  {
    if d.Entry? {
      AbsPut(d.rest, key, value);
    }
  }

  lemma {:induction false} AbsDel(d: Dict, key: string)
    requires Proper(d)
    ensures Abs(Del(d, key)) == Abs(d) - {key}
  {
    if d.Entry? {
      AbsDel(d.rest, key);
      AbsGet(d.rest, d.key);
    }
  }

  lemma {:induction false} GetPut(d: Dict, key: string, value: Value, other: string)
    ensures Get(Put(d, key, value), other) == if other == key then Some(value) else Get(d, other)
  {
    if d.Entry? {
      GetPut(d.rest, key, value, other);
    }
  }

  lemma {:induction false} GetDel(d: Dict, key: string, other: string)
    requires Proper(d)
    ensures Get(Del(d, key), other) == if other == key then None else Get(d, other)
  {
    if d.Entry? {
      GetDel(d.rest, key, other);
    }
  }

  lemma {:induction false} ProperPut(d: Dict, key: string, value: Value)
    requires Proper(d) && ProperValue(value)
    ensures Proper(Put(d, key, value))
  {
    if d.Entry? {
      ProperPut(d.rest, key, value);
      GetPut(d.rest, key, value, d.key);
    }
  }

  lemma {:induction false} ProperDel(d: Dict, key: string)
    requires Proper(d)
    ensures Proper(Del(d, key))
  {
    if d.Entry? {
      ProperDel(d.rest, key);
      GetDel(d.rest, key, d.key);
    }
  }

  lemma {:induction false} ProperGet(d: Dict, key: string)
    requires Proper(d) && Has(d, key)
    ensures ProperValue(Get(d, key).value)
  {
    if d.key != key {
      ProperGet(d.rest, key);
    }
  }

  // Writing back what is there changes nothing, not even the order.
  lemma {:induction false} PutSame(d: Dict, key: string)
    requires Has(d, key)
    ensures Put(d, key, Get(d, key).value) == d
  {
    if d.key != key {
      PutSame(d.rest, key);
    }
  }

  lemma {:induction false} PutPut(d: Dict, key: string, v: Value, w: Value)
    ensures Put(Put(d, key, v), key, w) == Put(d, key, w)
  {
    if d.Entry? {
      PutPut(d.rest, key, v, w);
    }
  }

  // --- Subdictionaries by path ----------------------------------------------

  // d[path[0]][path[1]]... when every step finds a dictionary
  function Find(d: Dict, path: seq<string>): Option<Dict>
    decreases path
  {
    if path == [] then Some(d)
    else match Get(d, path[0])
      case Some(Sub(e)) => Find(e, path[1..])
      case _ => None
  }

  // d with the dictionary at an existing path replaced
  function Graft(d: Dict, path: seq<string>, sub: Dict): (r: Dict)
    requires Find(d, path).Some?
    decreases path
  {
    if path == [] then sub
    else Put(d, path[0], Sub(Graft(Get(d, path[0]).value.dict, path[1..], sub)))
  }

  lemma {:induction false} FindGraft(d: Dict, path: seq<string>, sub: Dict)
    requires Find(d, path).Some?
    ensures Find(Graft(d, path, sub), path) == Some(sub)
    decreases path
  {
    if path != [] {
      var e := Get(d, path[0]).value.dict;
      FindGraft(e, path[1..], sub);
      GetPut(d, path[0], Sub(Graft(e, path[1..], sub)), path[0]);
    }
  }

  lemma {:induction false} GraftFind(d: Dict, path: seq<string>)
    requires Find(d, path).Some?
    ensures Graft(d, path, Find(d, path).value) == d
    decreases path
  {
    if path != [] {
      GraftFind(Get(d, path[0]).value.dict, path[1..]);
      PutSame(d, path[0]);
    }
  }

  lemma {:induction false} GraftGraft(d: Dict, path: seq<string>, a: Dict, b: Dict)
    requires Find(d, path).Some?
    ensures Find(Graft(d, path, a), path).Some? && Graft(Graft(d, path, a), path, b) == Graft(d, path, b)
    decreases path
  {
    FindGraft(d, path, a);
    if path != [] {
      var e := Get(d, path[0]).value.dict;
      var v, w := Sub(Graft(e, path[1..], a)), Sub(Graft(e, path[1..], b));
      GraftGraft(e, path[1..], a, b);
      GetPut(d, path[0], v, path[0]);
      PutPut(d, path[0], v, w);
    }
  }

  lemma {:induction false} ProperFind(d: Dict, path: seq<string>)
    requires Proper(d) && Find(d, path).Some?
    ensures Proper(Find(d, path).value)
    decreases path
  {
    if path != [] {
      ProperGet(d, path[0]);
      ProperFind(Get(d, path[0]).value.dict, path[1..]);
    }
  }

  lemma {:induction false} ProperGraft(d: Dict, path: seq<string>, sub: Dict)
    requires Proper(d) && Proper(sub) && Find(d, path).Some?
    ensures Proper(Graft(d, path, sub))
    decreases path
  {
    if path != [] {
      var e := Get(d, path[0]).value.dict;
      ProperGet(d, path[0]);
      ProperGraft(e, path[1..], sub);
      ProperPut(d, path[0], Sub(Graft(e, path[1..], sub)));
    }
  }

  // --- The same on trees ----------------------------------------------------

  predicate HasPath(t: map<string, Tree>, path: seq<string>)
    decreases path
  {
    path == [] || (path[0] in t && t[path[0]].Branch? && HasPath(t[path[0]].children, path[1..]))
  }

  function TreeAt(t: map<string, Tree>, path: seq<string>): map<string, Tree>
    requires HasPath(t, path)
    decreases path
  {
    if path == [] then t else TreeAt(t[path[0]].children, path[1..])
  }

  function TreeGraft(t: map<string, Tree>, path: seq<string>, sub: map<string, Tree>): map<string, Tree>
    requires HasPath(t, path)
    decreases path
  {
    if path == [] then sub
    else t[path[0] := Branch(TreeGraft(t[path[0]].children, path[1..], sub))]
  }

  lemma {:induction false} AbsFind(d: Dict, path: seq<string>)
    ensures Find(d, path).Some? <==> HasPath(Abs(d), path)
    ensures Find(d, path).Some? ==> Abs(Find(d, path).value) == TreeAt(Abs(d), path)
    decreases path
  {
    if path != [] {
      AbsGet(d, path[0]);
      if Has(d, path[0]) && Get(d, path[0]).value.Sub? {
        AbsFind(Get(d, path[0]).value.dict, path[1..]);
      }
    }
  }

  lemma {:induction false} AbsGraft(d: Dict, path: seq<string>, sub: Dict)
    requires Find(d, path).Some?
    ensures HasPath(Abs(d), path)
    ensures Abs(Graft(d, path, sub)) == TreeGraft(Abs(d), path, Abs(sub))
    decreases path
  {
    AbsFind(d, path);
    if path != [] {
      var e := Get(d, path[0]).value.dict;
      AbsGet(d, path[0]);
      AbsGraft(e, path[1..], sub);
      AbsPut(d, path[0], Sub(Graft(e, path[1..], sub)));
    }
  }

  // --- Two places that do not touch -----------------------------------------

  predicate Diverge(p: seq<string>, q: seq<string>)
    decreases p
  {
    p != [] && q != [] && (p[0] != q[0] || Diverge(p[1..], q[1..]))
  }

  lemma {:induction false} FindGraftOther(d: Dict, p: seq<string>, sub: Dict, q: seq<string>)
    requires Find(d, p).Some? && Diverge(p, q)
    ensures Find(Graft(d, p, sub), q) == Find(d, q)
    decreases p
  {
    var e := Get(d, p[0]).value.dict;
    GetPut(d, p[0], Sub(Graft(e, p[1..], sub)), q[0]);
    if p[0] == q[0] {
      FindGraftOther(e, p[1..], sub, q[1..]);
    }
  }

  lemma {:induction false} TreeGraftOther(t: map<string, Tree>, p: seq<string>, sub: map<string, Tree>, q: seq<string>)
    requires HasPath(t, p) && HasPath(t, q) && Diverge(p, q)
    ensures HasPath(TreeGraft(t, p, sub), q) && TreeAt(TreeGraft(t, p, sub), q) == TreeAt(t, q)
    decreases p
  {
    if p[0] == q[0] {
      TreeGraftOther(t[p[0]].children, p[1..], sub, q[1..]);
    }
  }

  lemma {:induction false} TreeGraftSame(
    t: map<string, Tree>, p: seq<string>, a: map<string, Tree>, b: map<string, Tree>)
    requires HasPath(t, p)
    ensures HasPath(TreeGraft(t, p, a), p) && TreeAt(TreeGraft(t, p, a), p) == a
    ensures TreeGraft(TreeGraft(t, p, a), p, b) == TreeGraft(t, p, b)
    ensures TreeGraft(t, p, TreeAt(t, p)) == t
    decreases p
  {
    if p != [] {
      var e := t[p[0]].children;
      TreeGraftSame(e, p[1..], a, b);
      assert TreeGraft(t, p, a)[p[0]].children == TreeGraft(e, p[1..], a);
      assert t[p[0] := Branch(e)] == t;
    }
  }

  lemma {:induction false} TreeGraftSwap(
    t: map<string, Tree>, p: seq<string>, a: map<string, Tree>, q: seq<string>, b: map<string, Tree>)
    requires HasPath(t, p) && HasPath(t, q) && Diverge(p, q) && Diverge(q, p)
    ensures HasPath(TreeGraft(t, p, a), q) && HasPath(TreeGraft(t, q, b), p)
    ensures TreeGraft(TreeGraft(t, p, a), q, b) == TreeGraft(TreeGraft(t, q, b), p, a)
    decreases p
  {
    TreeGraftOther(t, p, a, q);
    TreeGraftOther(t, q, b, p);
    if p[0] == q[0] {
      TreeGraftSwap(t[p[0]].children, p[1..], a, q[1..], b);
    }
  }

  // --- Adding new keys at the end -------------------------------------------

  lemma {:induction false} PutFresh(acc: Dict, key: string, value: Value, rest: Dict)
    requires !Has(acc, key)
    ensures Append(Put(acc, key, value), rest) == Append(acc, Entry(key, value, rest))
  {
    if acc.Entry? {
      PutFresh(acc.rest, key, value, rest);
    }
  }

  // The keys of `d` are new to `acc`.
  ghost predicate Fresh(d: Dict, acc: Dict) {
    forall k :: Has(d, k) ==> !Has(acc, k)
  }

  lemma {:induction false} FreshRest(key: string, value: Value, rest: Dict, acc: Dict)
    requires Fresh(Entry(key, value, rest), acc) && !Has(rest, key)
    ensures Fresh(rest, Put(acc, key, value)) && !Has(acc, key)
  {
    assert Has(Entry(key, value, rest), key);
    forall j | Has(rest, j)
      ensures !Has(Put(acc, key, value), j)
    {
      assert Has(Entry(key, value, rest), j);
      GetPut(acc, key, value, j);
    }
  }

  lemma {:induction false} AppendEmpty(d: Dict)
    ensures Append(d, Empty) == d
  {
    if d.Entry? {
      AppendEmpty(d.rest);
    }
  }
}
