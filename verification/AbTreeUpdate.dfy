/** Insertion and deletion keep the order and change the dictionary at their own key only. */
module AbTreeUpdate {
  import opened AbTree
  import opened AbTreeOrder
  import opened AbTreeSteps
  import opened AbTreeMeaning

  function Put<T>(s: seq<T>, i: nat, x: T): (r: seq<T>)
    requires i <= |s|
    ensures |r| == |s| + 1
    ensures forall j :: 0 <= j <= |s| ==> r[j] == if j < i then s[j] else if j == i then x else s[j - 1]
  {
    s[..i] + [x] + s[i..]
  }

  lemma Inserted(keys: seq<int>, key: int, lo: Option<int>, hi: Option<int>)
    requires Sorted(keys) && key !in keys && Within(lo, hi, key)
    requires forall x :: 0 <= x < |keys| ==> Within(lo, hi, keys[x])
    ensures var keys' := Put(keys, KeyIndex(keys, key), key);
            Sorted(keys') && forall x :: 0 <= x < |keys'| ==> Within(lo, hi, keys'[x])
  {
    var i := KeyIndex(keys, key);
    var keys' := Put(keys, i, key);
    hide Put, KeyIndex;
    forall x | i <= x < |keys| ensures key < keys[x] {
      assert keys[i] != key && (x > i ==> keys[i] < keys[x]);
    }
    hide Within;
    assert forall x :: 0 <= x < i ==> keys[x] < key;
    forall x, y | 0 <= x < y < |keys'| ensures keys'[x] < keys'[y] {
      if x != i && y != i { assert keys[if x < i then x else x - 1] < keys[if y < i then y else y - 1]; }
    }
  }

  lemma FindInserted(keys: seq<int>, vals: seq<Value>, i: nat, key: int, val: Value, k: int)
    requires |vals| == |keys| && Sorted(keys) && i <= |keys| && Sorted(Put(keys, i, key))
    ensures FindLeaf(Put(keys, i, key), Put(vals, i, val), k)
         == if k == key then Some(val) else FindLeaf(keys, vals, k)
  {
    var keys', vals' := Put(keys, i, key), Put(vals, i, val);
    FindLeafIs(keys, vals, k);
    FindLeafIs(keys', vals', k);
    hide FindLeaf, Put, Sorted;
    if k == key {
      assert keys'[i] == key && vals'[i] == val;
    } else if k in keys {
      var x :| 0 <= x < |keys| && keys[x] == k;
      var y := if x < i then x else x + 1;
      assert keys'[y] == k && vals'[y] == vals[x];
    }
  }

  /** What `k` is bound to once `key` was inserted: a present key keeps its value unless `replace` is set. */
  predicate AfterInsert(was: Option<Value>, key: int, val: Value, replace: bool, k: int, now: Option<Value>) {
    now == if k == key && (replace || was.None?) then Some(val) else was
  }

  lemma OverflowSame(keys: seq<int>, vals: seq<Value>, sk: int, isRoot: bool, lo: Option<int>, hi: Option<int>)
    requires |vals| == |keys| >= 2 && Ordered(Leaf(sk, keys, vals), lo, hi)
    ensures Same(Leaf(sk, keys, vals), Overflow(keys, vals, isRoot), lo, hi)
  {
    var l, h, n := Leaf(sk, keys, vals), |keys| / 2, Overflow(keys, vals, isRoot);
    assert Within(lo, hi, keys[h]);
    assert Ordered([l][0], KidLo([], lo, 0), KidHi([], hi, 0));
    SplitEquiv([], [l], 0, h, lo, hi);
    assert SplitKeys([], [l], 0, h) == n.keys && SplitKids([l], 0, h) == n.kids;
    hide OrderedList, SplitKeys, SplitKids;
    forall k ensures Find(l, k) == Find(n, k) {
      assert FindList([], [l], k) == FindList(n.keys, n.kids, k);
      assert ChildIndex([], k) == 0;
    }
  }

  lemma InsertLeafMeaning(l: Node, key: int, val: Value, replace: bool, isRoot: bool, D: nat, lo: Option<int>, hi: Option<int>)
    requires l.Leaf? && Ordered(l, lo, hi) && |l.keys| <= D && D >= 4 && Within(lo, hi, key)
    ensures var n := InsertLeaf(l, key, val, replace, isRoot, D);
            && Ordered(n, lo, hi) && Shape(n)
            && forall k :: AfterInsert(Find(l, k), key, val, replace, k, Find(n, k))
  {
    var i := KeyIndex(l.keys, key);
    var n := InsertLeaf(l, key, val, replace, isRoot, D);
    if i < |l.keys| && l.keys[i] == key {
      ReplacedLeaf(l, i, val, key, replace);
    } else {
      var m := Leaf(l.sk, Put(l.keys, i, key), Put(l.vals, i, val));
      GrownLeaf(l, key, val, lo, hi);
      if |l.keys| == D {
        OverflowSame(m.keys, m.vals, l.sk, isRoot, lo, hi);
      }
      hide Ordered, Put, KeyIndex, FindLeaf;
      forall k ensures AfterInsert(Find(l, k), key, val, replace, k, Find(n, k)) {
        assert Find(n, k) == Find(m, k);
      }
    }
  }

  lemma GrownLeaf(l: Node, key: int, val: Value, lo: Option<int>, hi: Option<int>)
    requires l.Leaf? && Ordered(l, lo, hi) && Within(lo, hi, key)
    requires var i := KeyIndex(l.keys, key); i == |l.keys| || l.keys[i] != key
    ensures var i := KeyIndex(l.keys, key);
            var m := Leaf(l.sk, Put(l.keys, i, key), Put(l.vals, i, val));
            && Ordered(m, lo, hi) && FindLeaf(l.keys, l.vals, key).None?
            && forall k :: Find(m, k) == if k == key then Some(val) else Find(l, k)
  {
    var i := KeyIndex(l.keys, key);
    FindLeafIs(l.keys, l.vals, key);
    assert key !in l.keys;
    Inserted(l.keys, key, lo, hi);
    var m := Leaf(l.sk, Put(l.keys, i, key), Put(l.vals, i, val));
    assert Ordered(m, lo, hi);
    hide Ordered, Put, KeyIndex, FindLeaf, Sorted;
    forall k ensures Find(m, k) == if k == key then Some(val) else Find(l, k) {
      FindInserted(l.keys, l.vals, i, key, val, k);
    }
  }

  lemma ReplacedLeaf(l: Node, i: nat, val: Value, key: int, replace: bool)
    requires l.Leaf? && |l.vals| == |l.keys| && Sorted(l.keys) && i < |l.keys| && l.keys[i] == key
    ensures forall k :: FindLeaf(l.keys, l.vals[i := val], k) == if k == key then Some(val) else FindLeaf(l.keys, l.vals, k)
    ensures FindLeaf(l.keys, l.vals, key).Some?
  {
    forall k ensures FindLeaf(l.keys, l.vals[i := val], k) == if k == key then Some(val) else FindLeaf(l.keys, l.vals, k) {
      FindLeafIs(l.keys, l.vals[i := val], k);
      FindLeafIs(l.keys, l.vals, k);
    }
    FindLeafIs(l.keys, l.vals, key);
  }

  /** Putting a new child under an ordered node; only searches that reach it may change. */
  lemma NewChild(n: Node, c: Node, i: nat, lo: Option<int>, hi: Option<int>)
    requires n.Inner? && Ordered(n, lo, hi) && i < |n.kids| == |n.keys| + 1 && Shape(n) && Shape(c)
    requires Ordered(c, KidLo(n.keys, lo, i), KidHi(n.keys, hi, i))
    ensures var n' := n.(kids := n.kids[i := c]);
            && Ordered(n', lo, hi) && Shape(n')
            && forall k :: Find(n', k) == if ChildIndex(n.keys, k) == i then Find(c, k) else Find(n, k)
  {
    var n' := n.(kids := n.kids[i := c]);
    forall j | 0 <= j < |n.kids|
      ensures Ordered(n'.kids[j], KidLo(n.keys, lo, j), KidHi(n.keys, hi, j)) && Shape(n'.kids[j])
    {
      assert Ordered(n.kids[j], KidLo(n.keys, lo, j), KidHi(n.keys, hi, j));
    }
    assert Ordered(n', lo, hi);
  }

  /** A key in the range of a node lies in the range of the child its search goes to. */
  lemma DescendWithin(n: Node, k: int, lo: Option<int>, hi: Option<int>)
    requires n.Inner? && |n.kids| == |n.keys| + 1 && Within(lo, hi, k)
    ensures var i := ChildIndex(n.keys, k); Within(KidLo(n.keys, lo, i), KidHi(n.keys, hi, i), k)
  {
  }

  lemma {:induction false} InsertMeaning(n: Node, key: int, val: Value, replace: bool, isRoot: bool, D: nat, lo: Option<int>, hi: Option<int>)
    requires Ordered(n, lo, hi) && Shape(n) && LeavesFit(n, D) && D >= 4 && Within(lo, hi, key)
    ensures var n' := Insert(n, key, val, replace, isRoot, D);
            && Ordered(n', lo, hi) && Shape(n')
            && forall k :: AfterInsert(Find(n, k), key, val, replace, k, Find(n', k))
  {
    if n.Leaf? {
      InsertLeafMeaning(n, key, val, replace, isRoot, D, lo, hi);
    } else {
      var i := ChildIndex(n.keys, key);
      var c := n.kids[i];
      DescendWithin(n, key, lo, hi);
      assert Ordered(c, KidLo(n.keys, lo, i), KidHi(n.keys, hi, i));
      InsertMeaning(c, key, val, replace, false, D, KidLo(n.keys, lo, i), KidHi(n.keys, hi, i));
      var c' := Insert(c, key, val, replace, false, D);
      NewChild(n, c', i, lo, hi);
      hide Ordered, KidLo, KidHi, LeavesFit;
      var n' := Insert(n, key, val, replace, isRoot, D);
      forall k ensures AfterInsert(Find(n, k), key, val, replace, k, Find(n', k)) {
        if ChildIndex(n.keys, k) == i {
          assert AfterInsert(Find(c, k), key, val, replace, k, Find(c', k));
        }
      }
    }
  }

  lemma Erased<T>(s: seq<T>, i: nat)
    requires i < |s|
    ensures Put(s[..i] + s[i + 1..], i, s[i]) == s
  {
  }

  lemma ErasedOrdered(l: Node, i: nat, lo: Option<int>, hi: Option<int>)
    requires l.Leaf? && Ordered(l, lo, hi) && i < |l.keys|
    ensures var keys := l.keys[..i] + l.keys[i + 1..];
            && Sorted(keys) && (forall x :: 0 <= x < |keys| ==> Within(lo, hi, keys[x]))
            && l.keys[i] !in keys && |l.vals| == |l.keys| && Sorted(l.keys)
  {
    var keys := l.keys[..i] + l.keys[i + 1..];
    forall x | 0 <= x < |keys|
      ensures Within(lo, hi, keys[x]) && keys[x] == l.keys[if x < i then x else x + 1] && keys[x] != l.keys[i]
    {
      assert Within(lo, hi, l.keys[if x < i then x else x + 1]);
    }
  }

  lemma EraseLeafMeaning(l: Node, key: int, lo: Option<int>, hi: Option<int>)
    requires l.Leaf? && Ordered(l, lo, hi)
    ensures var n := EraseLeaf(l, key);
            Ordered(n, lo, hi) && Shape(n) && forall k :: Find(n, k) == if k == key then None else Find(l, k)
  {
    var i := KeyIndex(l.keys, key);
    if i < |l.keys| && l.keys[i] == key {
      ErasedOrdered(l, i, lo, hi);
      Erased(l.keys, i);
      Erased(l.vals, i);
      assert Within(lo, hi, l.keys[0]);
      var n := EraseLeaf(l, key);
      assert Ordered(n, lo, hi);
      hide Ordered, Put, Sorted, KeyIndex;
      forall k ensures Find(n, k) == if k == key then None else Find(l, k) {
        FindInserted(n.keys, n.vals, i, key, l.vals[i], k);
        FindLeafIs(n.keys, n.vals, k);
        hide EraseLeaf;
      }
    } else {
      FindLeafIs(l.keys, l.vals, key);
    }
  }

  lemma {:induction false} EraseMeaning(n: Node, key: int, lo: Option<int>, hi: Option<int>)
    requires Ordered(n, lo, hi) && Shape(n)
    ensures var n' := Erase(n, key);
            Ordered(n', lo, hi) && Shape(n') && forall k :: Find(n', k) == if k == key then None else Find(n, k)
  {
    if n.Leaf? {
      EraseLeafMeaning(n, key, lo, hi);
    } else {
      var i := ChildIndex(n.keys, key);
      var c := n.kids[i];
      assert Ordered(c, KidLo(n.keys, lo, i), KidHi(n.keys, hi, i));
      EraseMeaning(c, key, KidLo(n.keys, lo, i), KidHi(n.keys, hi, i));
      var c' := Erase(c, key);
      NewChild(n, c', i, lo, hi);
      hide Ordered, KidLo, KidHi;
    }
  }

  // ----- search keys

  /** The node at the end of a path of child numbers. */
  function At(n: Node, path: seq<nat>): Option<Node> {
    if path == [] then Some(n)
    else if n.Inner? && path[0] < |n.kids| then At(n.kids[path[0]], path[1..])
    else None
  }

  /** The first `d` child numbers on the search path of `k`. */
  function SearchPath(n: Node, k: int, d: nat): seq<nat>
    requires Shape(n)
  {
    if d == 0 || n.Leaf? then []
    else var i := ChildIndex(n.keys, k); [i] + SearchPath(n.kids[i], k, d - 1)
  }

  /** Searching for the search key of any node of the tree runs down the path to that node. */
  lemma {:induction false} SearchKeyReachesNode(n: Node, path: seq<nat>, lo: Option<int>, hi: Option<int>)
    requires Ordered(n, lo, hi) && Shape(n) && At(n, path).Some?
    ensures Within(lo, hi, At(n, path).value.sk)
    ensures SearchPath(n, At(n, path).value.sk, |path|) == path
  {
    if path != [] {
      var i := path[0];
      assert Ordered(n.kids[i], KidLo(n.keys, lo, i), KidHi(n.keys, hi, i));
      SearchKeyReachesNode(n.kids[i], path[1..], KidLo(n.keys, lo, i), KidHi(n.keys, hi, i));
      if i > 0 { assert Inside(lo, hi, n.keys[i - 1]); }
      if i < |n.keys| { assert Inside(lo, hi, n.keys[i]); }
      ChildIndexIs(n.keys, At(n, path).value.sk, i);
    }
  }
}
