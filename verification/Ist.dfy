/** The interpolation search tree: nodes, search inside a node, search in the tree, and the pairs it holds. */
module Ist {

  type Value = int

  datatype Option<T> = None | Some(value: T)

  datatype KVPair = KVPair(k: int, v: Value)

  /** What a child pointer can be; `Rebuild` is a rebuild operation, which leads to the subtree it rebuilds. */
  datatype Slot =
    | Empty
    | Val(v: Value)
    | Pair(p: KVPair)
    | Child(node: Node)
    | Rebuild(node: Node)

  /** `sum` is what `markAndCount` recorded in the `dirty` field. */
  datatype Node = Node(keys: seq<int>, slots: seq<Slot>, sum: nat)

  predicate Shape(n: Node) {
    && |n.slots| == |n.keys| + 1 && !n.slots[0].Val?
    && forall i :: 0 <= i < |n.slots| && (n.slots[i].Child? || n.slots[i].Rebuild?) ==> Shape(n.slots[i].node)
  }

  // ----- search inside a node

  predicate Sorted(keys: seq<int>) {
    forall i, j :: 0 <= i < j < |keys| ==> keys[i] < keys[j]
  }

  /** The number of keys not above `key`. */
  predicate IsIndex(keys: seq<int>, key: int, r: int) {
    && 0 <= r <= |keys|
    && (forall i :: 0 <= i < r ==> keys[i] <= key)
    && forall i :: r <= i < |keys| ==> key < keys[i]
  }

  /** The guess is a valid position, so neither clamp after it is taken. */
  lemma GuessInRange(n: int, x: int, y: int)
    requires 0 <= x < y && n > 0
    ensures 0 <= n * x / y < n
  {
    assert 0 <= n * x < n * y;
    DivBelow(n * x, n, y);
  }

  lemma DivBelow(a: int, n: int, y: int)
    requires 0 <= a < n * y && y > 0
    ensures a / y < n
  {
    var q := a / y;
    assert q * y <= a;
    assert q >= n ==> q * y >= n * y;
  }

  /** Interpolation first, then a linear scan to the left or to the right. */
  method InterpolationSearch(keys: seq<int>, key: int) returns (r: int)
    requires Sorted(keys)
    ensures IsIndex(keys, key, r)
  {
    var numKeys := |keys|;
    if numKeys == 0 { return 0; }
    var minKey, maxKey := keys[0], keys[numKeys - 1];
    if key < minKey { return 0; }
    if key >= maxKey { return numKeys; }
    GuessInRange(numKeys, key - minKey, maxKey - minKey);
    var ix := numKeys * (key - minKey) / (maxKey - minKey);
    assert 0 <= ix < numKeys;
    if ix < 0 { ix := 0; }
    if ix >= numKeys { ix := numKeys; }
    var ixKey := keys[ix];
    if key < ixKey {
      var i := ix - 1;
      while i >= 0
        invariant -1 <= i < ix
        invariant forall j :: i < j < numKeys ==> key < keys[j]
      {
        if key >= keys[i] { return i + 1; }
        i := i - 1;
      }
      assert false;
      r := -1;
    } else if key > ixKey {
      var i := ix + 1;
      while i < numKeys
        invariant ix < i <= numKeys
        invariant forall j :: 0 <= j < i ==> keys[j] <= key
      {
        if key < keys[i] { return i; }
        i := i + 1;
      }
      assert false;
      r := -1;
    } else {
      r := ix + 1;
    }
  }

  function Index(keys: seq<int>, key: int): (r: nat)
    ensures r <= |keys|
    ensures Sorted(keys) ==> IsIndex(keys, key, r)
  {
    if keys == [] || key < keys[0] then 0 else 1 + Index(keys[1..], key)
  }

  lemma IndexUnique(keys: seq<int>, key: int, r: nat)
    requires Sorted(keys) && IsIndex(keys, key, r)
    ensures r == Index(keys, key)
  {
    var x := Index(keys, key);
    assert x < |keys| ==> key < keys[x];
    assert r < |keys| ==> key < keys[r];
  }

  // ----- search in the tree

  function Find(n: Node, key: int): Option<Value>
    requires Shape(n)
  {
    var ix := Index(n.keys, key);
    match n.slots[ix]
    case Empty => None
    case Val(v) => if n.keys[ix - 1] == key then Some(v) else None
    case Pair(p) => if p.k == key then Some(p.v) else None
    case Child(m) => Find(m, key)
    case Rebuild(m) => Find(m, key)
  }

  /** Search keys strictly increase in every node of the tree. */
  predicate KeysSorted(n: Node) {
    && Sorted(n.keys)
    && forall i :: 0 <= i < |n.slots| && (n.slots[i].Child? || n.slots[i].Rebuild?) ==> KeysSorted(n.slots[i].node)
  }

  method Search(root: Node, key: int) returns (r: Option<Value>)
    requires Shape(root) && KeysSorted(root)
    ensures r == Find(root, key)
  {
    var node := root;
    while true
      invariant Shape(node) && KeysSorted(node) && Find(node, key) == Find(root, key)
      decreases node
    {
      var ix := InterpolationSearch(node.keys, key);
      IndexUnique(node.keys, key, ix);
      match node.slots[ix]
      case Empty => return None;
      case Val(v) => return if node.keys[ix - 1] == key then Some(v) else None;
      case Pair(p) => return if p.k == key then Some(p.v) else None;
      case Child(m) => node := m;
      case Rebuild(m) => node := m;
    }
  }

  // ----- the pairs of a tree, in order

  function SlotPairs(n: Node, i: nat): seq<KVPair>
    requires Shape(n) && i < |n.slots|
    decreases n, 0, 0
  {
    match n.slots[i]
    case Empty => []
    case Val(v) => [KVPair(n.keys[i - 1], v)]
    case Pair(p) => [p]
    case Child(m) => Pairs(m)
    case Rebuild(m) => Pairs(m)
  }

  function PairsUpTo(n: Node, i: nat): seq<KVPair>
    requires Shape(n) && i <= |n.slots|
    decreases n, 1, i
  {
    if i == 0 then [] else PairsUpTo(n, i - 1) + SlotPairs(n, i - 1)
  }

  function Pairs(n: Node): seq<KVPair>
    requires Shape(n)
    decreases n, 2, 0
  {
    PairsUpTo(n, |n.slots|)
  }

  predicate Within(lo: Option<int>, hi: Option<int>, k: int) {
    (lo.Some? ==> lo.value <= k) && (hi.Some? ==> k < hi.value)
  }

  function KidLo(keys: seq<int>, lo: Option<int>, i: nat): Option<int>
    requires i <= |keys|
  {
    if i == 0 then lo else Some(keys[i - 1])
  }

  function KidHi(keys: seq<int>, hi: Option<int>, i: nat): Option<int>
    requires i <= |keys|
  {
    if i == |keys| then hi else Some(keys[i])
  }

  predicate SlotOrdered(s: Slot, lo: Option<int>, hi: Option<int>)
    decreases s, 0
  {
    match s
    case Empty => true
    case Val(_) => lo.Some? && Within(lo, hi, lo.value)
    case Pair(p) => Within(lo, hi, p.k)
    case Child(m) => Ordered(m, lo, hi)
    case Rebuild(m) => Ordered(m, lo, hi)
  }

  /** Every key below slot `i` lies between the keys around the slot. */
  predicate Ordered(n: Node, lo: Option<int>, hi: Option<int>)
    decreases n, 1
  {
    && |n.slots| == |n.keys| + 1 && !n.slots[0].Val? && Sorted(n.keys)
    && (forall i :: 0 <= i < |n.keys| ==> Within(lo, hi, n.keys[i]))
    && forall i :: 0 <= i < |n.slots| ==> SlotOrdered(n.slots[i], KidLo(n.keys, lo, i), KidHi(n.keys, hi, i))
  }

  lemma {:induction false} OrderedShape(n: Node, lo: Option<int>, hi: Option<int>)
    requires Ordered(n, lo, hi)
    ensures Shape(n) && KeysSorted(n)
  {
    forall i | 0 <= i < |n.slots| && (n.slots[i].Child? || n.slots[i].Rebuild?)
      ensures Shape(n.slots[i].node) && KeysSorted(n.slots[i].node)
    {
      assert SlotOrdered(n.slots[i], KidLo(n.keys, lo, i), KidHi(n.keys, hi, i));
      OrderedShape(n.slots[i].node, KidLo(n.keys, lo, i), KidHi(n.keys, hi, i));
    }
  }

  predicate AllWithin(s: seq<KVPair>, lo: Option<int>, hi: Option<int>) {
    forall i :: 0 <= i < |s| ==> Within(lo, hi, s[i].k)
  }

  predicate PairsSorted(s: seq<KVPair>) {
    forall i, j :: 0 <= i < j < |s| ==> s[i].k < s[j].k
  }

  /** The pairs below a slot lie in its range, in order. */
  lemma {:induction false} SlotPairsWithin(n: Node, i: nat, lo: Option<int>, hi: Option<int>)
    requires Ordered(n, lo, hi) && Shape(n) && i < |n.slots|
    ensures AllWithin(SlotPairs(n, i), KidLo(n.keys, lo, i), KidHi(n.keys, hi, i)) && PairsSorted(SlotPairs(n, i))
    decreases n, 0, 0
  {
    assert SlotOrdered(n.slots[i], KidLo(n.keys, lo, i), KidHi(n.keys, hi, i));
    hide Pairs;
    if n.slots[i].Child? || n.slots[i].Rebuild? {
      PairsWithin(n.slots[i].node, KidLo(n.keys, lo, i), KidHi(n.keys, hi, i));
    }
  }

  lemma {:induction false} PairsWithin(n: Node, lo: Option<int>, hi: Option<int>)
    requires Ordered(n, lo, hi) && Shape(n)
    ensures AllWithin(Pairs(n), lo, hi) && PairsSorted(Pairs(n))
    decreases n, 2, 0
  {
    PairsUpToWithin(n, |n.slots|, lo, hi);
  }

  lemma {:induction false} PairsUpToWithin(n: Node, i: nat, lo: Option<int>, hi: Option<int>)
    requires Ordered(n, lo, hi) && Shape(n) && i <= |n.slots|
    ensures PairsSorted(PairsUpTo(n, i))
    ensures AllWithin(PairsUpTo(n, i), lo, if i == 0 || i == |n.slots| then hi else KidHi(n.keys, hi, i - 1))
    decreases n, 1, i
  {
    if i > 0 {
      PairsUpToWithin(n, i - 1, lo, hi);
      SlotPairsWithin(n, i - 1, lo, hi);
      JoinWithin(n, i - 1, PairsUpTo(n, i - 1), SlotPairs(n, i - 1), lo, hi);
    }
  }

  lemma JoinWithin(n: Node, i: nat, a: seq<KVPair>, b: seq<KVPair>, lo: Option<int>, hi: Option<int>)
    requires Ordered(n, lo, hi) && i < |n.slots| && PairsSorted(a) && PairsSorted(b)
    requires AllWithin(a, lo, if i == 0 then hi else KidHi(n.keys, hi, i - 1)) && (i == 0 ==> a == [])
    requires AllWithin(b, KidLo(n.keys, lo, i), KidHi(n.keys, hi, i))
    ensures PairsSorted(a + b)
    ensures AllWithin(a + b, lo, if i + 1 == |n.slots| then hi else KidHi(n.keys, hi, i))
  {
    if i > 0 { assert Within(lo, hi, n.keys[i - 1]); }
    if i < |n.keys| { assert Within(lo, hi, n.keys[i]); }
    hide Ordered;
  }

  // ----- search finds exactly the pairs

  lemma InPairs(n: Node, i: nat, p: KVPair)
    requires Shape(n) && i <= |n.slots| && p in PairsUpTo(n, i)
    ensures exists j :: 0 <= j < i && p in SlotPairs(n, j)
  {
    if i > 0 && p !in SlotPairs(n, i - 1) { InPairs(n, i - 1, p); }
  }

  lemma {:induction false} SlotInPairs(n: Node, i: nat, j: nat, p: KVPair)
    requires Shape(n) && j < i <= |n.slots| && p in SlotPairs(n, j)
    ensures p in PairsUpTo(n, i)
  {
    if i > j + 1 { SlotInPairs(n, i - 1, j, p); }
  }

  /** Search returns a value for a key exactly when the tree holds that pair. */
  lemma {:induction false} FindIsMembership(n: Node, lo: Option<int>, hi: Option<int>, key: int, v: Value)
    requires Ordered(n, lo, hi) && Shape(n)
    ensures Find(n, key) == Some(v) <==> KVPair(key, v) in Pairs(n)
    decreases n, 1
  {
    var ix := Index(n.keys, key);
    var p := KVPair(key, v);
    FoundInSlot(n, ix, lo, hi, key, v);
    if p in SlotPairs(n, ix) {
      SlotInPairs(n, |n.slots|, ix, p);
    }
    if p in Pairs(n) {
      InPairs(n, |n.slots|, p);
      var j :| 0 <= j < |n.slots| && p in SlotPairs(n, j);
      SlotPairsWithin(n, j, lo, hi);
      assert Within(KidLo(n.keys, lo, j), KidHi(n.keys, hi, j), key);
      SlotOf(n.keys, lo, hi, j, key);
    }
  }

  lemma SlotOf(keys: seq<int>, lo: Option<int>, hi: Option<int>, j: nat, key: int)
    requires Sorted(keys) && j <= |keys| && Within(KidLo(keys, lo, j), KidHi(keys, hi, j), key)
    ensures j == Index(keys, key)
  {
    assert IsIndex(keys, key, j);
    IndexUnique(keys, key, j);
  }

  lemma {:induction false} FoundInSlot(n: Node, ix: nat, lo: Option<int>, hi: Option<int>, key: int, v: Value)
    requires Ordered(n, lo, hi) && Shape(n) && ix == Index(n.keys, key)
    ensures Find(n, key) == Some(v) <==> KVPair(key, v) in SlotPairs(n, ix)
    decreases n, 0
  {
    assert SlotOrdered(n.slots[ix], KidLo(n.keys, lo, ix), KidHi(n.keys, hi, ix));
    if n.slots[ix].Child? || n.slots[ix].Rebuild? {
      FindIsMembership(n.slots[ix].node, KidLo(n.keys, lo, ix), KidHi(n.keys, hi, ix), key, v);
    }
  }

  /** Two ordered trees that hold the same pairs answer every search alike. */
  lemma SamePairsSameFind(n: Node, n': Node, lo: Option<int>, hi: Option<int>, key: int)
    requires Ordered(n, lo, hi) && Ordered(n', lo, hi) && Shape(n) && Shape(n') && Pairs(n) == Pairs(n')
    ensures Find(n, key) == Find(n', key)
  {
    hide Ordered, Find;
    if Find(n, key).Some? {
      FindIsMembership(n, lo, hi, key, Find(n, key).value);
      FindIsMembership(n', lo, hi, key, Find(n, key).value);
    } else if Find(n', key).Some? {
      FindIsMembership(n, lo, hi, key, Find(n', key).value);
      FindIsMembership(n', lo, hi, key, Find(n', key).value);
    }
  }
}
