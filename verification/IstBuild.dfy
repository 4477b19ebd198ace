/** Building ideal subtrees, and why a rebuilt tree answers every search as the frozen one did. */
module IstBuild {
  import opened Ist
  import opened IstRebuild

  const MAX_ACCEPTABLE_LEAF_SIZE := 48

  // ----- leaves

  function LeafOf(pairs: seq<KVPair>): Node {
    Node(seq(|pairs|, i requires 0 <= i < |pairs| => pairs[i].k),
         [Empty] + seq(|pairs|, i requires 0 <= i < |pairs| => Val(pairs[i].v)), 0)
  }

  method CreateLeaf(pairs: seq<KVPair>) returns (n: Node)
    ensures n == LeafOf(pairs)
  {
    var keys, slots := [], [Empty];
    for i := 0 to |pairs|
      invariant |keys| == i && forall j :: 0 <= j < i ==> keys[j] == pairs[j].k
      invariant |slots| == i + 1 && slots[0] == Empty && forall j :: 0 <= j < i ==> slots[j + 1] == Val(pairs[j].v)
    {
      keys := keys + [pairs[i].k];
      slots := slots + [Val(pairs[i].v)];
    }
    n := Node(keys, slots, 0);
    assert n.keys == LeafOf(pairs).keys && n.slots == LeafOf(pairs).slots;
  }

  lemma {:induction false} LeafPairsUpTo(pairs: seq<KVPair>, i: nat)
    requires i <= |pairs|
    ensures Shape(LeafOf(pairs)) && PairsUpTo(LeafOf(pairs), i + 1) == pairs[..i]
  {
    var n := LeafOf(pairs);
    if i == 0 {
      assert PairsUpTo(n, 1) == PairsUpTo(n, 0) + SlotPairs(n, 0);
    } else {
      LeafPairsUpTo(pairs, i - 1);
      assert SlotPairs(n, i) == [pairs[i - 1]];
      assert pairs[..i] == pairs[..i - 1] + [pairs[i - 1]];
    }
  }

  /** Ordered in any range that holds all its pairs. */
  ghost predicate OrderedOver(n: Node, pairs: seq<KVPair>) {
    forall lo, hi :: AllWithin(pairs, lo, hi) ==> Ordered(n, lo, hi)
  }

  lemma LeafHolds(pairs: seq<KVPair>)
    requires PairsSorted(pairs)
    ensures Shape(LeafOf(pairs)) && Pairs(LeafOf(pairs)) == pairs && OrderedOver(LeafOf(pairs), pairs)
  {
    LeafPairsUpTo(pairs, |pairs|);
    var n := LeafOf(pairs);
    forall lo, hi | AllWithin(pairs, lo, hi) ensures Ordered(n, lo, hi) {
      forall i | 0 <= i < |n.slots| ensures SlotOrdered(n.slots[i], KidLo(n.keys, lo, i), KidHi(n.keys, hi, i)) {
        if i > 0 {
          assert n.slots[i] == Val(pairs[i - 1].v) && Within(lo, hi, pairs[i - 1].k);
          assert i < |pairs| ==> pairs[i - 1].k < pairs[i].k;
        }
      }
      forall i | 0 <= i < |n.keys| ensures Within(lo, hi, n.keys[i]) {
        assert Within(lo, hi, pairs[i].k);
      }
    }
  }

  // ----- internal nodes over consecutive parts

  ghost predicate Holds(s: Slot, pairs: seq<KVPair>) {
    s.Child? && Shape(s.node) && Pairs(s.node) == pairs && OrderedOver(s.node, pairs)
  }

  /** A node whose child `i` holds part `i`, separated by the first keys of the parts. */
  ghost predicate OverParts(s: seq<KVPair>, children: nat, keys: seq<int>, slots: seq<Slot>) {
    && children >= 2 && |slots| == children && |keys| == children - 1
    && (forall i :: 0 <= i < children ==> Part(s, children, i) != [] && Holds(slots[i], Part(s, children, i)))
    && forall i :: 1 <= i < children ==> keys[i - 1] == Part(s, children, i)[0].k
  }

  lemma OverPartsShape(s: seq<KVPair>, children: nat, keys: seq<int>, slots: seq<Slot>)
    requires OverParts(s, children, keys, slots)
    ensures Shape(Node(keys, slots, 0))
  {
    var n := Node(keys, slots, 0);
    forall i | 0 <= i < |n.slots| ensures n.slots[i].Child? && Shape(n.slots[i].node) {
      assert Holds(slots[i], Part(s, children, i));
    }
  }

  lemma {:induction false} OverPartsPairs(s: seq<KVPair>, children: nat, keys: seq<int>, slots: seq<Slot>, i: nat)
    requires OverParts(s, children, keys, slots) && i <= children && Shape(Node(keys, slots, 0))
    ensures PairsUpTo(Node(keys, slots, 0), i) == Parts(s, children, i)
  {
    if i > 0 {
      OverPartsPairs(s, children, keys, slots, i - 1);
      assert Holds(slots[i - 1], Part(s, children, i - 1));
      hide Pairs, Part;
    }
  }

  lemma PartElement(s: seq<KVPair>, children: nat, i: nat, x: nat)
    requires i < children && x < |Part(s, children, i)|
    ensures var st := Start(|s|, children, i);
            && st + x < |s| && Part(s, children, i)[x] == s[st + x]
            && st + x < Start(|s|, children, i + 1)
  {
    StartInRange(|s|, children, i + 1);
    StartMonotone(|s|, children, i, i + 1);
    hide Start;
  }

  /** The first key of a later part is above every key of an earlier one. */
  lemma PartsApart(s: seq<KVPair>, children: nat, i: nat, j: nat, x: nat, y: nat)
    requires PairsSorted(s) && i < j < children && x < |Part(s, children, i)| && y < |Part(s, children, j)|
    ensures Part(s, children, i)[x].k < Part(s, children, j)[y].k
  {
    PartElement(s, children, i, x);
    PartElement(s, children, j, y);
    StartMonotone(|s|, children, i + 1, j);
    hide Start, Part;
  }

  lemma PartWithin(s: seq<KVPair>, children: nat, keys: seq<int>, slots: seq<Slot>, i: nat, lo: Option<int>, hi: Option<int>)
    requires PairsSorted(s) && OverParts(s, children, keys, slots) && AllWithin(s, lo, hi) && i < children
    ensures AllWithin(Part(s, children, i), KidLo(keys, lo, i), KidHi(keys, hi, i))
  {
    var p := Part(s, children, i);
    forall x | 0 <= x < |p| ensures Within(KidLo(keys, lo, i), KidHi(keys, hi, i), p[x].k) {
      PartElement(s, children, i, x);
      assert Within(lo, hi, s[Start(|s|, children, i) + x].k);
      if i > 0 {
        PartElement(s, children, i, 0);
      }
      if i < children - 1 {
        PartsApart(s, children, i, i + 1, x, 0);
      }
      hide Part, Start, Holds;
    }
  }

  lemma OverPartsKeys(s: seq<KVPair>, children: nat, keys: seq<int>, slots: seq<Slot>, lo: Option<int>, hi: Option<int>)
    requires PairsSorted(s) && OverParts(s, children, keys, slots) && AllWithin(s, lo, hi)
    ensures Sorted(keys) && forall i :: 0 <= i < |keys| ==> Within(lo, hi, keys[i])
  {
    forall i, j | 0 <= i < j < |keys| ensures keys[i] < keys[j] {
      PartsApart(s, children, i + 1, j + 1, 0, 0);
      hide Part, Holds;
    }
    forall i | 0 <= i < |keys| ensures Within(lo, hi, keys[i]) {
      PartElement(s, children, i + 1, 0);
      hide Part, Holds, Start;
    }
  }

  /** Such a node holds the whole list, in order. */
  lemma OverPartsHolds(s: seq<KVPair>, children: nat, keys: seq<int>, slots: seq<Slot>)
    requires PairsSorted(s) && OverParts(s, children, keys, slots)
    ensures Holds(Child(Node(keys, slots, 0)), s)
  {
    var n := Node(keys, slots, 0);
    OverPartsShape(s, children, keys, slots);
    OverPartsPairs(s, children, keys, slots, children);
    SlicesMeet(|s|, children, 0);
    PartsPartition(s, children, children);
    forall lo, hi | AllWithin(s, lo, hi) ensures Ordered(n, lo, hi) {
      OverPartsKeys(s, children, keys, slots, lo, hi);
      forall i | 0 <= i < |n.slots| ensures SlotOrdered(n.slots[i], KidLo(n.keys, lo, i), KidHi(n.keys, hi, i)) {
        PartWithin(s, children, keys, slots, i, lo, hi);
        assert Holds(slots[i], Part(s, children, i));
        hide Part, Ordered, AllWithin;
      }
      assert !n.slots[0].Val? by { assert Holds(slots[0], Part(s, children, 0)); }
      hide Part, Holds, AllWithin;
    }
  }

  // ----- the builder

  /** With more pairs than fit in a leaf, every child gets at least two and fewer than all. */
  lemma ChildSizes(total: nat, children: nat, i: nat)
    requires total > MAX_ACCEPTABLE_LEAF_SIZE && children * children >= total && (children - 1) * (children - 1) < total
    requires children >= 1 && i < children
    ensures children >= 7 && 2 <= ChildSize(total, children, i) < total
  {
    assert children <= 6 ==> children * children <= 6 * children;
    var q, r := total / children, total % children;
    assert (children - 1) * (children - 1) == children * (children - 2) + 1;
    Quotient(total, children, q, r);
  }

  lemma Quotient(total: nat, children: nat, q: nat, r: nat)
    requires children >= 7 && total == children * q + r && r < children && total > children * (children - 2)
    ensures 2 <= q && q + 1 < total
  {
    assert children * (children - 2) >= children * 5;
    assert q <= 1 ==> children * q <= children;
    assert children * q >= 7 * q;
  }

  lemma PartSorted(s: seq<KVPair>, children: nat, i: nat)
    requires PairsSorted(s) && i < children
    ensures PairsSorted(Part(s, children, i))
  {
    forall x, y | 0 <= x < y < |Part(s, children, i)| ensures Part(s, children, i)[x].k < Part(s, children, i)[y].k {
      PartElement(s, children, i, x);
      PartElement(s, children, i, y);
      hide Part, Start;
    }
  }

  // ----- ideal trees

  /** A leaf of all pairs if they are few, else a node of degree the square root of their number, rounded up, over ideal trees of even size. */
  ghost predicate Ideal(n: Node, total: nat) {
    if total <= MAX_ACCEPTABLE_LEAF_SIZE then
      |n.keys| == total && |n.slots| == total + 1 && n.slots[0] == Empty && forall i :: 1 <= i < |n.slots| ==> n.slots[i].Val?
    else
      && |n.slots| >= 1 && |n.keys| == |n.slots| - 1
      && |n.slots| * |n.slots| >= total && (|n.slots| - 1) * (|n.slots| - 1) < total
      && forall i :: 0 <= i < |n.slots| ==> IdealKid(n.slots[i], ChildSize(total, |n.slots|, i))
  }

  ghost predicate IdealKid(s: Slot, total: nat) { s.Child? && Ideal(s.node, total) }

  /** Levels of nodes. */
  ghost predicate LowerThan(n: Node, h: nat) {
    h > 0 && forall i :: 0 <= i < |n.slots| && (n.slots[i].Child? || n.slots[i].Rebuild?) ==> LowerThan(n.slots[i].node, h - 1)
  }

  /** The number of pairs that fit in an ideal tree of `h` levels: it is squared with each level. */
  function Room(h: nat): nat {
    if h == 0 then 0 else if h == 1 then MAX_ACCEPTABLE_LEAF_SIZE else Room(h - 1) * Room(h - 1)
  }

  /** No child gets more pairs than the node has children. */
  lemma KidsFewer(total: nat, d: nat, i: nat)
    requires d >= 1 && d * d >= total && i < d
    ensures ChildSize(total, d, i) <= d
  {
    var q, r := total / d, total % d;
    assert total == d * q + r;
    assert q > d ==> d * q >= d * (d + 1);
    assert q >= d ==> d * q >= d * d;
  }

  /** An ideal tree is as low as that: its depth grows with the logarithm of the logarithm of its size. */
  lemma {:induction false} IdealIsLow(n: Node, total: nat, h: nat)
    requires Ideal(n, total) && total <= Room(h) && h >= 1
    ensures LowerThan(n, h)
    decreases h
  {
    if total > MAX_ACCEPTABLE_LEAF_SIZE {
      var d := |n.slots|;
      assert h >= 2 && Room(h) == Room(h - 1) * Room(h - 1);
      RootBelow(d, Room(h - 1), total);
      forall i | 0 <= i < d ensures n.slots[i].Child? && LowerThan(n.slots[i].node, h - 1) {
        assert IdealKid(n.slots[i], ChildSize(total, d, i));
        KidsFewer(total, d, i);
        hide ChildSize, Ideal, Room, LowerThan;
        IdealIsLow(n.slots[i].node, ChildSize(total, d, i), h - 1);
      }
      hide Ideal;
    } else {
      assert forall i :: 0 <= i < |n.slots| ==> !n.slots[i].Child? && !n.slots[i].Rebuild?;
    }
  }

  lemma RootBelow(d: nat, m: nat, total: nat)
    requires d >= 1 && (d - 1) * (d - 1) < total <= m * m
    ensures d <= m
  {
    assert d - 1 >= m ==> (d - 1) * (d - 1) >= (d - 1) * m >= m * m;
  }

  lemma LeafIdeal(pairs: seq<KVPair>)
    requires |pairs| <= MAX_ACCEPTABLE_LEAF_SIZE
    ensures Ideal(LeafOf(pairs), |pairs|)
  {
  }

  lemma OverIdeal(keys: seq<int>, slots: seq<Slot>, total: nat)
    requires total > MAX_ACCEPTABLE_LEAF_SIZE && |slots| >= 1 && |keys| == |slots| - 1
    requires |slots| * |slots| >= total && (|slots| - 1) * (|slots| - 1) < total
    requires forall i :: 0 <= i < |slots| ==> IdealKid(slots[i], ChildSize(total, |slots|, i))
    ensures Ideal(Node(keys, slots, 0), total)
  {
  }

  /** `IdealBuilder::build`: a leaf for few pairs, else a node of degree about the square root of their number. */
  method Build(pset: seq<KVPair>) returns (node: Node)
    requires PairsSorted(pset) && |pset| >= 1
    ensures Holds(Child(node), pset) && |node.slots| > 1 && Ideal(node, |pset|)
    decreases |pset|
  {
    hide Ideal, IdealKid;
    if |pset| <= MAX_ACCEPTABLE_LEAF_SIZE {
      node := CreateLeaf(pset);
      LeafHolds(pset);
      LeafIdeal(pset);
    } else {
      var numChildren := CeilSqrt(|pset|);
      ChildSizes(|pset|, numChildren, 0);
      var slots, keys, at := [], [], 0;
      SlicesMeet(|pset|, numChildren, 0);
      for i := 0 to numChildren
        invariant |slots| == i && |keys| == (if i == 0 then 0 else i - 1) && at == Start(|pset|, numChildren, i)
        invariant forall j :: 0 <= j < i ==> Part(pset, numChildren, j) != [] && Holds(slots[j], Part(pset, numChildren, j))
        invariant forall j :: 1 <= j < i ==> keys[j - 1] == Part(pset, numChildren, j)[0].k
        invariant forall j :: 0 <= j < i ==> IdealKid(slots[j], ChildSize(|pset|, numChildren, j))
      {
        hide Holds, Part, Start, ChildSize;
        ChildSizes(|pset|, numChildren, i);
        SlicesMeet(|pset|, numChildren, i);
        PartSorted(pset, numChildren, i);
        var sz := ChildSize(|pset|, numChildren, i);
        PartAt(pset, numChildren, i);
        var childSet := pset[at..at + sz];
        var child := Build(childSet);
        assert IdealKid(Child(child), sz) by { KidIdeal(child, sz); }
        slots := slots + [Child(child)];
        if i > 0 { keys := keys + [childSet[0].k]; }
        at := at + sz;
      }
      node := Node(keys, slots, 0);
      OverPartsHolds(pset, numChildren, keys, slots);
      OverIdeal(keys, slots, |pset|);
    }
  }

  lemma KidIdeal(n: Node, total: nat)
    requires Ideal(n, total)
    ensures IdealKid(Child(n), total)
  {
  }

  lemma PartAt(s: seq<KVPair>, children: nat, i: nat)
    requires i < children
    ensures var at, sz := Start(|s|, children, i), ChildSize(|s|, children, i);
            at + sz <= |s| && Part(s, children, i) == s[at..at + sz]
  {
    SlicesMeet(|s|, children, i);
    StartInRange(|s|, children, i + 1);
  }

  // ----- createIdealConcurrent

  function WordPairs(s: Slot): seq<KVPair>
    requires !s.Val? && ((s.Child? || s.Rebuild?) ==> Shape(s.node))
  {
    match s
    case Empty => []
    case Pair(p) => [p]
    case Child(m) => Pairs(m)
    case Rebuild(m) => Pairs(m)
  }

  /** The new word holds the given pairs, and fits wherever they fit. */
  ghost predicate WordHolds(s: Slot, pairs: seq<KVPair>) {
    && !s.Val? && ((s.Child? || s.Rebuild?) ==> Shape(s.node)) && WordPairs(s) == pairs
    && forall lo, hi :: AllWithin(pairs, lo, hi) ==> SlotOrdered(s, lo, hi)
  }

  lemma ChildWordHolds(n: Node, pairs: seq<KVPair>)
    requires Holds(Child(n), pairs)
    ensures WordHolds(Child(n), pairs)
  {
  }

  /** `getCASWord`: nothing for no pair, the pair itself for one, else a subtree. */
  method GetCASWord(pairs: seq<KVPair>) returns (word: Slot)
    requires PairsSorted(pairs)
    ensures WordHolds(word, pairs) && (|pairs| >= 2 ==> Holds(word, pairs) && IdealKid(word, |pairs|))
  {
    hide Ideal;
    if |pairs| == 0 {
      word := Empty;
    } else if |pairs| == 1 {
      word := Pair(pairs[0]);
      assert forall lo, hi :: AllWithin(pairs, lo, hi) ==> Within(lo, hi, pairs[0].k);
    } else {
      var node := Build(pairs);
      word := Child(node);
      hide Holds;
      ChildWordHolds(node, pairs);
    }
  }

  /** `subtreeBuildAndReplace` without its last CAS: the subtree for child `ix`, and its least key. */
  method BuildSubtree(root: Node, numChildren: nat, ix: nat) returns (word: Slot, minKey: int)
    requires Shape(root) && Counted(root) && PairsSorted(Pairs(root)) && root.sum > MAX_ACCEPTABLE_LEAF_SIZE
    requires numChildren * numChildren >= root.sum && numChildren >= 1 && (numChildren - 1) * (numChildren - 1) < root.sum
    requires ix < numChildren
    ensures var part := Part(Pairs(root), numChildren, ix); part != [] && Holds(word, part) && minKey == part[0].k
  {
    var childSize := root.sum / numChildren;
    var remainder := root.sum % numChildren;
    var totalSizeSoFar := ix * childSize + if ix < remainder then ix else remainder;
    var newChildSize := childSize + if ix < remainder then 1 else 0;
    ghost var s := Pairs(root);
    assert |s| == root.sum;
    assert totalSizeSoFar == Start(|s|, numChildren, ix) && newChildSize == ChildSize(|s|, numChildren, ix);
    hide Start, ChildSize, Pairs, Part, Holds, PairsSorted, Slice;
    ChildSizes(|s|, numChildren, ix);
    var skip, add, out := AddKVPairsSubset(root, totalSizeSoFar, newChildSize, []);
    PartIsSlice(s, numChildren, ix);
    PartSorted(s, numChildren, ix);
    assert out == Part(s, numChildren, ix);
    word := GetCASWord(out);
    minKey := out[0].k;
  }

  /** `addKVPairs`: all pairs of a subtree, in order. */
  method AddKVPairs(n: Node, out0: seq<KVPair>) returns (out: seq<KVPair>)
    requires Shape(n)
    ensures out == out0 + Pairs(n)
    decreases n
  {
    out := out0;
    for i := 0 to |n.slots|
      invariant out == out0 + PairsUpTo(n, i)
    {
      match n.slots[i] {
        case Empty =>
        case Val(v) => out := out + [KVPair(n.keys[i - 1], v)];
        case Pair(p) => out := out + [p];
        case Child(m) => out := AddKVPairs(m, out);
        case Rebuild(m) => out := AddKVPairs(m, out);
      }
    }
  }

  /**
   Filling the new root, as one helper does it on its own: first it reserves one child after the other by counting
   `degree` up, then it goes round all children once more, from a random one on, for those still missing.
   */
  method AttachSubtrees(root: Node, numChildren: nat, rng: nat) returns (keys: seq<int>, slots: seq<Slot>)
    requires Shape(root) && Counted(root) && PairsSorted(Pairs(root)) && root.sum > MAX_ACCEPTABLE_LEAF_SIZE
    requires numChildren * numChildren >= root.sum && numChildren >= 2 && (numChildren - 1) * (numChildren - 1) < root.sum
    ensures OverParts(Pairs(root), numChildren, keys, slots)
  {
    ghost var s := Pairs(root);
    hide Pairs, Counted, Shape, Part, Holds, PairsSorted;
    var ptrs: seq<Option<Slot>> := seq(numChildren, _ => Option.None);
    keys := seq(numChildren - 1, _ => 0);
    var degree := 0;
    while degree < numChildren
      invariant 0 <= degree <= numChildren && |ptrs| == numChildren && |keys| == numChildren - 1
      invariant forall i :: 0 <= i < numChildren && ptrs[i].Some? ==> Filled(s, numChildren, keys, ptrs[i].value, i)
    {
      var ix := degree;
      degree := degree + 1;
      ptrs, keys := BuildAndReplace(root, numChildren, ix, ptrs, keys);
    }
    var ix := rng % numChildren;
    for k := 0 to numChildren
      invariant |ptrs| == numChildren && |keys| == numChildren - 1
      invariant forall i :: 0 <= i < numChildren && ptrs[i].Some? ==> Filled(s, numChildren, keys, ptrs[i].value, i)
      invariant forall j :: 0 <= j < k ==> There(ptrs, ix, j)
    {
      var i := (ix + k) % numChildren;
      ghost var ptrs0 := ptrs;
      hide There, Filled;
      if ptrs[i].None? { ptrs, keys := BuildAndReplace(root, numChildren, i, ptrs, keys); }
      OneMore(ptrs0, ptrs, ix, k);
    }
    OnceRound(ptrs, ix);
    slots := seq(numChildren, i requires 0 <= i < numChildren => ptrs[i].value);
    AllFilled(s, numChildren, keys, slots);
  }

  /** Step `j` on the way round from `start` finds a subtree. */
  predicate There(ptrs: seq<Option<Slot>>, start: nat, j: nat)
    requires ptrs != []
  {
    ptrs[(start + j) % |ptrs|].Some?
  }

  /** Once round from `start` is all children. */
  lemma OnceRound(ptrs: seq<Option<Slot>>, start: nat)
    requires start < |ptrs| && forall j :: 0 <= j < |ptrs| ==> There(ptrs, start, j)
    ensures forall i :: 0 <= i < |ptrs| ==> ptrs[i].Some?
  {
    forall i | 0 <= i < |ptrs| ensures ptrs[i].Some? {
      var j := if i >= start then i - start else i + |ptrs| - start;
      Wrap(|ptrs|, start, i);
      assert There(ptrs, start, j);
    }
  }

  lemma OneMore(ptrs: seq<Option<Slot>>, ptrs': seq<Option<Slot>>, start: nat, k: nat)
    requires ptrs != [] && |ptrs'| == |ptrs| && forall j :: 0 <= j < k ==> There(ptrs, start, j)
    requires ptrs'[(start + k) % |ptrs|].Some?
    requires forall i :: 0 <= i < |ptrs| && ptrs[i].Some? ==> ptrs'[i] == ptrs[i]
    ensures forall j :: 0 <= j <= k ==> There(ptrs', start, j)
  {
    forall j | 0 <= j <= k ensures There(ptrs', start, j) {
      if j < k { assert There(ptrs, start, j); }
    }
  }

  lemma Wrap(n: nat, start: nat, i: nat)
    requires start < n && i < n
    ensures (start + if i >= start then i - start else i + n - start) % n == i
  {
    assert i % n == i && (i + n) % n == i;
  }

  /** `subtreeBuildAndReplace`: the key is written in any case, the subtree only where there is none yet. */
  method BuildAndReplace(root: Node, numChildren: nat, ix: nat, ptrs: seq<Option<Slot>>, keys: seq<int>)
    returns (ptrs': seq<Option<Slot>>, keys': seq<int>)
    requires Shape(root) && Counted(root) && PairsSorted(Pairs(root)) && root.sum > MAX_ACCEPTABLE_LEAF_SIZE
    requires numChildren * numChildren >= root.sum && numChildren >= 2 && (numChildren - 1) * (numChildren - 1) < root.sum
    requires ix < numChildren == |ptrs| && |keys| == numChildren - 1
    requires forall i :: 0 <= i < numChildren && ptrs[i].Some? ==> Filled(Pairs(root), numChildren, keys, ptrs[i].value, i)
    ensures |ptrs'| == numChildren && |keys'| == numChildren - 1 && ptrs'[ix].Some?
    ensures forall i :: 0 <= i < numChildren && ptrs[i].Some? ==> ptrs'[i] == ptrs[i]
    ensures forall i :: 0 <= i < numChildren && ptrs'[i].Some? ==> Filled(Pairs(root), numChildren, keys', ptrs'[i].value, i)
  {
    hide Pairs, Counted, Shape, Part, Holds, PairsSorted;
    ptrs', keys' := ptrs, keys;
    var sub, minKey := BuildSubtree(root, numChildren, ix);
    if ix > 0 { keys' := keys'[ix - 1 := minKey]; }
    if ptrs'[ix].None? { ptrs' := ptrs'[ix := Some(sub)]; }
  }

  lemma AllFilled(s: seq<KVPair>, children: nat, keys: seq<int>, slots: seq<Slot>)
    requires children >= 2 && |slots| == children && |keys| == children - 1
    requires forall i :: 0 <= i < children ==> Filled(s, children, keys, slots[i], i)
    ensures OverParts(s, children, keys, slots)
  {
    hide Part, Holds;
    forall i | 0 <= i < children
      ensures Part(s, children, i) != [] && Holds(slots[i], Part(s, children, i))
      ensures i >= 1 ==> keys[i - 1] == Part(s, children, i)[0].k
    {
      assert Filled(s, children, keys, slots[i], i);
    }
  }

  /** `createIdealConcurrent`: the word that replaces a frozen subtree holds exactly its pairs. */
  method CreateIdealConcurrent(root: Node, rng: nat) returns (word: Slot)
    requires Shape(root) && Counted(root) && PairsSorted(Pairs(root))
    ensures WordHolds(word, Pairs(root))
  {
    assert root.sum == |Pairs(root)|;
    hide Pairs, Counted, Shape, PairsSorted, OverParts;
    if root.sum == 0 {
      word := GetCASWord([]);
    } else if root.sum <= MAX_ACCEPTABLE_LEAF_SIZE {
      var out := AddKVPairs(root, []);
      word := GetCASWord(out);
    } else {
      var numChildren := CeilSqrt(root.sum);
      ChildSizes(root.sum, numChildren, 0);
      var keys, slots := AttachSubtrees(root, numChildren, rng);
      OverPartsHolds(Pairs(root), numChildren, keys, slots);
      word := Child(Node(keys, slots, 0));
      ChildWordHolds(Node(keys, slots, 0), Pairs(root));
    }
  }

  ghost predicate Filled(s: seq<KVPair>, children: nat, keys: seq<int>, slot: Slot, i: nat)
    requires i < children && |keys| == children - 1
  {
    var part := Part(s, children, i);
    part != [] && Holds(slot, part) && (i > 0 ==> keys[i - 1] == part[0].k)
  }

  // ----- the rebuilt tree

  lemma {:induction false} ReplacedPairs(n: Node, i: nat, w: Slot, j: nat)
    requires Shape(n) && i < |n.slots| && j <= |n.slots| && !n.slots[i].Val? && !w.Val? && ((w.Child? || w.Rebuild?) ==> Shape(w.node))
    requires Shape(n.(slots := n.slots[i := w])) && WordPairs(w) == WordPairs(n.slots[i])
    ensures PairsUpTo(n.(slots := n.slots[i := w]), j) == PairsUpTo(n, j)
  {
    if j > 0 {
      ReplacedPairs(n, i, w, j - 1);
    }
  }

  /** Swinging a pointer from a subtree to a rebuilt one keeps the order, the pairs and every search. */
  lemma RebuildKeepsMeaning(n: Node, i: nat, w: Slot, lo: Option<int>, hi: Option<int>)
    requires Ordered(n, lo, hi) && Shape(n) && i < |n.slots| && n.slots[i].Rebuild?
    requires WordHolds(w, Pairs(n.slots[i].node))
    ensures var n' := n.(slots := n.slots[i := w]);
            Ordered(n', lo, hi) && Shape(n') && Pairs(n') == Pairs(n) && forall k :: Find(n', k) == Find(n, k)
  {
    var n' := n.(slots := n.slots[i := w]);
    var m := n.slots[i].node;
    assert SlotOrdered(n.slots[i], KidLo(n.keys, lo, i), KidHi(n.keys, hi, i));
    PairsWithin(m, KidLo(n.keys, lo, i), KidHi(n.keys, hi, i));
    assert SlotOrdered(w, KidLo(n.keys, lo, i), KidHi(n.keys, hi, i));
    forall j | 0 <= j < |n'.slots| ensures SlotOrdered(n'.slots[j], KidLo(n.keys, lo, j), KidHi(n.keys, hi, j)) {
      assert SlotOrdered(n.slots[j], KidLo(n.keys, lo, j), KidHi(n.keys, hi, j));
      hide SlotOrdered;
    }
    assert Ordered(n', lo, hi);
    hide SlotOrdered;
    OrderedShape(n', lo, hi);
    ReplacedPairs(n, i, w, |n.slots|);
    hide Ordered, Find;
    forall k ensures Find(n', k) == Find(n, k) { SamePairsSameFind(n, n', lo, hi, k); }
  }
}
