/** A run from the empty leaf that ends with a one-child parent over a child of too low a degree, for DEGREE 4. */
module AbTreeNarrowRun {
  import opened AbTree
  import opened AbTreeBalance
  import opened AbTreeNarrow

  // ----- insertion of a key above all others

  lemma KeyIndexEnd(keys: seq<int>, key: int)
    requires forall i :: 0 <= i < |keys| ==> keys[i] < key
    ensures KeyIndex(keys, key) == |keys|
  {
  }

  lemma AppendToLeaf(l: Node, key: int, isRoot: bool, D: nat)
    requires D >= 4 && l.Leaf? && l.vals == l.keys && |l.keys| < D && forall i :: 0 <= i < |l.keys| ==> l.keys[i] < key
    ensures Insert(l, key, key, false, isRoot, D) == Leaf(l.sk, l.keys + [key], l.keys + [key])
  {
    KeyIndexEnd(l.keys, key);
    assert l.keys[..|l.keys|] + [key] + l.keys[|l.keys|..] == l.keys + [key];
  }

  lemma OverflowLeaf(l: Node, key: int, isRoot: bool, D: nat)
    requires D >= 4 && l.Leaf? && l.vals == l.keys && |l.keys| == D && forall i :: 0 <= i < |l.keys| ==> l.keys[i] < key
    ensures Insert(l, key, key, false, isRoot, D) == Overflow(l.keys + [key], l.keys + [key], isRoot)
  {
    KeyIndexEnd(l.keys, key);
    assert l.keys[..|l.keys|] + [key] + l.keys[|l.keys|..] == l.keys + [key];
  }

  lemma IntoLast(n: Node, key: int, isRoot: bool, D: nat, c: Node)
    requires D >= 4 && n.Inner? && Shape(n) && LeavesFit(n, D) && (forall i :: 0 <= i < |n.keys| ==> n.keys[i] <= key)
    requires var last := n.kids[|n.kids| - 1]; Shape(last) && LeavesFit(last, D) && c == Insert(last, key, key, false, false, D)
    ensures Insert(n, key, key, false, isRoot, D) == n.(kids := n.kids[|n.kids| - 1 := c])
  {
    assert ChildIndex(n.keys, key) == |n.keys|;
  }

  // ----- trees of one level

  /** A leaf with the given keys, as splitting makes it. */
  function Lf(keys: seq<int>): Node
    requires keys != []
  {
    Leaf(keys[0], keys, keys)
  }

  predicate LeafOk(l: Node) { l.Leaf? && l.vals == l.keys && |l.keys| <= 4 }

  predicate OneLevel(t: Node) {
    t.Inner? && t.w && |t.kids| == |t.keys| + 1 && forall i :: 0 <= i < |t.kids| ==> LeafOk(t.kids[i])
  }

  ghost predicate Reached(t: Node) {
    exists run, ops :: TreeRun(run, ops, 4) && run[|ops|] == t
  }

  lemma ReachedStart()
    ensures Reached(Leaf(0, [], []))
  {
    var run, ops: seq<Op> := [Leaf(0, [], [])], [];
    assert TreeRun(run, ops, 4) && run[|ops|] == Leaf(0, [], []);
  }

  lemma ReachedStep(t: Node, op: Op, t': Node)
    requires Reached(t) && Shape(t) && LeavesFit(t, 4) && Step(t, op, t', 4)
    ensures Reached(t')
  {
    var run, ops :| TreeRun(run, ops, 4) && run[|ops|] == t;
    var run', ops' := run + [t'], ops + [op];
    hide Step;
    forall i | 0 <= i < |ops'| ensures Shape(run'[i]) && LeavesFit(run'[i], 4) && Step(run'[i], ops'[i], run'[i + 1], 4) {
      if i < |ops| { assert Step(run[i], ops[i], run[i + 1], 4); }
    }
    assert TreeRun(run', ops', 4) && run'[|ops'|] == t';
  }

  /** One more key in a single leaf. */
  lemma GrowLeaf(keys: seq<int>, key: int)
    requires Reached(Leaf(0, keys, keys)) && |keys| < 4 && forall i :: 0 <= i < |keys| ==> keys[i] < key
    ensures Reached(Leaf(0, keys + [key], keys + [key]))
  {
    AppendToLeaf(Leaf(0, keys, keys), key, true, 4);
    ReachedStep(Leaf(0, keys, keys), DoInsert(key, key, false), Leaf(0, keys + [key], keys + [key]));
  }

  lemma OneLevelShape(t: Node)
    requires OneLevel(t)
    ensures Shape(t) && LeavesFit(t, 4)
  {
  }

  /** One more key in the last leaf below the root. */
  lemma GrowLast(t: Node, key: int, keys: seq<int>)
    requires Reached(t) && OneLevel(t) && |keys| >= 1 && t.kids[|t.kids| - 1] == Lf(keys) && |keys| < 4
    requires (forall i :: 0 <= i < |keys| ==> keys[i] < key) && forall i :: 0 <= i < |t.keys| ==> t.keys[i] <= key
    ensures var t' := t.(kids := t.kids[|t.kids| - 1 := Lf(keys + [key])]); Reached(t') && OneLevel(t')
  {
    OneLevelShape(t);
    AppendToLeaf(Lf(keys), key, false, 4);
    var c := Lf(keys + [key]);
    IntoLast(t, key, true, 4, c);
    hide Insert;
    ReachedStep(t, DoInsert(key, key, false), t.(kids := t.kids[|t.kids| - 1 := c]));
  }

  /** The leaves into which a full leaf with one key more is split, under their new parent. */
  function Halves(keys: seq<int>, isRoot: bool): Node
    requires |keys| == 5
  {
    Inner(isRoot, keys[2], [keys[2]], [Lf(keys[..2]), Lf(keys[2..])])
  }

  lemma OverflowHalves(keys: seq<int>, isRoot: bool)
    requires |keys| == 5
    ensures Overflow(keys, keys, isRoot) == Halves(keys, isRoot)
  {
  }

  /** A key too many for the last leaf below the root, and the step that takes care of it. */
  lemma SplitLast(t: Node, key: int, keys: seq<int>)
    requires Reached(t) && OneLevel(t) && t.kids != [] && |keys| == 4 && t.kids[|t.kids| - 1] == Lf(keys)
    requires (forall i :: 0 <= i < |keys| ==> keys[i] < key) && forall i :: 0 <= i < |t.keys| ==> t.keys[i] <= key
    ensures var m := t.(kids := t.kids[|t.kids| - 1 := Halves(keys + [key], false)]);
            Shape(m) && CanFixWeight(m, |t.kids| - 1) && |m.kids[|t.kids| - 1].keys| >= 1
            && Reached(FixWeight(m, |t.kids| - 1, true, 4))
  {
    OneLevelShape(t);
    var i := |t.kids| - 1;
    OverflowLeaf(Lf(keys), key, false, 4);
    OverflowHalves(keys + [key], false);
    var c := Halves(keys + [key], false);
    IntoLast(t, key, true, 4, c);
    var m := t.(kids := t.kids[i := c]);
    HalvesShape(keys + [key]);
    assert Shape(m) && LeavesFit(m, 4);
    hide Insert, Shape, LeavesFit;
    ReachedStep(t, DoInsert(key, key, false), m);
    assert CanFixWeight(m, i);
    hide FixWeight;
    ReachedStep(m, DoRebalance, FixWeight(m, i, true, 4));
  }

  lemma HalvesShape(keys: seq<int>)
    requires |keys| == 5
    ensures Shape(Halves(keys, false)) && LeavesFit(Halves(keys, false), 4)
  {
  }

  /** A root over leaves, with room for one more. */
  function Row(sk: int, keys: seq<int>, kids: seq<Node>, last: seq<int>): Node
    requires last != []
  {
    Inner(true, sk, keys, kids + [Lf(last)])
  }

  lemma GrowRow(sk: int, keys: seq<int>, kids: seq<Node>, last: seq<int>, key: int)
    requires last != [] && Reached(Row(sk, keys, kids, last)) && OneLevel(Row(sk, keys, kids, last)) && |last| < 4
    requires (forall i :: 0 <= i < |last| ==> last[i] < key) && forall i :: 0 <= i < |keys| ==> keys[i] <= key
    ensures Reached(Row(sk, keys, kids, last + [key])) && OneLevel(Row(sk, keys, kids, last + [key]))
  {
    var t := Row(sk, keys, kids, last);
    GrowLast(t, key, last);
    assert t.kids[|t.kids| - 1 := Lf(last + [key])] == kids + [Lf(last + [key])];
  }

  /** The overflowing last leaf of a row becomes two of the row. */
  lemma SplitRow(sk: int, keys: seq<int>, kids: seq<Node>, last: seq<int>, key: int)
    requires |last| == 4 && Reached(Row(sk, keys, kids, last)) && OneLevel(Row(sk, keys, kids, last)) && 1 <= |kids| <= 3
    requires (forall i :: 0 <= i < |last| ==> last[i] < key) && forall i :: 0 <= i < |keys| ==> keys[i] <= key
    ensures var all, ks := last + [key], keys + [last[2]];
            var cs := kids + [Lf(all[..2]), Lf(all[2..])];
            |cs| <= 4 ==> Reached(Inner(true, ks[0], ks, cs)) && OneLevel(Inner(true, ks[0], ks, cs))
    ensures var all, ks := last + [key], keys + [last[2]];
            var cs := kids + [Lf(all[..2]), Lf(all[2..])];
            |cs| == 5 ==> Reached(Split(ks, cs, true))
  {
    var t, all, n := Row(sk, keys, kids, last), last + [key], |kids|;
    SplitLast(t, key, last);
    var m := t.(kids := t.kids[n := Halves(all, false)]);
    assert m.kids == kids + [Halves(all, false)];
    var ks, cs := keys + [last[2]], kids + [Lf(all[..2]), Lf(all[2..])];
    assert InlineKeys(m.keys, m.kids, n) == ks && InlineKids(m.kids, n) == cs;
    hide Reached;
    assert |cs| <= 4 ==> FixWeight(m, n, true, 4) == Inner(true, ks[0], ks, cs);
    assert |cs| == 5 ==> FixWeight(m, n, true, 4) == Split(ks, cs, true);
    assert forall i :: 0 <= i < n ==> t.kids[i] == kids[i];
  }

  lemma FirstLeaf()
    ensures Reached(Leaf(0, [1, 2, 3, 4], [1, 2, 3, 4]))
  {
    hide Reached;
    ReachedStart();
    GrowLeaf([], 1);
    assert [] + [1] == [1];
    GrowLeaf([1], 2);
    assert [1] + [2] == [1, 2];
    GrowLeaf([1, 2], 3);
    assert [1, 2] + [3] == [1, 2, 3];
    GrowLeaf([1, 2, 3], 4);
    assert [1, 2, 3] + [4] == [1, 2, 3, 4];
  }

  /** A single full leaf overflows at the root. */
  lemma OverflowRoot(keys: seq<int>, key: int)
    requires Reached(Leaf(0, keys, keys)) && |keys| == 4 && forall i :: 0 <= i < |keys| ==> keys[i] < key
    ensures Reached(Halves(keys + [key], true))
  {
    var l := Leaf(0, keys, keys);
    OverflowLeaf(l, key, true, 4);
    OverflowHalves(keys + [key], true);
    hide Reached, Overflow, Insert, Halves;
    ReachedStep(l, DoInsert(key, key, false), Halves(keys + [key], true));
  }

  lemma FirstRow()
    ensures Reached(Row(3, [3], [Lf([1, 2])], [3, 4, 5])) && OneLevel(Row(3, [3], [Lf([1, 2])], [3, 4, 5]))
  {
    FirstLeaf();
    hide Reached;
    OverflowRoot([1, 2, 3, 4], 5);
    var all := [1, 2, 3, 4] + [5];
    assert all[..2] == [1, 2] && all[2..] == [3, 4, 5];
    assert Halves(all, true) == Row(3, [3], [Lf([1, 2])], [3, 4, 5]);
  }

  lemma SecondRow()
    ensures Reached(Row(3, [3, 5], [Lf([1, 2]), Lf([3, 4])], [5, 6, 7])) && OneLevel(Row(3, [3, 5], [Lf([1, 2]), Lf([3, 4])], [5, 6, 7]))
  {
    hide Reached, OneLevel;
    FirstRow();
    NextRow(3, [3], [Lf([1, 2])], 3);
    assert [3] + [5] == [3, 5] && [Lf([1, 2])] + [Lf([3, 4])] == [Lf([1, 2]), Lf([3, 4])];
  }

  lemma ThirdRow()
    ensures var kids := [Lf([1, 2]), Lf([3, 4]), Lf([5, 6])];
            Reached(Row(3, [3, 5, 7], kids, [7, 8, 9])) && OneLevel(Row(3, [3, 5, 7], kids, [7, 8, 9]))
  {
    hide Reached, OneLevel;
    SecondRow();
    NextRow(3, [3, 5], [Lf([1, 2]), Lf([3, 4])], 5);
    assert [3, 5] + [7] == [3, 5, 7] && [Lf([1, 2]), Lf([3, 4])] + [Lf([5, 6])] == [Lf([1, 2]), Lf([3, 4]), Lf([5, 6])];
  }

  /** From a row whose last leaf holds `a`, `a + 1` and `a + 2`: two more keys make one leaf more. */
  lemma NextRow(sk: int, keys: seq<int>, kids: seq<Node>, a: int)
    requires Reached(Row(sk, keys, kids, [a, a + 1, a + 2])) && OneLevel(Row(sk, keys, kids, [a, a + 1, a + 2]))
    requires 1 <= |kids| <= 3 && |keys| == |kids| && keys[0] == sk && forall i :: 0 <= i < |keys| ==> keys[i] <= a
    ensures |kids| <= 2 ==>
              && Reached(Row(sk, keys + [a + 2], kids + [Lf([a, a + 1])], [a + 2, a + 3, a + 4]))
              && OneLevel(Row(sk, keys + [a + 2], kids + [Lf([a, a + 1])], [a + 2, a + 3, a + 4]))
    ensures |kids| == 3 ==> Reached(Split(keys + [a + 2], kids + [Lf([a, a + 1]), Lf([a + 2, a + 3, a + 4])], true))
  {
    var last := [a, a + 1, a + 2];
    hide Reached, OneLevel;
    GrowRow(sk, keys, kids, last, a + 3);
    var full, all := last + [a + 3], last + [a + 3] + [a + 4];
    SplitRow(sk, keys, kids, full, a + 4);
    assert all[..2] == [a, a + 1] && all[2..] == [a + 2, a + 3, a + 4] && full[2] == a + 2;
    var cs := kids + [Lf([a, a + 1]), Lf([a + 2, a + 3, a + 4])];
    assert cs == kids + [Lf([a, a + 1])] + [Lf([a + 2, a + 3, a + 4])];
  }

  // ----- two levels

  const Left := Inner(true, 3, [3], [Lf([1, 2]), Lf([3, 4])])
  const Right := Inner(true, 7, [7, 9], [Lf([5, 6]), Lf([7, 8]), Lf([9, 10, 11])])

  lemma TwoLevels()
    ensures Reached(Inner(true, 5, [5], [Left, Right]))
  {
    ThirdRow();
    var kids := [Lf([1, 2]), Lf([3, 4]), Lf([5, 6])];
    hide Reached, OneLevel;
    NextRow(3, [3, 5, 7], kids, 7);
    var ks, cs := [3, 5, 7, 9], [Lf([1, 2]), Lf([3, 4]), Lf([5, 6]), Lf([7, 8]), Lf([9, 10, 11])];
    assert [3, 5, 7] + [9] == ks && kids + [Lf([7, 8]), Lf([9, 10, 11])] == cs;
    assert ks[..1] == [3] && ks[2..] == [7, 9] && cs[..2] == [Lf([1, 2]), Lf([3, 4])] && cs[2..] == [Lf([5, 6]), Lf([7, 8]), Lf([9, 10, 11])];
  }

  // ----- deletion below the left child, and the merge that leaves it with one child

  lemma EraseBelow(n: Node, key: int, i: nat)
    requires n.Inner? && Shape(n) && |n.keys| == 1 && i == (if n.keys[0] <= key then 1 else 0)
    ensures Shape(n.kids[i]) && Erase(n, key) == n.(kids := n.kids[i := Erase(n.kids[i], key)])
  {
    assert ChildIndex(n.keys, key) == i;
  }

  lemma EraseHead(sk: int, keys: seq<int>)
    requires keys != [] && forall i :: 0 <= i < |keys| ==> keys[0] <= keys[i]
    ensures Erase(Leaf(sk, keys, keys), keys[0]) == Leaf(keys[0], keys[1..], keys[1..])
  {
    assert KeyIndex(keys, keys[0]) == 0;
    assert keys[..0] + keys[1..] == keys[1..];
  }

  /** The left child over two leaves, next to the right one. */
  function Pair(l: Node, r: Node): Node {
    Inner(true, 5, [5], [Inner(true, 3, [3], [l, r]), Right])
  }

  predicate SmallLeaf(l: Node) { l.Leaf? && l.vals == l.keys && |l.keys| <= 4 }

  lemma PairShape(l: Node, r: Node)
    requires SmallLeaf(l) && SmallLeaf(r)
    ensures Shape(Pair(l, r)) && LeavesFit(Pair(l, r), 4)
  {
    assert Shape(Right) && LeavesFit(Right, 4);
    var p := Inner(true, 3, [3], [l, r]);
    assert Shape(p) && LeavesFit(p, 4);
  }

  /** The first key of one of the two leaves is erased. */
  lemma ErasePair(l: Node, r: Node, key: int, left: bool)
    requires SmallLeaf(l) && SmallLeaf(r) && Reached(Pair(l, r)) && key < 5 && (left <==> key < 3)
    requires var x := if left then l else r; x.keys != [] && x.keys[0] == key && forall i :: 0 <= i < |x.keys| ==> key <= x.keys[i]
    ensures left ==> Reached(Pair(Leaf(key, l.keys[1..], l.keys[1..]), r))
    ensures !left ==> Reached(Pair(l, Leaf(key, r.keys[1..], r.keys[1..])))
  {
    var t := Pair(l, r);
    PairShape(l, r);
    var p, x := t.kids[0], if left then l else r;
    EraseBelow(t, key, 0);
    EraseBelow(p, key, if left then 0 else 1);
    EraseHead(x.sk, x.keys);
    var x' := Leaf(key, x.keys[1..], x.keys[1..]);
    assert x == Leaf(x.sk, x.keys, x.keys);
    var t' := if left then Pair(x', r) else Pair(l, x');
    assert Erase(p, key).kids == if left then [x', r] else [l, x'];
    assert Erase(t, key).kids == t'.kids;
    hide Reached, Erase, Shape;
    ReachedStep(t, DoErase(key), t');
  }

  lemma AllErased()
    ensures Reached(Pair(Leaf(1, [2], [2]), Leaf(4, [], [])))
  {
    TwoLevels();
    hide Reached;
    assert Inner(true, 5, [5], [Left, Right]) == Pair(Lf([1, 2]), Lf([3, 4]));
    ErasePair(Lf([1, 2]), Lf([3, 4]), 1, true);
    assert [1, 2][1..] == [2];
    ErasePair(Leaf(1, [2], [2]), Lf([3, 4]), 3, false);
    assert [3, 4][1..] == [4];
    ErasePair(Leaf(1, [2], [2]), Leaf(3, [4], [4]), 4, false);
    assert [4][1..] == [];
  }

  /** The merge of the two leaves of the left child. */
  lemma MergeLeft(l: Node, r: Node)
    requires SmallLeaf(l) && SmallLeaf(r) && Reached(Pair(l, r)) && |l.keys| + |r.keys| < 4 && |r.keys| < 2
    ensures Reached(Inner(true, 5, [5], [Inner(true, 3, [], [Leaf(r.sk, l.keys + r.keys, l.keys + r.keys)]), Right]))
  {
    var t := Pair(l, r);
    PairShape(l, r);
    var p := t.kids[0];
    assert A(4) == 2;
    assert CanFixDegree(p, 1, 4) && Shape(p);
    var q := FixDegree(p, 1, false, 4);
    assert q == Inner(true, 3, [], [Leaf(r.sk, l.keys + r.keys, l.keys + r.keys)]);
    var t' := Inner(true, 5, [5], [q, Right]);
    assert t'.kids == t.kids[0 := q];
    hide FixDegree, Shape, LeavesFit, Reached, CanFixDegree;
    assert Rebalances(p, q, false, 4);
    assert RebalancesChild(t, t', 0, 4);
    hide RebalancesChild;
    ReachedStep(t, DoRebalance, t');
  }

  /**
   A reachable tree in which a node that is not the root has a single child, and that child is below the minimum
   degree: the sibling that `fixDegreeViolation` would read for it is not there.
   */
  lemma OneChildReached()
    ensures exists run, ops :: TreeRun(run, ops, 4) && MissingSibling(run[|ops|])
  {
    AllErased();
    var l, r := Leaf(1, [2], [2]), Leaf(4, [], []);
    MergeLeft(l, r);
    var t := Inner(true, 5, [5], [Inner(true, 3, [], [Leaf(4, [2] + [], [2] + [])]), Right]);
    assert Reached(t);
    assert MissingSibling(t) by {
      assert A(4) == 2;
      assert Degree(t.kids[0].kids[0]) < A(4) && !SiblingThere(t.kids[0], 0);
    }
  }

  /** The first child of the root has one child only, with a degree violation. */
  predicate MissingSibling(t: Node) {
    && t.Inner? && |t.kids| > 0 && t.kids[0].Inner? && t.kids[0].w && |t.kids[0].kids| == 1
    && Degree(t.kids[0].kids[0]) < A(4) && !SiblingThere(t.kids[0], 0)
  }
}
