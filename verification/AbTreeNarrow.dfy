/**
 Internal nodes with a single child.  `fixDegreeViolation` takes the sibling of a node from its parent without asking
 whether the parent has two children; here is exactly when a parent can be left with one.
 */
module AbTreeNarrow {
  import opened AbTree
  import opened AbTreeOrder
  import opened AbTreeBalance

  /** Every internal node has at least two children. */
  predicate AllTwo(n: Node) {
    n.Inner? ==> |n.kids| >= 2 && forall i :: 0 <= i < |n.kids| ==> AllTwo(n.kids[i])
  }

  /** The sibling that `fixDegreeViolation` reads for child `i` is there. */
  predicate SiblingThere(p: Node, i: nat) { p.Inner? && i < |p.kids| && LeftOfPair(i) + 1 < |p.kids| }

  lemma SiblingExactlyWithTwo(p: Node, i: nat)
    requires p.Inner? && i < |p.kids|
    ensures SiblingThere(p, i) <==> |p.kids| >= 2
  {
  }

  // ----- updates

  lemma {:induction false} InsertKeepsTwo(n: Node, key: int, val: Value, replace: bool, isRoot: bool, D: nat)
    requires D >= 4 && Shape(n) && LeavesFit(n, D) && AllTwo(n)
    ensures AllTwo(Insert(n, key, val, replace, isRoot, D))
  {
    if n.Inner? {
      InsertKeepsTwo(n.kids[ChildIndex(n.keys, key)], key, val, replace, false, D);
    }
  }

  lemma {:induction false} EraseKeepsTwo(n: Node, key: int)
    requires Shape(n) && AllTwo(n)
    ensures AllTwo(Erase(n, key))
  {
    if n.Inner? {
      EraseKeepsTwo(n.kids[ChildIndex(n.keys, key)], key);
    }
  }

  // ----- rebalancing

  predicate TwoEach(cs: seq<Node>) {
    forall i :: 0 <= i < |cs| ==> AllTwo(cs[i])
  }

  lemma OverTwo(w: bool, sk: int, ks: seq<int>, cs: seq<Node>)
    requires |cs| >= 2 && TwoEach(cs)
    ensures AllTwo(Inner(w, sk, ks, cs))
  {
  }

  lemma FixWeightKeepsTwo(p: Node, i: nat, isRoot: bool, D: nat)
    requires D >= 4 && Shape(p) && CanFixWeight(p, i) && |p.kids[i].keys| >= 1 && AllTwo(p)
    ensures AllTwo(FixWeight(p, i, isRoot, D))
  {
    var l, ks, cs := p.kids[i], InlineKeys(p.keys, p.kids, i), InlineKids(p.kids, i);
    assert Shape(l) && AllTwo(l);
    assert |cs| == |ks| + 1 && |cs| >= 2;
    assert TwoEach(l.kids) && TwoEach(p.kids);
    hide AllTwo, Shape;
    assert TwoEach(cs);
    hide InlineKids, InlineKeys;
    if |cs| > D {
      var m, n := |cs| / 2, Split(ks, cs, isRoot);
      OverTwo(true, ks[0], ks[..m - 1], cs[..m]);
      OverTwo(true, ks[m], ks[m..], cs[m..]);
      OverTwo(isRoot, n.sk, n.keys, n.kids);
    } else {
      OverTwo(true, ks[0], ks, cs);
    }
  }

  /** AbsorbSibling at a parent that is not the root and has just the two children. */
  predicate Narrows(p: Node, i: nat, isRoot: bool, D: nat)
    requires CanFixDegree(p, i, D)
  {
    var li := LeftOfPair(i);
    Degree(p.kids[li]) + Degree(p.kids[li + 1]) < 2 * A(D) && !isRoot && |p.kids| == 2
  }

  lemma MergedTwo(l: Node, sep: int, r: Node, sk: int)
    requires (l.Leaf? <==> r.Leaf?) && AllTwo(l) && AllTwo(r)
    ensures AllTwo(Merged(l, sep, r, sk))
  {
  }

  lemma SharedTwo(l: Node, sep: int, r: Node, D: nat)
    requires (l.Leaf? <==> r.Leaf?) && AllTwo(l) && AllTwo(r) && Shape(l) && Shape(r) && Degree(l) + Degree(r) >= 2 * A(D)
    ensures var d := Shared(l, sep, r); AllTwo(d.0) && AllTwo(d.2)
  {
    if l.Inner? {
      var kids, d := l.kids + r.kids, Shared(l, sep, r);
      assert TwoEach(kids);
      hide AllTwo;
      OverTwo(true, d.0.sk, d.0.keys, d.0.kids);
      OverTwo(true, d.2.sk, d.2.keys, d.2.kids);
    }
  }

  /** A degree fix leaves a node with one child exactly when it narrows its parent. */
  lemma FixDegreeTwoIff(p: Node, i: nat, isRoot: bool, D: nat)
    requires Shape(p) && CanFixDegree(p, i, D) && AllTwo(p)
    ensures AllTwo(FixDegree(p, i, isRoot, D)) <==> !Narrows(p, i, isRoot, D)
  {
    var li := LeftOfPair(i);
    var l, r, n := p.kids[li], p.kids[li + 1], FixDegree(p, i, isRoot, D);
    assert Shape(l) && Shape(r) && AllTwo(l) && AllTwo(r) && TwoEach(p.kids) && |p.keys| == |p.kids| - 1;
    hide Shape, Merged, Shared;
    if Degree(l) + Degree(r) < 2 * A(D) {
      MergedTwo(l, p.keys[li], r, p.kids[i].sk);
      if !(isRoot && |p.kids| == 2) {
        assert |n.kids| == |p.kids| - 1;
        if |p.kids| > 2 {
          hide AllTwo;
          assert TwoEach(n.kids);
          OverTwo(true, n.sk, n.keys, n.kids);
        }
      }
    } else {
      SharedTwo(l, p.keys[li], r, D);
      hide AllTwo;
      assert TwoEach(n.kids);
      OverTwo(true, n.sk, n.keys, n.kids);
    }
  }

  /** The step from `t` to `t'` narrows some parent. */
  ghost predicate NarrowsSomewhere(t: Node, t': Node, isRoot: bool, D: nat)
    requires Shape(t)
    decreases t, 1
  {
    || (exists i: nat :: CanFixDegree(t, i, D) && Narrows(t, i, isRoot, D) && t' == FixDegree(t, i, isRoot, D))
    || (t.Inner? && exists i: nat :: NarrowsChild(t, t', i, D))
  }

  ghost predicate NarrowsChild(t: Node, t': Node, i: nat, D: nat)
    requires Shape(t) && t.Inner?
    decreases t, 0
  {
    && i < |t.kids| && t'.Inner? && |t'.kids| == |t.kids|
    && t' == t.(kids := t.kids[i := t'.kids[i]])
    && NarrowsSomewhere(t.kids[i], t'.kids[i], false, D)
  }

  /** A rebalancing step makes a node with one child, in a tree without any, exactly when it narrows a parent. */
  lemma {:induction false} RebalanceTwoIff(t: Node, t': Node, isRoot: bool, D: nat)
    requires D >= 4 && Shape(t) && AllTwo(t) && Rebalances(t, t', isRoot, D)
    ensures AllTwo(t') <==> !NarrowsSomewhere(t, t', isRoot, D)
    decreases t
  {
    if NarrowsSomewhere(t, t', isRoot, D) { NarrowingShows(t, t', isRoot, D); }
    hide FixWeight, FixDegree;
    if i: nat :| CanFixWeight(t, i) && |t.kids[i].keys| >= 1 && t' == FixWeight(t, i, isRoot, D) {
      FixWeightKeepsTwo(t, i, isRoot, D);
    } else if i: nat :| CanFixDegree(t, i, D) && t' == FixDegree(t, i, isRoot, D) {
      FixDegreeTwoIff(t, i, isRoot, D);
    } else {
      var i: nat :| RebalancesChild(t, t', i, D);
      RebalanceTwoIff(t.kids[i], t'.kids[i], false, D);
      if NarrowsSomewhere(t.kids[i], t'.kids[i], false, D) {
        assert NarrowsChild(t, t', i, D);
      } else {
        assert AllTwo(t'.kids[i]);
      }
    }
  }

  lemma {:induction false} NarrowingShows(t: Node, t': Node, isRoot: bool, D: nat)
    requires Shape(t) && AllTwo(t) && NarrowsSomewhere(t, t', isRoot, D)
    ensures !AllTwo(t')
    decreases t
  {
    hide FixDegree;
    if i: nat :| CanFixDegree(t, i, D) && Narrows(t, i, isRoot, D) && t' == FixDegree(t, i, isRoot, D) {
      FixDegreeTwoIff(t, i, isRoot, D);
    } else {
      var i: nat :| NarrowsChild(t, t', i, D);
      NarrowingShows(t.kids[i], t'.kids[i], false, D);
    }
  }

  /** An update or a rebalancing step makes a node with one child, in a tree without any, exactly when it narrows a parent. */
  lemma StepTwoIff(t: Node, op: Op, t': Node, D: nat)
    requires D >= 4 && Shape(t) && LeavesFit(t, D) && AllTwo(t) && Step(t, op, t', D)
    ensures AllTwo(t') <==> !(op.DoRebalance? && NarrowsSomewhere(t, t', true, D))
  {
    hide Insert, Erase, Rebalances, NarrowsSomewhere, AllTwo;
    match op
    case DoInsert(key, val, replace) => InsertKeepsTwo(t, key, val, replace, true, D);
    case DoErase(key) => EraseKeepsTwo(t, key);
    case DoRebalance => RebalanceTwoIff(t, t', true, D);
  }
}
