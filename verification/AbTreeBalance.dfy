/** Capacity and balance: what every update and rebalancing step keeps besides the order. */
module AbTreeBalance {
  import opened AbTree
  import opened AbTreeOrder
  import opened AbTreeMeaning
  import opened AbTreeUpdate

  function Weight(n: Node): nat { if HasWeight(n) then 1 else 0 }

  /** No node holds more than `DEGREE` entries, and a node of weight zero has exactly two children. */
  predicate Fits(n: Node, D: nat) {
    match n
    case Leaf(_, keys, vals) => |vals| == |keys| <= D
    case Inner(w, _, keys, kids) =>
      && |kids| == |keys| + 1 && |kids| <= D && (!w ==> |kids| == 2)
      && forall i :: 0 <= i < |kids| ==> Fits(kids[i], D)
  }

  /** Every path from `n` to a leaf, both included, has weight `h`. */
  predicate Balanced(n: Node, h: int) {
    match n
    case Leaf(_, _, _) => h == 1
    case Inner(_, _, _, kids) => forall i :: 0 <= i < |kids| ==> Balanced(kids[i], h - Weight(n))
  }

  /** The root has weight one, and at least two children unless it is a leaf. */
  predicate RootOk(n: Node) {
    HasWeight(n) && (n.Inner? ==> |n.kids| >= 2)
  }

  /** What holds of the whole tree at every instant. */
  ghost predicate Good(t: Node, D: nat) {
    && Ordered(t, None, None) && Shape(t) && Fits(t, D) && RootOk(t)
    && exists h :: Balanced(t, h)
  }

  // ----- capacity

  lemma {:induction false} FitsShape(n: Node, D: nat)
    requires Fits(n, D)
    ensures Shape(n) && LeavesFit(n, D)
  {
    if n.Inner? {
      forall i | 0 <= i < |n.kids| ensures Shape(n.kids[i]) && LeavesFit(n.kids[i], D) { FitsShape(n.kids[i], D); }
    }
  }

  lemma InlineFits(p: Node, i: nat, D: nat)
    requires Fits(p, D) && CanFixWeight(p, i)
    ensures var ks, cs := InlineKeys(p.keys, p.kids, i), InlineKids(p.kids, i);
            |cs| == |ks| + 1 == |p.kids| + 1 && forall j :: 0 <= j < |cs| ==> Fits(cs[j], D)
  {
    var l, cs := p.kids[i], InlineKids(p.kids, i);
    assert Fits(l, D);
    forall j | 0 <= j < |cs| ensures Fits(cs[j], D) {
      if i <= j < i + |l.kids| { assert Fits(l.kids[j - i], D); }
    }
  }

  lemma FixWeightFits(p: Node, i: nat, isRoot: bool, D: nat)
    requires D >= 4 && Shape(p) && Fits(p, D) && CanFixWeight(p, i) && |p.kids[i].keys| >= 1
    ensures Fits(FixWeight(p, i, isRoot, D), D)
    ensures isRoot ==> RootOk(FixWeight(p, i, isRoot, D))
  {
    InlineFits(p, i, D);
    var ks, cs := InlineKeys(p.keys, p.kids, i), InlineKids(p.kids, i);
    hide InlineKeys, InlineKids;
    if |cs| > D {
      SplitFits(ks, cs, isRoot, D);
    }
  }

  lemma SplitFits(ks: seq<int>, cs: seq<Node>, isRoot: bool, D: nat)
    requires D >= 4 && |cs| == |ks| + 1 == D + 1 && forall j :: 0 <= j < |cs| ==> Fits(cs[j], D)
    ensures Fits(Split(ks, cs, isRoot), D)
    ensures forall c :: c in Split(ks, cs, isRoot).kids ==> c.Inner? && c.w && Degree(c) >= A(D)
  {
    var s := Split(ks, cs, isRoot);
    assert Fits(s.kids[0], D) && Fits(s.kids[1], D);
  }

  lemma FixDegreeFits(p: Node, i: nat, isRoot: bool, D: nat)
    requires D >= 4 && Shape(p) && Fits(p, D) && CanFixDegree(p, i, D)
    ensures Fits(FixDegree(p, i, isRoot, D), D)
    ensures isRoot ==> RootOk(FixDegree(p, i, isRoot, D))
  {
    var li := LeftOfPair(i);
    var l, r := p.kids[li], p.kids[li + 1];
    assert Fits(l, D) && Fits(r, D) && Shape(l) && Shape(r);
    if Degree(l) + Degree(r) < 2 * A(D) {
      MergedFits(l, p.keys[li], r, p.kids[i].sk, D);
    } else {
      SharedFits(l, p.keys[li], r, D);
    }
    hide Merged, Shared;
  }

  lemma MergedFits(l: Node, sep: int, r: Node, sk: int, D: nat)
    requires D >= 4 && Fits(l, D) && Fits(r, D) && (l.Leaf? <==> r.Leaf?) && Degree(l) + Degree(r) < 2 * A(D)
    ensures Fits(Merged(l, sep, r, sk), D) && RootOk(Merged(l, sep, r, sk))
  {
  }

  /** Distribute makes two nodes without violations. */
  lemma SharedFits(l: Node, sep: int, r: Node, D: nat)
    requires D >= 4 && Fits(l, D) && Fits(r, D) && Shape(l) && Shape(r) && (l.Leaf? <==> r.Leaf?)
    requires Degree(l) + Degree(r) >= 2 * A(D)
    ensures var d := Shared(l, sep, r);
            && Fits(d.0, D) && Fits(d.2, D) && HasWeight(d.0) && HasWeight(d.2)
            && Degree(d.0) >= A(D) && Degree(d.2) >= A(D)
  {
  }

  lemma {:induction false} RebalanceFits(t: Node, t': Node, isRoot: bool, D: nat)
    requires D >= 4 && Shape(t) && Fits(t, D) && Rebalances(t, t', isRoot, D) && (isRoot ==> RootOk(t))
    ensures Fits(t', D) && (isRoot ==> RootOk(t'))
    decreases t
  {
    hide FixWeight, FixDegree;
    if i: nat :| CanFixWeight(t, i) && |t.kids[i].keys| >= 1 && t' == FixWeight(t, i, isRoot, D) {
      FixWeightFits(t, i, isRoot, D);
    } else if i: nat :| CanFixDegree(t, i, D) && t' == FixDegree(t, i, isRoot, D) {
      FixDegreeFits(t, i, isRoot, D);
    } else {
      var i: nat :| RebalancesChild(t, t', i, D);
      RebalanceFits(t.kids[i], t'.kids[i], false, D);
    }
  }

  // ----- balance

  predicate AllBalanced(cs: seq<Node>, h: int) {
    forall j :: 0 <= j < |cs| ==> Balanced(cs[j], h)
  }

  lemma OverBalanced(w: bool, sk: int, ks: seq<int>, cs: seq<Node>, h: int)
    requires AllBalanced(cs, h)
    ensures Balanced(Inner(w, sk, ks, cs), if w then h + 1 else h)
  {
  }

  lemma InlineBalanced(p: Node, i: nat, h: int)
    requires Balanced(p, h) && CanFixWeight(p, i)
    ensures AllBalanced(InlineKids(p.kids, i), h - 1)
  {
    var l := p.kids[i];
    assert Balanced(l, h - 1);
    assert AllBalanced(l.kids, h - 1);
    hide Balanced;
  }

  lemma FixWeightBalanced(p: Node, i: nat, isRoot: bool, D: nat, h: int)
    requires D >= 4 && Shape(p) && Balanced(p, h) && CanFixWeight(p, i) && |p.kids[i].keys| >= 1
    ensures var n := FixWeight(p, i, isRoot, D); Balanced(n, h) || (isRoot && Balanced(n, h + 1))
  {
    InlineBalanced(p, i, h);
    var ks, cs := InlineKeys(p.keys, p.kids, i), InlineKids(p.kids, i);
    assert Shape(p.kids[i]);
    assert |cs| == |ks| + 1;
    hide InlineKeys, InlineKids, Shape, Split;
    if |cs| > D {
      SplitBalanced(ks, cs, isRoot, h);
    } else {
      OverBalanced(true, ks[0], ks, cs, h - 1);
    }
  }

  lemma SplitBalanced(ks: seq<int>, cs: seq<Node>, isRoot: bool, h: int)
    requires |cs| == |ks| + 1 && |cs| >= 5 && AllBalanced(cs, h - 1)
    ensures Balanced(Split(ks, cs, isRoot), if isRoot then h + 1 else h)
  {
    var m, n := |cs| / 2, Split(ks, cs, isRoot);
    hide Balanced;
    OverBalanced(true, ks[0], ks[..m - 1], cs[..m], h - 1);
    OverBalanced(true, ks[m], ks[m..], cs[m..], h - 1);
    OverBalanced(isRoot, n.sk, n.keys, n.kids, h);
  }

  /** Two siblings of weight one are both leaves or both internal. */
  lemma SiblingsAlike(p: Node, i: nat, j: nat, h: int)
    requires p.Inner? && Shape(p) && Balanced(p, h) && i < |p.kids| && j < |p.kids|
    requires HasWeight(p.kids[i]) && HasWeight(p.kids[j])
    ensures p.kids[i].Leaf? <==> p.kids[j].Leaf?
  {
    assert Balanced(p.kids[i], h - Weight(p)) && Balanced(p.kids[j], h - Weight(p));
    assert Shape(p.kids[i]) && Shape(p.kids[j]);
    HeightPositive(p.kids[i], h - Weight(p));
    if p.kids[i].Leaf? && p.kids[j].Inner? {
      HeightPositive(p.kids[j].kids[0], 0);
    } else if p.kids[i].Inner? && p.kids[j].Leaf? {
      HeightPositive(p.kids[i].kids[0], 0);
    }
  }

  lemma {:induction false} HeightPositive(n: Node, h: int)
    requires Shape(n) && Balanced(n, h)
    ensures h >= 1
  {
    if n.Inner? {
      assert Balanced(n.kids[0], h - Weight(n));
      HeightPositive(n.kids[0], h - Weight(n));
    }
  }

  lemma FixDegreeBalanced(p: Node, i: nat, isRoot: bool, D: nat, h: int)
    requires Shape(p) && Balanced(p, h) && CanFixDegree(p, i, D)
    ensures var n := FixDegree(p, i, isRoot, D); Balanced(n, h) || (isRoot && Balanced(n, h - 1))
  {
    var li := LeftOfPair(i);
    var l, r := p.kids[li], p.kids[li + 1];
    assert Balanced(l, h - 1) && Balanced(r, h - 1) && Shape(l) && Shape(r) && |p.keys| == |p.kids| - 1;
    assert AllBalanced(p.kids, h - 1);
    hide Merged, Shared, Balanced, Shape, A;
    MinDegree(D);
    var n := FixDegree(p, i, isRoot, D);
    if Degree(l) + Degree(r) < 2 * A(D) {
      MergedBalanced(l, p.keys[li], r, p.kids[i].sk, h - 1);
      if !(isRoot && |p.kids| == 2) {
        ReplacedBalanced(p.kids, li, li + 2, [Merged(l, p.keys[li], r, p.kids[i].sk)], h - 1);
        OverBalanced(true, n.sk, n.keys, n.kids, h - 1);
      }
    } else {
      var d := Shared(l, p.keys[li], r);
      SharedBalanced(l, p.keys[li], r, h - 1);
      ReplacedBalanced(p.kids, li, li + 2, [d.0, d.2], h - 1);
      assert n.kids == p.kids[..li] + [d.0, d.2] + p.kids[li + 2..];
      OverBalanced(true, n.sk, n.keys, n.kids, h - 1);
    }
  }

  lemma ReplacedBalanced(cs: seq<Node>, i: nat, j: nat, mid: seq<Node>, h: int)
    requires i <= j <= |cs| && AllBalanced(cs, h) && AllBalanced(mid, h)
    ensures AllBalanced(cs[..i] + mid + cs[j..], h)
  {
    hide Balanced;
  }

  lemma MinDegree(D: nat)
    ensures A(D) >= 2
  {
  }

  lemma MergedBalanced(l: Node, sep: int, r: Node, sk: int, h: int)
    requires (l.Leaf? <==> r.Leaf?) && HasWeight(l) && HasWeight(r) && Balanced(l, h) && Balanced(r, h)
    ensures Balanced(Merged(l, sep, r, sk), h)
  {
  }

  lemma SharedBalanced(l: Node, sep: int, r: Node, h: int)
    requires (l.Leaf? <==> r.Leaf?) && HasWeight(l) && HasWeight(r) && Balanced(l, h) && Balanced(r, h)
    requires Shape(l) && Shape(r) && Degree(l) + Degree(r) >= 4
    ensures var d := Shared(l, sep, r); Balanced(d.0, h) && Balanced(d.2, h)
  {
    if l.Inner? {
      var m, d := (Degree(l) + Degree(r)) / 2, Shared(l, sep, r);
      assert AllBalanced(l.kids + r.kids, h - 1);
      hide Balanced;
      OverBalanced(true, d.0.sk, d.0.keys, d.0.kids, h - 1);
      OverBalanced(true, d.2.sk, d.2.keys, d.2.kids, h - 1);
    }
  }

  lemma {:induction false} RebalanceBalanced(t: Node, t': Node, isRoot: bool, D: nat, h: int)
    requires D >= 4 && Shape(t) && Balanced(t, h) && Rebalances(t, t', isRoot, D)
    ensures Balanced(t', h) || (isRoot && (Balanced(t', h - 1) || Balanced(t', h + 1)))
    decreases t
  {
    hide FixWeight, FixDegree;
    if i: nat :| CanFixWeight(t, i) && |t.kids[i].keys| >= 1 && t' == FixWeight(t, i, isRoot, D) {
      FixWeightBalanced(t, i, isRoot, D, h);
    } else if i: nat :| CanFixDegree(t, i, D) && t' == FixDegree(t, i, isRoot, D) {
      FixDegreeBalanced(t, i, isRoot, D, h);
    } else {
      var i: nat :| RebalancesChild(t, t', i, D);
      RebalanceBalanced(t.kids[i], t'.kids[i], false, D, h - Weight(t));
    }
  }

  // ----- updates

  lemma {:induction false} InsertFits(n: Node, key: int, val: Value, replace: bool, isRoot: bool, D: nat, h: int)
    requires D >= 4 && Shape(n) && LeavesFit(n, D) && Fits(n, D) && Balanced(n, h) && (isRoot ==> RootOk(n))
    ensures var n' := Insert(n, key, val, replace, isRoot, D);
            && Fits(n', D) && (isRoot ==> RootOk(n'))
            && (Balanced(n', h) || (isRoot && Balanced(n', h + 1)))
  {
    if n.Inner? {
      var i := ChildIndex(n.keys, key);
      InsertFits(n.kids[i], key, val, replace, false, D, h - Weight(n));
    } else {
      InsertLeafFits(n, key, val, replace, isRoot, D);
    }
  }

  /** Overflow makes two leaves without violations. */
  lemma OverflowFits(keys: seq<int>, vals: seq<Value>, isRoot: bool, D: nat)
    requires D >= 4 && |keys| == |vals| == D + 1
    ensures var n := Overflow(keys, vals, isRoot);
            && Fits(n, D) && Balanced(n, if isRoot then 2 else 1) && |n.kids| == 2
            && forall i :: 0 <= i < 2 ==> n.kids[i].Leaf? && Degree(n.kids[i]) >= A(D)
  {
    var n := Overflow(keys, vals, isRoot);
    assert Fits(n.kids[0], D) && Fits(n.kids[1], D);
  }

  lemma InsertLeafFits(l: Node, key: int, val: Value, replace: bool, isRoot: bool, D: nat)
    requires D >= 4 && l.Leaf? && Fits(l, D)
    ensures var n' := InsertLeaf(l, key, val, replace, isRoot, D);
            && Fits(n', D) && (isRoot ==> RootOk(n'))
            && (Balanced(n', 1) || (isRoot && Balanced(n', 2)))
  {
    var i := KeyIndex(l.keys, key);
    if !(i < |l.keys| && l.keys[i] == key) && |l.keys| == D {
      OverflowFits(l.keys[..i] + [key] + l.keys[i..], l.vals[..i] + [val] + l.vals[i..], isRoot, D);
    }
  }

  lemma {:induction false} EraseFits(n: Node, key: int, D: nat, h: int)
    requires Shape(n) && Fits(n, D) && Balanced(n, h)
    ensures var n' := Erase(n, key);
            Fits(n', D) && Balanced(n', h) && (RootOk(n) ==> RootOk(n')) && HasWeight(n') == HasWeight(n)
  {
    if n.Inner? {
      var i := ChildIndex(n.keys, key);
      EraseFits(n.kids[i], key, D, h - Weight(n));
    }
  }

  // ----- which new nodes can have a violation

  /** Neither a weight nor a degree violation. */
  predicate Sound(n: Node, D: nat) { HasWeight(n) && Degree(n) >= A(D) }

  /**
   Absorb and Split call a fix for the new top node.  Every other node below it is an old one or has no violation,
   and below a new child all is old.
   */
  lemma FixWeightNewNodes(p: Node, i: nat, isRoot: bool, D: nat, c: Node)
    requires D >= 4 && Shape(p) && Fits(p, D) && CanFixWeight(p, i) && |p.kids[i].keys| >= 1
    requires c in FixWeight(p, i, isRoot, D).kids
    ensures c in p.kids || c in p.kids[i].kids || (Sound(c, D) && c.Inner? && forall x :: x in c.kids ==> x in p.kids || x in p.kids[i].kids)
  {
    InlineFits(p, i, D);
    var ks, cs := InlineKeys(p.keys, p.kids, i), InlineKids(p.kids, i);
    assert forall x :: x in cs ==> x in p.kids || x in p.kids[i].kids;
    if |cs| > D {
      SplitFits(ks, cs, isRoot, D);
      hide InlineKids, InlineKeys, Fits, Shape;
      forall x | c.Inner? && x in c.kids ensures x in cs {}
    }
  }

  /**
   AbsorbSibling calls fixes for the merged node and the new top node, Distribute for the new top node; every other
   child is an old one or has no violation.
   */
  lemma FixDegreeNewNodes(p: Node, i: nat, isRoot: bool, D: nat, c: Node)
    requires D >= 4 && Shape(p) && Fits(p, D) && CanFixDegree(p, i, D)
    requires var n := FixDegree(p, i, isRoot, D); n.Inner? && c in n.kids
    ensures var li := LeftOfPair(i);
            var l, r := p.kids[li], p.kids[li + 1];
            if Degree(l) + Degree(r) >= 2 * A(D) then c in p.kids || Sound(c, D)
            else if isRoot && |p.kids| == 2 then (l.Inner? && c in l.kids) || (r.Inner? && c in r.kids)
            else c in p.kids || c == Merged(l, p.keys[li], r, p.kids[i].sk)
  {
    var li := LeftOfPair(i);
    var l, r := p.kids[li], p.kids[li + 1];
    assert Fits(l, D) && Fits(r, D) && Shape(l) && Shape(r);
    if Degree(l) + Degree(r) >= 2 * A(D) {
      SharedFits(l, p.keys[li], r, D);
      hide Shared, Shape, Fits, A;
    }
  }

  // ----- whole runs

  datatype Op =
    | DoInsert(key: int, val: Value, replace: bool)
    | DoErase(key: int)
    | DoRebalance

  /** One successful SCX on the whole tree. */
  ghost predicate Step(t: Node, op: Op, t': Node, D: nat)
    requires Shape(t) && LeavesFit(t, D) && D >= 4
  {
    match op
    case DoInsert(key, val, replace) => t' == Insert(t, key, val, replace, true, D)
    case DoErase(key) => t' == Erase(t, key)
    case DoRebalance => Rebalances(t, t', true, D)
  }

  /** What the operation should do to the binding of `k`. */
  function Effect(op: Op, k: int, was: Option<Value>): Option<Value> {
    match op
    case DoInsert(key, val, replace) => if k == key && (replace || was.None?) then Some(val) else was
    case DoErase(key) => if k == key then None else was
    case DoRebalance => was
  }

  /** Each step keeps the invariant of the tree and acts on the dictionary as its operation should. */
  lemma StepKeepsGood(t: Node, op: Op, t': Node, D: nat)
    requires D >= 4 && Good(t, D) && LeavesFit(t, D) && Step(t, op, t', D)
    ensures Good(t', D) && LeavesFit(t', D)
    ensures forall k :: Find(t', k) == Effect(op, k, Find(t, k))
  {
    var h :| Balanced(t, h);
    hide Ordered, Fits, Balanced, Rebalances, Insert, Erase, Find;
    match op
    case DoInsert(key, val, replace) =>
      InsertMeaning(t, key, val, replace, true, D, None, None);
      InsertFits(t, key, val, replace, true, D, h);
      FitsShape(t', D);
    case DoErase(key) =>
      EraseMeaning(t, key, None, None);
      EraseFits(t, key, D, h);
      FitsShape(t', D);
    case DoRebalance =>
      RebalanceKeepsMeaning(t, t', true, D, None, None);
      RebalanceFits(t, t', true, D);
      RebalanceBalanced(t, t', true, D, h);
      FitsShape(t', D);
  }

  /** A run from the tree that the constructor makes: one empty leaf. */
  ghost predicate TreeRun(run: seq<Node>, ops: seq<Op>, D: nat)
    requires D >= 4
  {
    && |run| == |ops| + 1 && run[0].Leaf? && run[0].keys == [] && run[0].vals == []
    && forall i :: 0 <= i < |ops| ==> Shape(run[i]) && LeavesFit(run[i], D) && Step(run[i], ops[i], run[i + 1], D)
  }

  function Replay(ops: seq<Op>, k: int): Option<Value> {
    if ops == [] then None else Effect(ops[|ops| - 1], k, Replay(ops[..|ops| - 1], k))
  }

  /** Every reachable tree is good and holds what the operations so far have put there. */
  lemma {:induction false} ReachableTreesAreGood(run: seq<Node>, ops: seq<Op>, D: nat)
    requires D >= 4 && TreeRun(run, ops, D)
    ensures Good(run[|ops|], D) && LeavesFit(run[|ops|], D)
    ensures forall k :: Find(run[|ops|], k) == Replay(ops, k)
    decreases |ops|
  {
    var n := |ops|;
    if n == 0 {
      assert Balanced(run[0], 1);
    } else {
      ReachableTreesAreGood(run[..n], ops[..n - 1], D);
      assert run[n - 1] == run[..n][n - 1] && Step(run[n - 1], ops[n - 1], run[n], D);
      hide Step, Good;
      StepKeepsGood(run[n - 1], ops[n - 1], run[n], D);
    }
  }
}
