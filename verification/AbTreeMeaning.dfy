/** What rebalancing, insertion and deletion do to the dictionary held by an ordered tree. */
module AbTreeMeaning {
  import opened AbTree
  import opened AbTreeOrder
  import opened AbTreeSteps

  // ----- fixWeightViolation

  /** The children from `i` to `i + m` under two new nodes, the first of them taking `h`. */
  function TwoKeys(ks: seq<int>, i: nat, h: nat, m: nat): seq<int>
    requires 2 <= h <= m - 2 && i + m <= |ks| + 1
  {
    ks[..i] + [ks[i + h - 1]] + ks[i + m - 1..]
  }

  function TwoKids(ks: seq<int>, cs: seq<Node>, i: nat, h: nat, m: nat): seq<Node>
    requires 2 <= h <= m - 2 && i + m <= |cs| == |ks| + 1
  {
    cs[..i]
    + [Inner(true, ks[i], ks[i..i + h - 1], cs[i..i + h]), Inner(true, ks[i + h], ks[i + h..i + m - 1], cs[i + h..i + m])]
    + cs[i + m..]
  }

  lemma TwoGroups(ks: seq<int>, cs: seq<Node>, i: nat, h: nat, m: nat)
    requires 2 <= h <= m - 2 && i + m <= |cs| == |ks| + 1
    ensures var ks1, cs1 := GroupKeys(ks, i, h), GroupKids(ks, cs, i, h, true, ks[i]);
            && |cs1| == |ks1| + 1 && i + 1 + (m - h) <= |cs1|
            && GroupKeys(ks1, i + 1, m - h) == TwoKeys(ks, i, h, m)
            && GroupKids(ks1, cs1, i + 1, m - h, true, ks[i + h]) == TwoKids(ks, cs, i, h, m)
  {
    var ks1, cs1 := GroupKeys(ks, i, h), GroupKids(ks, cs, i, h, true, ks[i]);
    assert ks1[i + 1..i + 1 + (m - h) - 1] == ks[i + h..i + m - 1];
    assert cs1[i + 1..i + 1 + (m - h)] == cs[i + h..i + m];
    assert ks1[..i + 1] == ks[..i] + [ks[i + h - 1]];
  }

  lemma TwoBounds(ks: seq<int>, cs: seq<Node>, i: nat, h: nat, m: nat, lo: Option<int>, hi: Option<int>)
    requires OrderedList(ks, cs, lo, hi) && |cs| == |ks| + 1 && 2 <= h <= m - 2 && i + m <= |cs|
    ensures Within(KidLo(ks, lo, i), KidHi(ks, hi, i + h - 1), ks[i])
    ensures var ks1 := GroupKeys(ks, i, h);
            i + 1 + (m - h) <= |ks1| + 1 && Within(KidLo(ks1, lo, i + 1), KidHi(ks1, hi, i + 1 + (m - h) - 1), ks[i + h])
  {
    assert Inside(lo, hi, ks[i]) && Inside(lo, hi, ks[i + h]);
    var ks1 := GroupKeys(ks, i, h);
    assert KidLo(ks1, lo, i + 1) == Some(ks[i + h - 1]);
    assert KidHi(ks1, hi, i + 1 + (m - h) - 1) == KidHi(ks, hi, i + m - 1);
  }

  lemma TwoEquiv(ks: seq<int>, cs: seq<Node>, i: nat, h: nat, m: nat, lo: Option<int>, hi: Option<int>)
    requires OrderedList(ks, cs, lo, hi) && |cs| == |ks| + 1 && 2 <= h <= m - 2 && i + m <= |cs|
    ensures Equiv(ks, cs, TwoKeys(ks, i, h, m), TwoKids(ks, cs, i, h, m), lo, hi)
  {
    hide OrderedList, FindList, GroupKeys, GroupKids, TwoKeys, TwoKids, KidLo, KidHi, Within;
    TwoBounds(ks, cs, i, h, m, lo, hi);
    TwoGroups(ks, cs, i, h, m);
    var ks1, cs1 := GroupKeys(ks, i, h), GroupKids(ks, cs, i, h, true, ks[i]);
    GroupEquiv(ks, cs, i, h, true, ks[i], lo, hi);
    GroupEquiv(ks1, cs1, i + 1, m - h, true, ks[i + h], lo, hi);
    EquivTrans(ks, cs, ks1, cs1, TwoKeys(ks, i, h, m), TwoKids(ks, cs, i, h, m), lo, hi);
  }

  lemma SplitEquivInner(ks: seq<int>, cs: seq<Node>, isRoot: bool, lo: Option<int>, hi: Option<int>)
    requires OrderedList(ks, cs, lo, hi) && |cs| == |ks| + 1 && |cs| >= 5
    ensures var s := Split(ks, cs, isRoot); Equiv(ks, cs, s.keys, s.kids, lo, hi) && Within(lo, hi, s.sk)
  {
    var h := |cs| / 2;
    assert Inside(lo, hi, ks[h - 1]);
    TwoEquiv(ks, cs, 0, h, |cs|, lo, hi);
    hide OrderedList, FindList;
    var s := Split(ks, cs, isRoot);
    assert s.keys == TwoKeys(ks, 0, h, |cs|);
    assert cs[h..|cs|] == cs[h..] && ks[h..|ks|] == ks[h..];
    assert s.kids == TwoKids(ks, cs, 0, h, |cs|);
  }

  /** Absorb and Split keep order and content. */
  lemma FixWeightSame(p: Node, i: nat, isRoot: bool, D: nat, lo: Option<int>, hi: Option<int>)
    requires Ordered(p, lo, hi) && Shape(p) && CanFixWeight(p, i) && |p.kids[i].keys| >= 1 && D >= 4
    ensures Same(p, FixWeight(p, i, isRoot, D), lo, hi)
  {
    assert Shape(p.kids[i]);
    InlineEquiv(p.keys, p.kids, i, lo, hi);
    var ks, cs := InlineKeys(p.keys, p.kids, i), InlineKids(p.kids, i);
    var n' := FixWeight(p, i, isRoot, D);
    if |cs| > D {
      SplitEquivInner(ks, cs, isRoot, lo, hi);
      hide OrderedList, FindList, InlineKeys, InlineKids, Split;
      EquivTrans(p.keys, p.kids, ks, cs, n'.keys, n'.kids, lo, hi);
    } else {
      assert Inside(lo, hi, ks[0]);
    }
    hide OrderedList, FindList, InlineKeys, InlineKids;
    InnerSame(p, n', lo, hi);
  }

  // ----- fixDegreeViolation

  lemma MergeEquiv(ks: seq<int>, cs: seq<Node>, i: nat, sk: int, lo: Option<int>, hi: Option<int>)
    requires OrderedList(ks, cs, lo, hi) && |cs| == |ks| + 1 && i + 1 < |cs| && (cs[i].Leaf? <==> cs[i + 1].Leaf?)
    requires Within(KidLo(ks, lo, i), KidHi(ks, hi, i + 1), sk)
    requires Shape(cs[i]) && Shape(cs[i + 1])
    ensures Equiv(ks, cs, ks[..i] + ks[i + 1..], cs[..i] + [Merged(cs[i], ks[i], cs[i + 1], sk)] + cs[i + 2..], lo, hi)
  {
    if cs[i].Leaf? {
      JoinEquiv(ks, cs, i, sk, lo, hi);
    } else {
      UnfoldPair(ks, cs, i, lo, hi);
      var ks1, cs1 := PairUnfoldedKeys(ks, cs, i), PairUnfoldedKids(cs, i);
      var m := |cs[i].kids| + |cs[i + 1].kids|;
      assert KidLo(ks1, lo, i) == KidLo(ks, lo, i) && KidHi(ks1, hi, i + m - 1) == KidHi(ks, hi, i + 1);
      MergeIs(ks, cs, i, sk);
      hide OrderedList, FindList, GroupKeys, GroupKids, PairUnfoldedKeys, PairUnfoldedKids, Merged, KidLo, KidHi;
      GroupEquiv(ks1, cs1, i, m, true, sk, lo, hi);
      EquivTrans(ks, cs, ks1, cs1, GroupKeys(ks1, i, m), GroupKids(ks1, cs1, i, m, true, sk), lo, hi);
    }
  }

  lemma MergeIs(ks: seq<int>, cs: seq<Node>, i: nat, sk: int)
    requires |cs| == |ks| + 1 && i + 1 < |cs| && cs[i].Inner? && cs[i + 1].Inner? && Shape(cs[i]) && Shape(cs[i + 1])
    ensures var ks1, cs1, m := PairUnfoldedKeys(ks, cs, i), PairUnfoldedKids(cs, i), |cs[i].kids| + |cs[i + 1].kids|;
            && |cs1| == |ks1| + 1 && i + m <= |cs1| && m >= 1
            && GroupKeys(ks1, i, m) == ks[..i] + ks[i + 1..]
            && GroupKids(ks1, cs1, i, m, true, sk) == cs[..i] + [Merged(cs[i], ks[i], cs[i + 1], sk)] + cs[i + 2..]
  {
    var ks1, cs1, m := PairUnfoldedKeys(ks, cs, i), PairUnfoldedKids(cs, i), |cs[i].kids| + |cs[i + 1].kids|;
    assert cs1[i..i + m] == cs[i].kids + cs[i + 1].kids;
    assert ks1[i..i + m - 1] == cs[i].keys + [ks[i]] + cs[i + 1].keys;
  }

  lemma ShareEquiv(ks: seq<int>, cs: seq<Node>, i: nat, lo: Option<int>, hi: Option<int>)
    requires OrderedList(ks, cs, lo, hi) && |cs| == |ks| + 1 && i + 1 < |cs| && (cs[i].Leaf? <==> cs[i + 1].Leaf?)
    requires Shape(cs[i]) && Shape(cs[i + 1]) && Degree(cs[i]) + Degree(cs[i + 1]) >= 4
    ensures var d := Shared(cs[i], ks[i], cs[i + 1]); Equiv(ks, cs, ks[i := d.1], cs[i := d.0][i + 1 := d.2], lo, hi)
  {
    if cs[i].Leaf? {
      ShareLeaves(ks, cs, i, lo, hi);
    } else {
      UnfoldPair(ks, cs, i, lo, hi);
      var ks1, cs1 := PairUnfoldedKeys(ks, cs, i), PairUnfoldedKids(cs, i);
      var m := |cs[i].kids| + |cs[i + 1].kids|;
      ShareInnerIs(ks, cs, i);
      hide OrderedList, FindList, TwoKeys, TwoKids, PairUnfoldedKeys, PairUnfoldedKids, Shared;
      TwoEquiv(ks1, cs1, i, m / 2, m, lo, hi);
      EquivTrans(ks, cs, ks1, cs1, TwoKeys(ks1, i, m / 2, m), TwoKids(ks1, cs1, i, m / 2, m), lo, hi);
    }
  }

  lemma ShareInnerIs(ks: seq<int>, cs: seq<Node>, i: nat)
    requires |cs| == |ks| + 1 && i + 1 < |cs| && cs[i].Inner? && cs[i + 1].Inner?
    requires Shape(cs[i]) && Shape(cs[i + 1]) && Degree(cs[i]) + Degree(cs[i + 1]) >= 4
    ensures var d := Shared(cs[i], ks[i], cs[i + 1]);
            var ks1, cs1, m := PairUnfoldedKeys(ks, cs, i), PairUnfoldedKids(cs, i), |cs[i].kids| + |cs[i + 1].kids|;
            && |cs1| == |ks1| + 1 && i + m <= |cs1|
            && TwoKeys(ks1, i, m / 2, m) == ks[i := d.1]
            && TwoKids(ks1, cs1, i, m / 2, m) == cs[i := d.0][i + 1 := d.2]
  {
    var ks1, cs1, m := PairUnfoldedKeys(ks, cs, i), PairUnfoldedKids(cs, i), |cs[i].kids| + |cs[i + 1].kids|;
    var keys, kids := cs[i].keys + [ks[i]] + cs[i + 1].keys, cs[i].kids + cs[i + 1].kids;
    var h := m / 2;
    TwoOfMiddle(ks[..i], keys, ks[i + 1..], cs[..i], kids, cs[i + 2..], h);
  }

  lemma TwoOfMiddle(ka: seq<int>, kb: seq<int>, kc: seq<int>, ca: seq<Node>, cb: seq<Node>, cc: seq<Node>, h: nat)
    requires |ca| == |ka| && |cb| == |kb| + 1 && |cc| == |kc| && 2 <= h <= |cb| - 2
    ensures TwoKeys(ka + kb + kc, |ka|, h, |cb|) == ka + [kb[h - 1]] + kc
    ensures TwoKids(ka + kb + kc, ca + cb + cc, |ka|, h, |cb|)
         == ca + [Inner(true, kb[0], kb[..h - 1], cb[..h]), Inner(true, kb[h], kb[h..], cb[h..])] + cc
  {
    Middle(ca, cb, cc, 0, h);
    Middle(ca, cb, cc, h, |cb|);
    Middle(ka, kb, kc, 0, h - 1);
    Middle(ka, kb, kc, h, |kb|);
    assert (ka + kb + kc)[|ka|] == kb[0] && (ka + kb + kc)[|ka| + h] == kb[h] && (ka + kb + kc)[|ka| + h - 1] == kb[h - 1];
    assert cb[h..|cb|] == cb[h..] && kb[h..|kb|] == kb[h..];
  }

  lemma Middle<T>(pre: seq<T>, mid: seq<T>, post: seq<T>, x: nat, y: nat)
    requires x <= y <= |mid|
    ensures (pre + mid + post)[..|pre|] == pre && (pre + mid + post)[|pre| + |mid|..] == post
    ensures (pre + mid + post)[|pre| + x..|pre| + y] == mid[x..y]
  {
  }

  lemma ShareLeaves(ks: seq<int>, cs: seq<Node>, i: nat, lo: Option<int>, hi: Option<int>)
    requires OrderedList(ks, cs, lo, hi) && |cs| == |ks| + 1 && i + 1 < |cs| && cs[i].Leaf? && cs[i + 1].Leaf?
    requires Shape(cs[i]) && Shape(cs[i + 1]) && Degree(cs[i]) + Degree(cs[i + 1]) >= 4
    ensures var d := Shared(cs[i], ks[i], cs[i + 1]); Equiv(ks, cs, ks[i := d.1], cs[i := d.0][i + 1 := d.2], lo, hi)
  {
    LeftSkWithin(ks, cs, i, lo, hi);
    var sk, h := cs[i].sk, (Degree(cs[i]) + Degree(cs[i + 1])) / 2;
    ShareLeavesIs(ks, cs, i, sk);
    hide OrderedList, FindList, SplitKeys, SplitKids, DropKey, JoinKids, Shared, KidLo, KidHi, Within;
    JoinEquiv(ks, cs, i, sk, lo, hi);
    var ks1, cs1 := DropKey(ks, i), JoinKids(cs, i, sk);
    SplitEquiv(ks1, cs1, i, h, lo, hi);
    EquivTrans(ks, cs, ks1, cs1, SplitKeys(ks1, cs1, i, h), SplitKids(cs1, i, h), lo, hi);
  }

  /** The range of a child lies in the range of any pair it belongs to. */
  lemma LeftSkWithin(ks: seq<int>, cs: seq<Node>, i: nat, lo: Option<int>, hi: Option<int>)
    requires OrderedList(ks, cs, lo, hi) && i + 1 < |cs|
    ensures Within(KidLo(ks, lo, i), KidHi(ks, hi, i + 1), cs[i].sk)
    ensures Within(KidLo(ks, lo, i), KidHi(ks, hi, i + 1), cs[i + 1].sk)
  {
    assert Ordered(cs[i], KidLo(ks, lo, i), KidHi(ks, hi, i));
    assert Ordered(cs[i + 1], KidLo(ks, lo, i + 1), KidHi(ks, hi, i + 1));
    assert Inside(lo, hi, ks[i]);
  }

  lemma ShareLeavesIs(ks: seq<int>, cs: seq<Node>, i: nat, sk: int)
    requires |cs| == |ks| + 1 && i + 1 < |cs| && cs[i].Leaf? && cs[i + 1].Leaf?
    requires Shape(cs[i]) && Shape(cs[i + 1]) && Degree(cs[i]) + Degree(cs[i + 1]) >= 4
    ensures var d := Shared(cs[i], ks[i], cs[i + 1]);
            var ks1, cs1, h := DropKey(ks, i), JoinKids(cs, i, sk), (Degree(cs[i]) + Degree(cs[i + 1])) / 2;
            && i < |cs1| == |ks1| + 1 && cs1[i].Leaf? && |cs1[i].vals| == |cs1[i].keys| && 0 < h < |cs1[i].keys|
            && SplitKeys(ks1, cs1, i, h) == ks[i := d.1] && SplitKids(cs1, i, h) == cs[i := d.0][i + 1 := d.2]
  {
  }

  /** AbsorbSibling, RootAbsorb and Distribute keep order and content. */
  lemma FixDegreeSame(p: Node, i: nat, isRoot: bool, D: nat, lo: Option<int>, hi: Option<int>)
    requires Ordered(p, lo, hi) && Shape(p) && CanFixDegree(p, i, D)
    ensures Same(p, FixDegree(p, i, isRoot, D), lo, hi)
  {
    var li := LeftOfPair(i);
    var left, right := p.kids[li], p.kids[li + 1];
    assert Shape(left) && Shape(right);
    assert OrderedList(p.keys, p.kids, lo, hi);
    hide Ordered, OrderedList, FindList, Shared, Merged, Shape;
    if Degree(left) + Degree(right) < 2 * A(D) {
      LeftSkWithin(p.keys, p.kids, li, lo, hi);
      MergeEquiv(p.keys, p.kids, li, p.kids[i].sk, lo, hi);
      var newl := Merged(left, p.keys[li], right, p.kids[i].sk);
      var ks, cs := p.keys[..li] + p.keys[li + 1..], p.kids[..li] + [newl] + p.kids[li + 2..];
      if isRoot && |p.kids| == 2 {
        assert ks == [] && cs == [newl];
        RootSame(p, newl, lo, hi);
      } else {
        SkWithin(p, lo, hi);
        InnerSame(p, FixDegree(p, i, isRoot, D), lo, hi);
      }
    } else {
      ShareEquiv(p.keys, p.kids, li, lo, hi);
      SkWithin(p, lo, hi);
      InnerSame(p, FixDegree(p, i, isRoot, D), lo, hi);
    }
  }

  lemma SkWithin(n: Node, lo: Option<int>, hi: Option<int>)
    requires Ordered(n, lo, hi)
    ensures Within(lo, hi, n.sk)
  {
  }

  lemma RootSame(p: Node, n: Node, lo: Option<int>, hi: Option<int>)
    requires p.Inner? && Ordered(p, lo, hi) && Equiv(p.keys, p.kids, [], [n], lo, hi)
    ensures Same(p, n, lo, hi)
  {
    assert Ordered([n][0], KidLo([], lo, 0), KidHi([], hi, 0));
    OrderedShape(p, lo, hi);
    OrderedShape(n, lo, hi);
    hide Ordered, OrderedList;
    forall k ensures Find(p, k) == Find(n, k) {
      assert FindList(p.keys, p.kids, k) == FindList([], [n], k);
      assert ChildIndex([], k) == 0;
    }
  }

  // ----- a step anywhere in the tree

  /** Replacing a child by one that is the same over its range. */
  lemma ChildSame(n: Node, n': Node, i: nat, lo: Option<int>, hi: Option<int>)
    requires n.Inner? && n'.Inner? && Ordered(n, lo, hi) && i < |n.kids| == |n.keys| + 1 && |n'.kids| == |n.kids|
    requires n' == n.(kids := n.kids[i := n'.kids[i]])
    requires Same(n.kids[i], n'.kids[i], KidLo(n.keys, lo, i), KidHi(n.keys, hi, i))
    ensures Same(n, n', lo, hi)
  {
    OrderedShape(n, lo, hi);
    forall j | 0 <= j < |n.kids|
      ensures Ordered(n'.kids[j], KidLo(n.keys, lo, j), KidHi(n.keys, hi, j)) && Shape(n'.kids[j])
    {
      assert Ordered(n.kids[j], KidLo(n.keys, lo, j), KidHi(n.keys, hi, j));
    }
    assert Ordered(n', lo, hi);
    hide Ordered, KidLo, KidHi;
    forall k ensures Find(n, k) == Find(n', k) {
      var c := ChildIndex(n.keys, k);
      assert c != i ==> n'.kids[c] == n.kids[c];
    }
  }

  /** Every rebalancing step keeps the order and finds the same value for every key. */
  lemma {:induction false} RebalanceKeepsMeaning(t: Node, t': Node, isRoot: bool, D: nat, lo: Option<int>, hi: Option<int>)
    requires D >= 4 && Ordered(t, lo, hi) && Shape(t) && Rebalances(t, t', isRoot, D)
    ensures Ordered(t', lo, hi) && Shape(t')
    ensures forall k :: Find(t', k) == Find(t, k)
    ensures Same(t, t', lo, hi)
    decreases t
  {
    if i: nat :| CanFixWeight(t, i) && |t.kids[i].keys| >= 1 && t' == FixWeight(t, i, isRoot, D) {
      hide Ordered;
      FixWeightSame(t, i, isRoot, D, lo, hi);
    } else if i: nat :| CanFixDegree(t, i, D) && t' == FixDegree(t, i, isRoot, D) {
      hide Ordered;
      FixDegreeSame(t, i, isRoot, D, lo, hi);
    } else {
      var i: nat :| RebalancesChild(t, t', i, D);
      assert Ordered(t.kids[i], KidLo(t.keys, lo, i), KidHi(t.keys, hi, i));
      hide Ordered;
      RebalanceKeepsMeaning(t.kids[i], t'.kids[i], false, D, KidLo(t.keys, lo, i), KidHi(t.keys, hi, i));
      ChildSame(t, t', i, lo, hi);
    }
  }
}
