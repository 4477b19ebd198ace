/** Rebalancing makes progress, ends, and ends in a tree without violations. */
module AbTreeProgress {
  import opened AbTree
  import opened AbTreeOrder
  import opened AbTreeMeaning
  import opened AbTreeBalance

  /** No node of weight zero, and no node but the root below the minimum degree. */
  predicate Clean(n: Node, D: nat, isRoot: bool) {
    && HasWeight(n) && (isRoot || Degree(n) >= A(D))
    && (n.Inner? ==> forall i :: 0 <= i < |n.kids| ==> Clean(n.kids[i], D, false))
  }

  // ----- progress

  /** Below a node without violations, the topmost violation can be fixed. */
  lemma {:induction false} Progress(t: Node, isRoot: bool, D: nat, h: int) returns (t': Node)
    requires D >= 4 && Shape(t) && Fits(t, D) && Balanced(t, h)
    requires HasWeight(t) && (t.Inner? ==> |t.kids| >= 2) && (isRoot || Degree(t) >= A(D))
    requires !Clean(t, D, isRoot)
    ensures Rebalances(t, t', isRoot, D)
    decreases t
  {
    var j: nat :| j < |t.kids| && !Clean(t.kids[j], D, false);
    if i: nat :| i < |t.kids| && !HasWeight(t.kids[i]) {
      assert Fits(t.kids[i], D);
      assert CanFixWeight(t, i);
      t' := FixWeight(t, i, isRoot, D);
    } else if i: nat :| i < |t.kids| && Degree(t.kids[i]) < A(D) {
      var li := LeftOfPair(i);
      SiblingsAlike(t, li, li + 1, h);
      assert CanFixDegree(t, i, D);
      t' := FixDegree(t, i, isRoot, D);
    } else {
      var c' := Progress(t.kids[j], false, D, h - Weight(t));
      t' := t.(kids := t.kids[j := c']);
      assert RebalancesChild(t, t', j, D);
    }
  }

  /** A tree without violations admits no step. */
  lemma {:induction false} CleanIsFinal(t: Node, t': Node, isRoot: bool, D: nat)
    requires D >= 4 && Shape(t) && Clean(t, D, isRoot)
    ensures !Rebalances(t, t', isRoot, D)
    decreases t
  {
    if t.Inner? {
      forall i: nat | i < |t.kids| ensures Clean(t.kids[i], D, false) && !RebalancesChild(t, t', i, D) {
        if t'.Inner? && |t'.kids| == |t.kids| { CleanIsFinal(t.kids[i], t'.kids[i], false, D); }
      }
    }
  }

  /** A good tree admits a rebalancing step exactly when it has a violation. */
  lemma StepExactlyWhenViolated(t: Node, D: nat)
    requires D >= 4 && Good(t, D)
    ensures (exists t' :: Rebalances(t, t', true, D)) <==> !Clean(t, D, true)
  {
    hide Rebalances, Ordered, Fits;
    if Clean(t, D, true) {
      forall t' ensures !Rebalances(t, t', true, D) { CleanIsFinal(t, t', true, D); }
    } else {
      var h :| Balanced(t, h);
      var t' := Progress(t, true, D, h);
      assert Rebalances(t, t', true, D);
    }
  }

  // ----- termination

  /** Nodes of weight zero, the sum of their weighted depths, all nodes, nodes below the minimum degree. */
  datatype Measure = Measure(zeros: nat, depths: nat, nodes: nat, low: nat)

  function Plus(a: Measure, b: Measure): Measure {
    Measure(a.zeros + b.zeros, a.depths + b.depths, a.nodes + b.nodes, a.low + b.low)
  }

  predicate Less(a: Measure, b: Measure) {
    || a.zeros < b.zeros
    || (a.zeros == b.zeros && a.depths < b.depths)
    || (a.zeros == b.zeros && a.depths == b.depths && a.nodes < b.nodes)
    || (a.zeros == b.zeros && a.depths == b.depths && a.nodes == b.nodes && a.low < b.low)
  }

  /** Less in the first three components already. */
  predicate Fewer(a: Measure, b: Measure) {
    Less(a.(low := 0), b.(low := 0))
  }

  lemma LessInContext(o: Measure, o': Measure, a: Measure, m: Measure, m': Measure, b: Measure)
    requires o' == o.(low := o'.low)
    requires Fewer(m', m) || (o' == o && Less(m', m))
    ensures Less(Plus(o', Plus(Plus(a, m'), b)), Plus(o, Plus(Plus(a, m), b)))
  {
  }

  /** One for a node of weight one, not the root, that is below the minimum degree. */
  function Low(n: Node, isRoot: bool, D: nat): (r: nat)
    ensures r <= 1
  {
    if HasWeight(n) && !isRoot && Degree(n) < A(D) then 1 else 0
  }

  /** What a node itself contributes at weighted depth `d`. */
  function Own(n: Node, d: nat, isRoot: bool, D: nat): Measure {
    if HasWeight(n) then Measure(0, 0, 1, Low(n, isRoot, D)) else Measure(1, d, 1, 0)
  }

  function Of(n: Node, d: nat, isRoot: bool, D: nat): Measure
    decreases n, 0
  {
    if n.Leaf? then Own(n, d, isRoot, D)
    else Plus(Own(n, d, isRoot, D), OfAll(n.kids, d + Weight(n), D))
  }

  function OfAll(cs: seq<Node>, d: nat, D: nat): Measure
    decreases cs, 1
  {
    if cs == [] then Measure(0, 0, 0, 0) else Plus(Of(cs[0], d, false, D), OfAll(cs[1..], d, D))
  }

  lemma OfUnfold(n: Node, d: nat, isRoot: bool, D: nat)
    ensures n.Leaf? ==> Of(n, d, isRoot, D) == Own(n, d, isRoot, D)
    ensures n.Inner? ==> Of(n, d, isRoot, D) == Plus(Own(n, d, isRoot, D), OfAll(n.kids, d + Weight(n), D))
  {
  }

  /** What the nodes below `n` contribute, when they are at depth `d`. */
  function Below(n: Node, d: nat, D: nat): Measure {
    if n.Inner? then OfAll(n.kids, d, D) else Measure(0, 0, 0, 0)
  }

  lemma WeightOne(n: Node, d: nat, isRoot: bool, D: nat)
    requires HasWeight(n)
    ensures Of(n, d, isRoot, D) == Plus(Measure(0, 0, 1, Low(n, isRoot, D)), Below(n, d + 1, D))
  {
    hide Of, OfAll, Low;
    OfUnfold(n, d, isRoot, D);
    assert Own(n, d, isRoot, D) == Measure(0, 0, 1, Low(n, isRoot, D));
    hide Own;
  }

  lemma {:induction false} OfConcat(a: seq<Node>, b: seq<Node>, d: nat, D: nat)
    ensures OfAll(a + b, d, D) == Plus(OfAll(a, d, D), OfAll(b, d, D))
  {
    hide Of;
    if a == [] {
      assert a + b == b;
    } else {
      assert (a + b)[0] == a[0] && (a + b)[1..] == a[1..] + b;
      OfConcat(a[1..], b, d, D);
    }
  }

  lemma OfOne(c: Node, d: nat, D: nat)
    ensures OfAll([c], d, D) == Of(c, d, false, D)
  {
    hide Of;
  }

  /** A child list with one part replaced. */
  lemma OfParts(pre: seq<Node>, mid: seq<Node>, post: seq<Node>, d: nat, D: nat)
    ensures OfAll(pre + mid + post, d, D) == Plus(Plus(OfAll(pre, d, D), OfAll(mid, d, D)), OfAll(post, d, D))
  {
    hide Of, OfAll;
    OfConcat(pre + mid, post, d, D);
    OfConcat(pre, mid, d, D);
  }

  lemma OfTwo(a: Node, b: Node, d: nat, D: nat)
    ensures OfAll([a, b], d, D) == Plus(Of(a, d, false, D), Of(b, d, false, D))
  {
    hide Of, OfAll;
    assert [a, b] == [a] + [b];
    OfConcat([a], [b], d, D);
    OfOne(a, d, D);
    OfOne(b, d, D);
  }

  /** Moving a subtree up lowers only the depths. */
  lemma {:induction false} OfShift(n: Node, d: nat, D: nat, isRoot: bool)
    ensures var m, m' := Of(n, d, isRoot, D), Of(n, d + 1, isRoot, D);
            m' == m.(depths := m.depths + m.zeros)
    decreases n, 0
  {
    hide Of, OfAll, Low;
    OfUnfold(n, d, isRoot, D);
    OfUnfold(n, d + 1, isRoot, D);
    var o, o' := Own(n, d, isRoot, D), Own(n, d + 1, isRoot, D);
    assert o' == o.(depths := o.depths + o.zeros);
    hide Own;
    if n.Inner? { OfAllShift(n.kids, d + Weight(n), D); }
  }

  lemma {:induction false} OfAllShift(cs: seq<Node>, d: nat, D: nat)
    ensures var m, m' := OfAll(cs, d, D), OfAll(cs, d + 1, D);
            m' == m.(depths := m.depths + m.zeros)
    decreases cs, 1
  {
    hide Of;
    if cs != [] {
      OfShift(cs[0], d, D, false);
      OfAllShift(cs[1..], d, D);
    }
  }

  lemma FixWeightLess(p: Node, i: nat, d: nat, isRoot: bool, D: nat)
    requires D >= 4 && Shape(p) && CanFixWeight(p, i) && |p.kids[i].keys| >= 1
    ensures Less(Of(FixWeight(p, i, isRoot, D), d, isRoot, D), Of(p, d, isRoot, D))
  {
    hide Of, OfAll, Low, A;
    var l, ks, cs := p.kids[i], InlineKeys(p.keys, p.kids, i), InlineKids(p.kids, i);
    var n := FixWeight(p, i, isRoot, D);
    assert Shape(l) && |cs| == |ks| + 1;
    WeightOne(p, d, isRoot, D);
    OfUnfold(l, d + 1, false, D);
    assert p.kids == p.kids[..i] + [l] + p.kids[i + 1..];
    OfParts(p.kids[..i], [l], p.kids[i + 1..], d + 1, D);
    OfOne(l, d + 1, D);
    OfParts(p.kids[..i], l.kids, p.kids[i + 1..], d + 1, D);
    hide Shape, Split, InlineKids, InlineKeys;
    if |cs| > D {
      SplitMeasure(ks, cs, d, isRoot, D);
    } else {
      WeightOne(n, d, isRoot, D);
    }
  }

  lemma SplitMeasure(ks: seq<int>, cs: seq<Node>, d: nat, isRoot: bool, D: nat)
    requires |cs| == |ks| + 1 && |cs| >= 5
    ensures var m, c := Of(Split(ks, cs, isRoot), d, isRoot, D), OfAll(cs, d + 1, D);
            && m.zeros == c.zeros + (if isRoot then 0 else 1)
            && (!isRoot ==> m.depths == c.depths + d)
  {
    hide Of, OfAll, Low;
    var h, s := |cs| / 2, Split(ks, cs, isRoot);
    var e := if isRoot then d + 1 else d;
    var l, r := s.kids[0], s.kids[1];
    assert s.kids == [l, r] && l.kids == cs[..h] && r.kids == cs[h..] && l.w && r.w && s.w == isRoot;
    assert cs == cs[..h] + cs[h..];
    hide Split;
    OfUnfold(s, d, isRoot, D);
    OfTwo(l, r, e, D);
    WeightOne(l, e, false, D);
    WeightOne(r, e, false, D);
    OfConcat(cs[..h], cs[h..], e + 1, D);
    if isRoot { OfAllShift(cs, d + 1, D); }
  }

  /** The measure of a node over three lists of children. */
  lemma OverParts(n: Node, pre: seq<Node>, mid: seq<Node>, post: seq<Node>, d: nat, isRoot: bool, D: nat)
    requires n.Inner? && n.kids == pre + mid + post
    ensures var e := d + Weight(n);
            Of(n, d, isRoot, D) == Plus(Own(n, d, isRoot, D), Plus(Plus(OfAll(pre, e, D), OfAll(mid, e, D)), OfAll(post, e, D)))
  {
    hide Of, OfAll, Own;
    OfUnfold(n, d, isRoot, D);
    OfParts(pre, mid, post, d + Weight(n), D);
  }

  /** Replacing neighbouring children of a node by smaller ones. */
  lemma PartLess(n: Node, n': Node, pre: seq<Node>, mid: seq<Node>, mid': seq<Node>, post: seq<Node>,
                 d: nat, isRoot: bool, D: nat)
    requires n.Inner? && n.kids == pre + mid + post && n'.Inner? && n'.kids == pre + mid' + post && n'.w == n.w
    requires var m, m' := OfAll(mid, d + Weight(n), D), OfAll(mid', d + Weight(n), D);
             Fewer(m', m) || (|mid| == |mid'| && Less(m', m))
    ensures Less(Of(n', d, isRoot, D), Of(n, d, isRoot, D))
  {
    hide Of, OfAll, Less, Fewer, Plus, Own, Low;
    var e := d + Weight(n);
    assert e == d + Weight(n') && (|mid| == |mid'| ==> Degree(n) == Degree(n'));
    OwnAlike(n, n', d, isRoot, D);
    hide Degree, Weight, HasWeight;
    var o, o', x, m, m', y := Own(n, d, isRoot, D), Own(n', d, isRoot, D), OfAll(pre, e, D), OfAll(mid, e, D), OfAll(mid', e, D), OfAll(post, e, D);
    assert Of(n, d, isRoot, D) == Plus(o, Plus(Plus(x, m), y)) by { OverParts(n, pre, mid, post, d, isRoot, D); }
    assert Of(n', d, isRoot, D) == Plus(o', Plus(Plus(x, m'), y)) by { OverParts(n', pre, mid', post, d, isRoot, D); }
    LessInContext(o, o', x, m, m', y);
  }

  lemma OwnAlike(n: Node, n': Node, d: nat, isRoot: bool, D: nat)
    requires HasWeight(n) == HasWeight(n')
    ensures Own(n', d, isRoot, D) == Own(n, d, isRoot, D).(low := Own(n', d, isRoot, D).low)
    ensures Degree(n) == Degree(n') ==> Own(n', d, isRoot, D) == Own(n, d, isRoot, D)
  {
  }

  lemma FixDegreeLess(p: Node, i: nat, d: nat, isRoot: bool, D: nat)
    requires D >= 4 && Shape(p) && CanFixDegree(p, i, D)
    ensures Less(Of(FixDegree(p, i, isRoot, D), d, isRoot, D), Of(p, d, isRoot, D))
  {
    hide Of, OfAll, Low;
    var li := LeftOfPair(i);
    var l, r, pre, post := p.kids[li], p.kids[li + 1], p.kids[..li], p.kids[li + 2..];
    var n := FixDegree(p, i, isRoot, D);
    assert Shape(l) && Shape(r) && p.kids == pre + [l, r] + post;
    OfTwo(l, r, d + 1, D);
    hide Merged, Shared;
    if Degree(l) + Degree(r) < 2 * A(D) {
      var newl := Merged(l, p.keys[li], r, p.kids[i].sk);
      MergedMeasure(l, p.keys[li], r, p.kids[i].sk, d, D);
      if isRoot && |p.kids| == 2 {
        assert n == newl && p.kids == [l, r];
        hide Shape, FixDegree, Degree, A;
        WeightOne(p, d, isRoot, D);
      } else {
        assert n.kids == pre + [newl] + post;
        hide Shape, FixDegree, Degree, A;
        OfOne(newl, d + 1, D);
        PartLess(p, n, pre, [l, r], [newl], post, d, isRoot, D);
      }
    } else {
      var s := Shared(l, p.keys[li], r);
      SharedMeasure(l, p.keys[li], r, d, D);
      assert n.kids == pre + [s.0, s.2] + post;
      hide Shape, FixDegree, Degree, A;
      OfTwo(s.0, s.2, d + 1, D);
      PartLess(p, n, pre, [l, r], [s.0, s.2], post, d, isRoot, D);
    }
  }

  lemma MergedMeasure(l: Node, sep: int, r: Node, sk: int, d: nat, D: nat)
    requires (l.Leaf? <==> r.Leaf?) && HasWeight(l) && HasWeight(r)
    ensures var n, s := Merged(l, sep, r, sk), Plus(Of(l, d + 1, false, D), Of(r, d + 1, false, D));
            var m, up := Of(n, d + 1, false, D), Of(n, d, true, D);
            && HasWeight(n) && m.zeros == s.zeros && m.depths == s.depths && m.nodes == s.nodes - 1
            && up.zeros == s.zeros && up.depths <= s.depths && up.nodes == s.nodes - 1
  {
    hide Of, OfAll, Low;
    var n := Merged(l, sep, r, sk);
    WeightOne(n, d + 1, false, D);
    WeightOne(n, d, true, D);
    WeightOne(l, d + 1, false, D);
    WeightOne(r, d + 1, false, D);
    if l.Inner? {
      OfConcat(l.kids, r.kids, d + 2, D);
      OfAllShift(l.kids + r.kids, d + 1, D);
    }
  }

  lemma SharedMeasure(l: Node, sep: int, r: Node, d: nat, D: nat)
    requires (l.Leaf? <==> r.Leaf?) && HasWeight(l) && HasWeight(r) && Shape(l) && Shape(r)
    requires D >= 4 && Degree(l) + Degree(r) >= 2 * A(D) && (Degree(l) < A(D) || Degree(r) < A(D))
    ensures var s := Shared(l, sep, r);
            var m, m' := Plus(Of(l, d + 1, false, D), Of(r, d + 1, false, D)),
                         Plus(Of(s.0, d + 1, false, D), Of(s.2, d + 1, false, D));
            m'.zeros == m.zeros && m'.depths == m.depths && m'.nodes == m.nodes && m'.low < m.low
  {
    hide Of, OfAll, Shape, Shared, Below;
    SharedParts(l, sep, r, D);
    assert Degree(l) + Degree(r) >= 4;
    var s := Shared(l, sep, r);
    SharedBelow(l, r, s.0, s.2, d + 2, D);
    WeightOne(l, d + 1, false, D);
    WeightOne(r, d + 1, false, D);
    WeightOne(s.0, d + 1, false, D);
    WeightOne(s.2, d + 1, false, D);
  }

  lemma SharedBelow(l: Node, r: Node, l': Node, r': Node, d: nat, D: nat)
    requires (l.Leaf? <==> r.Leaf?) && (l'.Leaf? <==> l.Leaf?) && (r'.Leaf? <==> l.Leaf?)
    requires l.Inner? ==> l'.kids + r'.kids == l.kids + r.kids
    ensures Plus(Below(l', d, D), Below(r', d, D)) == Plus(Below(l, d, D), Below(r, d, D))
  {
    hide Of, OfAll;
    if l.Inner? {
      OfConcat(l.kids, r.kids, d, D);
      OfConcat(l'.kids, r'.kids, d, D);
    }
  }

  lemma SharedParts(l: Node, sep: int, r: Node, D: nat)
    requires (l.Leaf? <==> r.Leaf?) && Shape(l) && Shape(r) && Degree(l) + Degree(r) >= 2 * A(D)
    ensures var s := Shared(l, sep, r);
            && HasWeight(s.0) && HasWeight(s.2) && (s.0.Leaf? <==> l.Leaf?) && (s.2.Leaf? <==> l.Leaf?)
            && Degree(s.0) >= A(D) && Degree(s.2) >= A(D)
            && (l.Inner? ==> s.0.kids + s.2.kids == l.kids + r.kids)
  {
    if l.Inner? {
      var h, kids := (Degree(l) + Degree(r)) / 2, l.kids + r.kids;
      assert kids[..h] + kids[h..] == kids;
    }
  }

  /** Every rebalancing step lowers the measure, wherever in the tree it happens. */
  lemma {:induction false} RebalanceLess(t: Node, t': Node, d: nat, isRoot: bool, D: nat)
    requires D >= 4 && Shape(t) && Rebalances(t, t', isRoot, D)
    ensures Less(Of(t', d, isRoot, D), Of(t, d, isRoot, D))
    decreases t
  {
    hide FixWeight, FixDegree, Of, OfAll, Low;
    if i: nat :| CanFixWeight(t, i) && |t.kids[i].keys| >= 1 && t' == FixWeight(t, i, isRoot, D) {
      FixWeightLess(t, i, d, isRoot, D);
    } else if i: nat :| CanFixDegree(t, i, D) && t' == FixDegree(t, i, isRoot, D) {
      FixDegreeLess(t, i, d, isRoot, D);
    } else {
      var i: nat :| RebalancesChild(t, t', i, D);
      var e := d + Weight(t);
      var pre, post := t.kids[..i], t.kids[i + 1..];
      RebalanceLess(t.kids[i], t'.kids[i], e, false, D);
      assert t.kids == pre + [t.kids[i]] + post && t'.kids == pre + [t'.kids[i]] + post;
      hide Rebalances, RebalancesChild, Shape;
      OfOne(t.kids[i], e, D);
      OfOne(t'.kids[i], e, D);
      PartLess(t, t', pre, [t.kids[i]], [t'.kids[i]], post, d, isRoot, D);
    }
  }

  /** However steps are chosen, a run of rebalancing steps reaches a tree without violations, holding the same pairs. */
  lemma {:induction false} RebalancingEnds(run: nat -> Node, from: nat, D: nat) returns (n: nat)
    requires D >= 4 && Good(run(from), D)
    requires forall i: nat :: Good(run(i), D) && !Clean(run(i), D, true) ==> Rebalances(run(i), run(i + 1), true, D)
    ensures n >= from && Good(run(n), D) && Clean(run(n), D, true)
    ensures forall k :: Find(run(n), k) == Find(run(from), k)
    decreases Of(run(from), 0, true, D).zeros, Of(run(from), 0, true, D).depths,
              Of(run(from), 0, true, D).nodes, Of(run(from), 0, true, D).low
  {
    var t := run(from);
    n := from;
    if !Clean(t, D, true) {
      FitsShape(t, D);
      hide Ordered, Fits, Balanced, Rebalances, Clean, Of;
      RebalanceLess(t, run(from + 1), 0, true, D);
      StepKeepsGood(t, DoRebalance, run(from + 1), D);
      n := RebalancingEnds(run, from + 1, D);
      forall k ensures Find(run(n), k) == Find(t, k) {
        assert Find(run(from + 1), k) == Effect(DoRebalance, k, Find(t, k));
      }
    }
  }

  // ----- the size of a tree without violations

  function KeyCount(n: Node): nat
    decreases n, 0
  {
    if n.Leaf? then |n.keys| else KeyCounts(n.kids)
  }

  function KeyCounts(cs: seq<Node>): nat
    decreases cs, 1
  {
    if cs == [] then 0 else KeyCount(cs[0]) + KeyCounts(cs[1..])
  }

  function Power(b: nat, e: nat): nat {
    if e == 0 then 1 else b * Power(b, e - 1)
  }

  lemma {:induction false} ManyKeys(n: Node, D: nat, h: nat)
    requires Shape(n) && Clean(n, D, false) && Balanced(n, h)
    ensures KeyCount(n) >= Power(A(D), h)
    decreases n, 0
  {
    HeightPositive(n, h);
    if n.Leaf? {
      assert Power(A(D), 1) == A(D) * Power(A(D), 0);
    } else {
      ManyKeysBelow(n.kids, D, h - 1);
      Times(|n.kids|, A(D), Power(A(D), h - 1));
    }
  }

  lemma Times(x: nat, y: nat, z: nat)
    requires x >= y
    ensures x * z >= y * z
  {
  }

  lemma {:induction false} ManyKeysBelow(cs: seq<Node>, D: nat, h: nat)
    requires forall i :: 0 <= i < |cs| ==> Shape(cs[i]) && Clean(cs[i], D, false) && Balanced(cs[i], h)
    ensures KeyCounts(cs) >= |cs| * Power(A(D), h)
    decreases cs, 1
  {
    if cs != [] {
      ManyKeys(cs[0], D, h);
      ManyKeysBelow(cs[1..], D, h);
      var p := Power(A(D), h);
      assert |cs| * p == p + (|cs| - 1) * p;
    }
  }

  /** A good tree without violations and with `h >= 1` internal levels holds at least `2 * a^h` keys. */
  lemma CleanTreesAreLarge(t: Node, D: nat, h: nat)
    requires Good(t, D) && Clean(t, D, true) && Balanced(t, h + 1) && h >= 1
    ensures KeyCount(t) >= 2 * Power(if D < 12 then 2 else D / 4, h)
  {
    ManyKeysBelow(t.kids, D, h);
    Times(|t.kids|, 2, Power(A(D), h));
  }
}
