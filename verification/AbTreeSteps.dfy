/** Every rebalancing step keeps the order of the tree and finds the same values. */
module AbTreeSteps {
  import opened AbTree
  import opened AbTreeOrder

  /** Two ordered child lists over the same range through which every search ends alike. */
  ghost predicate Equiv(ks: seq<int>, cs: seq<Node>, ks': seq<int>, cs': seq<Node>, lo: Option<int>, hi: Option<int>) {
    && OrderedList(ks, cs, lo, hi) && OrderedList(ks', cs', lo, hi)
    && ShapeList(ks, cs) && ShapeList(ks', cs')
    && forall k :: FindList(ks, cs, k) == FindList(ks', cs', k)
  }

  lemma EquivTrans(ks: seq<int>, cs: seq<Node>, ks1: seq<int>, cs1: seq<Node>, ks2: seq<int>, cs2: seq<Node>,
                   lo: Option<int>, hi: Option<int>)
    requires Equiv(ks, cs, ks1, cs1, lo, hi) && Equiv(ks1, cs1, ks2, cs2, lo, hi)
    ensures Equiv(ks, cs, ks2, cs2, lo, hi)
  {
    hide OrderedList, FindList;
  }

  lemma InlineEquiv(ks: seq<int>, cs: seq<Node>, i: nat, lo: Option<int>, hi: Option<int>)
    requires OrderedList(ks, cs, lo, hi) && i < |cs| && cs[i].Inner?
    ensures Equiv(ks, cs, InlineKeys(ks, cs, i), InlineKids(cs, i), lo, hi)
  {
    InlineOrdered(ks, cs, i, lo, hi);
    OrderedListShape(ks, cs, lo, hi);
    OrderedListShape(InlineKeys(ks, cs, i), InlineKids(cs, i), lo, hi);
    hide OrderedList, FindList;
    forall k ensures FindList(ks, cs, k) == FindList(InlineKeys(ks, cs, i), InlineKids(cs, i), k) {
      InlineFind(ks, cs, i, lo, hi, k);
    }
  }

  lemma GroupEquiv(ks: seq<int>, cs: seq<Node>, s: nat, m: nat, w: bool, sk: int, lo: Option<int>, hi: Option<int>)
    requires OrderedList(ks, cs, lo, hi) && m >= 1 && s + m <= |cs|
    requires Within(KidLo(ks, lo, s), KidHi(ks, hi, s + m - 1), sk)
    ensures Equiv(ks, cs, GroupKeys(ks, s, m), GroupKids(ks, cs, s, m, w, sk), lo, hi)
  {
    GroupOrdered(ks, cs, s, m, w, sk, lo, hi);
    OrderedListShape(ks, cs, lo, hi);
    OrderedListShape(GroupKeys(ks, s, m), GroupKids(ks, cs, s, m, w, sk), lo, hi);
    hide OrderedList, FindList;
    forall k ensures FindList(ks, cs, k) == FindList(GroupKeys(ks, s, m), GroupKids(ks, cs, s, m, w, sk), k) {
      GroupFind(ks, cs, s, m, w, sk, lo, hi, k);
    }
  }

  // ----- leaves

  lemma FindLeafIs(keys: seq<int>, vals: seq<Value>, k: int)
    requires |vals| == |keys| && Sorted(keys)
    ensures k !in keys ==> FindLeaf(keys, vals, k) == None
    ensures forall i :: 0 <= i < |keys| && keys[i] == k ==> FindLeaf(keys, vals, k) == Some(vals[i])
  {
  }

  function JoinKids(cs: seq<Node>, i: nat, sk: int): seq<Node>
    requires i + 1 < |cs| && cs[i].Leaf? && cs[i + 1].Leaf?
  {
    cs[..i] + [Leaf(sk, cs[i].keys + cs[i + 1].keys, cs[i].vals + cs[i + 1].vals)] + cs[i + 2..]
  }

  function DropKey(ks: seq<int>, i: nat): seq<int>
    requires i < |ks|
  {
    ks[..i] + ks[i + 1..]
  }

  lemma JoinedLeafOrdered(ks: seq<int>, cs: seq<Node>, i: nat, sk: int, lo: Option<int>, hi: Option<int>)
    requires OrderedList(ks, cs, lo, hi) && i + 1 < |cs| && cs[i].Leaf? && cs[i + 1].Leaf?
    requires Within(KidLo(ks, lo, i), KidHi(ks, hi, i + 1), sk)
    ensures Ordered(JoinKids(cs, i, sk)[i], KidLo(ks, lo, i), KidHi(ks, hi, i + 1))
  {
    var l, r := cs[i], cs[i + 1];
    var jlo, jhi := KidLo(ks, lo, i), KidHi(ks, hi, i + 1);
    assert Ordered(l, jlo, Some(ks[i])) by { assert Ordered(l, KidLo(ks, lo, i), KidHi(ks, hi, i)); }
    assert Ordered(r, Some(ks[i]), jhi) by { assert Ordered(r, KidLo(ks, lo, i + 1), KidHi(ks, hi, i + 1)); }
    assert Inside(lo, hi, ks[i]);
    assert Inside(jlo, jhi, ks[i]) by {
      if i > 0 { assert ks[i - 1] < ks[i]; }
      if i + 1 < |ks| { assert ks[i] < ks[i + 1]; }
    }
    LeavesJoin(l, r, ks[i], sk, jlo, jhi);
  }

  lemma LeavesJoin(l: Node, r: Node, sep: int, sk: int, lo: Option<int>, hi: Option<int>)
    requires l.Leaf? && r.Leaf? && Ordered(l, lo, Some(sep)) && Ordered(r, Some(sep), hi) && Inside(lo, hi, sep)
    requires Within(lo, hi, sk)
    ensures Ordered(Leaf(sk, l.keys + r.keys, l.vals + r.vals), lo, hi)
  {
    var keys := l.keys + r.keys;
    forall x | 0 <= x < |keys|
      ensures Within(lo, hi, keys[x]) && (x < |l.keys| ==> keys[x] < sep) && (x >= |l.keys| ==> sep <= keys[x])
    {
      if x < |l.keys| { assert Within(lo, Some(sep), l.keys[x]); }
      else { assert Within(Some(sep), hi, r.keys[x - |l.keys|]); }
    }
  }

  lemma JoinOrdered(ks: seq<int>, cs: seq<Node>, i: nat, sk: int, lo: Option<int>, hi: Option<int>)
    requires OrderedList(ks, cs, lo, hi) && i + 1 < |cs| && cs[i].Leaf? && cs[i + 1].Leaf?
    requires Within(KidLo(ks, lo, i), KidHi(ks, hi, i + 1), sk)
    ensures OrderedList(DropKey(ks, i), JoinKids(cs, i, sk), lo, hi)
  {
    var ks', cs' := DropKey(ks, i), JoinKids(cs, i, sk);
    forall j | 0 <= j < |ks'| ensures Inside(lo, hi, ks'[j]) {
      assert ks'[j] == ks[if j < i then j else j + 1];
    }
    forall x, y | 0 <= x < y < |ks'| ensures ks'[x] < ks'[y] {
      assert ks'[x] == ks[if x < i then x else x + 1];
      assert ks'[y] == ks[if y < i then y else y + 1];
    }
    forall j | 0 <= j < |cs'| ensures Ordered(cs'[j], KidLo(ks', lo, j), KidHi(ks', hi, j)) {
      JoinedKid(ks, cs, i, sk, lo, hi, j);
    }
  }

  lemma JoinAt(ks: seq<int>, cs: seq<Node>, i: nat, sk: int, lo: Option<int>, hi: Option<int>, j: nat)
    requires i + 1 < |cs| == |ks| + 1 && cs[i].Leaf? && cs[i + 1].Leaf? && j < |cs| - 1
    ensures |JoinKids(cs, i, sk)| == |cs| - 1 && |DropKey(ks, i)| == |ks| - 1
    ensures j != i ==> JoinKids(cs, i, sk)[j] == cs[if j < i then j else j + 1]
    ensures JoinKids(cs, i, sk)[i] == Leaf(sk, cs[i].keys + cs[i + 1].keys, cs[i].vals + cs[i + 1].vals)
    ensures KidLo(DropKey(ks, i), lo, j) == KidLo(ks, lo, if j <= i then j else j + 1)
    ensures KidHi(DropKey(ks, i), hi, j) == KidHi(ks, hi, if j < i then j else j + 1)
  {
  }

  lemma JoinedKid(ks: seq<int>, cs: seq<Node>, i: nat, sk: int, lo: Option<int>, hi: Option<int>, j: nat)
    requires OrderedList(ks, cs, lo, hi) && i + 1 < |cs| && cs[i].Leaf? && cs[i + 1].Leaf?
    requires Within(KidLo(ks, lo, i), KidHi(ks, hi, i + 1), sk) && j < |cs| - 1
    ensures |JoinKids(cs, i, sk)| == |cs| - 1 && |DropKey(ks, i)| == |ks| - 1
    ensures Ordered(JoinKids(cs, i, sk)[j], KidLo(DropKey(ks, i), lo, j), KidHi(DropKey(ks, i), hi, j))
  {
    hide Ordered, JoinKids, DropKey, KidLo, KidHi, Within, Sorted;
    JoinAt(ks, cs, i, sk, lo, hi, j);
    if j == i {
      JoinedLeafOrdered(ks, cs, i, sk, lo, hi);
    } else {
      var x := if j < i then j else j + 1;
      assert Ordered(cs[x], KidLo(ks, lo, x), KidHi(ks, hi, x));
    }
  }

  lemma DropIndex(ks: seq<int>, i: nat, k: int)
    requires Sorted(ks) && i < |ks|
    ensures ChildIndex(DropKey(ks, i), k) == var c := ChildIndex(ks, k); if c <= i then c else c - 1
  {
    var m, c := DropKey(ks, i), ChildIndex(ks, k);
    var x := if c <= i then c else c - 1;
    assert |m| == |ks| - 1 && forall j :: 0 <= j < |m| ==> m[j] == ks[if j < i then j else j + 1];
    hide DropKey, ChildIndex;
    assert Sorted(m);
    ChildIndexIs(m, k, x);
  }

  lemma JoinFind(ks: seq<int>, cs: seq<Node>, i: nat, sk: int, lo: Option<int>, hi: Option<int>, k: int)
    requires OrderedList(ks, cs, lo, hi) && i + 1 < |cs| && cs[i].Leaf? && cs[i + 1].Leaf?
    requires Within(KidLo(ks, lo, i), KidHi(ks, hi, i + 1), sk)
    requires ShapeList(ks, cs) && ShapeList(DropKey(ks, i), JoinKids(cs, i, sk))
    ensures FindList(DropKey(ks, i), JoinKids(cs, i, sk), k) == FindList(ks, cs, k)
  {
    assert Sorted(ks);
    hide Ordered, OrderedList, Sorted, Within, Find, Shape, JoinKids, DropKey, KidLo, KidHi;
    DropIndex(ks, i, k);
    var c := ChildIndex(ks, k);
    JoinAt(ks, cs, i, sk, lo, hi, if c <= i then c else c - 1);
    if i <= c <= i + 1 {
      JoinFindHere(ks, cs, i, sk, lo, hi, k);
    }
  }

  lemma JoinFindHere(ks: seq<int>, cs: seq<Node>, i: nat, sk: int, lo: Option<int>, hi: Option<int>, k: int)
    requires OrderedList(ks, cs, lo, hi) && i + 1 < |cs| && cs[i].Leaf? && cs[i + 1].Leaf?
    requires Within(KidLo(ks, lo, i), KidHi(ks, hi, i + 1), sk) && ShapeList(ks, cs)
    ensures Find(Leaf(sk, cs[i].keys + cs[i + 1].keys, cs[i].vals + cs[i + 1].vals), k) ==
            if k < ks[i] then Find(cs[i], k) else Find(cs[i + 1], k)
  {
    JoinedLeafOrdered(ks, cs, i, sk, lo, hi);
    var l, r := cs[i], cs[i + 1];
    assert Ordered(l, KidLo(ks, lo, i), Some(ks[i])) by { assert Ordered(l, KidLo(ks, lo, i), KidHi(ks, hi, i)); }
    assert Ordered(r, Some(ks[i]), KidHi(ks, hi, i + 1)) by { assert Ordered(r, KidLo(ks, lo, i + 1), KidHi(ks, hi, i + 1)); }
    hide OrderedList, JoinKids;
    LeafBounds(l, KidLo(ks, lo, i), Some(ks[i]));
    LeafBounds(r, Some(ks[i]), KidHi(ks, hi, i + 1));
    hide Ordered;
    LeafPairFind(l, r, ks[i], k);
  }

  lemma LeafBounds(l: Node, lo: Option<int>, hi: Option<int>)
    requires l.Leaf? && Ordered(l, lo, hi)
    ensures |l.vals| == |l.keys| && Sorted(l.keys)
    ensures forall x :: 0 <= x < |l.keys| ==> Within(lo, hi, l.keys[x])
  {
  }

  lemma LeafPairFind(l: Node, r: Node, sep: int, k: int)
    requires l.Leaf? && r.Leaf? && |l.vals| == |l.keys| && |r.vals| == |r.keys|
    requires Sorted(l.keys) && Sorted(r.keys) && Sorted(l.keys + r.keys)
    requires (forall x :: 0 <= x < |l.keys| ==> l.keys[x] < sep) && (forall x :: 0 <= x < |r.keys| ==> sep <= r.keys[x])
    ensures FindLeaf(l.keys + r.keys, l.vals + r.vals, k) ==
            if k < sep then FindLeaf(l.keys, l.vals, k) else FindLeaf(r.keys, r.vals, k)
  {
    var keys, vals := l.keys + r.keys, l.vals + r.vals;
    FindLeafIs(keys, vals, k);
    FindLeafIs(l.keys, l.vals, k);
    FindLeafIs(r.keys, r.vals, k);
    if k in l.keys {
      var x :| 0 <= x < |l.keys| && l.keys[x] == k;
      assert keys[x] == k && vals[x] == l.vals[x];
    } else if k in r.keys {
      var x :| 0 <= x < |r.keys| && r.keys[x] == k;
      assert keys[|l.keys| + x] == k && vals[|l.keys| + x] == r.vals[x];
    }
  }

  lemma JoinEquiv(ks: seq<int>, cs: seq<Node>, i: nat, sk: int, lo: Option<int>, hi: Option<int>)
    requires OrderedList(ks, cs, lo, hi) && i + 1 < |cs| && cs[i].Leaf? && cs[i + 1].Leaf?
    requires Within(KidLo(ks, lo, i), KidHi(ks, hi, i + 1), sk)
    ensures Equiv(ks, cs, DropKey(ks, i), JoinKids(cs, i, sk), lo, hi)
  {
    JoinOrdered(ks, cs, i, sk, lo, hi);
    OrderedListShape(ks, cs, lo, hi);
    OrderedListShape(DropKey(ks, i), JoinKids(cs, i, sk), lo, hi);
    hide OrderedList, FindList;
    forall k ensures FindList(ks, cs, k) == FindList(DropKey(ks, i), JoinKids(cs, i, sk), k) {
      JoinFind(ks, cs, i, sk, lo, hi, k);
    }
  }

  /** Child `i`, a leaf, split before its pair `h`. */
  function SplitKeys(ks: seq<int>, cs: seq<Node>, i: nat, h: nat): seq<int>
    requires i < |cs| == |ks| + 1 && cs[i].Leaf? && h < |cs[i].keys|
  {
    ks[..i] + [cs[i].keys[h]] + ks[i..]
  }

  function SplitLeft(l: Node, h: nat): Node
    requires l.Leaf? && |l.vals| == |l.keys| && h < |l.keys|
  {
    Leaf(l.keys[0], l.keys[..h], l.vals[..h])
  }

  function SplitRight(l: Node, h: nat): Node
    requires l.Leaf? && |l.vals| == |l.keys| && h < |l.keys|
  {
    Leaf(l.keys[h], l.keys[h..], l.vals[h..])
  }

  function SplitKids(cs: seq<Node>, i: nat, h: nat): seq<Node>
    requires i < |cs| && cs[i].Leaf? && |cs[i].vals| == |cs[i].keys| && h < |cs[i].keys|
  {
    cs[..i] + [SplitLeft(cs[i], h), SplitRight(cs[i], h)] + cs[i + 1..]
  }

  lemma SplitAt(ks: seq<int>, cs: seq<Node>, i: nat, h: nat, lo: Option<int>, hi: Option<int>, j: nat)
    requires i < |cs| == |ks| + 1 && cs[i].Leaf? && |cs[i].vals| == |cs[i].keys| && h < |cs[i].keys| && j < |cs| + 1
    ensures var ks', cs' := SplitKeys(ks, cs, i, h), SplitKids(cs, i, h);
            && |cs'| == |cs| + 1 && |ks'| == |ks| + 1
            && cs'[j] == (if j < i then cs[j] else if j == i then SplitLeft(cs[i], h)
                          else if j == i + 1 then SplitRight(cs[i], h) else cs[j - 1])
            && KidLo(ks', lo, j) == (if j == i + 1 then Some(cs[i].keys[h]) else KidLo(ks, lo, if j <= i then j else j - 1))
            && KidHi(ks', hi, j) == (if j == i then Some(cs[i].keys[h]) else KidHi(ks, hi, if j < i then j else j - 1))
  {
  }

  lemma HalvesOrdered(l: Node, h: nat, lo: Option<int>, hi: Option<int>)
    requires l.Leaf? && Ordered(l, lo, hi) && 0 < h < |l.keys|
    ensures Ordered(SplitLeft(l, h), lo, Some(l.keys[h])) && Ordered(SplitRight(l, h), Some(l.keys[h]), hi)
    ensures Inside(lo, hi, l.keys[h])
  {
    assert Within(lo, hi, l.keys[0]) && Within(lo, hi, l.keys[h]) && l.keys[0] < l.keys[h];
    forall x | 0 <= x < h ensures Within(lo, Some(l.keys[h]), l.keys[..h][x]) {
      assert Within(lo, hi, l.keys[x]);
    }
    forall x | 0 <= x < |l.keys| - h ensures Within(Some(l.keys[h]), hi, l.keys[h..][x]) {
      assert Within(lo, hi, l.keys[h + x]);
    }
  }

  lemma SplitKid(ks: seq<int>, cs: seq<Node>, i: nat, h: nat, lo: Option<int>, hi: Option<int>, j: nat)
    requires OrderedList(ks, cs, lo, hi) && i < |cs| && cs[i].Leaf? && |cs[i].vals| == |cs[i].keys| && 0 < h < |cs[i].keys|
    requires j < |cs| + 1
    ensures var ks', cs' := SplitKeys(ks, cs, i, h), SplitKids(cs, i, h);
            && |cs'| == |cs| + 1 && |ks'| == |ks| + 1
            && Ordered(cs'[j], KidLo(ks', lo, j), KidHi(ks', hi, j))
  {
    hide Ordered, SplitKeys, SplitKids, KidLo, KidHi, Within, Sorted;
    SplitAt(ks, cs, i, h, lo, hi, j);
    if i <= j <= i + 1 {
      HalvesOrdered(cs[i], h, KidLo(ks, lo, i), KidHi(ks, hi, i));
    } else {
      var x := if j < i then j else j - 1;
      assert Ordered(cs[x], KidLo(ks, lo, x), KidHi(ks, hi, x));
    }
  }

  lemma SplitSorted(ks: seq<int>, cs: seq<Node>, i: nat, h: nat, lo: Option<int>, hi: Option<int>)
    requires OrderedList(ks, cs, lo, hi) && i < |cs| && cs[i].Leaf? && 0 < h < |cs[i].keys|
    ensures Sorted(SplitKeys(ks, cs, i, h))
    ensures forall j :: 0 <= j <= |ks| ==> Inside(lo, hi, SplitKeys(ks, cs, i, h)[j])
  {
    assert Ordered(cs[i], KidLo(ks, lo, i), KidHi(ks, hi, i));
    HalvesOrdered(cs[i], h, KidLo(ks, lo, i), KidHi(ks, hi, i));
    var x := cs[i].keys[h];
    assert (i > 0 ==> ks[i - 1] < x) && (i < |ks| ==> x < ks[i]);
    assert Inside(lo, hi, x) by {
      if i > 0 { assert Inside(lo, hi, ks[i - 1]); }
      if i < |ks| { assert Inside(lo, hi, ks[i]); }
    }
  }

  lemma SplitOrdered(ks: seq<int>, cs: seq<Node>, i: nat, h: nat, lo: Option<int>, hi: Option<int>)
    requires OrderedList(ks, cs, lo, hi) && i < |cs| && cs[i].Leaf? && |cs[i].vals| == |cs[i].keys| && 0 < h < |cs[i].keys|
    ensures OrderedList(SplitKeys(ks, cs, i, h), SplitKids(cs, i, h), lo, hi)
  {
    hide Ordered, KidLo, KidHi;
    SplitSorted(ks, cs, i, h, lo, hi);
    var ks', cs' := SplitKeys(ks, cs, i, h), SplitKids(cs, i, h);
    forall j | 0 <= j < |cs'| ensures Ordered(cs'[j], KidLo(ks', lo, j), KidHi(ks', hi, j)) {
      SplitKid(ks, cs, i, h, lo, hi, j);
    }
  }

  lemma JoinOfSplit(ks: seq<int>, cs: seq<Node>, i: nat, h: nat)
    requires i < |cs| == |ks| + 1 && cs[i].Leaf? && |cs[i].vals| == |cs[i].keys| && h < |cs[i].keys|
    ensures var ks', cs' := SplitKeys(ks, cs, i, h), SplitKids(cs, i, h);
            && cs'[i].Leaf? && cs'[i + 1].Leaf?
            && DropKey(ks', i) == ks && JoinKids(cs', i, cs[i].sk) == cs
  {
    var l := cs[i];
    assert l.keys[..h] + l.keys[h..] == l.keys && l.vals[..h] + l.vals[h..] == l.vals;
  }

  /** Splitting a leaf is undone by joining, so it does not change what is found. */
  lemma SplitEquiv(ks: seq<int>, cs: seq<Node>, i: nat, h: nat, lo: Option<int>, hi: Option<int>)
    requires OrderedList(ks, cs, lo, hi) && i < |cs| && cs[i].Leaf? && |cs[i].vals| == |cs[i].keys| && 0 < h < |cs[i].keys|
    ensures Equiv(ks, cs, SplitKeys(ks, cs, i, h), SplitKids(cs, i, h), lo, hi)
  {
    SplitOrdered(ks, cs, i, h, lo, hi);
    JoinOfSplit(ks, cs, i, h);
    var ks', cs' := SplitKeys(ks, cs, i, h), SplitKids(cs, i, h);
    assert Ordered(cs[i], KidLo(ks, lo, i), KidHi(ks, hi, i));
    SplitAt(ks, cs, i, h, lo, hi, i);
    SplitAt(ks, cs, i, h, lo, hi, i + 1);
    hide Ordered, OrderedList, FindList, KidLo, KidHi, SplitKeys, SplitKids, DropKey, JoinKids, Shape;
    JoinEquiv(ks', cs', i, cs[i].sk, lo, hi);
  }

  // ----- whole nodes

  /** Ordered over the same range, and every search ends alike. */
  ghost predicate Same(n: Node, n': Node, lo: Option<int>, hi: Option<int>) {
    && Ordered(n, lo, hi) && Ordered(n', lo, hi) && Shape(n) && Shape(n')
    && forall k :: Find(n, k) == Find(n', k)
  }

  lemma InnerSame(n: Node, n': Node, lo: Option<int>, hi: Option<int>)
    requires n.Inner? && n'.Inner? && Equiv(n.keys, n.kids, n'.keys, n'.kids, lo, hi)
    requires Within(lo, hi, n.sk) && Within(lo, hi, n'.sk)
    ensures Same(n, n', lo, hi)
  {
    hide OrderedList;
    forall k ensures Find(n, k) == Find(n', k) {
      assert FindList(n.keys, n.kids, k) == FindList(n'.keys, n'.kids, k);
    }
  }

  /** Unfolding two neighbouring internal children into their parent. */
  lemma UnfoldPair(ks: seq<int>, cs: seq<Node>, i: nat, lo: Option<int>, hi: Option<int>)
    requires OrderedList(ks, cs, lo, hi) && i + 1 < |cs| && cs[i].Inner? && cs[i + 1].Inner?
    ensures Equiv(ks, cs, PairUnfoldedKeys(ks, cs, i), PairUnfoldedKids(cs, i), lo, hi)
  {
    InlineEquiv(ks, cs, i + 1, lo, hi);
    var ks1, cs1 := InlineKeys(ks, cs, i + 1), InlineKids(cs, i + 1);
    assert cs1[i] == cs[i];
    InlineEquiv(ks1, cs1, i, lo, hi);
    UnfoldIs(ks, cs, i);
    hide OrderedList, FindList, InlineKeys, InlineKids;
    EquivTrans(ks, cs, ks1, cs1, InlineKeys(ks1, cs1, i), InlineKids(cs1, i), lo, hi);
  }

  function PairUnfoldedKeys(ks: seq<int>, cs: seq<Node>, i: nat): seq<int>
    requires i + 1 < |cs| == |ks| + 1 && cs[i].Inner? && cs[i + 1].Inner?
  {
    ks[..i] + (cs[i].keys + [ks[i]] + cs[i + 1].keys) + ks[i + 1..]
  }

  function PairUnfoldedKids(cs: seq<Node>, i: nat): seq<Node>
    requires i + 1 < |cs| && cs[i].Inner? && cs[i + 1].Inner?
  {
    cs[..i] + (cs[i].kids + cs[i + 1].kids) + cs[i + 2..]
  }

  lemma UnfoldIs(ks: seq<int>, cs: seq<Node>, i: nat)
    requires i + 1 < |cs| == |ks| + 1 && cs[i].Inner? && cs[i + 1].Inner?
    ensures var ks1, cs1 := InlineKeys(ks, cs, i + 1), InlineKids(cs, i + 1);
            && |cs1| >= i + 1 && cs1[i] == cs[i] && (|cs[i + 1].kids| == |cs[i + 1].keys| + 1 ==>
            && |cs1| == |ks1| + 1
            && InlineKeys(ks1, cs1, i) == PairUnfoldedKeys(ks, cs, i) && InlineKids(cs1, i) == PairUnfoldedKids(cs, i))
  {
    var ks1, cs1 := InlineKeys(ks, cs, i + 1), InlineKids(cs, i + 1);
    assert cs1[..i] == cs[..i] && cs1[i + 1..] == cs[i + 1].kids + cs[i + 2..];
    assert ks1[..i] == ks[..i] && ks1[i..] == [ks[i]] + cs[i + 1].keys + ks[i + 1..];
  }
}
