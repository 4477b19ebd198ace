/** Search-tree order, and what every step does to `Find`. */
module AbTreeOrder {
  import opened AbTree

  /** Strictly between the bounds; a missing bound is no bound. */
  predicate Inside(lo: Option<int>, hi: Option<int>, k: int) {
    (lo.Some? ==> lo.value < k) && (hi.Some? ==> k < hi.value)
  }

  /** In the half-open range of the bounds. */
  predicate Within(lo: Option<int>, hi: Option<int>, k: int) {
    (lo.Some? ==> lo.value <= k) && (hi.Some? ==> k < hi.value)
  }

  predicate Sorted(keys: seq<int>) {
    forall i, j :: 0 <= i < j < |keys| ==> keys[i] < keys[j]
  }

  function KidLo(keys: seq<int>, lo: Option<int>, i: nat): Option<int>
    requires i <= |keys|
  {
    if i == 0 then lo else Some(keys[i - 1])
  }

  function KidHi(keys: seq<int>, hi: Option<int>, i: nat): Option<int>
    requires i <= |keys|
  {
    if i == |keys| then hi else Some(keys[i])
  }

  /** Keys and search key of every node lie in the node's range; routing keys lie strictly inside. */
  predicate Ordered(n: Node, lo: Option<int>, hi: Option<int>)
    decreases n, 0
  {
    && Within(lo, hi, n.sk)
    && match n
       case Leaf(_, keys, vals) =>
         |vals| == |keys| && Sorted(keys) && forall i :: 0 <= i < |keys| ==> Within(lo, hi, keys[i])
       case Inner(_, _, keys, kids) => OrderedList(keys, kids, lo, hi)
  }

  predicate OrderedList(keys: seq<int>, kids: seq<Node>, lo: Option<int>, hi: Option<int>)
    decreases kids, 1
  {
    && |kids| == |keys| + 1
    && Sorted(keys)
    && (forall i :: 0 <= i < |keys| ==> Inside(lo, hi, keys[i]))
    && forall i :: 0 <= i < |kids| ==> Ordered(kids[i], KidLo(keys, lo, i), KidHi(keys, hi, i))
  }

  lemma {:induction false} OrderedShape(n: Node, lo: Option<int>, hi: Option<int>)
    requires Ordered(n, lo, hi)
    ensures Shape(n)
  {
    if n.Inner? {
      forall i | 0 <= i < |n.kids| ensures Shape(n.kids[i]) {
        OrderedShape(n.kids[i], KidLo(n.keys, lo, i), KidHi(n.keys, hi, i));
      }
    }
  }

  predicate ShapeList(keys: seq<int>, kids: seq<Node>) {
    |kids| == |keys| + 1 && forall i :: 0 <= i < |kids| ==> Shape(kids[i])
  }

  function FindList(keys: seq<int>, kids: seq<Node>, k: int): Option<Value>
    requires ShapeList(keys, kids)
  {
    Find(kids[ChildIndex(keys, k)], k)
  }

  lemma OrderedListShape(keys: seq<int>, kids: seq<Node>, lo: Option<int>, hi: Option<int>)
    requires OrderedList(keys, kids, lo, hi)
    ensures ShapeList(keys, kids)
  {
    forall i | 0 <= i < |kids| ensures Shape(kids[i]) {
      OrderedShape(kids[i], KidLo(keys, lo, i), KidHi(keys, hi, i));
    }
  }

  lemma ChildIndexIs(keys: seq<int>, k: int, i: nat)
    requires Sorted(keys) && i <= |keys| && (i > 0 ==> keys[i - 1] <= k) && (i < |keys| ==> k < keys[i])
    ensures ChildIndex(keys, k) == i
  {
  }

  // ----- inlining and grouping

  lemma InlineSorted(keys: seq<int>, kids: seq<Node>, i: nat, lo: Option<int>, hi: Option<int>)
    requires OrderedList(keys, kids, lo, hi) && i < |kids| && kids[i].Inner?
    ensures Sorted(InlineKeys(keys, kids, i))
    ensures forall j :: 0 <= j < |InlineKeys(keys, kids, i)| ==> Inside(lo, hi, InlineKeys(keys, kids, i)[j])
  {
    var l := kids[i];
    assert Ordered(l, KidLo(keys, lo, i), KidHi(keys, hi, i));
    var m := InlineKeys(keys, kids, i);
    forall j | 0 <= j < |l.keys|
      ensures Inside(lo, hi, l.keys[j]) && (i > 0 ==> keys[i - 1] < l.keys[j]) && (i < |keys| ==> l.keys[j] < keys[i])
    {
      assert Inside(KidLo(keys, lo, i), KidHi(keys, hi, i), l.keys[j]);
      if i > 0 { assert Inside(lo, hi, keys[i - 1]); }
      if i < |keys| { assert Inside(lo, hi, keys[i]); }
    }
    forall x, y | 0 <= x < y < |m| ensures m[x] < m[y] {
      if x < i <= y && i > 0 { assert keys[x] <= keys[i - 1]; }
      if y >= i + |l.keys| && i < |keys| { assert keys[i] <= keys[y - |l.keys|]; }
    }
  }

  lemma InlineAt(keys: seq<int>, kids: seq<Node>, i: nat, lo: Option<int>, hi: Option<int>, j: nat)
    requires i < |kids| == |keys| + 1 && kids[i].Inner? && |kids[i].kids| == |kids[i].keys| + 1
    requires j < |kids| + |kids[i].keys|
    ensures |InlineKeys(keys, kids, i)| == |keys| + |kids[i].keys| && |InlineKids(kids, i)| == |kids| + |kids[i].keys|
    ensures var l, m := kids[i], InlineKeys(keys, kids, i);
            var x := if j < i then j else if j <= i + |l.keys| then j - i else j - |l.keys|;
            if i <= j <= i + |l.keys|
            then && InlineKids(kids, i)[j] == l.kids[x]
                 && KidLo(m, lo, j) == KidLo(l.keys, KidLo(keys, lo, i), x)
                 && KidHi(m, hi, j) == KidHi(l.keys, KidHi(keys, hi, i), x)
            else && InlineKids(kids, i)[j] == kids[x]
                 && KidLo(m, lo, j) == KidLo(keys, lo, x)
                 && KidHi(m, hi, j) == KidHi(keys, hi, x)
  {
  }

  lemma InlinedKid(keys: seq<int>, kids: seq<Node>, i: nat, lo: Option<int>, hi: Option<int>, j: nat)
    requires OrderedList(keys, kids, lo, hi) && i < |kids| && kids[i].Inner?
    requires |kids[i].kids| == |kids[i].keys| + 1 && j < |kids| + |kids[i].keys|
    ensures |InlineKeys(keys, kids, i)| == |keys| + |kids[i].keys| && |InlineKids(kids, i)| == |kids| + |kids[i].keys|
    ensures var m := InlineKeys(keys, kids, i); Ordered(InlineKids(kids, i)[j], KidLo(m, lo, j), KidHi(m, hi, j))
  {
    hide InlineKeys, InlineKids, KidLo, KidHi, Within, Sorted;
    InlineAt(keys, kids, i, lo, hi, j);
    var l := kids[i];
    assert Ordered(l, KidLo(keys, lo, i), KidHi(keys, hi, i));
    hide Ordered;
    if i <= j <= i + |l.keys| {
      assert OrderedList(l.keys, l.kids, KidLo(keys, lo, i), KidHi(keys, hi, i));
    } else {
      var x := if j < i then j else j - |l.keys|;
      assert Ordered(kids[x], KidLo(keys, lo, x), KidHi(keys, hi, x));
    }
  }

  lemma InlineOrdered(keys: seq<int>, kids: seq<Node>, i: nat, lo: Option<int>, hi: Option<int>)
    requires OrderedList(keys, kids, lo, hi) && i < |kids| && kids[i].Inner?
    ensures OrderedList(InlineKeys(keys, kids, i), InlineKids(kids, i), lo, hi)
  {
    InlineSorted(keys, kids, i, lo, hi);
    assert Ordered(kids[i], KidLo(keys, lo, i), KidHi(keys, hi, i));
    hide Ordered, KidLo, KidHi;
    var m, ms := InlineKeys(keys, kids, i), InlineKids(kids, i);
    forall j | 0 <= j < |ms| ensures Ordered(ms[j], KidLo(m, lo, j), KidHi(m, hi, j)) {
      InlinedKid(keys, kids, i, lo, hi, j);
    }
  }

  lemma InlineFind(keys: seq<int>, kids: seq<Node>, i: nat, lo: Option<int>, hi: Option<int>, k: int)
    requires OrderedList(keys, kids, lo, hi) && i < |kids| && kids[i].Inner?
    ensures ShapeList(keys, kids) && ShapeList(InlineKeys(keys, kids, i), InlineKids(kids, i))
    ensures FindList(InlineKeys(keys, kids, i), InlineKids(kids, i), k) == FindList(keys, kids, k)
  {
    OrderedListShape(keys, kids, lo, hi);
    InlineOrdered(keys, kids, i, lo, hi);
    var m, ms := InlineKeys(keys, kids, i), InlineKids(kids, i);
    OrderedListShape(m, ms, lo, hi);
    var l, c := kids[i], ChildIndex(keys, k);
    assert Ordered(l, KidLo(keys, lo, i), KidHi(keys, hi, i));
    var j := ChildIndex(l.keys, k);
    var x := if c < i then c else if c == i then i + j else c + |l.keys|;
    assert ms[x] == if c == i then l.kids[j] else kids[c];
    InlineIndex(keys, l.keys, i, k);
    assert ChildIndex(m, k) == x;
  }

  lemma InlineKeyAt(keys: seq<int>, sub: seq<int>, i: nat, j: nat)
    requires i <= |keys| && j < |keys| + |sub|
    ensures (keys[..i] + sub + keys[i..])[j] ==
            if j < i then keys[j] else if j < i + |sub| then sub[j - i] else keys[j - |sub|]
  {
  }

  lemma InlineIndex(keys: seq<int>, sub: seq<int>, i: nat, k: int)
    requires i <= |keys| && Sorted(keys[..i] + sub + keys[i..]) && Sorted(keys) && Sorted(sub)
    ensures ChildIndex(keys[..i] + sub + keys[i..], k) ==
            var c := ChildIndex(keys, k);
            if c < i then c else if c == i then i + ChildIndex(sub, k) else c + |sub|
  {
    var m := keys[..i] + sub + keys[i..];
    var c, j := ChildIndex(keys, k), ChildIndex(sub, k);
    var x := if c < i then c else if c == i then i + j else c + |sub|;
    if x > 0 { InlineKeyAt(keys, sub, i, x - 1); }
    if x < |m| { InlineKeyAt(keys, sub, i, x); }
    ChildIndexIs(m, k, x);
  }

  function GroupNode(keys: seq<int>, kids: seq<Node>, s: nat, m: nat, w: bool, sk: int): Node
    requires |kids| == |keys| + 1 && m >= 1 && s + m <= |kids|
  {
    Inner(w, sk, keys[s..s + m - 1], kids[s..s + m])
  }

  function GroupKeys(keys: seq<int>, s: nat, m: nat): seq<int>
    requires m >= 1 && s + m <= |keys| + 1
  {
    keys[..s] + keys[s + m - 1..]
  }

  function GroupKids(keys: seq<int>, kids: seq<Node>, s: nat, m: nat, w: bool, sk: int): seq<Node>
    requires |kids| == |keys| + 1 && m >= 1 && s + m <= |kids|
  {
    kids[..s] + [GroupNode(keys, kids, s, m, w, sk)] + kids[s + m..]
  }

  lemma GroupNodeOrdered(keys: seq<int>, kids: seq<Node>, s: nat, m: nat, w: bool, sk: int, lo: Option<int>, hi: Option<int>)
    requires OrderedList(keys, kids, lo, hi) && m >= 1 && s + m <= |kids|
    requires Within(KidLo(keys, lo, s), KidHi(keys, hi, s + m - 1), sk)
    ensures Ordered(GroupNode(keys, kids, s, m, w, sk), KidLo(keys, lo, s), KidHi(keys, hi, s + m - 1))
  {
    var g := GroupNode(keys, kids, s, m, w, sk);
    var glo, ghi := KidLo(keys, lo, s), KidHi(keys, hi, s + m - 1);
    forall j | 0 <= j < |g.keys| ensures Inside(glo, ghi, g.keys[j]) {
      assert Inside(lo, hi, keys[s + j]);
    }
    forall j | 0 <= j < |g.kids| ensures Ordered(g.kids[j], KidLo(g.keys, glo, j), KidHi(g.keys, ghi, j)) {
      hide Ordered;
      assert Ordered(kids[s + j], KidLo(keys, lo, s + j), KidHi(keys, hi, s + j));
    }
  }

  lemma GroupAt(keys: seq<int>, kids: seq<Node>, s: nat, m: nat, w: bool, sk: int, lo: Option<int>, hi: Option<int>, j: nat)
    requires |kids| == |keys| + 1 && m >= 1 && s + m <= |kids| && j < |kids| + 1 - m
    ensures var ks, cs := GroupKeys(keys, s, m), GroupKids(keys, kids, s, m, w, sk);
            && |cs| == |kids| + 1 - m == |ks| + 1
            && cs[s] == GroupNode(keys, kids, s, m, w, sk)
            && (j != s ==> cs[j] == kids[if j < s then j else j + m - 1])
            && KidLo(ks, lo, j) == KidLo(keys, lo, if j <= s then j else j + m - 1)
            && KidHi(ks, hi, j) == KidHi(keys, hi, if j < s then j else j + m - 1)
  {
  }

  lemma GroupedKid(keys: seq<int>, kids: seq<Node>, s: nat, m: nat, w: bool, sk: int, lo: Option<int>, hi: Option<int>, j: nat)
    requires OrderedList(keys, kids, lo, hi) && m >= 1 && s + m <= |kids| && j < |kids| + 1 - m
    requires Within(KidLo(keys, lo, s), KidHi(keys, hi, s + m - 1), sk)
    ensures var ks, cs := GroupKeys(keys, s, m), GroupKids(keys, kids, s, m, w, sk);
            |cs| == |kids| + 1 - m == |ks| + 1 && Ordered(cs[j], KidLo(ks, lo, j), KidHi(ks, hi, j))
  {
    hide Ordered, GroupKeys, GroupKids, GroupNode, KidLo, KidHi, Within, Sorted;
    GroupAt(keys, kids, s, m, w, sk, lo, hi, j);
    if j == s {
      GroupNodeOrdered(keys, kids, s, m, w, sk, lo, hi);
    } else {
      var x := if j < s then j else j + m - 1;
      assert Ordered(kids[x], KidLo(keys, lo, x), KidHi(keys, hi, x));
    }
  }

  /** Putting neighbouring children under a new internal node keeps the order. */
  lemma GroupOrdered(keys: seq<int>, kids: seq<Node>, s: nat, m: nat, w: bool, sk: int, lo: Option<int>, hi: Option<int>)
    requires OrderedList(keys, kids, lo, hi) && m >= 1 && s + m <= |kids|
    requires Within(KidLo(keys, lo, s), KidHi(keys, hi, s + m - 1), sk)
    ensures OrderedList(GroupKeys(keys, s, m), GroupKids(keys, kids, s, m, w, sk), lo, hi)
  {
    hide Ordered, KidLo, KidHi;
    var ks, cs := GroupKeys(keys, s, m), GroupKids(keys, kids, s, m, w, sk);
    forall j | 0 <= j < |cs| ensures Ordered(cs[j], KidLo(ks, lo, j), KidHi(ks, hi, j)) {
      GroupedKid(keys, kids, s, m, w, sk, lo, hi, j);
    }
  }

  lemma InlineOfGroup(keys: seq<int>, kids: seq<Node>, s: nat, m: nat, w: bool, sk: int)
    requires |kids| == |keys| + 1 && m >= 1 && s + m <= |kids|
    ensures var ks, cs := GroupKeys(keys, s, m), GroupKids(keys, kids, s, m, w, sk);
            s < |cs| == |ks| + 1 && cs[s].Inner? && InlineKeys(ks, cs, s) == keys && InlineKids(cs, s) == kids
  {
  }

  /** Grouping is undone by inlining, so it does not change what is found. */
  lemma GroupFind(keys: seq<int>, kids: seq<Node>, s: nat, m: nat, w: bool, sk: int, lo: Option<int>, hi: Option<int>, k: int)
    requires OrderedList(keys, kids, lo, hi) && m >= 1 && s + m <= |kids|
    requires Within(KidLo(keys, lo, s), KidHi(keys, hi, s + m - 1), sk)
    ensures ShapeList(keys, kids) && ShapeList(GroupKeys(keys, s, m), GroupKids(keys, kids, s, m, w, sk))
    ensures FindList(GroupKeys(keys, s, m), GroupKids(keys, kids, s, m, w, sk), k) == FindList(keys, kids, k)
  {
    GroupOrdered(keys, kids, s, m, w, sk, lo, hi);
    InlineOfGroup(keys, kids, s, m, w, sk);
    hide Ordered, OrderedList;
    var ks, cs := GroupKeys(keys, s, m), GroupKids(keys, kids, s, m, w, sk);
    InlineFind(ks, cs, s, lo, hi, k);
  }
}
