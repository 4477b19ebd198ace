/**
 The relaxed (a,b)-tree: nodes, search, updates and rebalancing steps.  A successful SCX replaces one
 subtree at one instant, so each update and each rebalancing step is a rewrite of a tree value.
 */
module AbTree {

  type Value = int

  datatype Option<T> = None | Some(value: T)

  /** A leaf always has weight one; `w` says whether an internal node has weight one. */
  datatype Node =
    | Leaf(sk: int, keys: seq<int>, vals: seq<Value>)
    | Inner(w: bool, sk: int, keys: seq<int>, kids: seq<Node>)

  /** The lower degree bound; the upper one is `DEGREE` itself. */
  function A(D: nat): nat {
    if D / 4 > 2 then D / 4 else 2
  }

  /** A degree is below the bound exactly when it is below two, or a quarter of `DEGREE` would still be above it. */
  lemma BelowA(d: nat, D: nat)
    ensures d < A(D) <==> d < 2 || 4 * (d + 1) <= D
  {
    assert D == 4 * (D / 4) + D % 4;
  }

  function Degree(n: Node): nat {
    if n.Leaf? then |n.keys| else |n.kids|
  }

  predicate HasWeight(n: Node) { n.Leaf? || n.w }

  // ----- search

  /** The first position whose key is greater than `key`. */
  function ChildIndex(keys: seq<int>, key: int): (r: nat)
    ensures r <= |keys|
    ensures forall i :: 0 <= i < r ==> keys[i] <= key
    ensures r < |keys| ==> key < keys[r]
  {
    if keys == [] || key < keys[0] then 0 else 1 + ChildIndex(keys[1..], key)
  }

  /** The first position whose key is not smaller than `key`. */
  function KeyIndex(keys: seq<int>, key: int): (r: nat)
    ensures r <= |keys|
    ensures forall i :: 0 <= i < r ==> keys[i] < key
    ensures r < |keys| ==> key <= keys[r]
  {
    if keys == [] || key <= keys[0] then 0 else 1 + KeyIndex(keys[1..], key)
  }

  method GetChildIndex(keys: seq<int>, key: int) returns (r: nat)
    ensures r == ChildIndex(keys, key)
  {
    r := 0;
    while r < |keys| && !(key < keys[r])
      invariant r <= |keys|
      invariant ChildIndex(keys, key) == r + ChildIndex(keys[r..], key)
    {
      assert keys[r..][1..] == keys[r + 1..];
      r := r + 1;
    }
    assert r < |keys| ==> keys[r..][0] == keys[r];
  }

  method GetKeyIndex(keys: seq<int>, key: int) returns (r: nat)
    ensures r == KeyIndex(keys, key)
  {
    r := 0;
    while r < |keys| && keys[r] < key
      invariant r <= |keys|
      invariant KeyIndex(keys, key) == r + KeyIndex(keys[r..], key)
    {
      assert keys[r..][1..] == keys[r + 1..];
      r := r + 1;
    }
    assert r < |keys| ==> keys[r..][0] == keys[r];
  }

  /** As many values as keys in a leaf, one more child than keys in an internal node. */
  predicate Shape(n: Node) {
    match n
    case Leaf(_, keys, vals) => |vals| == |keys|
    case Inner(_, _, keys, kids) => |kids| == |keys| + 1 && forall i :: 0 <= i < |kids| ==> Shape(kids[i])
  }

  function FindLeaf(keys: seq<int>, vals: seq<Value>, key: int): Option<Value>
    requires |vals| == |keys|
  {
    var i := KeyIndex(keys, key);
    if i < |keys| && keys[i] == key then Some(vals[i]) else None
  }

  function Find(n: Node, key: int): Option<Value>
    requires Shape(n)
  {
    match n
    case Leaf(_, keys, vals) => FindLeaf(keys, vals, key)
    case Inner(_, _, keys, kids) => Find(kids[ChildIndex(keys, key)], key)
  }

  method Search(root: Node, key: int) returns (r: Option<Value>)
    requires Shape(root)
    ensures r == Find(root, key)
  {
    var l := root;
    while l.Inner?
      invariant Shape(l) && Find(l, key) == Find(root, key)
      decreases l
    {
      var ix := GetChildIndex(l.keys, key);
      l := l.kids[ix];
    }
    var index := GetKeyIndex(l.keys, key);
    if index < |l.keys| && l.keys[index] == key {
      r := Some(l.vals[index]);
    } else {
      r := None;
    }
  }

  // ----- updates at a leaf

  function InsertLeaf(l: Node, key: int, val: Value, replace: bool, isRoot: bool, D: nat): Node
    requires l.Leaf? && |l.vals| == |l.keys| <= D && D >= 4
  {
    var i := KeyIndex(l.keys, key);
    if i < |l.keys| && l.keys[i] == key then
      if replace then Leaf(l.sk, l.keys, l.vals[i := val]) else l
    else
      var keys := l.keys[..i] + [key] + l.keys[i..];
      var vals := l.vals[..i] + [val] + l.vals[i..];
      if |l.keys| < D then Leaf(l.sk, keys, vals)
      else Overflow(keys, vals, isRoot)
  }

  /** Too many pairs for one leaf: a new internal node over two new leaves, of weight zero unless it is the root. */
  function Overflow(keys: seq<int>, vals: seq<Value>, isRoot: bool): Node
    requires |keys| == |vals| && |keys| >= 2
  {
    var size1 := |keys| / 2;
    var left := Leaf(keys[0], keys[..size1], vals[..size1]);
    var right := Leaf(keys[size1], keys[size1..], vals[size1..]);
    Inner(isRoot, keys[size1], [keys[size1]], [left, right])
  }

  function EraseLeaf(l: Node, key: int): Node
    requires l.Leaf? && |l.vals| == |l.keys|
  {
    var i := KeyIndex(l.keys, key);
    if i < |l.keys| && l.keys[i] == key
    then Leaf(l.keys[0], l.keys[..i] + l.keys[i + 1..], l.vals[..i] + l.vals[i + 1..])
    else l
  }

  /** Descend along the search path of `key` and update the leaf at its end. */
  function Insert(n: Node, key: int, val: Value, replace: bool, isRoot: bool, D: nat): Node
    requires Shape(n) && LeavesFit(n, D) && D >= 4
  {
    match n
    case Leaf(_, _, _) => InsertLeaf(n, key, val, replace, isRoot, D)
    case Inner(_, _, keys, kids) =>
      var i := ChildIndex(keys, key);
      n.(kids := kids[i := Insert(kids[i], key, val, replace, false, D)])
  }

  function Erase(n: Node, key: int): Node
    requires Shape(n)
  {
    match n
    case Leaf(_, _, _) => EraseLeaf(n, key)
    case Inner(_, _, keys, kids) =>
      var i := ChildIndex(keys, key);
      n.(kids := kids[i := Erase(kids[i], key)])
  }

  predicate LeavesFit(n: Node, D: nat) {
    match n
    case Leaf(_, keys, _) => |keys| <= D
    case Inner(_, _, _, kids) => forall i :: 0 <= i < |kids| ==> LeavesFit(kids[i], D)
  }

  // ----- rebalancing at an internal node p

  /** Put the contents of the internal child `i` in its place. */
  function InlineKeys(keys: seq<int>, kids: seq<Node>, i: nat): seq<int>
    requires i < |kids| == |keys| + 1 && kids[i].Inner?
  {
    keys[..i] + kids[i].keys + keys[i..]
  }

  function InlineKids(kids: seq<Node>, i: nat): seq<Node>
    requires i < |kids| && kids[i].Inner?
  {
    kids[..i] + kids[i].kids + kids[i + 1..]
  }

  predicate CanFixWeight(p: Node, i: nat) {
    p.Inner? && p.w && i < |p.kids| && p.kids[i].Inner? && !p.kids[i].w
  }

  /** `fixWeightViolation` for child `i` of `p`: Absorb when the contents fit in one node, else Split. */
  function FixWeight(p: Node, i: nat, isRoot: bool, D: nat): Node
    requires CanFixWeight(p, i) && Shape(p) && |p.kids[i].keys| >= 1 && D >= 4
  {
    assert Shape(p.kids[i]);
    var keys := InlineKeys(p.keys, p.kids, i);
    var kids := InlineKids(p.kids, i);
    if |kids| <= D then Inner(true, keys[0], keys, kids)
    else Split(keys, kids, isRoot)
  }

  function Split(keys: seq<int>, kids: seq<Node>, isRoot: bool): Node
    requires |kids| == |keys| + 1 && |kids| >= 5
  {
    var size1 := |kids| / 2;
    var left := Inner(true, keys[0], keys[..size1 - 1], kids[..size1]);
    var right := Inner(true, keys[size1], keys[size1..], kids[size1..]);
    Inner(isRoot, keys[size1 - 1], [keys[size1 - 1]], [left, right])
  }

  /** The sibling used for child `i`: the left neighbour, or the right one for the first child. */
  function LeftOfPair(i: nat): nat { if i > 0 then i - 1 else 0 }

  predicate CanFixDegree(p: Node, i: nat, D: nat) {
    && p.Inner? && p.w && i < |p.kids| && |p.kids| >= 2
    && Degree(p.kids[i]) < A(D)
    && var li := LeftOfPair(i);
       && HasWeight(p.kids[li]) && HasWeight(p.kids[li + 1])
       && (p.kids[li].Leaf? <==> p.kids[li + 1].Leaf?)
  }

  /** The contents of two neighbouring siblings, with the separating key between internal ones. */
  function PairKeys(left: Node, sep: int, right: Node): seq<int> {
    if left.Leaf? then left.keys + right.keys else left.keys + [sep] + right.keys
  }

  /** `fixDegreeViolation` for child `i` of `p`: AbsorbSibling (with RootAbsorb when possible) or Distribute. */
  function FixDegree(p: Node, i: nat, isRoot: bool, D: nat): Node
    requires CanFixDegree(p, i, D) && Shape(p)
  {
    var li := LeftOfPair(i);
    var left, right := p.kids[li], p.kids[li + 1];
    if Degree(left) + Degree(right) < 2 * A(D) then
      var newl := Merged(left, p.keys[li], right, p.kids[i].sk);
      if isRoot && |p.kids| == 2 then newl
      else Inner(true, p.sk, p.keys[..li] + p.keys[li + 1..], p.kids[..li] + [newl] + p.kids[li + 2..])
    else
      var d := Shared(left, p.keys[li], right);
      Inner(true, p.sk, p.keys[li := d.1], p.kids[li := d.0][li + 1 := d.2])
  }

  function Merged(left: Node, sep: int, right: Node, sk: int): Node
    requires left.Leaf? <==> right.Leaf?
  {
    if left.Leaf? then Leaf(sk, left.keys + right.keys, left.vals + right.vals)
    else Inner(true, sk, left.keys + [sep] + right.keys, left.kids + right.kids)
  }

  /** The contents of two siblings shared out evenly: new left, separating key, new right. */
  function Shared(left: Node, sep: int, right: Node): (Node, int, Node)
    requires (left.Leaf? <==> right.Leaf?) && Shape(left) && Shape(right) && Degree(left) + Degree(right) >= 4
  {
    var keys := PairKeys(left, sep, right);
    var h := (Degree(left) + Degree(right)) / 2;
    if left.Leaf? then
      var vals := left.vals + right.vals;
      (Leaf(keys[0], keys[..h], vals[..h]), keys[h], Leaf(keys[h], keys[h..], vals[h..]))
    else
      var kids := left.kids + right.kids;
      (Inner(true, keys[0], keys[..h - 1], kids[..h]), keys[h - 1], Inner(true, keys[h], keys[h..], kids[h..]))
  }

  /** One rebalancing step somewhere in the tree; `isRoot` says that `t` hangs off the entry node. */
  ghost predicate Rebalances(t: Node, t': Node, isRoot: bool, D: nat)
    requires Shape(t) && D >= 4
    decreases t, 1
  {
    || (exists i: nat :: CanFixWeight(t, i) && |t.kids[i].keys| >= 1 && t' == FixWeight(t, i, isRoot, D))
    || (exists i: nat :: CanFixDegree(t, i, D) && t' == FixDegree(t, i, isRoot, D))
    || (t.Inner? && exists i: nat :: RebalancesChild(t, t', i, D))
  }

  ghost predicate RebalancesChild(t: Node, t': Node, i: nat, D: nat)
    requires Shape(t) && t.Inner? && D >= 4
    decreases t, 0
  {
    && i < |t.kids|
    && t'.Inner? && |t'.kids| == |t.kids|
    && t' == t.(kids := t.kids[i := t'.kids[i]])
    && Rebalances(t.kids[i], t'.kids[i], false, D)
  }
}
