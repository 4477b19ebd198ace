/** Rebuilding a frozen subtree: collecting slices of its pairs and building ideal subtrees from them. */
module IstRebuild {
  import opened Ist

  /** Every node below (and including) `n` carries the number of its pairs. */
  predicate Counted(n: Node)
    requires Shape(n)
  {
    && n.sum == |Pairs(n)|
    && forall i :: 0 <= i < |n.slots| && (n.slots[i].Child? || n.slots[i].Rebuild?) ==> Counted(n.slots[i].node)
  }

  function Min(a: nat, b: nat): nat { if a < b then a else b }

  /** `add` of the pairs after the first `skip`, or as many as there are. */
  function Slice(s: seq<KVPair>, skip: nat, add: nat): seq<KVPair> {
    s[Min(skip, |s|)..Min(skip + add, |s|)]
  }

  /** Slicing two lists one after the other, with what is left to skip and to add. */
  lemma SliceConcat(a: seq<KVPair>, b: seq<KVPair>, skip: nat, add: nat)
    ensures Slice(a + b, skip, add)
         == Slice(a, skip, add) + Slice(b, skip - Min(skip, |a|), add - |Slice(a, skip, add)|)
    ensures |Slice(a, skip, add)| <= add
  {
  }

  /** What is left to do after the pairs `s`. */
  predicate Done(s: seq<KVPair>, skip0: nat, add0: nat, skip: nat, add: nat, out0: seq<KVPair>, out: seq<KVPair>) {
    && out == out0 + Slice(s, skip0, add0)
    && skip == skip0 - Min(skip0, |s|)
    && add == add0 - |Slice(s, skip0, add0)|
  }

  lemma DoneMore(s: seq<KVPair>, t: seq<KVPair>, skip0: nat, add0: nat, skip: nat, add: nat, out0: seq<KVPair>, out: seq<KVPair>,
                 skip': nat, add': nat, out': seq<KVPair>)
    requires |Slice(s, skip0, add0)| <= add0 && Done(s, skip0, add0, skip, add, out0, out)
    requires |Slice(t, skip, add)| <= add && Done(t, skip, add, skip', add', out, out')
    ensures |Slice(s + t, skip0, add0)| <= add0 && Done(s + t, skip0, add0, skip', add', out0, out')
  {
    SliceConcat(s, t, skip0, add0);
  }

  /** Nothing more is taken once enough pairs were added. */
  lemma DoneAll(s: seq<KVPair>, t: seq<KVPair>, skip0: nat, add0: nat, out0: seq<KVPair>, skip: nat, out: seq<KVPair>)
    requires add0 > 0 && |Slice(s, skip0, add0)| <= add0 && Done(s, skip0, add0, skip, 0, out0, out)
    ensures |Slice(s + t, skip0, add0)| <= add0 && Done(s + t, skip0, add0, skip, 0, out0, out)
  {
    SliceConcat(s, t, skip0, add0);
  }

  /** What one child pointer contributes; a subtree that is skipped altogether is not entered. */
  method AddSlot(n: Node, i: nat, skip0: nat, add0: nat, out0: seq<KVPair>) returns (skip: nat, add: nat, out: seq<KVPair>)
    requires Shape(n) && Counted(n) && add0 > 0 && i < |n.slots|
    ensures |Slice(SlotPairs(n, i), skip0, add0)| <= add0 && Done(SlotPairs(n, i), skip0, add0, skip, add, out0, out)
    decreases n, 0
  {
    skip, add, out := skip0, add0, out0;
    match n.slots[i]
    case Empty =>
    case Val(v) =>
      if skip > 0 { skip := skip - 1; } else { out, add := out + [KVPair(n.keys[i - 1], v)], add - 1; }
    case Pair(p) =>
      if skip > 0 { skip := skip - 1; } else { out, add := out + [p], add - 1; }
    case Child(m) =>
      assert Counted(m);
      hide Pairs;
      if skip < m.sum { skip, add, out := AddKVPairsSubset(m, skip, add, out); } else { skip := skip - m.sum; }
    case Rebuild(m) =>
      assert Counted(m);
      hide Pairs;
      if skip < m.sum { skip, add, out := AddKVPairsSubset(m, skip, add, out); } else { skip := skip - m.sum; }
  }

  /** `addKVPairsSubset`: exactly the requested slice of the in-order pairs goes to the builder. */
  method AddKVPairsSubset(n: Node, skip0: nat, add0: nat, out0: seq<KVPair>) returns (skip: nat, add: nat, out: seq<KVPair>)
    requires Shape(n) && Counted(n) && add0 > 0
    ensures |Slice(Pairs(n), skip0, add0)| <= add0 && Done(Pairs(n), skip0, add0, skip, add, out0, out)
    decreases n, 1
  {
    skip, add, out := skip0, add0, out0;
    var i := 0;
    while i < |n.slots|
      invariant i <= |n.slots| && add > 0
      invariant |Slice(PairsUpTo(n, i), skip0, add0)| <= add0
      invariant Done(PairsUpTo(n, i), skip0, add0, skip, add, out0, out)
    {
      hide Counted, SlotPairs, Slice, Done;
      ghost var skip1, add1, out1 := skip, add, out;
      skip, add, out := AddSlot(n, i, skip, add, out);
      DoneMore(PairsUpTo(n, i), SlotPairs(n, i), skip0, add0, skip1, add1, out0, out1, skip, add, out);
      i := i + 1;
      if add == 0 {
        RestAdded(n, i, skip0, add0, skip, out0, out);
        return;
      }
    }
  }

  lemma RestAdded(n: Node, i: nat, skip0: nat, add0: nat, skip: nat, out0: seq<KVPair>, out: seq<KVPair>)
    requires Shape(n) && i <= |n.slots| && add0 > 0
    requires |Slice(PairsUpTo(n, i), skip0, add0)| <= add0 && Done(PairsUpTo(n, i), skip0, add0, skip, 0, out0, out)
    ensures |Slice(Pairs(n), skip0, add0)| <= add0 && Done(Pairs(n), skip0, add0, skip, 0, out0, out)
    decreases |n.slots| - i
  {
    if i < |n.slots| {
      DoneAll(PairsUpTo(n, i), SlotPairs(n, i), skip0, add0, out0, skip, out);
      RestAdded(n, i + 1, skip0, add0, skip, out0, out);
    }
  }

  // ----- dividing the pairs among the children of a new node

  /** The least number whose square is at least `n`: the ceiling of the square root. */
  method CeilSqrt(n: nat) returns (r: nat)
    requires n >= 1
    ensures r >= 1 && r * r >= n && (r - 1) * (r - 1) < n
  {
    r := 1;
    while r * r < n
      invariant r >= 1 && (r - 1) * (r - 1) < n
      decreases n - r
    {
      assert r * r >= r;
      r := r + 1;
    }
  }

  function ChildSize(total: nat, children: nat, i: nat): nat
    requires children > 0
  {
    total / children + if i < total % children then 1 else 0
  }

  function Start(total: nat, children: nat, i: nat): nat
    requires children > 0
  {
    i * (total / children) + if i < total % children then i else total % children
  }

  /** The slices of consecutive children meet, start at the first pair and end at the last. */
  lemma SlicesMeet(total: nat, children: nat, i: nat)
    requires 0 < children && i < children
    ensures Start(total, children, 0) == 0 && Start(total, children, children) == total
    ensures Start(total, children, i + 1) == Start(total, children, i) + ChildSize(total, children, i)
  {
    var q := total / children;
    assert (i + 1) * q == i * q + q;
  }

  lemma {:induction false} StartMonotone(total: nat, children: nat, i: nat, j: nat)
    requires 0 < children && i <= j <= children
    ensures Start(total, children, i) <= Start(total, children, j)
    decreases j
  {
    if i < j {
      SlicesMeet(total, children, j - 1);
      StartMonotone(total, children, i, j - 1);
    }
  }

  lemma StartInRange(total: nat, children: nat, i: nat)
    requires 0 < children && i <= children
    ensures Start(total, children, i) <= total
  {
    SlicesMeet(total, children, 0);
    StartMonotone(total, children, i, children);
  }

  function Part(s: seq<KVPair>, children: nat, i: nat): seq<KVPair>
    requires i < children
  {
    StartInRange(|s|, children, i);
    StartInRange(|s|, children, i + 1);
    StartMonotone(|s|, children, i, i + 1);
    s[Start(|s|, children, i)..Start(|s|, children, i + 1)]
  }

  function Parts(s: seq<KVPair>, children: nat, i: nat): seq<KVPair>
    requires i <= children
  {
    if i == 0 then [] else Parts(s, children, i - 1) + Part(s, children, i - 1)
  }

  /** The slices of all children, one after the other, are the whole list. */
  lemma {:induction false} PartsPartition(s: seq<KVPair>, children: nat, i: nat)
    requires 0 < children && i <= children && Start(|s|, children, i) <= |s|
    ensures Parts(s, children, i) == s[..Start(|s|, children, i)]
    ensures i == children ==> Parts(s, children, i) == s
  {
    SlicesMeet(|s|, children, 0);
    if i > 0 {
      StartInRange(|s|, children, i - 1);
      StartMonotone(|s|, children, i - 1, i);
      PartsPartition(s, children, i - 1);
      hide Start;
    }
  }

  /** Child `i` gets the slice that `subtreeBuildAndReplace` asks for. */
  lemma PartIsSlice(s: seq<KVPair>, children: nat, i: nat)
    requires i < children
    ensures Part(s, children, i) == Slice(s, Start(|s|, children, i), ChildSize(|s|, children, i))
    ensures |Part(s, children, i)| == ChildSize(|s|, children, i)
  {
    SlicesMeet(|s|, children, i);
    StartInRange(|s|, children, i + 1);
  }
}
