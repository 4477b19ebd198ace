/** The array loops that fill new nodes, against the sequences the rewrites speak of. */
module AbTreeBuild {
  import opened AbTree

  method ArrayCopy<T>(src: seq<T>, srcStart: nat, dest: array<T>, destStart: nat, len: nat)
    requires srcStart + len <= |src| && destStart + len <= dest.Length
    modifies dest
    ensures forall j :: 0 <= j < dest.Length ==>
              dest[j] == if destStart <= j < destStart + len then src[srcStart + (j - destStart)] else old(dest[j])
  {
    for i := 0 to len
      invariant forall j :: 0 <= j < dest.Length ==>
                  dest[j] == if destStart <= j < destStart + i then src[srcStart + (j - destStart)] else old(dest[j])
    {
      dest[destStart + i] := src[srcStart + i];
    }
  }

  /** Absorb and Split first replace the pointer to child `ix` by its contents; both buffers are large enough. */
  method InlineChild(p: Node, ix: nat, keys: array<int>, ptrs: array<Node>, D: nat)
    requires p.Inner? && Shape(p) && ix < |p.kids| <= D && p.kids[ix].Inner?
    requires |p.kids[ix].kids| == |p.kids[ix].keys| + 1 <= D
    requires keys.Length == 2 * D && ptrs.Length == 2 * D
    modifies keys, ptrs
    ensures keys[..|p.keys| + |p.kids[ix].keys|] == InlineKeys(p.keys, p.kids, ix)
    ensures ptrs[..|p.kids| + |p.kids[ix].kids| - 1] == InlineKids(p.kids, ix)
  {
    var l := p.kids[ix];
    InlineArray(p.kids, l.kids, p.kids[ix + 1..], ix, ptrs);
    InlineArray(p.keys, l.keys, p.keys[ix..], ix, keys);
  }

  /** The first `ix` entries, then those of the child, then the rest. */
  method InlineArray<T>(src: seq<T>, sub: seq<T>, rest: seq<T>, ix: nat, dest: array<T>)
    requires ix <= |src| && ix + |sub| + |rest| <= dest.Length
    modifies dest
    ensures dest[..ix + |sub| + |rest|] == src[..ix] + sub + rest
  {
    ArrayCopy(src, 0, dest, 0, ix);
    assert dest[..ix] == src[..ix];
    ArrayCopy(sub, 0, dest, ix, |sub|);
    assert dest[..ix + |sub|] == src[..ix] + sub;
    ArrayCopy(rest, 0, dest, ix + |sub|, |rest|);
    assert dest[..ix + |sub| + |rest|] == src[..ix] + sub + rest;
  }

  /** Appending `src` at position `at`, one entry at a time. */
  method Append<T>(src: seq<T>, dest: array<T>, at: nat) returns (k: nat)
    requires at + |src| <= dest.Length
    modifies dest
    ensures k == at + |src| && dest[..k] == old(dest[..at]) + src && dest[k..] == old(dest[k..])
  {
    k := at;
    for i := 0 to |src|
      invariant k == at + i && dest[..k] == old(dest[..at]) + src[..i] && dest[k..] == old(dest[k..])
    {
      ghost var before, after := dest[..k], dest[k..];
      dest[k] := src[i];
      assert dest[..k + 1] == before + [src[i]] && dest[k + 1..] == after[1..];
      assert src[..i + 1] == src[..i] + [src[i]];
      assert old(dest[k..])[1..] == old(dest[k + 1..]);
      k := k + 1;
    }
  }

  /** The contents of two siblings, one after the other, with the separating key between internal ones. */
  method JoinSiblings(isLeaf: bool, lk: seq<int>, lp: seq<Node>, sep: int, rk: seq<int>, rp: seq<Node>,
                         keys: array<int>, ptrs: array<Node>)
    requires |lk| + 1 + |rk| <= keys.Length && |lp| + |rp| <= ptrs.Length
    modifies keys, ptrs
    ensures isLeaf ==> keys[..|lk| + |rk|] == lk + rk
    ensures !isLeaf ==> keys[..|lk| + 1 + |rk|] == lk + [sep] + rk
    ensures ptrs[..|lp| + |rp|] == lp + rp
  {
    var k1 := Append(lk, keys, 0);
    var k2 := Append(lp, ptrs, 0);
    if !isLeaf {
      k1 := Append([sep], keys, k1);
    }
    k1 := Append(rk, keys, k1);
    k2 := Append(rp, ptrs, k2);
  }

  /** AbsorbSibling: the parent without one of the two siblings, and with `newl` in place of the other. */
  method ParentOfMerged(pk: seq<int>, pp: seq<Node>, ixToL: nat, ixToS: nat, newl: Node, keys: array<int>, ptrs: array<Node>)
    requires |pp| == |pk| + 1 && |pp| >= 2 && ixToL < |pp| && ixToS == (if ixToL > 0 then ixToL - 1 else 1)
    requires keys.Length >= |pk| && ptrs.Length >= |pp|
    modifies keys, ptrs
    ensures var li := LeftOfPair(ixToL);
            && keys[..|pk| - 1] == pk[..li] + pk[li + 1..]
            && ptrs[..|pp| - 1] == pp[..li] + [newl] + pp[li + 2..]
  {
    var leftindex := if ixToL < ixToS then ixToL else ixToS;
    InlineArray(pk, [], pk[leftindex + 1..], leftindex, keys);
    ParentPointers(pp, ixToL, ixToS, newl, ptrs);
  }

  /** Everything before the sibling, everything after the node, and the new node where it belongs. */
  method ParentPointers(pp: seq<Node>, ixToL: nat, ixToS: nat, newl: Node, ptrs: array<Node>)
    requires |pp| >= 2 && ixToL < |pp| && ixToS == (if ixToL > 0 then ixToL - 1 else 1) && ptrs.Length >= |pp|
    modifies ptrs
    ensures var li := LeftOfPair(ixToL); ptrs[..|pp| - 1] == pp[..li] + [newl] + pp[li + 2..]
  {
    ArrayCopy(pp, 0, ptrs, 0, ixToS);
    ArrayCopy(pp, ixToL + 1, ptrs, ixToL, |pp| - (ixToL + 1));
    var at := if ixToL > ixToS then ixToL - 1 else ixToL;
    ptrs[at] := newl;
    OneForTwo(ptrs[..|pp| - 1], pp, at, newl);
  }

  lemma OneForTwo<T>(s: seq<T>, t: seq<T>, at: nat, x: T)
    requires at + 1 < |t| == |s| + 1 && s[at] == x
    requires forall j :: 0 <= j < |s| && j != at ==> s[j] == t[if j < at then j else j + 1]
    ensures s == t[..at] + [x] + t[at + 2..]
  {
  }

  /** Distribute: the joined contents dealt out to two nodes, one key going up between internal ones. */
  method DealOut(isLeaf: bool, all: seq<int>, ptrs: seq<Node>, lk: array<int>, lp: array<Node>, rk: array<int>, rp: array<Node>)
    returns (keyp: int)
    requires |ptrs| >= 4 && |all| == (if isLeaf then |ptrs| else |ptrs| - 1)
    requires lk.Length >= |ptrs| && lp.Length >= |ptrs| && rk.Length >= |ptrs| && rp.Length >= |ptrs|
    requires lk != rk && lp != rp
    modifies lk, lp, rk, rp
    ensures var h := |ptrs| / 2;
            && lp[..h] == ptrs[..h] && rp[..|ptrs| - h] == ptrs[h..]
            && (isLeaf ==> keyp == all[h] && lk[..h] == all[..h] && rk[..|all| - h] == all[h..])
            && (!isLeaf ==> keyp == all[h - 1] && lk[..h - 1] == all[..h - 1] && rk[..|all| - h] == all[h..])
  {
    var leftsz := |ptrs| / 2;
    var rightsz := |ptrs| - leftsz;
    var k1 := if isLeaf then leftsz else leftsz - 1;
    ArrayCopy(all, 0, lk, 0, k1);
    ArrayCopy(ptrs, 0, lp, 0, leftsz);
    keyp := all[k1];
    if !isLeaf { k1 := k1 + 1; }
    ArrayCopy(all, k1, rk, 0, |all| - k1);
    ArrayCopy(ptrs, leftsz, rp, 0, rightsz);
  }
}
