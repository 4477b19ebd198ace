/** Two-level bins: up to nine sorted child bins under a root of separating keys, read as a dictionary. */
module LevelBin {
  import opened Learned

  const ROOT_SLOT_MAX: nat := 8
  const CHILD_SLOT_MAX: nat := 16

  datatype Option<T> = None | Some(value: T)

  datatype Bin = Bin(keys: seq<int>, vals: seq<int>)

  /** No bins at all, one bin and no root, or a root with one more bin than separating keys. */
  datatype LevelBin = LevelBin(seps: seq<int>, bins: seq<Bin>)

  datatype Outcome = Ok | Failed | Retrain

  predicate BinOk(b: Bin) {
    |b.vals| == |b.keys| && Increasing(b.keys) && 1 <= |b.keys| <= CHILD_SLOT_MAX
  }

  /** Bin `i` is for the keys above separator `i - 1` and not above separator `i`. */
  predicate Fits(seps: seq<int>, i: nat, k: int)
    requires i <= |seps|
  {
    (i > 0 ==> seps[i - 1] < k) && (i < |seps| ==> k <= seps[i])
  }

  predicate BinFits(seps: seq<int>, i: nat, b: Bin)
    requires i <= |seps|
  {
    forall j :: 0 <= j < |b.keys| ==> Fits(seps, i, b.keys[j])
  }

  predicate Valid(lb: LevelBin) {
    || (lb.bins == [] && lb.seps == [])
    || (&& |lb.bins| == |lb.seps| + 1 && |lb.seps| <= ROOT_SLOT_MAX && Increasing(lb.seps)
        && (forall i :: 0 <= i < |lb.bins| ==> BinOk(lb.bins[i]))
        && forall i :: 0 <= i < |lb.bins| ==> BinFits(lb.seps, i, lb.bins[i]))
  }

  // ----- what a bin holds

  predicate In(b: Bin, k: int, v: int) {
    exists j :: 0 <= j < |b.keys| && j < |b.vals| && b.keys[j] == k && b.vals[j] == v
  }

  predicate AnyHolds(bins: seq<Bin>, k: int, v: int) {
    exists i :: 0 <= i < |bins| && In(bins[i], k, v)
  }

  predicate Holds(lb: LevelBin, k: int, v: int) { AnyHolds(lb.bins, k, v) }

  lemma HoldsConcat(a: seq<Bin>, b: seq<Bin>, k: int, v: int)
    ensures AnyHolds(a + b, k, v) <==> AnyHolds(a, k, v) || AnyHolds(b, k, v)
  {
    hide In;
    var c := a + b;
    if AnyHolds(c, k, v) {
      var i :| 0 <= i < |c| && In(c[i], k, v);
      if i < |a| { assert In(a[i], k, v); } else { assert In(b[i - |a|], k, v); }
    }
    if AnyHolds(a, k, v) {
      var i :| 0 <= i < |a| && In(a[i], k, v);
      assert In(c[i], k, v);
    }
    if AnyHolds(b, k, v) {
      var i :| 0 <= i < |b| && In(b[i], k, v);
      assert In(c[|a| + i], k, v);
    }
  }

  lemma HoldsOne(b: Bin, k: int, v: int)
    ensures AnyHolds([b], k, v) <==> In(b, k, v)
  {
    hide In;
    if In(b, k, v) { assert In([b][0], k, v); }
  }

  /** The bins with some neighbours replaced. */
  lemma HoldsReplaced(pre: seq<Bin>, mid: seq<Bin>, post: seq<Bin>, k: int, v: int)
    ensures AnyHolds(pre + mid + post, k, v) <==> AnyHolds(pre, k, v) || AnyHolds(mid, k, v) || AnyHolds(post, k, v)
  {
    HoldsConcat(pre + mid, post, k, v);
    HoldsConcat(pre, mid, k, v);
  }

  // ----- search

  /** The number of keys below `key`, by binary search. */
  method FindLower(keys: seq<int>, key: int) returns (lo: nat)
    requires Increasing(keys)
    ensures IsRank(keys, key, lo)
  {
    lo := 0;
    var hi := |keys|;
    while lo < hi
      invariant 0 <= lo <= hi <= |keys|
      invariant forall i :: 0 <= i < lo ==> keys[i] < key
      invariant forall i :: hi <= i < |keys| ==> key <= keys[i]
    {
      var mid := (lo + hi) / 2;
      if key <= keys[mid] { hi := mid; } else { lo := mid + 1; }
    }
  }

  /** A key can only be in the bin that the separators send it to. */
  lemma OnlyThere(lb: LevelBin, key: int, slot: nat, i: nat, v: int)
    requires Valid(lb) && IsRank(lb.seps, key, slot) && i < |lb.bins| && In(lb.bins[i], key, v)
    ensures i == slot
  {
    var j :| 0 <= j < |lb.bins[i].keys| && j < |lb.bins[i].vals| && lb.bins[i].keys[j] == key && lb.bins[i].vals[j] == v;
    assert BinFits(lb.seps, i, lb.bins[i]);
    assert Fits(lb.seps, i, key);
  }

  /** In a sorted bin the key has one place. */
  lemma InBin(b: Bin, key: int, r: nat, v: int)
    requires |b.vals| == |b.keys| && Increasing(b.keys) && IsRank(b.keys, key, r)
    ensures In(b, key, v) <==> r < |b.keys| && b.keys[r] == key && b.vals[r] == v
  {
    if In(b, key, v) {
      var j :| 0 <= j < |b.keys| && j < |b.vals| && b.keys[j] == key && b.vals[j] == v;
      assert r <= j;
      assert b.keys[r] <= b.keys[j];
    }
  }

  method Find(lb: LevelBin, key: int) returns (r: Option<int>)
    requires Valid(lb)
    ensures forall v :: Holds(lb, key, v) <==> r == Some(v)
  {
    if |lb.bins| == 0 { return None; }
    var slot := FindLower(lb.seps, key);
    var b := lb.bins[slot];
    assert BinOk(b);
    var cslot := FindLower(b.keys, key);
    r := if cslot < |b.keys| && b.keys[cslot] == key then Some(b.vals[cslot]) else None;
    forall v ensures Holds(lb, key, v) <==> r == Some(v) { FoundThere(lb, key, slot, cslot, v); }
  }

  lemma FoundThere(lb: LevelBin, key: int, slot: nat, cslot: nat, v: int)
    requires Valid(lb) && lb.bins != [] && IsRank(lb.seps, key, slot) && slot < |lb.bins| && IsRank(lb.bins[slot].keys, key, cslot)
    ensures Holds(lb, key, v) <==> In(lb.bins[slot], key, v)
    ensures BinOk(lb.bins[slot])
    ensures In(lb.bins[slot], key, v) <==>
            cslot < |lb.bins[slot].keys| && lb.bins[slot].keys[cslot] == key && lb.bins[slot].vals[cslot] == v
  {
    assert BinOk(lb.bins[slot]);
    InBin(lb.bins[slot], key, cslot, v);
    hide In;
    if Holds(lb, key, v) {
      var i :| 0 <= i < |lb.bins| && In(lb.bins[i], key, v);
      OnlyThere(lb, key, slot, i, v);
    }
  }

  // ----- one bin

  function Put<T>(s: seq<T>, i: nat, x: T): (r: seq<T>)
    requires i <= |s|
    ensures |r| == |s| + 1
    ensures forall j :: 0 <= j <= |s| ==> r[j] == if j < i then s[j] else if j == i then x else s[j - 1]
  {
    s[..i] + [x] + s[i..]
  }

  /** The slots of a bin after `copy_backward` has made room and the pair was written. */
  method PutInPlace(a: array<int>, used: nat, at: nat, x: int)
    requires at <= used < a.Length
    modifies a
    ensures a[..used + 1] == Put(old(a[..used]), at, x) && a[used + 1..] == old(a[used + 1..])
  {
    var i := used;
    while i > at
      invariant at <= i <= used
      invariant forall j :: 0 <= j < i ==> a[j] == old(a[j])
      invariant forall j :: i < j <= used ==> a[j] == old(a[j - 1])
      invariant forall j :: used < j < a.Length ==> a[j] == old(a[j])
    {
      a[i] := a[i - 1];
      i := i - 1;
    }
    a[at] := x;
    ghost var was := old(a[..used]);
    assert forall j :: 0 <= j < used ==> was[j] == old(a[j]);
    hide Put;
    assert a[..used + 1] == Put(was, at, x);
    assert a[used + 1..] == old(a[used + 1..]);
  }

  function BinPut(b: Bin, at: nat, key: int, val: int): Bin
    requires |b.vals| == |b.keys| && at <= |b.keys|
  {
    Bin(Put(b.keys, at, key), Put(b.vals, at, val))
  }

  lemma PutIncreasing(keys: seq<int>, at: nat, key: int)
    requires Increasing(keys) && IsRank(keys, key, at) && (at < |keys| ==> keys[at] != key)
    ensures Increasing(Put(keys, at, key))
  {
    var r := Put(keys, at, key);
    hide Put;
    assert at < |keys| ==> key < keys[at];
    forall i, j | 0 <= i < j < |r| ensures r[i] < r[j] {
      if j > at && i == at { assert keys[at] <= keys[j - 1]; }
      if i != at && j != at { assert keys[if i < at then i else i - 1] < keys[if j < at then j else j - 1]; }
    }
  }

  lemma PutHolds(b: Bin, at: nat, key: int, val: int, k: int, v: int)
    requires |b.vals| == |b.keys| && at <= |b.keys|
    ensures In(BinPut(b, at, key, val), k, v) <==> In(b, k, v) || (k == key && v == val)
  {
    var c := BinPut(b, at, key, val);
    hide Put;
    if In(b, k, v) {
      var j :| 0 <= j < |b.keys| && j < |b.vals| && b.keys[j] == k && b.vals[j] == v;
      var l := if j < at then j else j + 1;
      assert c.keys[l] == k && c.vals[l] == v;
    }
    if k == key && v == val { assert c.keys[at] == k && c.vals[at] == v; }
    if In(c, k, v) {
      var j :| 0 <= j < |c.keys| && j < |c.vals| && c.keys[j] == k && c.vals[j] == v;
      if j != at { assert b.keys[if j < at then j else j - 1] == k && b.vals[if j < at then j else j - 1] == v; }
    }
  }

  function Take(b: Bin, n: nat): Bin
    requires n <= |b.keys| == |b.vals|
  {
    Bin(b.keys[..n], b.vals[..n])
  }

  function Drop(b: Bin, n: nat): Bin
    requires n <= |b.keys| == |b.vals|
  {
    Bin(b.keys[n..], b.vals[n..])
  }

  lemma HalvesHold(b: Bin, n: nat, k: int, v: int)
    requires n <= |b.keys| == |b.vals|
    ensures In(b, k, v) <==> In(Take(b, n), k, v) || In(Drop(b, n), k, v)
  {
    if In(b, k, v) {
      var j :| 0 <= j < |b.keys| && j < |b.vals| && b.keys[j] == k && b.vals[j] == v;
      if j < n { assert Take(b, n).keys[j] == k && Take(b, n).vals[j] == v; }
      else { assert Drop(b, n).keys[j - n] == k && Drop(b, n).vals[j - n] == v; }
    }
    if In(Drop(b, n), k, v) {
      var j :| 0 <= j < |b.keys| - n && Drop(b, n).keys[j] == k && Drop(b, n).vals[j] == v;
      assert b.keys[n + j] == k && b.vals[n + j] == v;
    }
  }

  /** What holds after a pair was added. */
  ghost predicate Adds(before: seq<Bin>, after: seq<Bin>, key: int, val: int) {
    forall k, v :: AnyHolds(after, k, v) <==> AnyHolds(before, k, v) || (k == key && v == val)
  }

  /** One or two bins in place of a bin, and the key that separates two. */
  datatype Split = Whole(b: Bin) | Two(left: Bin, newkey: int, right: Bin)

  function Parts(s: Split): seq<Bin> { if s.Whole? then [s.b] else [s.left, s.right] }

  /**
   `insert_child_retrain` for a key the bin does not hold: a full bin is split first, and the key goes to the half
   it belongs to.
   */
  method InsertChild(b: Bin, key: int, val: int, slot: nat) returns (s: Split)
    requires BinOk(b) && IsRank(b.keys, key, slot) && (slot < |b.keys| ==> b.keys[slot] != key)
    ensures s.Whole? <==> |b.keys| < CHILD_SLOT_MAX
    ensures s.Whole? ==> s.b == BinPut(b, slot, key, val)
    ensures s.Two? ==> SplitOk(b, s, key) && s == SplitOf(b, key, val, slot)
    ensures Adds([b], Parts(s), key, val)
  {
    if |b.keys| < CHILD_SLOT_MAX {
      s := Whole(BinPut(b, slot, key, val));
      forall k, v ensures AnyHolds(Parts(s), k, v) <==> AnyHolds([b], k, v) || (k == key && v == val) {
        HoldsOne(b, k, v);
        HoldsOne(s.b, k, v);
        PutHolds(b, slot, key, val, k, v);
      }
    } else {
      s := SplitInsert(b, key, val, slot);
    }
  }

  /** The halves of a full bin with the new pair in one of them. */
  function SplitOf(b: Bin, key: int, val: int, slot: nat): Split
    requires slot <= |b.keys| == |b.vals| == CHILD_SLOT_MAX
  {
    var mid := CHILD_SLOT_MAX / 2;
    if slot >= mid then Two(Take(b, mid), b.keys[mid - 1], BinPut(Drop(b, mid), slot - mid, key, val))
    else Two(BinPut(Take(b, mid), slot, key, val), b.keys[mid - 1], Drop(b, mid))
  }

  /** Both halves are in order, and the new separator lies between them. */
  predicate SplitOk(b: Bin, s: Split, key: int)
    requires s.Two?
  {
    && BinOk(s.left) && BinOk(s.right)
    && (forall i :: 0 <= i < |s.left.keys| ==> s.left.keys[i] <= s.newkey && (s.left.keys[i] in b.keys || s.left.keys[i] == key))
    && (forall i :: 0 <= i < |s.right.keys| ==> s.newkey < s.right.keys[i] && (s.right.keys[i] in b.keys || s.right.keys[i] == key))
    && (s.newkey in b.keys || s.newkey == key)
  }

  /** `split_child_bin_retrain` and the insertion into one of the halves. */
  method SplitInsert(b: Bin, key: int, val: int, slot: nat) returns (s: Split)
    requires BinOk(b) && |b.keys| == CHILD_SLOT_MAX && IsRank(b.keys, key, slot) && (slot < |b.keys| ==> b.keys[slot] != key)
    ensures s.Two? && SplitOk(b, s, key) && s == SplitOf(b, key, val, slot) && Adds([b], Parts(s), key, val)
  {
    var mid := |b.keys| / 2;
    var left, right := Take(b, mid), Drop(b, mid);
    var newkey := left.keys[|left.keys| - 1];
    hide SplitOk, Adds, Put;
    if slot >= mid {
      SplitRightOk(b, key, val, slot, mid);
      SplitRight(b, key, val, slot, mid);
      s := Two(left, newkey, BinPut(right, slot - mid, key, val));
    } else {
      var put := BinPut(left, slot, key, val);
      SplitLeftOk(b, key, val, slot, mid);
      SplitLeft(b, key, val, slot, mid);
      if slot == |put.keys| - 1 { newkey := key; }
      s := Two(put, newkey, right);
    }
  }

  /** Putting a key into what is left of a bin without its first `m` pairs. */
  lemma DropPut(b: Bin, m: nat, key: int, val: int, slot: nat)
    requires |b.vals| == |b.keys| && Increasing(b.keys) && IsRank(b.keys, key, slot) && (slot < |b.keys| ==> b.keys[slot] != key)
    requires m <= slot
    ensures var r := BinPut(Drop(b, m), slot - m, key, val);
            && |r.keys| == |r.vals| == |b.keys| - m + 1 && Increasing(r.keys)
            && forall i :: 0 <= i < |r.keys| ==>
                 r.keys[i] == if i < slot - m then b.keys[m + i] else if i == slot - m then key else b.keys[m + i - 1]
  {
    var rest := Drop(b, m);
    assert forall i :: 0 <= i < |rest.keys| ==> rest.keys[i] == b.keys[m + i];
    assert IsRank(rest.keys, key, slot - m) && Increasing(rest.keys);
    PutIncreasing(rest.keys, slot - m, key);
    hide Put, Increasing, IsRank, Drop;
  }

  lemma SplitRightOk(b: Bin, key: int, val: int, slot: nat, mid: nat)
    requires BinOk(b) && |b.keys| == CHILD_SLOT_MAX && IsRank(b.keys, key, slot) && (slot < |b.keys| ==> b.keys[slot] != key)
    requires mid == CHILD_SLOT_MAX / 2 <= slot
    ensures SplitOk(b, Two(Take(b, mid), b.keys[mid - 1], BinPut(Drop(b, mid), slot - mid, key, val)), key)
  {
    var l, sep, r := Take(b, mid), b.keys[mid - 1], BinPut(Drop(b, mid), slot - mid, key, val);
    DropPut(b, mid, key, val, slot);
    hide BinPut, Drop;
    forall i | 0 <= i < |l.keys| ensures l.keys[i] <= sep && l.keys[i] in b.keys { assert l.keys[i] == b.keys[i]; }
    forall i | 0 <= i < |r.keys| ensures sep < r.keys[i] && (r.keys[i] in b.keys || r.keys[i] == key) {
      if i != slot - mid {
        var y := if i < slot - mid then mid + i else mid + i - 1;
        assert r.keys[i] == b.keys[y];
      }
    }
  }

  lemma SplitLeftOk(b: Bin, key: int, val: int, slot: nat, mid: nat)
    requires slot < mid == CHILD_SLOT_MAX / 2
    requires BinOk(b) && |b.keys| == CHILD_SLOT_MAX && IsRank(b.keys, key, slot) && b.keys[slot] != key
    ensures SplitOk(b, Two(BinPut(Take(b, mid), slot, key, val), b.keys[mid - 1], Drop(b, mid)), key)
  {
    var rest, r, sep := Take(b, mid), Drop(b, mid), b.keys[mid - 1];
    var l := BinPut(rest, slot, key, val);
    PutIncreasing(rest.keys, slot, key);
    hide Put;
    assert key < b.keys[slot] <= sep;
    forall i | 0 <= i < |r.keys| ensures sep < r.keys[i] && r.keys[i] in b.keys { assert r.keys[i] == b.keys[mid + i]; }
    forall i | 0 <= i < |l.keys| ensures l.keys[i] <= sep && (l.keys[i] in b.keys || l.keys[i] == key) {
      if i != slot {
        var y := if i < slot then i else i - 1;
        assert l.keys[i] == b.keys[y];
      }
    }
  }

  lemma SplitRight(b: Bin, key: int, val: int, slot: nat, mid: nat)
    requires |b.keys| == |b.vals| && mid <= slot <= |b.keys|
    ensures Adds([b], [Take(b, mid), BinPut(Drop(b, mid), slot - mid, key, val)], key, val)
  {
    var l, r := Take(b, mid), BinPut(Drop(b, mid), slot - mid, key, val);
    forall k, v ensures AnyHolds([l, r], k, v) <==> AnyHolds([b], k, v) || (k == key && v == val) {
      HalvesHold(b, mid, k, v);
      PutHolds(Drop(b, mid), slot - mid, key, val, k, v);
      HoldsOne(b, k, v);
      HoldsTwo(l, r, k, v);
      hide AnyHolds, In, BinPut, Take, Drop;
    }
  }

  lemma SplitLeft(b: Bin, key: int, val: int, slot: nat, mid: nat)
    requires |b.keys| == |b.vals| && slot <= mid <= |b.keys|
    ensures Adds([b], [BinPut(Take(b, mid), slot, key, val), Drop(b, mid)], key, val)
  {
    var l, r := BinPut(Take(b, mid), slot, key, val), Drop(b, mid);
    forall k, v ensures AnyHolds([l, r], k, v) <==> AnyHolds([b], k, v) || (k == key && v == val) {
      HalvesHold(b, mid, k, v);
      PutHolds(Take(b, mid), slot, key, val, k, v);
      HoldsOne(b, k, v);
      HoldsTwo(l, r, k, v);
      hide AnyHolds, In, BinPut, Take, Drop;
    }
  }

  lemma HoldsTwo(a: Bin, b: Bin, k: int, v: int)
    ensures AnyHolds([a, b], k, v) <==> In(a, k, v) || In(b, k, v)
  {
    assert [a, b] == [a] + [b];
    HoldsConcat([a], [b], k, v);
    HoldsOne(a, k, v);
    HoldsOne(b, k, v);
    hide AnyHolds, In;
  }
}
