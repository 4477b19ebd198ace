/** Insertion, update, removal and flattening of two-level bins. */
module LevelBinOps {
  import opened Learned
  import opened LevelBin

  // ----- keeping the bins in order

  lemma RankFits(seps: seq<int>, key: int, slot: nat)
    requires IsRank(seps, key, slot)
    ensures Fits(seps, slot, key)
  {
  }

  lemma PutFits(seps: seq<int>, i: nat, b: Bin, at: nat, key: int, val: int)
    requires i <= |seps| && BinFits(seps, i, b) && Fits(seps, i, key) && |b.vals| == |b.keys| && at <= |b.keys|
    ensures BinFits(seps, i, BinPut(b, at, key, val))
  {
    var c := BinPut(b, at, key, val);
    hide Put, Fits;
    forall j | 0 <= j < |c.keys| ensures Fits(seps, i, c.keys[j]) {
      if j < at { assert Fits(seps, i, b.keys[j]); } else if j > at { assert Fits(seps, i, b.keys[j - 1]); }
    }
  }

  lemma ReplaceBin(lb: LevelBin, i: nat, b: Bin)
    requires Valid(lb) && i < |lb.bins| && BinOk(b) && BinFits(lb.seps, i, b)
    ensures Valid(lb.(bins := lb.bins[i := b]))
  {
    hide BinOk, BinFits;
  }

  lemma ReplaceHolds(bins: seq<Bin>, i: nat, mid: seq<Bin>, key: int, val: int)
    requires i < |bins| && Adds([bins[i]], mid, key, val)
    ensures Adds(bins, bins[..i] + mid + bins[i + 1..], key, val)
  {
    var after := bins[..i] + mid + bins[i + 1..];
    hide AnyHolds;
    forall k, v ensures AnyHolds(after, k, v) <==> AnyHolds(bins, k, v) || (k == key && v == val) {
      HoldsReplaced(bins[..i], mid, bins[i + 1..], k, v);
      HoldsReplaced(bins[..i], [bins[i]], bins[i + 1..], k, v);
      assert bins == bins[..i] + [bins[i]] + bins[i + 1..];
    }
  }

  /** A bin split in two, with the new separator in between. */
  function SplitAt(lb: LevelBin, i: nat, s: Split): LevelBin
    requires s.Two? && i < |lb.bins| == |lb.seps| + 1
  {
    LevelBin(lb.seps[..i] + [s.newkey] + lb.seps[i..], lb.bins[..i] + [s.left, s.right] + lb.bins[i + 1..])
  }

  lemma BinKeyFits(lb: LevelBin, i: nat, k: int)
    requires i < |lb.bins| == |lb.seps| + 1 && BinFits(lb.seps, i, lb.bins[i]) && k in lb.bins[i].keys
    ensures Fits(lb.seps, i, k)
  {
  }

  lemma SplitSeps(lb: LevelBin, i: nat, s: Split)
    requires s.Two? && i < |lb.bins| == |lb.seps| + 1 && Increasing(lb.seps)
    requires Fits(lb.seps, i, s.newkey) && (i < |lb.seps| ==> s.newkey < lb.seps[i])
    ensures Increasing(SplitAt(lb, i, s).seps)
  {
    var r := SplitAt(lb, i, s).seps;
    forall x, y | 0 <= x < y < |r| ensures r[x] < r[y] {
      if y == i && x < i { assert lb.seps[x] <= lb.seps[i - 1]; }
      if x == i { assert lb.seps[i] <= lb.seps[y - 1]; }
    }
  }

  lemma SplitBinAt(lb: LevelBin, i: nat, s: Split, key: int, j: nat)
    requires Valid(lb) && s.Two? && i < |lb.bins| == |lb.seps| + 1 && SplitOk(lb.bins[i], s, key) && Fits(lb.seps, i, key)
    requires j < |lb.bins| + 1
    ensures var r := SplitAt(lb, i, s); |r.bins| == |r.seps| + 1 == |lb.bins| + 1 && BinOk(r.bins[j]) && BinFits(r.seps, j, r.bins[j])
  {
    var r := SplitAt(lb, i, s);
    var seps := lb.seps;
    if j < i {
      assert BinOk(lb.bins[j]) && BinFits(seps, j, lb.bins[j]);
      FitsBefore(seps, i, s.newkey, j, lb.bins[j]);
    } else if j > i + 1 {
      assert BinOk(lb.bins[j - 1]) && BinFits(seps, j - 1, lb.bins[j - 1]);
      FitsAfter(seps, i, s.newkey, j, lb.bins[j - 1]);
    } else {
      var b := r.bins[j];
      forall x | 0 <= x < |b.keys| ensures Fits(r.seps, j, b.keys[x]) {
        if b.keys[x] != key { BinKeyFits(lb, i, b.keys[x]); }
      }
    }
  }

  lemma FitsBefore(seps: seq<int>, i: nat, newkey: int, j: nat, b: Bin)
    requires j < i <= |seps| && BinFits(seps, j, b)
    ensures BinFits(seps[..i] + [newkey] + seps[i..], j, b)
  {
    forall x | 0 <= x < |b.keys| ensures Fits(seps[..i] + [newkey] + seps[i..], j, b.keys[x]) {
      assert Fits(seps, j, b.keys[x]);
    }
  }

  lemma FitsAfter(seps: seq<int>, i: nat, newkey: int, j: nat, b: Bin)
    requires i <= |seps| && i + 1 < j <= |seps| + 1 && BinFits(seps, j - 1, b)
    ensures BinFits(seps[..i] + [newkey] + seps[i..], j, b)
  {
    forall x | 0 <= x < |b.keys| ensures Fits(seps[..i] + [newkey] + seps[i..], j, b.keys[x]) {
      assert Fits(seps, j - 1, b.keys[x]);
    }
  }

  lemma SplitValid(lb: LevelBin, i: nat, s: Split, key: int)
    requires Valid(lb) && s.Two? && i < |lb.bins| && |lb.seps| < ROOT_SLOT_MAX && SplitOk(lb.bins[i], s, key) && Fits(lb.seps, i, key)
    ensures Valid(SplitAt(lb, i, s))
  {
    assert BinOk(s.right) && BinFits(lb.seps, i, lb.bins[i]);
    if s.newkey != key { BinKeyFits(lb, i, s.newkey); }
    var first := s.right.keys[0];
    assert s.newkey < first;
    if first != key { BinKeyFits(lb, i, first); }
    SplitSeps(lb, i, s);
    hide SplitOk, BinOk, BinFits, Fits;
    forall j | 0 <= j < |lb.bins| + 1
      ensures var r := SplitAt(lb, i, s); |r.bins| == |r.seps| + 1 == |lb.bins| + 1 && BinOk(r.bins[j]) && BinFits(r.seps, j, r.bins[j])
    {
      SplitBinAt(lb, i, s, key, j);
    }
  }

  // ----- making room in a full bin by moving a pair to the bin before it

  /** The first pair of `curr` with the new one in its place; `at` is the rank of the new key in `curr`. */
  function Shifted(curr: Bin, at: nat, key: int, val: int): Bin
    requires 1 <= at <= |curr.keys| == |curr.vals|
  {
    Bin(curr.keys[1..at] + [key] + curr.keys[at..], curr.vals[1..at] + [val] + curr.vals[at..])
  }

  function ShiftedBins(lb: LevelBin, slot: nat, prev: Bin, curr: Bin, sep: int, upper: Option<int>): LevelBin
    requires 1 <= slot < |lb.bins| == |lb.seps| + 1
  {
    var seps := lb.seps[slot - 1 := sep];
    LevelBin(if upper.Some? && slot < |seps| then seps[slot := upper.value] else seps, lb.bins[slot - 1 := prev][slot := curr])
  }

  /** Moving the border between two neighbouring bins. */
  lemma ShiftValid(lb: LevelBin, slot: nat, prev: Bin, curr: Bin, sep: int, upper: Option<int>)
    requires Valid(lb) && 1 <= slot < |lb.bins| && BinOk(prev) && BinOk(curr)
    requires lb.seps[slot - 1] < sep && (slot < |lb.seps| ==> sep < lb.seps[slot])
    requires forall x :: 0 <= x < |prev.keys| ==> prev.keys[x] <= sep && (slot >= 2 ==> lb.seps[slot - 2] < prev.keys[x])
    requires forall x :: 0 <= x < |curr.keys| ==> sep < curr.keys[x] && (slot < |lb.seps| ==> curr.keys[x] <= lb.seps[slot])
    requires upper.Some? ==> (forall x :: 0 <= x < |curr.keys| ==> curr.keys[x] <= upper.value)
                             && sep < upper.value && (slot < |lb.seps| ==> upper.value <= lb.seps[slot])
    ensures Valid(ShiftedBins(lb, slot, prev, curr, sep, upper))
  {
    var r := ShiftedBins(lb, slot, prev, curr, sep, upper);
    ShiftSeps(lb, slot, prev, curr, sep, upper);
    forall i | 0 <= i < |r.bins| ensures BinOk(r.bins[i]) && BinFits(r.seps, i, r.bins[i]) {
      assert BinOk(lb.bins[i]) && BinFits(lb.seps, i, lb.bins[i]);
      if i != slot && i != slot - 1 { ShiftOther(lb, slot, prev, curr, sep, upper, i); }
    }
    hide BinOk, BinFits;
  }

  lemma ShiftOther(lb: LevelBin, slot: nat, prev: Bin, curr: Bin, sep: int, upper: Option<int>, i: nat)
    requires 1 <= slot < |lb.bins| == |lb.seps| + 1 && i < |lb.bins| && i != slot && i != slot - 1 && BinFits(lb.seps, i, lb.bins[i])
    requires upper.Some? && slot < |lb.seps| ==> upper.value <= lb.seps[slot]
    ensures BinFits(ShiftedBins(lb, slot, prev, curr, sep, upper).seps, i, lb.bins[i])
  {
    var r, b := ShiftedBins(lb, slot, prev, curr, sep, upper), lb.bins[i];
    forall j | 0 <= j < |b.keys| ensures Fits(r.seps, i, b.keys[j]) { assert Fits(lb.seps, i, b.keys[j]); }
  }

  lemma ShiftSeps(lb: LevelBin, slot: nat, prev: Bin, curr: Bin, sep: int, upper: Option<int>)
    requires 1 <= slot < |lb.bins| == |lb.seps| + 1 && Increasing(lb.seps)
    requires lb.seps[slot - 1] < sep && (slot < |lb.seps| ==> sep < lb.seps[slot])
    requires upper.Some? ==> sep < upper.value && (slot < |lb.seps| ==> upper.value <= lb.seps[slot])
    ensures Increasing(ShiftedBins(lb, slot, prev, curr, sep, upper).seps)
  {
    var r := ShiftedBins(lb, slot, prev, curr, sep, upper).seps;
    forall x, y | 0 <= x < y < |r| ensures r[x] < r[y] {
      assert lb.seps[x] < lb.seps[y];
      if y == slot && x < slot { assert lb.seps[x] <= lb.seps[slot - 1]; }
      if x == slot - 1 && y > slot { assert lb.seps[slot] < lb.seps[y]; }
    }
  }

  lemma ShiftedHolds(prev: Bin, curr: Bin, at: nat, key: int, val: int, k: int, v: int)
    requires |prev.vals| == |prev.keys| && 1 <= at <= |curr.keys| == |curr.vals|
    ensures In(BinPut(prev, |prev.keys|, curr.keys[0], curr.vals[0]), k, v) || In(Shifted(curr, at, key, val), k, v)
        <==> In(prev, k, v) || In(curr, k, v) || (k == key && v == val)
  {
    var rest := Drop(curr, 1);
    ShiftedIsPut(curr, at, key, val);
    hide Shifted;
    PutHolds(rest, at - 1, key, val, k, v);
    PutHolds(prev, |prev.keys|, curr.keys[0], curr.vals[0], k, v);
    HalvesHold(curr, 1, k, v);
    hide BinPut, Drop;
    assert In(Take(curr, 1), k, v) <==> k == curr.keys[0] && v == curr.vals[0] by { TakeOne(curr, k, v); }
    hide In;
  }

  lemma TakeOne(b: Bin, k: int, v: int)
    requires |b.keys| == |b.vals| >= 1
    ensures In(Take(b, 1), k, v) <==> k == b.keys[0] && v == b.vals[0]
  {
    var t := Take(b, 1);
    if k == b.keys[0] && v == b.vals[0] { assert t.keys[0] == k && t.vals[0] == v; }
  }

  lemma PairReplaced(bins: seq<Bin>, slot: nat, p: Bin, c: Bin, key: int, val: int)
    requires 1 <= slot < |bins|
    requires forall k, v :: In(p, k, v) || In(c, k, v) <==> In(bins[slot - 1], k, v) || In(bins[slot], k, v) || (k == key && v == val)
    ensures Adds(bins, bins[slot - 1 := p][slot := c], key, val)
  {
    var after := bins[slot - 1 := p][slot := c];
    var pre, post := bins[..slot - 1], bins[slot + 1..];
    assert after == pre + [p, c] + post && bins == pre + [bins[slot - 1], bins[slot]] + post;
    hide In;
    forall k, v ensures AnyHolds(after, k, v) <==> AnyHolds(bins, k, v) || (k == key && v == val) {
      HoldsReplaced(pre, [p, c], post, k, v);
      HoldsReplaced(pre, [bins[slot - 1], bins[slot]], post, k, v);
      HoldsTwo(p, c, k, v);
      HoldsTwo(bins[slot - 1], bins[slot], k, v);
      hide AnyHolds;
    }
  }

  // ----- insertion

  ghost predicate NotHeld(lb: LevelBin, key: int) {
    forall v :: !Holds(lb, key, v)
  }

  /** Insertion into the bin before a full one: the key itself, or the first pair of the full bin to make room. */
  method InsertBefore(lb: LevelBin, slot: nat, key: int, val: int, at: nat) returns (r: LevelBin)
    requires Valid(lb) && 1 <= slot < |lb.bins| && IsRank(lb.seps, key, slot) && |lb.bins[slot - 1].keys| < ROOT_SLOT_MAX
    requires IsRank(lb.bins[slot].keys, key, at) && (at < |lb.bins[slot].keys| ==> lb.bins[slot].keys[at] != key)
    ensures Valid(r) && Adds(lb.bins, r.bins, key, val)
  {
    var prev, curr := lb.bins[slot - 1], lb.bins[slot];
    assert BinOk(prev) && BinOk(curr) && BinFits(lb.seps, slot - 1, prev) && BinFits(lb.seps, slot, curr);
    RankFits(lb.seps, key, slot);
    if curr.keys[0] > key {
      var p := BinPut(prev, |prev.keys|, key, val);
      BeforeOk(lb, slot, p, curr, key, val);
      r := ShiftedBins(lb, slot, p, curr, key, None);
    } else {
      var p, c := BinPut(prev, |prev.keys|, curr.keys[0], curr.vals[0]), Shifted(curr, at, key, val);
      var upper := if at == |curr.keys| then Some(key) else None;
      MoveOk(lb, slot, at, key, val, upper);
      r := ShiftedBins(lb, slot, p, c, curr.keys[0], upper);
    }
  }

  lemma BeforeOk(lb: LevelBin, slot: nat, p: Bin, curr: Bin, key: int, val: int)
    requires Valid(lb) && 1 <= slot < |lb.bins| && Fits(lb.seps, slot, key) && |lb.bins[slot - 1].keys| < ROOT_SLOT_MAX
    requires curr == lb.bins[slot] && BinOk(lb.bins[slot - 1]) && p == BinPut(lb.bins[slot - 1], |lb.bins[slot - 1].keys|, key, val)
    requires curr.keys != [] && curr.keys[0] > key
    ensures var r := ShiftedBins(lb, slot, p, curr, key, None); Valid(r) && Adds(lb.bins, r.bins, key, val)
  {
    var prev := lb.bins[slot - 1];
    assert BinOk(curr) && BinFits(lb.seps, slot - 1, prev) && BinFits(lb.seps, slot, curr);
    AppendOk(lb.seps, slot - 1, prev, key, val);
    forall x | 0 <= x < |curr.keys| ensures key < curr.keys[x] && (slot < |lb.seps| ==> curr.keys[x] <= lb.seps[slot]) {
      assert Fits(lb.seps, slot, curr.keys[x]) && curr.keys[0] <= curr.keys[x];
    }
    assert slot < |lb.seps| ==> key < lb.seps[slot];
    ShiftValid(lb, slot, p, curr, key, None);
    forall k, v ensures In(p, k, v) || In(curr, k, v) <==> In(prev, k, v) || In(curr, k, v) || (k == key && v == val) {
      PutHolds(prev, |prev.keys|, key, val, k, v);
    }
    hide In, Valid;
    PairReplaced(lb.bins, slot, p, curr, key, val);
  }

  /** A key above all of a bin, put at its end. */
  lemma AppendOk(seps: seq<int>, i: nat, b: Bin, key: int, val: int)
    requires BinOk(b) && |b.keys| < CHILD_SLOT_MAX && i < |seps| && BinFits(seps, i, b) && seps[i] < key
    ensures var p := BinPut(b, |b.keys|, key, val);
            && BinOk(p)
            && forall x :: 0 <= x < |p.keys| ==> p.keys[x] <= key && (i >= 1 ==> Increasing(seps) ==> seps[i - 1] < p.keys[x])
  {
    var p := BinPut(b, |b.keys|, key, val);
    forall x | 0 <= x < |b.keys| ensures b.keys[x] < key && (i >= 1 ==> seps[i - 1] < b.keys[x]) {
      assert Fits(seps, i, b.keys[x]);
    }
    PutIncreasing(b.keys, |b.keys|, key);
    hide Put;
  }

  lemma MoveOk(lb: LevelBin, slot: nat, at: nat, key: int, val: int, upper: Option<int>)
    requires Valid(lb) && 1 <= slot < |lb.bins| && Fits(lb.seps, slot, key) && |lb.bins[slot - 1].keys| < ROOT_SLOT_MAX
    requires BinOk(lb.bins[slot - 1]) && BinOk(lb.bins[slot])
    requires IsRank(lb.bins[slot].keys, key, at) && (at < |lb.bins[slot].keys| ==> lb.bins[slot].keys[at] != key)
    requires lb.bins[slot].keys[0] <= key && upper == if at == |lb.bins[slot].keys| then Some(key) else None
    ensures at >= 1
    ensures var prev, curr := lb.bins[slot - 1], lb.bins[slot];
            var r := ShiftedBins(lb, slot, BinPut(prev, |prev.keys|, curr.keys[0], curr.vals[0]), Shifted(curr, at, key, val), curr.keys[0], upper);
            Valid(r) && Adds(lb.bins, r.bins, key, val)
  {
    var prev, curr := lb.bins[slot - 1], lb.bins[slot];
    assert BinFits(lb.seps, slot - 1, prev) && BinFits(lb.seps, slot, curr);
    assert at >= 1;
    var p, c := BinPut(prev, |prev.keys|, curr.keys[0], curr.vals[0]), Shifted(curr, at, key, val);
    var first := curr.keys[0];
    assert Fits(lb.seps, slot, first);
    AppendOk(lb.seps, slot - 1, prev, first, curr.vals[0]);
    ShiftedOk(lb.seps, slot, curr, at, key, val);
    ShiftValid(lb, slot, p, c, first, upper);
    forall k, v ensures In(p, k, v) || In(c, k, v) <==> In(prev, k, v) || In(curr, k, v) || (k == key && v == val) {
      ShiftedHolds(prev, curr, at, key, val, k, v);
    }
    hide In, Valid;
    PairReplaced(lb.bins, slot, p, c, key, val);
  }

  lemma ShiftedOk(seps: seq<int>, slot: nat, curr: Bin, at: nat, key: int, val: int)
    requires BinOk(curr) && slot <= |seps| && BinFits(seps, slot, curr) && Fits(seps, slot, key)
    requires IsRank(curr.keys, key, at) && at >= 1 && (at < |curr.keys| ==> curr.keys[at] != key)
    ensures var c := Shifted(curr, at, key, val);
            && BinOk(c) && curr.keys[0] < key
            && (forall x :: 0 <= x < |c.keys| ==> curr.keys[0] < c.keys[x] && (slot < |seps| ==> c.keys[x] <= seps[slot]))
            && (at == |curr.keys| ==> forall x :: 0 <= x < |c.keys| ==> c.keys[x] <= key)
  {
    var c := Shifted(curr, at, key, val);
    ShiftedIsPut(curr, at, key, val);
    hide Shifted, BinFits, Drop, Fits, BinPut;
    DropPut(curr, 1, key, val, at);
    hide IsRank;
    forall x | 0 <= x < |c.keys|
      ensures curr.keys[0] < c.keys[x] && (slot < |seps| ==> c.keys[x] <= seps[slot]) && (at == |curr.keys| ==> c.keys[x] <= key)
    {
      ShiftedKeyOk(seps, slot, curr, at, key, if x == at - 1 then key else curr.keys[if x < at - 1 then x + 1 else x]);
    }
  }

  lemma ShiftedIsPut(curr: Bin, at: nat, key: int, val: int)
    requires 1 <= at <= |curr.keys| == |curr.vals|
    ensures Shifted(curr, at, key, val) == BinPut(Drop(curr, 1), at - 1, key, val)
  {
  }

  /** A key of the full bin but its first, or the new one. */
  lemma ShiftedKeyOk(seps: seq<int>, slot: nat, curr: Bin, at: nat, key: int, k: int)
    requires slot <= |seps| && BinFits(seps, slot, curr) && Fits(seps, slot, key) && Increasing(curr.keys)
    requires IsRank(curr.keys, key, at) && at >= 1 && (at < |curr.keys| ==> curr.keys[at] != key)
    requires k == key || exists y :: 1 <= y < |curr.keys| && k == curr.keys[y]
    ensures curr.keys[0] < k && (slot < |seps| ==> k <= seps[slot]) && (at == |curr.keys| ==> k <= key)
  {
  }

  /** The bin for the key is full, and the bin before it has room. */
  predicate MovesBefore(lb: LevelBin, key: int)
    requires Valid(lb) && lb.bins != []
  {
    var slot := Rank(lb.seps, key);
    |lb.bins[slot].keys| == CHILD_SLOT_MAX && slot > 0 && |lb.bins[slot - 1].keys| < ROOT_SLOT_MAX
  }

  /** The bin for the key is full, so is the root, and no pair can move to the bin before. */
  predicate NoSlotLeft(lb: LevelBin, key: int)
    requires Valid(lb) && lb.bins != []
  {
    |lb.bins[Rank(lb.seps, key)].keys| == CHILD_SLOT_MAX && |lb.seps| == ROOT_SLOT_MAX && !MovesBefore(lb, key)
  }

  /** The pair put into bin `slot` at `at`; a full bin is split. */
  function PutAt(lb: LevelBin, slot: nat, at: nat, key: int, val: int): LevelBin
    requires slot < |lb.bins| == |lb.seps| + 1 && at <= |lb.bins[slot].keys| == |lb.bins[slot].vals| <= CHILD_SLOT_MAX
  {
    var b := lb.bins[slot];
    if |b.keys| < CHILD_SLOT_MAX then lb.(bins := lb.bins[slot := BinPut(b, at, key, val)])
    else SplitAt(lb, slot, SplitOf(b, key, val, at))
  }

  function Placed(lb: LevelBin, key: int, val: int): LevelBin
    requires Valid(lb) && lb.bins != []
  {
    var slot := Rank(lb.seps, key);
    assert BinOk(lb.bins[slot]);
    PutAt(lb, slot, Rank(lb.bins[slot].keys, key), key, val)
  }

  lemma RankIs(keys: seq<int>, key: int, g: nat)
    requires Increasing(keys) && IsRank(keys, key, g)
    ensures g == Rank(keys, key)
  {
    var r := Rank(keys, key);
    assert r < |keys| ==> key <= keys[r];
    assert g < |keys| ==> key <= keys[g];
  }

  /** Insertion into the bin for the key. */
  method InsertInto(lb: LevelBin, slot: nat, at: nat, key: int, val: int) returns (r: LevelBin)
    requires Valid(lb) && slot < |lb.bins| && IsRank(lb.seps, key, slot) && BinOk(lb.bins[slot])
    requires IsRank(lb.bins[slot].keys, key, at) && (at < |lb.bins[slot].keys| ==> lb.bins[slot].keys[at] != key)
    requires |lb.bins[slot].keys| == CHILD_SLOT_MAX ==> |lb.seps| < ROOT_SLOT_MAX
    ensures Valid(r) && Adds(lb.bins, r.bins, key, val) && r == PutAt(lb, slot, at, key, val)
  {
    var b := lb.bins[slot];
    assert BinFits(lb.seps, slot, b);
    RankFits(lb.seps, key, slot);
    hide Valid, Adds, BinFits, Fits, SplitOf;
    var s := InsertChild(b, key, val, at);
    ReplaceHolds(lb.bins, slot, Parts(s), key, val);
    if s.Whole? {
      r := lb.(bins := lb.bins[slot := s.b]);
      assert r.bins == lb.bins[..slot] + [s.b] + lb.bins[slot + 1..];
      PutIncreasing(b.keys, at, key);
      PutFits(lb.seps, slot, b, at, key, val);
      ReplaceBin(lb, slot, s.b);
    } else {
      SplitValid(lb, slot, s, key);
      r := SplitAt(lb, slot, s);
    }
  }

  lemma FirstBin(key: int, val: int)
    ensures var r := LevelBin([], [Bin([key], [val])]); Valid(r) && Adds([], r.bins, key, val)
  {
    var b := Bin([key], [val]);
    forall k, v ensures AnyHolds([b], k, v) <==> AnyHolds([], k, v) || (k == key && v == val) {
      HoldsOne(b, k, v);
      if k == key && v == val { assert b.keys[0] == k && b.vals[0] == v; }
    }
  }

  /** `con_insert_start_retrain`. */
  method Insert(lb: LevelBin, key: int, val: int) returns (r: LevelBin, out: Outcome)
    requires Valid(lb)
    ensures Valid(r)
    ensures out.Ok? ==> NotHeld(lb, key) && Adds(lb.bins, r.bins, key, val)
    ensures out.Failed? ==> r == lb && !NotHeld(lb, key)
    ensures out.Retrain? <==> lb.bins != [] && NoSlotLeft(lb, key)
    ensures out.Retrain? ==> r == lb
    ensures lb.bins == [] ==> out.Ok? && r == LevelBin([], [Bin([key], [val])])
    ensures out.Ok? && lb.bins != [] && !MovesBefore(lb, key) ==> r == Placed(lb, key, val)
  {
    if |lb.bins| == 0 {
      FirstBin(key, val);
      return LevelBin([], [Bin([key], [val])]), Ok;
    }
    var slot := FindLower(lb.seps, key);
    var b := lb.bins[slot];
    assert BinOk(b);
    var at := FindLower(b.keys, key);
    HeldIff(lb, key, slot, at);
    RankIs(lb.seps, key, slot);
    RankIs(b.keys, key, at);
    hide Valid, NotHeld, Adds, PutAt;
    if |b.keys| < CHILD_SLOT_MAX || !(slot > 0 && |lb.bins[slot - 1].keys| < ROOT_SLOT_MAX) {
      if |b.keys| == CHILD_SLOT_MAX && |lb.seps| == ROOT_SLOT_MAX { return lb, Retrain; }
      if at < |b.keys| && b.keys[at] == key { return lb, Failed; }
      out := Ok;
      r := InsertInto(lb, slot, at, key, val);
    } else {
      if at < |b.keys| && b.keys[at] == key { return lb, Failed; }
      out := Ok;
      r := InsertBefore(lb, slot, key, val, at);
    }
  }

  lemma HeldIff(lb: LevelBin, key: int, slot: nat, at: nat)
    requires Valid(lb) && lb.bins != [] && IsRank(lb.seps, key, slot) && slot < |lb.bins| && IsRank(lb.bins[slot].keys, key, at)
    ensures NotHeld(lb, key) <==> !(at < |lb.bins[slot].keys| && lb.bins[slot].keys[at] == key)
  {
    var b := lb.bins[slot];
    assert BinOk(b);
    hide Valid, In;
    forall v ensures Holds(lb, key, v) <==> at < |b.keys| && b.keys[at] == key && b.vals[at] == v {
      FoundThere(lb, key, slot, at, v);
    }
    if at < |b.keys| && b.keys[at] == key { assert Holds(lb, key, b.vals[at]); }
    hide Holds;
  }
}
