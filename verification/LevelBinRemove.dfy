/** Removal and update in two-level bins, and the flattening before retraining. */
module LevelBinRemove {
  import opened Learned
  import opened LevelBin
  import opened LevelBinOps

  // ----- one bin

  function Cut(b: Bin, at: nat): Bin
    requires at < |b.keys| == |b.vals|
  {
    Bin(b.keys[..at] + b.keys[at + 1..], b.vals[..at] + b.vals[at + 1..])
  }

  lemma CutIs(b: Bin, at: nat)
    requires at < |b.keys| == |b.vals| && Increasing(b.keys)
    ensures var c := Cut(b, at);
            && |c.keys| == |c.vals| == |b.keys| - 1 && Increasing(c.keys)
            && forall j :: 0 <= j < |c.keys| ==> c.keys[j] == b.keys[if j < at then j else j + 1] && c.vals[j] == b.vals[if j < at then j else j + 1]
  {
  }

  lemma CutHolds(b: Bin, at: nat, k: int, v: int)
    requires at < |b.keys| == |b.vals| && Increasing(b.keys)
    ensures In(Cut(b, at), k, v) <==> In(b, k, v) && k != b.keys[at]
  {
    CutIs(b, at);
    var c := Cut(b, at);
    assert forall j :: 0 <= j < |b.keys| && b.keys[j] == b.keys[at] ==> j == at;
    hide Cut, Increasing;
    if In(b, k, v) && k != b.keys[at] {
      var j :| 0 <= j < |b.keys| && j < |b.vals| && b.keys[j] == k && b.vals[j] == v;
      var l := if j < at then j else j - 1;
      assert c.keys[l] == k && c.vals[l] == v;
    }
    if In(c, k, v) {
      var j :| 0 <= j < |c.keys| && j < |c.vals| && c.keys[j] == k && c.vals[j] == v;
      var l := if j < at then j else j + 1;
      assert b.keys[l] == k && b.vals[l] == v && b.keys[l] != b.keys[at];
    }
  }

  // ----- the root

  ghost predicate Removes(before: seq<Bin>, after: seq<Bin>, key: int) {
    forall k, v :: AnyHolds(after, k, v) <==> AnyHolds(before, k, v) && k != key
  }

  function Without<T>(s: seq<T>, i: nat): seq<T>
    requires i < |s|
  {
    s[..i] + s[i + 1..]
  }

  /**
   The root without the emptied bin `slot`.  The separators and the bins after it move up only if it is neither the
   last nor the last but one; the root shrinks in any case, so the last but one stays, empty, and the last is lost.
   */
  function Unlink(lb: LevelBin, slot: nat): LevelBin
    requires slot < |lb.bins| == |lb.seps| + 1 && |lb.seps| >= 1
  {
    var n := |lb.seps|;
    if n == 1 then LevelBin([], Without(lb.bins, slot))
    else if slot + 1 < n then LevelBin(Without(lb.seps, slot), Without(lb.bins, slot))
    else if slot == n then LevelBin(lb.seps[..n - 1], lb.bins[..n])
    else LevelBin(lb.seps[..n - 1], lb.bins[..slot] + [Bin([], [])])
  }

  /** The removal empties the last but one of three or more bins. */
  predicate LosesBin(lb: LevelBin, key: int)
    requires Valid(lb)
  {
    var n := |lb.seps|;
    n >= 2 && Rank(lb.seps, key) == n - 1 && lb.bins[n - 1].keys == [key]
  }

  lemma UnlinkBin(lb: LevelBin, slot: nat, i: nat)
    requires Valid(lb) && |lb.seps| >= 1 && slot < |lb.bins| && !(slot + 1 == |lb.seps| >= 2) && i < |lb.bins| - 1
    ensures var r := Unlink(lb, slot); |r.bins| == |r.seps| + 1 == |lb.bins| - 1 && BinOk(r.bins[i]) && BinFits(r.seps, i, r.bins[i])
  {
    var r := Unlink(lb, slot);
    var x := if i < slot then i else i + 1;
    assert BinOk(lb.bins[x]) && BinFits(lb.seps, x, lb.bins[x]);
    assert r.bins[i] == lb.bins[x];
    forall j | 0 <= j < |r.bins[i].keys| ensures Fits(r.seps, i, r.bins[i].keys[j]) {
      assert Fits(lb.seps, x, lb.bins[x].keys[j]);
      if i == slot && slot > 0 { assert lb.seps[slot - 1] < lb.seps[slot]; }
    }
  }

  lemma UnlinkValid(lb: LevelBin, slot: nat)
    requires Valid(lb) && |lb.seps| >= 1 && slot < |lb.bins| && !(slot + 1 == |lb.seps| >= 2)
    ensures Valid(Unlink(lb, slot)) && Unlink(lb, slot).bins == Without(lb.bins, slot)
  {
    var r := Unlink(lb, slot);
    forall i | 0 <= i < |lb.bins| - 1
      ensures |r.bins| == |r.seps| + 1 == |lb.bins| - 1 && BinOk(r.bins[i]) && BinFits(r.seps, i, r.bins[i])
    {
      UnlinkBin(lb, slot, i);
    }
    hide BinOk, BinFits;
  }

  lemma WithoutHolds(bins: seq<Bin>, slot: nat, key: int)
    requires slot < |bins| && |bins[slot].keys| == |bins[slot].vals| == 1 && bins[slot].keys[0] == key
    requires forall i, v :: 0 <= i < |bins| && In(bins[i], key, v) ==> i == slot
    ensures Removes(bins, Without(bins, slot), key)
  {
    var pre, post := bins[..slot], bins[slot + 1..];
    assert bins == pre + [bins[slot]] + post;
    forall k, v ensures AnyHolds(Without(bins, slot), k, v) <==> AnyHolds(bins, k, v) && k != key {
      HoldsReplaced(pre, [bins[slot]], post, k, v);
      HoldsConcat(pre, post, k, v);
      HoldsOne(bins[slot], k, v);
      assert In(bins[slot], k, v) ==> k == key;
      hide In;
      forall i | 0 <= i < |pre + post| ensures !In((pre + post)[i], key, v) {
        assert (pre + post)[i] == bins[if i < slot then i else i + 1];
      }
    }
  }

  lemma CutReplaced(bins: seq<Bin>, slot: nat, at: nat)
    requires slot < |bins| && at < |bins[slot].keys| == |bins[slot].vals| && Increasing(bins[slot].keys)
    requires forall i, v :: 0 <= i < |bins| && In(bins[i], bins[slot].keys[at], v) ==> i == slot
    ensures Removes(bins, bins[slot := Cut(bins[slot], at)], bins[slot].keys[at])
  {
    var b := bins[slot];
    var key, c, after := b.keys[at], Cut(b, at), bins[slot := Cut(b, at)];
    hide In, Cut;
    forall k, v ensures AnyHolds(after, k, v) <==> AnyHolds(bins, k, v) && k != key {
      CutHolds(b, at, k, v);
      if AnyHolds(after, k, v) {
        var i :| 0 <= i < |after| && In(after[i], k, v);
        assert In(bins[i], k, v);
      }
      if AnyHolds(bins, k, v) && k != key {
        var i :| 0 <= i < |bins| && In(bins[i], k, v);
        assert In(after[i], k, v);
      }
    }
  }

  /** The separator above a bin may be lowered to the bin's last key. */
  lemma LowerValid(lb: LevelBin, slot: nat, sep: int)
    requires Valid(lb) && slot < |lb.seps| && lb.bins != [] && lb.bins[slot].keys != [] && sep == lb.bins[slot].keys[|lb.bins[slot].keys| - 1]
    ensures Valid(lb.(seps := lb.seps[slot := sep]))
  {
    var b := lb.bins[slot];
    assert BinOk(b) && BinFits(lb.seps, slot, b) && Fits(lb.seps, slot, sep);
    var seps := lb.seps[slot := sep];
    forall x, y | 0 <= x < y < |seps| ensures seps[x] < seps[y] {
      assert lb.seps[x] < lb.seps[y];
      if y == slot { assert lb.seps[x] <= lb.seps[slot - 1]; }
    }
    forall i | 0 <= i < |lb.bins| ensures BinFits(seps, i, lb.bins[i]) {
      assert BinFits(lb.seps, i, lb.bins[i]);
      LowerFits(lb, slot, sep, i);
    }
    hide BinOk, BinFits;
  }

  lemma LowerFits(lb: LevelBin, slot: nat, sep: int, i: nat)
    requires slot < |lb.seps| && |lb.bins| == |lb.seps| + 1 && i < |lb.bins| && BinFits(lb.seps, i, lb.bins[i])
    requires sep <= lb.seps[slot] && Increasing(lb.bins[slot].keys) && lb.bins[slot].keys != []
    requires sep == lb.bins[slot].keys[|lb.bins[slot].keys| - 1]
    ensures BinFits(lb.seps[slot := sep], i, lb.bins[i])
  {
    var b := lb.bins[i];
    forall j | 0 <= j < |b.keys| ensures Fits(lb.seps[slot := sep], i, b.keys[j]) {
      assert Fits(lb.seps, i, b.keys[j]);
      if i == slot { assert b.keys[j] <= sep; }
    }
  }

  lemma CutValid(lb: LevelBin, slot: nat, at: nat)
    requires Valid(lb) && slot < |lb.bins| && at < |lb.bins[slot].keys| == |lb.bins[slot].vals| && |lb.bins[slot].keys| >= 2
    ensures Valid(lb.(bins := lb.bins[slot := Cut(lb.bins[slot], at)]))
  {
    var b := lb.bins[slot];
    assert BinOk(b) && BinFits(lb.seps, slot, b);
    CutIs(b, at);
    var c := Cut(b, at);
    hide Cut;
    forall j | 0 <= j < |c.keys| ensures Fits(lb.seps, slot, c.keys[j]) {
      assert Fits(lb.seps, slot, b.keys[if j < at then j else j + 1]);
    }
    ReplaceBin(lb, slot, c);
  }

  lemma NotElsewhere(lb: LevelBin, key: int, slot: nat, i: nat, v: int)
    requires Valid(lb) && IsRank(lb.seps, key, slot) && i < |lb.bins| && i != slot
    ensures !In(lb.bins[i], key, v)
  {
    assert BinFits(lb.seps, i, lb.bins[i]);
    forall j | 0 <= j < |lb.bins[i].keys| ensures lb.bins[i].keys[j] != key {
      assert Fits(lb.seps, i, lb.bins[i].keys[j]);
    }
  }

  /** Some pair of another key is gone. */
  ghost predicate Drops(before: seq<Bin>, after: seq<Bin>, key: int) {
    exists k, v :: k != key && AnyHolds(before, k, v) && !AnyHolds(after, k, v)
  }

  /** Losing the last bin is not what removal of one key should do. */
  lemma LosesMore(lb: LevelBin, key: int)
    requires Valid(lb) && LosesBin(lb, key)
    ensures Drops(lb.bins, Unlink(lb, |lb.seps| - 1).bins, key)
  {
    var n := |lb.seps|;
    var last, after := lb.bins[n], Unlink(lb, n - 1).bins;
    assert BinOk(last) && BinFits(lb.seps, n, last);
    var k, v := last.keys[0], last.vals[0];
    assert In(last, k, v) && Fits(lb.seps, n, k);
    assert Fits(lb.seps, n - 1, key) by { RankFits(lb.seps, key, n - 1); }
    assert k != key && AnyHolds(lb.bins, k, v);
    forall i | 0 <= i < |after| ensures !In(after[i], k, v) {
      assert after[i] == if i < n - 1 then lb.bins[i] else Bin([], []);
      if i < n - 1 { NotElsewhere(lb, k, n, i, v); }
    }
  }

  /** The key is in its bin, and not the last one there. */
  predicate CutsInside(lb: LevelBin, key: int)
    requires Valid(lb)
  {
    lb.bins != [] &&
    var b := lb.bins[Rank(lb.seps, key)];
    assert BinOk(b);
    Rank(b.keys, key) + 1 < |b.keys| && b.keys[Rank(b.keys, key)] == key
  }

  function CutOut(lb: LevelBin, key: int): LevelBin
    requires Valid(lb) && CutsInside(lb, key)
  {
    var slot := Rank(lb.seps, key);
    assert BinOk(lb.bins[slot]);
    lb.(bins := lb.bins[slot := Cut(lb.bins[slot], Rank(lb.bins[slot].keys, key))])
  }

  method Remove(lb: LevelBin, key: int) returns (r: LevelBin, out: Outcome)
    requires Valid(lb)
    ensures out.Failed? <==> NotHeld(lb, key)
    ensures out.Failed? ==> r == lb
    ensures out.Failed? || out.Ok?
    ensures out.Ok? && !LosesBin(lb, key) ==> Valid(r) && Removes(lb.bins, r.bins, key)
    ensures LosesBin(lb, key) ==> out.Ok? && Drops(lb.bins, r.bins, key)
    ensures CutsInside(lb, key) ==> r == CutOut(lb, key)
  {
    if |lb.bins| == 0 { return lb, Failed; }
    var slot := FindLower(lb.seps, key);
    var b := lb.bins[slot];
    assert BinOk(b);
    var at := FindLower(b.keys, key);
    HeldIff(lb, key, slot, at);
    assert Rank(lb.seps, key) == slot by { RankIs(lb.seps, key, slot); }
    assert Rank(b.keys, key) == at by { RankIs(b.keys, key, at); }
    if at >= |b.keys| || b.keys[at] != key {
      assert b.keys[0] != key;
      return lb, Failed;
    }
    out := Ok;
    hide In, NotHeld, Removes, Drops;
    r := RemoveAt(lb, key, slot, at);
  }

  /** Three bins of one pair each: removing the middle one loses the third. */
  lemma LosesExample()
    ensures exists lb, key :: Valid(lb) && LosesBin(lb, key) && Drops(lb.bins, Unlink(lb, |lb.seps| - 1).bins, key)
  {
    var lb := LevelBin([1, 2], [Bin([1], [1]), Bin([2], [2]), Bin([3], [3])]);
    assert Valid(lb);
    assert LosesBin(lb, 2) by { RankIs(lb.seps, 2, 1); }
    hide Valid, LosesBin, Drops, Unlink;
    LosesMore(lb, 2);
  }

  /** The pair at a known place is taken out. */
  method RemoveAt(lb: LevelBin, key: int, slot: nat, at: nat) returns (r: LevelBin)
    requires Valid(lb) && IsRank(lb.seps, key, slot) && slot < |lb.bins| && BinOk(lb.bins[slot])
    requires at < |lb.bins[slot].keys| && lb.bins[slot].keys[at] == key
    ensures !LosesBin(lb, key) ==> Valid(r) && Removes(lb.bins, r.bins, key)
    ensures LosesBin(lb, key) ==> Drops(lb.bins, r.bins, key)
    ensures at + 1 < |lb.bins[slot].keys| ==> r == lb.(bins := lb.bins[slot := Cut(lb.bins[slot], at)])
  {
    var b := lb.bins[slot];
    assert LosesBin(lb, key) <==> |lb.seps| >= 2 && slot == |lb.seps| - 1 && |b.keys| == 1 by { RankIs(lb.seps, key, slot); }
    forall i, v | 0 <= i < |lb.bins| && In(lb.bins[i], key, v) ensures i == slot { OnlyThere(lb, key, slot, i, v); }
    hide Valid, In, Removes, Drops, LosesBin, IsRank;
    if |b.keys| == 1 {
      hide BinOk;
      if |lb.seps| == 0 {
        WithoutHolds(lb.bins, slot, key);
        r := LevelBin([], []);
        assert |lb.bins| == 1 by { OneBin(lb); }
        assert Without(lb.bins, slot) == [];
        EmptyValid();
      } else {
        r := Unlink(lb, slot);
        if slot + 1 == |lb.seps| >= 2 {
          LosesMore(lb, key);
        } else {
          UnlinkValid(lb, slot);
          WithoutHolds(lb.bins, slot, key);
        }
      }
    } else {
      var c := Cut(b, at);
      CutValid(lb, slot, at);
      CutReplaced(lb.bins, slot, at);
      r := lb.(bins := lb.bins[slot := c]);
      if at == |c.keys| && slot < |lb.seps| {
        LowerValid(r, slot, c.keys[|c.keys| - 1]);
        r := r.(seps := r.seps[slot := c.keys[|c.keys| - 1]]);
      }
    }
  }

  lemma OneBin(lb: LevelBin)
    requires Valid(lb) && lb.bins != []
    ensures |lb.bins| == |lb.seps| + 1
  {
  }

  lemma EmptyValid()
    ensures Valid(LevelBin([], []))
  {
  }

  // ----- update

  ghost predicate Sets(before: seq<Bin>, after: seq<Bin>, key: int, val: int) {
    forall k, v :: AnyHolds(after, k, v) <==> if k == key then v == val else AnyHolds(before, k, v)
  }

  lemma SetHolds(b: Bin, at: nat, val: int, k: int, v: int)
    requires at < |b.keys| == |b.vals| && Increasing(b.keys)
    ensures In(b.(vals := b.vals[at := val]), k, v) <==> if k == b.keys[at] then v == val else In(b, k, v)
  {
    var c := b.(vals := b.vals[at := val]);
    if k == b.keys[at] && v == val { assert c.keys[at] == k && c.vals[at] == v; }
    if In(b, k, v) && k != b.keys[at] {
      var j :| 0 <= j < |b.keys| && j < |b.vals| && b.keys[j] == k && b.vals[j] == v;
      assert c.keys[j] == k && c.vals[j] == v;
    }
    if In(c, k, v) {
      var j :| 0 <= j < |c.keys| && j < |c.vals| && c.keys[j] == k && c.vals[j] == v;
      if j != at { assert b.keys[j] == k && b.vals[j] == v && b.keys[j] != b.keys[at]; }
    }
  }

  method Update(lb: LevelBin, key: int, val: int) returns (r: LevelBin, out: Outcome)
    requires Valid(lb)
    ensures Valid(r)
    ensures out.Failed? <==> NotHeld(lb, key)
    ensures out.Failed? ==> r == lb
    ensures out.Failed? || out.Ok?
    ensures out.Ok? ==> Sets(lb.bins, r.bins, key, val)
  {
    if |lb.bins| == 0 { return lb, Failed; }
    var slot := FindLower(lb.seps, key);
    var b := lb.bins[slot];
    assert BinOk(b) && BinFits(lb.seps, slot, b);
    var at := FindLower(b.keys, key);
    HeldIff(lb, key, slot, at);
    if at >= |b.keys| || b.keys[at] != key { return lb, Failed; }
    out := Ok;
    var c := b.(vals := b.vals[at := val]);
    r := lb.(bins := lb.bins[slot := c]);
    ReplaceBin(lb, slot, c);
    forall i, v | 0 <= i < |lb.bins| && In(lb.bins[i], key, v) ensures i == slot { OnlyThere(lb, key, slot, i, v); }
    hide Valid, NotHeld, IsRank, In;
    SetReplaced(lb.bins, slot, at, val);
  }

  lemma SetReplaced(bins: seq<Bin>, slot: nat, at: nat, val: int)
    requires slot < |bins| && at < |bins[slot].keys| == |bins[slot].vals| && Increasing(bins[slot].keys)
    requires forall i, v :: 0 <= i < |bins| && In(bins[i], bins[slot].keys[at], v) ==> i == slot
    ensures Sets(bins, bins[slot := bins[slot].(vals := bins[slot].vals[at := val])], bins[slot].keys[at], val)
  {
    var b := bins[slot];
    var key, c := b.keys[at], b.(vals := b.vals[at := val]);
    var after := bins[slot := c];
    hide In;
    forall k, v ensures AnyHolds(after, k, v) <==> if k == key then v == val else AnyHolds(bins, k, v) {
      SetHolds(b, at, val, k, v);
      if AnyHolds(after, k, v) {
        var i :| 0 <= i < |after| && In(after[i], k, v);
        if i != slot { assert In(bins[i], k, v); } else if k != key { assert In(bins[slot], k, v); }
      }
      if k == key && v == val { assert In(after[slot], k, v); }
      if AnyHolds(bins, k, v) && k != key {
        var i :| 0 <= i < |bins| && In(bins[i], k, v);
        assert In(after[i], k, v);
      }
    }
  }

  // ----- flattening

  lemma AppendIncreasing(a: seq<int>, b: seq<int>, seps: seq<int>, i: nat)
    requires Increasing(a) && Increasing(b) && 1 <= i <= |seps|
    requires (forall x :: 0 <= x < |a| ==> a[x] <= seps[i - 1]) && forall x :: 0 <= x < |b| ==> seps[i - 1] < b[x]
    ensures Increasing(a + b)
  {
  }

  lemma ConcatHolds(a: Bin, b: Bin, k: int, v: int)
    requires |a.keys| == |a.vals| && |b.keys| == |b.vals|
    ensures In(Bin(a.keys + b.keys, a.vals + b.vals), k, v) <==> In(a, k, v) || In(b, k, v)
  {
    var c := Bin(a.keys + b.keys, a.vals + b.vals);
    HalvesHold(c, |a.keys|, k, v);
    assert Take(c, |a.keys|) == a && Drop(c, |a.keys|) == b;
  }

  /** `resort`: all pairs of all bins, in order, nothing lost, added or twice. */
  method Resort(lb: LevelBin) returns (keys: seq<int>, vals: seq<int>)
    requires Valid(lb) && lb.bins != []
    ensures |keys| == |vals| && Increasing(keys) && |keys| >= |lb.bins|
    ensures forall k, v :: In(Bin(keys, vals), k, v) <==> Holds(lb, k, v)
  {
    keys, vals := [], [];
    var slot := 0;
    while slot < |lb.bins|
      invariant slot <= |lb.bins| && |keys| == |vals| >= slot && Increasing(keys)
      invariant slot >= 1 && slot < |lb.bins| ==> forall x :: 0 <= x < |keys| ==> keys[x] <= lb.seps[slot - 1]
      invariant slot == 0 ==> keys == []
      invariant forall k, v :: In(Bin(keys, vals), k, v) <==> AnyHolds(lb.bins[..slot], k, v)
    {
      var c := lb.bins[slot];
      assert BinOk(c) && BinFits(lb.seps, slot, c);
      BinBetween(lb.seps, slot, c);
      if slot >= 1 {
        AppendIncreasing(keys, c.keys, lb.seps, slot);
      } else {
        assert keys + c.keys == c.keys;
      }
      BelowNext(lb, slot, keys, c);
      forall k, v ensures In(Bin(keys + c.keys, vals + c.vals), k, v) <==> AnyHolds(lb.bins[..slot + 1], k, v) {
        ConcatHolds(Bin(keys, vals), c, k, v);
        HoldsConcat(lb.bins[..slot], [c], k, v);
        HoldsOne(c, k, v);
        assert lb.bins[..slot + 1] == lb.bins[..slot] + [c];
        hide In, AnyHolds;
      }
      hide Valid, In, AnyHolds, BinFits, Increasing;
      keys, vals := keys + c.keys, vals + c.vals;
      slot := slot + 1;
    }
    assert lb.bins[..slot] == lb.bins;
  }

  lemma BinBetween(seps: seq<int>, i: nat, b: Bin)
    requires i <= |seps| && BinFits(seps, i, b)
    ensures i >= 1 ==> forall x :: 0 <= x < |b.keys| ==> seps[i - 1] < b.keys[x]
    ensures i < |seps| ==> forall x :: 0 <= x < |b.keys| ==> b.keys[x] <= seps[i]
  {
    forall x | 0 <= x < |b.keys| ensures Fits(seps, i, b.keys[x]) {}
  }

  lemma BelowNext(lb: LevelBin, slot: nat, keys: seq<int>, c: Bin)
    requires Valid(lb) && slot < |lb.bins| && c == lb.bins[slot] && (slot == 0 ==> keys == [])
    requires slot >= 1 ==> forall x :: 0 <= x < |keys| ==> keys[x] <= lb.seps[slot - 1]
    ensures slot + 1 < |lb.bins| ==> forall x :: 0 <= x < |keys + c.keys| ==> (keys + c.keys)[x] <= lb.seps[slot]
  {
    assert BinFits(lb.seps, slot, c);
    BinBetween(lb.seps, slot, c);
    if slot + 1 < |lb.bins| && slot >= 1 { assert lb.seps[slot - 1] < lb.seps[slot]; }
  }
}
