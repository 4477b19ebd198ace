/** Calls that bring a two-level bin, empty at first, to where the removal of one key loses others. */
module LevelBinLoss {
  import opened Learned
  import opened LevelBin
  import opened LevelBinOps
  import opened LevelBinRemove

  /** The keys from `first` on, each with itself as its value. */
  function Keys(first: int, n: nat): seq<int> { seq(n, i => first + i) }

  function Ascending(first: int, n: nat): Bin { Bin(Keys(first, n), Keys(first, n)) }

  /** After the keys from 1 to `n`; the half of a full bin is `m`. */
  function Stage(m: nat, n: nat): LevelBin {
    if n == 0 then LevelBin([], [])
    else if n <= 2 * m then LevelBin([], [Ascending(1, n)])
    else if n <= 3 * m then LevelBin([m], [Ascending(1, m), Ascending(m + 1, n - m)])
    else LevelBin([m, 2 * m], [Ascending(1, m), Ascending(m + 1, m), Ascending(2 * m + 1, n - 2 * m)])
  }

  lemma AscendingOk(seps: seq<int>, i: nat, first: int, n: nat)
    requires 1 <= n <= CHILD_SLOT_MAX && i <= |seps|
    requires (i > 0 ==> seps[i - 1] < first) && (i < |seps| ==> first + n - 1 <= seps[i])
    ensures BinOk(Ascending(first, n)) && BinFits(seps, i, Ascending(first, n))
  {
  }

  lemma StageValid(m: nat, n: nat)
    requires m == CHILD_SLOT_MAX / 2 && n <= 3 * m + 1
    ensures Valid(Stage(m, n))
  {
    var s := Stage(m, n);
    if 0 < n <= 2 * m { AscendingOk(s.seps, 0, 1, n); }
    if 2 * m < n {
      AscendingOk(s.seps, 0, 1, m);
      if n <= 3 * m {
        AscendingOk(s.seps, 1, m + 1, n - m);
      } else {
        AscendingOk(s.seps, 1, m + 1, m);
        AscendingOk(s.seps, 2, 2 * m + 1, n - 2 * m);
      }
    }
    hide BinOk, BinFits, Ascending;
  }

  /** The next key goes to the end of the last bin. */
  lemma NextAtEnd(m: nat, n: nat)
    requires m == CHILD_SLOT_MAX / 2 && 0 < n <= 3 * m && Valid(Stage(m, n))
    ensures var s := Stage(m, n); var slot := |s.seps|; var b := s.bins[slot];
            Rank(s.seps, n + 1) == slot && BinOk(b) && Rank(b.keys, n + 1) == |b.keys| && NotHeld(s, n + 1)
  {
    var s := Stage(m, n);
    var slot := |s.seps|;
    var b := s.bins[slot];
    RankIs(s.seps, n + 1, slot);
    assert BinOk(b);
    RankIs(b.keys, n + 1, |b.keys|);
    HeldIff(s, n + 1, slot, |b.keys|);
  }

  lemma AscendingPut(first: int, n: nat)
    ensures BinPut(Ascending(first, n), n, first + n, first + n) == Ascending(first, n + 1)
  {
    assert Put(Keys(first, n), n, first + n) == Keys(first, n + 1);
  }

  lemma AscendingSplit(first: int, m: nat)
    ensures Take(Ascending(first, 2 * m), m) == Ascending(first, m) && Drop(Ascending(first, 2 * m), m) == Ascending(first + m, m)
  {
    assert Keys(first, 2 * m)[..m] == Keys(first, m) && Keys(first, 2 * m)[m..] == Keys(first + m, m);
  }

  /** Where the next key is put. */
  lemma PutNext(m: nat, n: nat)
    requires m == CHILD_SLOT_MAX / 2 && 0 < n <= 3 * m
    ensures var s := Stage(m, n); var slot := |s.seps|;
            && slot < |s.bins| == |s.seps| + 1 && |s.bins[slot].keys| == |s.bins[slot].vals| <= CHILD_SLOT_MAX
            && PutAt(s, slot, |s.bins[slot].keys|, n + 1, n + 1) == Stage(m, n + 1)
  {
    var s := Stage(m, n);
    var slot := |s.seps|;
    var first := if slot == 0 then 1 else m + 1;
    var size := n + 1 - first;
    assert s.bins[slot] == Ascending(first, size);
    assert |s.bins[slot].keys| == size;
    AscendingPut(first, size);
    if size == 2 * m {
      AscendingSplit(first, m);
      AscendingPut(first + m, m);
      var sp := SplitOf(s.bins[slot], n + 1, n + 1, size);
      assert sp == Two(Ascending(first, m), first + m - 1, Ascending(first + m, m + 1));
      hide SplitOf, Ascending;
    } else {
      hide Ascending, BinPut;
    }
  }

  lemma NextPlaced(m: nat, n: nat)
    requires m == CHILD_SLOT_MAX / 2 && 0 < n <= 3 * m && Valid(Stage(m, n))
    ensures !MovesBefore(Stage(m, n), n + 1) && Placed(Stage(m, n), n + 1, n + 1) == Stage(m, n + 1)
  {
    NextAtEnd(m, n);
    PutNext(m, n);
    hide Valid, PutAt, Rank;
  }

  /** After the keys from `m + 1` up to, but without, `k` are gone. */
  function Thinned(m: nat, k: nat): LevelBin
    requires m < k <= 2 * m
  {
    Stage(m, 3 * m + 1).(bins := [Ascending(1, m), Ascending(k, 2 * m + 1 - k), Ascending(2 * m + 1, m + 1)])
  }

  lemma ThinnedStep(m: nat, k: nat)
    requires m == CHILD_SLOT_MAX / 2 && m < k < 2 * m && Valid(Thinned(m, k))
    ensures CutsInside(Thinned(m, k), k) && CutOut(Thinned(m, k), k) == Thinned(m, k + 1)
  {
    var s := Thinned(m, k);
    assert BinOk(s.bins[1]);
    RankIs(s.seps, k, 1);
    RankIs(s.bins[1].keys, k, 0);
    assert Cut(s.bins[1], 0) == Ascending(k + 1, 2 * m - k);
  }

  lemma KeptInside(lb: LevelBin, key: int)
    requires Valid(lb) && CutsInside(lb, key)
    ensures !LosesBin(lb, key)
  {
    hide Valid;
  }

  lemma HeldInside(lb: LevelBin, key: int)
    requires Valid(lb) && CutsInside(lb, key)
    ensures !NotHeld(lb, key)
  {
    var slot := Rank(lb.seps, key);
    assert BinOk(lb.bins[slot]);
    HeldIff(lb, key, slot, Rank(lb.bins[slot].keys, key));
    hide Valid, NotHeld;
  }

  method InsertAscending(m: nat) returns (lb: LevelBin)
    requires m == CHILD_SLOT_MAX / 2
    ensures lb == Stage(m, 3 * m + 1)
  {
    hide Valid, Stage, Placed, MovesBefore, NotHeld, Adds;
    lb := LevelBin([], []);
    assert lb == Stage(m, 0) && Stage(m, 1) == LevelBin([], [Bin([1], [1])]) by { FirstStages(m); }
    for n := 0 to 3 * m + 1
      invariant lb == Stage(m, n)
    {
      StageValid(m, n);
      StageRoot(m, n);
      if n > 0 {
        NextAtEnd(m, n);
        NextPlaced(m, n);
      }
      var out;
      lb, out := Insert(lb, n + 1, n + 1);
    }
  }

  lemma FirstStages(m: nat)
    requires m >= 1
    ensures Stage(m, 0) == LevelBin([], []) && Stage(m, 1) == LevelBin([], [Bin([1], [1])])
  {
    assert Keys(1, 1) == [1];
  }

  lemma StageRoot(m: nat, n: nat)
    ensures |Stage(m, n).seps| <= 2 && (Stage(m, n).bins == [] <==> n == 0)
  {
  }

  /** Insertions of 1 to 25 and removals of 9 to 15: the removal of 16 then loses 17 to 25. */
  method ReachLoss() returns (lb: LevelBin, key: int)
    ensures Valid(lb) && LosesBin(lb, key) && Drops(lb.bins, Unlink(lb, |lb.seps| - 1).bins, key)
  {
    var m, out := CHILD_SLOT_MAX / 2, Outcome.Ok;
    lb := InsertAscending(m);
    StageValid(m, 3 * m + 1);
    hide Valid, Stage, Removes, Drops, NotHeld, LosesBin, CutsInside, CutOut, Thinned;
    assert lb == Thinned(m, m + 1) by { NotThinned(m); }
    for k := m + 1 to 2 * m
      invariant lb == Thinned(m, k) && Valid(lb)
    {
      ThinnedStep(m, k);
      KeptInside(lb, k);
      HeldInside(lb, k);
      lb, out := Remove(lb, k);
    }
    key := 2 * m;
    ThinnedLoses(m);
    LosesMore(lb, key);
  }

  lemma NotThinned(m: nat)
    requires m == CHILD_SLOT_MAX / 2
    ensures Stage(m, 3 * m + 1) == Thinned(m, m + 1)
  {
  }

  lemma ThinnedLoses(m: nat)
    requires m == CHILD_SLOT_MAX / 2 && Valid(Thinned(m, 2 * m))
    ensures LosesBin(Thinned(m, 2 * m), 2 * m) && |Thinned(m, 2 * m).seps| == 2 && |Thinned(m, 2 * m).bins| == 3
  {
    var lb := Thinned(m, 2 * m);
    RankIs(lb.seps, 2 * m, 1);
    assert lb.bins[1].keys == [2 * m];
    hide Valid;
  }
}
