/** That retired objects do get freed: a thread's own operations move the epoch, empty its bags and drain its free list. */
module DebraProgress {
  import opened BlockBag
  import opened Debra
  import opened DebraSafety

  // ----- what a rotation does

  /**
   A rotation leaves less than one block in the bag that becomes the current one; everything else of it is put on the free
   list, below what was there; the other two bags stay.
   */
  lemma RotationFrees(s: State, t: nat)
    requires Inv(s) && Enabled(s, t, Rotate) && s.threads[t].local != s.threads[t].pc.ann
    ensures var x, x' := s.threads[t], Step(s, t, Rotate).threads[t];
            && |x'.bags| == |x.bags| && x'.index < |x.bags| && x'.index != x.index
            && |x'.bags[x'.index]| < BLOCK_SIZE
            && (exists freed :: freed + x'.bags[x'.index] == x.bags[x'.index] && x'.freelist == freed + x.freelist)
            && forall j :: 0 <= j < |x.bags| && j != x'.index ==> x'.bags[j] == x.bags[j]
  {
    var x, x' := s.threads[t], Step(s, t, Rotate).threads[t];
    var b := x.bags[x'.index];
    assert x'.index == (x.index + 1) % 3;
    FullSplits(b);
    hide Full, Partial, Inv;
    assert Full(b) + x'.bags[x'.index] == b && x'.freelist == Full(b) + x.freelist;
  }

  lemma FullSplits(b: seq<Obj>)
    ensures Full(b) + Partial(b) == b && |Partial(b)| < BLOCK_SIZE
  {
    var n := |b| / BLOCK_SIZE * BLOCK_SIZE;
    assert 0 <= |b| - n < BLOCK_SIZE;
    CutInTwo(b, n);
  }

  lemma CutInTwo(b: seq<Obj>, n: nat)
    requires n <= |b|
    ensures b[..n] + b[n..] == b && |b[n..]| == |b| - n
  {
  }

  // ----- operations go on

  /** What a thread does next, but for retiring objects. */
  function Onward(x: Thread): Action {
    match x.pc
    case Idle => ReadEpoch
    case HasRead(_) => Rotate
    case Rotated => FreeOne
    case ToAnnounce => Announce
    case ToScan => Scan
    case ToAdvance => Advance
    case Running => EndOp
  }

  function StepsLeft(x: Thread): nat {
    match x.pc
    case Idle => 0
    case HasRead(_) => 6
    case Rotated => 5
    case ToAnnounce => 4
    case ToScan => 3
    case ToAdvance => 2
    case Running => 1
  }

  /** No thread ever has to wait for another: each step brings its operation nearer to its end, and a new one can begin. */
  lemma OperationsGoOn(s: State, t: nat)
    requires Inv(s) && t < |s.threads|
    ensures var x := s.threads[t];
            && Enabled(s, t, Onward(x))
            && var x' := Step(s, t, Onward(x)).threads[t];
               if x.pc.Idle? then StepsLeft(x') == 6 else StepsLeft(x') < StepsLeft(x) && (x.pc.ToAnnounce? ==> x'.opId == x.opId + 1)
  {
    assert ThreadOk(s.threads[t], s.epoch, |s.threads|);
    hide Inv, RotateBags, Under;
  }

  // ----- the epoch moves

  /** Every other thread is outside operations or has announced the present epoch. */
  predicate OthersUp(s: State, t: nat) {
    forall u :: 0 <= u < |s.threads| && u != t ==> Quiescent(s.threads[u].announced) || EpochBits(s.threads[u].announced) == s.epoch
  }

  /** How many operations of the thread have got past their scan step. */
  function Scans(x: Thread): int { if x.pc.ToScan? then x.opId - 1 else x.opId }

  predicate CounterOk(x: Thread) {
    x.opsSinceRead < MIN_OPS_BEFORE_READ && (x.pc.ToAdvance? ==> x.opsSinceRead == 0)
  }

  lemma StepCounter(s: State, u: nat, a: Action, t: nat)
    requires Enabled(s, u, a) && t < |s.threads| && CounterOk(s.threads[t])
    ensures CounterOk(Step(s, u, a).threads[t])
  {
  }

  predicate BeforeScan(x: Thread) { x.pc.HasRead? || x.pc.Rotated? || x.pc.ToAnnounce? || x.pc.ToScan? }

  /** The thread has read a new epoch and is about to rotate its bags. */
  predicate Rotating(x: Thread) { x.pc.HasRead? && x.pc.ann != x.local }

  /** The scans that are left until the thread has seen all others. */
  function Unseen(x: Thread, n: nat): int { MIN_OPS_BEFORE_READ * (n - x.checked) - x.opsSinceRead }

  function Bound(n: nat): nat { MIN_OPS_BEFORE_READ * n + 1 }

  /** A bound on the scans until the next rotation. */
  function UntilRotation(s: State, x: Thread): int {
    if Rotating(x) then 0
    else if x.local != s.epoch then (if BeforeScan(x) then 1 else 0)
    else Unseen(x, |s.threads|) + 1
  }

  /** A bound on the scans until the epoch moves. */
  function UntilEpoch(s: State, x: Thread): int {
    if x.local != s.epoch then Bound(|s.threads|) + (if BeforeScan(x) then 1 else 0)
    else if Rotating(x) then Bound(|s.threads|)
    else Unseen(x, |s.threads|) + 1
  }

  lemma WaitBounds(s: State, t: nat)
    requires Inv(s) && t < |s.threads| && CounterOk(s.threads[t])
    ensures 0 <= UntilRotation(s, s.threads[t]) <= Bound(|s.threads|)
    ensures 0 <= UntilEpoch(s, s.threads[t]) <= Bound(|s.threads|) + 1
  {
    assert ThreadOk(s.threads[t], s.epoch, |s.threads|);
  }

  /** The announcement that the scan looks at is up to date, the thread's own included. */
  lemma SeesUp(s: State, t: nat)
    requires Inv(s) && Enabled(s, t, Scan) && OthersUp(s, t) && s.threads[t].local == s.epoch
    ensures var y := s.threads[s.threads[t].checked]; EpochBits(y.announced) == s.epoch || Quiescent(y.announced)
  {
    assert ThreadOk(s.threads[t], s.epoch, |s.threads|);
  }

  /** With all others up to date, each scan of the thread counts, and nothing else sets it back but a rotation. */
  lemma StepWait(s: State, u: nat, a: Action, t: nat)
    requires Inv(s) && Enabled(s, u, a) && t < |s.threads| && CounterOk(s.threads[t]) && OthersUp(s, t)
    ensures var s', x, x' := Step(s, u, a), s.threads[t], Step(s, u, a).threads[t];
            && (!(u == t && a.Rotate? && Rotating(x)) ==> UntilRotation(s', x') + Scans(x') <= UntilRotation(s, x) + Scans(x))
            && (s'.epoch == s.epoch ==> UntilEpoch(s', x') + Scans(x') <= UntilEpoch(s, x) + Scans(x))
  {
    assert ThreadOk(s.threads[t], s.epoch, |s.threads|) && ThreadOk(s.threads[u], s.epoch, |s.threads|);
    WaitBounds(s, t);
    if u == t && a.Scan? && s.threads[t].local == s.epoch { SeesUp(s, t); }
    hide Inv, RotateBags, Under;
  }

  // ----- the bags are emptied

  lemma FullGrows(b: seq<Obj>, o: Obj)
    ensures Full(b) <= Full(b + [o])
  {
    WholeBlocks(|b|);
    LongerPrefix(b, o, |b| / BLOCK_SIZE * BLOCK_SIZE, (|b| + 1) / BLOCK_SIZE * BLOCK_SIZE);
    assert |b + [o]| == |b| + 1;
  }

  lemma WholeBlocks(n: nat)
    ensures n / BLOCK_SIZE * BLOCK_SIZE <= n && n / BLOCK_SIZE * BLOCK_SIZE <= (n + 1) / BLOCK_SIZE * BLOCK_SIZE <= n + 1
  {
    var m, k := n / 40, (n + 1) / 40;
    assert m <= k;
  }

  lemma LongerPrefix(b: seq<Obj>, o: Obj, m: nat, n: nat)
    requires m <= |b| && m <= n <= |b| + 1
    ensures b[..m] <= (b + [o])[..n]
  {
    assert (b + [o])[..n][..m] == b[..m];
  }

  /** Rotations until bag `b` becomes the current one. */
  function Rounds(x: Thread, b: nat): nat
    requires x.index < 3 && b < 3
  {
    3 - Age(x.index, b)
  }

  /** A bound on the scans until the full blocks of bag `b` are on the free list. */
  function UntilFreed(s: State, x: Thread, b: nat): int
    requires x.index < 3 && b < 3
  {
    (Rounds(x, b) - 1) * Bound(|s.threads|) + UntilRotation(s, x)
  }

  predicate InFullBlock(x: Thread, b: nat, o: Obj) {
    x.index < 3 && b < 3 && b < |x.bags| && o in Full(x.bags[b])
  }

  /** An object in a full block stays where it is, or is put on the free list. */
  lemma StepBlock(s: State, u: nat, a: Action, t: nat, b: nat, o: Obj)
    requires Inv(s) && Enabled(s, u, a) && t < |s.threads| && InFullBlock(s.threads[t], b, o)
    ensures var x, x' := s.threads[t], Step(s, u, a).threads[t];
            if u == t && a.Rotate? && Rotating(x) && Rounds(x, b) == 1 then o in x'.freelist
            else InFullBlock(x', b, o) && Rounds(x', b) == (if u == t && a.Rotate? && Rotating(x) then Rounds(x, b) - 1 else Rounds(x, b))
  {
    var x := s.threads[t];
    assert ThreadOk(x, s.epoch, |s.threads|);
    if u == t && a.Retire? { FullGrows(x.bags[x.index], a.o); }
    hide Inv, Full, Partial, Under;
    if u == t && a.Rotate? && Rotating(x) {
      assert (x.index + 1) % 3 == if x.index == 2 then 0 else x.index + 1;
    }
  }

  lemma StepFreed(s: State, u: nat, a: Action, t: nat, b: nat, o: Obj)
    requires Inv(s) && Enabled(s, u, a) && t < |s.threads| && CounterOk(s.threads[t]) && OthersUp(s, t) && InFullBlock(s.threads[t], b, o)
    ensures var s', x, x' := Step(s, u, a), s.threads[t], Step(s, u, a).threads[t];
            || o in x'.freelist
            || (InFullBlock(x', b, o) && UntilFreed(s', x', b) + Scans(x') <= UntilFreed(s, x, b) + Scans(x))
  {
    var s', x := Step(s, u, a), s.threads[t];
    StepBlock(s, u, a, t, b, o);
    StepWait(s, u, a, t);
    StepCounter(s, u, a, t);
    StepInv(s, u, a);
    WaitBounds(s', t);
    assert |s'.threads| == |s.threads|;
    if u == t && a.Rotate? && Rotating(x) {
      assert Scans(s'.threads[t]) == Scans(x) && UntilRotation(s, x) == 0;
      OneRoundLess(Rounds(x, b), Bound(|s.threads|));
    }
    hide Inv, Step, UntilRotation, Scans, InFullBlock, Rounds, Enabled, Bound;
  }

  lemma OneRoundLess(r: nat, k: nat)
    ensures (r - 2) * k + k == (r - 1) * k
  {
  }

  // ----- the free list is drained

  /** How many objects are taken from the free list before `o`. */
  function Depth(q: seq<Obj>, o: Obj): nat
    requires o in q
  {
    if q[|q| - 1] == o then 0 else 1 + Depth(q[..|q| - 1], o)
  }

  lemma {:induction false} DepthBelow(q: seq<Obj>, o: Obj)
    requires o in q
    ensures Depth(q, o) < |q|
  {
    if q[|q| - 1] != o { DepthBelow(q[..|q| - 1], o); }
  }

  /** What is put below does not matter. */
  lemma {:induction false} DepthAbove(p: seq<Obj>, q: seq<Obj>, o: Obj)
    requires o in q
    ensures Depth(p + q, o) == Depth(q, o)
    decreases |q|
  {
    assert (p + q)[|p + q| - 1] == q[|q| - 1] && (p + q)[..|p + q| - 1] == p + q[..|q| - 1];
    if q[|q| - 1] != o { DepthAbove(p, q[..|q| - 1], o); }
  }

  /** How many operations of the thread have got past the step that frees one object. */
  function Frees(x: Thread): nat { if x.pc.ToAnnounce? then x.opId + 1 else x.opId }

  lemma StepDrained(s: State, u: nat, a: Action, t: nat, o: Obj)
    requires Enabled(s, u, a) && t < |s.threads| && o in s.threads[t].freelist
    ensures var s', x, x' := Step(s, u, a), s.threads[t], Step(s, u, a).threads[t];
            || o in s'.pool
            || (o in x'.freelist && Depth(x'.freelist, o) + Frees(x') <= Depth(x.freelist, o) + Frees(x))
  {
    var x := s.threads[t];
    if u == t && a.Rotate? && x.local != x.pc.ann {
      DepthAbove(Full(x.bags[(x.index + 1) % 3]), x.freelist, o);
    }
    hide Full, Partial, Under;
  }

  // ----- whole runs

  lemma {:induction false} RunCounter(run: seq<State>, i: nat, t: nat)
    requires Run(run) && i < |run| && t < |run[0].threads|
    ensures t < |run[i].threads| && CounterOk(run[i].threads[t])
  {
    if i > 0 {
      RunCounter(run, i - 1, t);
      assert Next(run[i - 1], run[i - 1 + 1]);
      var u, a :| Enabled(run[i - 1], u, a) && run[i] == Step(run[i - 1], u, a);
      StepCounter(run[i - 1], u, a, t);
    }
  }

  /** The others are up to date in all states from `i` to `j`. */
  ghost predicate UpBetween(run: seq<State>, i: nat, j: nat, t: nat) {
    forall m :: i <= m <= j && m < |run| ==> OthersUp(run[m], t)
  }

  lemma NextFacts(run: seq<State>, j: nat, t: nat) returns (u: nat, a: Action)
    requires Run(run) && 0 < j < |run| && t < |run[0].threads|
    ensures Inv(run[j - 1]) && Enabled(run[j - 1], u, a) && run[j] == Step(run[j - 1], u, a)
    ensures t < |run[j - 1].threads| == |run[0].threads| && CounterOk(run[j - 1].threads[t]) && |run[j].threads| == |run[0].threads|
    ensures run[j - 1].threads[t].opId <= run[j].threads[t].opId <= run[j - 1].threads[t].opId + 1
    ensures run[j - 1].epoch <= run[j].epoch
  {
    hide Inv, OnePlace, CounterOk, Enabled, Step;
    RunInv(run, j - 1);
    RunInv(run, j);
    RunCounter(run, j - 1, t);
    assert Next(run[j - 1], run[j - 1 + 1]);
    u, a :| Enabled(run[j - 1], u, a) && run[j] == Step(run[j - 1], u, a);
    hide Run, Next;
    StepFacts(run[j - 1], u, a, t);
  }

  lemma StepFacts(s: State, u: nat, a: Action, t: nat)
    requires Enabled(s, u, a) && t < |s.threads|
    ensures var s' := Step(s, u, a);
            && s.epoch <= s'.epoch && |s'.threads| == |s.threads| && s.pool <= s'.pool
            && s.threads[t].opId <= s'.threads[t].opId <= s.threads[t].opId + 1
  {
  }

  lemma {:induction false} EpochKept(run: seq<State>, i: nat, j: nat, t: nat)
    requires Run(run) && i <= j < |run| && t < |run[0].threads| && UpBetween(run, i, j, t)
    ensures t < |run[i].threads| == |run[j].threads| && run[i].epoch <= run[j].epoch
    ensures run[i].epoch == run[j].epoch ==>
              UntilEpoch(run[j], run[j].threads[t]) + Scans(run[j].threads[t]) <= UntilEpoch(run[i], run[i].threads[t]) + Scans(run[i].threads[t])
  {
    hide Inv, Step, UntilEpoch, Scans, OthersUp, Enabled, CounterOk, Next, Initial;
    RunInv(run, i);
    if i < j {
      assert UpBetween(run, i, j - 1, t) && OthersUp(run[j - 1], t);
      EpochKept(run, i, j - 1, t);
      var u, a := NextFacts(run, j, t);
      hide Run, UpBetween, UntilRotation, Rotating;
      StepWait(run[j - 1], u, a, t);
    }
  }

  /**
   While every other thread is quiescent or announces the present epoch, more than 10n + 3 operations of any one thread move
   the epoch, however the steps of all threads interleave.
   */
  lemma EpochMoves(run: seq<State>, i: nat, j: nat, t: nat)
    requires Run(run) && i <= j < |run| && t < |run[0].threads| && UpBetween(run, i, j, t)
    ensures t < |run[i].threads| == |run[j].threads|
    ensures run[j].threads[t].opId > run[i].threads[t].opId + MIN_OPS_BEFORE_READ * |run[0].threads| + 3 ==> run[j].epoch > run[i].epoch
  {
    EpochKept(run, i, j, t);
    RunInv(run, i);
    RunInv(run, j);
    RunCounter(run, i, t);
    RunCounter(run, j, t);
    WaitBounds(run[i], t);
    WaitBounds(run[j], t);
    hide Inv, Run, UntilEpoch, OthersUp, UpBetween;
  }

  lemma {:induction false} BlockKept(run: seq<State>, i: nat, j: nat, t: nat, b: nat, o: Obj)
    requires Run(run) && i <= j < |run| && t < |run[0].threads| && UpBetween(run, i, j, t)
    requires t < |run[i].threads| && InFullBlock(run[i].threads[t], b, o)
    ensures t < |run[j].threads|
    ensures || o in run[j].pool || o in run[j].threads[t].freelist
            || (InFullBlock(run[j].threads[t], b, o)
                && UntilFreed(run[j], run[j].threads[t], b) + Scans(run[j].threads[t]) <= UntilFreed(run[i], run[i].threads[t], b) + Scans(run[i].threads[t]))
  {
    hide Inv, Step, Enabled, UntilFreed, Scans, OthersUp, CounterOk, Next, Initial, InFullBlock;
    if i < j {
      assert UpBetween(run, i, j - 1, t) && OthersUp(run[j - 1], t);
      BlockKept(run, i, j - 1, t, b, o);
      var u, a := NextFacts(run, j, t);
      var s := run[j - 1];
      hide Run, UpBetween;
      StepFacts(s, u, a, t);
      if o in s.threads[t].freelist {
        hide Depth;
        StepDrained(s, u, a, t, o);
      } else if o !in s.pool {
        StepFreed(s, u, a, t, b, o);
      }
    }
  }

  lemma FreedBounds(s: State, t: nat, b: nat, o: Obj)
    requires Inv(s) && t < |s.threads| && CounterOk(s.threads[t]) && InFullBlock(s.threads[t], b, o)
    ensures 0 <= UntilFreed(s, s.threads[t], b) <= 3 * Bound(|s.threads|)
  {
    WaitBounds(s, t);
    var r, k := Rounds(s.threads[t], b), Bound(|s.threads|);
    hide UntilRotation, Inv, Rounds, Bound, InFullBlock;
    assert 1 <= r <= 3 by { RoundsRange(s.threads[t], b); }
    assert (r - 1) * k <= 2 * k;
  }

  lemma RoundsRange(x: Thread, b: nat)
    requires x.index < 3 && b < 3
    ensures 1 <= Rounds(x, b) <= 3
  {
  }

  /** Under the same condition, an object in a full block is on the free list, or free, after 30n + 5 operations of its thread. */
  lemma BlocksAreFreed(run: seq<State>, i: nat, j: nat, t: nat, b: nat, o: Obj)
    requires Run(run) && i <= j < |run| && t < |run[0].threads| && UpBetween(run, i, j, t)
    requires t < |run[i].threads| && InFullBlock(run[i].threads[t], b, o)
    ensures t < |run[j].threads|
    ensures run[j].threads[t].opId >= run[i].threads[t].opId + 3 * MIN_OPS_BEFORE_READ * |run[0].threads| + 5 ==>
              o in run[j].pool || o in run[j].threads[t].freelist
  {
    BlockKept(run, i, j, t, b, o);
    RunInv(run, i);
    RunInv(run, j);
    RunCounter(run, i, t);
    RunCounter(run, j, t);
    hide Inv, Run, UntilFreed, OthersUp, UpBetween, CounterOk;
    FreedBounds(run[i], t, b, o);
    if InFullBlock(run[j].threads[t], b, o) { FreedBounds(run[j], t, b, o); }
    hide InFullBlock;
  }

  lemma {:induction false} ListKept(run: seq<State>, i: nat, j: nat, t: nat, o: Obj)
    requires Run(run) && i <= j < |run| && t < |run[0].threads|
    requires t < |run[i].threads| && o in run[i].threads[t].freelist
    ensures t < |run[j].threads|
    ensures || o in run[j].pool
            || (o in run[j].threads[t].freelist
                && Depth(run[j].threads[t].freelist, o) + Frees(run[j].threads[t]) <= Depth(run[i].threads[t].freelist, o) + Frees(run[i].threads[t]))
  {
    hide Inv, Step, Enabled, CounterOk, Next, Initial, Frees, Depth;
    if i < j {
      ListKept(run, i, j - 1, t, o);
      var u, a := NextFacts(run, j, t);
      var s := run[j - 1];
      hide Run;
      StepFacts(s, u, a, t);
      if o !in s.pool {
        StepDrained(s, u, a, t, o);
      }
    }
  }

  /** An object on the free list is in the pool after as many operations of its thread as the list has objects, and one more. */
  lemma ListIsDrained(run: seq<State>, i: nat, j: nat, t: nat, o: Obj)
    requires Run(run) && i <= j < |run| && t < |run[0].threads|
    requires t < |run[i].threads| && o in run[i].threads[t].freelist
    ensures t < |run[j].threads|
    ensures run[j].threads[t].opId > run[i].threads[t].opId + |run[i].threads[t].freelist| ==> o in run[j].pool
  {
    ListKept(run, i, j, t, o);
    DepthBelow(run[i].threads[t].freelist, o);
    hide Run, Depth;
  }

  /** Some state in between has a given number of operations. */
  lemma {:induction false} AtOperation(run: seq<State>, i: nat, j: nat, t: nat, n: nat) returns (k: nat)
    requires Run(run) && i <= j < |run| && t < |run[0].threads| && t < |run[i].threads| && t < |run[j].threads|
    requires run[i].threads[t].opId <= n <= run[j].threads[t].opId
    ensures i <= k <= j && t < |run[k].threads| && run[k].threads[t].opId == n
  {
    k := j;
    if run[j].threads[t].opId > n {
      var u, a := NextFacts(run, j, t);
      hide Inv, Step, Enabled, CounterOk;
      k := AtOperation(run, i, j - 1, t, n);
    }
  }

  lemma PoolGrows(run: seq<State>, i: nat, j: nat, o: Obj)
    requires Run(run) && i <= j < |run| && o in run[i].pool
    ensures o in run[j].pool
  {
    if i < j {
      PoolGrows(run, i, j - 1, o);
      assert Next(run[j - 1], run[j - 1 + 1]);
    }
  }

  /**
   Hence an object in a full block is in the pool after a bounded number of operations of its thread: 30n + 6, and as many as
   the free list ever holds meanwhile.
   */
  lemma ObjectsAreFreed(run: seq<State>, i: nat, j: nat, t: nat, b: nat, o: Obj, longest: nat)
    requires Run(run) && i <= j < |run| && t < |run[0].threads| && UpBetween(run, i, j, t)
    requires t < |run[i].threads| && InFullBlock(run[i].threads[t], b, o) && t < |run[j].threads|
    requires forall m :: i <= m <= j && t < |run[m].threads| ==> |run[m].threads[t].freelist| <= longest
    requires run[j].threads[t].opId >= run[i].threads[t].opId + 3 * MIN_OPS_BEFORE_READ * |run[0].threads| + 6 + longest
    ensures o in run[j].pool
  {
    var k := AtOperation(run, i, j, t, run[i].threads[t].opId + 3 * MIN_OPS_BEFORE_READ * |run[0].threads| + 5);
    assert UpBetween(run, i, k, t);
    hide Run, UpBetween;
    BlocksAreFreed(run, i, k, t, b, o);
    if o in run[k].pool { PoolGrows(run, k, j, o); } else { ListIsDrained(run, k, j, t, o); }
  }
}
