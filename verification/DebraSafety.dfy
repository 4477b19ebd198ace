/** Why an object is freed only when every operation that was under way at its retirement is over. */
module DebraSafety {
  import opened BlockBag
  import opened Debra

  /** The epoch that the bags and `checked` belong to: the one read before, until the bags have been rotated. */
  function Base(x: Thread): int { if x.pc.HasRead? then x.pc.ann else x.local }

  /** The value no announcement has: a thread that never started an operation. */
  predicate Blank(x: Thread) { x.checked == 0 && x.bags == [[], [], []] }

  predicate EpochRead(e: int, epoch: int) { 0 <= e <= epoch && e % 2 == 0 }

  predicate ThreadOk(x: Thread, epoch: int, n: nat) {
    && |x.bags| == NUMBER_OF_EPOCH_BAGS && x.index < |x.bags|
    && (EpochRead(x.local, epoch) || (x.local == 1 && x.pc.Idle? && Blank(x)))
    && (x.pc.HasRead? ==> (EpochRead(x.pc.ann, x.local) || (x.pc.ann == 1 && Blank(x))))
    && (if InOp(x) then x.announced == x.local <= x.entered <= epoch <= x.entered + EPOCH_INCREMENT
        else Quiescent(x.announced))
    && x.checked <= n
    && match x.pc
       case Idle => x.checked < n || x.local < epoch
       case HasRead(ann) => x.checked < n || ann < x.local
       case Rotated => x.checked < n
       case ToAnnounce => x.checked < n
       case ToScan => x.checked < n
       case ToAdvance => x.checked == n
       case Running => x.checked < n || x.local < epoch
  }

  /** Thread `j` was seen by `x` in its present epoch: if it is in an operation now, it announced it no earlier. */
  predicate CheckOk(x: Thread, j: nat, y: Thread) {
    j < x.checked && InOp(y) ==> Base(x) <= y.entered
  }

  /** How many rotations ago bag `j` was the current one. */
  function Age(index: nat, j: nat): nat
    requires index < 3 && j < 3
  {
    if j <= index then index - j else index + 3 - j
  }

  predicate BagOk(x: Thread, j: nat, at: int)
    requires x.index < 3 && j < 3
  {
    var a := Age(x.index, j);
    && (a >= 1 ==> at + 2 * (a - 1) <= Base(x))
    && (a == 0 && x.pc.HasRead? ==> at <= x.local)
  }

  predicate UnderOk(i: Info, u: nat, y: Thread) {
    u in i.under ==> i.under[u] <= y.opId && (InOp(y) && y.opId == i.under[u] ==> y.entered <= i.at)
  }

  /** The operation of thread `u` that was under way at the retirement is over. */
  predicate Over(i: Info, u: nat, y: Thread) {
    u in i.under ==> !(InOp(y) && y.opId == i.under[u])
  }

  predicate Safe(s: State, o: Obj) {
    o in s.info && forall u :: 0 <= u < |s.threads| ==> Over(s.info[o], u, s.threads[u])
  }

  ghost predicate Inv(s: State) {
    && |s.threads| > 0 && s.epoch >= 0 && s.epoch % 2 == 0
    && (forall t :: 0 <= t < |s.threads| ==> ThreadOk(s.threads[t], s.epoch, |s.threads|))
    && (forall t, j :: 0 <= t < |s.threads| && 0 <= j < |s.threads| ==> CheckOk(s.threads[t], j, s.threads[j]))
    && (forall o :: o in s.info ==> s.info[o].at <= s.epoch)
    && (forall o, u :: o in s.info && 0 <= u < |s.threads| ==> UnderOk(s.info[o], u, s.threads[u]))
    && (forall t :: 0 <= t < |s.threads| ==> BagsOk(s, s.threads[t]))
    && (forall t :: 0 <= t < |s.threads| ==> AllSafe(s, s.threads[t].freelist))
    && AllSafe(s, s.pool)
  }

  ghost predicate BagsOk(s: State, x: Thread) {
    && |x.bags| == 3 && x.index < 3
    && forall j, o :: 0 <= j < 3 && o in x.bags[j] ==> o in s.info && BagOk(x, j, s.info[o].at)
  }

  ghost predicate AllSafe(s: State, q: seq<Obj>) {
    forall o :: o in q ==> Safe(s, o)
  }

  lemma InitialInv(s: State)
    requires Initial(s)
    ensures Inv(s)
  {
  }

  // ----- one thread's own fields

  lemma LocalOk(s: State, t: nat, a: Action)
    requires Inv(s) && Enabled(s, t, a) && (a.Advance? ==> s.epoch != s.threads[t].local)
    ensures ThreadOk(Local(s, t, a), s.epoch, |s.threads|)
  {
    var x := s.threads[t];
    assert ThreadOk(x, s.epoch, |s.threads|);
  }

  /** When a thread advances the epoch, every operation under way was announced in the epoch that ends. */
  lemma AdvanceOk(s: State, t: nat, u: nat)
    requires Inv(s) && Enabled(s, t, Advance) && s.epoch == s.threads[t].local && u < |s.threads|
    ensures ThreadOk(Step(s, t, Advance).threads[u], s.epoch + EPOCH_INCREMENT, |s.threads|)
  {
    var x, y := s.threads[t], s.threads[u];
    assert ThreadOk(x, s.epoch, |s.threads|) && ThreadOk(y, s.epoch, |s.threads|);
    assert CheckOk(x, u, y);
  }

  lemma StepThreadOk(s: State, t: nat, a: Action, u: nat)
    requires Inv(s) && Enabled(s, t, a) && u < |s.threads|
    ensures var s' := Step(s, t, a); ThreadOk(s'.threads[u], s'.epoch, |s'.threads|)
  {
    if a.Advance? && s.epoch == s.threads[t].local {
      AdvanceOk(s, t, u);
    } else {
      LocalOk(s, t, a);
      assert ThreadOk(s.threads[u], s.epoch, |s.threads|);
    }
  }

  // ----- checked

  lemma StepCheckOk(s: State, t: nat, a: Action, u: nat, j: nat)
    requires Inv(s) && Enabled(s, t, a) && u < |s.threads| && j < |s.threads|
    ensures var s' := Step(s, t, a); CheckOk(s'.threads[u], j, s'.threads[j])
  {
    var x, y := s.threads[u], s.threads[j];
    assert CheckOk(x, j, y);
    assert ThreadOk(x, s.epoch, |s.threads|) && ThreadOk(y, s.epoch, |s.threads|);
    hide Inv;
  }

  // ----- bags

  /** Rotation makes every bag one rotation older, except for what stays behind in the new current bag. */
  lemma RotateBagOk(x: Thread, j: nat, at: int)
    requires |x.bags| == 3 && x.index < 3 && j < 3 && x.pc.HasRead? && x.pc.ann + 2 <= x.local && BagOk(x, j, at)
    ensures BagOk(RotateBags(x).(pc := Rotated, checked := 0), j, at)
  {
    var next := (x.index + 1) % 3;
    assert next == if x.index == 2 then 0 else x.index + 1;
    var y := RotateBags(x).(pc := Rotated, checked := 0);
    assert y.index == next && y.local == x.local;
    hide RotateBags;
    assert Age(next, j) == if j == next then 0 else Age(x.index, j) + 1;
  }

  lemma StepBagOk(s: State, t: nat, a: Action, u: nat, j: nat, o: Obj)
    requires Inv(s) && Enabled(s, t, a) && u < |s.threads| && j < 3
    requires var x' := Step(s, t, a).threads[u]; |x'.bags| == 3 && x'.index < 3 && o in x'.bags[j]
    ensures var s' := Step(s, t, a); o in s'.info && BagOk(s'.threads[u], j, s'.info[o].at)
  {
    var x := s.threads[u];
    assert ThreadOk(x, s.epoch, |s.threads|) && BagsOk(s, x);
    if !(a.Retire? && a.o == o) {
      assert o in x.bags[j];
      assert o in s.info && s.info[o].at <= s.epoch && BagOk(x, j, s.info[o].at);
      hide Inv, BagsOk;
      if u == t && a.Rotate? && x.local != x.pc.ann {
        RotateBagOk(x, j, s.info[o].at);
      }
    }
    hide Inv, BagsOk, RotateBags;
  }

  // ----- operations under way

  lemma StepUnderOk(s: State, t: nat, a: Action, o: Obj, u: nat)
    requires Inv(s) && Enabled(s, t, a) && u < |s.threads| && o in Step(s, t, a).info
    ensures var s' := Step(s, t, a); UnderOk(s'.info[o], u, s'.threads[u])
  {
    var y := s.threads[u];
    assert ThreadOk(y, s.epoch, |s.threads|);
    if o in s.info { assert UnderOk(s.info[o], u, y); }
    hide Inv;
  }

  /** An operation that is over stays over. */
  lemma SafeStaysSafe(s: State, t: nat, a: Action, o: Obj)
    requires Inv(s) && Enabled(s, t, a) && Safe(s, o)
    ensures Safe(Step(s, t, a), o)
  {
    var s' := Step(s, t, a);
    forall u | 0 <= u < |s.threads| ensures Over(s'.info[o], u, s'.threads[u]) {
      assert Over(s.info[o], u, s.threads[u]) && UnderOk(s.info[o], u, s.threads[u]);
    }
  }

  /** What the third rotation after a retirement finds in the oldest bag is safe. */
  lemma OldestBagIsSafe(s: State, t: nat, o: Obj)
    requires Inv(s) && Enabled(s, t, Rotate) && s.threads[t].local != s.threads[t].pc.ann
    requires o in s.threads[t].bags[(s.threads[t].index + 1) % 3]
    ensures Safe(s, o)
  {
    var x := s.threads[t];
    var next := (x.index + 1) % 3;
    assert ThreadOk(x, s.epoch, |s.threads|) && BagsOk(s, x);
    assert BagOk(x, next, s.info[o].at);
    assert Age(x.index, next) == 2;
    assert x.local >= x.pc.ann + 2;
    assert s.info[o].at + 4 <= s.epoch;
    forall u | 0 <= u < |s.threads| ensures Over(s.info[o], u, s.threads[u]) {
      assert UnderOk(s.info[o], u, s.threads[u]) && ThreadOk(s.threads[u], s.epoch, |s.threads|);
    }
  }

  lemma StepFreelistSafe(s: State, t: nat, a: Action, u: nat, o: Obj)
    requires Inv(s) && Enabled(s, t, a) && u < |s.threads| && o in Step(s, t, a).threads[u].freelist
    ensures Safe(Step(s, t, a), o)
  {
    var x := s.threads[u];
    if o in x.freelist {
      assert AllSafe(s, x.freelist);
    } else {
      assert u == t && a.Rotate?;
      assert o in x.bags[(x.index + 1) % 3];
      OldestBagIsSafe(s, t, o);
    }
    hide Inv;
    SafeStaysSafe(s, t, a, o);
  }

  lemma StepPoolSafe(s: State, t: nat, a: Action, o: Obj)
    requires Inv(s) && Enabled(s, t, a) && o in Step(s, t, a).pool
    ensures Safe(Step(s, t, a), o)
  {
    assert AllSafe(s, s.pool) && AllSafe(s, s.threads[t].freelist);
    hide Inv;
    SafeStaysSafe(s, t, a, o);
  }

  /** Every step of every thread keeps the invariant. */
  lemma StepInv(s: State, t: nat, a: Action)
    requires Inv(s) && Enabled(s, t, a)
    ensures Inv(Step(s, t, a))
  {
    var s' := Step(s, t, a);
    var n := |s.threads|;
    assert s'.epoch >= s.epoch && s'.epoch % 2 == 0 && |s'.threads| == n;
    hide ThreadOk, CheckOk, UnderOk, BagOk, Safe;
    forall u | 0 <= u < n ensures ThreadOk(s'.threads[u], s'.epoch, n) { StepThreadOk(s, t, a, u); }
    forall u, j | 0 <= u < n && 0 <= j < n ensures CheckOk(s'.threads[u], j, s'.threads[j]) { StepCheckOk(s, t, a, u, j); }
    forall o, u | o in s'.info && 0 <= u < n ensures UnderOk(s'.info[o], u, s'.threads[u]) { StepUnderOk(s, t, a, o, u); }
    forall u | 0 <= u < n ensures BagsOk(s', s'.threads[u]) { StepBagsOk(s, t, a, u); }
    forall u | 0 <= u < n ensures AllSafe(s', s'.threads[u].freelist) {
      forall o | o in s'.threads[u].freelist ensures Safe(s', o) { StepFreelistSafe(s, t, a, u, o); }
    }
    forall o | o in s'.pool ensures Safe(s', o) { StepPoolSafe(s, t, a, o); }
    assert forall o :: o in s'.info ==> s'.info[o].at <= s'.epoch;
  }

  lemma StepBagsOk(s: State, t: nat, a: Action, u: nat)
    requires Inv(s) && Enabled(s, t, a) && u < |s.threads|
    ensures BagsOk(Step(s, t, a), Step(s, t, a).threads[u])
  {
    var s' := Step(s, t, a);
    var x' := s'.threads[u];
    assert BagsOk(s, s.threads[u]) && BagsOk(s, s.threads[t]);
    assert |x'.bags| == 3 && x'.index < 3;
    hide Inv, Step, BagOk;
    forall j, o | 0 <= j < 3 && o in x'.bags[j] ensures o in s'.info && BagOk(x', j, s'.info[o].at) {
      StepBagOk(s, t, a, u, j, o);
    }
  }

  // ----- every retired object is in one place

  function Count(q: seq<Obj>, o: Obj): nat { multiset(q)[o] }

  lemma CountConcat(p: seq<Obj>, q: seq<Obj>, o: Obj)
    ensures Count(p + q, o) == Count(p, o) + Count(q, o)
  {
  }

  lemma CountOne(p: Obj, o: Obj)
    ensures Count([p], o) == if p == o then 1 else 0
  {
  }

  /** How often a thread holds an object. */
  function HeldBy(x: Thread, o: Obj): nat
    requires |x.bags| == 3
  {
    Count(x.bags[0], o) + Count(x.bags[1], o) + Count(x.bags[2], o) + Count(x.freelist, o)
  }

  function Held(threads: seq<Thread>, o: Obj): nat
    requires forall t :: 0 <= t < |threads| ==> |threads[t].bags| == 3
  {
    if threads == [] then 0 else HeldBy(threads[0], o) + Held(threads[1..], o)
  }

  lemma {:induction false} HeldUpdate(threads: seq<Thread>, t: nat, x: Thread, o: Obj)
    requires forall t :: 0 <= t < |threads| ==> |threads[t].bags| == 3
    requires t < |threads| && |x.bags| == 3
    ensures Held(threads[t := x], o) + HeldBy(threads[t], o) == Held(threads, o) + HeldBy(x, o)
  {
    hide HeldBy;
    var threads' := threads[t := x];
    assert Held(threads', o) == HeldBy(threads'[0], o) + Held(threads'[1..], o);
    if t == 0 {
      assert threads'[1..] == threads[1..];
    } else {
      assert threads'[1..] == threads[1..][t - 1 := x];
      HeldUpdate(threads[1..], t - 1, x, o);
    }
  }

  /** How often an object is in a bag, on a free list or in the pool. */
  function Places(s: State, o: Obj): nat
    requires forall t :: 0 <= t < |s.threads| ==> |s.threads[t].bags| == 3
  {
    Held(s.threads, o) + Count(s.pool, o)
  }

  /** Every retired object is in exactly one place, once; nothing else is in any. */
  ghost predicate OnePlace(s: State) {
    && (forall t :: 0 <= t < |s.threads| ==> |s.threads[t].bags| == 3)
    && forall o :: Places(s, o) == if o in s.info then 1 else 0
  }

  lemma {:induction false} NothingHeld(threads: seq<Thread>, o: Obj)
    requires forall t :: 0 <= t < |threads| ==> threads[t] == NewThread()
    ensures forall t :: 0 <= t < |threads| ==> |threads[t].bags| == 3
    ensures Held(threads, o) == 0
  {
    if threads != [] { NothingHeld(threads[1..], o); }
  }

  lemma RotateHolds(x: Thread, o: Obj)
    requires x.index < |x.bags| == 3
    ensures HeldBy(RotateBags(x), o) == HeldBy(x, o)
  {
    hide Count;
    var next := (x.index + 1) % 3;
    var oldest, full, part := x.bags[next], Full(x.bags[next]), Partial(x.bags[next]);
    assert oldest == full + part;
    hide Full, Partial;
    CountConcat(full, part, o);
    CountConcat(full, x.freelist, o);
    assert RotateBags(x).bags == x.bags[next := part] && RotateBags(x).freelist == full + x.freelist;
    hide RotateBags;
    assert next == 0 || next == 1 || next == 2;
  }

  lemma RetireHolds(x: Thread, p: Obj, o: Obj)
    requires x.index < |x.bags| == 3
    ensures HeldBy(x.(bags := x.bags[x.index := x.bags[x.index] + [p]]), o) == HeldBy(x, o) + if p == o then 1 else 0
  {
    CountConcat(x.bags[x.index], [p], o);
    CountOne(p, o);
    hide Count;
  }

  /** Only retiring adds to what a thread holds, and only freeing takes away from it. */
  lemma LocalHolds(s: State, t: nat, a: Action, o: Obj)
    requires Enabled(s, t, a) && |s.threads[t].bags| == 3
    ensures |Local(s, t, a).bags| == 3
    ensures HeldBy(Local(s, t, a), o) + Count(Step(s, t, a).pool, o)
         == HeldBy(s.threads[t], o) + Count(s.pool, o) + if a == Retire(o) then 1 else 0
  {
    var x := s.threads[t];
    hide Count, RotateBags, Full, Partial;
    if a.Rotate? && x.local != x.pc.ann {
      RotateHolds(x, o);
    } else if a.FreeOne? && x.freelist != [] {
      var k := |x.freelist| - 1;
      assert x.freelist == x.freelist[..k] + [x.freelist[k]];
      CountConcat(x.freelist[..k], [x.freelist[k]], o);
      CountConcat(s.pool, [x.freelist[k]], o);
    } else if a.Retire? {
      RetireHolds(x, a.o, o);
    }
  }

  lemma StepOnePlace(s: State, t: nat, a: Action)
    requires OnePlace(s) && Enabled(s, t, a)
    ensures OnePlace(Step(s, t, a))
  {
    hide HeldBy, Held, Count;
    var s' := Step(s, t, a);
    forall o ensures (forall t :: 0 <= t < |s'.threads| ==> |s'.threads[t].bags| == 3)
                  && Places(s', o) == if o in s'.info then 1 else 0 {
      StepPlaces(s, t, a, o);
    }
  }

  lemma StepPlaces(s: State, t: nat, a: Action, o: Obj)
    requires Enabled(s, t, a) && (forall t :: 0 <= t < |s.threads| ==> |s.threads[t].bags| == 3)
    requires Places(s, o) == if o in s.info then 1 else 0
    ensures var s' := Step(s, t, a);
            && (forall t :: 0 <= t < |s'.threads| ==> |s'.threads[t].bags| == 3)
            && Places(s', o) == if o in s'.info then 1 else 0
  {
    hide HeldBy, Held, Count;
    var s', y := Step(s, t, a), Local(s, t, a);
    assert s'.threads == s.threads[t := y];
    assert o in s'.info <==> o in s.info || a == Retire(o);
    assert a == Retire(o) ==> o !in s.info;
    LocalHolds(s, t, a, o);
    hide Local, Step, Enabled;
    HeldUpdate(s.threads, t, y, o);
  }

  // ----- whole runs

  ghost predicate Next(s: State, s': State) {
    exists t, a :: Enabled(s, t, a) && s' == Step(s, t, a)
  }

  ghost predicate Run(run: seq<State>) {
    && |run| > 0 && Initial(run[0])
    && forall i :: 0 <= i < |run| - 1 ==> Next(run[i], run[i + 1])
  }

  lemma {:induction false} RunInv(run: seq<State>, i: nat)
    requires Run(run) && i < |run|
    ensures Inv(run[i]) && OnePlace(run[i]) && |run[i].threads| == |run[0].threads|
  {
    hide Next;
    if i == 0 {
      InitialInv(run[0]);
      forall o ensures Held(run[0].threads, o) == 0 { NothingHeld(run[0].threads, o); }
    } else {
      RunInv(run, i - 1);
      assert Next(run[i - 1], run[i]);
      NextInv(run[i - 1], run[i]);
    }
  }

  lemma NextInv(s: State, s': State)
    requires Inv(s) && OnePlace(s) && Next(s, s')
    ensures Inv(s') && OnePlace(s') && |s'.threads| == |s.threads|
  {
    var t, a :| Enabled(s, t, a) && s' == Step(s, t, a);
    hide Inv, OnePlace;
    StepInv(s, t, a);
    StepOnePlace(s, t, a);
  }

  /** Operations are numbered, and retirement records are never changed. */
  lemma NextFrame(s: State, s': State, u: nat, o: Obj)
    requires Next(s, s') && u < |s.threads|
    ensures |s'.threads| == |s.threads|
    ensures InOp(s.threads[u]) && InOp(s'.threads[u]) ==> s'.threads[u].opId == s.threads[u].opId
    ensures o in s.info ==> o in s'.info && s'.info[o] == s.info[o]
    ensures o !in s.info && o in s'.info ==> s'.info[o].under == Under(s) && s'.threads[u].opId == s.threads[u].opId
  {
  }

  /** While a thread does not leave its operation, its number stays the same. */
  lemma {:induction false} Unchanged(run: seq<State>, i: nat, j: nat, u: nat, o: Obj)
    requires Run(run) && i <= j < |run| && o in run[i].info
    requires forall m :: i <= m <= j ==> u < |run[m].threads| && InOp(run[m].threads[u])
    ensures o in run[j].info && run[j].info[o] == run[i].info[o]
    ensures run[j].threads[u].opId == run[i].threads[u].opId
  {
    hide Next, Initial, InOp;
    if i < j {
      Unchanged(run, i, j - 1, u, o);
      NextFrame(run[j - 1], run[j], u, o);
    }
  }

  /**
   An object retired in step `r` and handed to the pool by state `f`: every thread that was inside an
   operation when it was retired has been outside any operation in between.
   */
  lemma EpochSafety(run: seq<State>, r: nat, f: nat, o: Obj, u: nat) returns (m: nat)
    requires Run(run) && r < f < |run|
    requires o !in run[r].info && o in run[r + 1].info
    requires o in run[f].pool || exists t :: 0 <= t < |run[f].threads| && o in run[f].threads[t].freelist
    requires u < |run[r].threads| && InOp(run[r].threads[u])
    ensures r < m <= f && u < |run[m].threads| && !InOp(run[m].threads[u])
  {
    forall i | 0 <= i < |run| ensures |run[i].threads| == |run[0].threads| { RunInv(run, i); }
    RunInv(run, f);
    assert Safe(run[f], o) by {
      if o in run[f].pool { assert AllSafe(run[f], run[f].pool); }
      else {
        var t :| 0 <= t < |run[f].threads| && o in run[f].threads[t].freelist;
        assert AllSafe(run[f], run[f].threads[t].freelist);
      }
    }
    hide Inv, OnePlace, Initial, Next;
    if k :| r < k <= f && !InOp(run[k].threads[u]) {
      m := k;
    } else {
      NextFrame(run[r], run[r + 1], u, o);
      assert u in run[r + 1].info[o].under;
      Unchanged(run, r + 1, f, u, o);
      assert false;
    }
  }

  /** No object is freed twice, and none is freed while it still lies in a bag. */
  lemma FreedOnce(run: seq<State>, f: nat, o: Obj)
    requires Run(run) && f < |run|
    ensures OnePlace(run[f]) && Places(run[f], o) == if o in run[f].info then 1 else 0
    ensures o in run[f].pool ==> Count(run[f].pool, o) == 1 && Held(run[f].threads, o) == 0
  {
    RunInv(run, f);
  }

  /** The scan of announcements never runs past the last thread. */
  lemma ScanInRange(run: seq<State>, i: nat, t: nat)
    requires Run(run) && i < |run| && t < |run[i].threads| && run[i].threads[t].pc.ToScan?
    ensures run[i].threads[t].checked < |run[i].threads|
  {
    RunInv(run, i);
    assert ThreadOk(run[i].threads[t], run[i].epoch, |run[i].threads|);
  }

  /** Announcements may be stale, but while an operation is under way the epoch moves at most once after its announcement. */
  lemma EpochMovesAtMostOnce(run: seq<State>, i: nat, t: nat)
    requires Run(run) && i < |run| && t < |run[i].threads| && InOp(run[i].threads[t])
    ensures var x := run[i].threads[t];
            x.announced <= x.entered <= run[i].epoch <= x.entered + EPOCH_INCREMENT
  {
    RunInv(run, i);
    assert ThreadOk(run[i].threads[t], run[i].epoch, |run[i].threads|);
  }
}
