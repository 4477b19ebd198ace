/** The `size` field of a leaf counts its used slots, so an insertion finds a free slot exactly when the field says there is one. */
module ElimSize {
  import opened Elim
  import opened ElimHistory
  import opened ElimSafety
  import opened ElimRun

  function Used(keys: seq<int>): nat {
    if keys == [] then 0 else (if keys[0] == 0 then 0 else 1) + Used(keys[1..])
  }

  lemma {:induction false} UsedWrite(keys: seq<int>, i: nat, k: int)
    requires i < |keys|
    ensures Used(keys[i := k]) == Used(keys) + (if k == 0 then 0 else 1) - if keys[i] == 0 then 0 else 1
  {
    if i == 0 {
      assert keys[0 := k][1..] == keys[1..];
    } else {
      UsedWrite(keys[1..], i - 1, k);
      assert keys[i := k][1..] == keys[1..][i - 1 := k];
    }
  }

  /** All slots are used exactly when none is free. */
  lemma {:induction false} UsedAll(keys: seq<int>)
    ensures Used(keys) <= |keys| && (Used(keys) == |keys| <==> SlotOf(keys, 0) == |keys|)
  {
    if keys != [] { UsedAll(keys[1..]); }
  }

  lemma {:induction false} UsedNone(keys: seq<int>)
    requires forall i :: 0 <= i < |keys| ==> keys[i] == 0
    ensures Used(keys) == 0
  {
    if keys != [] { UsedNone(keys[1..]); }
  }

  /** By how much the field lags behind the slots while the lock holder is at work. */
  function Lag(x: Thread): int {
    if x.pc.PutVal? || x.pc.PutSize? then if x.op.Ins? then 1 else -1 else 0
  }

  predicate SizeOk(leaf: Leaf, threads: seq<Thread>) {
    Used(leaf.keys) == leaf.size + if leaf.holder.Some? && leaf.holder.value < |threads| then Lag(threads[leaf.holder.value]) else 0
  }

  predicate NoneStuck(threads: seq<Thread>) {
    forall t :: 0 <= t < |threads| ==> !threads[t].pc.Stuck?
  }

  /** What the lock holder's step does to the count. */
  lemma HolderCounts(leaf: Leaf, t: nat, x: Thread, d: Dict)
    requires HolderOk(leaf, x, d) && HoldsLock(x.pc) && OpOk(x.op) && !x.op.Get?
    requires Used(leaf.keys) == leaf.size + Lag(x)
    ensures var leaf', x' := NextLeaf(leaf, t, x), x.(pc := NextPc(leaf, x));
            Used(leaf'.keys) == leaf'.size + Lag(x') && (!x.pc.Stuck? ==> !x'.pc.Stuck?)
  {
    hide Rep;
    UsedAll(leaf.keys);
    if x.pc.PutKey? { UsedWrite(leaf.keys, x.pc.i, if x.op.Ins? then x.op.k else 0); }
    hide Used;
  }

  /** Everyone else leaves the slots and the field alone. */
  lemma OtherCounts(leaf: Leaf, t: nat, x: Thread)
    requires |leaf.keys| == |leaf.vals| == DEGREE && !HoldsLock(x.pc)
    requires x.pc.ReadVal? ==> x.pc.i < DEGREE
    ensures var leaf', pc := NextLeaf(leaf, t, x), NextPc(leaf, x);
            && leaf'.keys == leaf.keys && leaf'.size == leaf.size && !pc.PutVal? && !pc.PutSize? && !pc.Stuck?
            && (leaf'.holder == leaf.holder || (leaf.holder.None? && leaf'.holder == Some(t) && x.pc.TryLock?))
  {
  }

  lemma StepSize(s: State, t: nat)
    requires Inv(s) && CanStep(s, t) && SizeOk(s.leaf, s.threads) && NoneStuck(s.threads)
    ensures SizeOk(Step(s, t).leaf, Step(s, t).threads) && NoneStuck(Step(s, t).threads)
  {
    var x, d := s.threads[t], Dictionary(s.log);
    assert ThreadOk(s.leaf, d, t, x) && ContentOk(s.leaf, s.threads, d);
    hide Inv, Dictionary, Rep, ReaderOk, NextLog, Returns, Used, Legal;
    if HoldsLock(x.pc) {
      hide HolderOk;
      HolderCounts(s.leaf, t, x, d);
      HolderAfter(s.leaf, t, x);
      hide NextLeaf, NextPc;
    } else {
      OtherCounts(s.leaf, t, x);
      hide HolderOk, NextLeaf, NextPc;
    }
  }

  lemma NextSize(s: State, s': State)
    requires Inv(s) && Next(s, s') && SizeOk(s.leaf, s.threads) && NoneStuck(s.threads)
    ensures SizeOk(s'.leaf, s'.threads) && NoneStuck(s'.threads)
  {
    hide Used, Step;
    if t: nat :| CanStep(s, t) && s' == Step(s, t) {
      StepSize(s, t);
    } else if t: nat, op :| t < |s.threads| && s.threads[t].pc.Idle? && OpOk(op) && s' == Invoke(s, t, op) {
      assert ThreadOk(s.leaf, Dictionary(s.log), t, s.threads[t]);
    } else {
      assert s' == MarkLeaf(s);
    }
  }

  lemma {:induction false} RunSize(run: seq<State>, i: nat)
    requires Run(run) && i < |run|
    ensures SizeOk(run[i].leaf, run[i].threads) && NoneStuck(run[i].threads)
  {
    hide Next, Inv, Times;
    if i == 0 {
      UsedNone(run[0].leaf.keys);
    } else {
      RunSize(run, i - 1);
      RunKeeps(run, i - 1);
      hide SizeOk, NoneStuck;
      NextSize(run[i - 1], run[i]);
    }
  }

  /**
   In every run the field counts the used slots whenever the lock is free; no insertion fails to find the free slot that
   the field promises; and a leaf is split only when all its slots are used.
   */
  lemma SizeIsExact(run: seq<State>, i: nat, t: nat)
    requires Run(run) && i < |run| && t < |run[i].threads|
    ensures var leaf, x := run[i].leaf, run[i].threads[t];
            && |leaf.keys| == DEGREE && !x.pc.Stuck?
            && (leaf.holder.None? ==> leaf.size == Used(leaf.keys))
            && (Overflows(leaf, x) ==> Used(leaf.keys) == DEGREE && 0 !in leaf.keys)
  {
    RunSize(run, i);
    RunKeeps(run, i);
    var s := run[i];
    assert ThreadOk(s.leaf, Dictionary(s.log), t, s.threads[t]);
    UsedAll(s.leaf.keys);
    hide Run, Times, Used, Dictionary, Legal, Rep;
  }
}
