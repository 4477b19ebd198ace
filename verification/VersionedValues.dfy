/** Where the values in the chain come from, and what vCAS and `read` answer. */
module VersionedValues {
  import opened VersionedArray

  /** The thread has put version `j` in front and is giving it a timestamp. */
  predicate Adding(x: Thread, j: nat) {
    (x.pc.InitRead? || x.pc.InitClock? || x.pc.InitCas?) && x.pc.next.Done? && x.pc.i == j
  }

  /** Version `j` is the new value of a vCAS that expected the value of the version before it, answered or about to answer true. */
  ghost predicate PutBySwap(s: State, j: nat)
    requires 1 <= j < |s.chain|
  {
    var u, v := s.chain[j - 1], s.chain[j];
    && u.value != v.value && v.tid < |s.threads| && v.opNo <= s.threads[v.tid].opNo
    && if s.threads[v.tid].opNo == v.opNo && !s.threads[v.tid].pc.Idle?
       then Adding(s.threads[v.tid], j) && s.threads[v.tid].job == VCas(u.value, v.value)
       else Swapped(v.tid, v.opNo, u.value, v.value, j - 1, true, true) in s.results
  }

  /** What a result says about the chain. */
  predicate ResultOk(chain: seq<Version>, r: Result) {
    match r
    case Peeked(_, _, seen, value) => seen < |chain| && value == chain[seen].value
    case Swapped(tid, opNo, before, after, i, added, ok) =>
      && i < |chain|
      && (added ==> ok && i + 1 < |chain| && chain[i + 1].tid == tid && chain[i + 1].opNo == opNo
                    && chain[i].value == before && chain[i + 1].value == after)
      && (ok && !added ==> chain[i].value == before == after)
      && (!ok ==> chain[i].value != before || (i + 1 < |chain| && !(chain[i + 1].tid == tid && chain[i + 1].opNo == opNo)))
  }

  /** Results come from operations that are over. */
  predicate FromEnded(threads: seq<Thread>, r: Result) {
    && r.tid < |threads| && r.opNo <= threads[r.tid].opNo
    && (r.opNo == threads[r.tid].opNo ==> threads[r.tid].pc.Idle?)
  }

  predicate SameOp(r: Result, q: Result) { r.tid == q.tid && r.opNo == q.opNo }

  predicate OneEach(results: seq<Result>) {
    forall a, b :: 0 <= a < b < |results| ==> !SameOp(results[a], results[b])
  }

  /** About to put its version in front: the head it loaded still has the expected value, which is not the new one. */
  predicate SwapOk(chain: seq<Version>, x: Thread) {
    x.pc.CasHead? ==> x.job.VCas? && x.pc.i < |chain| && chain[x.pc.i].value == x.job.oldValue != x.job.newValue
  }

  /** A thread that is giving its version a timestamp has put it there itself. */
  ghost predicate AddingOk(chain: seq<Version>, t: nat, x: Thread) {
    forall j: nat :: Adding(x, j) ==> 1 <= j < |chain| && chain[j].tid == t && chain[j].opNo == x.opNo
  }

  ghost predicate Values(s: State) {
    && (forall j :: 1 <= j < |s.chain| ==> PutBySwap(s, j))
    && (forall a :: 0 <= a < |s.results| ==> ResultOk(s.chain, s.results[a]) && FromEnded(s.threads, s.results[a]))
    && OneEach(s.results)
    && (forall t :: 0 <= t < |s.threads| ==> SwapOk(s.chain, s.threads[t]) && AddingOk(s.chain, t, s.threads[t]))
  }

  // ----- one step

  /** The result of a step is right. */
  lemma ResultRight(s: State, t: nat, r: Result)
    requires Inv(s) && Values(s) && CanStep(s, t) && r in Results(s, t)
    ensures ResultOk(NextChain(s, t), r)
  {
    var x, chain' := s.threads[t], NextChain(s, t);
    assert ThreadOk(s.chain, s.clock, x) && SwapOk(s.chain, x) && AddingOk(s.chain, t, x);
    StepGrows(s, t);
    assert Grows(s.chain, chain', s.clock);
    if x.pc.CasHead? {
      assert PutBySwap(s, x.pc.i + 1);
    } else if x.pc.InitRead? || x.pc.InitCas? {
      var i := x.pc.i;
      assert Refines(s.chain[i], chain'[i]);
      if x.pc.next.Done? {
        assert Adding(x, i);
        assert PutBySwap(s, i);
        assert Refines(s.chain[i - 1], chain'[i - 1]);
      }
      hide NextChain, Grows, Inv, Values;
    }
  }

  lemma ResultShape(s: State, t: nat)
    requires CanStep(s, t)
    ensures |Results(s, t)| <= 1
    ensures Results(s, t) != [] ==> var r := Results(s, t)[0]; r.tid == t && r.opNo == s.threads[t].opNo && NextPc(s, t).Idle?
  {
    var x := s.threads[t];
    match x.pc
    case InitRead(i, next) =>
    case InitCas(i, g, next) =>
    case _ =>
  }

  lemma ResultsRight(s: State, t: nat)
    requires Inv(s) && Values(s) && CanStep(s, t)
    ensures |Results(s, t)| <= 1
    ensures forall a :: 0 <= a < |Results(s, t)| ==>
              var r := Results(s, t)[a]; r.tid == t && r.opNo == s.threads[t].opNo && ResultOk(NextChain(s, t), r) && NextPc(s, t).Idle?
  {
    ResultShape(s, t);
    hide Results, Inv, Values, NextChain, NextPc, CanStep, ResultOk;
    forall a | 0 <= a < |Results(s, t)| ensures ResultOk(NextChain(s, t), Results(s, t)[a]) { ResultRight(s, t, Results(s, t)[a]); }
  }

  lemma ResultStays(chain: seq<Version>, chain': seq<Version>, clock: int, r: Result)
    requires ResultOk(chain, r) && Grows(chain, chain', clock)
    ensures ResultOk(chain', r)
  {
    var i := if r.Peeked? then r.seen else r.loaded;
    assert Refines(chain[i], chain'[i]);
    if i + 1 < |chain| { assert Refines(chain[i + 1], chain'[i + 1]); }
  }

  lemma StepResults(s: State, t: nat, a: nat)
    requires Inv(s) && Values(s) && CanStep(s, t) && a < |Step(s, t).results|
    ensures var s' := Step(s, t); ResultOk(s'.chain, s'.results[a]) && FromEnded(s'.threads, s'.results[a])
  {
    ResultsRight(s, t);
    if a < |s.results| {
      var r := s.results[a];
      assert ResultOk(s.chain, r) && FromEnded(s.threads, r);
      StepGrows(s, t);
      hide Inv, Values, Results, ResultOk, Grows, NextChain, NextPc, Answers;
      ResultStays(s.chain, Step(s, t).chain, s.clock, r);
    } else {
      hide Inv, Values, ResultOk, NextChain, Results, Answers, NextPc;
    }
  }

  lemma StepOneEach(s: State, t: nat)
    requires Inv(s) && Values(s) && CanStep(s, t)
    ensures OneEach(Step(s, t).results)
  {
    ResultsRight(s, t);
    var s' := Step(s, t);
    hide Inv, Results, NextChain, Answers, NextPc;
    forall a, b | 0 <= a < b < |s'.results| ensures !SameOp(s'.results[a], s'.results[b]) {
      if b >= |s.results| { assert FromEnded(s.threads, s.results[a]); }
    }
  }

  /** A version that was there before the step. */
  lemma StepOldVersion(s: State, t: nat, j: nat)
    requires Inv(s) && Values(s) && CanStep(s, t) && 1 <= j < |s.chain|
    ensures j < |Step(s, t).chain| && PutBySwap(Step(s, t), j)
  {
    var s', x, v := Step(s, t), s.threads[t], s.chain[j];
    assert PutBySwap(s, j) && ThreadOk(s.chain, s.clock, x);
    StepGrows(s, t);
    assert Refines(s.chain[j - 1], s'.chain[j - 1]) && Refines(v, s'.chain[j]);
    hide Inv, Values, Grows, NextChain, Answers;
    if v.tid == t && v.opNo == x.opNo && !x.pc.Idle? {
      AddingEnds(s, t, j);
    } else if v.tid == t {
      assert s'.threads[t].opNo == x.opNo;
    }
    hide Results, NextPc;
    assert s.results <= s'.results;
  }

  lemma AddingEnds(s: State, t: nat, j: nat)
    requires CanStep(s, t) && Adding(s.threads[t], j) && j > 0
    ensures if NextPc(s, t).Idle?
            then var x := s.threads[t]; x.job.VCas? && Results(s, t) == [Swapped(t, x.opNo, x.job.oldValue, x.job.newValue, j - 1, true, true)]
            else Adding(Step(s, t).threads[t], j)
  {
  }

  /** The version that the step puts in front. */
  lemma StepNewVersion(s: State, t: nat)
    requires Inv(s) && Values(s) && CanStep(s, t) && |Step(s, t).chain| > |s.chain|
    ensures PutBySwap(Step(s, t), |s.chain|)
  {
    assert ThreadOk(s.chain, s.clock, s.threads[t]) && SwapOk(s.chain, s.threads[t]);
    hide Inv, Values;
  }

  lemma StepThread(s: State, t: nat, u: nat)
    requires Inv(s) && Values(s) && CanStep(s, t) && u < |s.threads|
    ensures var s' := Step(s, t); SwapOk(s'.chain, s'.threads[u]) && AddingOk(s'.chain, u, s'.threads[u])
  {
    var s', y := Step(s, t), s.threads[u];
    assert SwapOk(s.chain, y) && AddingOk(s.chain, u, y) && ThreadOk(s.chain, s.clock, y);
    StepGrows(s, t);
    hide Inv, Values, Answers, Results;
    if y.pc.CasHead? { assert Refines(s.chain[y.pc.i], s'.chain[y.pc.i]); }
    if y.pc.InitRead? || y.pc.InitClock? || y.pc.InitCas? { assert Refines(s.chain[y.pc.i], s'.chain[y.pc.i]); }
    forall j: nat | Adding(s'.threads[u], j) ensures 1 <= j < |s'.chain| && s'.chain[j].tid == u && s'.chain[j].opNo == y.opNo {
      if Adding(y, j) { assert Refines(s.chain[j], s'.chain[j]); }
    }
  }

  lemma StepValues(s: State, t: nat)
    requires Inv(s) && Values(s) && CanStep(s, t)
    ensures Values(Step(s, t))
  {
    var s' := Step(s, t);
    StepGrows(s, t);
    assert |s'.chain| <= |s.chain| + 1 && |s'.threads| == |s.threads|;
    hide ResultOk, FromEnded, SwapOk, AddingOk, PutBySwap, OneEach, Step, Inv, Grows, CanStep;
    forall a | 0 <= a < |s'.results| ensures ResultOk(s'.chain, s'.results[a]) && FromEnded(s'.threads, s'.results[a]) { StepResults(s, t, a); }
    forall j | 1 <= j < |s'.chain| ensures PutBySwap(s', j) {
      if j < |s.chain| { StepOldVersion(s, t, j); } else { StepNewVersion(s, t); }
    }
    forall u | 0 <= u < |s'.threads| ensures SwapOk(s'.chain, s'.threads[u]) && AddingOk(s'.chain, u, s'.threads[u]) { StepThread(s, t, u); }
    StepOneEach(s, t);
  }

  lemma BeginValues(s: State, t: nat, job: Job)
    requires Values(s) && t < |s.threads| && s.threads[t].pc.Idle?
    ensures Values(Begin(s, t, job))
  {
    var s' := Begin(s, t, job);
    forall j | 1 <= j < |s'.chain| ensures PutBySwap(s', j) { assert PutBySwap(s, j); }
    forall a | 0 <= a < |s'.results| ensures ResultOk(s'.chain, s'.results[a]) && FromEnded(s'.threads, s'.results[a]) {
      assert ResultOk(s.chain, s.results[a]) && FromEnded(s.threads, s.results[a]);
    }
    hide ResultOk, PutBySwap;
  }

  lemma NextValues(s: State, s': State)
    requires Inv(s) && Values(s) && Next(s, s')
    ensures Values(s')
  {
    hide Inv, Step;
    if t: nat :| CanStep(s, t) && s' == Step(s, t) {
      hide Values;
      StepValues(s, t);
    } else if t: nat, job :| t < |s.threads| && s.threads[t].pc.Idle? && s' == Begin(s, t, job) {
      hide Values;
      BeginValues(s, t, job);
    } else {
      forall j | 1 <= j < |s'.chain| ensures PutBySwap(s', j) { assert PutBySwap(s, j); }
      hide ResultOk, PutBySwap, FromEnded, SwapOk, AddingOk;
    }
  }

  // ----- whole runs

  lemma {:induction false} RunValues(run: seq<State>, n: nat)
    requires Run(run) && n < |run|
    ensures Inv(run[n]) && Values(run[n])
  {
    RunInv(run, n);
    hide Next;
    if n > 0 {
      RunValues(run, n - 1);
      hide Inv, Values;
      NextValues(run[n - 1], run[n]);
    }
  }

  /**
   Every version but the first was put in the chain by one vCAS: its value is the new value, the value before it the
   expected one, and they differ.  That vCAS is still giving the version a timestamp, or has answered true, once.
   */
  lemma EveryVersionHasItsSwap(run: seq<State>, n: nat, j: nat)
    requires Run(run) && n < |run| && 1 <= j < |run[n].chain|
    ensures PutBySwap(run[n], j)
    ensures forall a :: 0 <= a < |run[n].results| && run[n].results[a].Swapped? && run[n].results[a].added && run[n].results[a].loaded == j - 1 ==>
              var r, v := run[n].results[a], run[n].chain[j];
              r.ok && r.tid == v.tid && r.opNo == v.opNo && r.oldValue == run[n].chain[j - 1].value && r.newValue == v.value
    ensures forall a, b :: 0 <= a < b < |run[n].results| ==> !SameOp(run[n].results[a], run[n].results[b])
  {
    RunValues(run, n);
    hide Run, PutBySwap;
  }

  /** What vCAS and `read` have answered, in every run. */
  lemma AnswersAreRight(run: seq<State>, n: nat, a: nat)
    requires Run(run) && n < |run| && a < |run[n].results|
    ensures ResultOk(run[n].chain, run[n].results[a])
  {
    RunValues(run, n);
    hide Run;
  }

  // ----- which loads the answers are about

  /** The version that a vCAS under way has loaded as the head. */
  predicate HasLoaded(x: Thread, i: nat) {
    x.job.VCas? && ((x.pc.CasHead? && x.pc.i == i) || Adding(x, i + 1)
                    || ((x.pc.InitRead? || x.pc.InitClock? || x.pc.InitCas?) && x.pc.next.TryCas? && x.pc.i == i))
  }

  /** Thread `t`, in its operation `opNo`, is about to load the head, which is version `i`. */
  predicate AtLoad(s: State, t: nat, opNo: nat, i: nat) {
    t < |s.threads| && s.threads[t].pc.LoadHead? && s.threads[t].opNo == opNo && |s.chain| == i + 1
  }

  predicate AtLoadAgain(s: State, t: nat, opNo: nat, i: nat) {
    t < |s.threads| && s.threads[t].pc.LoadAgain? && s.threads[t].opNo == opNo && |s.chain| == i + 1
  }

  lemma LoadedBefore(s: State, s': State, t: nat, i: nat)
    requires Inv(s) && Next(s, s') && t < |s'.threads| && HasLoaded(s'.threads[t], i)
    ensures t < |s.threads| && s.threads[t].opNo == s'.threads[t].opNo
    ensures HasLoaded(s.threads[t], i) || AtLoad(s, t, s'.threads[t].opNo, i)
  {
    if u: nat :| CanStep(s, u) && s' == Step(s, u) { assert ThreadOk(s.chain, s.clock, s.threads[u]); }
    hide Inv;
  }

  lemma {:induction false} LoadedAt(run: seq<State>, n: nat, t: nat, i: nat) returns (m: nat)
    requires Run(run) && n < |run| && t < |run[n].threads| && HasLoaded(run[n].threads[t], i)
    ensures m < n && AtLoad(run[m], t, run[n].threads[t].opNo, i)
  {
    m := 0;
    if n > 0 {
      RunInv(run, n - 1);
      assert Next(run[n - 1], run[n - 1 + 1]);
      hide Inv, Next;
      LoadedBefore(run[n - 1], run[n], t, i);
      m := n - 1;
      if !AtLoad(run[n - 1], t, run[n].threads[t].opNo, i) { m := LoadedAt(run, n - 1, t, i); }
    }
  }

  lemma StepResultFrom(s: State, t: nat)
    requires Inv(s) && CanStep(s, t) && Results(s, t) != []
    ensures var r := Results(s, t)[0];
            if r.Swapped? then HasLoaded(s.threads[t], r.loaded) else AtLoadAgain(s, t, r.opNo, r.seen)
  {
    var x := s.threads[t];
    assert ThreadOk(s.chain, s.clock, x);
    hide Inv;
    match x.pc
    case InitRead(i, next) =>
    case InitCas(i, g, next) =>
    case _ =>
  }

  lemma ResultFrom(s: State, s': State, a: nat)
    requires Inv(s) && Next(s, s') && a < |s'.results|
    ensures a < |s.results| ==> s'.results[a] == s.results[a]
    ensures a >= |s.results| ==> var r := s'.results[a];
              r.tid < |s.threads| && r.opNo == s.threads[r.tid].opNo
              && if r.Swapped? then HasLoaded(s.threads[r.tid], r.loaded) else AtLoadAgain(s, r.tid, r.opNo, r.seen)
  {
    hide Inv, NextChain, Answers, NextPc, Results, HasLoaded, AtLoadAgain;
    if u: nat :| CanStep(s, u) && s' == Step(s, u) {
      ResultShape(s, u);
      if a >= |s.results| { StepResultFrom(s, u); }
    }
  }

  /** The version that a vCAS answers about was the head when it loaded it; what comes after it came later. */
  lemma {:induction false} SwapLoadedHead(run: seq<State>, n: nat, a: nat) returns (m: nat)
    requires Run(run) && n < |run| && a < |run[n].results| && run[n].results[a].Swapped?
    ensures m < n && AtLoad(run[m], run[n].results[a].tid, run[n].results[a].opNo, run[n].results[a].loaded)
  {
    m := 0;
    if n > 0 {
      RunInv(run, n - 1);
      assert Next(run[n - 1], run[n - 1 + 1]);
      hide Inv, Next, HasLoaded;
      ResultFrom(run[n - 1], run[n], a);
      if a < |run[n - 1].results| {
        m := SwapLoadedHead(run, n - 1, a);
      } else {
        m := LoadedAt(run, n - 1, run[n].results[a].tid, run[n].results[a].loaded);
      }
    }
  }

  /** A `read` answers with the value of the head at its second load. */
  lemma {:induction false} PeekSawHead(run: seq<State>, n: nat, a: nat) returns (m: nat)
    requires Run(run) && n < |run| && a < |run[n].results| && run[n].results[a].Peeked?
    ensures m < n && AtLoadAgain(run[m], run[n].results[a].tid, run[n].results[a].opNo, run[n].results[a].seen)
    ensures run[n].results[a].value == run[m].chain[|run[m].chain| - 1].value
  {
    m := 0;
    if n > 0 {
      RunInv(run, n - 1);
      assert Next(run[n - 1], run[n - 1 + 1]);
      hide Inv, Next;
      ResultFrom(run[n - 1], run[n], a);
      if a < |run[n - 1].results| {
        m := PeekSawHead(run, n - 1, a);
      } else {
        m := n - 1;
        AnswersAreRight(run, n, a);
        hide Run;
        TimestampsAreFixed(run, m, n, |run[m].chain| - 1);
      }
    }
  }

  // ----- every operation ends, with one answer

  /** The step that ends an operation gives its answer, and no other step does. */
  lemma EndsWithAnswer(s: State, t: nat)
    requires CanStep(s, t)
    ensures var x := s.threads[t];
            && |Answers(s, t)| == (if NextPc(s, t).Idle? && x.job.Snapshot? then 1 else 0)
            && |Results(s, t)| == (if NextPc(s, t).Idle? && !x.job.Snapshot? then 1 else 0)
  {
    var x := s.threads[t];
    match x.pc
    case InitRead(i, next) =>
    case InitCas(i, g, next) =>
    case _ =>
  }

  /** A bound on the steps that a thread still has to make, after it has loaded the head. */
  function StepsLeft(x: Thread): nat {
    match x.pc
    case Idle => 0
    case LoadHead => 0
    case LoadAgain => 1
    case CasHead(_) => 4
    case Walk(at) => if at < 0 then 1 else at + 2
    case InitRead(i, next) => 3 + AfterLeft(i, next)
    case InitClock(i, next) => 2 + AfterLeft(i, next)
    case InitCas(i, _, next) => 1 + AfterLeft(i, next)
  }

  function AfterLeft(i: nat, next: Then): nat {
    match next
    case TryCas => 4
    case Done => 0
    case StartWalk => i + 2
    case Reload => 1
  }

  /** Whatever the others do, each step of a thread brings its operation nearer to its end. */
  lemma EveryStepCounts(s: State, t: nat)
    requires Inv(s) && CanStep(s, t)
    ensures var x, x' := s.threads[t], Step(s, t).threads[t];
            if x.pc.LoadHead? then 0 < StepsLeft(x') <= |s.chain| + 6 else StepsLeft(x') < StepsLeft(x)
    ensures forall u :: 0 <= u < |s.threads| && u != t ==> Step(s, t).threads[u] == s.threads[u]
  {
    assert ThreadOk(s.chain, s.clock, s.threads[t]);
    hide Inv, Answers, Results, NextChain;
  }

  lemma AlwaysAStep(s: State, t: nat)
    requires Inv(s) && t < |s.threads| && !s.threads[t].pc.Idle?
    ensures CanStep(s, t)
  {
    assert ThreadOk(s.chain, s.clock, s.threads[t]);
  }
}
