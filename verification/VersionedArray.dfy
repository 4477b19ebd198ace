/**
 A value with a chain of timestamped versions.  Writers put new versions in front with a CAS; whoever meets a
 version without a timestamp gives it one from a shared clock; snapshot reads walk down the chain.
 */
module VersionedArray {

  /**
   `ts` is -1 until it is set; the rest is bookkeeping: the clock when the version was put in the chain, and the
   operation that put it there.
   */
  datatype Version = Version(value: int, ts: int, birth: int, tid: nat, opNo: nat)

  /** `Peek` is `read`. */
  datatype Job = VCas(oldValue: int, newValue: int) | Snapshot(at: int) | Peek

  /** What a thread does once the timestamp is set: `Done` is for a version it has itself put in the chain. */
  datatype Then = TryCas | Done | StartWalk | Reload

  datatype Pc =
    | Idle
    | LoadHead
    | InitRead(i: nat, next: Then)
    | InitClock(i: nat, next: Then)
    | InitCas(i: nat, g: int, next: Then)
    | CasHead(i: nat)
    | Walk(at: int)
    | LoadAgain

  /** Bookkeeping: `begun` is the clock when the thread loaded the head of the chain, `opNo` numbers its operations. */
  datatype Thread = Thread(job: Job, pc: Pc, begun: int, opNo: nat)

  datatype Answer = Answer(at: int, begun: int, value: int)

  /** What vCAS and `read` return, with the versions they loaded, and whether the vCAS has put a version in front. */
  datatype Result =
    | Swapped(tid: nat, opNo: nat, oldValue: int, newValue: int, loaded: nat, added: bool, ok: bool)
    | Peeked(tid: nat, opNo: nat, seen: nat, value: int)

  /** The chain, oldest version first: its last element is what `vhead` points to. */
  datatype State = State(chain: seq<Version>, clock: int, threads: seq<Thread>, answers: seq<Answer>, results: seq<Result>)

  /** What is done after the timestamp is set fits what the thread is there for. */
  predicate Suits(job: Job, i: nat, next: Then) {
    match next
    case TryCas => job.VCas?
    case Done => job.VCas? && i > 0
    case StartWalk => job.Snapshot?
    case Reload => job.Peek?
  }

  predicate CanStep(s: State, t: nat) {
    && t < |s.threads| && |s.chain| >= 1
    && match s.threads[t].pc
       case Idle => false
       case LoadHead => true
       case InitRead(i, next) => i < |s.chain| && Suits(s.threads[t].job, i, next)
       case InitClock(i, next) => i < |s.chain| && Suits(s.threads[t].job, i, next)
       case InitCas(i, _, next) => i < |s.chain| && Suits(s.threads[t].job, i, next)
       case CasHead(i) => i < |s.chain| && s.threads[t].job.VCas?
       case Walk(at) => at < |s.chain| && s.threads[t].job.Snapshot?
       case LoadAgain => s.threads[t].job.Peek?
  }

  function AfterInit(s: State, x: Thread, i: nat, next: Then): Pc
    requires i < |s.chain| && Suits(x.job, i, next)
  {
    match next
    case Done => Idle
    case StartWalk => Walk(i)
    case TryCas => if s.chain[i].value != x.job.oldValue || s.chain[i].value == x.job.newValue then Idle else CasHead(i)
    case Reload => LoadAgain
  }

  function ResultAfterInit(s: State, t: nat, x: Thread, i: nat, next: Then): seq<Result>
    requires i < |s.chain| && Suits(x.job, i, next)
  {
    match next
    case Done => [Swapped(t, x.opNo, x.job.oldValue, x.job.newValue, i - 1, true, true)]
    case TryCas =>
      if s.chain[i].value != x.job.oldValue then [Swapped(t, x.opNo, x.job.oldValue, x.job.newValue, i, false, false)]
      else if s.chain[i].value == x.job.newValue then [Swapped(t, x.opNo, x.job.oldValue, x.job.newValue, i, false, true)]
      else []
    case _ => []
  }

  /** The result with which vCAS or `read` returns in this step, if it does. */
  function Results(s: State, t: nat): seq<Result>
    requires CanStep(s, t)
  {
    var x := s.threads[t];
    match x.pc
    case InitRead(i, next) => if s.chain[i].ts == -1 then [] else ResultAfterInit(s, t, x, i, next)
    case InitCas(i, _, next) => ResultAfterInit(s, t, x, i, next)
    case CasHead(i) =>
      if i == |s.chain| - 1 then [] else [Swapped(t, x.opNo, x.job.oldValue, x.job.newValue, i, false, false)]
    case LoadAgain => [Peeked(t, x.opNo, |s.chain| - 1, s.chain[|s.chain| - 1].value)]
    case _ => []
  }

  function NextPc(s: State, t: nat): Pc
    requires CanStep(s, t)
  {
    var x := s.threads[t];
    match x.pc
    case LoadHead =>
      InitRead(|s.chain| - 1, match x.job case VCas(_, _) => TryCas case Snapshot(_) => StartWalk case Peek => Reload)
    case InitRead(i, next) => if s.chain[i].ts == -1 then InitClock(i, next) else AfterInit(s, x, i, next)
    case InitClock(i, next) => InitCas(i, s.clock, next)
    case InitCas(i, g, next) => AfterInit(s, x, i, next)
    case CasHead(i) => if i == |s.chain| - 1 then InitRead(|s.chain|, Done) else Idle
    case Walk(at) => if at >= 0 && s.chain[at].ts >= x.job.at then Walk(at - 1) else Idle
    case LoadAgain => Idle
  }

  function NextChain(s: State, t: nat): seq<Version>
    requires CanStep(s, t)
  {
    var x := s.threads[t];
    match x.pc
    case InitCas(i, g, _) => if s.chain[i].ts == -1 then s.chain[i := s.chain[i].(ts := g)] else s.chain
    case CasHead(i) => if i == |s.chain| - 1 then s.chain + [Version(x.job.newValue, -1, s.clock, t, x.opNo)] else s.chain
    case _ => s.chain
  }

  /** The answer of a snapshot read that ends in this step. */
  function Answers(s: State, t: nat): seq<Answer>
    requires CanStep(s, t)
  {
    var x := s.threads[t];
    match x.pc
    case Walk(at) =>
      if at < 0 then [Answer(x.job.at, x.begun, -1)]
      else if s.chain[at].ts >= x.job.at then []
      else [Answer(x.job.at, x.begun, s.chain[at].value)]
    case _ => []
  }

  function Step(s: State, t: nat): State
    requires CanStep(s, t)
  {
    var x := s.threads[t];
    State(NextChain(s, t), s.clock,
          s.threads[t := Thread(x.job, NextPc(s, t), if x.pc.LoadHead? then s.clock else x.begun, x.opNo)],
          s.answers + Answers(s, t), s.results + Results(s, t))
  }

  function Begin(s: State, t: nat, job: Job): State
    requires t < |s.threads|
  {
    s.(threads := s.threads[t := Thread(job, LoadHead, s.threads[t].begun, s.threads[t].opNo + 1)])
  }

  ghost predicate Next(s: State, s': State) {
    || (exists t: nat :: CanStep(s, t) && s' == Step(s, t))
    || (exists t: nat, job :: t < |s.threads| && s.threads[t].pc.Idle? && s' == Begin(s, t, job))
    || (exists c: int :: c >= s.clock && s' == s.(clock := c))
  }

  /** A new array has one version, without a timestamp. */
  predicate Initial(s: State) {
    && |s.chain| == 1 && s.chain[0].ts == -1 && s.chain[0].birth == s.clock >= 0
    && (forall t :: 0 <= t < |s.threads| ==> s.threads[t].pc.Idle? && s.threads[t].begun == 0)
    && s.answers == [] && s.results == []
  }

  // ----- invariant

  /** A timestamp is never below the clock at the version's birth, whoever sets it and whenever. */
  predicate VersionOk(v: Version, clock: int) {
    0 <= v.birth <= clock && (v.ts == -1 || v.birth <= v.ts <= clock)
  }

  /** A version that is not the newest has a timestamp, and the next one was born no earlier than that. */
  predicate LinkOk(v: Version, w: Version) {
    v.ts != -1 && v.ts <= w.birth
  }

  predicate ChainOk(chain: seq<Version>, clock: int) {
    && |chain| >= 1
    && (forall i :: 0 <= i < |chain| ==> VersionOk(chain[i], clock))
    && forall i :: 0 <= i < |chain| - 1 ==> LinkOk(chain[i], chain[i + 1])
  }

  /** A read at `at` passes this version by, now and later. */
  predicate Skips(v: Version, at: int) {
    if v.ts == -1 then v.birth >= at else v.ts >= at
  }

  predicate SkipsAbove(chain: seq<Version>, i: int, at: int) {
    forall j :: 0 <= j < |chain| && i < j ==> Skips(chain[j], at)
  }

  predicate BornSince(chain: seq<Version>, i: int, begun: int) {
    forall j :: 0 <= j < |chain| && i < j ==> chain[j].birth >= begun
  }

  predicate ThreadOk(chain: seq<Version>, clock: int, x: Thread) {
    match x.pc
    case Idle => true
    case LoadHead => true
    case InitRead(i, next) => i < |chain| && Suits(x.job, i, next) && (x.job.Snapshot? ==> BornSince(chain, i, x.begun))
    case InitClock(i, next) => i < |chain| && Suits(x.job, i, next) && (x.job.Snapshot? ==> BornSince(chain, i, x.begun))
    case InitCas(i, g, next) =>
      i < |chain| && Suits(x.job, i, next) && chain[i].birth <= g <= clock && (x.job.Snapshot? ==> BornSince(chain, i, x.begun))
    case CasHead(i) => i < |chain| && chain[i].ts != -1 && x.job.VCas?
    case Walk(at) =>
      && at < |chain| && x.job.Snapshot? && (at >= 0 ==> chain[at].ts != -1)
      && (x.begun >= x.job.at ==> SkipsAbove(chain, at, x.job.at))
    case LoadAgain => x.job.Peek?
  }

  /** Version `i` is what every read at `at` returns from now on; none at all if `i` is negative. */
  predicate Settled(chain: seq<Version>, at: int, i: int) {
    && i < |chain| && SkipsAbove(chain, i, at)
    && (i >= 0 ==> chain[i].ts != -1 && chain[i].ts < at)
  }

  ghost predicate AnswerOk(chain: seq<Version>, a: Answer) {
    a.begun >= a.at ==> exists i :: Settled(chain, a.at, i) && a.value == if i < 0 then -1 else chain[i].value
  }

  ghost predicate Inv(s: State) {
    && ChainOk(s.chain, s.clock)
    && (forall t :: 0 <= t < |s.threads| ==> ThreadOk(s.chain, s.clock, s.threads[t]) && s.threads[t].begun <= s.clock)
    && forall i :: 0 <= i < |s.answers| ==> AnswerOk(s.chain, s.answers[i]) && s.answers[i].begun <= s.clock
  }

  predicate Refines(v: Version, w: Version) {
    w.value == v.value && w.birth == v.birth && w.tid == v.tid && w.opNo == v.opNo && (w.ts == v.ts || (v.ts == -1 && v.birth <= w.ts))
  }

  /** Versions are only added in front, and only a missing timestamp is ever set. */
  predicate Grows(chain: seq<Version>, chain': seq<Version>, clock: int) {
    && |chain| <= |chain'| <= |chain| + 1
    && (forall i :: 0 <= i < |chain| ==> Refines(chain[i], chain'[i]))
    && forall i :: |chain| <= i < |chain'| ==> chain'[i].ts == -1 && chain'[i].birth == clock
  }

  lemma StepGrows(s: State, t: nat)
    requires Inv(s) && CanStep(s, t)
    ensures Grows(s.chain, NextChain(s, t), s.clock)
  {
    assert ThreadOk(s.chain, s.clock, s.threads[t]);
  }

  lemma StepChainOk(s: State, t: nat)
    requires Inv(s) && CanStep(s, t)
    ensures ChainOk(NextChain(s, t), s.clock)
  {
    var x, chain' := s.threads[t], NextChain(s, t);
    assert ThreadOk(s.chain, s.clock, x);
    forall i | 0 <= i < |chain'| ensures VersionOk(chain'[i], s.clock) {
      if i < |s.chain| { assert VersionOk(s.chain[i], s.clock); }
      else { assert VersionOk(s.chain[0], s.clock); }
    }
    forall i | 0 <= i < |chain'| - 1 ensures LinkOk(chain'[i], chain'[i + 1]) {
      if i < |s.chain| - 1 { assert LinkOk(s.chain[i], s.chain[i + 1]); }
      else { assert VersionOk(s.chain[i], s.clock); }
    }
  }

  lemma SkipsStays(chain: seq<Version>, chain': seq<Version>, clock: int, i: int, at: int)
    requires Grows(chain, chain', clock) && SkipsAbove(chain, i, at) && clock >= at
    ensures SkipsAbove(chain', i, at)
  {
    forall j | 0 <= j < |chain'| && i < j ensures Skips(chain'[j], at) {
      if j < |chain| { assert Skips(chain[j], at); }
    }
  }

  lemma BornStays(chain: seq<Version>, chain': seq<Version>, clock: int, i: int, begun: int)
    requires Grows(chain, chain', clock) && BornSince(chain, i, begun) && clock >= begun
    ensures BornSince(chain', i, begun)
  {
  }

  lemma AnswerStays(chain: seq<Version>, chain': seq<Version>, clock: int, a: Answer)
    requires Grows(chain, chain', clock) && AnswerOk(chain, a) && clock >= a.begun
    ensures AnswerOk(chain', a)
  {
    if a.begun >= a.at {
      var i :| Settled(chain, a.at, i) && a.value == if i < 0 then -1 else chain[i].value;
      SkipsStays(chain, chain', clock, i, a.at);
      assert Settled(chain', a.at, i);
    }
  }

  /** What another thread knows survives the step. */
  lemma OtherStays(chain: seq<Version>, chain': seq<Version>, clock: int, y: Thread)
    requires Grows(chain, chain', clock) && ThreadOk(chain, clock, y) && y.begun <= clock
    ensures ThreadOk(chain', clock, y)
  {
    if y.pc.InitRead? || y.pc.InitClock? || y.pc.InitCas? {
      if y.job.Snapshot? { BornStays(chain, chain', clock, y.pc.i, y.begun); }
      assert Refines(chain[y.pc.i], chain'[y.pc.i]);
    } else if y.pc.Walk? {
      if y.begun >= y.job.at { SkipsStays(chain, chain', clock, y.pc.at, y.job.at); }
      if y.pc.at >= 0 { assert Refines(chain[y.pc.at], chain'[y.pc.at]); }
    } else if y.pc.CasHead? {
      assert Refines(chain[y.pc.i], chain'[y.pc.i]);
    }
    hide SkipsAbove, BornSince;
  }

  /** Versions born since the head was loaded are passed by. */
  lemma BornSkips(chain: seq<Version>, clock: int, i: int, begun: int, at: int)
    requires ChainOk(chain, clock) && BornSince(chain, i, begun) && begun >= at
    ensures SkipsAbove(chain, i, at)
  {
    forall j | 0 <= j < |chain| && i < j ensures Skips(chain[j], at) {
      assert VersionOk(chain[j], clock);
    }
  }

  lemma StepThreadOk(s: State, t: nat)
    requires Inv(s) && CanStep(s, t)
    ensures ThreadOk(NextChain(s, t), s.clock, Step(s, t).threads[t])
  {
    var x := s.threads[t];
    assert ThreadOk(s.chain, s.clock, x);
    StepChainOk(s, t);
    StepGrows(s, t);
    hide Inv;
    if x.pc.InitRead? || x.pc.InitClock? || x.pc.InitCas? {
      var i := x.pc.i;
      assert VersionOk(s.chain[i], s.clock);
      if x.job.Snapshot? {
        BornStays(s.chain, NextChain(s, t), s.clock, i, x.begun);
        if x.begun >= x.job.at { BornSkips(NextChain(s, t), s.clock, i, x.begun, x.job.at); }
      }
      hide SkipsAbove, BornSince, ChainOk, Grows;
    } else if x.pc.Walk? && x.pc.at > 0 {
      assert LinkOk(s.chain[x.pc.at - 1], s.chain[x.pc.at]);
    }
  }

  lemma StepAnswers(s: State, t: nat)
    requires Inv(s) && CanStep(s, t)
    ensures forall i :: 0 <= i < |Answers(s, t)| ==> AnswerOk(s.chain, Answers(s, t)[i]) && Answers(s, t)[i].begun <= s.clock
  {
    var x := s.threads[t];
    assert ThreadOk(s.chain, s.clock, x);
    if x.pc.Walk? && Answers(s, t) != [] && x.begun >= x.job.at {
      assert Settled(s.chain, x.job.at, x.pc.at);
    }
  }

  lemma StepInv(s: State, t: nat)
    requires Inv(s) && CanStep(s, t)
    ensures Inv(Step(s, t))
  {
    var s' := Step(s, t);
    StepChainOk(s, t);
    StepGrows(s, t);
    StepThreadOk(s, t);
    StepAnswers(s, t);
    hide ChainOk, Grows, ThreadOk, AnswerOk, NextChain, NextPc, Answers, Results;
    forall u | 0 <= u < |s'.threads| ensures ThreadOk(s'.chain, s'.clock, s'.threads[u]) && s'.threads[u].begun <= s'.clock {
      if u != t { OtherStays(s.chain, s'.chain, s.clock, s.threads[u]); }
    }
    forall i | 0 <= i < |s'.answers| ensures AnswerOk(s'.chain, s'.answers[i]) && s'.answers[i].begun <= s'.clock {
      AnswerStays(s.chain, s'.chain, s.clock, s'.answers[i]);
    }
  }

  lemma TickInv(s: State, c: int)
    requires Inv(s) && c >= s.clock
    ensures Inv(s.(clock := c))
  {
    forall i | 0 <= i < |s.chain| ensures VersionOk(s.chain[i], c) { assert VersionOk(s.chain[i], s.clock); }
    forall t | 0 <= t < |s.threads| ensures ThreadOk(s.chain, c, s.threads[t]) {
      assert ThreadOk(s.chain, s.clock, s.threads[t]);
    }
    hide AnswerOk, ThreadOk;
  }

  lemma NextInv(s: State, s': State)
    requires Inv(s) && Next(s, s')
    ensures Inv(s')
  {
    if t: nat :| CanStep(s, t) && s' == Step(s, t) {
      hide Inv, Step;
      StepInv(s, t);
    } else if c: int :| c >= s.clock && s' == s.(clock := c) {
      hide Inv;
      TickInv(s, c);
    } else {
      hide AnswerOk, ChainOk;
    }
  }

  // ----- whole runs

  ghost predicate Run(run: seq<State>) {
    && |run| > 0 && Initial(run[0])
    && forall i :: 0 <= i < |run| - 1 ==> Next(run[i], run[i + 1])
  }

  lemma {:induction false} RunInv(run: seq<State>, i: nat)
    requires Run(run) && i < |run|
    ensures Inv(run[i])
  {
    hide Next;
    if i > 0 {
      RunInv(run, i - 1);
      hide Inv;
      NextInv(run[i - 1], run[i]);
    }
  }

  /** Every version but the newest has a timestamp, and timestamps never increase down the chain. */
  lemma {:induction false} TimestampsDescend(run: seq<State>, n: nat, i: nat, j: nat)
    requires Run(run) && n < |run| && i < j < |run[n].chain|
    ensures run[n].chain[i].ts != -1
    ensures run[n].chain[j].ts != -1 ==> run[n].chain[i].ts <= run[n].chain[j].ts
    decreases j
  {
    RunInv(run, n);
    hide Run;
    var chain := run[n].chain;
    assert LinkOk(chain[j - 1], chain[j]) && VersionOk(chain[j], run[n].clock);
    if i < j - 1 { TimestampsDescend(run, n, i, j - 1); }
  }

  lemma NextKeepsVersions(s: State, s': State, i: nat)
    requires Inv(s) && Next(s, s') && i < |s.chain|
    ensures i < |s'.chain| && Refines(s.chain[i], s'.chain[i])
    ensures |s.answers| <= |s'.answers| && s'.answers[..|s.answers|] == s.answers
  {
    if t: nat :| CanStep(s, t) && s' == Step(s, t) { StepGrows(s, t); }
    hide Inv;
  }

  /** A version's value never changes, and neither does its timestamp once it has one. */
  lemma {:induction false} TimestampsAreFixed(run: seq<State>, n: nat, m: nat, i: nat)
    requires Run(run) && n <= m < |run| && i < |run[n].chain|
    ensures i < |run[m].chain| && run[m].chain[i].value == run[n].chain[i].value
    ensures run[n].chain[i].ts != -1 ==> run[m].chain[i].ts == run[n].chain[i].ts
  {
    hide Next, Initial;
    if n < m {
      TimestampsAreFixed(run, n, m - 1, i);
      RunInv(run, m - 1);
      hide Inv;
      NextKeepsVersions(run[m - 1], run[m], i);
    }
  }

  lemma SettledUnique(chain: seq<Version>, at: int, i: int, j: int)
    requires Settled(chain, at, i) && Settled(chain, at, j)
    ensures i == j || (i < 0 && j < 0)
  {
  }

  /**
   A snapshot read begun when the clock had reached its time returned the value of the newest version stamped before that
   time, or -1 if there is none; this is so in every state from the answer on, so no later version comes before it.
   */
  lemma SnapshotIsNewestBefore(run: seq<State>, n: nat, a: nat)
    requires Run(run) && n < |run| && a < |run[n].answers| && run[n].answers[a].begun >= run[n].answers[a].at
    ensures exists i :: Settled(run[n].chain, run[n].answers[a].at, i) && AnswerIs(run[n].chain, i, run[n].answers[a].value)
    ensures forall j :: 0 <= j < |run[n].chain| && run[n].chain[j].ts != -1 && run[n].chain[j].ts < run[n].answers[a].at ==>
              exists i :: j <= i < |run[n].chain| && run[n].chain[i].ts != -1 && run[n].chain[i].ts < run[n].answers[a].at
                          && run[n].answers[a].value == run[n].chain[i].value
  {
    RunInv(run, n);
    hide Run;
    var chain, x := run[n].chain, run[n].answers[a];
    assert AnswerOk(chain, x);
    var i :| Settled(chain, x.at, i) && x.value == if i < 0 then -1 else chain[i].value;
    assert AnswerIs(chain, i, x.value);
    forall j | 0 <= j < |chain| && chain[j].ts != -1 && chain[j].ts < x.at ensures j <= i {
      var w := chain[j];
      assert !Skips(w, x.at);
    }
  }

  predicate AnswerIs(chain: seq<Version>, i: int, value: int)
    requires i < |chain|
  {
    value == if i < 0 then -1 else chain[i].value
  }

  /** Any two snapshot reads for the same time, both begun when the clock had reached it, return the same value: that of the settled version. */
  lemma SnapshotsAgree(run: seq<State>, n: nat, a: nat, b: nat)
    requires Run(run) && n < |run| && a < |run[n].answers| && b < |run[n].answers|
    requires var x, y := run[n].answers[a], run[n].answers[b]; x.at == y.at && x.begun >= x.at && y.begun >= y.at
    ensures run[n].answers[a].value == run[n].answers[b].value
    ensures exists i :: Settled(run[n].chain, run[n].answers[a].at, i) && AnswerIs(run[n].chain, i, run[n].answers[a].value)
  {
    SnapshotIsNewestBefore(run, n, a);
    SnapshotIsNewestBefore(run, n, b);
    var chain, x, y := run[n].chain, run[n].answers[a], run[n].answers[b];
    var i :| Settled(chain, x.at, i) && AnswerIs(chain, i, x.value);
    var j :| Settled(chain, y.at, j) && AnswerIs(chain, j, y.value);
    hide Settled, Run;
    SettledUnique(chain, x.at, i, j);
  }
}
