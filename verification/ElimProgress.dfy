/** Every operation on a leaf ends with one response, unless it splits a full leaf; and what an operation gets that runs alone. */
module ElimProgress {
  import opened Elim
  import opened ElimHistory
  import opened ElimSafety
  import opened ElimRun
  import opened ElimSize

  // ----- one response for each operation

  predicate RespOk(threads: seq<Thread>, r: Response) {
    && r.tid < |threads| && r.opNo <= threads[r.tid].opNo
    && (r.opNo == threads[r.tid].opNo ==> threads[r.tid].pc.Idle?)
  }

  predicate SameCall(r: Response, q: Response) { r.tid == q.tid && r.opNo == q.opNo }

  /** Responses come from operations that are over, and no operation has two. */
  predicate Responded(s: State) {
    && (forall a :: 0 <= a < |s.responses| ==> RespOk(s.threads, s.responses[a]))
    && forall a, b :: 0 <= a < b < |s.responses| ==> !SameCall(s.responses[a], s.responses[b])
  }

  /** A step ends the operation with a response, or by leaving a leaf that it has split, or does not end it. */
  lemma StepReturns(s: State, t: nat)
    requires CanStep(s, t) && !s.threads[t].pc.Idle?
    ensures var x := s.threads[t]; Returns(s.leaf, x).Some? <==> NextPc(s.leaf, x).Idle? && !x.pc.UnlockLeave?
  {
    hide NextLog, NextLeaf;
  }

  lemma IdleStays(s: State, t: nat)
    requires CanStep(s, t) && s.threads[t].pc.Idle?
    ensures Returns(s.leaf, s.threads[t]).None? && NextPc(s.leaf, s.threads[t]).Idle?
  {
  }

  lemma StepResponded(s: State, t: nat)
    requires Responded(s) && CanStep(s, t)
    ensures Responded(Step(s, t))
  {
    var s', x := Step(s, t), s.threads[t];
    if x.pc.Idle? { IdleStays(s, t); } else { StepReturns(s, t); }
    hide NextLog, NextLeaf, NextPc, Returns, CanStep;
    forall a | 0 <= a < |s'.responses| ensures RespOk(s'.threads, s'.responses[a]) {
      if a < |s.responses| { assert RespOk(s.threads, s.responses[a]); }
    }
    forall a, b | 0 <= a < b < |s'.responses| ensures !SameCall(s'.responses[a], s'.responses[b]) {
      if b == |s.responses| { assert RespOk(s.threads, s.responses[a]); }
    }
  }

  lemma NextResponded(s: State, s': State)
    requires Responded(s) && Next(s, s')
    ensures Responded(s')
  {
    hide Step;
    if t: nat :| CanStep(s, t) && s' == Step(s, t) {
      StepResponded(s, t);
    } else if t: nat, op :| t < |s.threads| && s.threads[t].pc.Idle? && OpOk(op) && s' == Invoke(s, t, op) {
      forall a | 0 <= a < |s'.responses| ensures RespOk(s'.threads, s'.responses[a]) { assert RespOk(s.threads, s.responses[a]); }
    }
  }

  lemma {:induction false} RunResponded(run: seq<State>, i: nat)
    requires Run(run) && i < |run|
    ensures Responded(run[i])
  {
    hide Next;
    if i > 0 {
      RunResponded(run, i - 1);
      hide Responded;
      NextResponded(run[i - 1], run[i]);
    }
  }

  // ----- leaving without a response

  /** The operation has found all slots used and is about to mark the leaf. */
  predicate FindsFull(s: State, t: nat, opNo: nat) {
    && t < |s.threads| && s.threads[t].opNo == opNo && |s.leaf.keys| == DEGREE
    && Overflows(s.leaf, s.threads[t]) && 0 !in s.leaf.keys
  }

  lemma LeavesFrom(s: State, s': State, t: nat)
    requires Next(s, s') && t < |s'.threads| && s'.threads[t].pc.UnlockLeave?
    ensures t < |s.threads| && s.threads[t].opNo == s'.threads[t].opNo
    ensures s.threads[t].pc.UnlockLeave? || (|s.leaf.keys| == DEGREE && Overflows(s.leaf, s.threads[t]) && s'.leaf.marked)
  {
    hide NextLog, Returns;
  }

  lemma {:induction false} LeavesOnlyFull(run: seq<State>, i: nat, t: nat) returns (m: nat)
    requires Run(run) && i < |run| && t < |run[i].threads| && run[i].threads[t].pc.UnlockLeave?
    ensures m + 1 < |run| && m < i && FindsFull(run[m], t, run[i].threads[t].opNo) && !run[m].leaf.marked && run[m + 1].leaf.marked
  {
    m := 0;
    if i > 0 {
      assert Next(run[i - 1], run[i - 1 + 1]);
      hide Next, Overflows, FindsFull;
      LeavesFrom(run[i - 1], run[i], t);
      if run[i - 1].threads[t].pc.UnlockLeave? {
        m := LeavesOnlyFull(run, i - 1, t);
      } else {
        m := i - 1;
        OverflowsFull(run, m, t);
      }
    }
  }

  lemma OverflowsFull(run: seq<State>, m: nat, t: nat)
    requires Run(run) && m < |run| && t < |run[m].threads| && |run[m].leaf.keys| == DEGREE && Overflows(run[m].leaf, run[m].threads[t])
    ensures FindsFull(run[m], t, run[m].threads[t].opNo) && !run[m].leaf.marked
  {
    SizeIsExact(run, m, t);
    hide Run, Used;
  }

  lemma EndingStep(s: State, s': State, t: nat)
    requires Next(s, s') && t < |s.threads| && t < |s'.threads| && !s.threads[t].pc.Idle? && s'.threads[t].pc.Idle?
    ensures CanStep(s, t) && s' == Step(s, t)
  {
    hide NextLog, Returns, NextPc, NextLeaf;
  }

  /**
   In every run, the step that ends an operation adds its one response; only an insertion that has found all slots used,
   and has marked the leaf for that, ends without one.
   */
  lemma EndsWithOneResponse(run: seq<State>, i: nat, t: nat)
    requires Run(run) && i + 1 < |run| && t < |run[i].threads| && t < |run[i + 1].threads|
    requires !run[i].threads[t].pc.Idle? && run[i + 1].threads[t].pc.Idle?
    ensures var s, s', x := run[i], run[i + 1], run[i].threads[t];
            if x.pc.UnlockLeave? then
              s'.responses == s.responses && exists m :: 0 <= m < i && FindsFull(run[m], t, x.opNo) && !run[m].leaf.marked && run[m + 1].leaf.marked
            else
              && |s'.responses| == |s.responses| + 1 && s'.responses[..|s.responses|] == s.responses
              && (var r := s'.responses[|s.responses|]; r.tid == t && r.opNo == x.opNo && r.op == x.op && r.start == x.start)
              && forall a :: 0 <= a < |s.responses| ==> !SameCall(s.responses[a], s'.responses[|s.responses|])
  {
    var s, s', x := run[i], run[i + 1], run[i].threads[t];
    assert Next(run[i], run[i + 1]);
    RunResponded(run, i + 1);
    if x.pc.UnlockLeave? {
      var m := LeavesOnlyFull(run, i, t);
    }
    hide Run, Next, FindsFull;
    EndingStep(s, s', t);
    StepReturns(s, t);
    hide NextLog, NextLeaf, Returns, NextPc, CanStep;
  }

  // ----- an operation that runs alone

  /** What the thread has read is still so, because nobody else moves. */
  predicate StillSo(leaf: Leaf, x: Thread) {
    match x.pc
    case Scan(v, _) => v == leaf.ver
    case ReadVal(v, _) => v == leaf.ver
    case Validate(v, _) => v == leaf.ver
    case AcqVer(v) => v == leaf.ver
    case AcqElimVer(v, w) => v == w == leaf.ver
    case AcqElimKey(v, w, ev) => v == w == leaf.ver && ev == leaf.elimVer
    case AcqElimVal(v, w, ev, ek) => v == w == leaf.ver && ev == leaf.elimVer && ek == leaf.elimKey
    case AcqCheck(v, w, ev, ek, _) => v == w == leaf.ver && ev == leaf.elimVer && ek == leaf.elimKey
    case _ => true
  }

  /** The operation has not changed the leaf yet. */
  predicate Untouched(pc: Pc) {
    !Writing(pc) && !pc.Unlock? && !pc.UnlockLeave? && !pc.UnlockRetry? && !pc.Stuck? && !pc.Idle?
  }

  /** An insertion for which there is no slot. */
  predicate NoRoom(s: State, op: Op) {
    op.Ins? && op.k !in s.leaf.keys && 0 !in s.leaf.keys
  }

  /** Everything that is known of a state reached in some run. */
  ghost predicate Reached(s: State) {
    Inv(s) && Times(s) && SizeOk(s.leaf, s.threads) && NoneStuck(s.threads)
  }

  /** Where thread `t` is in its operation `op`, begun in state `s0`. */
  ghost predicate AlonePlace(s0: State, s: State, t: nat, op: Op) {
    && t < |s.threads| && t < |s0.threads| && |s0.leaf.keys| == DEGREE && s.threads[t].op == op
    && s.threads[t].opNo == s0.threads[t].opNo + 1 && s.threads[t].start == s0.now
    && var x := s.threads[t];
       && s.leaf.holder == (if HoldsLock(x.pc) then Some(t) else None) && StillSo(s.leaf, x) && !x.pc.UnlockRetry?
       && (Untouched(x.pc) ==> s.leaf.keys == s0.leaf.keys && !s.leaf.marked)
  }

  /** What it has done so far. */
  ghost predicate AloneDone(s0: State, s: State, t: nat, op: Op)
    requires t < |s.threads| && t < |s0.threads|
  {
    var d, x := Dictionary(s0.log), s.threads[t];
    match x.pc
    case Idle =>
      if NoRoom(s0, op) then s.responses == s0.responses && s.leaf.marked
      else Answered(s0, s, t, op, d) && Dictionary(s.log) == After(d, op)
    case Unlock(r) => s.responses == s0.responses && r == Result(d, op) && Dictionary(s.log) == After(d, op) && !NoRoom(s0, op)
    case UnlockLeave => s.responses == s0.responses && NoRoom(s0, op) && s.leaf.marked
    case _ => s.responses == s0.responses && Dictionary(s.log) == d && (Writing(x.pc) || x.pc.Open? ==> !NoRoom(s0, op))
  }

  ghost predicate Alone(s0: State, s: State, t: nat, op: Op) {
    AlonePlace(s0, s, t, op) && AloneDone(s0, s, t, op)
  }

  ghost predicate Answered(s0: State, s: State, t: nat, op: Op, d: Dict)
    requires t < |s0.threads|
  {
    && |s.responses| == |s0.responses| + 1 && s.responses[..|s0.responses|] == s0.responses
    && var r := s.responses[|s0.responses|];
       r.tid == t && r.opNo == s0.threads[t].opNo + 1 && r.op == op && r.start == s0.now && r.res == Result(d, op)
  }

  /** A bound on the steps still to be made. */
  function StepsLeft(pc: Pc): nat {
    match pc
    case Idle => 0
    case ReadVer => DEGREE + 32
    case Scan(_, i) => if i <= DEGREE then 31 + DEGREE - i else 0
    case ReadVal(_, _) => 30
    case Validate(_, _) => 29
    case AcqVer(_) => 28
    case AcqElimVer(_, _) => 27
    case AcqElimKey(_, _, _) => 26
    case AcqElimVal(_, _, _, _) => 25
    case AcqCheck(_, _, _, _, _) => 24
    case TryLock(_) => 23
    case Locked => 22
    case Open(_) => 21
    case PutElimVer(_) => 20
    case PutElimKey(_) => 19
    case PutElimVal(_) => 18
    case PutKey(_, _) => 17
    case PutVal(_) => 16
    case PutSize(_, _) => 15
    case Close(_, _) => 14
    case Unlock(_) => 1
    case UnlockRetry => 0
    case UnlockLeave => 1
    case Stuck => 0
  }

  /** While nobody is writing the version is even. */
  lemma QuietVersion(s: State, t: nat)
    requires Inv(s) && t < |s.threads| && s.leaf.holder == (if HoldsLock(s.threads[t].pc) then Some(t) else None)
    ensures s.leaf.ver % 2 == 0 <==> !Writing(s.threads[t].pc)
  {
    assert ThreadOk(s.leaf, Dictionary(s.log), t, s.threads[t]);
    hide Dictionary, Legal, ContentOk;
  }

  /** The elimination record is older than the present version, so it is no use to an operation that runs alone. */
  lemma RecordIsOld(s: State, t: nat)
    requires Inv(s) && Times(s) && t < |s.threads| && s.leaf.holder.None? && StillSo(s.leaf, s.threads[t])
    ensures !Eliminates(s.threads[t], s.leaf)
  {
    var x, leaf := s.threads[t], s.leaf;
    assert ThreadOk(leaf, Dictionary(s.log), t, x);
    var p := Published(s.log, leaf.elimVer, leaf.elimKey, leaf.elimVal);
    assert p < |s.log| ==> s.log[p] in s.log && EntryOk(s, s.log[p]);
  }

  lemma AlwaysAStep(s: State, t: nat)
    requires Inv(s) && t < |s.threads|
    ensures CanStep(s, t)
  {
    assert ThreadOk(s.leaf, Dictionary(s.log), t, s.threads[t]);
    hide Dictionary, Legal, Rep;
  }

  /** The leaf and the thread's place after a step of an operation that runs alone. */
  lemma AloneMoves(leaf: Leaf, t: nat, x: Thread)
    requires |leaf.keys| == |leaf.vals| == DEGREE && !x.pc.Idle? && !x.pc.UnlockRetry? && !x.pc.Stuck? && !Eliminates(x, leaf)
    requires x.pc.ReadVal? || x.pc.PutElimVal? || x.pc.PutKey? || x.pc.PutVal? ==> x.pc.i < DEGREE
    requires leaf.holder == (if HoldsLock(x.pc) then Some(t) else None) && StillSo(leaf, x)
    requires leaf.ver % 2 == 0 <==> !Writing(x.pc)
    requires Untouched(x.pc) ==> !leaf.marked
    requires x.pc.Scan? ==> x.pc.i <= DEGREE
    requires !NextPc(leaf, x).Stuck?
    ensures var leaf', pc' := NextLeaf(leaf, t, x), NextPc(leaf, x);
            && leaf'.holder == (if HoldsLock(pc') then Some(t) else None) && StillSo(leaf', x.(pc := pc')) && !pc'.UnlockRetry?
            && (Untouched(pc') ==> Untouched(x.pc) && leaf'.keys == leaf.keys && !leaf'.marked)
            && StepsLeft(pc') < StepsLeft(x.pc)
            && (x.pc.UnlockLeave? || pc'.UnlockLeave? ==> leaf.marked ==> leaf'.marked)
            && (pc'.UnlockLeave? <==> Overflows(leaf, x)) && (pc'.UnlockLeave? ==> leaf'.marked)
            && ((pc'.Open? || Writing(pc')) ==> Writing(x.pc) || x.pc.Open? || x.pc.Locked?)
  {
  }

  /** The lock holder finds room exactly when there is some. */
  lemma RoomFound(s: State, t: nat)
    requires Reached(s) && CanStep(s, t) && s.threads[t].pc.Locked?
    ensures var x := s.threads[t];
            && (Overflows(s.leaf, x) ==> NoRoom(s, x.op))
            && (NextPc(s.leaf, x).Open? || NextPc(s.leaf, x).Unlock? ==> !NoRoom(s, x.op))
  {
    var x := s.threads[t];
    assert ThreadOk(s.leaf, Dictionary(s.log), t, x);
    UsedAll(s.leaf.keys);
    SlotOfIn(s.leaf.keys, x.op.k);
    SlotOfIn(s.leaf.keys, 0);
    hide Inv, Times, Used, Dictionary;
  }

  /** A search that has found its key proves that the key is in a slot. */
  lemma FoundInSlot(s: State, t: nat)
    requires Inv(s) && CanStep(s, t) && s.threads[t].pc.Validate? && StillSo(s.leaf, s.threads[t]) && s.leaf.ver % 2 == 0
    requires NextPc(s.leaf, s.threads[t]).Idle?
    ensures !NoRoom(s, s.threads[t].op)
  {
    var x, d := s.threads[t], Dictionary(s.log);
    assert ThreadOk(s.leaf, d, t, x);
    QuietRep(s.leaf, s.threads, s.log, d);
    hide Dictionary, Legal, ContentOk, ElimOk;
  }

  /** What the step does to the history and the responses. */
  lemma AloneLogs(s: State, t: nat)
    requires Inv(s) && CanStep(s, t) && !s.threads[t].pc.Idle? && !Eliminates(s.threads[t], s.leaf)
    ensures var x, d, s' := s.threads[t], Dictionary(s.log), Step(s, t);
            && (Appends(s.leaf, x).None? ==> Dictionary(s'.log) == d)
            && (Appends(s.leaf, x).Some? ==> Appends(s.leaf, x).value == Result(d, x.op) && Dictionary(s'.log) == After(d, x.op))
  {
    StepLegal(s, t);
    if Appends(s.leaf, s.threads[t]).Some? { AppendsRight(s, t); }
    hide Inv, Dictionary, Legal;
  }

  lemma AnswerPlaces(leaf: Leaf, x: Thread)
    requires |leaf.keys| == |leaf.vals| == DEGREE && (x.pc.ReadVal? || x.pc.PutElimVal? ==> x.pc.i < DEGREE)
    requires !x.pc.Idle? && !Eliminates(x, leaf)
    ensures var pc' := NextPc(leaf, x);
            && (pc'.Unlock? <==> Appends(leaf, x).Some? && !x.pc.Validate?)
            && (pc'.Unlock? ==> Appends(leaf, x) == Some(pc'.r) && (x.pc.Locked? || x.pc.Close?))
            && (pc'.Idle? <==> x.pc.Unlock? || x.pc.UnlockLeave? || (x.pc.Validate? && Appends(leaf, x).Some?))
            && Returns(leaf, x) == (if x.pc.Validate? then Appends(leaf, x) else if x.pc.Unlock? then Some(x.pc.r) else None)
  {
  }

  lemma StepPlace(s0: State, s: State, t: nat, op: Op)
    requires Reached(s) && AlonePlace(s0, s, t, op) && !s.threads[t].pc.Idle? && CanStep(s, t)
    ensures AlonePlace(s0, Step(s, t), t, op) && StepsLeft(Step(s, t).threads[t].pc) < StepsLeft(s.threads[t].pc)
    ensures !Eliminates(s.threads[t], s.leaf)
    ensures var x, pc' := s.threads[t], Step(s, t).threads[t].pc;
            && (pc'.UnlockLeave? <==> Overflows(s.leaf, x)) && (pc'.UnlockLeave? ==> Step(s, t).leaf.marked)
            && (pc'.Open? || Writing(pc') ==> Writing(x.pc) || x.pc.Open? || x.pc.Locked?)
            && (x.pc.UnlockLeave? && s.leaf.marked ==> Step(s, t).leaf.marked)
  {
    var x, s' := s.threads[t], Step(s, t);
    assert ThreadOk(s.leaf, Dictionary(s.log), t, x) && ReaderOk(s.leaf, x, Dictionary(s.log));
    QuietVersion(s, t);
    if s.leaf.holder.None? { RecordIsOld(s, t); }
    StepSize(s, t);
    assert !s'.threads[t].pc.Stuck?;
    hide Inv, Times, SizeOk, Dictionary, NextLog, ThreadOk, Returns;
    AloneMoves(s.leaf, t, x);
    hide NextLeaf, NextPc, StillSo, Eliminates, StepsLeft, Overflows;
  }

  lemma StepDone(s0: State, s: State, t: nat, op: Op)
    requires Reached(s) && Alone(s0, s, t, op) && !s.threads[t].pc.Idle? && CanStep(s, t)
    ensures AloneDone(s0, Step(s, t), t, op)
  {
    var x, s' := s.threads[t], Step(s, t);
    StepPlace(s0, s, t, op);
    QuietVersion(s, t);
    AloneLogs(s, t);
    if x.pc.Locked? { RoomFound(s, t); }
    if x.pc.Validate? && NextPc(s.leaf, x).Idle? { FoundInSlot(s, t); }
    hide Inv, Times, SizeOk, Dictionary, NextLog, Overflows, StepsLeft, StillSo;
    AnswerPlaces(s.leaf, x);
    hide NextLeaf, NextPc, Returns, Appends, Eliminates;
  }

  lemma AloneStep(s0: State, s: State, t: nat, op: Op)
    requires Reached(s) && Alone(s0, s, t, op) && !s.threads[t].pc.Idle? && CanStep(s, t)
    ensures Alone(s0, Step(s, t), t, op) && StepsLeft(Step(s, t).threads[t].pc) < StepsLeft(s.threads[t].pc)
  {
    hide Reached, AlonePlace, AloneDone, CanStep, Step, StepsLeft;
    StepPlace(s0, s, t, op);
    StepDone(s0, s, t, op);
  }

  // ----- whole runs of one thread alone

  ghost predicate AloneRun(run: seq<State>, t: nat) {
    |run| > 0 && forall i :: 0 <= i < |run| - 1 ==> AloneNext(run[i], run[i + 1], t)
  }

  ghost predicate AloneNext(s: State, s': State, t: nat) {
    CanStep(s, t) && !s.threads[t].pc.Idle? && s' == Step(s, t)
  }

  lemma StepReached(s: State, t: nat)
    requires Reached(s) && CanStep(s, t)
    ensures Reached(Step(s, t))
  {
    hide Inv, Times, SizeOk, NoneStuck, Step;
    StepInv(s, t);
    StepTimes(s, t);
    StepSize(s, t);
  }

  lemma {:induction false} AloneKept(s0: State, run: seq<State>, t: nat, op: Op, i: nat)
    requires AloneRun(run, t) && i < |run| && Reached(run[0]) && Alone(s0, run[0], t, op)
    ensures Reached(run[i]) && Alone(s0, run[i], t, op) && StepsLeft(run[i].threads[t].pc) + i <= StepsLeft(run[0].threads[t].pc)
  {
    if i > 0 {
      AloneKept(s0, run, t, op, i - 1);
      assert AloneNext(run[i - 1], run[i - 1 + 1], t);
      hide Reached, Alone, Step, CanStep, StepsLeft;
      StepReached(run[i - 1], t);
      AloneStep(s0, run[i - 1], t, op);
    }
  }

  lemma InvokedAlone(s: State, t: nat, op: Op)
    requires Reached(s) && t < |s.threads| && s.threads[t].pc.Idle? && OpOk(op) && s.leaf.holder.None? && !s.leaf.marked
    ensures Reached(Invoke(s, t, op)) && Alone(s, Invoke(s, t, op), t, op)
  {
    var s' := Invoke(s, t, op);
    assert s.leaf.holder.None?;
    assert |s.leaf.keys| == DEGREE;
    assert SizeOk(s'.leaf, s'.threads) && NoneStuck(s'.threads);
    hide Used, Dictionary, Legal;
    InvokeInv(s, t, op);
    InvokeTimes(s, t, op);
  }

  lemma RunReached(run: seq<State>, i: nat)
    requires Run(run) && i < |run|
    ensures Reached(run[i])
  {
    RunKeeps(run, i);
    RunSize(run, i);
    hide Run, Inv, Times, SizeOk, NoneStuck;
  }

  /**
   An operation begun in any state of any run, on a leaf that is neither locked nor marked, and left to run alone, can go
   on until it ends, after at most DEGREE + 32 steps.  It returns what it should by the dictionary in the slots and leaves
   the slots holding what it should; only an insertion of an absent key into a full leaf marks the leaf and returns nothing.
   */
  lemma AloneAnswers(pre: seq<State>, t: nat, op: Op, run: seq<State>)
    requires Run(pre) && t < |pre[|pre| - 1].threads| && OpOk(op) && AloneRun(run, t)
    requires var s := pre[|pre| - 1]; s.threads[t].pc.Idle? && s.leaf.holder.None? && !s.leaf.marked && run[0] == Invoke(s, t, op)
    ensures |run| <= DEGREE + 33
    ensures var s, s' := pre[|pre| - 1], run[|run| - 1];
            var d := Dictionary(s.log);
            && Rep(s.leaf.keys, s.leaf.vals, d) && CanStep(s', t)
            && (s'.threads[t].pc.Idle? ==>
                if op.Ins? && op.k !in d && 0 !in s.leaf.keys
                then s'.responses == s.responses && s'.leaf.marked
                else Answered(s, s', t, op, d) && Rep(s'.leaf.keys, s'.leaf.vals, After(d, op)))
  {
    var s, s' := pre[|pre| - 1], run[|run| - 1];
    RunReached(pre, |pre| - 1);
    hide Run;
    InvokedAlone(s, t, op);
    AloneKept(s, run, t, op, |run| - 1);
    AlwaysAStep(s', t);
    assert ThreadOk(s.leaf, Dictionary(s.log), t, s.threads[t]);
    QuietVersion(s, t);
    QuietRep(s.leaf, s.threads, s.log, Dictionary(s.log));
    RoomIs(s, op);
    if s'.threads[t].pc.Idle? {
      QuietVersion(s', t);
      QuietRep(s'.leaf, s'.threads, s'.log, Dictionary(s'.log));
    }
    hide Inv, Times, SizeOk, Rep, Dictionary, NoneStuck, NoRoom;
  }

  lemma RoomIs(s: State, op: Op)
    requires OpOk(op) && Rep(s.leaf.keys, s.leaf.vals, Dictionary(s.log))
    ensures NoRoom(s, op) <==> op.Ins? && op.k !in Dictionary(s.log) && 0 !in s.leaf.keys
  {
    Lookup(s.leaf.keys, s.leaf.vals, Dictionary(s.log), op.k);
    hide Dictionary;
  }
}
