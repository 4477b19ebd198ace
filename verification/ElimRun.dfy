/** Linearizability of every run on one leaf, with each operation placed inside its own interval. */
module ElimRun {
  import opened Elim
  import opened ElimHistory
  import opened ElimSafety

  /** The version with which the present search of a thread began. */
  function FromVer(pc: Pc): Option<nat> {
    match pc
    case Scan(v, _) => Some(v)
    case ReadVal(v, _) => Some(v)
    case Validate(v, _) => Some(v)
    case AcqVer(v) => Some(v)
    case AcqElimVer(v, _) => Some(v)
    case AcqElimKey(v, _, _) => Some(v)
    case AcqElimVal(v, _, _, _) => Some(v)
    case AcqCheck(v, _, _, _, _) => Some(v)
    case TryLock(v) => Some(v)
    case _ => None
  }

  predicate Changes(e: Entry) { (e.op.Ins? && e.res.None?) || (e.op.Del? && e.res.Some?) }

  /** An entry lies in the interval of its operation so far, and carries the version if it is an update. */
  predicate EntryOk(s: State, e: Entry) {
    && e.start <= e.time < s.now && (e.tag > 0 ==> e.tag < s.leaf.ver) && (Changes(e) ==> e.tag > 0)
    && e.tid < |s.threads| && e.opNo <= s.threads[e.tid].opNo
  }

  /** Updates closed since the thread's search began are inside its interval. */
  predicate Since(x: Thread, e: Entry) {
    FromVer(x.pc).Some? && e.tag > 0 && FromVer(x.pc).value <= e.tag ==> x.start <= e.time
  }

  /** An operation under way is not in the history before it has taken effect. */
  predicate NotYet(t: nat, x: Thread, e: Entry) {
    e.tid == t && e.opNo == x.opNo ==> x.pc.Idle? || x.pc.Unlock?
  }

  predicate SameOp(e: Entry, f: Entry) { e.tid == f.tid && e.opNo == f.opNo }

  predicate Unique(log: seq<Entry>) {
    forall i, j :: 0 <= i < j < |log| ==> !SameOp(log[i], log[j])
  }

  predicate Placed(log: seq<Entry>, r: Response) {
    exists e :: e in log && Matches(e, r)
  }

  predicate Matches(e: Entry, r: Response) {
    && e.tid == r.tid && e.opNo == r.opNo && e.op == r.op && e.res == r.res && e.start == r.start
    && r.start <= e.time <= r.end
  }

  /** An update that is closed waits to return with the result it has in the history. */
  predicate UnlockOk(s: State, t: nat, x: Thread) {
    x.pc.Unlock? ==> Placed(s.log, Response(t, x.opNo, x.op, x.pc.r, x.start, s.now))
  }

  ghost predicate Times(s: State) {
    && InTimeOrder(s.log) && Unique(s.log)
    && (forall e :: e in s.log ==> EntryOk(s, e))
    && (forall t :: 0 <= t < |s.threads| ==> s.threads[t].start <= s.now && UnlockOk(s, t, s.threads[t]))
    && (forall t, e :: 0 <= t < |s.threads| && e in s.log ==> Since(s.threads[t], e) && NotYet(t, s.threads[t], e))
    && forall i :: 0 <= i < |s.responses| ==> Placed(s.log, s.responses[i])
  }

  // ----- the new entry of a step

  predicate Adds(s: State, t: nat)
    requires CanStep(s, t)
  {
    Appends(s.leaf, s.threads[t]).Some? || Eliminates(s.threads[t], s.leaf)
  }

  function Added(s: State, t: nat): (int, Entry)
    requires CanStep(s, t)
  {
    var x := s.threads[t];
    var r := Appends(s.leaf, x);
    if r.Some? then
      (|s.log|, Entry(t, x.opNo, x.op, r.value, s.now, x.start, if x.pc.Close? then s.leaf.ver else 0))
    else if Eliminates(x, s.leaf) then
      var p := Published(s.log, x.pc.ev, x.pc.ek, x.pc.el);
      if p == |s.log| then (0, Entry(t, 0, x.op, None, 0, 0, 0))
      else (Beside(s.log, p, x.op), Entry(t, x.opNo, x.op, EliminatedResult(x), s.log[p].time, x.start, 0))
    else (0, Entry(t, 0, x.op, None, 0, 0, 0))
  }

  lemma NextLogIs(s: State, t: nat)
    requires Inv(s) && CanStep(s, t)
    ensures Adds(s, t) ==> 0 <= Added(s, t).0 <= |s.log| && NextLog(s, t) == InsertAt(s.log, Added(s, t).0, Added(s, t).1)
    ensures !Adds(s, t) ==> NextLog(s, t) == s.log
  {
    if Eliminates(s.threads[t], s.leaf) { ElimFinds(s, t); }
    hide Inv, Appends;
  }

  lemma InInserted(log: seq<Entry>, q: nat, n: Entry, e: Entry)
    requires q <= |log|
    ensures e in InsertAt(log, q, n) <==> e in log || e == n
  {
    if e in log {
      var i :| 0 <= i < |log| && log[i] == e;
      assert InsertAt(log, q, n)[if i < q then i else i + 1] == e;
    }
    assert InsertAt(log, q, n)[q] == n;
  }

  /** The new entry lies between the invocation and now: an eliminated one because its partner does. */
  lemma AddedInInterval(s: State, t: nat)
    requires Inv(s) && Times(s) && CanStep(s, t) && Adds(s, t)
    ensures var x, e := s.threads[t], Added(s, t).1;
            && e.tid == t && e.opNo == x.opNo && e.op == x.op && e.start == x.start && x.start <= e.time <= s.now
            && e.tag == (if x.pc.Close? then s.leaf.ver else 0) && (Changes(e) ==> x.pc.Close?)
            && InTimeOrder(NextLog(s, t))
  {
    var x := s.threads[t];
    NextLogIs(s, t);
    if Appends(s.leaf, x).Some? {
      assert ThreadOk(s.leaf, Dictionary(s.log), t, x);
      AppendTime(s, t);
      hide Inv, Times;
    } else {
      ElimFinds(s, t);
      hide Inv, Appends;
      var p := Published(s.log, x.pc.ev, x.pc.ek, x.pc.el);
      assert s.log[p] in s.log;
      assert EntryOk(s, s.log[p]) && Since(x, s.log[p]);
      InsertInTimeOrder(s.log, p, Added(s, t).0, Added(s, t).1);
    }
  }

  lemma AppendTime(s: State, t: nat)
    requires Inv(s) && Times(s) && CanStep(s, t) && Appends(s.leaf, s.threads[t]).Some?
    ensures InTimeOrder(NextLog(s, t))
  {
    hide Inv, Appends, EntryOk;
    var log' := NextLog(s, t);
    forall i, j | 0 <= i < j < |log'| ensures log'[i].time <= log'[j].time {
      assert s.log[i] in s.log;
      assert s.log[i].time < s.now by { EntryTime(s, s.log[i]); }
    }
  }

  lemma EntryTime(s: State, e: Entry)
    requires EntryOk(s, e)
    ensures e.time < s.now
  {
  }

  // ----- what a step keeps

  lemma VersionMoves(s: State, t: nat)
    requires Inv(s) && CanStep(s, t)
    ensures var x, v, v' := s.threads[t], s.leaf.ver, Step(s, t).leaf.ver;
            && v <= v' && (x.pc.Close? ==> v % 2 == 1 && v' == v + 1)
            && (v' > v ==> v' == v + 1 && (x.pc.Close? || (x.pc.Open? && v % 2 == 0)))
  {
    assert ThreadOk(s.leaf, Dictionary(s.log), t, s.threads[t]);
    assert s.threads[t].pc.Open? ==> !Busy(s.leaf, s.threads);
    hide Dictionary, Legal, ContentOk, ReaderOk, NextLog, NextPc, Returns;
  }

  lemma StepEntryOk(s: State, t: nat, e: Entry)
    requires Inv(s) && Times(s) && CanStep(s, t) && e in NextLog(s, t)
    ensures EntryOk(Step(s, t), e)
  {
    NextLogIs(s, t);
    VersionMoves(s, t);
    StepCounts(s, t);
    hide Step, NextLog, Added, Inv, Appends;
    if e in s.log {
      assert EntryOk(s, e);
      hide Times, Adds;
    } else {
      InInserted(s.log, Added(s, t).0, Added(s, t).1, e);
      AddedInInterval(s, t);
      hide Times, Adds;
    }
  }

  lemma StepCounts(s: State, t: nat)
    requires CanStep(s, t)
    ensures Step(s, t).now == s.now + 1 && |Step(s, t).threads| == |s.threads|
    ensures forall u :: 0 <= u < |s.threads| ==> Step(s, t).threads[u].opNo == s.threads[u].opNo
  {
    hide NextLog, Returns, NextLeaf, NextPc;
  }

  lemma StepSince(s: State, t: nat, u: nat, e: Entry)
    requires Inv(s) && Times(s) && CanStep(s, t) && u < |s.threads| && e in NextLog(s, t)
    ensures Since(Step(s, t).threads[u], e)
  {
    var x, y := s.threads[t], s.threads[u];
    NextLogIs(s, t);
    if Adds(s, t) {
      InInserted(s.log, Added(s, t).0, Added(s, t).1, e);
      AddedInInterval(s, t);
    }
    if e in s.log { assert EntryOk(s, e) && Since(y, e); }
    assert y.start <= s.now;
    hide Inv, Times, NextLog, Returns, Added, NextLeaf, Adds;
    if u == t { FromVerKept(s.leaf, x); }
  }

  /** The version of a search is the one read when it began. */
  lemma FromVerKept(leaf: Leaf, x: Thread)
    requires |leaf.keys| == |leaf.vals| == DEGREE && (x.pc.ReadVal? || x.pc.PutElimVal? ==> x.pc.i < DEGREE)
    ensures var w := FromVer(NextPc(leaf, x)); w.Some? ==> w == FromVer(x.pc) || (x.pc.ReadVer? && w.value == leaf.ver)
    ensures x.pc.Close? ==> FromVer(NextPc(leaf, x)).None?
  {
  }

  lemma StepNotYet(s: State, t: nat, u: nat, e: Entry)
    requires Inv(s) && Times(s) && CanStep(s, t) && u < |s.threads| && e in NextLog(s, t)
    ensures NotYet(u, Step(s, t).threads[u], e)
  {
    var x, y := s.threads[t], s.threads[u];
    NextLogIs(s, t);
    if Adds(s, t) {
      InInserted(s.log, Added(s, t).0, Added(s, t).1, e);
      AddedInInterval(s, t);
      hide Inv;
      AddsEnds(s, t);
    }
    if e in s.log { assert NotYet(u, y, e); }
    hide Inv, Times, NextLog, Returns, Added, NextLeaf, Adds;
    if u == t { StaysDone(s.leaf, x); }
  }

  /** An operation that takes its place in the history has not done so before, and is about to return. */
  lemma AddsEnds(s: State, t: nat)
    requires CanStep(s, t) && Adds(s, t)
    ensures var x := s.threads[t]; !x.pc.Idle? && !x.pc.Unlock?
    ensures var pc := NextPc(s.leaf, s.threads[t]); pc.Idle? || pc.Unlock?
    ensures var pc := NextPc(s.leaf, s.threads[t]);
            pc.Unlock? ==> Appends(s.leaf, s.threads[t]) == Some(pc.r)
  {
  }

  lemma StaysDone(leaf: Leaf, x: Thread)
    requires |leaf.keys| == |leaf.vals| == DEGREE && (x.pc.ReadVal? || x.pc.PutElimVal? ==> x.pc.i < DEGREE)
    ensures x.pc.Idle? || x.pc.Unlock? ==> NextPc(leaf, x).Idle?
  {
  }

  lemma StepUnique(s: State, t: nat)
    requires Inv(s) && Times(s) && CanStep(s, t)
    ensures Unique(NextLog(s, t))
  {
    NextLogIs(s, t);
    if Adds(s, t) {
      var q, n := Added(s, t).0, Added(s, t).1;
      AddedInInterval(s, t);
      AddsEnds(s, t);
      forall e | e in s.log ensures !SameOp(e, n) { assert NotYet(t, s.threads[t], e); }
      hide Inv, Times, Added, Adds, NextLog;
      InsertUnique(s.log, q, n);
    }
  }

  lemma InsertUnique(log: seq<Entry>, q: nat, n: Entry)
    requires q <= |log| && Unique(log) && forall e :: e in log ==> !SameOp(e, n)
    ensures Unique(InsertAt(log, q, n))
  {
    var log' := InsertAt(log, q, n);
    InsertedLength(log, q, n);
    hide InsertAt;
    forall i, j | 0 <= i < j < |log'| ensures !SameOp(log'[i], log'[j]) {
      InsertedAt(log, q, n, i);
      InsertedAt(log, q, n, j);
      if i != q { assert log'[i] in log; }
      if j != q { assert log'[j] in log; }
    }
  }

  lemma PlacedStays(s: State, t: nat, r: Response)
    requires CanStep(s, t) && Placed(s.log, r)
    ensures Placed(NextLog(s, t), r)
  {
    var e :| e in s.log && Matches(e, r);
    LogGrows(s, t, e);
  }

  /** The response of a step is the result that the operation has in the history. */
  lemma StepPlaced(s: State, t: nat)
    requires Inv(s) && Times(s) && CanStep(s, t) && Returns(s.leaf, s.threads[t]).Some?
    ensures var x := s.threads[t];
            Placed(NextLog(s, t), Response(t, x.opNo, x.op, Returns(s.leaf, x).value, x.start, s.now))
  {
    var x := s.threads[t];
    var r := Response(t, x.opNo, x.op, Returns(s.leaf, x).value, x.start, s.now);
    if x.pc.Unlock? {
      assert UnlockOk(s, t, x);
      hide Inv, Times, Placed;
      PlacedStays(s, t, r);
    } else {
      assert Adds(s, t);
      NextLogIs(s, t);
      AddedInInterval(s, t);
      var e := Added(s, t).1;
      InInserted(s.log, Added(s, t).0, e, e);
      AddedResult(s, t);
      hide Inv, Times, Added, Adds, NextLog, Returns;
      assert Matches(e, r);
    }
  }

  lemma AddedResult(s: State, t: nat)
    requires Inv(s) && CanStep(s, t) && Adds(s, t)
    ensures Returns(s.leaf, s.threads[t]).Some? ==> Added(s, t).1.res == Returns(s.leaf, s.threads[t]).value || s.threads[t].pc.Unlock?
    ensures Appends(s.leaf, s.threads[t]).Some? ==> Added(s, t).1.res == Appends(s.leaf, s.threads[t]).value
  {
    if Eliminates(s.threads[t], s.leaf) { ElimFinds(s, t); }
    hide Inv;
  }

  lemma StepUnlockOk(s: State, t: nat, u: nat)
    requires Inv(s) && Times(s) && CanStep(s, t) && u < |s.threads|
    ensures UnlockOk(Step(s, t), u, Step(s, t).threads[u])
  {
    var x, y := s.threads[t], s.threads[u];
    if u != t {
      if y.pc.Unlock? {
        assert UnlockOk(s, u, y);
        hide Inv, Times, Placed, NextLog, Returns, NextLeaf, NextPc;
        var r := Response(u, y.opNo, y.op, y.pc.r, y.start, s.now);
        PlacedStays(s, t, r);
        LaterPlaced(NextLog(s, t), r, s.now + 1);
      }
    } else if NextPc(s.leaf, x).Unlock? {
      UnlockAdds(s.leaf, x);
      assert Adds(s, t);
      NextLogIs(s, t);
      AddedInInterval(s, t);
      AddedResult(s, t);
      var e := Added(s, t).1;
      InInserted(s.log, Added(s, t).0, e, e);
      hide Inv, Times, Added, Adds, NextLog, Returns, NextLeaf;
      assert Matches(e, Response(t, x.opNo, x.op, NextPc(s.leaf, x).r, x.start, s.now + 1));
    }
  }

  lemma UnlockAdds(leaf: Leaf, x: Thread)
    requires |leaf.keys| == |leaf.vals| == DEGREE && (x.pc.ReadVal? || x.pc.PutElimVal? ==> x.pc.i < DEGREE)
    ensures NextPc(leaf, x).Unlock? ==> Appends(leaf, x) == Some(NextPc(leaf, x).r)
  {
  }

  lemma LaterPlaced(log: seq<Entry>, r: Response, end: nat)
    requires Placed(log, r) && end >= r.end
    ensures Placed(log, r.(end := end))
  {
    var e :| e in log && Matches(e, r);
    assert Matches(e, r.(end := end));
  }

  lemma StepTimes(s: State, t: nat)
    requires Inv(s) && Times(s) && CanStep(s, t)
    ensures Times(Step(s, t))
  {
    var s' := Step(s, t);
    assert s'.log == NextLog(s, t);
    NextLogIs(s, t);
    if Adds(s, t) { AddedInInterval(s, t); }
    StepUnique(s, t);
    StepResponses(s, t);
    assert forall u :: 0 <= u < |s'.threads| ==> s'.threads[u].start <= s'.now;
    hide Inv, Step, EntryOk, Since, NotYet, UnlockOk, Placed, Unique, InTimeOrder, NextLog, Added, Adds;
    forall e | e in s'.log ensures EntryOk(s', e) { StepEntryOk(s, t, e); }
    forall u | 0 <= u < |s'.threads| ensures UnlockOk(s', u, s'.threads[u]) { StepUnlockOk(s, t, u); }
    forall u, e | 0 <= u < |s'.threads| && e in s'.log ensures Since(s'.threads[u], e) && NotYet(u, s'.threads[u], e) {
      StepSince(s, t, u, e);
      StepNotYet(s, t, u, e);
    }
  }

  lemma StepResponses(s: State, t: nat)
    requires Inv(s) && Times(s) && CanStep(s, t)
    ensures forall i :: 0 <= i < |Step(s, t).responses| ==> Placed(Step(s, t).log, Step(s, t).responses[i])
  {
    var s' := Step(s, t);
    if Returns(s.leaf, s.threads[t]).Some? { StepPlaced(s, t); }
    forall i | 0 <= i < |s'.responses| ensures Placed(s'.log, s'.responses[i]) {
      if i < |s.responses| { PlacedStays(s, t, s.responses[i]); }
    }
  }

  // ----- whole runs

  lemma InvokeTimes(s: State, t: nat, op: Op)
    requires Times(s) && t < |s.threads| && s.threads[t].pc.Idle?
    ensures Times(Invoke(s, t, op))
  {
    var s' := Invoke(s, t, op);
    forall e | e in s'.log ensures EntryOk(s', e) { assert EntryOk(s, e); }
    forall u | 0 <= u < |s'.threads| ensures UnlockOk(s', u, s'.threads[u]) {
      assert UnlockOk(s, u, s.threads[u]);
      if u != t && s.threads[u].pc.Unlock? {
        var y := s.threads[u];
        LaterPlaced(s.log, Response(u, y.opNo, y.op, y.pc.r, y.start, s.now), s'.now);
      }
      hide Placed;
    }
    forall u, e | 0 <= u < |s'.threads| && e in s'.log ensures Since(s'.threads[u], e) && NotYet(u, s'.threads[u], e) {
      assert EntryOk(s, e) && Since(s.threads[u], e) && NotYet(u, s.threads[u], e);
    }
    hide Placed, EntryOk, Since, NotYet, UnlockOk;
  }

  lemma MarkTimes(s: State)
    requires Times(s)
    ensures Times(MarkLeaf(s))
  {
    var s' := MarkLeaf(s);
    forall e | e in s'.log ensures EntryOk(s', e) { assert EntryOk(s, e); }
    forall u | 0 <= u < |s'.threads| ensures UnlockOk(s', u, s'.threads[u]) {
      assert UnlockOk(s, u, s.threads[u]);
      if s.threads[u].pc.Unlock? {
        var y := s.threads[u];
        LaterPlaced(s.log, Response(u, y.opNo, y.op, y.pc.r, y.start, s.now), s'.now);
      }
      hide Placed;
    }
    hide Placed, EntryOk, Since, NotYet, UnlockOk;
  }

  lemma NextKeeps(s: State, s': State)
    requires Inv(s) && Times(s) && Next(s, s')
    ensures Inv(s') && Times(s')
  {
    hide Inv, Times, Step, Invoke, MarkLeaf;
    if t: nat :| CanStep(s, t) && s' == Step(s, t) {
      StepInv(s, t);
      StepTimes(s, t);
    } else if t: nat, op :| t < |s.threads| && s.threads[t].pc.Idle? && OpOk(op) && s' == Invoke(s, t, op) {
      InvokeInv(s, t, op);
      InvokeTimes(s, t, op);
    } else {
      MarkInv(s);
      MarkTimes(s);
    }
  }

  ghost predicate Run(run: seq<State>) {
    && |run| > 0 && Initial(run[0]) && (forall t :: 0 <= t < |run[0].threads| ==> run[0].threads[t].start <= run[0].now)
    && forall i :: 0 <= i < |run| - 1 ==> Next(run[i], run[i + 1])
  }

  lemma {:induction false} RunKeeps(run: seq<State>, i: nat)
    requires Run(run) && i < |run|
    ensures Inv(run[i]) && Times(run[i])
  {
    hide Next;
    if i == 0 {
      InitialInv(run[0]);
    } else {
      RunKeeps(run, i - 1);
      NextKeeps(run[i - 1], run[i]);
      hide Inv, Times;
    }
  }

  /**
   In every run on one leaf there is one sequential history, legal and in time order, that holds every completed
   operation exactly once, with the result it returned and at a time between its invocation and its response.
   Whenever no update is in the middle of its writes, the leaf holds what the history leaves.
   */
  lemma EveryRunIsLinearizable(run: seq<State>, i: nat)
    requires Run(run) && i < |run|
    ensures Legal(run[i].log) && InTimeOrder(run[i].log) && Unique(run[i].log)
    ensures forall k :: 0 <= k < |run[i].responses| ==> Placed(run[i].log, run[i].responses[k])
    ensures run[i].leaf.ver % 2 == 0 ==> Rep(run[i].leaf.keys, run[i].leaf.vals, Dictionary(run[i].log))
  {
    RunKeeps(run, i);
    var s := run[i];
    if s.leaf.ver % 2 == 0 { QuietRep(s.leaf, s.threads, s.log, Dictionary(s.log)); }
  }

  /**
   An operation that returns from the elimination record stands in the history directly next to an update of its
   own key that was closed inside its own interval.
   */
  lemma EliminationIsLegal(run: seq<State>, i: nat, t: nat) returns (p: nat, q: nat)
    requires Run(run) && i < |run| && CanStep(run[i], t) && Eliminates(run[i].threads[t], run[i].leaf)
    ensures var s, x := run[i], run[i].threads[t];
            && p < |s.log| && (q == p || q == p + 1) && s.log[p].op.k == x.op.k && Changes(s.log[p])
            && x.start <= s.log[p].time < s.now
            && |NextLog(s, t)| == |s.log| + 1 && NextLog(s, t)[q].tid == t && NextLog(s, t)[q].op == x.op
            && NextLog(s, t)[q].res == EliminatedResult(x) && NextLog(s, t)[q].time == s.log[p].time
            && Legal(NextLog(s, t))
  {
    RunKeeps(run, i);
    hide Run;
    p, q := ElimPlace(run[i], t);
  }

  lemma ElimPlace(s: State, t: nat) returns (p: nat, q: nat)
    requires Inv(s) && Times(s) && CanStep(s, t) && Eliminates(s.threads[t], s.leaf)
    ensures var x := s.threads[t];
            && p < |s.log| && (q == p || q == p + 1) && s.log[p].op.k == x.op.k && Changes(s.log[p])
            && x.start <= s.log[p].time < s.now
            && |NextLog(s, t)| == |s.log| + 1 && NextLog(s, t)[q].tid == t && NextLog(s, t)[q].op == x.op
            && NextLog(s, t)[q].res == EliminatedResult(x) && NextLog(s, t)[q].time == s.log[p].time
            && Legal(NextLog(s, t))
  {
    var x := s.threads[t];
    ElimFinds(s, t);
    assert Legal(NextLog(s, t)) by { StepLegal(s, t); }
    p := Published(s.log, x.pc.ev, x.pc.ek, x.pc.el);
    q := Beside(s.log, p, x.op);
    assert s.log[p] in s.log;
    assert EntryOk(s, s.log[p]) && Since(x, s.log[p]);
    NextLogIs(s, t);
    hide Inv, Times, Legal, Appends;
    assert Appends(s.leaf, x).None? by { NoAppend(s.leaf, x); }
    assert Added(s, t) == (q, Entry(t, x.opNo, x.op, EliminatedResult(x), s.log[p].time, x.start, 0));
    hide NextLog, Added;
    InsertedLength(s.log, q, Added(s, t).1);
    InsertedAt(s.log, q, Added(s, t).1, q);
  }

  lemma NoAppend(leaf: Leaf, x: Thread)
    requires |leaf.keys| == |leaf.vals| == DEGREE && x.pc.AcqCheck?
    ensures Appends(leaf, x).None?
  {
  }
}
