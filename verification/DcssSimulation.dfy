/** Every run of the protocol, seen at one target cell, is a run of the cell; what readers get once the condition has changed. */
module DcssSimulation {
  import opened Dcss
  import opened DcssInvariant
  import opened DcssOutcome
  import C = DcssCell

  /** Every operation under way on `a` depends on cell `a1` holding `o1`. */
  ghost predicate Uses(s: State, a: Addr, a1: Addr, o1: Word) {
    forall p: Pid :: OneUse(s, p, a, a1, o1)
  }

  ghost predicate OneUse(s: State, p: Pid, a: Addr, a1: Addr, o1: Word) {
    s.top(p).Own? && s.top(p).req.addr2 == a ==> s.top(p).req.addr1 == a1 && s.top(p).req.old1 == o1
  }

  function StatusOf(st: Status): C.Status {
    match st
    case Undecided => C.Undecided
    case Succeeded => C.Succeeded
    case Failed => C.Failed
  }

  /** The cell `a` at the end of a run: behind a tag, the operation with what was to be seen while it was undecided. */
  function View(r: seq<State>, a: Addr): C.Cell<int>
    requires |r| > 0
  {
    var s := r[|r| - 1];
    match s.mem(a)
    case Val(v) => C.Word(v)
    case Tag(t, q) =>
      var d, h := s.desc(t), Watch(r, t, q);
      C.Pending(d.req.old2, d.req.new2, StatusOf(d.st), h.sawOld1, h.sawOther)
  }

  /** A step that leaves the tag in the cell. */
  lemma TagStays(s: State, act: Action, a: Addr, t: Pid, q: nat)
    requires Inv(s) && Enabled(s, act) && a in s.targets && s.mem(a) == Tag(t, q) && Apply(s, act).mem(a).Tag?
    ensures var s' := Apply(s, act);
            && s'.mem(a) == Tag(t, q) && s'.desc(t).req == s.desc(t).req && s.desc(t).sn == q && s.desc(t).req.addr2 == a
            && (s'.desc(t).st == s.desc(t).st || s.desc(t).st == Undecided)
  {
    assert CellOk(s, a) && TopOk(s, t);
    if act.Tick? { assert TopOk(s, act.p) && HelpOk(s, act.p); }
    hide Inv;
  }

  /** A step that takes the tag out of the cell: the operation is decided, and its word comes in. */
  lemma TagLeaves(s: State, act: Action, a: Addr, t: Pid, q: nat)
    requires Inv(s) && Enabled(s, act) && a in s.targets && s.mem(a) == Tag(t, q) && Apply(s, act).mem(a).Val?
    ensures s.desc(t).st != Undecided && Apply(s, act).mem(a) == Val(if s.desc(t).st == Succeeded then s.desc(t).req.new2 else s.desc(t).req.old2)
  {
    assert CellOk(s, a) && TopOk(s, t);
    if act.Tick? { assert TopOk(s, act.p) && HelpOk(s, act.p); }
    hide Inv;
  }

  /** A step that puts a tag into the cell: of an undecided operation that expects the word found there. */
  lemma TagEnters(s: State, act: Action, a: Addr)
    requires Inv(s) && Enabled(s, act) && a in s.targets && s.mem(a).Val? && Apply(s, act).mem(a).Tag?
    ensures var t, q, s' := Apply(s, act).mem(a).tid, Apply(s, act).mem(a).sn, Apply(s, act);
            && s.top(t).Install? && s.desc(t).sn == q && s'.desc(t) == s.desc(t) && s.desc(t).st == Undecided
            && s.mem(a) == Val(s.desc(t).req.old2) && s.desc(t).req.addr2 == a && Odd(q)
  {
    if act.Tick? { assert TopOk(s, act.p) && HelpOk(s, act.p); }
    hide Inv;
  }

  lemma PlainStep(s: State, act: Action, a: Addr)
    requires Inv(s) && Enabled(s, act) && a in s.targets && s.mem(a).Val? && Apply(s, act).mem(a).Val?
    ensures Apply(s, act).mem(a) == s.mem(a)
  {
    if act.Tick? { assert TopOk(s, act.p) && HelpOk(s, act.p); }
    hide Inv;
  }

  lemma TagIsOdd(s: State, a: Addr)
    requires Inv(s) && a in s.targets && s.mem(a).Tag?
    ensures Odd(s.mem(a).sn) && s.top(s.mem(a).tid).Own? && s.desc(s.mem(a).tid).sn == s.mem(a).sn
    ensures s.desc(s.mem(a).tid).req == s.top(s.mem(a).tid).req && s.desc(s.mem(a).tid).req.addr2 == a
  {
    assert CellOk(s, a) && TopOk(s, s.mem(a).tid);
  }

  /** Each step of a run is a step of the cell, open as long as `a1` holds `o1`. */
  lemma CellSimulates(r: seq<State>, a: Addr, a1: Addr, o1: Word)
    requires Run(r) && |r| > 1 && a in r[|r| - 2].targets && Uses(r[|r| - 2], a, a1, o1)
    ensures C.CellNext(View(r[..|r| - 1], a), View(r, a), r[|r| - 2].mem(a1) == o1)
  {
    var r0, s, s' := r[..|r| - 1], r[|r| - 2], r[|r| - 1];
    RunPrefix(r);
    WatchTracks(r0, 0, 1);
    assert r0[|r0| - 1] == s;
    assert Next(s, r[|r| - 2 + 1]);
    var act :| Enabled(s, act) && s' == Apply(s, act);
    hide Inv, Track;
    if s.mem(a).Tag? && s'.mem(a).Tag? {
      SimulatesInstalled(r, a, a1, o1, act);
    } else if s.mem(a).Tag? {
      TagLeaves(s, act, a, s.mem(a).tid, s.mem(a).sn);
    } else if s'.mem(a).Tag? {
      SimulatesInstall(r, a, act);
    } else {
      PlainStep(s, act, a);
    }
  }

  lemma SimulatesInstall(r: seq<State>, a: Addr, act: Action)
    requires Run(r) && |r| > 1 && a in r[|r| - 2].targets && Enabled(r[|r| - 2], act) && r[|r| - 1] == Apply(r[|r| - 2], act)
    requires Inv(r[|r| - 2]) && r[|r| - 2].mem(a).Val? && r[|r| - 1].mem(a).Tag?
    ensures C.Installs(View(r[..|r| - 1], a), View(r, a))
  {
    var r0, s, s' := r[..|r| - 1], r[|r| - 2], r[|r| - 1];
    var t, q := s'.mem(a).tid, s'.mem(a).sn;
    TagEnters(s, act, a);
    RunPrefix(r);
    WatchTracks(r0, t, q);
    assert r0[|r0| - 1] == s && OwnerTrack(s, Watch(r0, t, q), t, q);
    hide Inv, Track, Run;
  }

  lemma SimulatesInstalled(r: seq<State>, a: Addr, a1: Addr, o1: Word, act: Action)
    requires Run(r) && |r| > 1 && a in r[|r| - 2].targets && Enabled(r[|r| - 2], act) && r[|r| - 1] == Apply(r[|r| - 2], act)
    requires Inv(r[|r| - 2]) && r[|r| - 2].mem(a).Tag? && r[|r| - 1].mem(a).Tag? && Uses(r[|r| - 2], a, a1, o1)
    ensures C.Acts(C.Look(View(r[..|r| - 1], a), r[|r| - 2].mem(a1) == o1), View(r, a))
  {
    var r0, s, s' := r[..|r| - 1], r[|r| - 2], r[|r| - 1];
    var t, q := s.mem(a).tid, s.mem(a).sn;
    TagStays(s, act, a, t, q);
    TagIsOdd(s, a);
    assert OneUse(s, t, a, a1, o1);
    WatchTracks(r, t, q);
    assert Inv(s') && OwnerTrack(s', Watch(r, t, q), t, q);
    assert r0[|r0| - 1] == s;
    TargetsSame(s, act);
    TagIsOdd(s', a);
    hide Inv, Track, Run, Apply, Enabled, Uses;
    assert Watch(r, t, q) == Observe(Watch(r0, t, q), s, s', t, q);
  }

  lemma TargetsSame(s: State, act: Action)
    requires Enabled(s, act)
    ensures Apply(s, act).targets == s.targets
  {
  }

  // ----- reads after the condition has changed

  /** From state `i` on the condition does not hold, and every operation on `a` depends on it. */
  ghost predicate ShutFrom(r: seq<State>, i: nat, a: Addr, a1: Addr, o1: Word) {
    forall j :: i <= j < |r| ==> a in r[j].targets && Uses(r[j], a, a1, o1) && r[j].mem(a1) != o1
  }

  lemma {:induction false} CalmKept(r: seq<State>, i: nat, k: nat, a: Addr, a1: Addr, o1: Word)
    requires Run(r) && i <= k < |r| && ShutFrom(r, i, a, a1, o1) && C.Calm(View(r[..k + 1], a))
    ensures C.Calm(View(r, a)) && C.Logical(View(r, a)) == C.Logical(View(r[..k + 1], a))
    decreases |r|
  {
    if k == |r| - 1 {
      assert r[..k + 1] == r;
    } else {
      var r0 := r[..|r| - 1];
      RunPrefix(r);
      assert r0[..k + 1] == r[..k + 1];
      assert forall j :: 0 <= j < |r0| ==> r0[j] == r[j];
      CalmKept(r0, i, k, a, a1, o1);
      CellSimulates(r, a, a1, o1);
      C.CalmStays(View(r0, a), View(r, a));
    }
  }

  /** The access with which a read of `a` ends: it finds a plain word. */
  ghost predicate ReadsAt(r: seq<State>, k: nat, p: Pid, a: Addr, v: int) {
    && k + 1 < |r| && r[k].top(p) == Reading(a) && r[k + 1].top(p) == ReadDone(a, Val(v)) && r[k].mem(a) == Val(v)
  }

  /**
   Once the condition has changed for good, all reads of `a` that end after that return the same value, and it is the
   logical value of `a` in every state after the first of them.
   */
  lemma ReadsAfterChangeAgree(r: seq<State>, i: nat, k: nat, p: Pid, v: int, n: nat, p': Pid, v': int, a: Addr, a1: Addr, o1: Word)
    requires Run(r) && i <= k <= n && ShutFrom(r, i, a, a1, o1) && ReadsAt(r, k, p, a, v) && ReadsAt(r, n, p', a, v')
    ensures v == v'
    ensures forall m :: k <= m < |r| ==> Logical(r[m], a) == v
  {
    forall m | k <= m < |r| ensures Logical(r[m], a) == v { ValueStays(r, i, k, v, m, a, a1, o1); }
  }

  lemma ValueStays(r: seq<State>, i: nat, k: nat, v: int, m: nat, a: Addr, a1: Addr, o1: Word)
    requires Run(r) && i <= k <= m < |r| && ShutFrom(r, i, a, a1, o1) && r[k].mem(a) == Val(v)
    ensures Logical(r[m], a) == v
  {
    var r1 := r[..m + 1];
    PrefixRun(r, m + 1);
    assert r1[..k + 1] == r[..k + 1];
    assert forall j :: 0 <= j < |r1| ==> r1[j] == r[j];
    assert View(r1[..k + 1], a) == C.Word(v);
    hide Run, Watch;
    assert ShutFrom(r1, i, a, a1, o1);
    CalmKept(r1, i, k, a, a1, o1);
  }

  lemma PrefixRun(r: seq<State>, n: nat)
    requires Run(r) && 0 < n <= |r|
    ensures Run(r[..n])
  {
    var r0 := r[..n];
    forall i | 0 <= i < |r0| - 1 ensures Next(r0[i], r0[i + 1]) { assert Next(r[i], r[i + 1]); }
  }
}
