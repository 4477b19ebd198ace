/** What an operation's result means over whole runs, and what late helpers can and cannot do. */
module DcssOutcome {
  import opened Dcss
  import opened DcssInvariant

  ghost predicate Run(r: seq<State>) {
    && |r| > 0
    && Initial(r[0])
    && forall i :: 0 <= i < |r| - 1 ==> Next(r[i], r[i + 1])
  }

  /**
   What an onlooker of memory sees of the operation `(t, q)`: how often its tag entered and left the
   target cell, the word that replaced it, and whether the first cell was seen with and without the
   expected value while the tag was installed and the operation undecided.
   */
  datatype History = History(installs: nat, removals: nat, last: Word, sawOld1: bool, sawOther: bool)

  const Nothing := History(0, 0, Val(0), false, false)

  function Observe(h: History, s: State, s': State, t: Pid, q: nat): History {
    var d := s.desc(t);
    if d.sn != q || d.req.addr2 !in s.targets then h
    else
      var before := s.mem(d.req.addr2) == Tag(t, q);
      var after := s'.mem(d.req.addr2) == Tag(t, q);
      History(
        h.installs + (if !before && after then 1 else 0),
        h.removals + (if before && !after then 1 else 0),
        if before && !after then s'.mem(d.req.addr2) else h.last,
        h.sawOld1 || (before && d.st == Undecided && s.mem(d.req.addr1) == d.req.old1),
        h.sawOther || (before && d.st == Undecided && s.mem(d.req.addr1) != d.req.old1))
  }

  function Watch(r: seq<State>, t: Pid, q: nat): History
    requires |r| > 0
  {
    if |r| == 1 then Nothing
    else Observe(Watch(r[..|r| - 1], t, q), r[|r| - 2], r[|r| - 1], t, q)
  }

  // ----- the invariant that ties the history of one operation to the state

  ghost predicate OwnerTrack(s: State, h: History, t: Pid, q: nat) {
    var d := s.desc(t);
    if d.sn < q then h == Nothing
    else if d.sn > q then h.installs == h.removals <= 1
    else match s.top(t)
      case Install(_, _) => h == Nothing
      case Own(_, _) =>
        && h.installs == 1
        && (if s.mem(d.req.addr2) == Tag(t, q) then h.removals == 0
            else h.removals == 1 && h.last == Val(if d.st == Succeeded then d.req.new2 else d.req.old2))
        && (d.st == Succeeded ==> h.sawOld1)
        && (d.st == Failed ==> h.sawOther)
      case Done(_, _, Success) =>
        h.installs == h.removals == 1 && h.last == Val(d.req.new2) && h.sawOld1
      case Done(_, _, FailedAddr1(_)) =>
        h.installs == h.removals == 1 && h.last == Val(d.req.old2) && h.sawOther
      case Done(_, _, FailedAddr2(_)) => h == Nothing
      case _ => h.installs == h.removals <= 1
  }

  ghost predicate HelperTrack(s: State, h: History, t: Pid, q: nat, p: Pid) {
    var k := s.help(p);
    (k.ReadMutables? || k.CasMutables?) && k.t == t && k.q == q && s.desc(t).sn == q && s.desc(t).st == Undecided ==>
      if k.val1 == s.desc(t).req.old1 then h.sawOld1 else h.sawOther
  }

  ghost predicate Track(s: State, h: History, t: Pid, q: nat) {
    && OwnerTrack(s, h, t, q)
    && forall p: Pid :: HelperTrack(s, h, t, q, p)
  }

  lemma InitialTrack(s: State, t: Pid, q: nat)
    requires Initial(s) && Odd(q)
    ensures Track(s, Nothing, t, q)
  {
  }

  /** A step that leaves the owner, its descriptor and the presence of its tag alone. */
  lemma OwnerTrackFramed(s: State, s': State, h: History, t: Pid, q: nat)
    requires OwnerTrack(s, h, t, q)
    requires s'.top(t) == s.top(t) && s'.desc(t) == s.desc(t) && s'.targets == s.targets
    requires var a := s.desc(t).req.addr2;
             s.desc(t).sn == q && a in s.targets ==> (s'.mem(a) == Tag(t, q) <==> s.mem(a) == Tag(t, q))
    requires s.desc(t).sn == q ==> !s.top(t).Install? || s.mem(s.desc(t).req.addr2) != Tag(t, q)
    requires s.top(t).Own? ==> s.desc(t).req.addr2 in s.targets
    requires s.desc(t).sn == q && s.top(t).Done? && s.desc(t).req.addr2 in s.targets ==> s.mem(s.desc(t).req.addr2) != Tag(t, q)
    ensures OwnerTrack(s', Observe(h, s, s', t, q), t, q)
  {
  }

  lemma OwnerTrackKeptByOperation(s: State, p: Pid, h: History, t: Pid, q: nat)
    requires Inv(s) && Enabled(s, Tick(p)) && Odd(q) && Track(s, h, t, q) && s.help(p).NoHelp?
    ensures OwnerTrack(Apply(s, Tick(p)), Observe(h, s, Apply(s, Tick(p)), t, q), t, q)
  {
    assert TopOk(s, t) && CellOk(s, s.desc(t).req.addr2) && TopOk(s, p);
    var s' := Apply(s, Tick(p));
    if p != t {
      assert s'.top(t) == s.top(t) && s'.desc(t) == s.desc(t);
      OwnerTrackFramed(s, s', h, t, q);
    } else {
      OwnerTrackKeptByOwner(s, h, t, q);
    }
  }

  lemma OwnerTrackKeptByOwner(s: State, h: History, t: Pid, q: nat)
    requires Inv(s) && Enabled(s, Tick(t)) && Odd(q) && Track(s, h, t, q) && s.help(t).NoHelp?
    ensures OwnerTrack(Apply(s, Tick(t)), Observe(h, s, Apply(s, Tick(t)), t, q), t, q)
  {
    assert TopOk(s, t) && CellOk(s, s.desc(t).req.addr2);
    match s.top(t)
    case NewRead(req) =>
    case NewWrite(req, v) =>
    case Fill(req, k) =>
    case InitRead(req) =>
    case InitWrite(req, v, st) =>
    case Install(req, q) =>
    case Reading(a) =>
  }

  lemma OwnerTrackKeptByHelp(s: State, p: Pid, h: History, t: Pid, q: nat)
    requires Inv(s) && Enabled(s, Tick(p)) && Odd(q) && Track(s, h, t, q) && !s.help(p).NoHelp?
    ensures OwnerTrack(Apply(s, Tick(p)), Observe(h, s, Apply(s, Tick(p)), t, q), t, q)
  {
    assert TopOk(s, t) && CellOk(s, s.desc(t).req.addr2);
    assert HelpOk(s, p) && TopOk(s, p) && HelperTrack(s, h, t, q, p);
    var s' := Apply(s, Tick(p));
    assert OwnerTrack(s, h, t, q);
    hide Inv, Track;
    match s.help(p)
    case Copying(_, _, _, _) => OwnerTrackFramed(s, s', h, t, q);
    case ReadAddr1(_, _, _) => OwnerTrackFramed(s, s', h, t, q);
    case ReadMutables(_, _, _, _) => OwnerTrackFramed(s, s', h, t, q);
    case CasMutables(_, _, _, _, _) =>
    case CasAddr2(_, _, snap, _, _) => OwnerTrackKeptByRemoval(s, p, h, t, q);
  }

  lemma OwnerTrackKeptByRemoval(s: State, p: Pid, h: History, t: Pid, q: nat)
    requires Inv(s) && Odd(q) && Track(s, h, t, q) && s.help(p).CasAddr2?
    ensures OwnerTrack(Apply(s, Tick(p)), Observe(h, s, Apply(s, Tick(p)), t, q), t, q)
  {
    var k := s.help(p);
    assert TopOk(s, t) && CellOk(s, s.desc(t).req.addr2);
    assert HelpOk(s, p) && TopOk(s, p) && CellOk(s, k.snap.req.addr2) && OwnerTrack(s, h, t, q);
    hide Inv, Track;
    var s' := Apply(s, Tick(p));
    if p != t && !(k.t == t && k.q == q && s.desc(t).sn == q) {
      OwnerTrackFramed(s, s', h, t, q);
    }
  }

  lemma OwnerTrackKept(s: State, act: Action, h: History, t: Pid, q: nat)
    requires Inv(s) && Enabled(s, act) && Odd(q) && Track(s, h, t, q)
    ensures OwnerTrack(Apply(s, act), Observe(h, s, Apply(s, act), t, q), t, q)
  {
    assert TopOk(s, t) && CellOk(s, s.desc(t).req.addr2);
    match act
    case Write(a, w) =>
    case Call(p, req) =>
    case CallRead(p, a) =>
    case Return(p) =>
    case Copy(p, f) =>
    case Tick(p) =>
      if s.help(p).NoHelp? { OwnerTrackKeptByOperation(s, p, h, t, q); }
      else { OwnerTrackKeptByHelp(s, p, h, t, q); }
  }

  lemma HelperTrackKept(s: State, act: Action, h: History, t: Pid, q: nat, p: Pid)
    requires Inv(s) && Enabled(s, act) && Odd(q) && Track(s, h, t, q)
    ensures HelperTrack(Apply(s, act), Observe(h, s, Apply(s, act), t, q), t, q, p)
  {
    assert TopOk(s, t) && HelpOk(s, p) && HelperTrack(s, h, t, q, p);
    if act.Tick? { assert TopOk(s, act.p) && HelpOk(s, act.p); }
    assert OwnerTrack(s, h, t, q);
    hide Inv, Track;
  }

  lemma {:induction false} WatchTracks(r: seq<State>, t: Pid, q: nat)
    requires Run(r) && Odd(q)
    ensures Inv(r[|r| - 1]) && Track(r[|r| - 1], Watch(r, t, q), t, q)
  {
    if |r| == 1 {
      InitialInv(r[0]);
      InitialTrack(r[0], t, q);
    } else {
      var r0 := r[..|r| - 1];
      var s := r[|r| - 2];
      RunPrefix(r);
      WatchTracks(r0, t, q);
      assert Next(r[|r| - 2], r[|r| - 2 + 1]);
      var act :| Enabled(s, act) && r[|r| - 1] == Apply(s, act);
      StepInv(s, act);
      OwnerTrackKept(s, act, Watch(r0, t, q), t, q);
      var s', h' := r[|r| - 1], Watch(r, t, q);
      forall p: Pid ensures HelperTrack(s', h', t, q, p) {
        HelperTrackKept(s, act, Watch(r0, t, q), t, q, p);
      }
    }
  }

  // ----- the main results

  /**
   The outcome of an operation, in every run.  Success: the tag entered the target once and left it
   once, replaced by the new value, and at some instant in between the first cell held the expected
   value.  Failure on the first cell: the same, but the old value came back and at some instant in
   between the first cell held something else.  Failure on the target: the tag never entered memory.
   */
  lemma Outcome(r: seq<State>, t: Pid, req: Req, q: nat, res: Result)
    requires Run(r) && r[|r| - 1].top(t) == Done(req, q, res)
    ensures res == Success ==>
              var h := Watch(r, t, q); h.installs == h.removals == 1 && h.last == Val(req.new2) && h.sawOld1
    ensures res.FailedAddr1? ==>
              var h := Watch(r, t, q); h.installs == h.removals == 1 && h.last == Val(req.old2) && h.sawOther
    ensures res.FailedAddr2? ==> Watch(r, t, q) == Nothing
    ensures r[|r| - 1].mem(req.addr2) != Tag(t, q) || req.addr2 !in r[|r| - 1].targets
  {
    var s := r[|r| - 1];
    var q' := if Odd(q) then q else 1;
    WatchTracks(r, t, q');
    assert TopOk(s, t);
    assert CellOk(s, req.addr2);
  }

  /** The operation `(t, q)` with arguments `req` is installed and undecided, so its target still reads `old2`. */
  ghost predicate Pending(s: State, t: Pid, q: nat, req: Req) {
    && s.desc(t).sn == q && s.desc(t).req == req && s.desc(t).st == Undecided
    && s.mem(req.addr2) == Tag(t, q)
    && Logical(s, req.addr2) == req.old2
  }

  lemma {:induction false} InstantOf(r: seq<State>, t: Pid, q: nat, want: bool) returns (j: nat)
    requires Run(r) && if want then Watch(r, t, q).sawOld1 else Watch(r, t, q).sawOther
    ensures j < |r| && Pending(r[j], t, q, r[j].desc(t).req)
    ensures want <==> r[j].mem(r[j].desc(t).req.addr1) == r[j].desc(t).req.old1
  {
    var r0 := r[..|r| - 1];
    var h0 := Watch(r0, t, q);
    if if want then h0.sawOld1 else h0.sawOther {
      RunPrefix(r);
      j := InstantOf(r0, t, q, want);
    } else {
      j := |r| - 2;
    }
  }

  lemma RunPrefix(r: seq<State>)
    requires Run(r) && |r| > 1
    ensures Run(r[..|r| - 1])
  {
    var r0 := r[..|r| - 1];
    forall i | 0 <= i < |r0| - 1 ensures Next(r0[i], r0[i + 1]) { assert Next(r[i], r[i + 1]); }
  }

  lemma DescriptorMonotone(s: State, act: Action, t: Pid)
    requires Inv(s) && Enabled(s, act)
    ensures s.desc(t).sn <= Apply(s, act).desc(t).sn
    ensures Odd(s.desc(t).sn) && Apply(s, act).desc(t).sn == s.desc(t).sn ==> Apply(s, act).desc(t).req == s.desc(t).req
  {
    assert TopOk(s, t);
    if act.Tick? { assert TopOk(s, act.p) && HelpOk(s, act.p); }
  }

  lemma {:induction false} DescriptorStable(r: seq<State>, j: nat, t: Pid)
    requires Run(r) && j < |r|
    ensures r[j].desc(t).sn <= r[|r| - 1].desc(t).sn
    ensures Odd(r[j].desc(t).sn) && r[|r| - 1].desc(t).sn == r[j].desc(t).sn ==> r[|r| - 1].desc(t).req == r[j].desc(t).req
  {
    if j < |r| - 1 {
      var r0 := r[..|r| - 1];
      RunPrefix(r);
      assert r0[j] == r[j] && r0[|r0| - 1] == r[|r| - 2];
      DescriptorStable(r0, j, t);
      LastStepMonotone(r, t);
    }
  }

  lemma LastStepMonotone(r: seq<State>, t: Pid)
    requires Run(r) && |r| > 1
    ensures var s, s' := r[|r| - 2], r[|r| - 1];
            s.desc(t).sn <= s'.desc(t).sn && (Odd(s.desc(t).sn) && s'.desc(t).sn == s.desc(t).sn ==> s'.desc(t).req == s.desc(t).req)
  {
    RunPrefix(r);
    WatchTracks(r[..|r| - 1], t, 1);
    var s := r[|r| - 2];
    assert Next(s, r[|r| - 2 + 1]);
    var act :| Enabled(s, act) && r[|r| - 1] == Apply(s, act);
    DescriptorMonotone(s, act, t);
  }

  /**
   Every finished operation has an instant at which it could have been performed in one step: a
   success has one at which both cells held their expected values, a failure on the first cell one
   at which the target held its expected value and the first cell did not.
   */
  lemma LinearizationInstant(r: seq<State>, t: Pid, req: Req, q: nat, res: Result)
    requires Run(r) && r[|r| - 1].top(t) == Done(req, q, res) && !res.FailedAddr2?
    ensures exists j :: 0 <= j < |r| && Pending(r[j], t, q, req) && (res == Success <==> r[j].mem(req.addr1) == req.old1)
  {
    Outcome(r, t, req, q, res);
    var j := InstantOf(r, t, q, res == Success);
    DescriptorStable(r, j, t);
    WatchTracks(r, t, 1);
    assert TopOk(r[|r| - 1], t);
    assert Pending(r[j], t, q, req);
  }

  /** Whatever the owner does next, the tag of `(t, q)` enters memory at most once and never stays. */
  lemma TagEntersOnce(r: seq<State>, t: Pid, q: nat)
    requires Run(r) && Odd(q)
    ensures Watch(r, t, q).removals <= Watch(r, t, q).installs <= 1
    ensures var s := r[|r| - 1];
            s.desc(t).sn > q ==> forall a: Addr :: a in s.targets ==> s.mem(a) != Tag(t, q)
  {
    WatchTracks(r, t, q);
    var s := r[|r| - 1];
    assert TopOk(s, t);
    forall a: Addr | a in s.targets && s.desc(t).sn > q ensures s.mem(a) != Tag(t, q) {
      assert CellOk(s, a);
    }
  }

  /**
   A helper whose descriptor has been reused changes no cell and no descriptor, whatever state the
   loop on the mutables has handed it.
   */
  lemma StaleHelperIsHarmless(s: State, p: Pid, act: Action)
    requires Inv(s) && (act == Tick(p) || exists f :: act == Copy(p, f)) && Enabled(s, act)
    requires !s.help(p).NoHelp? && s.help(p).q < s.desc(s.help(p).t).sn
    ensures forall a: Addr :: Apply(s, act).mem(a) == s.mem(a)
    ensures forall t: Pid :: Apply(s, act).desc(t) == s.desc(t)
  {
    assert HelpOk(s, p);
    if s.help(p).CasAddr2? {
      assert CellOk(s, s.help(p).snap.req.addr2);
    }
  }

  /** The value of a target as readers may see it: behind a tag, the old value until the operation has succeeded. */
  function Logical(s: State, a: Addr): int {
    match s.mem(a)
    case Val(v) => v
    case Tag(t, _) => if s.desc(t).st == Succeeded then s.desc(t).req.new2 else s.desc(t).req.old2
  }

  /** The step that decides the operation installed at `a` in favour of success. */
  ghost predicate Decides(s: State, act: Action, a: Addr) {
    && act.Tick?
    && s.mem(a).Tag?
    && s.help(act.p).CasMutables?
    && s.help(act.p).t == s.mem(a).tid && s.help(act.p).q == s.mem(a).sn
    && s.desc(s.mem(a).tid).st == Undecided
    && Enabled(s, act)
    && Apply(s, act).desc(s.mem(a).tid).st == Succeeded
  }

  /** No step changes the logical value of a target, except the one that decides its operation, from old to new. */
  lemma LogicalValueChangesOnlyOnDecision(s: State, act: Action, a: Addr)
    requires Inv(s) && Enabled(s, act) && a in s.targets
    ensures if Decides(s, act, a)
            then Logical(s, a) == s.desc(s.mem(a).tid).req.old2 && Logical(Apply(s, act), a) == s.desc(s.mem(a).tid).req.new2
            else Logical(Apply(s, act), a) == Logical(s, a)
  {
    assert CellOk(s, a);
    if s.mem(a).Tag? { assert TopOk(s, s.mem(a).tid); }
    match act
    case Write(_, _) =>
    case Call(_, _) =>
    case CallRead(_, _) =>
    case Return(_) =>
    case Copy(_, _) =>
    case Tick(p) =>
      assert TopOk(s, p) && HelpOk(s, p);
      if s.help(p).NoHelp? { OperationKeepsLogical(s, p, a); } else { HelpChangesLogical(s, p, a); }
  }

  lemma OperationKeepsLogical(s: State, p: Pid, a: Addr)
    requires Inv(s) && Enabled(s, Tick(p)) && a in s.targets && s.help(p).NoHelp?
    ensures Logical(Apply(s, Tick(p)), a) == Logical(s, a)
  {
    assert CellOk(s, a) && TopOk(s, p);
    if s.mem(a).Tag? { assert TopOk(s, s.mem(a).tid); }
    match s.top(p)
    case NewRead(req) =>
    case NewWrite(req, v) =>
    case Fill(req, k) =>
    case InitRead(req) =>
    case InitWrite(req, v, st) =>
    case Install(req, q) =>
    case Reading(_) =>
  }

  lemma HelpChangesLogical(s: State, p: Pid, a: Addr)
    requires Inv(s) && Enabled(s, Tick(p)) && a in s.targets && !s.help(p).NoHelp?
    ensures if Decides(s, Tick(p), a)
            then Logical(s, a) == s.desc(s.mem(a).tid).req.old2
                 && Logical(Apply(s, Tick(p)), a) == s.desc(s.mem(a).tid).req.new2
            else Logical(Apply(s, Tick(p)), a) == Logical(s, a)
  {
    assert CellOk(s, a) && HelpOk(s, p);
    if s.mem(a).Tag? { assert TopOk(s, s.mem(a).tid); }
    match s.help(p)
    case Copying(_, _, _, _) =>
    case ReadAddr1(_, _, _) =>
    case ReadMutables(_, _, _, _) =>
    case CasMutables(_, _, _, _, _) =>
    case CasAddr2(_, _, snap, _, _) => assert CellOk(s, snap.req.addr2);
  }

  /** A read returns the logical value at the instant of its last access, when no tag is in the cell. */
  lemma ReadReturnsLogicalValue(s: State, p: Pid)
    requires Inv(s) && Enabled(s, Tick(p)) && s.top(p).Reading? && Apply(s, Tick(p)).top(p).ReadDone?
    ensures s.mem(s.top(p).addr).Val? && Apply(s, Tick(p)).top(p).r == Val(Logical(s, s.top(p).addr))
  {
    assert TopOk(s, p) && HelpOk(s, p);
  }

  /** An operation that fails on its target saw there, untagged, a logical value other than the expected one. */
  lemma TargetFailureSeesOtherValue(s: State, p: Pid)
    requires Inv(s) && Enabled(s, Tick(p)) && s.top(p).Install? && Apply(s, Tick(p)).top(p).Done?
    ensures var req := s.top(p).req;
            && s.mem(req.addr2).Val? && Logical(s, req.addr2) != req.old2
            && Apply(s, Tick(p)).top(p).res == FailedAddr2(Val(Logical(s, req.addr2)))
  {
    assert TopOk(s, p) && HelpOk(s, p);
  }
}
