/** Every operation ends with an answer: what a caller gets that runs alone, and where its answer comes from in any run. */
module DcssProgress {
  import opened Dcss
  import opened DcssInvariant
  import opened DcssOutcome

  // ----- an operation ends only with an answer

  predicate InOperation(top: Top) {
    top.NewRead? || top.NewWrite? || top.Fill? || top.InitRead? || top.InitWrite? || top.Install? || top.Own?
  }

  /** An operation in progress goes on with the same arguments, or is done; a read goes on, or is done. */
  lemma OperationsEndDone(s: State, act: Action, p: Pid)
    requires Inv(s) && Enabled(s, act)
    ensures var x, x' := s.top(p), Apply(s, act).top(p);
            && (InOperation(x) ==> (InOperation(x') || x'.Done?) && x'.req == x.req)
            && (x.Reading? ==> (x'.Reading? || x'.ReadDone?) && x'.addr == x.addr)
            && (x.Done? || x.ReadDone? ==> x' == x || (act == Return(p) && x' == Idle))
  {
    assert TopOk(s, p);
    if act.Tick? { assert TopOk(s, act.p); }
    hide Inv;
  }

  /** An owner leaves its operation only with its result, which is success exactly if the descriptor was decided so. */
  lemma OwnerAnswers(s: State, act: Action, p: Pid)
    requires Inv(s) && Enabled(s, act) && s.top(p).Own? && !Apply(s, act).top(p).Own?
    ensures var x, x' := s.top(p), Apply(s, act).top(p);
            && x'.Done? && x'.req == x.req && x'.q == x.q && s.desc(p).st != Undecided
            && (x'.res == Success <==> s.desc(p).st == Succeeded) && (x'.res.FailedAddr1? <==> s.desc(p).st == Failed)
  {
    assert TopOk(s, p) && HelpOk(s, p);
    hide Inv;
  }

  // ----- where the answer of a failure on the first cell comes from

  /** The owner of the operation has read `w` from the first cell. */
  predicate Holds1(s: State, p: Pid, w: Word) {
    if s.top(p).Own? then (s.help(p).ReadMutables? || s.help(p).CasMutables? || s.help(p).CasAddr2?) && s.help(p).val1 == w
    else s.top(p).Done? && s.top(p).res == FailedAddr1(w)
  }

  predicate SawAt(s: State, p: Pid, q: nat, req: Req, w: Word) {
    s.top(p) == Own(req, q) && s.mem(req.addr1) == w
  }

  lemma Holds1Step(s: State, act: Action, p: Pid, w: Word)
    requires Inv(s) && Enabled(s, act) && Holds1(Apply(s, act), p, w)
    ensures var x' := Apply(s, act).top(p);
            && (s.top(p).Own? || s.top(p).Done?) && s.top(p).req == x'.req && s.top(p).q == x'.q
            && (Holds1(s, p, w) || SawAt(s, p, x'.q, x'.req, w))
  {
    assert TopOk(s, p) && HelpOk(s, p);
    if act.Tick? { assert TopOk(s, act.p) && HelpOk(s, act.p); }
    hide Inv;
  }

  lemma Holds1Back(r: seq<State>, p: Pid, w: Word)
    requires Run(r) && Holds1(r[|r| - 1], p, w)
    ensures |r| > 1
    ensures var x, x' := r[|r| - 2].top(p), r[|r| - 1].top(p);
            && (x.Own? || x.Done?) && x.req == x'.req && x.q == x'.q
            && (Holds1(r[|r| - 2], p, w) || SawAt(r[|r| - 2], p, x'.q, x'.req, w))
  {
    if |r| > 1 {
      var s := r[|r| - 2];
      RunPrefix(r);
      WatchTracks(r[..|r| - 1], p, 1);
      assert Next(s, r[|r| - 2 + 1]);
      var act :| Enabled(s, act) && r[|r| - 1] == Apply(s, act);
      hide Inv, Track, Apply, Enabled, Run, Next, Holds1, SawAt;
      Holds1Step(s, act, p, w);
    }
  }

  lemma {:induction false} Holds1Seen(r: seq<State>, p: Pid, w: Word) returns (j: nat)
    requires Run(r) && Holds1(r[|r| - 1], p, w)
    ensures j < |r| && SawAt(r[j], p, r[|r| - 1].top(p).q, r[|r| - 1].top(p).req, w)
    decreases |r|
  {
    Holds1Back(r, p, w);
    j := |r| - 2;
    if Holds1(r[|r| - 2], p, w) {
      RunPrefix(r);
      assert r[..|r| - 1][|r| - 2] == r[|r| - 2];
      hide Run, Holds1, SawAt;
      j := Holds1Seen(r[..|r| - 1], p, w);
    }
  }

  /** A failure on the first cell returns a word that was in that cell while the operation was being finished by its owner. */
  lemma FailureReturnsWordSeen(r: seq<State>, p: Pid, req: Req, q: nat, w: Word) returns (j: nat)
    requires Run(r) && r[|r| - 1].top(p) == Done(req, q, FailedAddr1(w))
    ensures j < |r| && SawAt(r[j], p, q, req, w)
  {
    j := Holds1Seen(r, p, w);
  }

  // ----- a process that runs alone

  /** An access of `p` inside its operation or read; a snapshot copies each field once. */
  predicate Access(s: State, p: Pid, act: Action) {
    Enabled(s, act) && (act == Tick(p) || (act.Copy? && act.p == p && act.f !in s.help(p).got))
  }

  /** What target `a` holds once the operation in it, if there is one, has been helped by someone alone. */
  function Resolved(s: State, a: Addr): int {
    match s.mem(a)
    case Val(v) => v
    case Tag(t, _) =>
      var d := s.desc(t);
      if d.st == Succeeded || (d.st == Undecided && s.mem(d.req.addr1) == d.req.old1) then d.req.new2 else d.req.old2
  }

  /** What the first cell holds once the tag is in the target; the two may be the same cell. */
  function First(s: State, p: Pid, req: Req): Word {
    if req.addr1 == req.addr2 then Tag(p, Number(s, p)) else s.mem(req.addr1)
  }

  function Decided(s: State, p: Pid, req: Req): Result {
    if First(s, p, req) == req.old1 then Success else FailedAddr1(First(s, p, req))
  }

  /** The answer that an operation with these arguments would get in one atomic step. */
  function AtOnce(s: State, p: Pid, req: Req): Result {
    if Resolved(s, req.addr2) != req.old2 then FailedAddr2(Val(Resolved(s, req.addr2))) else Decided(s, p, req)
  }

  function Left(req: Req, res: Result): Word {
    match res
    case Success => Val(req.new2)
    case FailedAddr1(_) => Val(req.old2)
    case FailedAddr2(w) => w
  }

  /** The sequence number of the present operation. */
  function Number(s: State, p: Pid): nat {
    match s.top(p)
    case NewRead(_) => s.desc(p).sn + 2
    case NewWrite(_, _) => s.desc(p).sn + 2
    case Fill(_, _) => s.desc(p).sn + 1
    case InitRead(_) => s.desc(p).sn + 1
    case InitWrite(_, _, _) => s.desc(p).sn + 1
    case _ => s.desc(p).sn
  }

  /** Where `p` will be, and what its target will hold, when it has gone on alone to its answer. */
  function Ends(s: State, p: Pid): (Top, Word) {
    match s.top(p)
    case Done(req, _, _) => (s.top(p), s.mem(req.addr2))
    case ReadDone(a, _) => (s.top(p), s.mem(a))
    case Reading(a) => (ReadDone(a, Val(Resolved(s, a))), Val(Resolved(s, a)))
    case Own(req, q) => (Done(req, q, Decided(s, p, req)), Left(req, Decided(s, p, req)))
    case Idle => (Idle, Val(0))
    case _ => (Done(s.top(p).req, Number(s, p), AtOnce(s, p, s.top(p).req)), Left(s.top(p).req, AtOnce(s, p, s.top(p).req)))
  }

  /** What `p` has read is still so, because nobody else has moved. */
  predicate Fresh(s: State, p: Pid, a: Addr) {
    var h := s.help(p);
    !h.NoHelp? ==>
      && s.mem(a) == Tag(h.t, h.q) && s.desc(h.t).sn == h.q && s.desc(h.t).req.addr2 == a
      && (h.ReadMutables? || h.CasMutables? ==> h.val1 == s.mem(s.desc(h.t).req.addr1))
      && (h.CasMutables? ==> h.vsn == h.q)
      && (h.CasAddr2? ==> s.desc(h.t).st != Undecided)
  }

  predicate Alone(s: State, p: Pid) {
    match s.top(p)
    case Idle => false
    case Done(_, _, _) => true
    case ReadDone(_, _) => true
    case Reading(a) => Fresh(s, p, a)
    case Own(req, q) =>
      && s.mem(req.addr2) == Tag(p, q)
      && var h := s.help(p);
         && (h.ReadMutables? || h.CasMutables? || h.CasAddr2? ==> h.val1 == s.mem(req.addr1))
         && (h.CasAddr2? <==> s.desc(p).st != Undecided)
         && (h.CasAddr2? ==> (h.win <==> h.val1 == req.old1))
    case _ => Fresh(s, p, s.top(p).req.addr2)
  }

  function HelpSize(h: Help): nat {
    match h
    case NoHelp => 0
    case Copying(_, _, got, _) => 5 + |AllFields() - got|
    case ReadAddr1(_, _, _) => 4
    case ReadMutables(_, _, _, _) => 3
    case CasMutables(_, _, _, _, _) => 2
    case CasAddr2(_, _, _, _, _) => 1
  }

  /** From finding out what the target holds to the answer. */
  function LoopSize(s: State, p: Pid, a: Addr): nat {
    if !s.help(p).NoHelp? then 5 + HelpSize(s.help(p)) else if s.mem(a).Tag? then 17 else 5
  }

  /** A bound on the accesses still to be made. */
  function Size(s: State, p: Pid): nat {
    match s.top(p)
    case NewRead(_) => 27
    case NewWrite(_, _) => 26
    case Fill(_, k) => if k <= 4 then 25 - k else 20
    case InitRead(_) => 19
    case InitWrite(_, _, _) => 18
    case Install(req, _) => LoopSize(s, p, req.addr2)
    case Reading(a) => LoopSize(s, p, a)
    case Own(_, _) => HelpSize(s.help(p))
    case _ => 0
  }

  /** Each access leaves the end where it was and brings it nearer. */
  lemma AccessOfOperation(s: State, p: Pid)
    requires Inv(s) && Alone(s, p) && Enabled(s, Tick(p)) && s.help(p).NoHelp?
    ensures var s' := Apply(s, Tick(p)); Alone(s', p) && Ends(s', p) == Ends(s, p) && Size(s', p) < Size(s, p)
  {
    assert TopOk(s, p);
    if InOperation(s.top(p)) { assert CellOk(s, s.top(p).req.addr2); }
    if s.top(p).Reading? { assert CellOk(s, s.top(p).addr); }
    hide Inv;
    match s.top(p)
    case NewRead(req) =>
    case NewWrite(req, v) =>
    case Fill(req, k) =>
    case InitRead(req) =>
    case InitWrite(req, v, st) =>
    case Install(req, q) =>
    case Reading(a) =>
  }

  lemma AccessOfOwner(s: State, p: Pid)
    requires Inv(s) && Alone(s, p) && Enabled(s, Tick(p)) && s.top(p).Own?
    ensures var s' := Apply(s, Tick(p)); Alone(s', p) && Ends(s', p) == Ends(s, p) && Size(s', p) < Size(s, p)
  {
    assert TopOk(s, p) && HelpOk(s, p);
    hide Inv;
    match s.help(p)
    case ReadAddr1(t, q, snap) =>
    case ReadMutables(t, q, snap, val1) =>
    case CasMutables(t, q, snap, val1, vsn) =>
    case CasAddr2(t, q, snap, val1, win) =>
  }

  lemma AccessOfHelp(s: State, p: Pid)
    requires Inv(s) && Alone(s, p) && Enabled(s, Tick(p)) && !s.help(p).NoHelp? && !s.top(p).Own?
    ensures var s' := Apply(s, Tick(p)); Alone(s', p) && Ends(s', p) == Ends(s, p) && Size(s', p) < Size(s, p)
  {
    assert TopOk(s, p) && HelpOk(s, p) && TopOk(s, s.help(p).t);
    hide Inv;
    match s.help(p)
    case Copying(t, q, got, snap) =>
    case ReadAddr1(t, q, snap) =>
    case ReadMutables(t, q, snap, val1) =>
    case CasMutables(t, q, snap, val1, vsn) =>
    case CasAddr2(t, q, snap, val1, win) =>
  }

  lemma AccessOfCopy(s: State, p: Pid, f: Field)
    requires Inv(s) && Alone(s, p) && Access(s, p, Copy(p, f))
    ensures var s' := Apply(s, Copy(p, f)); Alone(s', p) && Ends(s', p) == Ends(s, p) && Size(s', p) < Size(s, p)
  {
    assert TopOk(s, p) && HelpOk(s, p);
    hide Inv;
    var got := s.help(p).got;
    assert f in AllFields() - got && AllFields() - (got + {f}) == AllFields() - got - {f};
  }

  lemma AccessKeepsEnd(s: State, p: Pid, act: Action)
    requires Inv(s) && Alone(s, p) && Access(s, p, act)
    ensures var s' := Apply(s, act); Alone(s', p) && Ends(s', p) == Ends(s, p) && Size(s', p) < Size(s, p)
  {
    hide Alone, Ends, Size, Inv;
    match act
    case Copy(_, f) => AccessOfCopy(s, p, f);
    case Tick(_) =>
      if s.top(p).Own? { AccessOfOwner(s, p); }
      else if s.help(p).NoHelp? { AccessOfOperation(s, p); }
      else { AccessOfHelp(s, p); }
  }

  /** Before its answer a process can always make another access. */
  lemma AlwaysAnAccess(s: State, p: Pid)
    requires Inv(s) && Alone(s, p) && !s.top(p).Done? && !s.top(p).ReadDone?
    ensures exists act :: Access(s, p, act)
  {
    assert TopOk(s, p);
    if s.help(p).Copying? && s.help(p).got != AllFields() {
      var f := Missing(s.help(p).got);
      assert Access(s, p, Copy(p, f));
    } else {
      assert Access(s, p, Tick(p));
    }
  }

  lemma AnyField(g: Field)
    ensures g in AllFields()
  {
    match g
    case FMutables =>
    case FAddr1 =>
    case FOld1 =>
    case FAddr2 =>
    case FOld2 =>
    case FNew2 =>
  }

  lemma Missing(got: set<Field>) returns (f: Field)
    requires got != AllFields()
    ensures f !in got
  {
    forall g: Field ensures g in AllFields() { AnyField(g); }
    f :| f !in got;
  }

  // ----- whole runs of one process alone

  ghost predicate AccessStep(s: State, s': State, p: Pid) {
    exists act :: Access(s, p, act) && s' == Apply(s, act)
  }

  ghost predicate AloneRun(r: seq<State>, p: Pid) {
    |r| > 0 && forall i :: 0 <= i < |r| - 1 ==> AccessStep(r[i], r[i + 1], p)
  }

  lemma {:induction false} AloneRunKeeps(r: seq<State>, p: Pid, i: nat)
    requires AloneRun(r, p) && i < |r| && Inv(r[0]) && Alone(r[0], p)
    ensures Inv(r[i]) && Alone(r[i], p) && Ends(r[i], p) == Ends(r[0], p) && Size(r[i], p) + i <= Size(r[0], p)
  {
    if i > 0 {
      AloneRunKeeps(r, p, i - 1);
      assert AccessStep(r[i - 1], r[i - 1 + 1], p);
      var act :| Access(r[i - 1], p, act) && r[i] == Apply(r[i - 1], act);
      hide Inv, Alone, Ends, Size;
      StepInv(r[i - 1], act);
      AccessKeepsEnd(r[i - 1], p, act);
    }
  }

  /**
   A caller that runs alone, from any state of the others and in any order of its snapshot's copies, makes at most 27
   accesses, can go on until it has its answer, and gets the answer of one atomic step, with the target left accordingly.
   */
  lemma AloneAnswers(s: State, p: Pid, req: Req, r: seq<State>)
    requires Inv(s) && Enabled(s, Call(p, req)) && AloneRun(r, p) && r[0] == Apply(s, Call(p, req))
    ensures |r| <= 28
    ensures var s', res := r[|r| - 1], AtOnce(r[0], p, req);
            if s'.top(p).Done? then s'.top(p) == Done(req, s.desc(p).sn + 2, res) && s'.mem(req.addr2) == Left(req, res)
            else exists act :: Access(s', p, act)
  {
    StepInv(s, Call(p, req));
    assert TopOk(s, p);
    assert Alone(r[0], p);
    AloneRunKeeps(r, p, |r| - 1);
    var s' := r[|r| - 1];
    hide Inv;
    if !s'.top(p).Done? { AlwaysAnAccess(s', p); }
  }

  /** In particular, with both cells as expected and no operation in the target, it succeeds and the target holds the new value. */
  lemma AloneSucceeds(s: State, p: Pid, req: Req, r: seq<State>)
    requires Inv(s) && Enabled(s, Call(p, req)) && AloneRun(r, p) && r[0] == Apply(s, Call(p, req))
    requires s.mem(req.addr1) == req.old1 && s.mem(req.addr2) == Val(req.old2) && req.addr1 != req.addr2
    requires r[|r| - 1].top(p).Done?
    ensures r[|r| - 1].top(p).res == Success && r[|r| - 1].mem(req.addr2) == Val(req.new2)
  {
    AloneAnswers(s, p, req, r);
  }

  /** A reader that runs alone gets what the target holds once the operation in it has been helped. */
  lemma AloneReads(s: State, p: Pid, a: Addr, r: seq<State>)
    requires Inv(s) && Enabled(s, CallRead(p, a)) && AloneRun(r, p) && r[0] == Apply(s, CallRead(p, a))
    ensures |r| <= 18
    ensures var s' := r[|r| - 1];
            if s'.top(p).ReadDone? then s'.top(p) == ReadDone(a, Val(Resolved(s, a))) && s'.mem(a) == Val(Resolved(s, a))
            else exists act :: Access(s', p, act)
  {
    StepInv(s, CallRead(p, a));
    assert TopOk(s, p);
    assert Alone(r[0], p);
    AloneRunKeeps(r, p, |r| - 1);
    var s' := r[|r| - 1];
    hide Inv;
    if !s'.top(p).ReadDone? { AlwaysAnAccess(s', p); }
  }
}
