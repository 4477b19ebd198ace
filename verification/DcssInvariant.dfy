/** What every step of the protocol keeps. */
module DcssInvariant {
  import opened Dcss

  predicate Odd(n: nat) { n % 2 == 1 }

  /** A tag sits only in its operation's target, while its owner is inside `dcssHelp` for it. */
  ghost predicate CellOk(s: State, a: Addr) {
    s.mem(a).Tag? && a in s.targets ==>
      var t, q := s.mem(a).tid, s.mem(a).sn;
      s.top(t).Own? && s.top(t).q == q && s.desc(t).sn == q && s.desc(t).req.addr2 == a
  }

  /** The first `k` argument fields have been written. */
  predicate Filled(r: Req, req: Req, k: nat) {
    && (k > 0 ==> r.addr1 == req.addr1)
    && (k > 1 ==> r.old1 == req.old1)
    && (k > 2 ==> r.addr2 == req.addr2)
    && (k > 3 ==> r.old2 == req.old2)
    && (k > 4 ==> r.new2 == req.new2)
  }

  ghost predicate TopOk(s: State, p: Pid) {
    var d := s.desc(p);
    match s.top(p)
    case Idle => Odd(d.sn) && s.help(p).NoHelp?
    case NewRead(req) => Odd(d.sn) && s.help(p).NoHelp? && req.addr2 in s.targets
    case NewWrite(req, v) => Odd(d.sn) && v == d.sn && s.help(p).NoHelp? && req.addr2 in s.targets
    case Fill(req, k) =>
      !Odd(d.sn) && k < 5 && d.st == Undecided && Filled(d.req, req, k) && s.help(p).NoHelp? && req.addr2 in s.targets
    case InitRead(req) =>
      !Odd(d.sn) && d.st == Undecided && d.req == req && s.help(p).NoHelp? && req.addr2 in s.targets
    case InitWrite(req, v, st) =>
      !Odd(d.sn) && v == d.sn && d.st == st == Undecided && d.req == req && s.help(p).NoHelp? && req.addr2 in s.targets
    case Install(req, q) =>
      Odd(d.sn) && q == d.sn && d.st == Undecided && d.req == req && req.addr2 in s.targets
    case Own(req, q) =>
      && Odd(d.sn) && q == d.sn && d.req == req && req.addr2 in s.targets
      && !s.help(p).NoHelp? && !s.help(p).Copying? && s.help(p).t == p && s.help(p).q == q
      && (d.st == Undecided ==> s.mem(req.addr2) == Tag(p, q))
      && (s.help(p).CasMutables? ==> s.help(p).vsn == q)
    case Done(req, q, _) => Odd(d.sn) && q == d.sn && d.req == req && s.help(p).NoHelp?
    case Reading(a) => Odd(d.sn) && a in s.targets
    case ReadDone(_, r) => Odd(d.sn) && r.Val? && s.help(p).NoHelp?
  }

  predicate CopiedOk(d: Desc, snap: Desc, got: set<Field>) {
    && (FMutables in got ==> snap.sn == d.sn)
    && (FAddr1 in got ==> snap.req.addr1 == d.req.addr1)
    && (FOld1 in got ==> snap.req.old1 == d.req.old1)
    && (FAddr2 in got ==> snap.req.addr2 == d.req.addr2)
    && (FOld2 in got ==> snap.req.old2 == d.req.old2)
    && (FNew2 in got ==> snap.req.new2 == d.req.new2)
  }

  /**
   A helper of the tag `(t, q)`.  Everything it knows is about the descriptor while the descriptor
   still carries the sequence number `q`; once the number has moved on, nothing is claimed.
   */
  ghost predicate HelpOk(s: State, p: Pid) {
    var h := s.help(p);
    !h.NoHelp? ==>
      var d := s.desc(h.t);
      && Odd(h.q) && h.q <= d.sn
      && (h.Copying? ==> !s.top(p).Own?)
      && (!h.Copying? ==> h.snap.sn == h.q && h.snap.req.addr2 in s.targets)
      && (d.sn == h.q ==>
            && (s.top(h.t).Own? || d.st != Undecided)
            && d.req.addr2 in s.targets
            && (if h.Copying? then CopiedOk(d, h.snap, h.got) else h.snap.req == d.req)
            && (h.CasAddr2? ==> d.st == if h.win then Succeeded else Failed))
  }

  ghost predicate Inv(s: State) {
    && (forall a: Addr :: CellOk(s, a))
    && (forall p: Pid :: TopOk(s, p))
    && (forall p: Pid :: HelpOk(s, p))
  }

  lemma InitialInv(s: State)
    requires Initial(s)
    ensures Inv(s)
  {
  }

  lemma CellKept(s: State, act: Action, a: Addr)
    requires Inv(s) && Enabled(s, act)
    ensures CellOk(Apply(s, act), a)
  {
    var s' := Apply(s, act);
    assert CellOk(s, a);
    if s'.mem(a).Tag? {
      var t := s'.mem(a).tid;
      assert TopOk(s, t) && HelpOk(s, t);
      if act.Tick? {
        var p := act.p;
        assert TopOk(s, p) && HelpOk(s, p);
      }
    }
    hide Inv;
  }

  lemma TopKeptByOperation(s: State, p': Pid, p: Pid)
    requires Inv(s) && Enabled(s, Tick(p')) && s.help(p').NoHelp?
    ensures TopOk(Apply(s, Tick(p')), p)
  {
    assert TopOk(s, p) && TopOk(s, p');
    if s.top(p').Reading? { assert CellOk(s, s.top(p').addr); }
    hide Inv;
    match s.top(p')
    case NewRead(req) =>
    case NewWrite(req, v) =>
    case Fill(req, k) =>
    case InitRead(req) =>
    case InitWrite(req, v, st) =>
    case Install(req, q) =>
    case Reading(a) =>
  }

  lemma TopKeptByHelp(s: State, p': Pid, p: Pid)
    requires Inv(s) && Enabled(s, Tick(p')) && !s.help(p').NoHelp?
    ensures TopOk(Apply(s, Tick(p')), p)
  {
    assert TopOk(s, p) && TopOk(s, p') && HelpOk(s, p');
    hide Inv;
    match s.help(p')
    case Copying(t, q, got, snap) =>
    case ReadAddr1(t, q, snap) =>
    case ReadMutables(t, q, snap, val1) =>
    case CasMutables(t, q, snap, val1, vsn) =>
    case CasAddr2(t, q, snap, val1, win) => 
  }

  lemma TopKept(s: State, act: Action, p: Pid)
    requires Inv(s) && Enabled(s, act)
    ensures TopOk(Apply(s, act), p)
  {
    assert TopOk(s, p);
    match act
    case Write(a, w) =>
    case Call(p', req) =>
    case CallRead(p', a) =>
    case Return(p') =>
    case Copy(p', f) => assert HelpOk(s, p');
    case Tick(p') =>
      if s.help(p').NoHelp? { TopKeptByOperation(s, p', p); } else { TopKeptByHelp(s, p', p); }
  }

  lemma HelpKeptByOperation(s: State, p': Pid, p: Pid)
    requires Inv(s) && Enabled(s, Tick(p')) && s.help(p').NoHelp?
    ensures HelpOk(Apply(s, Tick(p')), p)
  {
    assert TopOk(s, p') && HelpOk(s, p);
    match s.top(p')
    case NewRead(req) =>
    case NewWrite(req, v) =>
    case Fill(req, k) =>
    case InitRead(req) =>
    case InitWrite(req, v, st) =>
    case Install(req, q) =>
      assert CellOk(s, req.addr2);
      if s.mem(req.addr2).Tag? { assert TopOk(s, s.mem(req.addr2).tid); }
    case Reading(a) =>
      assert CellOk(s, a);
      if s.mem(a).Tag? { assert TopOk(s, s.mem(a).tid); }
  }

  lemma HelpKeptByHelp(s: State, p': Pid, p: Pid)
    requires Inv(s) && Enabled(s, Tick(p')) && !s.help(p').NoHelp?
    ensures HelpOk(Apply(s, Tick(p')), p)
  {
    assert TopOk(s, p') && HelpOk(s, p') && HelpOk(s, p);
    hide Inv;
    match s.help(p')
    case Copying(t, q, got, snap) =>
    case ReadAddr1(t, q, snap) =>
    case ReadMutables(t, q, snap, val1) =>
    case CasMutables(t, q, snap, val1, vsn) =>
    case CasAddr2(t, q, snap, val1, win) =>
  }

  lemma HelpKept(s: State, act: Action, p: Pid)
    requires Inv(s) && Enabled(s, act)
    ensures HelpOk(Apply(s, act), p)
  {
    assert HelpOk(s, p);
    match act
    case Write(a, w) =>
    case Call(p', req) => assert TopOk(s, p');
    case CallRead(p', a) => assert TopOk(s, p');
    case Return(p') => assert TopOk(s, p');
    case Copy(p', f) => assert HelpOk(s, p');
    case Tick(p') =>
      if s.help(p').NoHelp? { HelpKeptByOperation(s, p', p); } else { HelpKeptByHelp(s, p', p); }
  }

  lemma StepInv(s: State, act: Action)
    requires Inv(s) && Enabled(s, act)
    ensures Inv(Apply(s, act))
  {
    forall a: Addr ensures CellOk(Apply(s, act), a) { CellKept(s, act, a); }
    forall p: Pid ensures TopOk(Apply(s, act), p) { TopKept(s, act, p); }
    forall p: Pid ensures HelpOk(Apply(s, act), p) { HelpKept(s, act, p); }
  }
}
