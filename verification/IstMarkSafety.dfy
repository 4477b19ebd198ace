/** Every finished `markAndCount` returns the exact number of pairs of a frozen subtree. */
module IstMarkSafety {
  import opened DcssCell
  import opened IstMark

  /** The first `i` pointers lead to frozen subtrees with `sum` pairs. */
  predicate Summed(nodes: seq<Rec>, n: nat, i: nat, sum: nat)
    requires Wf(nodes) && n < |nodes|
  {
    && !nodes[n].dirty.Clean? && i <= |nodes[n].slots| && sum == CountUpTo(nodes, n, i)
    && forall j :: 0 <= j < i ==> SlotFrozen(nodes, n, nodes[n].slots[j])
  }

  predicate Counted(nodes: seq<Rec>, n: nat, c: nat)
    requires Wf(nodes)
  {
    n < |nodes| && Frozen(nodes, n) && c == Count(nodes, n)
  }

  predicate FrameOk(nodes: seq<Rec>, f: Frame)
    requires Wf(nodes)
  {
    && f.node < |nodes|
    && match f.pc
       case Check => true
       case Start => true
       case Claim => !nodes[f.node].dirty.Clean?
       case ClaimRead(ix) => !nodes[f.node].dirty.Clean? && ix < |nodes[f.node].slots|
       case ClaimWait => !nodes[f.node].dirty.Clean?
       case Claimed => !nodes[f.node].dirty.Clean?
       case Loop(i, sum) => Summed(nodes, f.node, i, sum)
       case Wait(i, sum) => Summed(nodes, f.node, i, sum) && i < |nodes[f.node].slots|
       case Added(i, sum) => Summed(nodes, f.node, i, sum)
       case Finish(sum) => Counted(nodes, f.node, sum)
  }

  /** A call in the middle of the loop waits for the node its pointer leads to. */
  predicate Linked(nodes: seq<Rec>, f: Frame, g: Frame)
    requires Wf(nodes)
  {
    f.pc.Wait? ==>
      && f.node < |nodes| && f.pc.i < |nodes[f.node].slots|
      && Calm(nodes[f.node].slots[f.pc.i]) && Logical(nodes[f.node].slots[f.pc.i]) == Ref(g.node)
  }

  predicate StackOk(nodes: seq<Rec>, st: seq<Frame>)
    requires Wf(nodes)
  {
    && StackShape(nodes, st)
    && (forall k :: 0 <= k < |st| ==> FrameOk(nodes, st[k]))
    && forall k :: 0 <= k < |st| - 1 ==> Linked(nodes, st[k], st[k + 1])
  }

  predicate DirtyOk(nodes: seq<Rec>)
    requires Wf(nodes)
  {
    forall n :: 0 <= n < |nodes| && nodes[n].dirty.Finished? ==> Counted(nodes, n, nodes[n].dirty.sum)
  }

  predicate ReturnedOk(nodes: seq<Rec>, returned: seq<(nat, nat)>)
    requires Wf(nodes)
  {
    forall i :: 0 <= i < |returned| ==> Counted(nodes, returned[i].0, returned[i].1)
  }

  ghost predicate Inv(s: State) {
    && Wf(s.nodes) && DirtyOk(s.nodes) && ReturnedOk(s.nodes, s.returned)
    && forall h :: 0 <= h < |s.calls| ==> StackOk(s.nodes, s.calls[h])
  }

  // ----- everything survives a change of nodes that keeps what is frozen

  lemma FrameStays(nodes: seq<Rec>, nodes': seq<Rec>, f: Frame)
    requires Wf(nodes) && Wf(nodes') && Extends(nodes, nodes') && FrameOk(nodes, f)
    ensures FrameOk(nodes', f)
  {
    hide CountUpTo, Count, Frozen, SlotFrozen;
    if f.pc.Loop? || f.pc.Wait? || f.pc.Added? { CountStays(nodes, nodes', f.node, f.pc.i); }
    if f.pc.Finish? { FrozenStays(nodes, nodes', f.node); }
  }

  lemma StackStays(nodes: seq<Rec>, nodes': seq<Rec>, st: seq<Frame>)
    requires Wf(nodes) && Wf(nodes') && Extends(nodes, nodes') && StackOk(nodes, st)
    ensures StackOk(nodes', st)
  {
    forall k | 0 <= k < |st| ensures FrameOk(nodes', st[k]) { FrameStays(nodes, nodes', st[k]); }
    forall k | 0 <= k < |st| - 1 ensures Linked(nodes', st[k], st[k + 1]) {
      assert FrameOk(nodes, st[k]) && Linked(nodes, st[k], st[k + 1]);
      if st[k].pc.Wait? { assert SlotsKept(nodes[st[k].node], nodes'[st[k].node]); }
    }
    hide FrameOk, Linked;
  }

  lemma RecordsStay(nodes: seq<Rec>, nodes': seq<Rec>, returned: seq<(nat, nat)>)
    requires Wf(nodes) && Wf(nodes') && Extends(nodes, nodes') && ReturnedOk(nodes, returned)
    ensures ReturnedOk(nodes', returned)
  {
    hide Frozen, Count;
    forall i | 0 <= i < |returned| ensures Counted(nodes', returned[i].0, returned[i].1) {
      assert Counted(nodes, returned[i].0, returned[i].1);
      FrozenStays(nodes, nodes', returned[i].0);
    }
  }

  /** A finished count stays right, and a newly finished one is. */
  lemma DirtyStays(nodes: seq<Rec>, nodes': seq<Rec>, m: nat)
    requires Wf(nodes) && Wf(nodes') && Extends(nodes, nodes') && DirtyOk(nodes)
    requires forall n :: 0 <= n < |nodes'| && nodes'[n].dirty.Finished? && n != m ==> n < |nodes| && nodes'[n].dirty == nodes[n].dirty
    requires m < |nodes'| && nodes'[m].dirty.Finished? ==> m < |nodes| && Counted(nodes, m, nodes'[m].dirty.sum)
    ensures DirtyOk(nodes')
  {
    hide Frozen, Count;
    forall n | 0 <= n < |nodes'| && nodes'[n].dirty.Finished? ensures Counted(nodes', n, nodes'[n].dirty.sum) {
      assert Counted(nodes, n, nodes'[n].dirty.sum);
      FrozenStays(nodes, nodes', n);
    }
  }

  /** What a change of the nodes alone keeps. */
  lemma NodesChange(s: State, nodes': seq<Rec>, m: nat)
    requires Inv(s) && Wf(nodes') && Extends(s.nodes, nodes')
    requires forall n :: 0 <= n < |nodes'| && nodes'[n].dirty.Finished? && n != m ==> n < |s.nodes| && nodes'[n].dirty == s.nodes[n].dirty
    requires m < |nodes'| && nodes'[m].dirty.Finished? ==> m < |s.nodes| && Counted(s.nodes, m, nodes'[m].dirty.sum)
    ensures Inv(s.(nodes := nodes'))
  {
    hide StackOk, ReturnedOk, DirtyOk, Counted, Extends, Wf;
    DirtyStays(s.nodes, nodes', m);
    RecordsStay(s.nodes, nodes', s.returned);
    forall h | 0 <= h < |s.calls| ensures StackOk(nodes', s.calls[h]) { StackStays(s.nodes, nodes', s.calls[h]); }
  }

  /** Work on a pointer: in a dirty node a calm pointer stays calm and keeps its logical value. */
  lemma WorkExtends(nodes: seq<Rec>, n: nat, i: nat, c: Cell<Slot>)
    requires Wf(nodes) && CanWork(nodes, n, i, c)
    ensures Wf(Work(nodes, n, i, c)) && Extends(nodes, Work(nodes, n, i, c))
  {
    var nodes' := Work(nodes, n, i, c);
    if !nodes[n].dirty.Clean? && Calm(nodes[n].slots[i]) { CalmStays(nodes[n].slots[i], c); }
    hide CellNext;
    forall m, j | 0 <= m < |nodes'| && 0 <= j < |nodes'[m].slots| ensures CellForward(nodes', m, nodes'[m].slots[j]) {
      if m != n || j != i { assert CellForward(nodes, m, nodes[m].slots[j]); }
    }
    assert !nodes[n].dirty.Clean? ==> SlotsKept(nodes[n], nodes'[n]);
  }

  lemma WorkInv(s: State, n: nat, i: nat, c: Cell<Slot>)
    requires Inv(s) && CanWork(s.nodes, n, i, c)
    ensures Inv(s.(nodes := Work(s.nodes, n, i, c)))
  {
    WorkExtends(s.nodes, n, i, c);
    hide StackOk, ReturnedOk, DirtyOk, Counted, Wf, Extends, CellNext;
    NodesChange(s, Work(s.nodes, n, i, c), |s.nodes|);
  }

  lemma GrowInv(s: State, more: seq<Rec>)
    requires Inv(s) && CanGrow(s.nodes, more)
    ensures Inv(s.(nodes := s.nodes + more))
  {
    hide StackOk, ReturnedOk, DirtyOk, Counted, Calm;
    NodesChange(s, s.nodes + more, |s.nodes| + |more|);
  }

  lemma SetDirtyInv(s: State, n: nat, d: Dirty)
    requires Inv(s) && n < |s.nodes| && !d.Clean? && (d.Finished? ==> Counted(s.nodes, n, d.sum))
    ensures Inv(SetDirty(s, n, d))
  {
    hide StackOk, ReturnedOk, DirtyOk, Counted, Calm;
    var nodes' := SetDirty(s, n, d).nodes;
    forall m, j | 0 <= m < |nodes'| && 0 <= j < |nodes'[m].slots| ensures CellForward(nodes', m, nodes'[m].slots[j]) {
      assert CellForward(s.nodes, m, s.nodes[m].slots[j]);
    }
    NodesChange(s, nodes', n);
  }

  // ----- the helpers' own steps

  lemma StackChange(s: State, h: nat, st: seq<Frame>)
    requires Inv(s) && h < |s.calls| && StackOk(s.nodes, st)
    ensures Inv(s.(calls := s.calls[h := st]))
  {
    hide StackOk, ReturnedOk, DirtyOk;
  }

  /** The topmost call goes on. */
  lemma GotoInv(s: State, h: nat, pc: Pc)
    requires Inv(s) && h < |s.calls| && |s.calls[h]| >= 1 && !pc.ClaimWait? && !pc.Wait?
    requires FrameOk(s.nodes, Frame(s.calls[h][|s.calls[h]| - 1].node, pc))
    ensures Inv(Goto(s, h, pc))
  {
    var st := s.calls[h];
    assert StackOk(s.nodes, st);
    hide FrameOk, Linked, ReturnedOk, DirtyOk;
    var st' := st[..|st| - 1] + [st[|st| - 1].(pc := pc)];
    StackTop(s.nodes, st, st');
    StackChange(s, h, st');
  }

  lemma StackTop(nodes: seq<Rec>, st: seq<Frame>, st': seq<Frame>)
    requires Wf(nodes) && StackOk(nodes, st) && |st'| == |st| >= 1
    requires var k := |st| - 1;
             && st'[..k] == st[..k] && st'[k].node == st[k].node && FrameOk(nodes, st'[k])
             && !st'[k].pc.ClaimWait? && !st'[k].pc.Wait?
    ensures StackOk(nodes, st')
  {
    hide FrameOk;
    var k := |st| - 1;
    assert forall j :: 0 <= j < k ==> st'[j] == st'[..k][j] == st[j];
    forall j | 0 <= j < |st'| - 1 ensures Linked(nodes, st'[j], st'[j + 1]) {
      assert Linked(nodes, st[j], st[j + 1]);
    }
  }

  /** A recursive call begins. */
  lemma CallInv(s: State, h: nat, pc: Pc, id: nat)
    requires Inv(s) && h < |s.calls| && |s.calls[h]| >= 1 && (pc.ClaimWait? || pc.Wait?) && id < |s.nodes|
    requires var f := Frame(s.calls[h][|s.calls[h]| - 1].node, pc);
             FrameOk(s.nodes, f) && Linked(s.nodes, f, Frame(id, Check))
    ensures Inv(Call(s, h, pc, id))
  {
    var st := s.calls[h];
    var k := |st| - 1;
    var f, g := Frame(st[k].node, pc), Frame(id, Check);
    assert StackOk(s.nodes, st);
    var st' := st[..k] + [f] + [g];
    assert FrameOk(s.nodes, g);
    hide FrameOk, ReturnedOk, DirtyOk;
    forall j | 0 <= j < |st'| - 1 ensures Linked(s.nodes, st'[j], st'[j + 1]) {
      if j < k { assert Linked(s.nodes, st[j], st[j + 1]); }
    }
    assert StackOk(s.nodes, st');
    StackChange(s, h, st');
    assert Call(s, h, pc, id).calls == s.calls[h := st'];
  }

  /** The frame below goes on with the exact count of the subtree it was waiting for. */
  lemma ResumeOk(nodes: seq<Rec>, f: Frame, g: Frame, c: nat)
    requires Wf(nodes) && FrameOk(nodes, f) && Linked(nodes, f, g) && (f.pc.ClaimWait? || f.pc.Wait?) && Counted(nodes, g.node, c)
    ensures FrameOk(nodes, f.(pc := Resume(f.pc, c)))
  {
    if f.pc.Wait? {
      var i := f.pc.i;
      var c := nodes[f.node].slots[i];
      assert CellForward(nodes, f.node, c);
      assert CountUpTo(nodes, f.node, i + 1) == CountUpTo(nodes, f.node, i) + SlotCount(nodes, f.node, Logical(c));
      assert SlotFrozen(nodes, f.node, c);
    }
  }

  lemma ReturnInv(s: State, h: nat, c: nat)
    requires Inv(s) && CanStep(s, h) && Counted(s.nodes, s.calls[h][|s.calls[h]| - 1].node, c)
    ensures Inv(Return(s, h, c))
  {
    var st := s.calls[h];
    var k := |st| - 1;
    assert StackOk(s.nodes, st);
    hide Counted, DirtyOk;
    if k == 0 {
      assert StackOk(s.nodes, []);
      var s' := s.(returned := s.returned + [(st[0].node, c)]);
      assert ReturnedOk(s.nodes, s'.returned);
      hide StackOk, ReturnedOk;
      StackChange(s', h, []);
    } else {
      ResumeOk(s.nodes, st[k - 1], st[k], c);
      var f := st[k - 1].(pc := Resume(st[k - 1].pc, c));
      hide FrameOk, ReturnedOk;
      PopOk(s.nodes, st, f);
      StackChange(s, h, st[..k - 1] + [f]);
    }
  }

  lemma PopOk(nodes: seq<Rec>, st: seq<Frame>, f: Frame)
    requires Wf(nodes) && StackOk(nodes, st) && |st| >= 2 && f.node == st[|st| - 2].node && FrameOk(nodes, f)
    requires !f.pc.ClaimWait? && !f.pc.Wait?
    ensures StackOk(nodes, st[..|st| - 2] + [f])
  {
    hide FrameOk;
    var st' := st[..|st| - 2] + [f];
    forall j | 0 <= j < |st'| - 1 ensures Linked(nodes, st'[j], st'[j + 1]) {
      assert Linked(nodes, st[j], st[j + 1]);
    }
  }

  /** All pointers summed: the node is frozen and the sum is its count. */
  lemma AllSummed(nodes: seq<Rec>, n: nat, sum: nat)
    requires Wf(nodes) && n < |nodes| && Summed(nodes, n, |nodes[n].slots|, sum)
    ensures Counted(nodes, n, sum)
  {
  }

  lemma OneMore(nodes: seq<Rec>, n: nat, i: nat, sum: nat)
    requires Wf(nodes) && n < |nodes| && Summed(nodes, n, i, sum) && i < |nodes[n].slots|
    requires nodes[n].slots[i].Word? && nodes[n].slots[i].w.Leaf?
    ensures Summed(nodes, n, i + 1, sum + if nodes[n].slots[i].w.present then 1 else 0)
  {
    assert CellForward(nodes, n, nodes[n].slots[i]);
  }

  lemma NoneSummed(nodes: seq<Rec>, n: nat)
    requires Wf(nodes) && n < |nodes| && !nodes[n].dirty.Clean?
    ensures Summed(nodes, n, 0, 0)
  {
  }

  lemma TicketInv(s: State, n: nat)
    requires Inv(s) && n < |s.nodes|
    ensures Inv(TakeTicket(s, n))
  {
    var nodes' := TakeTicket(s, n).nodes;
    forall m, j | 0 <= m < |nodes'| && 0 <= j < |nodes'[m].slots| ensures CellForward(nodes', m, nodes'[m].slots[j]) {
      assert CellForward(s.nodes, m, s.nodes[m].slots[j]);
    }
    assert s.nodes[n].dirty.Finished? ==> Counted(s.nodes, n, s.nodes[n].dirty.sum);
    hide Inv, Counted, CellForward;
    NodesChange(s, nodes', n);
  }

  lemma ClaimInv(s: State, h: nat)
    requires Inv(s) && CanStep(s, h) && s.calls[h][|s.calls[h]| - 1].pc.Claim?
    ensures Inv(HelperStep(s, h))
  {
    var f := s.calls[h][|s.calls[h]| - 1];
    var r := s.nodes[f.node];
    assert StackOk(s.nodes, s.calls[h]) && FrameOk(s.nodes, f);
    NoneSummed(s.nodes, f.node);
    if |r.slots| > MAX_ACCEPTABLE_LEAF_SIZE {
      var s1 := TakeTicket(s, f.node);
      TicketInv(s, f.node);
      NoneSummed(s1.nodes, f.node);
      hide Inv, StackOk, Summed, Goto;
      GotoInv(s1, h, if r.ticket < |r.slots| then ClaimRead(r.ticket) else Loop(0, 0));
    } else {
      hide Inv, StackOk, Summed, Goto;
      GotoInv(s, h, Loop(0, 0));
    }
  }

  lemma HelperStepInv(s: State, h: nat)
    requires Inv(s) && CanStep(s, h)
    ensures Inv(HelperStep(s, h))
  {
    var st := s.calls[h];
    var f := st[|st| - 1];
    var r := s.nodes[f.node];
    assert StackOk(s.nodes, st);
    assert FrameOk(s.nodes, f);
    assert r.dirty.Finished? ==> Counted(s.nodes, f.node, r.dirty.sum);
    hide StackOk, Counted, Summed, Inv, Goto, Call, Return, SetDirty;
    match f.pc
    case Check =>
      if r.dirty.Finished? { ReturnInv(s, h, r.dirty.sum); } else { GotoInv(s, h, if r.dirty.Clean? then Start else Claim); }
    case Start =>
      StartInv(s, h);
    case Claim =>
      ClaimInv(s, h);
    case ClaimRead(ix) =>
      assert CellForward(s.nodes, f.node, r.slots[ix]);
      if r.slots[ix].Word? {
        if r.slots[ix].w.Ref? { CallInv(s, h, ClaimWait, r.slots[ix].w.id); } else { GotoInv(s, h, Claimed); }
      }
    case Claimed =>
      if r.dirty.Finished? { ReturnInv(s, h, r.dirty.sum); } else { GotoInv(s, h, Claim); }
    case Loop(i, sum) =>
      LoopInv(s, h);
    case Added(i, sum) =>
      if r.dirty.Finished? { ReturnInv(s, h, r.dirty.sum); } else { GotoInv(s, h, Loop(i, sum)); }
    case Finish(sum) =>
      FinishInv(s, h);
  }

  lemma StartInv(s: State, h: nat)
    requires Inv(s) && CanStep(s, h) && s.calls[h][|s.calls[h]| - 1].pc.Start?
    ensures Inv(HelperStep(s, h))
  {
    var f := s.calls[h][|s.calls[h]| - 1];
    var s1 := if s.nodes[f.node].dirty.Clean? then SetDirty(s, f.node, Started) else s;
    if s.nodes[f.node].dirty.Clean? { SetDirtyInv(s, f.node, Started); }
    assert s1.calls == s.calls && !s1.nodes[f.node].dirty.Clean? && |s1.nodes| == |s.nodes|;
    hide Inv;
    GotoInv(s1, h, Claim);
  }

  lemma LoopInv(s: State, h: nat)
    requires Inv(s) && CanStep(s, h) && s.calls[h][|s.calls[h]| - 1].pc.Loop?
    ensures Inv(HelperStep(s, h))
  {
    var f := s.calls[h][|s.calls[h]| - 1];
    var r, i, sum := s.nodes[f.node], f.pc.i, f.pc.sum;
    assert StackOk(s.nodes, s.calls[h]);
    assert FrameOk(s.nodes, f);
    hide StackOk, Counted, Inv, Goto, Call;
    if i >= |r.slots| {
      AllSummed(s.nodes, f.node, sum);
      GotoInv(s, h, Finish(sum));
    } else if r.slots[i].Word? {
      assert CellForward(s.nodes, f.node, r.slots[i]);
      if r.slots[i].w.Ref? {
        CallInv(s, h, Wait(i, sum), r.slots[i].w.id);
      } else {
        OneMore(s.nodes, f.node, i, sum);
        GotoInv(s, h, Added(i + 1, sum + if r.slots[i].w.present then 1 else 0));
      }
    }
  }

  lemma FinishInv(s: State, h: nat)
    requires Inv(s) && CanStep(s, h) && s.calls[h][|s.calls[h]| - 1].pc.Finish?
    ensures Inv(HelperStep(s, h))
  {
    var f := s.calls[h][|s.calls[h]| - 1];
    var sum := f.pc.sum;
    assert StackOk(s.nodes, s.calls[h]);
    assert FrameOk(s.nodes, f);
    var s1 := if s.nodes[f.node].dirty.Started? then SetDirty(s, f.node, Finished(sum)) else s;
    if s.nodes[f.node].dirty.Started? { SetDirtyInv(s, f.node, Finished(sum)); }
    assert s1.calls == s.calls;
    assert StackOk(s1.nodes, s1.calls[h]);
    assert FrameOk(s1.nodes, f);
    hide Inv, StackOk, Counted;
    ReturnInv(s1, h, sum);
  }

  lemma NextInv(s: State, s': State)
    requires Inv(s) && Next(s, s')
    ensures Inv(s')
  {
    hide Inv, CanWork, Work, CanGrow, HelperStep;
    if n: nat, i: nat, c :| CanWork(s.nodes, n, i, c) && s' == s.(nodes := Work(s.nodes, n, i, c)) {
      WorkInv(s, n, i, c);
    } else if more :| CanGrow(s.nodes, more) && s' == s.(nodes := s.nodes + more) {
      GrowInv(s, more);
    } else if h: nat, n: nat :| Begins(s, h, n) && s' == s.(calls := s.calls[h := [Frame(n, Check)]]) {
      BeginInv(s, h, n);
    } else {
      var h: nat :| CanStep(s, h) && s' == HelperStep(s, h);
      HelperStepInv(s, h);
    }
  }

  lemma BeginInv(s: State, h: nat, n: nat)
    requires Inv(s) && Begins(s, h, n)
    ensures Inv(s.(calls := s.calls[h := [Frame(n, Check)]]))
  {
    assert StackOk(s.nodes, [Frame(n, Check)]);
    StackChange(s, h, [Frame(n, Check)]);
  }

  // ----- whole runs

  ghost predicate Run(run: seq<State>) {
    && |run| > 0 && Initial(run[0])
    && forall i :: 0 <= i < |run| - 1 ==> Next(run[i], run[i + 1])
  }

  lemma {:induction false} RunInv(run: seq<State>, i: nat)
    requires Run(run) && i < |run|
    ensures Inv(run[i])
  {
    if i > 0 {
      RunInv(run, i - 1);
      hide Inv, Next;
      NextInv(run[i - 1], run[i]);
    }
  }

  lemma NextExtends(s: State, s': State)
    requires Inv(s) && Next(s, s')
    ensures Extends(s.nodes, s'.nodes)
  {
    hide Inv, Calm;
    if n: nat, i: nat, c :| CanWork(s.nodes, n, i, c) && s' == s.(nodes := Work(s.nodes, n, i, c)) {
      WorkExtends(s.nodes, n, i, c);
    }
    hide CanWork, Work, CellNext;
  }

  lemma {:induction false} RunExtends(run: seq<State>, i: nat, j: nat)
    requires Run(run) && i <= j < |run|
    ensures Extends(run[i].nodes, run[j].nodes)
  {
    hide Inv, Next, Initial;
    if i < j {
      RunExtends(run, i, j - 1);
      RunInv(run, j - 1);
      NextExtends(run[j - 1], run[j]);
      ExtendsTrans(run[i].nodes, run[j - 1].nodes, run[j].nodes);
    }
    hide Extends;
  }

  lemma ExtendsTrans(a: seq<Rec>, b: seq<Rec>, c: seq<Rec>)
    requires Extends(a, b) && Extends(b, c)
    ensures Extends(a, c)
  {
  }

  /**
   Once a node's `dirty` field is non-zero, a pointer found free of operations keeps its logical value for ever: every
   later reader that finds a plain word finds the same one.
   */
  lemma DirtyNodesNeverChange(run: seq<State>, i: nat, j: nat, n: nat, x: nat)
    requires Run(run) && i <= j < |run| && n < |run[i].nodes| && !run[i].nodes[n].dirty.Clean?
    requires x < |run[i].nodes[n].slots| && run[i].nodes[n].slots[x].Word?
    ensures n < |run[j].nodes| && |run[j].nodes[n].slots| == |run[i].nodes[n].slots| && !run[j].nodes[n].dirty.Clean?
    ensures Logical(run[j].nodes[n].slots[x]) == run[i].nodes[n].slots[x].w
    ensures run[j].nodes[n].slots[x].Word? ==> run[j].nodes[n].slots[x] == run[i].nodes[n].slots[x]
  {
    hide Next;
    RunExtends(run, i, j);
    assert SlotsKept(run[i].nodes[n], run[j].nodes[n]);
  }

  /**
   The logical value of a pointer of a dirty node changes in a step only when an undecided operation, for which `dirty`
   was read as zero before, succeeds; and whenever such an operation would change the pointer, it can do so next.
   */
  lemma LateSuccessOnly(s: State, n: nat, x: nat)
    requires Inv(s) && n < |s.nodes| && !s.nodes[n].dirty.Clean? && x < |s.nodes[n].slots|
    ensures var c := s.nodes[n].slots[x];
            (forall s' :: Next(s, s') ==> n < |s'.nodes| && x < |s'.nodes[n].slots| && Logical(s'.nodes[n].slots[x]) == Logical(c))
            <==> Calm(c) || c.after == c.before
  {
    var c := s.nodes[n].slots[x];
    assert CellForward(s.nodes, n, c);
    if Calm(c) {
      forall s' | Next(s, s') ensures n < |s'.nodes| && x < |s'.nodes[n].slots| && Logical(s'.nodes[n].slots[x]) == Logical(c) {
        NextExtends(s, s');
        assert SlotsKept(s.nodes[n], s'.nodes[n]);
      }
    } else if c.after == c.before {
      forall s' | Next(s, s') ensures n < |s'.nodes| && x < |s'.nodes[n].slots| && Logical(s'.nodes[n].slots[x]) == Logical(c) {
        NextCell(s, s', n, x);
        CalmIff(c);
      }
    } else {
      var d := c.(st := Succeeded);
      assert Decides(c, d) && CanWork(s.nodes, n, x, d);
      var s' := s.(nodes := Work(s.nodes, n, x, d));
      assert Next(s, s') && Logical(s'.nodes[n].slots[x]) != Logical(c);
    }
  }

  /** Such a late success does happen: a run in which a pointer's logical value changes from `u` to `w` after its node has become dirty. */
  lemma LateSuccessHappens(u: Slot, w: Slot) returns (run: seq<State>)
    requires u.Leaf? && w.Leaf?
    ensures Run(run) && |run| == 7 && |run[5].nodes| == |run[6].nodes| == 1
    ensures |run[5].nodes[0].slots| == |run[6].nodes[0].slots| == 1 && !run[5].nodes[0].dirty.Clean?
    ensures Logical(run[5].nodes[0].slots[0]) == u && Logical(run[6].nodes[0].slots[0]) == w
  {
    hide Run, CellNext;
    LateSuccess(u, w);
    run := RunThrough(Word(u), Pending(u, w, Undecided, false, false), Pending(u, w, Undecided, true, false), Pending(u, w, Succeeded, true, false));
  }

  lemma LateSuccess(u: Slot, w: Slot)
    ensures CellNext(Word(u), Pending(u, w, Undecided, false, false), true)
    ensures CellNext(Pending(u, w, Undecided, false, false), Pending(u, w, Undecided, true, false), true)
    ensures CellNext(Pending(u, w, Undecided, true, false), Pending(u, w, Succeeded, true, false), false)
  {
    assert Installs(Word(u), Pending(u, w, Undecided, false, false));
    assert Look(Pending(u, w, Undecided, false, false), true) == Pending(u, w, Undecided, true, false);
    assert Decides(Pending(u, w, Undecided, true, false), Pending(u, w, Succeeded, true, false));
  }

  lemma RunThrough(c0: Cell<Slot>, c1: Cell<Slot>, c2: Cell<Slot>, c3: Cell<Slot>) returns (run: seq<State>)
    requires CellNext(c0, c1, true) && CellNext(c1, c2, true) && CellNext(c2, c3, false)
    requires Plain(c0) && Plain(c1) && Plain(c2) && Plain(c3)
    ensures Run(run) && |run| == 7
    ensures run[5] == OneNode(Started, c2, [Frame(0, Claim)]) && run[6] == OneNode(Started, c3, [Frame(0, Claim)])
  {
    hide Next, CellNext, Initial;
    OneInitial(c0);
    WorkStep(Clean, c0, c1, []);
    WorkStep(Clean, c1, c2, []);
    WorkStep(Started, c2, c3, [Frame(0, Claim)]);
    HelperStarts(c2);
    run := [OneNode(Clean, c0, []), OneNode(Clean, c1, []), OneNode(Clean, c2, []), OneNode(Clean, c2, [Frame(0, Check)]),
            OneNode(Clean, c2, [Frame(0, Start)]), OneNode(Started, c2, [Frame(0, Claim)]), OneNode(Started, c3, [Frame(0, Claim)])];
    hide OneNode;
    SevenSteps(run);
  }

  /** Nothing in the cell leads to a node. */
  predicate Plain(c: Cell<Slot>) {
    if c.Word? then c.w.Leaf? else c.before.Leaf? && c.after.Leaf?
  }

  lemma OneInitial(c: Cell<Slot>)
    requires Plain(c)
    ensures Initial(OneNode(Clean, c, []))
  {
  }

  lemma SevenSteps(run: seq<State>)
    requires |run| == 7 && Initial(run[0]) && Next(run[0], run[1]) && Next(run[1], run[2]) && Next(run[2], run[3])
    requires Next(run[3], run[4]) && Next(run[4], run[5]) && Next(run[5], run[6])
    ensures Run(run)
  {
    hide Next, Initial;
    forall i | 0 <= i < 6 ensures Next(run[i], run[i + 1]) {
      assert i == 0 || i == 1 || i == 2 || i == 3 || i == 4 || i == 5;
    }
  }

  function OneNode(d: Dirty, c: Cell<Slot>, st: seq<Frame>): State {
    State([Rec(d, [c], 0)], [st], [])
  }

  lemma WorkStep(d: Dirty, c: Cell<Slot>, c': Cell<Slot>, st: seq<Frame>)
    requires CellNext(c, c', d.Clean?) && Plain(c) && Plain(c')
    ensures Next(OneNode(d, c, st), OneNode(d, c', st))
  {
    var s := OneNode(d, c, st);
    assert [c][0 := c'] == [c'];
    assert CanWork(s.nodes, 0, 0, c') && Work(s.nodes, 0, 0, c') == [Rec(d, [c'], 0)];
  }

  lemma HelperStarts(c: Cell<Slot>)
    requires Plain(c)
    ensures Next(OneNode(Clean, c, []), OneNode(Clean, c, [Frame(0, Check)]))
    ensures Next(OneNode(Clean, c, [Frame(0, Check)]), OneNode(Clean, c, [Frame(0, Start)]))
    ensures Next(OneNode(Clean, c, [Frame(0, Start)]), OneNode(Started, c, [Frame(0, Claim)]))
  {
    hide Next;
    HelperBegins(c);
    HelperChecks(c);
    HelperMarks(c);
  }

  lemma HelperBegins(c: Cell<Slot>)
    requires Plain(c)
    ensures Next(OneNode(Clean, c, []), OneNode(Clean, c, [Frame(0, Check)]))
  {
    var s2, s3 := OneNode(Clean, c, []), OneNode(Clean, c, [Frame(0, Check)]);
    assert Begins(s2, 0, 0) && s3.calls == s2.calls[0 := [Frame(0, Check)]];
  }

  lemma HelperChecks(c: Cell<Slot>)
    requires Plain(c)
    ensures Next(OneNode(Clean, c, [Frame(0, Check)]), OneNode(Clean, c, [Frame(0, Start)]))
  {
    var s3, s4 := OneNode(Clean, c, [Frame(0, Check)]), OneNode(Clean, c, [Frame(0, Start)]);
    GotoOne(Clean, c, Check, Start);
    hide Goto;
    assert CanStep(s3, 0) && HelperStep(s3, 0) == s4;
  }

  lemma HelperMarks(c: Cell<Slot>)
    requires Plain(c)
    ensures Next(OneNode(Clean, c, [Frame(0, Start)]), OneNode(Started, c, [Frame(0, Claim)]))
  {
    var s4 := OneNode(Clean, c, [Frame(0, Start)]);
    GotoOne(Started, c, Start, Claim);
    assert SetDirty(s4, 0, Started) == OneNode(Started, c, [Frame(0, Start)]);
    hide Goto, SetDirty;
    assert CanStep(s4, 0) && HelperStep(s4, 0) == OneNode(Started, c, [Frame(0, Claim)]);
  }

  lemma GotoOne(d: Dirty, c: Cell<Slot>, pc: Pc, pc': Pc)
    ensures Goto(OneNode(d, c, [Frame(0, pc)]), 0, pc') == OneNode(d, c, [Frame(0, pc')])
  {
    var st := [Frame(0, pc)];
    assert st[..|st| - 1] + [st[|st| - 1].(pc := pc')] == [Frame(0, pc')];
    assert [st][0 := [Frame(0, pc')]] == [[Frame(0, pc')]];
  }

  /** Whatever the step, each pointer makes at most one step of its own. */
  lemma NextCell(s: State, s': State, n: nat, x: nat)
    requires Wf(s.nodes) && Next(s, s') && n < |s.nodes| && x < |s.nodes[n].slots|
    ensures n < |s'.nodes| && x < |s'.nodes[n].slots|
    ensures CellNext(s.nodes[n].slots[x], s'.nodes[n].slots[x], s.nodes[n].dirty.Clean?)
  {
    hide Look, Installs, Decides, Removes, Wf;
  }

  /**
   Every outermost call that has returned by state `i` returned the exact number of pairs of its subtree, which
   is frozen by then; the number is the same in every later state, so all helpers of a subtree agree.
   */
  lemma MarkAndCountExact(run: seq<State>, i: nat, j: nat, r: nat)
    requires Run(run) && i <= j < |run| && r < |run[i].returned|
    ensures var n, c := run[i].returned[r].0, run[i].returned[r].1;
            && Wf(run[i].nodes) && n < |run[i].nodes| && Frozen(run[i].nodes, n) && c == Count(run[i].nodes, n)
            && Wf(run[j].nodes) && n < |run[j].nodes| && Frozen(run[j].nodes, n) && c == Count(run[j].nodes, n)
  {
    RunInv(run, i);
    RunInv(run, j);
    hide Next, Frozen, Count;
    RunExtends(run, i, j);
    assert Counted(run[i].nodes, run[i].returned[r].0, run[i].returned[r].1);
    FrozenStays(run[i].nodes, run[j].nodes, run[i].returned[r].0);
  }

  lemma HelpersAgree(run: seq<State>, i: nat, r: nat, q: nat)
    requires Run(run) && i < |run| && r < |run[i].returned| && q < |run[i].returned|
    requires run[i].returned[r].0 == run[i].returned[q].0
    ensures run[i].returned[r].1 == run[i].returned[q].1
  {
    hide Next, Frozen, Count;
    MarkAndCountExact(run, i, i, r);
    MarkAndCountExact(run, i, i, q);
  }
}
