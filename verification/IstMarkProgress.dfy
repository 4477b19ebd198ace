/** A helper of `markAndCount` that runs alone, on pointers without operations, returns. */
module IstMarkProgress {
  import opened DcssCell
  import opened IstMark
  import opened IstMarkSafety

  /** No pointer holds an operation. */
  predicate NoOperations(nodes: seq<Rec>) {
    forall n, i :: 0 <= n < |nodes| && 0 <= i < |nodes[n].slots| ==> nodes[n].slots[i].Word?
  }

  /** The same pointers, whatever has become of the other fields. */
  predicate SameSlots(nodes: seq<Rec>, nodes': seq<Rec>) {
    |nodes'| == |nodes| && forall n :: 0 <= n < |nodes| ==> nodes'[n].slots == nodes[n].slots && nodes[n].ticket <= nodes'[n].ticket
  }

  // ----- a bound on the steps of a call

  /** For pointer `i`, apart from reading it. */
  function Below(nodes: seq<Rec>, n: nat, i: nat): nat
    requires Wf(nodes) && n < |nodes| && i < |nodes[n].slots|
    decreases |nodes| - n, 0, 0
  {
    assert CellForward(nodes, n, nodes[n].slots[i]);
    var w := Logical(nodes[n].slots[i]);
    if w.Ref? then Visit(nodes, w.id) else 0
  }

  function From(nodes: seq<Rec>, n: nat, i: nat): nat
    requires Wf(nodes) && n < |nodes|
    decreases |nodes| - n, 1, if i < |nodes[n].slots| then |nodes[n].slots| - i else 0
  {
    if i >= |nodes[n].slots| then 0 else 3 + Below(nodes, n, i) + From(nodes, n, i + 1)
  }

  function Visit(nodes: seq<Rec>, n: nat): nat
    requires Wf(nodes) && n < |nodes|
    decreases |nodes| - n, 2, 0
  {
    6 + From(nodes, n, 0) + From(nodes, n, 0)
  }

  /** What a call still has to do itself. */
  function Cost(nodes: seq<Rec>, f: Frame): nat
    requires Wf(nodes) && f.node < |nodes|
  {
    var n := f.node;
    var all, claims := From(nodes, n, 0), From(nodes, n, nodes[n].ticket);
    match f.pc
    case Check => Visit(nodes, n)
    case Start => 5 + all + all
    case Claim => 4 + claims + all
    case ClaimRead(ix) => 6 + (if ix < |nodes[n].slots| then Below(nodes, n, ix) else 0) + claims + all
    case ClaimWait => 5 + claims + all
    case Claimed => 5 + claims + all
    case Loop(i, _) => 3 + From(nodes, n, i)
    case Wait(i, _) => 4 + From(nodes, n, i + 1)
    case Added(i, _) => 4 + From(nodes, n, i)
    case Finish(_) => 2
  }

  predicate InNodes(nodes: seq<Rec>, st: seq<Frame>) {
    forall k :: 0 <= k < |st| ==> st[k].node < |nodes|
  }

  function Total(nodes: seq<Rec>, st: seq<Frame>): nat
    requires Wf(nodes) && InNodes(nodes, st)
  {
    if st == [] then 0 else Cost(nodes, st[|st| - 1]) + Total(nodes, st[..|st| - 1])
  }

  /** The bounds depend on the pointers alone. */
  lemma {:induction false} SameFrom(nodes: seq<Rec>, nodes': seq<Rec>, n: nat, i: nat)
    requires Wf(nodes) && Wf(nodes') && SameSlots(nodes, nodes') && n < |nodes|
    ensures From(nodes', n, i) == From(nodes, n, i)
    ensures i < |nodes[n].slots| ==> Below(nodes', n, i) == Below(nodes, n, i)
    decreases |nodes| - n, 0, if i < |nodes[n].slots| then |nodes[n].slots| - i else 0
  {
    if i < |nodes[n].slots| {
      SameFrom(nodes, nodes', n, i + 1);
      assert CellForward(nodes, n, nodes[n].slots[i]);
      var w := Logical(nodes[n].slots[i]);
      if w.Ref? {
        SameFrom(nodes, nodes', w.id, 0);
        assert Visit(nodes', w.id) == Visit(nodes, w.id);
      }
      assert Below(nodes', n, i) == Below(nodes, n, i);
    }
  }

  lemma {:induction false} FromFalls(nodes: seq<Rec>, n: nat, i: nat, j: nat)
    requires Wf(nodes) && n < |nodes| && i <= j
    ensures From(nodes, n, j) <= From(nodes, n, i)
    decreases j - i
  {
    if i < j { FromFalls(nodes, n, i + 1, j); }
  }

  lemma CostFalls(nodes: seq<Rec>, nodes': seq<Rec>, f: Frame)
    requires Wf(nodes) && Wf(nodes') && SameSlots(nodes, nodes') && f.node < |nodes|
    ensures Cost(nodes', f) <= Cost(nodes, f)
  {
    var n, t, t' := f.node, nodes[f.node].ticket, nodes'[f.node].ticket;
    SameFrom(nodes, nodes', n, 0);
    SameFrom(nodes, nodes', n, t');
    FromFalls(nodes, n, t, t');
    match f.pc
    case ClaimRead(ix) => SameFrom(nodes, nodes', n, ix);
    case Loop(i, _) => SameFrom(nodes, nodes', n, i);
    case Wait(i, _) => SameFrom(nodes, nodes', n, i + 1);
    case Added(i, _) => SameFrom(nodes, nodes', n, i);
    case _ =>
  }

  lemma {:induction false} TotalFalls(nodes: seq<Rec>, nodes': seq<Rec>, st: seq<Frame>)
    requires Wf(nodes) && Wf(nodes') && SameSlots(nodes, nodes') && InNodes(nodes, st)
    ensures Total(nodes', st) <= Total(nodes, st)
    decreases |st|
  {
    if st != [] {
      hide Cost, SameSlots;
      CostFalls(nodes, nodes', st[|st| - 1]);
      TotalFalls(nodes, nodes', st[..|st| - 1]);
    }
  }

  /** The topmost call replaced by other calls. */
  lemma TotalTop(nodes: seq<Rec>, st: seq<Frame>, f: Frame)
    requires Wf(nodes) && InNodes(nodes, st) && f.node < |nodes|
    ensures Total(nodes, st + [f]) == Total(nodes, st) + Cost(nodes, f)
  {
    assert (st + [f])[..|st + [f]| - 1] == st;
  }

  // ----- one step alone

  lemma CostPositive(nodes: seq<Rec>, f: Frame)
    requires Wf(nodes) && f.node < |nodes|
    ensures Cost(nodes, f) >= 2
  {
  }

  /** A step changes at most the `dirty` field and the counter of one node. */
  lemma StepNodes(s: State, h: nat)
    requires Wf(s.nodes) && CanStep(s, h)
    ensures SameSlots(s.nodes, HelperStep(s, h).nodes) && Wf(HelperStep(s, h).nodes)
  {
    var nodes' := HelperStep(s, h).nodes;
    assert SameSlots(s.nodes, nodes');
    forall n, i | 0 <= n < |nodes'| && 0 <= i < |nodes'[n].slots| ensures CellForward(nodes', n, nodes'[n].slots[i]) {
      assert CellForward(s.nodes, n, s.nodes[n].slots[i]);
    }
  }

  /** What becomes of the topmost call: it goes on elsewhere, calls for a node, or returns. */
  datatype Move = Goes(pc: Pc) | Calls(pc: Pc, id: nat) | Returns(c: nat)

  function MoveOf(r: Rec, pc: Pc): Move
    requires forall i :: 0 <= i < |r.slots| ==> r.slots[i].Word?
    requires !pc.ClaimWait? && !pc.Wait? && (pc.ClaimRead? ==> pc.ix < |r.slots|)
  {
    match pc
    case Check => if r.dirty.Finished? then Returns(r.dirty.sum) else Goes(if r.dirty.Clean? then Start else Claim)
    case Start => Goes(Claim)
    case Claim => Goes(if |r.slots| > MAX_ACCEPTABLE_LEAF_SIZE && r.ticket < |r.slots| then ClaimRead(r.ticket) else Loop(0, 0))
    case ClaimRead(ix) => if r.slots[ix].w.Ref? then Calls(ClaimWait, r.slots[ix].w.id) else Goes(Claimed)
    case Claimed => if r.dirty.Finished? then Returns(r.dirty.sum) else Goes(Claim)
    case Loop(i, sum) =>
      if i >= |r.slots| then Goes(Finish(sum))
      else if r.slots[i].w.Ref? then Calls(Wait(i, sum), r.slots[i].w.id)
      else Goes(Added(i + 1, sum + if r.slots[i].w.present then 1 else 0))
    case Added(i, sum) => if r.dirty.Finished? then Returns(r.dirty.sum) else Goes(Loop(i, sum))
    case Finish(sum) => Returns(sum)
  }

  /** The stack after such a move. */
  function Moved(st: seq<Frame>, m: Move): seq<Frame>
    requires |st| > 0 && (|st| > 1 ==> st[|st| - 2].pc.ClaimWait? || st[|st| - 2].pc.Wait?)
  {
    var k := |st| - 1;
    match m
    case Goes(pc) => st[..k] + [Frame(st[k].node, pc)]
    case Calls(pc, id) => st[..k] + [Frame(st[k].node, pc)] + [Frame(id, Check)]
    case Returns(c) => if k == 0 then [] else st[..k - 1] + [Frame(st[k - 1].node, Resume(st[k - 1].pc, c))]
  }

  lemma StepMoves(s: State, h: nat)
    requires Inv(s) && CanStep(s, h) && NoOperations(s.nodes)
    ensures var st := s.calls[h]; var f := st[|st| - 1];
            && (f.pc.ClaimRead? ==> f.pc.ix < |s.nodes[f.node].slots|)
            && var m := MoveOf(s.nodes[f.node], f.pc);
               && HelperStep(s, h).calls == s.calls[h := Moved(st, m)]
               && HelperStep(s, h).returned == (if m.Returns? && |st| == 1 then s.returned + [(f.node, m.c)] else s.returned)
  {
    var st := s.calls[h];
    var f := st[|st| - 1];
    assert StackOk(s.nodes, st) && FrameOk(s.nodes, f);
    hide Inv, StackOk;
  }

  /** The move of a call on node `n` costs something. */
  predicate Cheaper(nodes: seq<Rec>, nodes': seq<Rec>, f: Frame, m: Move)
    requires Wf(nodes) && Wf(nodes') && f.node < |nodes| == |nodes'|
  {
    && (m.Goes? ==> Cost(nodes', Frame(f.node, m.pc)) < Cost(nodes, f))
    && (m.Calls? ==> m.id < |nodes| && Cost(nodes', Frame(f.node, m.pc)) + Visit(nodes', m.id) < Cost(nodes, f))
  }

  lemma MoveFalls(nodes: seq<Rec>, nodes': seq<Rec>, f: Frame)
    requires Wf(nodes) && Wf(nodes') && NoOperations(nodes) && SameSlots(nodes, nodes') && f.node < |nodes|
    requires !f.pc.ClaimWait? && !f.pc.Wait? && (f.pc.ClaimRead? ==> f.pc.ix < |nodes[f.node].slots|)
    requires f.pc.Claim? && |nodes[f.node].slots| > MAX_ACCEPTABLE_LEAF_SIZE ==> nodes'[f.node].ticket == nodes[f.node].ticket + 1
    ensures Cheaper(nodes, nodes', f, MoveOf(nodes[f.node], f.pc))
  {
    hide Wf, NoOperations, Cheaper, MoveOf;
    match f.pc
    case Loop(i, sum) => LoopFalls(nodes, nodes', f);
    case Added(i, sum) => LoopFalls(nodes, nodes', f);
    case Finish(sum) => LoopFalls(nodes, nodes', f);
    case ClaimRead(ix) => ClaimReadFalls(nodes, nodes', f);
    case _ => ClaimFalls(nodes, nodes', f);
  }

  lemma LoopFalls(nodes: seq<Rec>, nodes': seq<Rec>, f: Frame)
    requires Wf(nodes) && Wf(nodes') && NoOperations(nodes) && SameSlots(nodes, nodes') && f.node < |nodes|
    requires !f.pc.ClaimWait? && !f.pc.Wait? && (f.pc.ClaimRead? ==> f.pc.ix < |nodes[f.node].slots|)
    requires f.pc.Claim? && |nodes[f.node].slots| > MAX_ACCEPTABLE_LEAF_SIZE ==> nodes'[f.node].ticket == nodes[f.node].ticket + 1
    requires f.pc.Loop? || f.pc.Added? || f.pc.Finish?
    ensures Cheaper(nodes, nodes', f, MoveOf(nodes[f.node], f.pc))
  {
    var n, r := f.node, nodes[f.node];
    if !f.pc.Finish? {
      var i := f.pc.i;
      FromAt(nodes, n, i);
      SameFrom(nodes, nodes', n, i);
      SameFrom(nodes, nodes', n, i + 1);
      if i < |r.slots| { VisitBelow(nodes, nodes', n, i); }
    }
    hide Wf, From, Below, Visit, SameSlots;
  }

  lemma ClaimReadFalls(nodes: seq<Rec>, nodes': seq<Rec>, f: Frame)
    requires Wf(nodes) && Wf(nodes') && NoOperations(nodes) && SameSlots(nodes, nodes') && f.node < |nodes|
    requires !f.pc.ClaimWait? && !f.pc.Wait? && (f.pc.ClaimRead? ==> f.pc.ix < |nodes[f.node].slots|)
    requires f.pc.Claim? && |nodes[f.node].slots| > MAX_ACCEPTABLE_LEAF_SIZE ==> nodes'[f.node].ticket == nodes[f.node].ticket + 1
    requires f.pc.ClaimRead?
    ensures Cheaper(nodes, nodes', f, MoveOf(nodes[f.node], f.pc))
  {
    var n, t, t' := f.node, nodes[f.node].ticket, nodes'[f.node].ticket;
    SameFrom(nodes, nodes', n, 0);
    SameFrom(nodes, nodes', n, t');
    FromFalls(nodes, n, t, t');
    VisitBelow(nodes, nodes', n, f.pc.ix);
    hide Wf, From, Below, Visit, SameSlots;
  }

  lemma ClaimFalls(nodes: seq<Rec>, nodes': seq<Rec>, f: Frame)
    requires Wf(nodes) && Wf(nodes') && NoOperations(nodes) && SameSlots(nodes, nodes') && f.node < |nodes|
    requires !f.pc.ClaimWait? && !f.pc.Wait? && (f.pc.ClaimRead? ==> f.pc.ix < |nodes[f.node].slots|)
    requires f.pc.Claim? && |nodes[f.node].slots| > MAX_ACCEPTABLE_LEAF_SIZE ==> nodes'[f.node].ticket == nodes[f.node].ticket + 1
    requires f.pc.Check? || f.pc.Start? || f.pc.Claim? || f.pc.Claimed?
    ensures Cheaper(nodes, nodes', f, MoveOf(nodes[f.node], f.pc))
  {
    var n, r := f.node, nodes[f.node];
    var t, t' := r.ticket, nodes'[n].ticket;
    SameFrom(nodes, nodes', n, 0);
    SameFrom(nodes, nodes', n, t');
    FromFalls(nodes, n, t, t');
    FromFalls(nodes, n, 0, t');
    VisitIs(nodes, n);
    FromAt(nodes, n, t);
    if t < |r.slots| { SameFrom(nodes, nodes', n, t); }
    assert nodes'[n].slots == r.slots;
    hide Wf, From, Below, Visit, SameSlots, NoOperations;
  }

  lemma FromAt(nodes: seq<Rec>, n: nat, i: nat)
    requires Wf(nodes) && n < |nodes|
    ensures From(nodes, n, i) == if i < |nodes[n].slots| then 3 + Below(nodes, n, i) + From(nodes, n, i + 1) else 0
  {
  }

  lemma VisitIs(nodes: seq<Rec>, n: nat)
    requires Wf(nodes) && n < |nodes|
    ensures Visit(nodes, n) == 6 + From(nodes, n, 0) + From(nodes, n, 0)
  {
  }

  lemma VisitBelow(nodes: seq<Rec>, nodes': seq<Rec>, n: nat, i: nat)
    requires Wf(nodes) && Wf(nodes') && SameSlots(nodes, nodes') && n < |nodes| && i < |nodes[n].slots|
    ensures var w := Logical(nodes[n].slots[i]); w.Ref? ==> w.id < |nodes| && Visit(nodes', w.id) == Below(nodes, n, i)
  {
    assert CellForward(nodes, n, nodes[n].slots[i]);
    var w := Logical(nodes[n].slots[i]);
    if w.Ref? { SameFrom(nodes, nodes', w.id, 0); }
  }

  lemma TicketTaken(s: State, h: nat)
    requires Wf(s.nodes) && CanStep(s, h)
    ensures var f := s.calls[h][|s.calls[h]| - 1];
            f.pc.Claim? && |s.nodes[f.node].slots| > MAX_ACCEPTABLE_LEAF_SIZE ==> HelperStep(s, h).nodes[f.node].ticket == s.nodes[f.node].ticket + 1
  {
  }

  lemma ResumeCost(nodes: seq<Rec>, f: Frame, c: nat)
    requires Wf(nodes) && f.node < |nodes| && (f.pc.ClaimWait? || f.pc.Wait?)
    ensures Cost(nodes, Frame(f.node, Resume(f.pc, c))) == Cost(nodes, f)
  {
  }

  lemma GoesFalls(nodes: seq<Rec>, nodes': seq<Rec>, pre: seq<Frame>, f: Frame, g: Frame)
    requires Wf(nodes) && Wf(nodes') && |nodes'| == |nodes| && InNodes(nodes, pre) && f.node < |nodes| && g.node < |nodes|
    requires Total(nodes', pre) <= Total(nodes, pre) && Cost(nodes', g) < Cost(nodes, f)
    ensures InNodes(nodes', pre + [g]) && InNodes(nodes, pre + [f]) && Total(nodes', pre + [g]) < Total(nodes, pre + [f])
  {
    hide Cost, Wf, Total;
    TotalTop(nodes, pre, f);
    TotalTop(nodes', pre, g);
  }

  lemma CallsFalls(nodes: seq<Rec>, nodes': seq<Rec>, pre: seq<Frame>, f: Frame, g: Frame, id: nat)
    requires Wf(nodes) && Wf(nodes') && |nodes'| == |nodes| && InNodes(nodes, pre) && f.node < |nodes| && g.node < |nodes| && id < |nodes|
    requires Total(nodes', pre) <= Total(nodes, pre) && Cost(nodes', g) + Visit(nodes', id) < Cost(nodes, f)
    ensures InNodes(nodes', pre + [g] + [Frame(id, Check)]) && InNodes(nodes, pre + [f])
    ensures Total(nodes', pre + [g] + [Frame(id, Check)]) < Total(nodes, pre + [f])
  {
    CheckCost(nodes', id);
    hide Cost, Wf, Total, Visit;
    TotalTop(nodes, pre, f);
    TotalTop(nodes', pre, g);
    TotalTop(nodes', pre + [g], Frame(id, Check));
  }

  /** The calls below, after a return. */
  function Back(pre: seq<Frame>, c: nat): seq<Frame>
    requires pre != [] ==> pre[|pre| - 1].pc.ClaimWait? || pre[|pre| - 1].pc.Wait?
  {
    if pre == [] then [] else var g := pre[|pre| - 1]; pre[..|pre| - 1] + [Frame(g.node, Resume(g.pc, c))]
  }

  lemma ReturnsFalls(nodes: seq<Rec>, nodes': seq<Rec>, pre: seq<Frame>, f: Frame, c: nat)
    requires Wf(nodes) && Wf(nodes') && |nodes'| == |nodes| && InNodes(nodes, pre) && f.node < |nodes|
    requires Total(nodes', pre) <= Total(nodes, pre) && (pre != [] ==> pre[|pre| - 1].pc.ClaimWait? || pre[|pre| - 1].pc.Wait?)
    ensures InNodes(nodes', Back(pre, c)) && InNodes(nodes, pre + [f]) && Total(nodes', Back(pre, c)) < Total(nodes, pre + [f])
  {
    CostPositive(nodes, f);
    hide Cost, Wf, Total;
    TotalTop(nodes, pre, f);
    if pre == [] { NothingLeft(nodes'); } else { Resumed(nodes', pre, c); }
  }

  lemma MovedIs(pre: seq<Frame>, f: Frame, m: Move)
    requires pre != [] ==> pre[|pre| - 1].pc.ClaimWait? || pre[|pre| - 1].pc.Wait?
    ensures Moved(pre + [f], m) == match m
                                   case Goes(pc) => pre + [Frame(f.node, pc)]
                                   case Calls(pc, id) => pre + [Frame(f.node, pc)] + [Frame(id, Check)]
                                   case Returns(c) => Back(pre, c)
  {
    var st := pre + [f];
    assert st[..|pre|] == pre && (pre != [] ==> st[..|pre| - 1] == pre[..|pre| - 1]);
  }

  lemma StackFalls(nodes: seq<Rec>, nodes': seq<Rec>, pre: seq<Frame>, f: Frame, m: Move)
    requires Wf(nodes) && Wf(nodes') && SameSlots(nodes, nodes') && |nodes'| == |nodes| && InNodes(nodes, pre) && f.node < |nodes|
    requires pre != [] ==> pre[|pre| - 1].pc.ClaimWait? || pre[|pre| - 1].pc.Wait?
    requires Cheaper(nodes, nodes', f, m)
    ensures InNodes(nodes', Moved(pre + [f], m)) && InNodes(nodes, pre + [f]) && Total(nodes', Moved(pre + [f], m)) < Total(nodes, pre + [f])
  {
    hide Moved, Back, Cost, Total, Wf, Visit, SameSlots, InNodes;
    MovedIs(pre, f, m);
    TotalFalls(nodes, nodes', pre);
    match m
    case Goes(pc) => GoesFalls(nodes, nodes', pre, f, Frame(f.node, pc));
    case Calls(pc, id) => CallsFalls(nodes, nodes', pre, f, Frame(f.node, pc), id);
    case Returns(c) => ReturnsFalls(nodes, nodes', pre, f, c);
  }

  /** The call below goes on at the same cost. */
  lemma Resumed(nodes: seq<Rec>, st: seq<Frame>, c: nat)
    requires Wf(nodes) && st != [] && InNodes(nodes, st)
    requires st[|st| - 1].pc.ClaimWait? || st[|st| - 1].pc.Wait?
    ensures var g := st[|st| - 1];
            var st' := st[..|st| - 1] + [Frame(g.node, Resume(g.pc, c))];
            InNodes(nodes, st') && Total(nodes, st') == Total(nodes, st)
  {
    var g, pre := st[|st| - 1], st[..|st| - 1];
    assert st == pre + [g];
    hide Cost, Total, Wf;
    TotalTop(nodes, pre, g);
    TotalTop(nodes, pre, Frame(g.node, Resume(g.pc, c)));
    ResumeCost(nodes, g, c);
  }

  /** Each step of the helper lowers the bound. */
  lemma StepFalls(s: State, h: nat)
    requires Inv(s) && CanStep(s, h) && NoOperations(s.nodes)
    ensures var s' := HelperStep(s, h);
            && h < |s'.calls| && Wf(s'.nodes) && NoOperations(s'.nodes) && InNodes(s'.nodes, s'.calls[h])
            && Total(s'.nodes, s'.calls[h]) < Total(s.nodes, s.calls[h])
  {
    var s', st := HelperStep(s, h), s.calls[h];
    var f := st[|st| - 1];
    StepMoves(s, h);
    StepNodes(s, h);
    TicketTaken(s, h);
    assert StackOk(s.nodes, st) && FrameOk(s.nodes, f);
    var pre := st[..|st| - 1];
    assert st == pre + [f] && (pre != [] ==> pre[|pre| - 1] == st[|st| - 2]) && InNodes(s.nodes, pre);
    assert pre != [] ==> pre[|pre| - 1].pc.ClaimWait? || pre[|pre| - 1].pc.Wait?;
    hide InNodes, SameSlots, Inv, StackOk, HelperStep, FrameOk, MoveOf, Total, Moved, Cheaper;
    MoveFalls(s.nodes, s'.nodes, f);
    StackFalls(s.nodes, s'.nodes, pre, f, MoveOf(s.nodes[f.node], f.pc));
  }

  lemma CheckCost(nodes: seq<Rec>, n: nat)
    requires Wf(nodes) && n < |nodes|
    ensures Cost(nodes, Frame(n, Check)) == Visit(nodes, n)
  {
  }

  lemma NothingLeft(nodes: seq<Rec>)
    requires Wf(nodes)
    ensures Total(nodes, []) == 0
  {
  }

  lemma FirstTotal(nodes: seq<Rec>, n: nat)
    requires Wf(nodes) && n < |nodes|
    ensures InNodes(nodes, [Frame(n, Check)]) && Total(nodes, [Frame(n, Check)]) == Visit(nodes, n)
  {
    hide Visit, Wf;
    assert [] + [Frame(n, Check)] == [Frame(n, Check)];
    TotalTop(nodes, [], Frame(n, Check));
    CheckCost(nodes, n);
    NothingLeft(nodes);
  }

  // ----- a whole call alone

  ghost predicate AloneNext(s: State, s': State, h: nat) {
    Wf(s.nodes) && CanStep(s, h) && s' == HelperStep(s, h)
  }

  ghost predicate AloneRun(run: seq<State>, h: nat) {
    |run| > 0 && forall i :: 0 <= i < |run| - 1 ==> AloneNext(run[i], run[i + 1], h)
  }

  /** The outermost call is for node `n`, or it has returned. */
  predicate ForNode(s0: State, s: State, h: nat, n: nat) {
    && h < |s.calls|
    && if s.calls[h] == [] then |s.returned| == |s0.returned| + 1 && s.returned[..|s0.returned|] == s0.returned && s.returned[|s0.returned|].0 == n
       else s.returned == s0.returned && s.calls[h][0].node == n
  }

  lemma StepForNode(s0: State, s: State, h: nat, n: nat)
    requires Inv(s) && CanStep(s, h) && NoOperations(s.nodes) && ForNode(s0, s, h, n)
    ensures ForNode(s0, HelperStep(s, h), h, n)
  {
    StepMoves(s, h);
    var st := s.calls[h];
    var m := MoveOf(s.nodes[st[|st| - 1].node], st[|st| - 1].pc);
    hide Inv, HelperStep, MoveOf;
    match m
    case Goes(pc) =>
    case Calls(pc, id) =>
    case Returns(c) =>
  }

  lemma {:induction false} AloneKept(run: seq<State>, h: nat, n: nat, i: nat)
    requires AloneRun(run, h) && i < |run| && Inv(run[0]) && NoOperations(run[0].nodes)
    requires h < |run[0].calls| && n < |run[0].nodes| && run[0].calls[h] == [Frame(n, Check)]
    ensures Inv(run[i]) && NoOperations(run[i].nodes) && ForNode(run[0], run[i], h, n)
    ensures InNodes(run[i].nodes, run[i].calls[h])
    ensures Total(run[i].nodes, run[i].calls[h]) + i <= Visit(run[0].nodes, n)
  {
    hide Inv, HelperStep, NoOperations, ForNode, Total, Visit, InNodes, Wf, CanStep;
    if i == 0 {
      FirstKept(run[0], h, n);
    } else {
      AloneKept(run, h, n, i - 1);
      assert AloneNext(run[i - 1], run[i - 1 + 1], h);
      StepForNode(run[0], run[i - 1], h, n);
      StepFalls(run[i - 1], h);
      HelperStepInv(run[i - 1], h);
    }
  }

  lemma FirstKept(s: State, h: nat, n: nat)
    requires Inv(s) && h < |s.calls| && n < |s.nodes| && s.calls[h] == [Frame(n, Check)]
    ensures ForNode(s, s, h, n) && InNodes(s.nodes, s.calls[h]) && Total(s.nodes, s.calls[h]) == Visit(s.nodes, n)
  {
    FirstTotal(s.nodes, n);
    hide Inv, Total, Visit;
  }

  /**
   From any state in which no pointer holds an operation, whatever other helpers have left behind, a helper that begins a
   call and runs alone returns after a number of steps that depends on the pointers only, and until then can go on.
   */
  lemma AloneReturns(run: seq<State>, h: nat, n: nat)
    requires AloneRun(run, h) && Inv(run[0]) && NoOperations(run[0].nodes)
    requires h < |run[0].calls| && n < |run[0].nodes| && run[0].calls[h] == [Frame(n, Check)]
    ensures |run| <= Visit(run[0].nodes, n) + 1
    ensures var s' := run[|run| - 1];
            h < |s'.calls| && Wf(s'.nodes)
            && if s'.calls[h] == [] then exists c :: Counted(s'.nodes, n, c) && s'.returned == run[0].returned + [(n, c)]
               else CanStep(s', h)
  {
    AloneKept(run, h, n, |run| - 1);
    var s0, s' := run[0], run[|run| - 1];
    if s'.calls[h] == [] {
      var r := s'.returned[|s0.returned|];
      assert Counted(s'.nodes, r.0, r.1);
      assert s'.returned == s0.returned + [(n, r.1)];
    } else {
      assert StackOk(s'.nodes, s'.calls[h]);
    }
    hide Visit, Total, Counted, StackOk;
  }
}
