/**
 Freezing and counting a subtree by any number of helpers at once, while updates go on elsewhere.  Nodes are
 numbered in the order of their creation, and a pointer always leads to a node created later.
 */
module IstMark {
  import opened DcssCell

  /** The `dirty` field. */
  datatype Dirty = Clean | Started | Finished(sum: nat)

  /** A pointer: empty or a pair, counted as zero or one, or a node (directly or through a rebuild operation). */
  datatype Slot = Leaf(present: bool) | Ref(id: nat)

  const MAX_ACCEPTABLE_LEAF_SIZE := 48

  /** A pointer is the target of DCSS operations whose condition is that `dirty` is zero; `ticket` is `nextMarkAndCount`. */
  datatype Rec = Rec(dirty: Dirty, slots: seq<Cell<Slot>>, ticket: nat)

  /** Where a call of `markAndCount` is; the `Wait` ones are waiting for a recursive call. */
  datatype Pc =
    | Check
    | Start
    | Claim
    | ClaimRead(ix: nat)
    | ClaimWait
    | Claimed
    | Loop(i: nat, sum: nat)
    | Wait(i: nat, sum: nat)
    | Added(i: nat, sum: nat)
    | Finish(sum: nat)

  datatype Frame = Frame(node: nat, pc: Pc)

  /** `calls` is each helper's call stack, `returned` what finished outermost calls returned. */
  datatype State = State(nodes: seq<Rec>, calls: seq<seq<Frame>>, returned: seq<(nat, nat)>)

  predicate Forward(nodes: seq<Rec>, n: nat, s: Slot) {
    s.Ref? ==> n < s.id < |nodes|
  }

  predicate CellForward(nodes: seq<Rec>, n: nat, c: Cell<Slot>) {
    if c.Word? then Forward(nodes, n, c.w) else Forward(nodes, n, c.before) && Forward(nodes, n, c.after)
  }

  predicate Wf(nodes: seq<Rec>) {
    forall n, i :: 0 <= n < |nodes| && 0 <= i < |nodes[n].slots| ==> CellForward(nodes, n, nodes[n].slots[i])
  }

  /** The number of pairs below a pointer, and below the first `i` pointers of a node, by their logical values. */
  function SlotCount(nodes: seq<Rec>, n: nat, s: Slot): nat
    requires Wf(nodes) && n < |nodes| && Forward(nodes, n, s)
    decreases |nodes| - n, 0, 0
  {
    match s
    case Leaf(present) => if present then 1 else 0
    case Ref(id) => Count(nodes, id)
  }

  function CountUpTo(nodes: seq<Rec>, n: nat, i: nat): nat
    requires Wf(nodes) && n < |nodes| && i <= |nodes[n].slots|
    decreases |nodes| - n, 1, i
  {
    if i == 0 then 0
    else
      assert CellForward(nodes, n, nodes[n].slots[i - 1]);
      CountUpTo(nodes, n, i - 1) + SlotCount(nodes, n, Logical(nodes[n].slots[i - 1]))
  }

  function Count(nodes: seq<Rec>, n: nat): nat
    requires Wf(nodes) && n < |nodes|
    decreases |nodes| - n, 2, 0
  {
    CountUpTo(nodes, n, |nodes[n].slots|)
  }

  /** No operation in the pointer can still change its logical value, and what it leads to is frozen. */
  predicate SlotFrozen(nodes: seq<Rec>, n: nat, c: Cell<Slot>)
    requires Wf(nodes) && n < |nodes| && CellForward(nodes, n, c)
    decreases |nodes| - n, 0
  {
    Calm(c) && (Logical(c).Ref? ==> Frozen(nodes, Logical(c).id))
  }

  /** Every node below `n`, and `n` itself, has a non-zero `dirty` field and calm pointers. */
  predicate Frozen(nodes: seq<Rec>, n: nat)
    requires Wf(nodes) && n < |nodes|
    decreases |nodes| - n, 1
  {
    && !nodes[n].dirty.Clean?
    && forall i :: 0 <= i < |nodes[n].slots| ==> SlotFrozen(nodes, n, nodes[n].slots[i])
  }

  // ----- steps

  /**
   An update or a rebuild works on a pointer by DCSS: it may install its operation even in a dirty node, and an
   operation for which `dirty` was read as zero may succeed after the node has become dirty.
   */
  predicate CanWork(nodes: seq<Rec>, n: nat, i: nat, c: Cell<Slot>) {
    && n < |nodes| && i < |nodes[n].slots|
    && CellNext(nodes[n].slots[i], c, nodes[n].dirty.Clean?) && CellForward(nodes, n, c)
  }

  function Work(nodes: seq<Rec>, n: nat, i: nat, c: Cell<Slot>): seq<Rec>
    requires CanWork(nodes, n, i, c)
  {
    nodes[n := nodes[n].(slots := nodes[n].slots[i := c])]
  }

  /** New nodes are clean, and not yet reachable. */
  predicate CanGrow(nodes: seq<Rec>, more: seq<Rec>) {
    Wf(nodes + more) && forall i :: 0 <= i < |more| ==> more[i].dirty.Clean? && more[i].ticket == 0
  }

  /** A recursive call returns `c` to the frame below it. */
  function Resume(pc: Pc, c: nat): Pc
    requires pc.ClaimWait? || pc.Wait?
  {
    if pc.ClaimWait? then Claimed else Added(pc.i + 1, pc.sum + c)
  }

  /** The stack of a helper whose topmost call, on node `f.node`, returns `c`. */
  function Return(s: State, h: nat, c: nat): State
    requires h < |s.calls| && |s.calls[h]| >= 1
    requires |s.calls[h]| >= 2 ==> var pc := s.calls[h][|s.calls[h]| - 2].pc; pc.ClaimWait? || pc.Wait?
  {
    var st := s.calls[h];
    var k := |st| - 1;
    if k == 0 then s.(calls := s.calls[h := []], returned := s.returned + [(st[0].node, c)])
    else s.(calls := s.calls[h := st[..k - 1] + [st[k - 1].(pc := Resume(st[k - 1].pc, c))]])
  }

  function Goto(s: State, h: nat, pc: Pc): State
    requires h < |s.calls| && |s.calls[h]| >= 1
  {
    var st := s.calls[h];
    s.(calls := s.calls[h := st[..|st| - 1] + [st[|st| - 1].(pc := pc)]])
  }

  function Call(s: State, h: nat, pc: Pc, id: nat): State
    requires h < |s.calls| && |s.calls[h]| >= 1
  {
    var s' := Goto(s, h, pc);
    s'.(calls := s'.calls[h := s'.calls[h] + [Frame(id, Check)]])
  }

  function SetDirty(s: State, n: nat, d: Dirty): State
    requires n < |s.nodes|
  {
    s.(nodes := s.nodes[n := s.nodes[n].(dirty := d)])
  }

  function TakeTicket(s: State, n: nat): State
    requires n < |s.nodes|
  {
    s.(nodes := s.nodes[n := s.nodes[n].(ticket := s.nodes[n].ticket + 1)])
  }

  /** The stack is well-formed: each call but the topmost waits for the one above it. */
  predicate StackShape(nodes: seq<Rec>, st: seq<Frame>) {
    && (forall k :: 0 <= k < |st| ==> st[k].node < |nodes|)
    && (forall k :: 0 <= k < |st| - 1 ==> st[k].pc.ClaimWait? || st[k].pc.Wait?)
    && (|st| > 0 ==> !st[|st| - 1].pc.ClaimWait? && !st[|st| - 1].pc.Wait?)
  }

  /**
   One step of helper `h`.  At a node that is not as small as a leaf, helpers first divide up the work by a shared counter;
   then each goes over all pointers.  A pointer that holds an operation is read again, until someone has finished the
   operation.
   */
  function HelperStep(s: State, h: nat): State
    requires Wf(s.nodes) && h < |s.calls| && |s.calls[h]| >= 1 && StackShape(s.nodes, s.calls[h])
  {
    var st := s.calls[h];
    var f := st[|st| - 1];
    var r := s.nodes[f.node];
    match f.pc
    case Check =>
      if r.dirty.Finished? then Return(s, h, r.dirty.sum)
      else Goto(s, h, if r.dirty.Clean? then Start else Claim)
    case Start =>
      Goto(if r.dirty.Clean? then SetDirty(s, f.node, Started) else s, h, Claim)
    case Claim =>
      if |r.slots| > MAX_ACCEPTABLE_LEAF_SIZE then
        Goto(TakeTicket(s, f.node), h, if r.ticket < |r.slots| then ClaimRead(r.ticket) else Loop(0, 0))
      else Goto(s, h, Loop(0, 0))
    case ClaimRead(ix) =>
      if ix >= |r.slots| || r.slots[ix].Pending? then s
      else if r.slots[ix].w.Ref? then Call(s, h, ClaimWait, r.slots[ix].w.id)
      else Goto(s, h, Claimed)
    case Claimed =>
      if r.dirty.Finished? then Return(s, h, r.dirty.sum) else Goto(s, h, Claim)
    case Loop(i, sum) =>
      if i >= |r.slots| then Goto(s, h, Finish(sum))
      else if r.slots[i].Pending? then s
      else if r.slots[i].w.Ref? then Call(s, h, Wait(i, sum), r.slots[i].w.id)
      else Goto(s, h, Added(i + 1, sum + if r.slots[i].w.present then 1 else 0))
    case Added(i, sum) =>
      if r.dirty.Finished? then Return(s, h, r.dirty.sum) else Goto(s, h, Loop(i, sum))
    case Finish(sum) =>
      Return(if r.dirty.Started? then SetDirty(s, f.node, Finished(sum)) else s, h, sum)
  }

  ghost predicate Next(s: State, s': State) {
    && Wf(s.nodes)
    && (|| (exists n: nat, i: nat, c :: CanWork(s.nodes, n, i, c) && s' == s.(nodes := Work(s.nodes, n, i, c)))
        || (exists more :: CanGrow(s.nodes, more) && s' == s.(nodes := s.nodes + more))
        || (exists h: nat, n: nat :: Begins(s, h, n) && s' == s.(calls := s.calls[h := [Frame(n, Check)]]))
        || (exists h: nat :: CanStep(s, h) && s' == HelperStep(s, h)))
  }

  predicate Begins(s: State, h: nat, n: nat) {
    h < |s.calls| && s.calls[h] == [] && n < |s.nodes|
  }

  predicate CanStep(s: State, h: nat) {
    h < |s.calls| && |s.calls[h]| >= 1 && StackShape(s.nodes, s.calls[h])
  }

  predicate Initial(s: State) {
    && Wf(s.nodes) && (forall n :: 0 <= n < |s.nodes| ==> s.nodes[n].dirty.Clean? && s.nodes[n].ticket == 0)
    && (forall h :: 0 <= h < |s.calls| ==> s.calls[h] == []) && s.returned == []
  }

  // ----- what is frozen stays as it is

  /** A calm pointer of a dirty node stays calm and keeps its logical value. */
  predicate SlotsKept(r: Rec, r': Rec) {
    && |r'.slots| == |r.slots|
    && forall i :: 0 <= i < |r.slots| && Calm(r.slots[i]) ==> Calm(r'.slots[i]) && Logical(r'.slots[i]) == Logical(r.slots[i])
  }

  /** Nodes are only added, and one whose `dirty` field is non-zero keeps it non-zero and keeps its calm pointers. */
  predicate Extends(nodes: seq<Rec>, nodes': seq<Rec>) {
    && |nodes| <= |nodes'|
    && forall n :: 0 <= n < |nodes| && !nodes[n].dirty.Clean? ==> SlotsKept(nodes[n], nodes'[n]) && !nodes'[n].dirty.Clean?
  }

  lemma {:induction false} FrozenStays(nodes: seq<Rec>, nodes': seq<Rec>, n: nat)
    requires Wf(nodes) && Wf(nodes') && Extends(nodes, nodes') && n < |nodes| && Frozen(nodes, n)
    ensures Frozen(nodes', n) && Count(nodes', n) == Count(nodes, n)
    decreases |nodes| - n, 1, 0
  {
    var slots := nodes[n].slots;
    assert forall i :: 0 <= i < |slots| ==> SlotFrozen(nodes, n, slots[i]);
    CountStays(nodes, nodes', n, |slots|);
  }

  lemma SlotStays(nodes: seq<Rec>, nodes': seq<Rec>, n: nat, i: nat)
    requires Wf(nodes) && Wf(nodes') && Extends(nodes, nodes') && n < |nodes| && i < |nodes[n].slots| && !nodes[n].dirty.Clean?
    requires CellForward(nodes, n, nodes[n].slots[i]) && SlotFrozen(nodes, n, nodes[n].slots[i])
    ensures i < |nodes'[n].slots| && CellForward(nodes', n, nodes'[n].slots[i]) && SlotFrozen(nodes', n, nodes'[n].slots[i])
    ensures Logical(nodes'[n].slots[i]) == Logical(nodes[n].slots[i])
    ensures SlotCount(nodes', n, Logical(nodes'[n].slots[i])) == SlotCount(nodes, n, Logical(nodes[n].slots[i]))
    decreases |nodes| - n, 0, 0
  {
    assert SlotsKept(nodes[n], nodes'[n]);
    assert CellForward(nodes', n, nodes'[n].slots[i]);
    var w := Logical(nodes[n].slots[i]);
    if w.Ref? { FrozenStays(nodes, nodes', w.id); }
    hide Wf, Count, Frozen, Extends;
  }

  lemma {:induction false} CountStays(nodes: seq<Rec>, nodes': seq<Rec>, n: nat, i: nat)
    requires Wf(nodes) && Wf(nodes') && Extends(nodes, nodes') && n < |nodes| && i <= |nodes[n].slots|
    requires !nodes[n].dirty.Clean? && forall j :: 0 <= j < i ==> SlotFrozen(nodes, n, nodes[n].slots[j])
    ensures |nodes'[n].slots| == |nodes[n].slots| && CountUpTo(nodes', n, i) == CountUpTo(nodes, n, i)
    ensures forall j :: 0 <= j < i ==> SlotFrozen(nodes', n, nodes'[n].slots[j])
    decreases |nodes| - n, 0, i + 1
  {
    assert SlotsKept(nodes[n], nodes'[n]);
    if i > 0 {
      CountStays(nodes, nodes', n, i - 1);
      assert SlotFrozen(nodes, n, nodes[n].slots[i - 1]);
      SlotStays(nodes, nodes', n, i - 1);
      hide Extends, SlotFrozen, SlotCount;
    }
  }
}
