/**
 One leaf of the elimination (a,b)-tree.  Updates write it in place under a lock, between two increments of the
 version; searches read it without the lock and check the version; an update that finds a published update of
 its own key, made since it began, returns at once.  Every access to the leaf is one step.
 */
module Elim {

  datatype Option<T> = None | Some(value: T)

  type Dict = map<int, int>

  /** Keys and values are not zero: zero marks a free slot. */
  datatype Op = Ins(k: int, v: int) | Del(k: int) | Get(k: int)

  predicate OpOk(op: Op) { op.k != 0 && (op.Ins? ==> op.v != 0) }

  /** The sequential meaning: what an operation returns, and the dictionary after it. */
  function Result(d: Dict, op: Op): Option<int> { if op.k in d then Some(d[op.k]) else None }

  function After(d: Dict, op: Op): Dict {
    match op
    case Ins(k, v) => if k in d then d else d[k := v]
    case Del(k) => d - {k}
    case Get(_) => d
  }

  /** `holder` is the thread that has the lock. */
  datatype Leaf = Leaf(keys: seq<int>, vals: seq<int>, size: int, ver: nat, elimVer: nat, elimKey: int, elimVal: int,
                       holder: Option<nat>, marked: bool)

  datatype Pc =
    | Idle
    // trySearch / searchBasic
    | ReadVer
    | Scan(v: nat, i: nat)
    | ReadVal(v: nat, i: nat)
    | Validate(v: nat, r: Option<int>)
    // LockGuard::acquire, `v` being the version that the search began with
    | AcqVer(v: nat)
    | AcqElimVer(v: nat, w: nat)
    | AcqElimKey(v: nat, w: nat, ev: nat)
    | AcqElimVal(v: nat, w: nat, ev: nat, ek: int)
    | AcqCheck(v: nat, w: nat, ev: nat, ek: int, el: int)
    | TryLock(v: nat)
    // holding the lock
    | Locked
    | Open(i: nat)
    | PutElimVer(i: nat)
    | PutElimKey(i: nat)
    | PutElimVal(i: nat)
    | PutKey(i: nat, val: int)
    | PutVal(i: nat)
    | PutSize(i: nat, val: int)
    | Close(i: nat, val: int)
    | Unlock(r: Option<int>)
    | UnlockRetry
    | UnlockLeave
    // the assertion that there is a free slot has failed
    | Stuck

  /** `opNo` numbers the thread's operations and `start` is the time of the present one's invocation. */
  datatype Thread = Thread(op: Op, opNo: nat, start: nat, pc: Pc)

  /** An operation in the sequential history; `tag` is the version an update published, else zero. */
  datatype Entry = Entry(tid: nat, opNo: nat, op: Op, res: Option<int>, time: nat, start: nat, tag: nat)

  datatype Response = Response(tid: nat, opNo: nat, op: Op, res: Option<int>, start: nat, end: nat)

  datatype State = State(leaf: Leaf, threads: seq<Thread>, log: seq<Entry>, responses: seq<Response>, now: nat)

  /** The number of slots of a leaf: any number. */
  const DEGREE: nat

  predicate HoldsLock(pc: Pc) {
    pc.Locked? || pc.Open? || Writing(pc) || pc.Unlock? || pc.UnlockRetry? || pc.UnlockLeave? || pc.Stuck?
  }

  /** Between the two increments of the version. */
  predicate Writing(pc: Pc) {
    pc.PutElimVer? || pc.PutElimKey? || pc.PutElimVal? || pc.PutKey? || pc.PutVal? || pc.PutSize? || pc.Close?
  }

  /** The first slot with this key; `|keys|` if there is none. */
  function SlotOf(keys: seq<int>, k: int): (r: nat)
    ensures r <= |keys| && (r < |keys| ==> keys[r] == k) && forall i :: 0 <= i < r ==> keys[i] != k
  {
    if keys == [] || keys[0] == k then 0 else 1 + SlotOf(keys[1..], k)
  }

  predicate Eliminates(x: Thread, leaf: Leaf) {
    && x.pc.AcqCheck? && leaf.ver == x.pc.w
    && x.pc.v <= x.pc.ev && x.pc.ek == x.op.k && x.pc.ev - x.pc.v < 500
  }

  /** The lock holder is to insert a key that is not there, and has no room for it by the `size` field. */
  predicate Overflows(leaf: Leaf, x: Thread)
    requires |leaf.keys| == DEGREE
  {
    x.pc.Locked? && !leaf.marked && x.op.Ins? && SlotOf(leaf.keys, x.op.k) == DEGREE && leaf.size >= DEGREE
  }

  /** What happens to the leaf when `x`, thread number `t`, makes a step. */
  function NextLeaf(leaf: Leaf, t: nat, x: Thread): Leaf
    requires |leaf.keys| == |leaf.vals| == DEGREE
    requires x.pc.PutKey? || x.pc.PutVal? ==> x.pc.i < DEGREE
  {
    match x.pc
    case TryLock(_) => if leaf.holder.None? then leaf.(holder := Some(t)) else leaf
    case Locked =>
      // a full leaf is replaced by a new subtree and marked
      if Overflows(leaf, x) then leaf.(marked := true) else leaf
    case Open(_) => leaf.(ver := leaf.ver + 1)
    case PutElimVer(_) => leaf.(elimVer := leaf.ver)
    case PutElimKey(_) => leaf.(elimKey := x.op.k)
    case PutElimVal(i) => leaf.(elimVal := if x.op.Ins? then x.op.v else if i < DEGREE then leaf.vals[i] else 0)
    case PutKey(i, _) => leaf.(keys := leaf.keys[i := if x.op.Ins? then x.op.k else 0])
    case PutVal(i) => leaf.(vals := leaf.vals[i := if x.op.Ins? then x.op.v else 0])
    case PutSize(_, _) => leaf.(size := if x.op.Ins? then leaf.size + 1 else leaf.size - 1)
    case Close(_, _) => leaf.(ver := leaf.ver + 1)
    case Unlock(_) => leaf.(holder := None)
    case UnlockRetry => leaf.(holder := None)
    case UnlockLeave => leaf.(holder := None)
    case _ => leaf
  }

  function NextPc(leaf: Leaf, x: Thread): Pc
    requires |leaf.keys| == |leaf.vals| == DEGREE
    requires x.pc.ReadVal? || x.pc.PutElimVal? ==> x.pc.i < DEGREE
  {
    var k := x.op.k;
    match x.pc
    case Idle => Idle
    case ReadVer =>
      if leaf.ver % 2 == 0 then Scan(leaf.ver, 0) else if x.op.Get? then ReadVer else AcqVer(leaf.ver)
    case Scan(v, i) =>
      if i >= DEGREE then Validate(v, None) else if leaf.keys[i] == k then ReadVal(v, i) else Scan(v, i + 1)
    case ReadVal(v, i) => Validate(v, Some(leaf.vals[i]))
    case Validate(v, r) =>
      if leaf.ver != v then (if x.op.Get? then ReadVer else AcqVer(v))
      else if x.op.Get? || r.Some? == x.op.Ins? then Idle
      else AcqVer(v)
    case AcqVer(v) => if leaf.ver % 2 == 0 then AcqElimVer(v, leaf.ver) else x.pc
    case AcqElimVer(v, w) => AcqElimKey(v, w, leaf.elimVer)
    case AcqElimKey(v, w, ev) => AcqElimVal(v, w, ev, leaf.elimKey)
    case AcqElimVal(v, w, ev, ek) => AcqCheck(v, w, ev, ek, leaf.elimVal)
    case AcqCheck(v, w, ev, ek, el) =>
      if leaf.ver != w then AcqVer(v) else if Eliminates(x, leaf) then Idle else TryLock(v)
    case TryLock(v) => if leaf.holder.None? then Locked else AcqVer(v)
    case Locked =>
      if leaf.marked then UnlockRetry
      else var i := SlotOf(leaf.keys, k);
           if x.op.Ins? then
             if i < DEGREE then Unlock(Some(leaf.vals[i]))
             else if leaf.size >= DEGREE then UnlockLeave
             else var j := SlotOf(leaf.keys, 0); if j < DEGREE then Open(j) else Stuck
           else if i < DEGREE then Open(i) else Unlock(None)
    case Open(i) => PutElimVer(i)
    case PutElimVer(i) => PutElimKey(i)
    case PutElimKey(i) => PutElimVal(i)
    case PutElimVal(i) => PutKey(i, if x.op.Ins? then x.op.v else leaf.vals[i])
    case PutKey(i, val) => if x.op.Ins? then PutVal(i) else PutSize(i, val)
    case PutVal(i) => PutSize(i, if x.op.Ins? then x.op.v else 0)
    case PutSize(i, val) => Close(i, val)
    case Close(i, val) => Unlock(if x.op.Ins? then None else Some(val))
    case Unlock(_) => Idle
    case UnlockRetry => ReadVer
    case UnlockLeave => Idle
    case Stuck => Stuck
  }

  /** The result with which the step takes its place at the end of the history, if it does. */
  function Appends(leaf: Leaf, x: Thread): Option<Option<int>>
    requires |leaf.keys| == |leaf.vals| == DEGREE
  {
    match x.pc
    case Validate(v, r) => if leaf.ver == v && (x.op.Get? || r.Some? == x.op.Ins?) then Some(r) else None
    case Locked =>
      var i := SlotOf(leaf.keys, x.op.k);
      if leaf.marked then None
      else if x.op.Ins? && i < DEGREE then Some(Some(leaf.vals[i]))
      else if !x.op.Ins? && i == DEGREE then Some(None)
      else None
    case Close(i, val) => Some(if x.op.Ins? then None else Some(val))
    case _ => None
  }

  /** What an eliminated operation returns. */
  function EliminatedResult(x: Thread): Option<int>
    requires x.pc.AcqCheck?
  {
    if x.op.Ins? then Some(x.pc.el) else None
  }

  predicate IsUpdate(e: Entry, tag: nat, k: int, v: int) {
    e.tag == tag && ((e.op == Ins(k, v) && e.res.None?) || (e.op == Del(k) && e.res == Some(v)))
  }

  /** The position of the published update in the history. */
  function Published(log: seq<Entry>, tag: nat, k: int, v: int): (p: nat)
    ensures p <= |log| && (p < |log| ==> IsUpdate(log[p], tag, k, v))
    ensures p == |log| ==> forall i :: 0 <= i < |log| ==> !IsUpdate(log[i], tag, k, v)
  {
    if log == [] || IsUpdate(log[0], tag, k, v) then 0 else 1 + Published(log[1..], tag, k, v)
  }

  /** Directly before or after the published update. */
  function Beside(log: seq<Entry>, p: nat, op: Op): nat
    requires p < |log|
  {
    if log[p].op.Ins? == op.Ins? then p + 1 else p
  }

  function NextLog(s: State, t: nat): seq<Entry>
    requires t < |s.threads| && |s.leaf.keys| == |s.leaf.vals| == DEGREE
  {
    var x := s.threads[t];
    var r := Appends(s.leaf, x);
    if r.Some? then
      s.log + [Entry(t, x.opNo, x.op, r.value, s.now, x.start, if x.pc.Close? then s.leaf.ver else 0)]
    else if Eliminates(x, s.leaf) then
      var p := Published(s.log, x.pc.ev, x.pc.ek, x.pc.el);
      if p == |s.log| then s.log
      else var q := Beside(s.log, p, x.op);
           s.log[..q] + [Entry(t, x.opNo, x.op, EliminatedResult(x), s.log[p].time, x.start, 0)] + s.log[q..]
    else s.log
  }

  /** The result with which the operation returns in this step, if it does. */
  function Returns(leaf: Leaf, x: Thread): Option<Option<int>>
    requires |leaf.keys| == |leaf.vals| == DEGREE
  {
    if x.pc.Validate? then Appends(leaf, x)
    else if Eliminates(x, leaf) then Some(EliminatedResult(x))
    else if x.pc.Unlock? then Some(x.pc.r)
    else None
  }

  predicate CanStep(s: State, t: nat) {
    && t < |s.threads| && |s.leaf.keys| == |s.leaf.vals| == DEGREE
    && var pc := s.threads[t].pc;
       (pc.ReadVal? || pc.PutElimVal? || pc.PutKey? || pc.PutVal? ==> pc.i < DEGREE)
  }

  function Step(s: State, t: nat): State
    requires CanStep(s, t)
  {
    var x := s.threads[t];
    var r := Returns(s.leaf, x);
    State(NextLeaf(s.leaf, t, x), s.threads[t := x.(pc := NextPc(s.leaf, x))], NextLog(s, t),
          if r.Some? then s.responses + [Response(t, x.opNo, x.op, r.value, x.start, s.now)] else s.responses,
          s.now + 1)
  }

  function Invoke(s: State, t: nat, op: Op): State
    requires t < |s.threads|
  {
    s.(threads := s.threads[t := Thread(op, s.threads[t].opNo + 1, s.now, ReadVer)], now := s.now + 1)
  }

  /** A rebalancing step replaces the leaf. */
  function MarkLeaf(s: State): State { s.(leaf := s.leaf.(marked := true), now := s.now + 1) }

  ghost predicate Next(s: State, s': State) {
    || (exists t: nat :: CanStep(s, t) && s' == Step(s, t))
    || (exists t: nat, op :: t < |s.threads| && s.threads[t].pc.Idle? && OpOk(op) && s' == Invoke(s, t, op))
    || (s.leaf.holder.None? && s' == MarkLeaf(s))
  }

  predicate Initial(s: State) {
    && |s.leaf.keys| == |s.leaf.vals| == DEGREE && (forall i :: 0 <= i < DEGREE ==> s.leaf.keys[i] == 0)
    && s.leaf.size == 0 && s.leaf.ver == 0 && s.leaf.elimVer == 0 && s.leaf.elimKey == 0 && s.leaf.elimVal == 0
    && s.leaf.holder.None? && !s.leaf.marked
    && (forall t :: 0 <= t < |s.threads| ==> s.threads[t].pc.Idle? && OpOk(s.threads[t].op))
    && s.log == [] && s.responses == []
  }
}
