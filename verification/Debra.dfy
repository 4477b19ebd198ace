/**
 Epoch based reclamation: every thread announces the epoch it read when it starts an operation, keeps the
 objects it retires in three bags, and moves the oldest bag to its free list when it sees a new epoch.
 Each atomic access to shared memory is one step; a run is any interleaving of the threads' steps.
 */
module Debra {
  import opened BlockBag

  type Obj = nat

  const EPOCH_INCREMENT := 2
  const MIN_OPS_BEFORE_READ := 10
  const NUMBER_OF_EPOCH_BAGS := 3

  function EpochBits(ann: int): int { ann - ann % 2 }
  predicate Quiescent(ann: int) { ann % 2 == 1 }
  function WithQuiescent(ann: int): int { if ann % 2 == 1 then ann else ann + 1 }

  /** Where a thread is: in `startOp` up to the announcement, in the rest of it, in the operation, or outside. */
  datatype Pc =
    | Idle
    | HasRead(ann: int)
    | Rotated
    | ToAnnounce
    | ToScan
    | ToAdvance
    | Running

  /** `opId` and `entered` are bookkeeping: the number of the thread's operation, and the epoch when it was announced. */
  datatype Thread = Thread(
    pc: Pc, local: int, announced: int, index: nat, bags: seq<seq<Obj>>, freelist: seq<Obj>,
    checked: nat, opsSinceRead: nat, opId: nat, entered: int)

  /** Bookkeeping about a retired object: the epoch at that instant, and which operations were under way. */
  datatype Info = Info(at: int, under: map<nat, nat>)

  datatype State = State(epoch: int, threads: seq<Thread>, pool: seq<Obj>, info: map<Obj, Info>)

  predicate InOp(x: Thread) { x.pc.ToScan? || x.pc.ToAdvance? || x.pc.Running? }

  datatype Action =
    | ReadEpoch
    | Rotate
    | FreeOne
    | Announce
    | Scan
    | Advance
    | Retire(o: Obj)
    | EndOp

  function NewThread(): Thread {
    Thread(Idle, WithQuiescent(0), WithQuiescent(0), 0, [[], [], []], [], 0, 0, 0, 0)
  }

  predicate Initial(s: State) {
    && s.epoch == 0 && |s.threads| > 0 && s.pool == [] && s.info == map[]
    && forall t :: 0 <= t < |s.threads| ==> s.threads[t] == NewThread()
  }

  /** Objects are retired inside operations, and no object is retired twice. */
  predicate Enabled(s: State, t: nat, a: Action) {
    && t < |s.threads|
    && var x := s.threads[t];
       match a
       case ReadEpoch => x.pc.Idle?
       case Rotate => x.pc.HasRead? && x.index < |x.bags| == NUMBER_OF_EPOCH_BAGS
       case FreeOne => x.pc.Rotated?
       case Announce => x.pc.ToAnnounce?
       case Scan => x.pc.ToScan? && x.checked < |s.threads|
       case Advance => x.pc.ToAdvance?
       case Retire(o) => x.pc.Running? && o !in s.info && x.index < |x.bags|
       case EndOp => x.pc.Running?
  }

  /** `rotateEpochBags`: the full blocks of the oldest bag go to the free list, and that bag becomes the current one. */
  function RotateBags(x: Thread): Thread
    requires x.index < |x.bags| == NUMBER_OF_EPOCH_BAGS
  {
    var next := (x.index + 1) % NUMBER_OF_EPOCH_BAGS;
    x.(index := next, bags := x.bags[next := Partial(x.bags[next])], freelist := Full(x.bags[next]) + x.freelist)
  }

  function Under(s: State): map<nat, nat> {
    map u | 0 <= u < |s.threads| && InOp(s.threads[u]) :: s.threads[u].opId
  }

  /** The thread's own fields after the step. */
  function Local(s: State, t: nat, a: Action): Thread
    requires Enabled(s, t, a)
  {
    var x := s.threads[t];
    match a
    case ReadEpoch => x.(pc := HasRead(x.local), local := s.epoch)
    case Rotate =>
      if x.local != x.pc.ann then RotateBags(x).(pc := Rotated, checked := 0) else x.(pc := Rotated)
    case FreeOne =>
      if x.freelist != [] then x.(pc := ToAnnounce, freelist := x.freelist[..|x.freelist| - 1]) else x.(pc := ToAnnounce)
    case Announce => x.(pc := ToScan, announced := x.local, opId := x.opId + 1, entered := s.epoch)
    case Scan =>
      if x.opsSinceRead + 1 == MIN_OPS_BEFORE_READ then
        var other := s.threads[x.checked].announced;
        if EpochBits(other) == x.local || Quiescent(other) then
          x.(opsSinceRead := 0, checked := x.checked + 1, pc := if x.checked + 1 >= |s.threads| then ToAdvance else Running)
        else x.(opsSinceRead := 0, pc := Running)
      else x.(opsSinceRead := x.opsSinceRead + 1, pc := Running)
    case Advance => x.(pc := Running)
    case Retire(o) => x.(bags := x.bags[x.index := x.bags[x.index] + [o]])
    case EndOp => x.(pc := Idle, announced := WithQuiescent(x.local))
  }

  function Step(s: State, t: nat, a: Action): State
    requires Enabled(s, t, a)
  {
    var x := s.threads[t];
    State(
      if a.Advance? && s.epoch == x.local then x.local + EPOCH_INCREMENT else s.epoch,
      s.threads[t := Local(s, t, a)],
      if a.FreeOne? && x.freelist != [] then s.pool + [x.freelist[|x.freelist| - 1]] else s.pool,
      if a.Retire? then s.info[a.o := Info(s.epoch, Under(s))] else s.info)
  }
}
