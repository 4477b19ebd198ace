/**
 The double-compare-single-swap protocol with reusable descriptors, as a step relation.

 Every process owns one descriptor, which it re-initialises for each of its operations; an odd
 sequence number marks an initialised descriptor.  A process installs its operation by swinging
 the target cell from the expected value to a tag `(tid, seq)`; whoever meets the tag helps.
 Each step below is one access to shared memory.
 */
module Dcss {

  type Addr = nat
  type Pid = nat

  /** The contents of a cell: an untagged word or a tag, which names a descriptor and its sequence number. */
  datatype Word = Val(v: int) | Tag(tid: Pid, sn: nat)

  datatype Status = Undecided | Succeeded | Failed

  /** The arguments of one operation. */
  datatype Req = Req(addr1: Addr, old1: Word, addr2: Addr, old2: int, new2: int)

  /** A descriptor: the packed mutables (sequence number and state) and the five argument fields. */
  datatype Desc = Desc(sn: nat, st: Status, req: Req)

  datatype Result = Success | FailedAddr1(failed: Word) | FailedAddr2(found: Word)

  /** The fields that a snapshot copies one by one, in any order. */
  datatype Field = FMutables | FAddr1 | FOld1 | FAddr2 | FOld2 | FNew2

  /** Where a process is inside `dcssHelp`, for the tag `(t, q)`. */
  datatype Help =
    | NoHelp
    | Copying(t: Pid, q: nat, got: set<Field>, snap: Desc)
    | ReadAddr1(t: Pid, q: nat, snap: Desc)
    | ReadMutables(t: Pid, q: nat, snap: Desc, val1: Word)
    | CasMutables(t: Pid, q: nat, snap: Desc, val1: Word, vsn: nat)
    | CasAddr2(t: Pid, q: nat, snap: Desc, val1: Word, win: bool)

  /** Where a process is inside its own operation. */
  datatype Top =
    | Idle
    | NewRead(req: Req)
    | NewWrite(req: Req, v: nat)
    | Fill(req: Req, next: nat)
    | InitRead(req: Req)
    | InitWrite(req: Req, v: nat, st: Status)
    | Install(req: Req, q: nat)
    | Own(req: Req, q: nat)
    | Done(req: Req, q: nat, res: Result)
    | Reading(addr: Addr)
    | ReadDone(addr: Addr, r: Word)

  /** `targets` are the cells that operations swing; the environment writes only the other cells. */
  datatype State = State(
    targets: iset<Addr>,
    mem: Addr -> Word,
    desc: Pid -> Desc,
    top: Pid -> Top,
    help: Pid -> Help)

  datatype Action =
    | Write(a: Addr, w: Word)
    | Call(p: Pid, req: Req)
    | CallRead(p: Pid, a: Addr)
    | Return(p: Pid)
    | Copy(p: Pid, f: Field)
    | Tick(p: Pid)

  function Set<V>(f: nat -> V, k: nat, v: V): (g: nat -> V)
    ensures forall x: nat :: g(x) == if x == k then v else f(x)
  {
    (x: nat) => if x == k then v else f(x)
  }

  ghost predicate Initial(s: State) {
    && (forall a: Addr :: a in s.targets ==> s.mem(a).Val?)
    && (forall p: Pid :: s.desc(p).sn == 1 && s.top(p) == Idle && s.help(p) == NoHelp)
  }

  function AllFields(): set<Field> { {FMutables, FAddr1, FOld1, FAddr2, FOld2, FNew2} }

  predicate Enabled(s: State, act: Action) {
    match act
    case Write(a, _) => a !in s.targets
    case Call(p, req) => s.top(p).Idle? && req.addr2 in s.targets
    case CallRead(p, a) => s.top(p).Idle? && a in s.targets
    case Return(p) => s.top(p).Done? || s.top(p).ReadDone?
    case Copy(p, _) => s.help(p).Copying?
    case Tick(p) =>
      if s.help(p).Copying? then s.help(p).got == AllFields()
      else !s.help(p).NoHelp? || s.top(p).NewRead? || s.top(p).NewWrite? || s.top(p).Fill?
           || s.top(p).InitRead? || s.top(p).InitWrite? || s.top(p).Install? || s.top(p).Reading?
  }

  function Apply(s: State, act: Action): State
    requires Enabled(s, act)
  {
    match act
    case Write(a, w) => s.(mem := Set(s.mem, a, w))
    case Call(p, req) => s.(top := Set(s.top, p, NewRead(req)))
    case CallRead(p, a) => s.(top := Set(s.top, p, Reading(a)))
    case Return(p) => s.(top := Set(s.top, p, Idle))
    case Copy(p, f) => s.(help := Set(s.help, p, CopyField(s, s.help(p), f)))
    case Tick(p) => if s.help(p).NoHelp? then OperationStep(s, p) else HelpStep(s, p)
  }

  ghost predicate Next(s: State, s': State) {
    exists act :: Enabled(s, act) && s' == Apply(s, act)
  }

  // ----- the operation itself: DESC_NEW, the field writes, DESC_INITIALIZED, the install loop, readPtr

  function FillField(r: Req, req: Req, k: nat): Req {
    match k
    case 0 => r.(addr1 := req.addr1)
    case 1 => r.(old1 := req.old1)
    case 2 => r.(addr2 := req.addr2)
    case 3 => r.(old2 := req.old2)
    case _ => r.(new2 := req.new2)
  }

  /** Start helping the tag `(t, q)`: the snapshot starts with nothing copied. */
  function StartHelp(s: State, p: Pid, t: Pid, q: nat): State {
    s.(help := Set(s.help, p, Copying(t, q, {}, s.desc(p))))
  }

  function OperationStep(s: State, p: Pid): State
    requires s.top(p).NewRead? || s.top(p).NewWrite? || s.top(p).Fill? || s.top(p).InitRead?
             || s.top(p).InitWrite? || s.top(p).Install? || s.top(p).Reading?
  {
    var d := s.desc(p);
    match s.top(p)
    case NewRead(req) => s.(top := Set(s.top, p, NewWrite(req, d.sn)))
    case NewWrite(req, v) =>
      s.(desc := Set(s.desc, p, d.(sn := v + 1, st := Undecided)), top := Set(s.top, p, Fill(req, 0)))
    case Fill(req, k) =>
      s.(desc := Set(s.desc, p, d.(req := FillField(d.req, req, k))),
         top := Set(s.top, p, if k < 4 then Fill(req, k + 1) else InitRead(req)))
    case InitRead(req) => s.(top := Set(s.top, p, InitWrite(req, d.sn, d.st)))
    case InitWrite(req, v, st) =>
      s.(desc := Set(s.desc, p, d.(sn := v + 1, st := st)), top := Set(s.top, p, Install(req, v + 1)))
    case Install(req, q) =>
      var r := s.mem(d.req.addr2);
      if r.Tag? then StartHelp(s, p, r.tid, r.sn)
      else if r == Val(d.req.old2) then
        s.(mem := Set(s.mem, d.req.addr2, Tag(p, q)),
           top := Set(s.top, p, Own(req, q)),
           help := Set(s.help, p, ReadAddr1(p, q, d)))
      else s.(top := Set(s.top, p, Done(req, q, FailedAddr2(r))))
    case Reading(a) =>
      var r := s.mem(a);
      if r.Tag? then StartHelp(s, p, r.tid, r.sn)
      else s.(top := Set(s.top, p, ReadDone(a, r)))
  }

  // ----- dcssHelp

  function CopyField(s: State, h: Help, f: Field): Help
    requires h.Copying?
  {
    var d := s.desc(h.t);
    var snap :=
      match f
      case FMutables => h.snap.(sn := d.sn, st := d.st)
      case FAddr1 => h.snap.(req := h.snap.req.(addr1 := d.req.addr1))
      case FOld1 => h.snap.(req := h.snap.req.(old1 := d.req.old1))
      case FAddr2 => h.snap.(req := h.snap.req.(addr2 := d.req.addr2))
      case FOld2 => h.snap.(req := h.snap.req.(old2 := d.req.old2))
      case FNew2 => h.snap.(req := h.snap.req.(new2 := d.req.new2));
    h.(got := h.got + {f}, snap := snap)
  }

  /** Leave `dcssHelp`; a process that was finishing its own operation returns `res`. */
  function Finish(s: State, p: Pid, res: Result): State {
    s.(help := Set(s.help, p, NoHelp),
       top := if s.top(p).Own? then Set(s.top, p, Done(s.top(p).req, s.top(p).q, res)) else s.top)
  }

  function HelpStep(s: State, p: Pid): State
    requires !s.help(p).NoHelp?
  {
    match s.help(p)
    case Copying(t, q, got, snap) =>
      // the check that ends the snapshot
      if s.desc(t).sn == q then s.(help := Set(s.help, p, ReadAddr1(t, q, snap)))
      else Finish(s, p, FailedAddr1(Val(0)))
    case ReadAddr1(t, q, snap) =>
      s.(help := Set(s.help, p, ReadMutables(t, q, snap, s.mem(snap.req.addr1))))
    case ReadMutables(t, q, snap, val1) =>
      s.(help := Set(s.help, p, CasMutables(t, q, snap, val1, s.desc(t).sn)))
    case CasMutables(t, q, snap, val1, vsn) =>
      CasMutablesStep(s, p, s.help(p))
    case CasAddr2(t, q, snap, val1, win) =>
      var res := if win then Success else FailedAddr1(val1);
      if s.mem(snap.req.addr2) == Tag(t, q)
      then Finish(s.(mem := Set(s.mem, snap.req.addr2, Val(if win then snap.req.new2 else snap.req.old2))), p, res)
      else Finish(s, p, res)
  }

  /**
   One turn of the loop that swings the state field.  The expected word is the last word read with
   its state replaced by Undecided.  When the swap fails, the word found decides: a decided state is
   handed back whatever its sequence number, an undecided one sends the loop round again.
   */
  function CasMutablesStep(s: State, p: Pid, h: Help): State
    requires h.CasMutables?
  {
    var d := s.desc(h.t);
    var choice := if h.val1 == h.snap.req.old1 then Succeeded else Failed;
    if h.vsn != h.snap.sn then Finish(s, p, FailedAddr1(Val(0)))
    else if d.sn == h.vsn && d.st == Undecided then
      s.(desc := Set(s.desc, h.t, d.(st := choice)),
         help := Set(s.help, p, CasAddr2(h.t, h.q, h.snap, h.val1, choice == Succeeded)))
    else if d.st != Undecided then
      s.(help := Set(s.help, p, CasAddr2(h.t, h.q, h.snap, h.val1, d.st == Succeeded)))
    else s.(help := Set(s.help, p, h.(vsn := d.sn)))
  }
}
