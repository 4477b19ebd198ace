/** Every run on one leaf, eliminated operations included, agrees with one sequential history. */
module ElimSafety {
  import opened Elim
  import opened ElimHistory

  /** The slots hold exactly the dictionary. */
  predicate Rep(keys: seq<int>, vals: seq<int>, d: Dict) {
    && |keys| == |vals|
    && (forall i :: 0 <= i < |keys| && keys[i] != 0 ==> keys[i] in d && d[keys[i]] == vals[i])
    && (forall k :: k in d ==> k != 0 && k in keys)
    && forall i, j :: 0 <= i < j < |keys| && keys[i] != 0 ==> keys[i] != keys[j]
  }

  /** About to write slot `i`. */
  predicate Ready(leaf: Leaf, x: Thread, d: Dict, i: nat) {
    && i < DEGREE && |leaf.keys| == DEGREE && Rep(leaf.keys, leaf.vals, d) && !x.op.Get?
    && (if x.op.Ins? then leaf.keys[i] == 0 && x.op.k !in d else leaf.keys[i] == x.op.k)
  }

  /** Slot `i` is written. */
  predicate Written(leaf: Leaf, x: Thread, d: Dict, i: nat, val: int)
    requires |leaf.keys| == |leaf.vals| == DEGREE
  {
    && i < DEGREE && !x.op.Get? && leaf.vals[i] == val
    && (if x.op.Ins?
        then leaf.keys[i] == x.op.k && val == x.op.v && x.op.k !in d && Rep(leaf.keys[i := 0], leaf.vals, d)
        else leaf.keys[i] == 0 && Rep(leaf.keys[i := x.op.k], leaf.vals, d))
  }

  /** What the lock holder knows of the slots; they stand for the dictionary before its update until it is closed. */
  predicate HolderOk(leaf: Leaf, x: Thread, d: Dict) {
    && |leaf.keys| == |leaf.vals| == DEGREE
    && match x.pc
       case Open(i) => Ready(leaf, x, d, i)
       case PutElimVer(i) => Ready(leaf, x, d, i)
       case PutElimKey(i) => Ready(leaf, x, d, i)
       case PutElimVal(i) => Ready(leaf, x, d, i)
       case PutKey(i, val) => Ready(leaf, x, d, i) && val == if x.op.Ins? then x.op.v else leaf.vals[i]
       case PutVal(i) =>
         i < DEGREE && x.op.Ins? && leaf.keys[i] == x.op.k && x.op.k !in d && Rep(leaf.keys[i := 0], leaf.vals, d)
       case PutSize(i, val) => Written(leaf, x, d, i, val)
       case Close(i, val) => Written(leaf, x, d, i, val)
       case _ => Rep(leaf.keys, leaf.vals, d)
  }

  predicate ContentOk(leaf: Leaf, threads: seq<Thread>, d: Dict) {
    && |leaf.keys| == |leaf.vals| == DEGREE
    && if leaf.holder.Some? then leaf.holder.value < |threads| && HolderOk(leaf, threads[leaf.holder.value], d)
       else Rep(leaf.keys, leaf.vals, d)
  }

  predicate RecordOk(leaf: Leaf, log: seq<Entry>) {
    leaf.elimKey == 0 || Published(log, leaf.elimVer, leaf.elimKey, leaf.elimVal) < |log|
  }

  /** The elimination record while its writer is at work. */
  predicate RecordMaking(leaf: Leaf, x: Thread) {
    match x.pc
    case PutElimKey(_) => leaf.elimVer == leaf.ver
    case PutElimVal(_) => leaf.elimVer == leaf.ver && leaf.elimKey == x.op.k
    case PutKey(_, val) => leaf.elimVer == leaf.ver && leaf.elimKey == x.op.k && leaf.elimVal == val
    case PutVal(_) => leaf.elimVer == leaf.ver && leaf.elimKey == x.op.k && x.op.Ins? && leaf.elimVal == x.op.v
    case PutSize(_, val) => leaf.elimVer == leaf.ver && leaf.elimKey == x.op.k && leaf.elimVal == val
    case Close(_, val) => leaf.elimVer == leaf.ver && leaf.elimKey == x.op.k && leaf.elimVal == val
    case _ => true
  }

  predicate Busy(leaf: Leaf, threads: seq<Thread>) {
    leaf.holder.Some? && leaf.holder.value < |threads| && Writing(threads[leaf.holder.value].pc)
  }

  predicate ElimOk(leaf: Leaf, threads: seq<Thread>, log: seq<Entry>) {
    && (leaf.ver % 2 == 1 <==> Busy(leaf, threads))
    && (if Busy(leaf, threads) then RecordMaking(leaf, threads[leaf.holder.value]) else RecordOk(leaf, log))
  }

  /** What a thread has read is what the leaf still holds, as long as the version has not changed. */
  predicate ReaderOk(leaf: Leaf, x: Thread, d: Dict) {
    match x.pc
    case Scan(v, i) =>
      v % 2 == 0 && v <= leaf.ver && i <= DEGREE && (leaf.ver == v ==> forall j :: 0 <= j < i && j < |leaf.keys| ==> leaf.keys[j] != x.op.k)
    case ReadVal(v, i) => v % 2 == 0 && v <= leaf.ver && i < DEGREE && (leaf.ver == v ==> i < |leaf.keys| && leaf.keys[i] == x.op.k)
    case Validate(v, r) => v % 2 == 0 && v <= leaf.ver && (leaf.ver == v ==> r == Result(d, x.op))
    case AcqElimVer(v, w) => w % 2 == 0 && w <= leaf.ver
    case AcqElimKey(v, w, ev) => w % 2 == 0 && w <= leaf.ver && (leaf.ver == w ==> ev == leaf.elimVer)
    case AcqElimVal(v, w, ev, ek) => w % 2 == 0 && w <= leaf.ver && (leaf.ver == w ==> ev == leaf.elimVer && ek == leaf.elimKey)
    case AcqCheck(v, w, ev, ek, el) =>
      w % 2 == 0 && w <= leaf.ver && (leaf.ver == w ==> ev == leaf.elimVer && ek == leaf.elimKey && el == leaf.elimVal)
    case _ => true
  }

  predicate Updating(pc: Pc) {
    pc.AcqVer? || pc.AcqElimVer? || pc.AcqElimKey? || pc.AcqElimVal? || pc.AcqCheck? || pc.TryLock? || HoldsLock(pc)
  }

  predicate ThreadOk(leaf: Leaf, d: Dict, t: nat, x: Thread) {
    && OpOk(x.op) && (HoldsLock(x.pc) <==> leaf.holder == Some(t)) && (Updating(x.pc) ==> !x.op.Get?)
    && ReaderOk(leaf, x, d)
  }

  ghost predicate Inv(s: State) {
    var d := Dictionary(s.log);
    && ContentOk(s.leaf, s.threads, d)
    && ElimOk(s.leaf, s.threads, s.log)
    && (forall t :: 0 <= t < |s.threads| ==> ThreadOk(s.leaf, d, t, s.threads[t]))
    && (s.leaf.holder.Some? ==> s.leaf.holder.value < |s.threads|)
    && Legal(s.log)
  }

  // ----- the slots and the dictionary

  lemma Lookup(keys: seq<int>, vals: seq<int>, d: Dict, k: int)
    requires Rep(keys, vals, d) && k != 0
    ensures forall i :: 0 <= i < |keys| && keys[i] == k ==> k in d && d[k] == vals[i]
    ensures k !in keys ==> k !in d
  {
  }

  lemma RepInsert(keys: seq<int>, vals: seq<int>, d: Dict, i: nat, k: int)
    requires i < |keys| && Rep(keys[i := 0], vals, d) && keys[i] == k && k != 0 && k !in d
    ensures Rep(keys, vals, d[k := vals[i]])
  {
    var was, d' := keys[i := 0], d[k := vals[i]];
    assert forall j :: 0 <= j < |keys| && j != i ==> was[j] == keys[j];
    forall j | 0 <= j < |keys| && keys[j] != 0 ensures keys[j] in d' && d'[keys[j]] == vals[j] {
      if j != i { assert was[j] in d; }
    }
    forall j, l | 0 <= j < l < |keys| && keys[j] != 0 ensures keys[j] != keys[l] {
      if l == i { assert was[j] in d; }
      if j == i && keys[l] != 0 { assert was[l] in d; }
    }
    forall k' | k' in d' ensures k' != 0 && k' in keys {
      if k' in d {
        assert k' in was;
        var j :| 0 <= j < |was| && was[j] == k';
        assert keys[j] == k';
      } else {
        assert keys[i] == k';
      }
    }
  }

  lemma RepErase(keys: seq<int>, vals: seq<int>, d: Dict, i: nat, k: int)
    requires i < |keys| && Rep(keys[i := k], vals, d) && keys[i] == 0 && k != 0
    ensures k in d && d[k] == vals[i] && Rep(keys, vals, d - {k})
  {
    var was, d' := keys[i := k], d - {k};
    assert was[i] == k;
    assert forall j :: 0 <= j < |keys| && j != i ==> was[j] == keys[j];
    forall j | 0 <= j < |keys| && keys[j] != 0 ensures keys[j] in d' && d'[keys[j]] == vals[j] {
      assert was[j] in d && was[j] != k;
    }
    forall k' | k' in d' ensures k' != 0 && k' in keys {
      assert k' in was;
      var j :| 0 <= j < |was| && was[j] == k';
      assert keys[j] == k';
    }
  }

  // ----- the dictionary only changes when an update is closed

  /** The result with which an operation takes its place at the end of the history is right. */
  lemma AppendsRight(s: State, t: nat)
    requires Inv(s) && CanStep(s, t) && Appends(s.leaf, s.threads[t]).Some?
    ensures var d, x := Dictionary(s.log), s.threads[t];
            && Appends(s.leaf, x).value == Result(d, x.op)
            && (!x.pc.Close? ==> After(d, x.op) == d)
  {
    var d, x := Dictionary(s.log), s.threads[t];
    assert ThreadOk(s.leaf, d, t, x);
    hide Inv;
    if x.pc.Locked? {
      assert HolderOk(s.leaf, x, d);
      Lookup(s.leaf.keys, s.leaf.vals, d, x.op.k);
      SlotOfIn(s.leaf.keys, x.op.k);
    } else if x.pc.Close? {
      assert HolderOk(s.leaf, x, d);
      if x.op.Del? { RepErase(s.leaf.keys, s.leaf.vals, d, x.pc.i, x.op.k); }
    }
    assert x.op.Del? && x.op.k !in d ==> d - {x.op.k} == d;
  }

  lemma SlotOfIn(keys: seq<int>, k: int)
    ensures k in keys <==> SlotOf(keys, k) < |keys|
  {
  }

  /** A short-circuited operation finds the update it eliminates against in the history. */
  lemma ElimFinds(s: State, t: nat)
    requires Inv(s) && CanStep(s, t) && Eliminates(s.threads[t], s.leaf)
    ensures var pc := s.threads[t].pc; Published(s.log, pc.ev, pc.ek, pc.el) < |s.log|
  {
    assert ThreadOk(s.leaf, Dictionary(s.log), t, s.threads[t]);
    hide Dictionary, Legal, ContentOk;
  }

  /** The next dictionary, and the next history is legal. */
  lemma StepLegal(s: State, t: nat)
    requires Inv(s) && CanStep(s, t)
    ensures Legal(Step(s, t).log)
    ensures Dictionary(Step(s, t).log) ==
            var x := s.threads[t]; if x.pc.Close? then After(Dictionary(s.log), x.op) else Dictionary(s.log)
  {
    var x := s.threads[t];
    if Appends(s.leaf, x).Some? {
      AppendsRight(s, t);
      hide Inv, Appends;
      AppendLegal(s.log, NextLog(s, t)[|s.log|]);
    } else if Eliminates(x, s.leaf) {
      ElimFinds(s, t);
      assert ThreadOk(s.leaf, Dictionary(s.log), t, x);
      hide Dictionary, Appends;
      var p := Published(s.log, x.pc.ev, x.pc.ek, x.pc.el);
      BesideIsRight(s.log, p, x, x.op.k, x.pc.el, x.pc.ev);
      var q := Beside(s.log, p, x.op);
      InsertLegal(s.log, q, Entry(t, x.opNo, x.op, EliminatedResult(x), s.log[p].time, x.start, 0));
      hide Inv, Legal;
    }
  }

  /** One step of one thread, as far as the slots are concerned. */
  lemma StepContent(s: State, t: nat)
    requires Inv(s) && CanStep(s, t)
    ensures ContentOk(Step(s, t).leaf, Step(s, t).threads, Dictionary(Step(s, t).log))
  {
    StepLegal(s, t);
    var x, d := s.threads[t], Dictionary(s.log);
    assert ThreadOk(s.leaf, d, t, x) && ContentOk(s.leaf, s.threads, d);
    hide Inv, Legal, ElimOk, Dictionary, ReaderOk, NextLog, Returns, Rep, HolderOk;
    if HoldsLock(x.pc) {
      HolderStep(s.leaf, t, x, d);
      HolderAfter(s.leaf, t, x);
      hide NextLeaf, NextPc;
    } else if x.pc.TryLock? && s.leaf.holder.None? {
      LockTaken(s.leaf, t, x, d);
    } else {
      SameSlots(s, t);
      hide NextLeaf, NextPc;
    }
  }

  /** The lock is held until it is given up. */
  lemma HolderAfter(leaf: Leaf, t: nat, x: Thread)
    requires |leaf.keys| == |leaf.vals| == DEGREE && HoldsLock(x.pc) && leaf.holder == Some(t)
    requires x.pc.PutElimVal? || x.pc.PutKey? || x.pc.PutVal? ==> x.pc.i < DEGREE
    ensures NextLeaf(leaf, t, x).holder == if HoldsLock(NextPc(leaf, x)) then Some(t) else None
  {
  }

  lemma SameSlots(s: State, t: nat)
    requires CanStep(s, t) && ContentOk(s.leaf, s.threads, Dictionary(s.log)) && !HoldsLock(s.threads[t].pc)
    requires s.leaf.holder != Some(t) && !(s.threads[t].pc.TryLock? && s.leaf.holder.None?)
    ensures NextLeaf(s.leaf, t, s.threads[t]) == s.leaf
    ensures ContentOk(s.leaf, s.threads[t := s.threads[t].(pc := NextPc(s.leaf, s.threads[t]))], Dictionary(s.log))
  {
    hide Rep, HolderOk, Dictionary;
  }

  lemma LockTaken(leaf: Leaf, t: nat, x: Thread, d: Dict)
    requires |leaf.keys| == |leaf.vals| == DEGREE && Rep(leaf.keys, leaf.vals, d) && x.pc.TryLock? && leaf.holder.None?
    ensures HolderOk(NextLeaf(leaf, t, x), x.(pc := NextPc(leaf, x)), d)
  {
    hide Rep;
  }

  /** What must hold of the slots after a step of the lock holder. */
  predicate HolderNext(leaf: Leaf, t: nat, x: Thread, d: Dict)
    requires HolderOk(leaf, x, d) && HoldsLock(x.pc)
  {
    var leaf', x', d' := NextLeaf(leaf, t, x), x.(pc := NextPc(leaf, x)), if x.pc.Close? then After(d, x.op) else d;
    && |leaf'.keys| == |leaf'.vals| == DEGREE
    && (if HoldsLock(x'.pc) then HolderOk(leaf', x', d') else Rep(leaf'.keys, leaf'.vals, d'))
  }

  lemma HolderStep(leaf: Leaf, t: nat, x: Thread, d: Dict)
    requires HolderOk(leaf, x, d) && HoldsLock(x.pc) && OpOk(x.op) && !x.op.Get?
    ensures HolderNext(leaf, t, x, d)
  {
    if x.pc.Close? {
      HolderCloses(leaf, t, x, d);
    } else if x.pc.Locked? {
      HolderDecides(leaf, t, x, d);
    } else if x.pc.PutKey? {
      HolderPutsKey(leaf, t, x, d);
    } else if x.pc.PutVal? {
      var i := x.pc.i;
      RepOther(leaf.keys[i := 0], leaf.vals, d, i, x.op.v);
      hide Rep;
    } else {
      hide Rep;
    }
  }

  lemma HolderCloses(leaf: Leaf, t: nat, x: Thread, d: Dict)
    requires HolderOk(leaf, x, d) && x.pc.Close? && OpOk(x.op) && !x.op.Get?
    ensures HolderNext(leaf, t, x, d)
  {
    hide Rep;
    if x.op.Ins? { RepInsert(leaf.keys, leaf.vals, d, x.pc.i, x.op.k); }
    else { RepErase(leaf.keys, leaf.vals, d, x.pc.i, x.op.k); }
  }

  lemma HolderDecides(leaf: Leaf, t: nat, x: Thread, d: Dict)
    requires HolderOk(leaf, x, d) && x.pc.Locked? && OpOk(x.op) && !x.op.Get?
    ensures HolderNext(leaf, t, x, d)
  {
    Lookup(leaf.keys, leaf.vals, d, x.op.k);
    SlotOfIn(leaf.keys, x.op.k);
    hide Rep;
  }

  lemma HolderPutsKey(leaf: Leaf, t: nat, x: Thread, d: Dict)
    requires HolderOk(leaf, x, d) && x.pc.PutKey? && OpOk(x.op) && !x.op.Get?
    ensures HolderNext(leaf, t, x, d)
  {
    hide Rep;
    var i := x.pc.i;
    assert leaf.keys[i := x.op.k][i := leaf.keys[i]] == leaf.keys;
    assert leaf.keys[i := 0][i := leaf.keys[i]] == leaf.keys;
  }

  lemma RepOther(keys: seq<int>, vals: seq<int>, d: Dict, i: nat, v: int)
    requires Rep(keys, vals, d) && i < |keys| && keys[i] == 0
    ensures Rep(keys, vals[i := v], d)
  {
  }

  // ----- the elimination record

  lemma {:induction false} PublishedFound(log: seq<Entry>, i: nat, tag: nat, k: int, v: int)
    requires i < |log| && IsUpdate(log[i], tag, k, v)
    ensures Published(log, tag, k, v) < |log|
  {
  }

  /** Nothing is ever taken out of the history. */
  lemma LogGrows(s: State, t: nat, e: Entry)
    requires CanStep(s, t) && e in s.log
    ensures e in NextLog(s, t)
  {
    hide Appends;
    var i :| 0 <= i < |s.log| && s.log[i] == e;
    var x := s.threads[t];
    if Appends(s.leaf, x).None? && Eliminates(x, s.leaf) {
      var p := Published(s.log, x.pc.ev, x.pc.ek, x.pc.el);
      if p < |s.log| {
        var q := Beside(s.log, p, x.op);
        assert NextLog(s, t)[if i < q then i else i + 1] == e;
      }
    } else {
      assert NextLog(s, t)[i] == e;
    }
  }

  lemma RecordStays(s: State, t: nat)
    requires CanStep(s, t) && RecordOk(s.leaf, s.log)
    ensures RecordOk(s.leaf, NextLog(s, t))
  {
    var tag, k, v := s.leaf.elimVer, s.leaf.elimKey, s.leaf.elimVal;
    if k != 0 {
      var e := s.log[Published(s.log, tag, k, v)];
      LogGrows(s, t, e);
      var j :| 0 <= j < |NextLog(s, t)| && NextLog(s, t)[j] == e;
      PublishedFound(NextLog(s, t), j, tag, k, v);
    }
  }

  /** Closing an update publishes it. */
  lemma ClosePublishes(s: State, t: nat)
    requires Inv(s) && CanStep(s, t) && s.threads[t].pc.Close?
    ensures RecordOk(Step(s, t).leaf, NextLog(s, t))
  {
    var x := s.threads[t];
    assert ThreadOk(s.leaf, Dictionary(s.log), t, x);
    assert HolderOk(s.leaf, x, Dictionary(s.log)) && RecordMaking(s.leaf, x);
    hide Inv, Rep, Dictionary;
    PublishedFound(NextLog(s, t), |s.log|, s.leaf.elimVer, s.leaf.elimKey, s.leaf.elimVal);
  }

  lemma StepElim(s: State, t: nat)
    requires Inv(s) && CanStep(s, t)
    ensures ElimOk(Step(s, t).leaf, Step(s, t).threads, Step(s, t).log)
  {
    var x := s.threads[t];
    assert ThreadOk(s.leaf, Dictionary(s.log), t, x) && ElimOk(s.leaf, s.threads, s.log);
    assert s.leaf.holder.Some? ==> ThreadOk(s.leaf, Dictionary(s.log), s.leaf.holder.value, s.threads[s.leaf.holder.value]);
    if x.pc.Close? { ClosePublishes(s, t); }
    else if !Busy(s.leaf, s.threads) { RecordStays(s, t); }
    assert s.leaf.holder == Some(t) ==> HolderOk(s.leaf, x, Dictionary(s.log));
    hide Inv, Rep, Dictionary, ReaderOk, NextLog, Published, Returns;
    RecordStep(s, t);
  }

  lemma RecordStep(s: State, t: nat)
    requires CanStep(s, t) && ElimOk(s.leaf, s.threads, s.log)
    requires HoldsLock(s.threads[t].pc) <==> s.leaf.holder == Some(t)
    requires s.leaf.holder == Some(t) ==> exists d :: HolderOk(s.leaf, s.threads[t], d)
    requires s.threads[t].pc.Close? ==> RecordOk(Step(s, t).leaf, NextLog(s, t))
    requires !Busy(s.leaf, s.threads) ==> RecordOk(s.leaf, NextLog(s, t))
    ensures ElimOk(Step(s, t).leaf, Step(s, t).threads, Step(s, t).log)
  {
    hide Rep, NextLog, Published, Returns;
    var x, s' := s.threads[t], Step(s, t);
    if s.leaf.holder == Some(t) {
      var d :| HolderOk(s.leaf, x, d);
    } else {
      assert Busy(s'.leaf, s'.threads) == Busy(s.leaf, s.threads);
    }
  }

  // ----- readers

  /** Whenever the version is even, the slots hold the dictionary. */
  lemma QuietRep(leaf: Leaf, threads: seq<Thread>, log: seq<Entry>, d: Dict)
    requires ContentOk(leaf, threads, d) && ElimOk(leaf, threads, log) && leaf.ver % 2 == 0
    ensures Rep(leaf.keys, leaf.vals, d)
  {
    hide Rep;
  }

  /** The thread that makes the step. */
  lemma StepReader(s: State, t: nat)
    requires Inv(s) && CanStep(s, t)
    ensures ThreadOk(Step(s, t).leaf, Dictionary(Step(s, t).log), t, Step(s, t).threads[t])
  {
    var x, d := s.threads[t], Dictionary(s.log);
    StepLegal(s, t);
    assert ThreadOk(s.leaf, d, t, x);
    if s.leaf.ver % 2 == 0 {
      QuietRep(s.leaf, s.threads, s.log, d);
      Lookup(s.leaf.keys, s.leaf.vals, d, x.op.k);
    }
    hide Inv, Dictionary, Legal, NextLog, Returns;
    if HoldsLock(x.pc) { HolderAfter(s.leaf, t, x); }
    ReaderStep(s.leaf, t, x, d);
  }

  lemma HolderReads(leaf: Leaf, t: nat, x: Thread, d: Dict)
    requires |leaf.keys| == |leaf.vals| == DEGREE && ThreadOk(leaf, d, t, x) && HoldsLock(x.pc)
    requires x.pc.PutElimVal? || x.pc.PutKey? || x.pc.PutVal? ==> x.pc.i < DEGREE
    ensures var leaf', x' := NextLeaf(leaf, t, x), x.(pc := NextPc(leaf, x));
            ThreadOk(leaf', if x.pc.Close? then After(d, x.op) else d, t, x')
  {
  }

  lemma ReaderStep(leaf: Leaf, t: nat, x: Thread, d: Dict)
    requires |leaf.keys| == |leaf.vals| == DEGREE && ThreadOk(leaf, d, t, x)
    requires x.pc.ReadVal? || x.pc.PutElimVal? || x.pc.PutKey? || x.pc.PutVal? ==> x.pc.i < DEGREE
    requires leaf.ver % 2 == 0 ==> forall i :: 0 <= i < |leaf.keys| && leaf.keys[i] == x.op.k ==> x.op.k in d && d[x.op.k] == leaf.vals[i]
    requires leaf.ver % 2 == 0 && x.op.k !in leaf.keys ==> x.op.k !in d
    ensures var leaf', x' := NextLeaf(leaf, t, x), x.(pc := NextPc(leaf, x));
            ThreadOk(leaf', if x.pc.Close? then After(d, x.op) else d, t, x')
  {
    if HoldsLock(x.pc) {
      hide ReaderOk, After;
      HolderReads(leaf, t, x, d);
    } else if x.pc.Scan? && x.pc.i >= DEGREE && leaf.ver == x.pc.v {
      assert x.op.k !in leaf.keys;
    }
  }

  /** While the version stays the same even number, neither the slots nor the elimination record change. */
  predicate Quiet(leaf: Leaf, leaf': Leaf) {
    && leaf.ver <= leaf'.ver
    && (leaf'.ver == leaf.ver && leaf.ver % 2 == 0 ==>
        && leaf'.keys == leaf.keys && leaf'.vals == leaf.vals
        && leaf'.elimVer == leaf.elimVer && leaf'.elimKey == leaf.elimKey && leaf'.elimVal == leaf.elimVal)
  }

  lemma WritesAreOdd(leaf: Leaf, t: nat, x: Thread)
    requires |leaf.keys| == |leaf.vals| == DEGREE && (Writing(x.pc) ==> leaf.ver % 2 == 1)
    requires x.pc.PutElimVal? || x.pc.PutKey? || x.pc.PutVal? ==> x.pc.i < DEGREE
    ensures Quiet(leaf, NextLeaf(leaf, t, x)) && (x.pc.Close? ==> NextLeaf(leaf, t, x).ver > leaf.ver)
  {
  }

  lemma ReaderStays(leaf: Leaf, leaf': Leaf, y: Thread, d: Dict, d': Dict)
    requires ReaderOk(leaf, y, d) && Quiet(leaf, leaf') && (d' != d ==> leaf'.ver > leaf.ver)
    ensures ReaderOk(leaf', y, d')
  {
  }

  /** What a thread has read stays valid when another thread makes a step: the version tells. */
  lemma StepOther(s: State, t: nat, u: nat)
    requires Inv(s) && CanStep(s, t) && u < |s.threads| && u != t
    ensures ThreadOk(Step(s, t).leaf, Dictionary(Step(s, t).log), u, Step(s, t).threads[u])
  {
    var x, y, d := s.threads[t], s.threads[u], Dictionary(s.log);
    StepLegal(s, t);
    assert ThreadOk(s.leaf, d, t, x) && ThreadOk(s.leaf, d, u, y);
    assert Writing(x.pc) ==> s.leaf.ver % 2 == 1;
    hide Inv, Dictionary, Legal, NextLog, Returns, NextPc, ReaderOk;
    WritesAreOdd(s.leaf, t, x);
    ReaderStays(s.leaf, NextLeaf(s.leaf, t, x), y, d, Dictionary(Step(s, t).log));
    hide Quiet;
  }

  lemma StepInv(s: State, t: nat)
    requires Inv(s) && CanStep(s, t)
    ensures Inv(Step(s, t))
  {
    StepLegal(s, t);
    StepContent(s, t);
    StepElim(s, t);
    StepReader(s, t);
    var s', d' := Step(s, t), Dictionary(Step(s, t).log);
    hide ThreadOk, Legal, ElimOk, Dictionary, NextLog, Returns;
    forall u | 0 <= u < |s'.threads| ensures ThreadOk(s'.leaf, d', u, s'.threads[u]) {
      if u != t { StepOther(s, t, u); }
    }
  }

  lemma InvokeInv(s: State, t: nat, op: Op)
    requires Inv(s) && t < |s.threads| && s.threads[t].pc.Idle? && OpOk(op)
    ensures Inv(Invoke(s, t, op))
  {
    var s', d := Invoke(s, t, op), Dictionary(s.log);
    forall u | 0 <= u < |s'.threads| ensures ThreadOk(s'.leaf, d, u, s'.threads[u]) {
      assert ThreadOk(s.leaf, d, u, s.threads[u]);
    }
    hide Rep, Dictionary, Legal, Published;
  }

  lemma MarkInv(s: State)
    requires Inv(s) && s.leaf.holder.None?
    ensures Inv(MarkLeaf(s))
  {
    var s', d := MarkLeaf(s), Dictionary(s.log);
    forall u | 0 <= u < |s'.threads| ensures ThreadOk(s'.leaf, d, u, s'.threads[u]) {
      assert ThreadOk(s.leaf, d, u, s.threads[u]);
    }
    hide Rep, Dictionary, Legal, Published;
  }

  lemma InitialInv(s: State)
    requires Initial(s)
    ensures Inv(s)
  {
  }
}
