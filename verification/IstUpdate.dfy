/** Insertion and deletion in the interpolation search tree. */
module IstUpdate {
  import opened Ist
  import opened IstRebuild
  import opened IstBuild

  datatype Op = InsertReplace(val: Value) | InsertIfAbsent(val: Value) | Erase

  /** The pair a pointer stands for, if any. */
  function FoundPair(n: Node, ix: nat): Option<KVPair>
    requires Shape(n) && ix < |n.slots|
  {
    match n.slots[ix]
    case Val(v) => Some(KVPair(n.keys[ix - 1], v))
    case Pair(p) => Some(p)
    case _ => None
  }

  /** The word the update puts in the pointer, or none when it changes nothing. */
  function NewWord(found: Option<KVPair>, key: int, op: Op): Option<Slot> {
    if found.Some? && found.value.k == key then
      if op.Erase? then Some(Empty) else if op.InsertReplace? then Some(Val(op.val)) else None
    else if op.Erase? then None
    else if found.None? then Some(Pair(KVPair(key, op.val)))
    else if key < found.value.k then Some(Child(LeafOf([KVPair(key, op.val), found.value])))
    else Some(Child(LeafOf([found.value, KVPair(key, op.val)])))
  }

  /**
   An operation that meets a rebuild operation helps it and starts again; one that was already below when the rebuild
   operation was placed goes on there.
   */
  function DoUpdate(n: Node, key: int, op: Op): Node
    requires Shape(n)
  {
    var ix := Index(n.keys, key);
    match n.slots[ix]
    case Child(m) => n.(slots := n.slots[ix := Child(DoUpdate(m, key, op))])
    case Rebuild(m) => n.(slots := n.slots[ix := Rebuild(DoUpdate(m, key, op))])
    case _ =>
      var w := NewWord(FoundPair(n, ix), key, op);
      if w.Some? then n.(slots := n.slots[ix := w.value]) else n
  }

  /** The replaced pair becomes a bare value, which stands for the key before the pointer; that is another key, or none. */
  predicate Misplaces(n: Node, key: int, op: Op)
    requires Shape(n)
  {
    var ix := Index(n.keys, key);
    match n.slots[ix]
    case Child(m) => Misplaces(m, key, op)
    case Rebuild(m) => Misplaces(m, key, op)
    case Pair(p) => op.InsertReplace? && p.k == key && (ix == 0 || n.keys[ix - 1] != key)
    case _ => false
  }

  /** What `k` is bound to after the operation on `key`. */
  function Effect(op: Op, key: int, k: int, was: Option<Value>): Option<Value> {
    if k != key then was
    else match op
         case InsertReplace(val) => Some(val)
         case InsertIfAbsent(val) => if was.None? then Some(val) else was
         case Erase => None
  }

  function LookUp(p: Option<KVPair>, k: int): Option<Value> {
    if p.Some? && p.value.k == k then Some(p.value.v) else None
  }

  /** What a search that arrives at a word returns. */
  function WordFind(w: Slot, k: int): Option<Value>
    requires w.Child? ==> Shape(w.node)
  {
    match w
    case Pair(p) => LookUp(Some(p), k)
    case Child(m) => Find(m, k)
    case _ => None
  }

  lemma FindTwo(a: KVPair, b: KVPair, lo: Option<int>, hi: Option<int>, k: int)
    requires a.k < b.k && Within(lo, hi, a.k) && Within(lo, hi, b.k)
    ensures Ordered(LeafOf([a, b]), lo, hi) && Shape(LeafOf([a, b]))
    ensures Find(LeafOf([a, b]), k) == if k == a.k then Some(a.v) else if k == b.k then Some(b.v) else None
  {
    var n := LeafOf([a, b]);
    LeafHolds([a, b]);
    assert AllWithin([a, b], lo, hi);
    hide LeafOf, OrderedOver;
    assert Ordered(n, lo, hi);
    FindIsMembership(n, lo, hi, k, a.v);
    FindIsMembership(n, lo, hi, k, b.v);
    hide Ordered, Find;
    if Find(n, k).Some? {
      FindIsMembership(n, lo, hi, k, Find(n, k).value);
    }
  }

  /** The new word fits the range of the pointer and answers searches as it should. */
  lemma NewWordOk(found: Option<KVPair>, key: int, op: Op, lo: Option<int>, hi: Option<int>, k: int)
    requires Within(lo, hi, key) && (found.Some? ==> Within(lo, hi, found.value.k))
    requires NewWord(found, key, op).Some? && !NewWord(found, key, op).value.Val?
    ensures var w := NewWord(found, key, op).value;
            && !w.Rebuild? && SlotOrdered(w, lo, hi) && (w.Child? ==> Shape(w.node))
            && WordFind(w, k) == Effect(op, key, k, LookUp(found, k))
  {
    if found.Some? && !op.Erase? && found.value.k != key {
      var p := KVPair(key, op.val);
      hide Find, Ordered, Shape;
      if key < found.value.k { FindTwo(p, found.value, lo, hi, k); } else { FindTwo(found.value, p, lo, hi, k); }
    }
  }

  /** Putting a new word in a pointer of an ordered node; only searches that reach it may change. */
  lemma NewSlot(n: Node, ix: nat, w: Slot, lo: Option<int>, hi: Option<int>)
    requires Ordered(n, lo, hi) && Shape(n) && ix < |n.slots| && (w.Val? ==> ix > 0)
    requires SlotOrdered(w, KidLo(n.keys, lo, ix), KidHi(n.keys, hi, ix))
    ensures var n' := n.(slots := n.slots[ix := w]);
            && Ordered(n', lo, hi) && Shape(n')
            && forall k :: Index(n.keys, k) != ix ==> Find(n', k) == Find(n, k)
  {
    var n' := n.(slots := n.slots[ix := w]);
    forall j | 0 <= j < |n'.slots| ensures SlotOrdered(n'.slots[j], KidLo(n.keys, lo, j), KidHi(n.keys, hi, j)) {
      assert SlotOrdered(n.slots[j], KidLo(n.keys, lo, j), KidHi(n.keys, hi, j));
      hide SlotOrdered;
    }
    assert Ordered(n', lo, hi);
    OrderedShape(n', lo, hi);
    hide Ordered, SlotOrdered;
  }

  lemma KeyWithin(n: Node, key: int, lo: Option<int>, hi: Option<int>)
    requires Ordered(n, lo, hi) && Shape(n) && Within(lo, hi, key)
    ensures var ix := Index(n.keys, key);
            && Within(KidLo(n.keys, lo, ix), KidHi(n.keys, hi, ix), key)
            && SlotOrdered(n.slots[ix], KidLo(n.keys, lo, ix), KidHi(n.keys, hi, ix))
            && (FoundPair(n, ix).Some? ==> Within(KidLo(n.keys, lo, ix), KidHi(n.keys, hi, ix), FoundPair(n, ix).value.k))
  {
    var ix := Index(n.keys, key);
    assert SlotOrdered(n.slots[ix], KidLo(n.keys, lo, ix), KidHi(n.keys, hi, ix));
  }

  /** The order is kept, and only the binding of the operation's own key changes, as it should. */
  ghost predicate Carried(n: Node, n': Node, key: int, op: Op, lo: Option<int>, hi: Option<int>)
    requires Shape(n)
  {
    Ordered(n', lo, hi) && Shape(n') && forall k :: Find(n', k) == Effect(op, key, k, Find(n, k))
  }

  /** At the end of the path: the word found there is replaced. */
  lemma UpdateHere(n: Node, key: int, op: Op, lo: Option<int>, hi: Option<int>)
    requires Ordered(n, lo, hi) && Shape(n) && Within(lo, hi, key) && !Misplaces(n, key, op)
    requires !n.slots[Index(n.keys, key)].Child? && !n.slots[Index(n.keys, key)].Rebuild?
    ensures Carried(n, DoUpdate(n, key, op), key, op, lo, hi)
  {
    var ix := Index(n.keys, key);
    KeyWithin(n, key, lo, hi);
    var found, n' := FoundPair(n, ix), DoUpdate(n, key, op);
    var w := NewWord(found, key, op);
    hide Ordered, SlotOrdered, NewWord;
    forall k ensures Index(n.keys, k) == ix ==> Find(n, k) == LookUp(found, k) {}
    if w.None? {
      NoChange(found, key, op);
    } else if w.value.Val? {
      ReplacedHere(n, key, op, lo, hi);
    } else {
      NewWordOk(found, key, op, KidLo(n.keys, lo, ix), KidHi(n.keys, hi, ix), key);
      NewSlot(n, ix, w.value, lo, hi);
      forall k ensures Find(n', k) == Effect(op, key, k, Find(n, k)) {
        NewWordOk(found, key, op, KidLo(n.keys, lo, ix), KidHi(n.keys, hi, ix), k);
      }
    }
  }

  lemma NoChange(found: Option<KVPair>, key: int, op: Op)
    requires NewWord(found, key, op).None?
    ensures Effect(op, key, key, LookUp(found, key)) == LookUp(found, key)
  {
  }

  /** A bare value put where the key before the pointer is the key. */
  lemma ReplacedHere(n: Node, key: int, op: Op, lo: Option<int>, hi: Option<int>)
    requires Ordered(n, lo, hi) && Shape(n) && Within(lo, hi, key) && !Misplaces(n, key, op)
    requires var ix := Index(n.keys, key);
             && !n.slots[ix].Child? && !n.slots[ix].Rebuild?
             && NewWord(FoundPair(n, ix), key, op).Some? && NewWord(FoundPair(n, ix), key, op).value.Val?
    ensures Carried(n, DoUpdate(n, key, op), key, op, lo, hi)
  {
    var ix, n' := Index(n.keys, key), DoUpdate(n, key, op);
    assert ix > 0 && n.keys[ix - 1] == key;
    KeyWithin(n, key, lo, hi);
    NewSlot(n, ix, Val(op.val), lo, hi);
    hide Ordered, SlotOrdered;
    forall k ensures Find(n', k) == Effect(op, key, k, Find(n, k)) {
      if Index(n.keys, k) == ix && k != key { assert Find(n, k) == None; }
    }
  }

  /** The same pointer, below a change further down. */
  lemma CarriedUp(n: Node, ix: nat, w: Slot, key: int, op: Op, lo: Option<int>, hi: Option<int>)
    requires Ordered(n, lo, hi) && Shape(n) && Within(lo, hi, key) && ix == Index(n.keys, key)
    requires (n.slots[ix].Child? && w.Child?) || (n.slots[ix].Rebuild? && w.Rebuild?)
    requires Shape(n.slots[ix].node) && Carried(n.slots[ix].node, w.node, key, op, KidLo(n.keys, lo, ix), KidHi(n.keys, hi, ix))
    ensures Carried(n, n.(slots := n.slots[ix := w]), key, op, lo, hi)
  {
    var m, n' := n.slots[ix].node, n.(slots := n.slots[ix := w]);
    hide Ordered;
    NewSlot(n, ix, w, lo, hi);
    hide Shape, SlotOrdered;
    forall k ensures Find(n', k) == Effect(op, key, k, Find(n, k)) {
      if Index(n.keys, k) == ix { assert Find(w.node, k) == Effect(op, key, k, Find(m, k)); }
    }
  }

  lemma {:induction false} UpdateCarries(n: Node, key: int, op: Op, lo: Option<int>, hi: Option<int>)
    requires Ordered(n, lo, hi) && Shape(n) && Within(lo, hi, key) && !Misplaces(n, key, op)
    ensures Carried(n, DoUpdate(n, key, op), key, op, lo, hi)
    decreases n
  {
    var ix := Index(n.keys, key);
    if n.slots[ix].Child? || n.slots[ix].Rebuild? {
      KeyWithin(n, key, lo, hi);
      var m := n.slots[ix].node;
      UpdateCarries(m, key, op, KidLo(n.keys, lo, ix), KidHi(n.keys, hi, ix));
      hide Ordered, Carried, SlotOrdered;
      CarriedUp(n, ix, if n.slots[ix].Child? then Child(DoUpdate(m, key, op)) else Rebuild(DoUpdate(m, key, op)), key, op, lo, hi);
    } else {
      UpdateHere(n, key, op, lo, hi);
    }
  }

  /** A misplaced value stands for no key at all, or the key just written is not found. */
  lemma {:induction false} MisplacedIsLost(n: Node, key: int, op: Op)
    requires Shape(n) && Misplaces(n, key, op)
    ensures var n' := DoUpdate(n, key, op); Shape(n') ==> Find(n', key) == None
    decreases n
  {
    var ix := Index(n.keys, key);
    if n.slots[ix].Child? || n.slots[ix].Rebuild? { MisplacedIsLost(n.slots[ix].node, key, op); }
  }

  /** An update keeps the order and changes the binding of its own key only, exactly when it misplaces no value. */
  lemma UpdateMeaning(n: Node, key: int, op: Op, lo: Option<int>, hi: Option<int>)
    requires Ordered(n, lo, hi) && Shape(n) && Within(lo, hi, key)
    ensures Carried(n, DoUpdate(n, key, op), key, op, lo, hi) <==> !Misplaces(n, key, op)
    ensures !op.InsertReplace? ==> !Misplaces(n, key, op)
  {
    hide Ordered;
    if Misplaces(n, key, op) {
      MisplacedIsLost(n, key, op);
      OnlyReplaces(n, key, op);
    } else {
      hide Carried;
      UpdateCarries(n, key, op, lo, hi);
    }
  }

  lemma {:induction false} OnlyReplaces(n: Node, key: int, op: Op)
    requires Shape(n) && Misplaces(n, key, op)
    ensures op.InsertReplace?
    decreases n
  {
    var s := n.slots[Index(n.keys, key)];
    if s.Child? || s.Rebuild? { OnlyReplaces(s.node, key, op); }
  }
}
