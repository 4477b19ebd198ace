/** Whole runs of the interpolation search tree: updates and rebuilding anywhere in the tree, interleaved in any way. */
module IstRun {
  import opened Ist
  import opened IstRebuild
  import opened IstBuild
  import opened IstUpdate

  /**
   One change of a pointer. `Place` puts a rebuild operation over a subtree; `Finish` puts the word made from the frozen
   subtree in its place.
   */
  datatype Step = Apply(key: int, op: Op) | Place(path: seq<nat>) | Finish(path: seq<nat>, w: Slot)

  // ----- pointers by their path from the root

  predicate IsPath(n: Node, path: seq<nat>) {
    && path != [] && path[0] < |n.slots|
    && (|path| > 1 ==> (n.slots[path[0]].Child? || n.slots[path[0]].Rebuild?) && IsPath(n.slots[path[0]].node, path[1..]))
  }

  function At(n: Node, path: seq<nat>): Slot
    requires IsPath(n, path)
  {
    var s := n.slots[path[0]];
    if |path| == 1 then s else At(s.node, path[1..])
  }

  function Put(n: Node, path: seq<nat>, w: Slot): Node
    requires IsPath(n, path)
  {
    var s := n.slots[path[0]];
    var s' := if |path| == 1 then w else s.(node := Put(s.node, path[1..], w));
    n.(slots := n.slots[path[0] := s'])
  }

  ghost predicate CanStep(n: Node, step: Step) {
    Shape(n) &&
    match step
    case Apply(_, _) => true
    case Place(path) => IsPath(n, path) && At(n, path).Child?
    case Finish(path, w) =>
      && IsPath(n, path) && At(n, path).Rebuild? && Shape(At(n, path).node)
      && WordHolds(w, Pairs(At(n, path).node))
  }

  ghost function After(n: Node, step: Step): Node
    requires CanStep(n, step)
  {
    match step
    case Apply(key, op) => DoUpdate(n, key, op)
    case Place(path) => Put(n, path, Rebuild(At(n, path).node))
    case Finish(path, w) => Put(n, path, w)
  }

  // ----- a word that holds the same

  /** Wherever the old word fits the new one does, with the same pairs. */
  ghost predicate Stands(s: Slot, w: Slot) {
    && !s.Val? && !w.Val? && ((s.Child? || s.Rebuild?) ==> Shape(s.node)) && ((w.Child? || w.Rebuild?) ==> Shape(w.node))
    && WordPairs(w) == WordPairs(s)
    && forall lo, hi :: SlotOrdered(s, lo, hi) ==> SlotOrdered(w, lo, hi)
  }

  /** A pointer swung to a word that stands for the old one. */
  lemma SwungStands(n: Node, i: nat, w: Slot)
    requires Shape(n) && i < |n.slots| && Stands(n.slots[i], w)
    ensures var n' := n.(slots := n.slots[i := w]);
            Shape(n') && Pairs(n') == Pairs(n) && forall lo, hi :: Ordered(n, lo, hi) ==> Ordered(n', lo, hi)
  {
    var n' := n.(slots := n.slots[i := w]);
    hide SlotOrdered, Pairs, WordPairs;
    assert Shape(n');
    forall lo, hi | Ordered(n, lo, hi) ensures Ordered(n', lo, hi) {
      forall j | 0 <= j < |n'.slots| ensures SlotOrdered(n'.slots[j], KidLo(n.keys, lo, j), KidHi(n.keys, hi, j)) {
        assert SlotOrdered(n.slots[j], KidLo(n.keys, lo, j), KidHi(n.keys, hi, j));
      }
    }
    PutPairs(n, i, w);
  }

  lemma PutPairs(n: Node, i: nat, w: Slot)
    requires Shape(n) && i < |n.slots| && Stands(n.slots[i], w) && Shape(n.(slots := n.slots[i := w]))
    ensures Pairs(n.(slots := n.slots[i := w])) == Pairs(n)
  {
    hide SlotOrdered, WordPairs;
    ReplacedPairs(n, i, w, |n.slots|);
  }

  lemma BelowStands(s: Slot, m: Node)
    requires (s.Child? || s.Rebuild?) && Shape(s.node) && Shape(m) && Pairs(m) == Pairs(s.node)
    requires forall lo, hi :: Ordered(s.node, lo, hi) ==> Ordered(m, lo, hi)
    ensures Stands(s, s.(node := m))
  {
    var s' := s.(node := m);
    forall lo, hi | SlotOrdered(s, lo, hi) ensures SlotOrdered(s', lo, hi) {
      assert Ordered(s.node, lo, hi) && s'.node == m;
    }
    hide Pairs, Ordered, SlotOrdered;
  }

  /** Deep in the tree: the whole tree still holds the same pairs, and fits wherever it did. */
  lemma {:induction false} PutStands(n: Node, path: seq<nat>, w: Slot)
    requires Shape(n) && IsPath(n, path) && Stands(At(n, path), w)
    ensures var n' := Put(n, path, w);
            Shape(n') && Pairs(n') == Pairs(n) && forall lo, hi :: Ordered(n, lo, hi) ==> Ordered(n', lo, hi)
    decreases |path|
  {
    var i, s := path[0], n.slots[path[0]];
    if |path| == 1 {
      hide Stands, Pairs, Ordered;
      SwungStands(n, i, w);
    } else {
      PutStands(s.node, path[1..], w);
      var s' := s.(node := Put(s.node, path[1..], w));
      hide Pairs, Ordered, Stands;
      BelowStands(s, s'.node);
      SwungStands(n, i, s');
    }
  }

  /** What a finished rebuild puts in place stands for the frozen subtree. */
  lemma FinishStands(m: Node, w: Slot)
    requires Shape(m) && WordHolds(w, Pairs(m))
    ensures Stands(Rebuild(m), w)
  {
    forall lo, hi | SlotOrdered(Rebuild(m), lo, hi) ensures SlotOrdered(w, lo, hi) {
      PairsWithin(m, lo, hi);
    }
  }

  lemma PlaceStands(m: Node)
    requires Shape(m)
    ensures Stands(Child(m), Rebuild(m))
  {
    hide Pairs, Ordered;
  }

  lemma {:induction false} AtShape(n: Node, path: seq<nat>)
    requires Shape(n) && IsPath(n, path)
    ensures At(n, path).Child? || At(n, path).Rebuild? ==> Shape(At(n, path).node)
    decreases |path|
  {
    if |path| > 1 { AtShape(n.slots[path[0]].node, path[1..]); }
  }

  // ----- whole runs

  predicate Misses(n: Node, step: Step)
    requires Shape(n)
  {
    step.Apply? && Misplaces(n, step.key, step.op)
  }

  function StepEffect(step: Step, k: int, was: Option<Value>): Option<Value> {
    if step.Apply? then Effect(step.op, step.key, k, was) else was
  }

  /** Placing and finishing a rebuild, anywhere, changes no pair, no order and no search. */
  lemma RebuildStepKeeps(n: Node, step: Step, lo: Option<int>, hi: Option<int>)
    requires Ordered(n, lo, hi) && CanStep(n, step) && !step.Apply?
    ensures var n' := After(n, step);
            Ordered(n', lo, hi) && Shape(n') && Pairs(n') == Pairs(n) && forall k :: Find(n', k) == Find(n, k)
  {
    var n' := After(n, step);
    AtShape(n, step.path);
    var s := At(n, step.path);
    hide Pairs, Find, Ordered;
    if step.Place? {
      PlaceStands(s.node);
      PutStands(n, step.path, Rebuild(s.node));
    } else {
      FinishStands(s.node, step.w);
      PutStands(n, step.path, step.w);
    }
    hide Stands, At, Put, IsPath;
    forall k ensures Find(n', k) == Find(n, k) { SamePairsSameFind(n, n', lo, hi, k); }
  }

  /** Every step keeps the order and acts on every search as its operation should, exactly when it misplaces no value. */
  lemma StepMeaning(n: Node, step: Step)
    requires Ordered(n, None, None) && CanStep(n, step)
    ensures var n' := After(n, step);
            (Ordered(n', None, None) && Shape(n') && forall k :: Find(n', k) == StepEffect(step, k, Find(n, k))) <==> !Misses(n, step)
  {
    hide Ordered, Find, Put, At, DoUpdate;
    if step.Apply? {
      var key, op, n' := step.key, step.op, After(n, step);
      assert n' == DoUpdate(n, key, op) && Misses(n, step) == Misplaces(n, key, op);
      UpdateMeaning(n, key, op, None, None);
      if Misplaces(n, key, op) && Ordered(n', None, None) && Shape(n') {
        var k :| Find(n', k) != Effect(op, key, k, Find(n, k));
        assert Find(n', k) != StepEffect(step, k, Find(n, k));
      }
    } else {
      RebuildStepKeeps(n, step, None, None);
    }
  }

  function Replay(steps: seq<Step>, k: int): Option<Value> {
    if steps == [] then None else StepEffect(steps[|steps| - 1], k, Replay(steps[..|steps| - 1], k))
  }

  const EMPTY_TREE := Node([], [Empty], 0)

  ghost predicate Run(run: seq<Node>, steps: seq<Step>) {
    && |run| == |steps| + 1 && run[0] == EMPTY_TREE
    && forall i :: 0 <= i < |steps| ==> CanStep(run[i], steps[i]) && run[i + 1] == After(run[i], steps[i])
  }

  /** Every tree reachable from the empty one without misplacing a value is ordered and answers every search as the operations so far. */
  lemma {:induction false} ReachableTreesAnswer(run: seq<Node>, steps: seq<Step>, i: nat)
    requires Run(run, steps) && i <= |steps|
    requires forall j :: 0 <= j < i ==> !Misses(run[j], steps[j])
    ensures Ordered(run[i], None, None) && Shape(run[i]) && forall k :: Find(run[i], k) == Replay(steps[..i], k)
  {
    if i == 0 {
      assert Ordered(run[0], None, None);
    } else {
      ReachableTreesAnswer(run, steps, i - 1);
      hide Ordered, Find, After, CanStep;
      StepMeaning(run[i - 1], steps[i - 1]);
      assert steps[..i][..i - 1] == steps[..i - 1];
      hide Misses, StepEffect, Shape;
    }
  }

  /** With insertions that never replace, every reachable tree does. */
  lemma NothingMisplaced(run: seq<Node>, steps: seq<Step>, i: nat)
    requires Run(run, steps) && i <= |steps|
    requires forall j :: 0 <= j < i && steps[j].Apply? ==> !steps[j].op.InsertReplace?
    ensures Ordered(run[i], None, None) && Shape(run[i]) && forall k :: Find(run[i], k) == Replay(steps[..i], k)
  {
    forall j | 0 <= j < i ensures !Misses(run[j], steps[j]) {
      if Misses(run[j], steps[j]) { OnlyReplaces(run[j], steps[j].key, steps[j].op); }
    }
    hide Ordered, Find, Shape, Misses, Replay;
    ReachableTreesAnswer(run, steps, i);
  }

  /** Inserting a key into the empty tree and inserting it again with replacement leaves a pointer that stands for no key. */
  lemma ReplaceLosesKey(key: int, v: Value, w: Value)
    ensures var steps := [Apply(key, InsertIfAbsent(v)), Apply(key, InsertReplace(w))];
            var run := [EMPTY_TREE, Node([], [Pair(KVPair(key, v))], 0), Node([], [Val(w)], 0)];
            Run(run, steps) && Misses(run[1], steps[1]) && !Shape(run[2])
  {
    var steps := [Apply(key, InsertIfAbsent(v)), Apply(key, InsertReplace(w))];
    var run := [EMPTY_TREE, Node([], [Pair(KVPair(key, v))], 0), Node([], [Val(w)], 0)];
    assert After(run[0], steps[0]) == run[1];
    assert After(run[1], steps[1]) == run[2];
  }
}
