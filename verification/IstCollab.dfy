/**
 Any number of helpers filling the new root of one rebuild at once: each reserves children by counting `degree` up, then
 goes round all children; for a child it builds a subtree, writes the child's key, and tries to attach the subtree.
 */
module IstCollab {
  import opened Ist
  import opened IstRebuild
  import opened IstBuild

  /** Where a helper goes on after `subtreeBuildAndReplace`: the reserving loop, or the helping loop at step `k`. */
  datatype Back = Reserving | Helping(start: nat, k: nat)

  datatype Pc =
    | Away
    | Reserve
    | Claim(ix: nat)
    | HelpAt(start: nat, k: nat)
    | Building(ix: nat, back: Back)
    | WriteKey(ix: nat, word: Slot, minKey: int, back: Back)
    | Attach(ix: nat, word: Slot, back: Back)
    | Left

  /** The new root under construction; `inUse` once it is in the tree, where its pointers change by updates. */
  datatype State = State(degree: nat, keys: seq<int>, slots: seq<Option<Slot>>, helpers: seq<Pc>, inUse: bool)

  datatype Act = Join | Go(start: nat) | Built(word: Slot, minKey: int) | GiveUp

  function Goto(s: State, h: nat, pc: Pc): State
    requires h < |s.helpers|
  {
    s.(helpers := s.helpers[h := pc])
  }

  function Resume(back: Back): Pc {
    if back.Reserving? then Reserve else HelpAt(back.start, back.k)
  }

  /** Each part has a first key. */
  ghost predicate Divides(src: seq<KVPair>, n: nat) {
    n >= 2 && forall i :: 0 <= i < n ==> Part(src, n, i) != []
  }

  /** The key that separates child `i` from the one before it. */
  ghost function First(src: seq<KVPair>, n: nat, i: nat): int
    requires Divides(src, n) && i < n
  {
    Part(src, n, i)[0].k
  }

  /**
   What a helper can do.  A finished build is one that `BuildSubtree` may return; giving up a build is possible only once
   someone has attached a subtree.
   */
  ghost predicate Enabled(src: seq<KVPair>, n: nat, s: State, h: nat, act: Act)
    requires Divides(src, n)
  {
    && h < |s.helpers| && |s.slots| == n && |s.keys| == n - 1
    && match s.helpers[h]
       case Away => act.Join?
       case Reserve => act.Go? && act.start < n
       case Claim(_) => act.Go?
       case HelpAt(_, _) => act.Go?
       case Building(ix, _) =>
         && ix < n
         && ((act.Built? && Holds(act.word, Part(src, n, ix)) && act.minKey == First(src, n, ix)) || (act.GiveUp? && s.slots[ix].Some?))
       case WriteKey(ix, _, _, _) => act.Go? && ix < n
       case Attach(ix, _, _) => act.Go? && ix < n
       case Left => false
  }

  function Step(n: nat, s: State, h: nat, act: Act): State
    requires h < |s.helpers| && |s.slots| == n && |s.keys| == n - 1 && n >= 2
    requires s.helpers[h].WriteKey? || s.helpers[h].Attach? ==> s.helpers[h].ix < n
  {
    match s.helpers[h]
    case Away => Goto(s, h, Reserve)
    case Reserve => Goto(s, h, if s.degree >= n then HelpAt(if act.Go? then act.start else 0, 0) else Claim(s.degree))
    case Claim(ix) => if s.degree == ix then Goto(s.(degree := ix + 1), h, Building(ix, Reserving)) else Goto(s, h, Reserve)
    case HelpAt(start, k) =>
      if k >= n then Goto(s, h, Left)
      else
        var i := (start + k) % n;
        Goto(s, h, if s.slots[i].None? then Building(i, Helping(start, k + 1)) else HelpAt(start, k + 1))
    case Building(ix, back) => Goto(s, h, if act.Built? then WriteKey(ix, act.word, act.minKey, back) else Resume(back))
    case WriteKey(ix, word, minKey, back) =>
      Goto(if ix > 0 then s.(keys := s.keys[ix - 1 := minKey]) else s, h, Attach(ix, word, back))
    case Attach(ix, word, back) =>
      Goto(if s.slots[ix].None? then s.(slots := s.slots[ix := Some(word)]) else s, h, Resume(back))
    case Left => s
  }

  /** An update of the tree, at pointer `i` of the root in use. */
  predicate Changes(s: State, s': State, i: nat, w: Slot) {
    i < |s.slots| && s' == s.(slots := s.slots[i := Some(w)])
  }

  /** A helper's step; the finished root is put into the tree by a helper that has left; then updates change its pointers. */
  ghost predicate Next(src: seq<KVPair>, n: nat, s: State, s': State)
    requires Divides(src, n)
  {
    || (exists h: nat, act :: Enabled(src, n, s, h, act) && s' == Step(n, s, h, act))
    || ((exists h: nat :: h < |s.helpers| && s.helpers[h].Left?) && s' == s.(inUse := true))
    || (s.inUse && exists i: nat, w :: Changes(s, s', i, w))
  }

  predicate Initial(n: nat, s: State) {
    && s.degree == 0 && |s.keys| == n - 1 && |s.slots| == n && !s.inUse
    && (forall i :: 0 <= i < n ==> s.slots[i].None?) && forall h :: 0 <= h < |s.helpers| ==> s.helpers[h].Away?
  }

  // ----- invariant

  predicate AllThere(s: State) {
    forall i :: 0 <= i < |s.slots| ==> s.slots[i].Some?
  }

  /** The first `k` children from `start` on are there. */
  predicate Round(n: nat, s: State, start: nat, k: nat)
    requires n >= 1 && |s.slots| == n
  {
    start < n && k <= n && s.degree == n && forall j :: 0 <= j < k ==> There(s.slots, start, j)
  }

  predicate BackOk(n: nat, s: State, ix: nat, back: Back)
    requires n >= 1 && |s.slots| == n
  {
    back.Helping? ==> 1 <= back.k <= n && Round(n, s, back.start, back.k - 1) && ix == (back.start + (back.k - 1)) % n
  }

  ghost predicate KeyOk(src: seq<KVPair>, n: nat, s: State, i: nat)
    requires Divides(src, n) && i < n && |s.keys| == n - 1
  {
    i > 0 ==> s.keys[i - 1] == First(src, n, i)
  }

  ghost predicate HelperOk(src: seq<KVPair>, n: nat, s: State, pc: Pc)
    requires Divides(src, n) && |s.slots| == n && |s.keys| == n - 1
  {
    match pc
    case Away => true
    case Reserve => true
    case Claim(ix) => ix < n
    case HelpAt(start, k) => Round(n, s, start, k)
    case Building(ix, back) => ix < n && BackOk(n, s, ix, back)
    case WriteKey(ix, word, minKey, back) =>
      ix < n && BackOk(n, s, ix, back) && Holds(word, Part(src, n, ix)) && minKey == First(src, n, ix)
    case Attach(ix, word, back) =>
      ix < n && BackOk(n, s, ix, back) && Holds(word, Part(src, n, ix)) && KeyOk(src, n, s, ix)
    case Left => AllThere(s) && s.degree == n
  }

  ghost predicate SlotOk(src: seq<KVPair>, n: nat, s: State, i: nat)
    requires Divides(src, n) && i < n && |s.slots| == n && |s.keys| == n - 1
  {
    s.slots[i].Some? ==> KeyOk(src, n, s, i) && (!s.inUse ==> Holds(s.slots[i].value, Part(src, n, i)))
  }

  ghost predicate Inv(src: seq<KVPair>, n: nat, s: State)
    requires Divides(src, n)
  {
    && |s.slots| == n && |s.keys| == n - 1 && s.degree <= n && (s.inUse ==> AllThere(s) && s.degree == n)
    && (forall i :: 0 <= i < n ==> SlotOk(src, n, s, i))
    && forall h :: 0 <= h < |s.helpers| ==> HelperOk(src, n, s, s.helpers[h])
  }

  // ----- what a step can do

  /** Subtrees once attached stay, the counter only grows, and the key of a child that is there or being attached is right. */
  ghost predicate Grows(src: seq<KVPair>, n: nat, s: State, s': State)
    requires Divides(src, n)
  {
    && |s.slots| == |s'.slots| == n && |s.keys| == |s'.keys| == n - 1 && s.degree <= s'.degree <= n && s'.inUse == s.inUse
    && (forall i :: 0 <= i < n && s.slots[i].Some? ==> s'.slots[i] == s.slots[i])
    && forall i :: 0 <= i < n - 1 && s'.keys[i] != s.keys[i] ==> s'.keys[i] == First(src, n, i + 1)
  }

  /** Every helper that writes a key writes the first key of the child's part, and no attached subtree is replaced. */
  lemma HelperGrows(src: seq<KVPair>, n: nat, s: State, h: nat, act: Act)
    requires Divides(src, n) && Inv(src, n, s) && Enabled(src, n, s, h, act)
    ensures Grows(src, n, s, Step(n, s, h, act))
  {
    assert HelperOk(src, n, s, s.helpers[h]);
    hide Divides, Holds, First;
  }

  lemma OtherHelperOk(src: seq<KVPair>, n: nat, s: State, s': State, pc: Pc)
    requires Divides(src, n) && Grows(src, n, s, s') && HelperOk(src, n, s, pc)
    ensures HelperOk(src, n, s', pc)
  {
    hide Divides, Holds, First;
    forall start, k | 0 <= start < n && 0 <= k < n && There(s.slots, start, k) ensures There(s'.slots, start, k) {
    }
    hide There;
  }

  /** In the helping loop: the child looked at is there, or is built next. */
  lemma HelpingOk(src: seq<KVPair>, n: nat, s: State, start: nat, k: nat)
    requires Divides(src, n) && |s.slots| == n && |s.keys| == n - 1 && Round(n, s, start, k)
    ensures k >= n ==> AllThere(s)
    ensures k < n && s.slots[(start + k) % n].Some? ==> HelperOk(src, n, s, HelpAt(start, k + 1))
    ensures k < n && s.slots[(start + k) % n].None? ==> HelperOk(src, n, s, Building((start + k) % n, Helping(start, k + 1)))
  {
    hide Divides;
    if k >= n {
      OnceRound(s.slots, start);
    } else if s.slots[(start + k) % n].Some? {
      assert There(s.slots, start, k);
    }
  }

  /** Back from `subtreeBuildAndReplace` with the child there. */
  lemma ResumeOk(src: seq<KVPair>, n: nat, s: State, ix: nat, back: Back)
    requires Divides(src, n) && |s.slots| == n && |s.keys| == n - 1 && ix < n && BackOk(n, s, ix, back) && s.slots[ix].Some?
    ensures HelperOk(src, n, s, Resume(back))
  {
    hide Divides;
    if back.Helping? {
      assert There(s.slots, back.start, back.k - 1);
    }
  }

  /** The helper that makes the step. */
  lemma OwnHelperOk(src: seq<KVPair>, n: nat, s: State, h: nat, act: Act)
    requires Divides(src, n) && Inv(src, n, s) && Enabled(src, n, s, h, act)
    ensures HelperOk(src, n, Step(n, s, h, act), Step(n, s, h, act).helpers[h])
  {
    var pc := s.helpers[h];
    assert HelperOk(src, n, s, pc);
    HelperGrows(src, n, s, h, act);
    var s' := Step(n, s, h, act);
    OtherHelperOk(src, n, s, s', pc);
    assert s.degree <= n && forall start: nat :: start < n && s'.degree == n ==> Round(n, s', start, 0);
    assert forall ix: nat :: BackOk(n, s', ix, Reserving);
    hide Inv, Divides, Holds, First, Grows, Round, BackOk, AllThere;
    match pc
    case HelpAt(start, k) => HelpingOk(src, n, s', start, k);
    case Building(ix, back) => if act.GiveUp? { ResumeOk(src, n, s', ix, back); }
    case Attach(ix, word, back) => ResumeOk(src, n, s', ix, back);
    case _ =>
  }

  lemma OwnSlotOk(src: seq<KVPair>, n: nat, s: State, h: nat, act: Act, i: nat)
    requires Divides(src, n) && Inv(src, n, s) && Enabled(src, n, s, h, act) && i < n
    ensures SlotOk(src, n, Step(n, s, h, act), i)
  {
    HelperGrows(src, n, s, h, act);
    assert HelperOk(src, n, s, s.helpers[h]) && SlotOk(src, n, s, i);
    hide Inv, Divides, Holds, First;
  }

  lemma HelperInv(src: seq<KVPair>, n: nat, s: State, h: nat, act: Act)
    requires Divides(src, n) && Inv(src, n, s) && Enabled(src, n, s, h, act)
    ensures Inv(src, n, Step(n, s, h, act))
  {
    var s' := Step(n, s, h, act);
    HelperGrows(src, n, s, h, act);
    OwnHelperOk(src, n, s, h, act);
    forall i | 0 <= i < n ensures SlotOk(src, n, s', i) { OwnSlotOk(src, n, s, h, act, i); }
    HelpersSame(n, s, h, act);
    hide SlotOk, HelperOk, Step, Enabled, Divides;
    forall g | 0 <= g < |s'.helpers| ensures HelperOk(src, n, s', s'.helpers[g]) {
      if g != h { OtherHelperOk(src, n, s, s', s.helpers[g]); }
    }
  }

  lemma HelpersSame(n: nat, s: State, h: nat, act: Act)
    requires h < |s.helpers| && |s.slots| == n && |s.keys| == n - 1 && n >= 2
    requires s.helpers[h].WriteKey? || s.helpers[h].Attach? ==> s.helpers[h].ix < n
    ensures |Step(n, s, h, act).helpers| == |s.helpers|
    ensures forall g :: 0 <= g < |s.helpers| && g != h ==> Step(n, s, h, act).helpers[g] == s.helpers[g]
  {
  }

  lemma PublishInv(src: seq<KVPair>, n: nat, s: State, h: nat)
    requires Divides(src, n) && Inv(src, n, s) && h < |s.helpers| && s.helpers[h].Left?
    ensures Inv(src, n, s.(inUse := true))
  {
    var s' := s.(inUse := true);
    assert HelperOk(src, n, s, s.helpers[h]);
    forall i | 0 <= i < n ensures SlotOk(src, n, s', i) { assert SlotOk(src, n, s, i); }
    forall g | 0 <= g < |s'.helpers| ensures HelperOk(src, n, s', s'.helpers[g]) { assert HelperOk(src, n, s, s.helpers[g]); }
    hide SlotOk, HelperOk, Divides;
  }

  lemma UseInv(src: seq<KVPair>, n: nat, s: State, i: nat, w: Slot)
    requires Divides(src, n) && Inv(src, n, s) && s.inUse && i < |s.slots|
    ensures Inv(src, n, s.(slots := s.slots[i := Some(w)]))
  {
    var s' := s.(slots := s.slots[i := Some(w)]);
    forall j | 0 <= j < n ensures SlotOk(src, n, s', j) { assert SlotOk(src, n, s, j); }
    forall g | 0 <= g < |s'.helpers| ensures HelperOk(src, n, s', s'.helpers[g]) { assert HelperOk(src, n, s, s.helpers[g]); }
    hide SlotOk, HelperOk, Divides;
  }

  lemma NextInv(src: seq<KVPair>, n: nat, s: State, s': State)
    requires Divides(src, n) && Inv(src, n, s) && Next(src, n, s, s')
    ensures Inv(src, n, s')
  {
    hide Inv, Step;
    if h: nat, act :| Enabled(src, n, s, h, act) && s' == Step(n, s, h, act) {
      HelperInv(src, n, s, h, act);
    } else if h: nat :| h < |s.helpers| && s.helpers[h].Left? && s' == s.(inUse := true) {
      PublishInv(src, n, s, h);
    } else {
      var i: nat, w :| s.inUse && Changes(s, s', i, w);
      UseInv(src, n, s, i, w);
    }
  }

  // ----- whole runs

  ghost predicate Run(src: seq<KVPair>, n: nat, run: seq<State>)
    requires Divides(src, n)
  {
    && |run| > 0 && Initial(n, run[0])
    && forall i :: 0 <= i < |run| - 1 ==> Next(src, n, run[i], run[i + 1])
  }

  lemma {:induction false} RunInv(src: seq<KVPair>, n: nat, run: seq<State>, i: nat)
    requires Divides(src, n) && Run(src, n, run) && i < |run|
    ensures Inv(src, n, run[i])
  {
    hide Next, Divides;
    if i > 0 {
      RunInv(src, n, run, i - 1);
      hide Inv;
      NextInv(src, n, run[i - 1], run[i]);
    }
  }

  /** When any helper has left the helping loop, every child is there, and while the root is not yet in use it holds all pairs, in order. */
  lemma HelperLeavesComplete(src: seq<KVPair>, n: nat, run: seq<State>, i: nat, h: nat)
    requires Divides(src, n) && PairsSorted(src) && Run(src, n, run) && i < |run| && h < |run[i].helpers| && run[i].helpers[h].Left?
    ensures AllThere(run[i]) && run[i].degree == n == |run[i].slots|
    ensures !run[i].inUse ==> Holds(Child(Node(run[i].keys, seq(n, j requires 0 <= j < n => run[i].slots[j].value), 0)), src)
  {
    RunInv(src, n, run, i);
    var s := run[i];
    hide Run;
    assert HelperOk(src, n, s, s.helpers[h]);
    if !s.inUse {
      var slots := seq(n, j requires 0 <= j < n => s.slots[j].value);
      forall j | 0 <= j < n ensures Filled(src, n, s.keys, slots[j], j) { assert SlotOk(src, n, s, j); }
      hide Inv, Holds, Filled, Divides;
      AllFilled(src, n, s.keys, slots);
      OverPartsHolds(src, n, s.keys, slots);
    }
  }

  /** While the root is being built, a child that is there never changes, whoever else builds it again. */
  lemma AttachedStays(src: seq<KVPair>, n: nat, s: State, s': State, i: nat)
    requires Divides(src, n) && Inv(src, n, s) && Next(src, n, s, s') && !s.inUse && i < n && s.slots[i].Some?
    ensures |s'.slots| == n && s'.slots[i] == s.slots[i]
  {
    if h: nat, act :| Enabled(src, n, s, h, act) && s' == Step(n, s, h, act) { HelperGrows(src, n, s, h, act); }
    hide Inv, Divides;
  }

  /** A latecomer, at work when the root is already in use, changes neither its keys nor its pointers. */
  lemma LatecomersHarmless(src: seq<KVPair>, n: nat, s: State, h: nat, act: Act)
    requires Divides(src, n) && Inv(src, n, s) && s.inUse && Enabled(src, n, s, h, act)
    ensures Step(n, s, h, act).keys == s.keys && Step(n, s, h, act).slots == s.slots
  {
    HelperGrows(src, n, s, h, act);
    var s' := Step(n, s, h, act);
    forall i | 0 <= i < n - 1 ensures s'.keys[i] == s.keys[i] { assert SlotOk(src, n, s, i + 1); }
    hide Step, Enabled, SlotOk, Divides;
  }

  // ----- every helper gets to the end

  function HelpCost(n: nat, k: nat): nat { if k <= n then 5 * (n - k) + 1 else 1 }

  function ReserveCost(n: nat, degree: nat): nat { (if degree <= n then 5 * (n - degree) else 0) + HelpCost(n, 0) + 1 }

  function BackCost(n: nat, degree: nat, back: Back): nat {
    if back.Reserving? then ReserveCost(n, degree) else HelpCost(n, back.k)
  }

  /** A bound on the steps that a helper still has to make, a build being one step. */
  function Cost(n: nat, degree: nat, pc: Pc): nat {
    match pc
    case Away => ReserveCost(n, degree) + 1
    case Reserve => ReserveCost(n, degree)
    case Claim(ix) => if ix == degree then ReserveCost(n, degree) - 1 else ReserveCost(n, degree) + 1
    case HelpAt(_, k) => HelpCost(n, k)
    case Building(_, back) => 3 + BackCost(n, degree, back)
    case WriteKey(_, _, _, back) => 2 + BackCost(n, degree, back)
    case Attach(_, _, back) => 1 + BackCost(n, degree, back)
    case Left => 0
  }

  lemma CostFalls(n: nat, degree: nat, degree': nat, pc: Pc)
    requires degree <= degree' <= n
    ensures Cost(n, degree', pc) <= Cost(n, degree, pc)
  {
  }

  /** Whatever the others do, each step of a helper brings it nearer to leaving; theirs do not set it back. */
  lemma EveryStepCounts(src: seq<KVPair>, n: nat, s: State, h: nat, act: Act, g: nat)
    requires Divides(src, n) && Inv(src, n, s) && Enabled(src, n, s, h, act) && g < |s.helpers|
    ensures var s' := Step(n, s, h, act);
            && |s'.helpers| == |s.helpers|
            && Cost(n, s'.degree, s'.helpers[h]) < Cost(n, s.degree, s.helpers[h])
            && Cost(n, s'.degree, s'.helpers[g]) <= Cost(n, s.degree, s.helpers[g])
  {
    assert HelperOk(src, n, s, s.helpers[h]);
    HelperGrows(src, n, s, h, act);
    hide Inv, Divides, Holds, First;
    OwnStepCounts(src, n, s, h, act);
    if g != h {
      HelpersSame(n, s, h, act);
      CostFalls(n, s.degree, Step(n, s, h, act).degree, s.helpers[g]);
    }
    hide Step, HelperOk, Cost, Enabled;
  }

  lemma OwnStepCounts(src: seq<KVPair>, n: nat, s: State, h: nat, act: Act)
    requires Divides(src, n) && Enabled(src, n, s, h, act) && HelperOk(src, n, s, s.helpers[h]) && s.degree <= n
    ensures |Step(n, s, h, act).helpers| == |s.helpers|
    ensures Cost(n, Step(n, s, h, act).degree, Step(n, s, h, act).helpers[h]) < Cost(n, s.degree, s.helpers[h])
  {
    hide Divides, Holds, First, Round, KeyOk, AllThere;
  }

  /** A helper that has not left can always make a step. */
  lemma AlwaysAStep(src: seq<KVPair>, n: nat, s: State, h: nat)
    requires Divides(src, n) && PairsSorted(src) && Inv(src, n, s) && h < |s.helpers| && !s.helpers[h].Left?
    ensures exists act :: Enabled(src, n, s, h, act)
  {
    var pc := s.helpers[h];
    assert HelperOk(src, n, s, pc);
    if pc.Away? {
      assert Enabled(src, n, s, h, Join);
    } else if pc.Building? {
      var part := Part(src, n, pc.ix);
      PartSorted(src, n, pc.ix);
      LeafHolds(part);
      hide Inv, Part, LeafOf, OrderedOver;
      assert Enabled(src, n, s, h, Built(Child(LeafOf(part)), First(src, n, pc.ix)));
    } else {
      assert Enabled(src, n, s, h, Go(0));
    }
  }

  /** The division by the square root leaves no child without pairs. */
  lemma SqrtDivides(src: seq<KVPair>, n: nat)
    requires |src| > MAX_ACCEPTABLE_LEAF_SIZE && n * n >= |src| && n >= 1 && (n - 1) * (n - 1) < |src|
    ensures Divides(src, n)
  {
    forall i | 0 <= i < n ensures n >= 2 && Part(src, n, i) != [] {
      ChildSizes(|src|, n, i);
      PartIsSlice(src, n, i);
      hide Part, ChildSize, Slice;
    }
    ChildSizes(|src|, n, 0);
  }
}
