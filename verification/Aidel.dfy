/** The nest of trained models and two-level bins, read as one dictionary. */
module Aidel {
  import opened Learned
  import opened LevelBin
  import opened LevelBinOps
  import opened LevelBinRemove

  datatype Mob = Nothing | OfBin(lb: LevelBin) | OfModel(m: AidelModel)

  /** The trained keys, with the values of those still valid, and what was put into the gaps between them. */
  datatype AidelModel = AidelModel(line: Learned.Model, maxErr: nat, keys: seq<int>, vals: seq<int>, valid: seq<bool>, mobs: seq<Mob>)

  predicate TrainedHolds(m: AidelModel, k: int, v: int) {
    exists j :: 0 <= j < |m.keys| && j < |m.vals| && j < |m.valid| && m.keys[j] == k && m.valid[j] && m.vals[j] == v
  }

  predicate HoldsMob(mob: Mob, k: int, v: int)
    decreases mob
  {
    match mob
    case Nothing => false
    case OfBin(lb) => Holds(lb, k, v)
    case OfModel(m) => HoldsM(m, k, v)
  }

  predicate HoldsM(m: AidelModel, k: int, v: int)
    decreases m
  {
    TrainedHolds(m, k, v) || exists i :: 0 <= i < |m.mobs| && HoldsMob(m.mobs[i], k, v)
  }

  /** No training error exceeds `maxErr`, and prediction is monotone. */
  predicate Trained(line: Learned.Model, maxErr: nat, keys: seq<int>) {
    line.slope >= 0.0 && forall i :: 0 <= i < |keys| ==> Error(line, keys[i], i) <= maxErr
  }

  predicate Gap(keys: seq<int>, i: nat, k: int)
    requires i <= |keys|
  {
    (i > 0 ==> keys[i - 1] < k) && (i < |keys| ==> k < keys[i])
  }

  ghost predicate MobFits(keys: seq<int>, i: nat, mob: Mob)
    requires i <= |keys|
  {
    forall k, v :: HoldsMob(mob, k, v) ==> Gap(keys, i, k)
  }

  ghost predicate MobOk(mob: Mob)
    decreases mob
  {
    match mob
    case Nothing => true
    case OfBin(lb) => Valid(lb)
    case OfModel(m) => ModelOk(m)
  }

  predicate ShapeOk(m: AidelModel) {
    && m.keys != [] && |m.vals| == |m.valid| == |m.keys| && |m.mobs| == |m.keys| + 1
    && Increasing(m.keys) && Trained(m.line, m.maxErr, m.keys)
  }

  /** What lies in a gap belongs there, at every level of the nest. */
  ghost predicate ModelOk(m: AidelModel)
    decreases m
  {
    && ShapeOk(m)
    && (forall i :: 0 <= i < |m.mobs| ==> MobOk(m.mobs[i]))
    && forall i :: 0 <= i < |m.mobs| ==> MobFits(m.keys, i, m.mobs[i])
  }

  // ----- where a key can be

  /** `predict` and `locate_in_levelbin`: the trained key itself, or the gap the key belongs to. */
  method Locate(m: AidelModel, key: int) returns (found: bool, pos: nat)
    requires ShapeOk(m)
    ensures pos <= |m.keys| && IsRank(m.keys, key, pos)
    ensures found <==> pos < |m.keys| && m.keys[pos] == key
  {
    ghost var g := Rank(m.keys, key);
    hide Error, Position;
    PredictionInWindow(m.line, m.keys, key, m.maxErr, g);
    var p := LocateInLevelbin(m.keys, key, Position(m.line, key, |m.keys|), m.maxErr, g);
    if m.keys[p] == key {
      return true, p;
    } else {
      return false, if key < m.keys[p] then p else p + 1;
    }
  }

  lemma TrainedAt(m: AidelModel, key: int, g: nat, v: int)
    requires ShapeOk(m) && IsRank(m.keys, key, g)
    ensures TrainedHolds(m, key, v) <==> g < |m.keys| && m.keys[g] == key && m.valid[g] && m.vals[g] == v
  {
    forall j | 0 <= j < |m.keys| && m.keys[j] == key ensures j == g {
      assert g <= j;
      assert m.keys[g] <= m.keys[j];
    }
  }

  /** A trained key is held by its own slot, any other key by the gap it belongs to. */
  lemma HeldWhere(m: AidelModel, key: int, g: nat, v: int)
    requires ModelOk(m) && IsRank(m.keys, key, g)
    ensures HoldsM(m, key, v) <==>
            if g < |m.keys| && m.keys[g] == key then m.valid[g] && m.vals[g] == v else HoldsMob(m.mobs[g], key, v)
  {
    TrainedAt(m, key, g, v);
    forall i | 0 <= i < |m.mobs| && HoldsMob(m.mobs[i], key, v) ensures i == g && !(g < |m.keys| && m.keys[g] == key) {
      assert MobFits(m.keys, i, m.mobs[i]);
      GapIsRank(m.keys, key, i, g);
    }
    hide HoldsMob, ModelOk;
  }

  lemma GapIsRank(keys: seq<int>, key: int, i: nat, g: nat)
    requires Increasing(keys) && IsRank(keys, key, g) && i <= |keys| && Gap(keys, i, key)
    ensures i == g && !(g < |keys| && keys[g] == key)
  {
  }

  method FindM(m: AidelModel, key: int) returns (r: Option<int>)
    requires ModelOk(m)
    ensures forall v :: HoldsM(m, key, v) <==> r == Some(v)
    decreases m
  {
    var found, pos := Locate(m, key);
    if found {
      r := if m.valid[pos] then Some(m.vals[pos]) else None;
    } else {
      assert MobOk(m.mobs[pos]);
      match m.mobs[pos] {
        case Nothing => r := None;
        case OfBin(lb) => r := Find(lb, key);
        case OfModel(n) => r := FindM(n, key);
      }
      assert forall v :: HoldsMob(m.mobs[pos], key, v) <==> r == Some(v);
    }
    forall v ensures HoldsM(m, key, v) <==> r == Some(v) {
      HeldWhere(m, key, pos, v);
      hide HoldsM, HoldsMob, ModelOk;
    }
  }

  // ----- changing one gap or one slot

  /** Alike for every key but one. */
  ghost predicate SameOff(m: AidelModel, m': AidelModel, key: int) {
    forall k, v :: k != key ==> (HoldsM(m', k, v) <==> HoldsM(m, k, v))
  }

  ghost predicate MobSameOff(mob: Mob, mob': Mob, key: int) {
    forall k, v :: k != key ==> (HoldsMob(mob', k, v) <==> HoldsMob(mob, k, v))
  }

  lemma GapChange(m: AidelModel, g: nat, key: int, mob': Mob)
    requires ModelOk(m) && IsRank(m.keys, key, g) && !(g < |m.keys| && m.keys[g] == key)
    requires MobOk(mob') && MobSameOff(m.mobs[g], mob', key)
    ensures var m' := m.(mobs := m.mobs[g := mob']);
            ModelOk(m') && SameOff(m, m', key) && forall v :: HoldsM(m', key, v) <==> HoldsMob(mob', key, v)
  {
    var m' := m.(mobs := m.mobs[g := mob']);
    assert MobFits(m.keys, g, mob') by {
      assert MobFits(m.keys, g, m.mobs[g]);
      forall k, v | HoldsMob(mob', k, v) ensures Gap(m.keys, g, k) {
        if k != key { assert HoldsMob(m.mobs[g], k, v); }
      }
    }
    hide HoldsMob, MobFits, MobOk;
    assert ModelOk(m');
    forall v ensures HoldsM(m', key, v) <==> HoldsMob(mob', key, v) { HeldWhere(m', key, g, v); hide ModelOk; }
    hide ModelOk;
    forall k, v | k != key ensures HoldsM(m', k, v) <==> HoldsM(m, k, v) { GapOther(m, g, key, mob', k, v); }
  }

  lemma GapOther(m: AidelModel, g: nat, key: int, mob': Mob, k: int, v: int)
    requires g < |m.mobs| && k != key && MobSameOff(m.mobs[g], mob', key)
    ensures HoldsM(m.(mobs := m.mobs[g := mob']), k, v) <==> HoldsM(m, k, v)
  {
    var m' := m.(mobs := m.mobs[g := mob']);
    hide HoldsMob;
    assert TrainedHolds(m', k, v) <==> TrainedHolds(m, k, v);
    hide TrainedHolds;
    forall i | 0 <= i < |m.mobs| ensures HoldsMob(m'.mobs[i], k, v) <==> HoldsMob(m.mobs[i], k, v) {}
  }

  lemma SlotChange(m: AidelModel, g: nat, key: int, val: int, ok: bool)
    requires ModelOk(m) && g < |m.keys| && m.keys[g] == key
    ensures var m' := m.(vals := m.vals[g := val], valid := m.valid[g := ok]);
            ModelOk(m') && SameOff(m, m', key) && forall v :: HoldsM(m', key, v) <==> ok && v == val
  {
    var m' := m.(vals := m.vals[g := val], valid := m.valid[g := ok]);
    assert IsRank(m.keys, key, g);
    hide HoldsMob, MobFits, MobOk, Trained;
    assert ModelOk(m');
    forall v ensures HoldsM(m', key, v) <==> ok && v == val { HeldWhere(m', key, g, v); hide ModelOk; }
    hide ModelOk;
    forall k, v | k != key ensures HoldsM(m', k, v) <==> HoldsM(m, k, v) { SlotOther(m, g, key, val, ok, k, v); }
  }

  lemma SlotOther(m: AidelModel, g: nat, key: int, val: int, ok: bool, k: int, v: int)
    requires g < |m.keys| && |m.vals| == |m.valid| == |m.keys| && m.keys[g] == key && k != key
    ensures HoldsM(m.(vals := m.vals[g := val], valid := m.valid[g := ok]), k, v) <==> HoldsM(m, k, v)
  {
    var m' := m.(vals := m.vals[g := val], valid := m.valid[g := ok]);
    hide HoldsMob;
    if TrainedHolds(m, k, v) {
      var j :| 0 <= j < |m.keys| && j < |m.vals| && j < |m.valid| && m.keys[j] == k && m.valid[j] && m.vals[j] == v;
      assert m'.keys[j] == k && m'.valid[j] && m'.vals[j] == v;
    }
    if TrainedHolds(m', k, v) {
      var j :| 0 <= j < |m'.keys| && j < |m'.vals| && j < |m'.valid| && m'.keys[j] == k && m'.valid[j] && m'.vals[j] == v;
      assert m.keys[j] == k && m.valid[j] && m.vals[j] == v;
    }
    hide TrainedHolds;
  }

  // ----- retraining

  /** A model trained on sorted pairs, all of them valid and all gaps empty, holds exactly those pairs. */
  method NewModel(keys: seq<int>, vals: seq<int>) returns (m: AidelModel)
    requires |keys| == |vals| >= 1 && Increasing(keys)
    ensures ModelOk(m) && m.keys == keys && m.vals == vals && (forall i :: 0 <= i < |keys| ==> m.valid[i])
    ensures forall i :: 0 <= i < |m.mobs| ==> m.mobs[i] == Nothing
    ensures forall k, v :: HoldsM(m, k, v) <==> In(Bin(keys, vals), k, v)
  {
    var positions := Positions(|keys|);
    var line, maxErr := Train(keys, positions);
    hide Error, SquaredError;
    m := AidelModel(line, maxErr, keys, vals, seq(|keys|, _ => true), seq(|keys| + 1, _ => Nothing));
    assert Trained(line, maxErr, keys);
    hide Trained, Increasing;
    forall k, v ensures HoldsM(m, k, v) <==> In(Bin(keys, vals), k, v) {
      FreshHolds(m, k, v);
    }
  }

  lemma FreshHolds(m: AidelModel, k: int, v: int)
    requires |m.vals| == |m.valid| == |m.keys| && (forall i :: 0 <= i < |m.valid| ==> m.valid[i])
    requires forall i :: 0 <= i < |m.mobs| ==> m.mobs[i] == Nothing
    ensures HoldsM(m, k, v) <==> In(Bin(m.keys, m.vals), k, v)
  {
    assert forall i :: 0 <= i < |m.mobs| ==> !HoldsMob(m.mobs[i], k, v);
    if In(Bin(m.keys, m.vals), k, v) {
      var j :| 0 <= j < |m.keys| && j < |m.vals| && m.keys[j] == k && m.vals[j] == v;
      assert m.valid[j];
    }
    if TrainedHolds(m, k, v) {
      var j :| 0 <= j < |m.keys| && j < |m.vals| && j < |m.valid| && m.keys[j] == k && m.valid[j] && m.vals[j] == v;
      assert Bin(m.keys, m.vals).keys[j] == k && Bin(m.keys, m.vals).vals[j] == v;
    }
  }

  /** The first key of an empty gap. */
  method InsertEmpty(key: int, val: int) returns (mob: Mob)
    ensures mob.OfBin? && MobOk(mob) && MobSameOff(Nothing, mob, key) && forall v :: HoldsMob(mob, key, v) <==> v == val
  {
    var lb, out := Insert(LevelBin([], []), key, val);
    assert !NotHeld(LevelBin([], []), key) ==> exists v :: Holds(LevelBin([], []), key, v);
    mob := OfBin(lb);
    hide Valid;
  }

  /** `insert_model_or_bin` when the bin is full: its pairs become a model of their own, and the key goes there. */
  method InsertRetrained(lb: LevelBin, key: int, val: int) returns (m: AidelModel, ok: bool)
    requires Valid(lb) && |lb.seps| == ROOT_SLOT_MAX
    ensures ModelOk(m)
    ensures ok <==> NotHeld(lb, key)
    ensures forall k, v :: k != key ==> (HoldsM(m, k, v) <==> Holds(lb, k, v))
    ensures ok ==> forall v :: HoldsM(m, key, v) <==> v == val
    ensures !ok ==> forall v :: HoldsM(m, key, v) <==> Holds(lb, key, v)
  {
    assert lb.bins != [];
    var keys, vals := Resort(lb);
    var n := NewModel(keys, vals);
    var found, pos := Locate(n, key);
    forall v ensures HoldsM(n, key, v) <==> found && n.valid[pos] && n.vals[pos] == v {
      HeldWhere(n, key, pos, v);
    }
    hide Valid, In, ModelOk, HoldsM, Holds, IsRank;
    if found {
      assert HoldsM(n, key, n.vals[pos]);
      FoundIsHeld(lb, n, key, pos);
      m, ok := n, false;
    } else {
      var mob := InsertEmpty(key, val);
      GapChange(n, pos, key, mob);
      m, ok := n.(mobs := n.mobs[pos := mob]), true;
    }
  }

  lemma FoundIsHeld(lb: LevelBin, n: AidelModel, key: int, pos: nat)
    requires ModelOk(n) && pos < |n.keys| && n.keys[pos] == key && (forall k, v :: HoldsM(n, k, v) <==> Holds(lb, k, v))
    requires exists v :: HoldsM(n, key, v)
    ensures !NotHeld(lb, key)
  {
    hide HoldsM, Holds, ModelOk;
    var v :| HoldsM(n, key, v);
    assert Holds(lb, key, v);
  }

  // ----- the operations

  ghost predicate NotHeldM(m: AidelModel, key: int) {
    forall v :: !HoldsM(m, key, v)
  }

  ghost predicate MobNotHeld(mob: Mob, key: int) {
    forall v :: !HoldsMob(mob, key, v)
  }

  lemma NotHeldWhere(m: AidelModel, key: int, g: nat)
    requires ModelOk(m) && IsRank(m.keys, key, g)
    ensures g < |m.keys| && m.keys[g] == key ==> (NotHeldM(m, key) <==> !m.valid[g])
    ensures !(g < |m.keys| && m.keys[g] == key) ==> (NotHeldM(m, key) <==> MobNotHeld(m.mobs[g], key))
  {
    assert ShapeOk(m);
    forall v ensures HoldsM(m, key, v) <==>
            if g < |m.keys| && m.keys[g] == key then m.valid[g] && m.vals[g] == v else HoldsMob(m.mobs[g], key, v) {
      HeldWhere(m, key, g, v);
    }
    hide HoldsM, HoldsMob, ModelOk, IsRank, ShapeOk;
    if g < |m.keys| && m.keys[g] == key && m.valid[g] { assert HoldsM(m, key, m.vals[g]); }
  }

  /** `con_insert_retrain`: as the insertion of an absent key into a map; a present key is refused. */
  method InsertM(m: AidelModel, key: int, val: int) returns (r: AidelModel, ok: bool)
    requires ModelOk(m)
    ensures ModelOk(r) && (ok <==> NotHeldM(m, key)) && SameOff(m, r, key)
    ensures ok ==> forall v :: HoldsM(r, key, v) <==> v == val
    ensures !ok ==> forall v :: HoldsM(r, key, v) <==> HoldsM(m, key, v)
    decreases m, 1
  {
    var found, pos := Locate(m, key);
    NotHeldWhere(m, key, pos);
    assert MobOk(m.mobs[pos]);
    if found {
      hide ModelOk, HoldsM, IsRank;
      if m.valid[pos] {
        r, ok := m, false;
      } else {
        SlotChange(m, pos, key, val, true);
        r, ok := m.(vals := m.vals[pos := val], valid := m.valid[pos := true]), true;
      }
    } else {
      var mob;
      mob, ok := InsertModelOrBin(m.mobs[pos], key, val);
      GapChange(m, pos, key, mob);
      r := m.(mobs := m.mobs[pos := mob]);
      forall v ensures HoldsM(m, key, v) <==> HoldsMob(m.mobs[pos], key, v) { HeldWhere(m, key, pos, v); }
      hide ModelOk, HoldsM, HoldsMob, IsRank;
    }
  }

  method InsertModelOrBin(mob: Mob, key: int, val: int) returns (r: Mob, ok: bool)
    requires MobOk(mob)
    ensures MobOk(r) && (ok <==> MobNotHeld(mob, key)) && MobSameOff(mob, r, key)
    ensures ok ==> forall v :: HoldsMob(r, key, v) <==> v == val
    ensures !ok ==> forall v :: HoldsMob(r, key, v) <==> HoldsMob(mob, key, v)
    ensures r.OfModel? <==> mob.OfModel? || (mob.OfBin? && mob.lb.bins != [] && NoSlotLeft(mob.lb, key))
    decreases mob, 0
  {
    match mob
    case Nothing =>
      r := InsertEmpty(key, val);
      ok := true;
    case OfBin(lb) =>
      var lb', out := Insert(lb, key, val);
      hide Valid, Holds;
      MobIs(mob, key);
      if out.Retrain? {
        var m;
        m, ok := InsertRetrained(lb, key, val);
        r := OfModel(m);
        MobIs(r, key);
        hide ModelOk, HoldsM, HoldsMob;
      } else {
        if out.Ok? { AddsOff(lb, lb', key, val); }
        r, ok := OfBin(lb'), out.Ok?;
        MobIs(r, key);
        hide Adds, HoldsMob;
      }
    case OfModel(m) =>
      var m';
      m', ok := InsertM(m, key, val);
      r := OfModel(m');
      MobIs(mob, key);
      MobIs(r, key);
      hide ModelOk, HoldsM, HoldsMob;
  }

  /** A bin or a model in a gap holds what it holds on its own. */
  lemma MobIs(mob: Mob, key: int)
    ensures mob.OfBin? ==> (forall k, v :: HoldsMob(mob, k, v) <==> Holds(mob.lb, k, v)) && (MobNotHeld(mob, key) <==> NotHeld(mob.lb, key))
    ensures mob.OfModel? ==> (forall k, v :: HoldsMob(mob, k, v) <==> HoldsM(mob.m, k, v)) && (MobNotHeld(mob, key) <==> NotHeldM(mob.m, key))
  {
    hide Holds, HoldsM;
    if mob.OfBin? {
      forall v ensures HoldsMob(mob, key, v) <==> Holds(mob.lb, key, v) {}
    } else if mob.OfModel? {
      forall v ensures HoldsMob(mob, key, v) <==> HoldsM(mob.m, key, v) {}
    }
  }

  lemma AddsOff(lb: LevelBin, lb': LevelBin, key: int, val: int)
    requires NotHeld(lb, key) && Adds(lb.bins, lb'.bins, key, val)
    ensures forall k, v :: k != key ==> (Holds(lb', k, v) <==> Holds(lb, k, v))
    ensures forall v :: Holds(lb', key, v) <==> v == val
  {
    hide AnyHolds;
    forall v ensures Holds(lb', key, v) <==> v == val { assert !Holds(lb, key, v); }
  }

  /** `update`: sets the value of a present key, and does nothing to an absent one. */
  method UpdateM(m: AidelModel, key: int, val: int) returns (r: AidelModel, ok: bool)
    requires ModelOk(m)
    ensures ModelOk(r) && (ok <==> !NotHeldM(m, key)) && SameOff(m, r, key)
    ensures forall v :: HoldsM(r, key, v) <==> ok && v == val
    decreases m, 1
  {
    var found, pos := Locate(m, key);
    NotHeldWhere(m, key, pos);
    assert MobOk(m.mobs[pos]);
    if found {
      hide ModelOk, HoldsM, IsRank;
      if m.valid[pos] {
        SlotChange(m, pos, key, val, true);
        r, ok := m.(vals := m.vals[pos := val], valid := m.valid[pos := true]), true;
        assert m.valid[pos := true] == m.valid;
      } else {
        r, ok := m, false;
      }
    } else {
      var mob;
      mob, ok := UpdateModelOrBin(m.mobs[pos], key, val);
      hide HoldsM, HoldsMob, IsRank;
      GapChange(m, pos, key, mob);
      r := m.(mobs := m.mobs[pos := mob]);
    }
  }

  method UpdateModelOrBin(mob: Mob, key: int, val: int) returns (r: Mob, ok: bool)
    requires MobOk(mob)
    ensures MobOk(r) && (ok <==> !MobNotHeld(mob, key)) && MobSameOff(mob, r, key)
    ensures forall v :: HoldsMob(r, key, v) <==> ok && v == val
    decreases mob, 0
  {
    match mob
    case Nothing => r, ok := mob, false;
    case OfBin(lb) =>
      var lb', out := Update(lb, key, val);
      hide Valid;
      if out.Ok? { SetsOff(lb, lb', key, val); }
      r, ok := OfBin(lb'), out.Ok?;
      MobIs(mob, key);
      MobIs(r, key);
      hide Sets, Holds, HoldsMob;
    case OfModel(m) =>
      var m';
      m', ok := UpdateM(m, key, val);
      r := OfModel(m');
      MobIs(mob, key);
      MobIs(r, key);
      hide ModelOk, HoldsM, HoldsMob;
  }

  lemma SetsOff(lb: LevelBin, lb': LevelBin, key: int, val: int)
    requires Sets(lb.bins, lb'.bins, key, val)
    ensures forall k, v :: k != key ==> (Holds(lb', k, v) <==> Holds(lb, k, v))
    ensures forall v :: Holds(lb', key, v) <==> v == val
  {
    hide AnyHolds;
  }

  /** The removal ends in a bin that would lose another bin's pairs. */
  ghost predicate Loses(m: AidelModel, key: int)
    requires ModelOk(m)
    decreases m
  {
    var g := Rank(m.keys, key);
    !(g < |m.keys| && m.keys[g] == key) &&
    match m.mobs[g]
    case Nothing => false
    case OfBin(lb) => MobOk(m.mobs[g]) && LosesBin(lb, key)
    case OfModel(n) => MobOk(m.mobs[g]) && Loses(n, key)
  }

  /** Some pair of another key is gone. */
  ghost predicate DropsM(m: AidelModel, m': AidelModel, key: int) {
    exists k, v :: k != key && HoldsM(m, k, v) && !HoldsM(m', k, v)
  }

  ghost predicate MobDrops(mob: Mob, mob': Mob, key: int) {
    exists k, v :: k != key && HoldsMob(mob, k, v) && !HoldsMob(mob', k, v)
  }

  ghost predicate MobLoses(mob: Mob, key: int)
    requires MobOk(mob)
  {
    match mob
    case Nothing => false
    case OfBin(lb) => LosesBin(lb, key)
    case OfModel(n) => Loses(n, key)
  }

  /** A pair that a gap has lost is nowhere else. */
  lemma GapLoss(m: AidelModel, g: nat, key: int, mob': Mob)
    requires ModelOk(m) && g < |m.mobs| && MobDrops(m.mobs[g], mob', key)
    ensures DropsM(m, m.(mobs := m.mobs[g := mob']), key)
  {
    var k, v :| k != key && HoldsMob(m.mobs[g], k, v) && !HoldsMob(mob', k, v);
    var m' := m.(mobs := m.mobs[g := mob']);
    var x := Rank(m.keys, k);
    assert MobFits(m.keys, g, m.mobs[g]);
    GapIsRank(m.keys, k, g, x);
    TrainedAt(m, k, x, v);
    assert HoldsM(m, k, v);
    forall i | 0 <= i < |m'.mobs| ensures !HoldsMob(m'.mobs[i], k, v) {
      assert MobFits(m.keys, i, m.mobs[i]);
      if i != g && HoldsMob(m.mobs[i], k, v) { GapIsRank(m.keys, k, i, x); }
    }
    assert TrainedHolds(m', k, v) <==> TrainedHolds(m, k, v);
    hide HoldsMob, ModelOk, TrainedHolds;
    assert !HoldsM(m', k, v);
  }

  /** `remove`: takes a present key out and nothing else, exactly when no root bin is lost by it. */
  method RemoveM(m: AidelModel, key: int) returns (r: AidelModel, ok: bool)
    requires ModelOk(m)
    ensures ok <==> !NotHeldM(m, key)
    ensures !Loses(m, key) ==> ModelOk(r) && SameOff(m, r, key) && NotHeldM(r, key)
    ensures Loses(m, key) ==> DropsM(m, r, key)
    decreases m, 1
  {
    var found, pos := Locate(m, key);
    NotHeldWhere(m, key, pos);
    RankIs(m.keys, key, pos);
    assert MobOk(m.mobs[pos]);
    assert Loses(m, key) <==> !found && MobLoses(m.mobs[pos], key);
    if found {
      hide ModelOk, HoldsM, IsRank, Loses;
      if m.valid[pos] {
        SlotChange(m, pos, key, m.vals[pos], false);
        assert m.vals[pos := m.vals[pos]] == m.vals;
        r, ok := m.(valid := m.valid[pos := false]), true;
      } else {
        r, ok := m, false;
      }
    } else {
      hide Loses, MobLoses;
      var mob;
      mob, ok := RemoveModelOrBin(m.mobs[pos], key);
      r := m.(mobs := m.mobs[pos := mob]);
      hide HoldsM, HoldsMob, IsRank, DropsM, MobDrops;
      if MobLoses(m.mobs[pos], key) { GapLoss(m, pos, key, mob); } else { GapChange(m, pos, key, mob); }
    }
  }

  method RemoveModelOrBin(mob: Mob, key: int) returns (r: Mob, ok: bool)
    requires MobOk(mob)
    ensures ok <==> !MobNotHeld(mob, key)
    ensures !MobLoses(mob, key) ==> MobOk(r) && MobSameOff(mob, r, key) && MobNotHeld(r, key)
    ensures MobLoses(mob, key) ==> MobDrops(mob, r, key)
    decreases mob, 0
  {
    match mob
    case Nothing => r, ok := mob, false;
    case OfBin(lb) =>
      var lb', out := Remove(lb, key);
      hide Valid;
      if LosesBin(lb, key) { DropsThere(lb, lb', key); } else if out.Ok? { RemovesOff(lb, lb', key); }
      r, ok := OfBin(lb'), out.Ok?;
      MobIs(mob, key);
      MobIs(r, key);
      hide Holds, HoldsMob, LosesBin, Removes, Drops;
    case OfModel(n) =>
      var n';
      n', ok := RemoveM(n, key);
      r := OfModel(n');
      MobIs(mob, key);
      MobIs(r, key);
      hide HoldsM, ModelOk, HoldsMob, Loses;
  }

  lemma DropsThere(lb: LevelBin, lb': LevelBin, key: int)
    requires Drops(lb.bins, lb'.bins, key)
    ensures exists k, v :: k != key && Holds(lb, k, v) && !Holds(lb', k, v)
  {
    hide AnyHolds;
    var k, v :| k != key && AnyHolds(lb.bins, k, v) && !AnyHolds(lb'.bins, k, v);
    assert Holds(lb, k, v) && !Holds(lb', k, v);
  }

  lemma RemovesOff(lb: LevelBin, lb': LevelBin, key: int)
    requires Removes(lb.bins, lb'.bins, key)
    ensures forall k, v :: k != key ==> (Holds(lb', k, v) <==> Holds(lb, k, v))
    ensures NotHeld(lb', key)
  {
    hide AnyHolds;
  }
}
