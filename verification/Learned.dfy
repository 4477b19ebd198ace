/** The least-squares model with its error window, and the searches that rely on it. */
module Learned {

  predicate Increasing(keys: seq<int>) {
    forall i, j :: 0 <= i < j < |keys| ==> keys[i] < keys[j]
  }

  // ----- the slope is positive

  /** The size of a sample, the sums of its two coordinates, and the sum of their products. */
  datatype Stats = Stats(n: real, x: real, y: real, xy: real)

  function AddPoint(s: Stats, a: real, b: real): Stats {
    Stats(s.n + 1.0, s.x + a, s.y + b, s.xy + a * b)
  }

  function StatsOf(xs: seq<int>, ys: seq<int>): Stats
    requires |xs| == |ys|
  {
    if xs == [] then Stats(0.0, 0.0, 0.0, 0.0)
    else AddPoint(StatsOf(xs[..|xs| - 1], ys[..|ys| - 1]), xs[|xs| - 1] as real, ys[|ys| - 1] as real)
  }

  /** The size of the sample times the sum of products, less the product of the sums. */
  function Covariance(s: Stats): real { s.n * s.xy - s.x * s.y }

  /** The sum of the products of the distances of `a` and `b` to the points of the sample. */
  function Distances(s: Stats, a: real, b: real): real { s.n * a * b - a * s.y - b * s.x + s.xy }

  /** One more point adds its distances to the earlier ones. */
  lemma CovarianceGrows(s: Stats, a: real, b: real)
    ensures Covariance(AddPoint(s, a, b)) == Covariance(s) + Distances(s, a, b)
  {
    assert (s.n + 1.0) * (s.xy + a * b) == s.n * s.xy + s.xy + s.n * a * b + a * b;
    assert (s.x + a) * (s.y + b) == s.x * s.y + s.x * b + a * s.y + a * b;
  }

  lemma DistancesGrow(s: Stats, x: real, y: real, a: real, b: real)
    ensures Distances(AddPoint(s, x, y), a, b) == Distances(s, a, b) + (a - x) * (b - y)
  {
    assert (a - x) * (b - y) == a * b - a * y - x * b + x * y;
    assert (s.n + 1.0) * a * b == s.n * a * b + a * b;
    assert a * (s.y + y) == a * s.y + a * y && b * (s.x + x) == b * s.x + x * b;
  }

  lemma ProductPositive(x: real, y: real)
    requires x > 0.0 && y > 0.0
    ensures x * y > 0.0
  {
  }

  lemma DistancesGrowPositive(s: Stats, x: real, y: real, a: real, b: real)
    requires Distances(s, a, b) >= 0.0 && x < a && y < b
    ensures Distances(AddPoint(s, x, y), a, b) > 0.0
  {
    DistancesGrow(s, x, y, a, b);
    ProductPositive(a - x, b - y);
  }

  lemma {:induction false} DistancesPositive(xs: seq<int>, ys: seq<int>, a: int, b: int)
    requires |xs| == |ys| && forall i :: 0 <= i < |xs| ==> xs[i] < a && ys[i] < b
    ensures Distances(StatsOf(xs, ys), a as real, b as real) >= 0.0
    ensures |xs| >= 1 ==> Distances(StatsOf(xs, ys), a as real, b as real) > 0.0
  {
    if xs != [] {
      hide Distances, AddPoint;
      var n := |xs| - 1;
      DistancesPositive(xs[..n], ys[..n], a, b);
      DistancesGrowPositive(StatsOf(xs[..n], ys[..n]), xs[n] as real, ys[n] as real, a as real, b as real);
    }
  }

  /** Of two increasing sequences the covariance is positive. */
  lemma {:induction false} CovariancePositive(xs: seq<int>, ys: seq<int>)
    requires |xs| == |ys| && Increasing(xs) && Increasing(ys)
    ensures Covariance(StatsOf(xs, ys)) >= 0.0 && (|xs| >= 2 ==> Covariance(StatsOf(xs, ys)) > 0.0)
  {
    if xs != [] {
      hide Distances, AddPoint, Covariance;
      var n := |xs| - 1;
      CovariancePositive(xs[..n], ys[..n]);
      DistancesPositive(xs[..n], ys[..n], xs[n], ys[n]);
      CovarianceGrows(StatsOf(xs[..n], ys[..n]), xs[n] as real, ys[n] as real);
    }
  }

  // ----- training

  datatype Model = Model(slope: real, offset: real)

  /** The predicted position, cut off to a natural number. */
  function Predict(m: Model, key: int): nat {
    var res := m.slope * key as real + m.offset;
    if res > 0.0 then NatFloor(res) else 0
  }

  function NatFloor(r: real): nat
    requires r > 0.0
  {
    r.Floor
  }

  function Abs(x: int): nat { if x < 0 then -x else x }

  function Error(m: Model, key: int, position: nat): nat { Abs(position - Predict(m, key)) }

  /** `max_error`: the largest distance between a position and its prediction. */
  method MaxError(m: Model, keys: seq<int>, positions: seq<nat>) returns (max: nat)
    requires |keys| == |positions|
    ensures forall i :: 0 <= i < |keys| ==> Error(m, keys[i], positions[i]) <= max
    ensures |keys| > 0 ==> exists i :: 0 <= i < |keys| && Error(m, keys[i], positions[i]) == max
  {
    hide Error;
    max := 0;
    ghost var at := 0;
    for i := 0 to |keys|
      invariant forall j :: 0 <= j < i ==> Error(m, keys[j], positions[j]) <= max
      invariant i > 0 ==> 0 <= at < i && Error(m, keys[at], positions[at]) == max
      invariant i == 0 ==> max == 0
    {
      var error := Error(m, keys[i], positions[i]);
      if error > max || i == 0 { at := i; }
      if error > max { max := error; }
    }
  }

  /** The sums the training loop accumulates. */
  method Sums(keys: seq<int>, positions: seq<int>) returns (s: Stats, xx: real)
    requires |keys| == |positions|
    ensures s == StatsOf(keys, positions) && xx == StatsOf(keys, keys).xy
    ensures s.x == StatsOf(keys, keys).x == StatsOf(keys, keys).y && s.n == StatsOf(keys, keys).n == |keys| as real
  {
    s, xx := Stats(0.0, 0.0, 0.0, 0.0), 0.0;
    for i := 0 to |keys|
      invariant s == StatsOf(keys[..i], positions[..i]) && s.n == i as real
      invariant Stats(s.n, s.x, s.x, xx) == StatsOf(keys[..i], keys[..i])
    {
      var key := keys[i] as real;
      PrefixStats(keys, positions, i);
      PrefixStats(keys, keys, i);
      hide StatsOf;
      s, xx := AddPoint(s, key, positions[i] as real), xx + key * key;
    }
    assert keys[..|keys|] == keys && positions[..|positions|] == positions;
  }

  lemma PrefixStats(keys: seq<int>, positions: seq<int>, i: nat)
    requires i < |keys| == |positions|
    ensures StatsOf(keys[..i + 1], positions[..i + 1])
         == AddPoint(StatsOf(keys[..i], positions[..i]), keys[i] as real, positions[i] as real)
  {
    hide AddPoint;
    assert keys[..i + 1][..i] == keys[..i] && positions[..i + 1][..i] == positions[..i];
  }

  /** Dividing the sums by the size of the sample does not change the sign. */
  lemma Scaled(s: Stats)
    requires s.n >= 1.0 && Covariance(s) > 0.0
    ensures Joint(s.x / s.n, s.y / s.n, s.xy / s.n) > 0.0
  {
    var n, x, y, z := s.n, s.xy / s.n, s.x / s.n, s.y / s.n;
    assert s.xy == x * n && s.x == y * n && s.y == z * n by {
      Back(s.xy, n);
      Back(s.x, n);
      Back(s.y, n);
    }
    FactorOut(n, x, y, z);
    if x - y * z <= 0.0 {
      ProductPositive(n, n);
      NotPositive(x - y * z, n * n);
    }
  }

  /** The mean of the products less the product of the means. */
  function Joint(x: real, y: real, xy: real): real { xy - x * y }

  /** The line that the training computes from the means. */
  function Fit(x: real, y: real, xx: real, xy: real): Model
    requires Joint(x, x, xx) > 0.0
  {
    Model(Joint(x, y, xy) / Joint(x, x, xx), (xx * y - x * xy) / Joint(x, x, xx))
  }

  lemma FactorOut(n: real, x: real, y: real, z: real)
    ensures n * (x * n) - (y * n) * (z * n) == (x - y * z) * (n * n)
  {
    assert n * (x * n) == x * (n * n);
    assert (y * n) * (z * n) == (y * z) * (n * n);
  }

  lemma NotPositive(p: real, q: real)
    requires p <= 0.0 && q >= 0.0
    ensures p * q <= 0.0
  {
  }

  lemma QuotientPositive(a: real, b: real)
    requires a > 0.0 && b > 0.0
    ensures a / b > 0.0
  {
  }

  // ----- least squares

  /** How far the line misses a point. */
  function Miss(m: Model, x: real, y: real): real { y - m.slope * x - m.offset }

  function SquaredError(m: Model, keys: seq<int>, positions: seq<int>): real
    requires |keys| == |positions|
  {
    if keys == [] then 0.0
    else SquaredError(m, keys[..|keys| - 1], positions[..|positions| - 1])
         + MissSquared(m, keys[|keys| - 1] as real, positions[|positions| - 1] as real)
  }

  function MissSquared(m: Model, x: real, y: real): real { Miss(m, x, y) * Miss(m, x, y) }

  function AddSquare(xx: real, x: real): real { xx + x * x }

  /** The line misses the points by nothing on average, and not in proportion to their keys either. */
  predicate Normal(m: Model, s: Stats, xx: real) {
    s.y - m.slope * s.x - s.n * m.offset == 0.0 && s.xy - m.slope * xx - m.offset * s.x == 0.0
  }

  /** What the second line adds to the squared error of the first, as far as the sums tell. */
  function Excess(m: Model, l: Model, s: Stats, xx: real): real {
    (l.slope - m.slope) * (s.xy - m.slope * xx - m.offset * s.x) + (l.offset - m.offset) * (s.y - m.slope * s.x - s.n * m.offset)
  }

  lemma ExcessGrows(m: Model, l: Model, s: Stats, xx: real, x: real, y: real)
    ensures Excess(m, l, AddPoint(s, x, y), AddSquare(xx, x))
         == Excess(m, l, s, xx) + Miss(m, x, y) * ((l.slope - m.slope) * x + (l.offset - m.offset))
  {
    var p, q, e := l.slope - m.slope, l.offset - m.offset, Miss(m, x, y);
    var u, v := s.xy - m.slope * xx - m.offset * s.x, s.y - m.slope * s.x - s.n * m.offset;
    var u', v' := s.xy + x * y - m.slope * (xx + x * x) - m.offset * (s.x + x), s.y + y - m.slope * (s.x + x) - (s.n + 1.0) * m.offset;
    assert u' == u + e * x;
    assert v' == v + e;
    Combine(p, q, u, v, e, x);
  }

  lemma Combine(p: real, q: real, u: real, v: real, e: real, x: real)
    ensures p * (u + e * x) + q * (v + e) == p * u + q * v + e * (p * x + q)
  {
  }

  lemma MissDiffers(m: Model, l: Model, x: real, y: real)
    ensures MissSquared(l, x, y) >=
            MissSquared(m, x, y) - 2.0 * (Miss(m, x, y) * ((l.slope - m.slope) * x + (l.offset - m.offset)))
  {
    var d, e := (l.slope - m.slope) * x + (l.offset - m.offset), Miss(m, x, y);
    assert Miss(l, x, y) == e - d;
    hide Miss;
    assert (e - d) * (e - d) == e * e - 2.0 * (e * d) + d * d;
    assert d * d >= 0.0;
  }

  /** One point more: the squared error of the other line grows by at least what the excess tells. */
  lemma PointDifference(m: Model, l: Model, s: Stats, xx: real, x: real, y: real)
    ensures MissSquared(l, x, y) - MissSquared(m, x, y) >=
            2.0 * Excess(m, l, s, xx) - 2.0 * Excess(m, l, AddPoint(s, x, y), AddSquare(xx, x))
  {
    ExcessGrows(m, l, s, xx, x, y);
    MissDiffers(m, l, x, y);
    hide MissSquared, Excess, Miss, AddPoint, AddSquare;
  }

  lemma {:induction false} ErrorDifference(m: Model, l: Model, keys: seq<int>, positions: seq<int>)
    requires |keys| == |positions|
    ensures SquaredError(l, keys, positions) >= SquaredError(m, keys, positions)
              - 2.0 * Excess(m, l, StatsOf(keys, positions), StatsOf(keys, keys).xy)
  {
    if keys == [] {
      assert Excess(m, l, StatsOf(keys, positions), 0.0) == 0.0;
    } else {
      hide Excess, MissSquared;
      var n := |keys| - 1;
      var x, y := keys[n] as real, positions[n] as real;
      assert StatsOf(keys, positions) == AddPoint(StatsOf(keys[..n], positions[..n]), x, y);
      assert StatsOf(keys, keys).xy == AddSquare(StatsOf(keys[..n], keys[..n]).xy, x);
      hide AddPoint, AddSquare;
      ErrorDifference(m, l, keys[..n], positions[..n]);
      PointDifference(m, l, StatsOf(keys[..n], positions[..n]), StatsOf(keys[..n], keys[..n]).xy, x, y);
    }
  }

  /** A line that meets the normal equations has the least squared error of all lines. */
  lemma NormalIsLeast(m: Model, l: Model, keys: seq<int>, positions: seq<int>)
    requires |keys| == |positions| && Normal(m, StatsOf(keys, positions), StatsOf(keys, keys).xy)
    ensures SquaredError(m, keys, positions) <= SquaredError(l, keys, positions)
  {
    hide SquaredError, StatsOf, Excess, Normal;
    ErrorDifference(m, l, keys, positions);
    NormalHasNoExcess(m, l, StatsOf(keys, positions), StatsOf(keys, keys).xy);
  }

  lemma NormalHasNoExcess(m: Model, l: Model, s: Stats, xx: real)
    requires Normal(m, s, xx)
    ensures Excess(m, l, s, xx) == 0.0
  {
    var p, q := l.slope - m.slope, l.offset - m.offset;
    assert p * 0.0 + q * 0.0 == 0.0;
  }

  /** The weights computed from the means meet the normal equations. */
  lemma FitIsNormal(s: Stats, xxSum: real, x: real, y: real, xx: real, xy: real)
    requires Joint(x, x, xx) > 0.0
    requires s.x == s.n * x && s.y == s.n * y && s.xy == s.n * xy && xxSum == s.n * xx
    ensures Normal(Fit(x, y, xx, xy), s, xxSum)
  {
    var m, d := Fit(x, y, xx, xy), Joint(x, x, xx);
    DivTimes(Joint(x, y, xy), d);
    DivTimes(xx * y - x * xy, d);
    FitThrough(x, y, xx, xy, m.slope, m.offset);
    ScaleMiss(s.n, x, y, xx, xy, m.slope, m.offset);
  }

  lemma DivTimes(p: real, d: real)
    requires d > 0.0
    ensures p / d * d == p
  {
  }

  lemma FitThrough(x: real, y: real, xx: real, xy: real, w: real, c: real)
    requires xx - x * x > 0.0 && w * (xx - x * x) == xy - x * y && c * (xx - x * x) == xx * y - x * xy
    ensures w * x + c == y && w * xx + c * x == xy
  {
    var d := xx - x * x;
    assert (w * d) * x + c * d == y * d by { assert (xy - x * y) * x + (xx * y - x * xy) == y * (xx - x * x); }
    assert (w * x + c) * d == (w * d) * x + c * d;
    Cancel(w * x + c, y, d);
    assert (w * d) * xx + (c * d) * x == xy * d by { assert (xy - x * y) * xx + (xx * y - x * xy) * x == xy * (xx - x * x); }
    assert (w * xx + c * x) * d == (w * d) * xx + (c * d) * x;
    Cancel(w * xx + c * x, xy, d);
  }

  lemma ScaleMiss(n: real, x: real, y: real, xx: real, xy: real, w: real, c: real)
    requires w * x + c == y && w * xx + c * x == xy
    ensures n * y - w * (n * x) - n * c == 0.0 && n * xy - w * (n * xx) - c * (n * x) == 0.0
  {
    assert n * (w * x + c) == w * (n * x) + n * c;
    assert n * (w * xx + c * x) == w * (n * xx) + c * (n * x);
  }

  lemma Cancel(a: real, b: real, d: real)
    requires a * d == b * d && d > 0.0
    ensures a == b
  {
    assert (a - b) * d == 0.0;
  }

  /**
   The trained line has the least squared error of all lines; its slope is not negative, and positive from two keys
   on; no training error exceeds `maxErr`.
   */
  method Train(keys: seq<int>, positions: seq<nat>) returns (m: Model, maxErr: nat)
    requires |keys| == |positions| >= 1 && Increasing(keys) && Increasing(positions)
    ensures m.slope >= 0.0 && (|keys| >= 2 ==> m.slope > 0.0)
    ensures forall l :: SquaredError(m, keys, positions) <= SquaredError(l, keys, positions)
    ensures forall i :: 0 <= i < |keys| ==> Error(m, keys[i], positions[i]) <= maxErr
  {
    hide Covariance, StatsOf, Error, SquaredError, Normal, Joint, Fit;
    if |keys| == 1 {
      m, maxErr := Model(0.0, positions[0] as real), 0;
      OneKey(keys, positions);
      return;
    }
    var s, xxSum := Sums(keys, positions);
    CovariancePositive(keys, positions);
    CovariancePositive(keys, keys);
    Scaled(s);
    Scaled(StatsOf(keys, keys));
    var x, y, xx, xy := s.x / s.n, s.y / s.n, xxSum / s.n, s.xy / s.n;
    m := Fit(x, y, xx, xy);
    TrainedLine(s, xxSum, x, y, xx, xy);
    forall l ensures SquaredError(m, keys, positions) <= SquaredError(l, keys, positions) {
      NormalIsLeast(m, l, keys, positions);
    }
    maxErr := MaxError(m, keys, positions);
  }

  /** A single key is predicted exactly. */
  lemma OneKey(keys: seq<int>, positions: seq<nat>)
    requires |keys| == |positions| == 1
    ensures var m := Model(0.0, positions[0] as real);
            && Error(m, keys[0], positions[0]) == 0
            && forall l :: SquaredError(m, keys, positions) <= SquaredError(l, keys, positions)
  {
    var m, x, y := Model(0.0, positions[0] as real), keys[0] as real, positions[0] as real;
    hide MissSquared, Miss;
    FlatLine(keys[0], positions[0]);
    forall l ensures SquaredError(m, keys, positions) <= SquaredError(l, keys, positions) {
      OneSquared(m, keys, positions);
      OneSquared(l, keys, positions);
      NotNegative(l, x, y);
      hide SquaredError;
    }
  }

  lemma FlatLine(key: int, position: nat)
    ensures var m := Model(0.0, position as real);
            Error(m, key, position) == 0 && MissSquared(m, key as real, position as real) == 0.0
  {
    var m := Model(0.0, position as real);
    assert m.slope * key as real == 0.0;
    assert Predict(m, key) == position;
    assert Miss(m, key as real, position as real) == 0.0;
  }

  lemma OneSquared(l: Model, keys: seq<int>, positions: seq<nat>)
    requires |keys| == |positions| == 1
    ensures SquaredError(l, keys, positions) == MissSquared(l, keys[0] as real, positions[0] as real)
  {
    hide MissSquared;
    assert keys[..0] == [] && positions[..0] == [];
  }

  lemma NotNegative(l: Model, x: real, y: real)
    ensures MissSquared(l, x, y) >= 0.0
  {
    var e := Miss(l, x, y);
    hide Miss;
    assert e * e >= 0.0;
  }

  lemma TrainedLine(s: Stats, xxSum: real, x: real, y: real, xx: real, xy: real)
    requires s.n >= 1.0 && x == s.x / s.n && y == s.y / s.n && xy == s.xy / s.n && xx == xxSum / s.n
    requires Joint(x, x, xx) > 0.0 && Joint(x, y, xy) > 0.0
    ensures Fit(x, y, xx, xy).slope > 0.0 && Normal(Fit(x, y, xx, xy), s, xxSum)
  {
    hide Normal, Joint;
    QuotientPositive(Joint(x, y, xy), Joint(x, x, xx));
    assert Fit(x, y, xx, xy).slope > 0.0;
    hide Fit;
    Recover(s, x, y, xy, xxSum, xx);
    FitIsNormal(s, xxSum, x, y, xx, xy);
  }

  lemma Recover(s: Stats, x: real, y: real, xy: real, xxSum: real, xx: real)
    requires s.n >= 1.0 && x == s.x / s.n && y == s.y / s.n && xy == s.xy / s.n && xx == xxSum / s.n
    ensures s.x == s.n * x && s.y == s.n * y && s.xy == s.n * xy && xxSum == s.n * xx
  {
    assert s.n * x == s.x by { Back(s.x, s.n); }
    assert s.n * y == s.y by { Back(s.y, s.n); }
    assert s.n * xy == s.xy by { Back(s.xy, s.n); }
    assert s.n * xx == xxSum by { Back(xxSum, s.n); }
  }

  lemma Back(a: real, n: real)
    requires n >= 1.0
    ensures n * (a / n) == a
  {
  }

  // ----- prediction and the window around it

  lemma PredictMonotone(m: Model, k: int, l: int)
    requires m.slope >= 0.0 && k <= l
    ensures Predict(m, k) <= Predict(m, l)
  {
    Grow(m.slope, k as real, l as real);
    var p, q := m.slope * k as real + m.offset, m.slope * l as real + m.offset;
    assert p <= q;
    assert p.Floor <= q.Floor;
  }

  lemma Grow(w: real, x: real, y: real)
    requires w >= 0.0 && x <= y
    ensures w * x <= w * y
  {
  }

  /** The number of keys below `key`. */
  predicate IsRank(keys: seq<int>, key: int, g: nat) {
    && g <= |keys|
    && (forall i :: 0 <= i < g ==> keys[i] < key) && forall i :: g <= i < |keys| ==> key <= keys[i]
  }

  /** `KanvaModel::predict`: the prediction, held to the last position. */
  function Position(m: Model, key: int, capacity: nat): nat
    requires capacity > 0
  {
    var p := Predict(m, key);
    if p < capacity then p else capacity - 1
  }

  /** The predicted position is within the error window of the true one, for stored and for other keys. */
  predicate InWindow(keys: seq<int>, key: int, pos: nat, maxErr: nat, g: nat) {
    && pos < |keys|
    && (pos < g ==> g - 1 <= pos + maxErr)
    && (pos >= g ==> pos <= g + maxErr)
    && (g < |keys| && keys[g] == key ==> g <= pos + maxErr)
  }

  /** For any monotone prediction with training errors at most `maxErr`, every key is predicted within its window. */
  lemma MonotoneInWindow(predict: int -> nat, keys: seq<int>, key: int, maxErr: nat, g: nat)
    requires Increasing(keys) && keys != [] && IsRank(keys, key, g)
    requires forall k, l :: k <= l ==> predict(k) <= predict(l)
    requires forall i :: 0 <= i < |keys| ==> Abs(i - predict(keys[i])) <= maxErr
    ensures InWindow(keys, key, if predict(key) < |keys| then predict(key) else |keys| - 1, maxErr, g)
  {
    if g > 0 {
      assert predict(keys[g - 1]) <= predict(key) && Abs(g - 1 - predict(keys[g - 1])) <= maxErr;
    }
    if g < |keys| {
      assert predict(key) <= predict(keys[g]) && Abs(g - predict(keys[g])) <= maxErr;
    }
  }

  lemma PredictionInWindow(m: Model, keys: seq<int>, key: int, maxErr: nat, g: nat)
    requires Increasing(keys) && keys != [] && m.slope >= 0.0 && IsRank(keys, key, g)
    requires forall i :: 0 <= i < |keys| ==> Error(m, keys[i], i) <= maxErr
    ensures InWindow(keys, key, Position(m, key, |keys|), maxErr, g)
  {
    var predict := k => Predict(m, k);
    forall k, l | k <= l ensures predict(k) <= predict(l) { PredictMonotone(m, k, l); }
    forall i | 0 <= i < |keys| ensures Abs(i - predict(keys[i])) <= maxErr { assert Error(m, keys[i], i) <= maxErr; }
    MonotoneInWindow(predict, keys, key, maxErr, g);
  }

  /** `locate_in_levelbin`: binary search in the window on the side of the prediction where the key must be. */
  method LocateInLevelbin(keys: seq<int>, key: int, pos: nat, maxErr: nat, ghost g: nat) returns (r: nat)
    requires Increasing(keys) && IsRank(keys, key, g) && InWindow(keys, key, pos, maxErr, g)
    ensures r < |keys|
    ensures g < |keys| && keys[g] == key ==> r == g
    ensures !(g < |keys| && keys[g] == key) ==> keys[r] != key && g == if key < keys[r] then r else r + 1
  {
    var upbound := |keys| - 1;
    var begin, end;
    if key > keys[pos] {
      begin := if pos + 1 < upbound then pos + 1 else upbound;
      end := if begin + maxErr < upbound then begin + maxErr else upbound;
    } else {
      end := pos;
      begin := if end > maxErr then end - maxErr else 0;
    }
    ghost var b, e := begin, end;
    while begin != end
      invariant b <= begin <= end <= e && e < |keys|
      invariant begin > b ==> keys[begin] <= key
      invariant end < e ==> key < keys[end + 1]
      decreases end - begin
    {
      var mid := (end + begin + 2) / 2;
      if keys[mid] <= key { begin := mid; } else { end := mid - 1; }
    }
    r := begin;
  }

  /** The trained model finds every stored key and sends every other key to the gap it belongs to. */
  method LearnedLookup(keys: seq<int>, key: int) returns (found: bool, r: nat)
    requires |keys| >= 1 && Increasing(keys)
    ensures found <==> key in keys
    ensures found ==> r < |keys| && keys[r] == key
    ensures !found ==> IsRank(keys, key, r)
  {
    var positions := Positions(|keys|);
    var m, maxErr := Train(keys, positions);
    hide Error, SquaredError, Position;
    ghost var g := Rank(keys, key);
    PredictionInWindow(m, keys, key, maxErr, g);
    var pos := LocateInLevelbin(keys, key, Position(m, key, |keys|), maxErr, g);
    if key == keys[pos] {
      found, r := true, pos;
    } else {
      found, r := false, if key < keys[pos] then pos else pos + 1;
    }
  }

  function Positions(n: nat): (r: seq<nat>)
    ensures |r| == n && Increasing(r) && forall i :: 0 <= i < n ==> r[i] == i
  {
    if n == 0 then [] else Positions(n - 1) + [n - 1]
  }

  function Rank(keys: seq<int>, key: int): (g: nat)
    requires Increasing(keys)
    ensures IsRank(keys, key, g)
  {
    if keys == [] || key <= keys[0] then 0 else 1 + Rank(keys[1..], key)
  }

  // ----- branchless binary search

  predicate Sorted(arr: seq<int>) {
    forall i, j :: 0 <= i < j < |arr| ==> arr[i] <= arr[j]
  }

  predicate PowerOfTwo(x: int) {
    x >= 1 && (x == 1 || (x % 2 == 0 && PowerOfTwo(x / 2)))
  }

  /** The highest power of two not above `x`. */
  method HighBit(x: nat) returns (step: nat)
    requires x >= 1
    ensures PowerOfTwo(step) && step <= x < 2 * step
  {
    step := 1;
    while 2 * step <= x
      invariant PowerOfTwo(step) && step <= x
      decreases x - step
    {
      step := 2 * step;
    }
  }

  /** Either the answer is below the end of the window, or the window reaches the end of the array. */
  predicate Around(n: nat, pos: int, w: int, g: nat) {
    pos + 1 <= g && (g <= pos + w || pos + w == n - 1) && pos + w <= n - 1
  }

  /** `binary_search_branchless`: the lower bound of a sorted array, with every read in bounds. */
  method BinarySearchBranchless(arr: seq<int>, key: int, ghost g: nat) returns (r: int)
    requires Sorted(arr) && IsRank(arr, key, g)
    ensures r == g
  {
    var n := |arr|;
    if n <= 0 { return 0; }
    if n == 1 { return if arr[0] >= key then 0 else 1; }
    var pos := -1;
    var step := HighBit(n - 1);
    pos := if arr[pos + n - step] < key then pos + n - step else pos;
    assert Around(n, pos, step, g);
    ghost var w := step;
    step := step / 2;
    while step > 0
      invariant step >= 0 && pos >= -1 && Around(n, pos, w, g)
      invariant if step == 0 then w == 1 else w == 2 * step && PowerOfTwo(step)
    {
      pos := if arr[pos + step] < key then pos + step else pos;
      w := step;
      step := step / 2;
    }
    pos := pos + 1;
    return if arr[pos] >= key then pos else n;
  }
}
