/** The streaming piecewise-linear fit: `add_point`, the segment it yields, and greedy segmentation. */
module Plm {
  import opened PlmGeometry
  import opened PlmHull
  import opened PlmLines
  import opened PlmState

  // ----- slopes

  datatype Slope = Slope(dx: int, dy: int)

  function Minus(p: Pt, q: Pt): Slope { Slope(p.x - q.x, p.y - q.y) }

  predicate Less(s: Slope, t: Slope) { s.dy * t.dx < s.dx * t.dy }

  predicate Greater(s: Slope, t: Slope) { s.dy * t.dx > s.dx * t.dy }

  /** Comparing the slopes of two points seen from `q` is a cross product, also straight above `q`. */
  lemma SlopesFromPoint(q: Pt, a: Pt, b: Pt)
    ensures Less(Minus(a, q), Minus(b, q)) <==> Cross(b, q, a) > 0
    ensures Greater(Minus(a, q), Minus(b, q)) <==> Cross(Mirror(b), Mirror(q), Mirror(a)) > 0
  {
    CrossRotates(q, a, b);
    MirrorCross(b, q, a);
    assert (a.y - q.y) * (b.x - q.x) == (b.x - q.x) * (a.y - q.y);
  }

  /** Comparing the slope towards `p` with the line from `a` to `b` tells on which side of it `p` lies. */
  lemma SlopeAgainstLine(a: Pt, b: Pt, p: Pt)
    ensures Less(Minus(p, b), Minus(b, a)) <==> Cross(a, b, p) < 0
    ensures Greater(Minus(p, b), Minus(b, a)) <==> Cross(a, b, p) > 0
    ensures Less(Minus(p, a), Minus(b, a)) <==> Cross(a, b, p) < 0
    ensures Greater(Minus(p, a), Minus(b, a)) <==> Cross(a, b, p) > 0
  {
    var dx, dy := b.x - a.x, b.y - a.y;
    assert (p.y - b.y) * dx == dx * (p.y - a.y) - dx * dy;
    assert (p.x - b.x) * dy == dy * (p.x - a.x) - dy * dx;
    assert dx * dy == dy * dx;
    assert (p.y - a.y) * dx == dx * (p.y - a.y);
    assert (p.x - a.x) * dy == dy * (p.x - a.x);
  }

  datatype Outcome = LogicError | Returned(accepted: bool)

  /** The canonical segment: the rectangle's four points and the first x. */
  datatype Segment = Segment(r0: Pt, r1: Pt, r2: Pt, r3: Pt, first: int)

  /**
   A segment for some points: the lines through its corners pass within epsilon of all of them, and are the flattest and
   the steepest of all real lines that do; for a single point the corners are the point plus and minus epsilon.
   */
  ghost predicate SegmentFits(eps: nat, pts: seq<Pt>, s: Segment) {
    && |pts| > 0 && s.first == pts[0].x
    && if |pts| == 1 then s.r0 == s.r2 == Up(eps, pts[0]) && s.r1 == s.r3 == Low(eps, pts[0])
       else Fits(eps, pts, s.r0, s.r2) && Fits(eps, pts, s.r1, s.r3) && Extreme(eps, pts, s.r0, s.r2, s.r1, s.r3)
  }

  lemma FitSegment(eps: nat, pts: seq<Pt>, f: Fit, first: int)
    requires |pts| >= 2 && FitOk(eps, pts, f) && first == pts[0].x
    ensures SegmentFits(eps, pts, Segment(f.r0, f.r1, f.r2, f.r3, first))
  {
    FitExtreme(eps, pts, f);
    hide Cross, Hull, Extreme;
  }

  /** The corners of the rectangle are accepted points plus and minus epsilon, so no line can do better. */
  lemma FitExtreme(eps: nat, pts: seq<Pt>, f: Fit)
    requires FitOk(eps, pts, f)
    ensures Extreme(eps, pts, f.r0, f.r2, f.r1, f.r3)
  {
    hide Cross, Hull;
    var a := LowerChainPoint(eps, pts, f, f.lowerStart);
    var z := LowerChainPoint(eps, pts, f, |f.lower| - 1);
    var b := UpperPoint(eps, pts, f, f.upperStart);
    var y := UpperPoint(eps, pts, f, |f.upper| - 1);
    forall l: Line | WithinAll(l, eps, pts) ensures Through(f.r0, f.r2).slope <= l.slope <= Through(f.r1, f.r3).slope {
      assert Within(l, eps, pts[a]) && Within(l, eps, pts[b]) && Within(l, eps, pts[y]) && Within(l, eps, pts[z]);
      AsSteep(l, f.r0, f.r2);
      AsFlat(l, f.r1, f.r3);
    }
  }

  class OptimalPiecewiseLinearModel {
    const epsilon: nat
    var lower: seq<Pt>
    var upper: seq<Pt>
    var firstX: int
    var lastX: int
    var lowerStart: nat
    var upperStart: nat
    var pointsInHull: nat
    var r0: Pt
    var r1: Pt
    var r2: Pt
    var r3: Pt
    /** The points accepted since the last reset or rejection. */
    ghost var pts: seq<Pt>
    /** The points that the rectangle is for: the accepted ones, or after a rejection those it dropped. */
    ghost var held: seq<Pt>

    constructor (epsilon: nat)
      ensures Valid() && this.epsilon == epsilon && pts == held == []
    {
      this.epsilon := epsilon;
      lower, upper, pts, held := [], [], [], [];
      firstX, lastX, lowerStart, upperStart, pointsInHull := 0, 0, 0, 0, 0;
      r0, r1, r2, r3 := Pt(0, 0), Pt(0, 0), Pt(0, 0), Pt(0, 0);
    }

    ghost function Now(): Fit
      reads this
    {
      Fit(lower, lowerStart, upper, upperStart, r0, r1, r2, r3)
    }

    ghost predicate Valid()
      reads this
    {
      && pointsInHull == |pts|
      && (|pts| > 0 ==> firstX == pts[0].x && lastX == pts[|pts| - 1].x)
      && (|pts| == 1 ==> upper == lower == pts && upperStart == lowerStart == 0
                         && r0 == Up(epsilon, pts[0]) && r1 == Low(epsilon, pts[0]))
      && (|pts| >= 2 ==> lowerStart < |lower| && upperStart < |upper| && FitOk(epsilon, pts, Now()))
      && (pts != [] ==> held == pts)
      && (pts == [] && held != [] ==> |held| >= 2 && SegmentFits(epsilon, held, Segment(r0, r1, r2, r3, firstX)))
    }

    /**
     Accepts the point exactly when some real line passes within epsilon of it and of every point
     accepted so far; otherwise drops those points, leaving the rectangle as their segment.
     */
    method AddPoint(x: int, y: int) returns (r: Outcome)
      requires Valid()
      modifies this
      ensures Valid()
      ensures r == LogicError <==> old(pts) != [] && x <= old(lastX)
      ensures r == LogicError ==> pts == old(pts)
      ensures held == if r == LogicError then old(held) else if r.accepted then pts else old(pts)
      ensures r != LogicError ==> (r.accepted <==> Feasible(epsilon, old(pts) + [Pt(x, y)]))
      ensures r == Returned(true) ==> pts == old(pts) + [Pt(x, y)]
      ensures r == Returned(false) ==> pts == [] && |old(pts)| >= 2
      ensures r == Returned(false) ==> [r0, r1, r2, r3] == old([r0, r1, r2, r3]) && firstX == old(firstX)
    {
      hide FitOk, Feasible, Cross, SegmentFits;
      if pointsInHull > 0 && x <= lastX {
        return LogicError;
      }
      lastX := x;
      ghost var p := Pt(x, y);
      if pointsInHull == 0 {
        firstX := x;
        r0 := Pt(x, y + epsilon);
        r1 := Pt(x, y - epsilon);
        upper := [Pt(x, y)];
        lower := [Pt(x, y)];
        upperStart, lowerStart := 0, 0;
        pointsInHull := pointsInHull + 1;
        pts := [p];
        held := pts;
        OnePointFeasible(epsilon, p);
        assert old(pts) + [p] == pts;
        return Returned(true);
      }
      if pointsInHull == 1 {
        AddSecond(x, y);
        return Returned(true);
      }
      r := AddThird(x, y);
    }

    method AddSecond(x: int, y: int)
      requires |pts| == pointsInHull == 1 && pts[0].x < x && lastX == x && firstX == pts[0].x
      requires upper == lower == pts && upperStart == lowerStart == 0
      requires r0 == Up(epsilon, pts[0]) && r1 == Low(epsilon, pts[0])
      modifies this`r2, this`r3, this`upper, this`lower, this`pointsInHull, this`pts, this`held
      ensures Valid() && held == pts == old(pts) + [Pt(x, y)] && Feasible(epsilon, pts)
    {
      hide FitOk, Feasible, Cross;
      r2 := Pt(x, y - epsilon);
      r3 := Pt(x, y + epsilon);
      upper := upper + [Pt(x, y)];
      lower := lower + [Pt(x, y)];
      pointsInHull := pointsInHull + 1;
      pts := pts + [Pt(x, y)];
      held := pts;
      TwoPointsFit(epsilon, pts, Now());
      FitFeasible(epsilon, pts, Now());
    }

    /** The general case, from the third point on. */
    method AddThird(x: int, y: int) returns (r: Outcome)
      requires |pts| >= 2 && pointsInHull == |pts| && FitOk(epsilon, pts, Now()) && pts[|pts| - 1].x < x
      requires lowerStart < |lower| && upperStart < |upper| && lastX == x && firstX == pts[0].x
      modifies this
      ensures Valid() && r.Returned? && held == if r.accepted then pts else old(pts)
      ensures r.accepted <==> Feasible(epsilon, old(pts) + [Pt(x, y)])
      ensures r.accepted ==> pts == old(pts) + [Pt(x, y)]
      ensures !r.accepted ==> pts == [] && [r0, r1, r2, r3] == old([r0, r1, r2, r3]) && firstX == old(firstX)
    {
      hide FitOk, HalfOk, Cross, Less, Greater, Feasible, SegmentFits;
      var p := Pt(x, y);
      var p1 := Pt(x, y + epsilon);
      var p2 := Pt(x, y - epsilon);
      var slope1 := Minus(r2, r0);
      var slope2 := Minus(r3, r1);
      var outsideLine1 := Less(Minus(p1, r2), slope1);
      var outsideLine2 := Greater(Minus(p2, r3), slope2);
      SlopeAgainstLine(r0, r2, p1);
      SlopeAgainstLine(r1, r3, p2);
      if outsideLine1 || outsideLine2 {
        OutsideInfeasible(epsilon, pts, p, Now());
        FitSegment(epsilon, pts, Now(), firstX);
        pointsInHull := 0;
        held := pts;
        pts := [];
        return Returned(false);
      }
      ghost var f0 := Now();
      var moved := MoveSteepest(p, p1, slope2);
      MoveFlattest(p, p2, slope1, f0, moved);
      pointsInHull := pointsInHull + 1;
      pts := pts + [p];
      held := pts;
      FitFeasible(epsilon, pts, Now());
      return Returned(true);
    }

    /** The first half of an update: the steepest line, the start of the lower chain, the upper chain. */
    method MoveSteepest(p: Pt, p1: Pt, slope2: Slope) returns (moved: bool)
      requires FitOk(epsilon, pts, Now()) && |pts| > 0 && pts[|pts| - 1].x < p.x
      requires lowerStart < |lower| && upperStart < |upper|
      requires p1 == Up(epsilon, p) && slope2 == Minus(r3, r1)
      requires Cross(r0, r2, Up(epsilon, p)) >= 0 && Cross(r1, r3, Low(epsilon, p)) <= 0
      modifies this`r1, this`r3, this`lowerStart, this`upper
      ensures HalfOk(epsilon, pts, p, Now())
      ensures moved == (old(Cross(r1, r3, Up(epsilon, p))) < 0)
      ensures lowerStart < |lower| && upperStart < |upper|
      ensures if moved then |upper| > upperStart + 1 else Now() == old(Now())
    {
      hide FitOk, HalfOk, Hull, Cross, Less;
      SlopeAgainstLine(r1, r3, p1);
      moved := Less(Minus(p1, r1), slope2);
      if moved {
        var i := FlattestToUpper(epsilon, lower, lowerStart, p1);
        var e := PopUpper(epsilon, upper, upperStart, p1);
        FirstHalfMoved(epsilon, pts, p, Now(), i, e);
        r1 := Low(epsilon, lower[i]);
        r3 := p1;
        lowerStart := i;
        upper := upper[..e] + [p];
      } else {
        FirstHalfKept(epsilon, pts, p, Now());
      }
    }

    /** The second half: the flattest line, the start of the upper chain, the lower chain. */
    method MoveFlattest(p: Pt, p2: Pt, slope1: Slope, ghost f0: Fit, ghost moved: bool)
      requires FitOk(epsilon, pts, f0) && |pts| > 0 && pts[|pts| - 1].x < p.x && HalfOk(epsilon, pts, p, Now())
      requires r0 == f0.r0 && r2 == f0.r2 && upperStart == f0.upperStart
      requires if moved then Cross(f0.r1, f0.r3, Up(epsilon, p)) < 0 && |upper| > upperStart + 1 else Now() == f0
      requires lowerStart < |lower| && upperStart < |upper|
      requires p2 == Low(epsilon, p) && slope1 == Minus(r2, r0)
      modifies this`r0, this`r2, this`upperStart, this`lower
      ensures FitOk(epsilon, pts + [p], Now())
    {
      hide FitOk, HalfOk, Hull, Cross, Greater;
      SlopeAgainstLine(r0, r2, p2);
      if Greater(Minus(p2, r0), slope1) {
        var i := SteepestToLower(epsilon, upper, upperStart, p2);
        TangentIsOlder(epsilon, pts, p, f0, Now(), i, moved);
        var e := PopLower(epsilon, lower, lowerStart, p2);
        SecondHalfMoved(epsilon, pts, p, Now(), i, e);
        r0 := Up(epsilon, upper[i]);
        r2 := p2;
        upperStart := i;
        lower := lower[..e] + [p];
      } else {
        SecondHalfKept(epsilon, pts, p, Now());
      }
    }

    /** The segment fits the accepted points, or after a rejection the points dropped. */
    method GetSegment() returns (s: Segment)
      requires Valid()
      ensures held != [] ==> SegmentFits(epsilon, held, s)
    {
      if pointsInHull == 1 {
        return Segment(r0, r1, r0, r1, firstX);
      }
      if pts != [] { FitSegment(epsilon, pts, Now(), firstX); }
      return Segment(r0, r1, r2, r3, firstX);
    }

    method Reset()
      modifies this
      ensures Valid() && pts == held == []
    {
      pointsInHull := 0;
      pts, held := [], [];
      lower := [];
      upper := [];
    }
  }

  // ----- the loops of add_point

  /** The walk along the lower chain for the extreme slope towards the new upper point. */
  method FlattestToUpper(eps: nat, lower: seq<Pt>, start: nat, p1: Pt) returns (k: nat)
    requires start < |lower|
    ensures start <= k < |lower| && TangentAt(Lows(eps, lower[start..]), Mirror(p1), k - start)
  {
    var least := Minus(Low(eps, lower[start]), p1);
    k := start;
    var i := start + 1;
    while i < |lower|
      invariant start <= k < |lower| && i == k + 1
      invariant least == Minus(Low(eps, lower[k]), p1)
      invariant k > start ==> Cross(Mirror(Low(eps, lower[k])), Mirror(p1), Mirror(Low(eps, lower[k - 1]))) >= 0
    {
      var val := Minus(Low(eps, lower[i]), p1);
      SlopesFromPoint(p1, Low(eps, lower[i]), Low(eps, lower[k]));
      if Greater(val, least) {
        break;
      }
      SwapEnds(Mirror(Low(eps, lower[k])), Mirror(p1), Mirror(Low(eps, lower[i])));
      least := val;
      k := i;
      i := i + 1;
    }
  }

  lemma SwapEnds(a: Pt, q: Pt, b: Pt)
    ensures Cross(a, q, b) == -Cross(b, q, a)
  {
    CrossRotates(a, q, b);
    CrossRotates(b, q, a);
    CrossRotates(q, a, b);
  }

  /** The walk along the upper chain for the extreme slope towards the new lower point. */
  method SteepestToLower(eps: nat, upper: seq<Pt>, start: nat, p2: Pt) returns (k: nat)
    requires start < |upper|
    ensures start <= k < |upper| && TangentAt(Ups(eps, upper[start..]), p2, k - start)
  {
    var most := Minus(Up(eps, upper[start]), p2);
    k := start;
    var i := start + 1;
    while i < |upper|
      invariant start <= k < |upper| && i == k + 1
      invariant most == Minus(Up(eps, upper[k]), p2)
      invariant k > start ==> Cross(Up(eps, upper[k]), p2, Up(eps, upper[k - 1])) >= 0
    {
      var val := Minus(Up(eps, upper[i]), p2);
      SlopesFromPoint(p2, Up(eps, upper[i]), Up(eps, upper[k]));
      if Less(val, most) {
        break;
      }
      SwapEnds(Up(eps, upper[k]), p2, Up(eps, upper[i]));
      most := val;
      k := i;
      i := i + 1;
    }
  }

  method PopUpper(eps: nat, upper: seq<Pt>, start: nat, p1: Pt) returns (end: nat)
    requires start < |upper|
    ensures start < end <= |upper| && PopsTo(Ups(eps, upper[start..]), p1, end - start)
  {
    end := |upper|;
    while end >= start + 2 && Cross(Up(eps, upper[end - 2]), Up(eps, upper[end - 1]), p1) <= 0
      invariant start < end <= |upper|
      invariant end < |upper| ==> Cross(Up(eps, upper[end - 1]), Up(eps, upper[end]), p1) <= 0
    {
      end := end - 1;
    }
  }

  method PopLower(eps: nat, lower: seq<Pt>, start: nat, p2: Pt) returns (end: nat)
    requires start < |lower|
    ensures start < end <= |lower| && PopsTo(Lows(eps, lower[start..]), Mirror(p2), end - start)
  {
    end := |lower|;
    while end >= start + 2 && Cross(Low(eps, lower[end - 2]), Low(eps, lower[end - 1]), p2) >= 0
      invariant start < end <= |lower|
      invariant end < |lower| ==> Cross(Low(eps, lower[end - 1]), Low(eps, lower[end]), p2) >= 0
    {
      end := end - 1;
    }
    if end < |lower| { MirrorCross(Low(eps, lower[end - 1]), Low(eps, lower[end]), p2); }
    if end >= start + 2 { MirrorCross(Low(eps, lower[end - 2]), Low(eps, lower[end - 1]), p2); }
  }

  // ----- proofs about add_point

  lemma OnePointFeasible(eps: nat, p: Pt)
    ensures Feasible(eps, [p])
  {
    var l := Line(0.0, p.y as real);
    assert At(l, p.x) == p.y as real;
    assert WithinAll(l, eps, [p]);
  }

  lemma FitFeasible(eps: nat, pts: seq<Pt>, f: Fit)
    requires FitOk(eps, pts, f)
    ensures Feasible(eps, pts)
    ensures f.lowerStart < |f.lower| && f.upperStart < |f.upper|
  {
    FitsIsWithin(eps, pts, f.r0, f.r2);
  }

  lemma TwoPointsFit(eps: nat, pts: seq<Pt>, f: Fit)
    requires |pts| == 2 && pts[0].x < pts[1].x && f.upper == f.lower == pts && f.upperStart == f.lowerStart == 0
    requires f.r0 == Up(eps, pts[0]) && f.r1 == Low(eps, pts[0]) && f.r2 == Low(eps, pts[1]) && f.r3 == Up(eps, pts[1])
    ensures FitOk(eps, pts, f)
  {
    assert f.upper[0..] == pts && f.lower[0..] == pts;
    TwoPointHull(Ups(eps, pts));
    TwoPointHull(Lows(eps, pts));
    EndsFit(eps, pts[0], pts[1]);
    forall j | 0 <= j < |pts| ensures FitsPoint(eps, f.r0, f.r2, pts[j]) && FitsPoint(eps, f.r1, f.r3, pts[j]) {
      assert j == 0 || j == 1;
    }
  }

  lemma TwoPointHull(w: seq<Pt>)
    requires |w| == 2 && w[0].x < w[1].x
    ensures Hull(w, w)
  {
    forall i, j | 0 <= i < |w| - 1 && 0 <= j < |w| && w[0].x <= w[j].x <= w[|w| - 1].x ensures AboveEdge(w, i, w[j]) {
      assert i == 0 && (j == 0 || j == 1);
      VerticalGap(w[0], w[1], 0);
    }
  }

  lemma EndsFit(eps: nat, a: Pt, b: Pt)
    requires a.x < b.x
    ensures FitsPoint(eps, Up(eps, a), Low(eps, b), a) && FitsPoint(eps, Up(eps, a), Low(eps, b), b)
    ensures FitsPoint(eps, Low(eps, a), Up(eps, b), a) && FitsPoint(eps, Low(eps, a), Up(eps, b), b)
  {
    VerticalGap(Up(eps, a), Low(eps, b), eps);
    VerticalGap(Low(eps, a), Up(eps, b), eps);
    assert (b.x - a.x) * (-(2 * eps)) == -((b.x - a.x) * (2 * eps));
    Mul0(b.x - a.x, 2 * eps);
  }

  lemma OutsideInfeasible(eps: nat, pts: seq<Pt>, p: Pt, f: Fit)
    requires FitOk(eps, pts, f) && |pts| > 0 && pts[|pts| - 1].x < p.x
    requires Cross(f.r0, f.r2, Up(eps, p)) < 0 || Cross(f.r1, f.r3, Low(eps, p)) > 0
    ensures !Feasible(eps, pts + [p])
  {
    hide Cross, Hull;
    if Feasible(eps, pts + [p]) {
      var v := pts + [p];
      var l :| WithinAll(l, eps, v);
      assert Within(l, eps, v[|pts|]);
      ExtendedIncreasing(pts, p);
      var a := LowerChainPoint(eps, pts, f, f.lowerStart);
      var z := LowerChainPoint(eps, pts, f, |f.lower| - 1);
      var b := UpperPoint(eps, pts, f, f.upperStart);
      var y := UpperPoint(eps, pts, f, |f.upper| - 1);
      assert Within(l, eps, v[a]) && Within(l, eps, v[b]) && Within(l, eps, v[y]) && Within(l, eps, v[z]);
      if Cross(f.r0, f.r2, Up(eps, p)) < 0 {
        SteeperBeyond(l, f.r0, f.r2, Up(eps, p));
      } else {
        FlatterBeyond(l, f.r1, f.r3, Low(eps, p));
      }
    }
  }

  lemma UpperPoint(eps: nat, pts: seq<Pt>, f: Fit, i: nat) returns (k: nat)
    requires FitOk(eps, pts, f) && f.upperStart <= i < |f.upper|
    ensures k < |pts| && pts[k] == f.upper[i]
  {
    var c, w := UpperChain(eps, f), Ups(eps, pts);
    assert c[i - f.upperStart] == Up(eps, f.upper[i]);
    assert c[i - f.upperStart] in w;
    k :| 0 <= k < |w| && w[k] == c[i - f.upperStart];
  }

  /**
   The tangent from the new lower point never ends at the new upper point, which is straight above
   it: with a positive epsilon the walk stops before it, and with epsilon zero both halves cannot
   move, because the two extreme lines coincide.
   */
  lemma TangentIsOlder(eps: nat, pts: seq<Pt>, p: Pt, f0: Fit, f: Fit, i: nat, steep: bool)
    requires FitOk(eps, pts, f0) && |pts| > 0 && pts[|pts| - 1].x < p.x && HalfOk(eps, pts, p, f)
    requires f.r0 == f0.r0 && f.r2 == f0.r2 && f.upperStart == f0.upperStart
    requires if steep then Cross(f0.r1, f0.r3, Up(eps, p)) < 0 && |f.upper| > f.upperStart + 1
             else f == f0
    requires Cross(f.r0, f.r2, Low(eps, p)) > 0
    requires f.upperStart <= i < |f.upper| && TangentAt(UpperChain(eps, f), Low(eps, p), i - f.upperStart)
    ensures f.upper[i].x < p.x
  {
    hide Cross;
    ExtendedIncreasing(pts, p);
    var c, v := UpperChain(eps, f), pts + [p];
    if !steep {
      var k := UpperPoint(eps, pts, f0, i);
    } else {
      var w := Ups(eps, v);
      assert c[i - f.upperStart] == Up(eps, f.upper[i]) && c[i - f.upperStart] in w;
      var k :| 0 <= k < |w| && w[k] == c[i - f.upperStart];
      if k == |pts| {
        if eps == 0 {
          LinesCoincide(pts, p, f0);
        } else {
          assert c[i - f.upperStart] == Up(eps, p);
          if i > f.upperStart {
            StraightAbove(c[i - f.upperStart], Low(eps, p), c[i - f.upperStart - 1], eps);
          }
        }
      }
    }
  }

  lemma StraightAbove(a: Pt, q: Pt, b: Pt, eps: nat)
    requires eps > 0 && a.x == q.x && a.y == q.y + eps + eps && b.x < q.x
    ensures Cross(a, q, b) < 0
  {
    assert (q.x - a.x) * (b.y - a.y) == 0;
    Mul0(q.y - a.y, b.x - a.x);
  }

  lemma LinesCoincide(pts: seq<Pt>, p: Pt, f: Fit)
    requires FitOk(0, pts, f) && Cross(f.r1, f.r3, Up(0, p)) < 0
    ensures Cross(f.r0, f.r2, Low(0, p)) <= 0
  {
    if Cross(f.r0, f.r2, p) > 0 {
      var a := UpperPoint(0, pts, f, f.upperStart);
      var b := LowerChainPoint(0, pts, f, |f.lower| - 1);
      assert FitsPoint(0, f.r1, f.r3, pts[a]) && FitsPoint(0, f.r1, f.r3, pts[b]);
      SameLine(f.r1, f.r3, f.r0, f.r2, p);
    }
  }
}
