/** The state of the streaming fit and the two halves of one update, on values. */
module PlmState {
  import opened PlmGeometry
  import opened PlmHull
  import opened PlmLines

  function Ups(eps: nat, s: seq<Pt>): (r: seq<Pt>)
    ensures |r| == |s| && forall i :: 0 <= i < |s| ==> r[i] == Up(eps, s[i])
  {
    seq(|s|, i requires 0 <= i < |s| => Up(eps, s[i]))
  }

  /** The lower points, turned upside down. */
  function Lows(eps: nat, s: seq<Pt>): (r: seq<Pt>)
    ensures |r| == |s| && forall i :: 0 <= i < |s| ==> r[i] == Mirror(Low(eps, s[i]))
  {
    seq(|s|, i requires 0 <= i < |s| => Mirror(Low(eps, s[i])))
  }

  /** The four corner points and the two chains, from their start indices on. */
  datatype Fit = Fit(
    lower: seq<Pt>, lowerStart: nat, upper: seq<Pt>, upperStart: nat,
    r0: Pt, r1: Pt, r2: Pt, r3: Pt)

  predicate Corners(eps: nat, f: Fit) {
    && f.lowerStart < |f.lower| && f.upperStart < |f.upper|
    && f.r0 == Up(eps, f.upper[f.upperStart]) && f.r3 == Up(eps, f.upper[|f.upper| - 1])
    && f.r1 == Low(eps, f.lower[f.lowerStart]) && f.r2 == Low(eps, f.lower[|f.lower| - 1])
  }

  function UpperChain(eps: nat, f: Fit): seq<Pt>
    requires f.upperStart < |f.upper|
  {
    Ups(eps, f.upper[f.upperStart..])
  }

  function LowerChain(eps: nat, f: Fit): seq<Pt>
    requires f.lowerStart < |f.lower|
  {
    Lows(eps, f.lower[f.lowerStart..])
  }

  /** Both extreme lines fit every point; each chain is the hull of its side. */
  ghost predicate FitOk(eps: nat, pts: seq<Pt>, f: Fit) {
    && Increasing(pts)
    && Corners(eps, f)
    && Hull(UpperChain(eps, f), Ups(eps, pts))
    && Hull(LowerChain(eps, f), Lows(eps, pts))
    && Fits(eps, pts, f.r0, f.r2)
    && Fits(eps, pts, f.r1, f.r3)
  }

  /** Halfway through an update by `p`: the upper chain and the steepest line know `p`, the rest does not. */
  ghost predicate HalfOk(eps: nat, pts: seq<Pt>, p: Pt, f: Fit) {
    && Increasing(pts + [p])
    && Corners(eps, f)
    && Hull(UpperChain(eps, f), Ups(eps, pts + [p]))
    && Hull(LowerChain(eps, f), Lows(eps, pts))
    && Fits(eps, pts, f.r0, f.r2)
    && Fits(eps, pts + [p], f.r1, f.r3)
    && Cross(f.r0, f.r2, Up(eps, p)) >= 0
    && f.r2.x < p.x
  }

  lemma FitsAbove(eps: nat, pts: seq<Pt>, a: Pt, b: Pt)
    requires Fits(eps, pts, a, b)
    ensures AllAbove(a, b, Ups(eps, pts))
    ensures AllAbove(Mirror(a), Mirror(b), Lows(eps, pts))
  {
    hide Cross;
    forall j | 0 <= j < |pts|
      ensures Cross(a, b, Ups(eps, pts)[j]) >= 0 && Cross(Mirror(a), Mirror(b), Lows(eps, pts)[j]) >= 0
    {
      assert FitsPoint(eps, a, b, pts[j]);
      MirrorCross(a, b, Low(eps, pts[j]));
    }
  }

  lemma FitsExtended(eps: nat, pts: seq<Pt>, p: Pt, a: Pt, b: Pt)
    requires Fits(eps, pts, a, b) && FitsPoint(eps, a, b, p)
    ensures Fits(eps, pts + [p], a, b)
  {
    hide Cross;
    var v := pts + [p];
    forall j | 0 <= j < |v| ensures FitsPoint(eps, a, b, v[j]) {
      if j < |pts| { assert FitsPoint(eps, a, b, pts[j]); }
    }
  }

  lemma Extended(eps: nat, pts: seq<Pt>, p: Pt)
    ensures Ups(eps, pts + [p]) == Ups(eps, pts) + [Up(eps, p)]
    ensures Lows(eps, pts + [p]) == Lows(eps, pts) + [Mirror(Low(eps, p))]
  {
  }

  lemma ExtendedIncreasing(pts: seq<Pt>, p: Pt)
    requires Increasing(pts) && |pts| > 0 && pts[|pts| - 1].x < p.x
    ensures Increasing(pts + [p]) && forall j :: 0 <= j < |pts| ==> pts[j].x < p.x
  {
    forall j | 0 <= j < |pts| ensures pts[j].x < p.x {
      assert pts[j].x <= pts[|pts| - 1].x;
    }
  }

  /** The first half, when the new upper point is on or above the steepest line: nothing moves. */
  lemma FirstHalfKept(eps: nat, pts: seq<Pt>, p: Pt, f: Fit)
    requires FitOk(eps, pts, f) && |pts| > 0 && pts[|pts| - 1].x < p.x
    requires Cross(f.r0, f.r2, Up(eps, p)) >= 0
    requires Cross(f.r1, f.r3, Up(eps, p)) >= 0 && Cross(f.r1, f.r3, Low(eps, p)) <= 0
    ensures HalfOk(eps, pts, p, f)
  {
    hide Cross, Hull, PopsTo, TangentAt;
    ExtendedIncreasing(pts, p);
    Extended(eps, pts, p);
    var c, w := UpperChain(eps, f), Ups(eps, pts);
    ChainLeftOf(c, w, p.x);
    ChainLeftOf(LowerChain(eps, f), Lows(eps, pts), p.x);
    SkipKeepsHull(c, w, Up(eps, p));
    FitsExtended(eps, pts, p, f.r1, f.r3);
  }

  lemma ChainLeftOf(c: seq<Pt>, w: seq<Pt>, x: int)
    requires Hull(c, w) && forall j :: 0 <= j < |w| ==> w[j].x < x
    ensures forall i :: 0 <= i < |c| ==> c[i].x < x
  {
    hide Cross;
    forall i | 0 <= i < |c| ensures c[i].x < x {
      assert c[i] in w;
    }
  }

  /**
   The first half, when the new upper point is below the steepest line: the line now leaves the lower
   chain at the tangent from the new point, and the upper chain is popped to `e` and extended.
   */
  lemma FirstHalfMoved(eps: nat, pts: seq<Pt>, p: Pt, f: Fit, i: nat, e: nat)
    requires FitOk(eps, pts, f) && |pts| > 0 && pts[|pts| - 1].x < p.x
    requires Cross(f.r0, f.r2, Up(eps, p)) >= 0 && Cross(f.r1, f.r3, Up(eps, p)) < 0
    requires f.lowerStart <= i < |f.lower| && TangentAt(LowerChain(eps, f), Mirror(Up(eps, p)), i - f.lowerStart)
    requires f.upperStart < e <= |f.upper| && PopsTo(UpperChain(eps, f), Up(eps, p), e - f.upperStart)
    ensures HalfOk(eps, pts, p,
                   f.(upper := f.upper[..e] + [p], lowerStart := i, r1 := Low(eps, f.lower[i]), r3 := Up(eps, p)))
  {
    hide Cross, Hull, PopsTo, TangentAt;
    ExtendedIncreasing(pts, p);
    UpperPushed(eps, pts, p, f, e);
    LowerShortened(eps, pts, f, i);
    ChainLeftOf(LowerChain(eps, f), Lows(eps, pts), p.x);
    assert LowerChain(eps, f)[|f.lower| - 1 - f.lowerStart] == Mirror(f.r2);
    SteepestFits(eps, pts, p, f, i);
  }

  lemma UpperPushed(eps: nat, pts: seq<Pt>, p: Pt, f: Fit, e: nat)
    requires Corners(eps, f) && Fits(eps, pts, f.r1, f.r3) && Hull(UpperChain(eps, f), Ups(eps, pts))
    requires (forall j :: 0 <= j < |pts| ==> pts[j].x < p.x) && Cross(f.r1, f.r3, Up(eps, p)) <= 0
    requires f.upperStart < e <= |f.upper| && PopsTo(UpperChain(eps, f), Up(eps, p), e - f.upperStart)
    ensures Hull(Ups(eps, (f.upper[..e] + [p])[f.upperStart..]), Ups(eps, pts + [p]))
  {
    hide Cross, Hull, AllAbove, PopsTo;
    var c, w, p1 := UpperChain(eps, f), Ups(eps, pts), Up(eps, p);
    FitsAbove(eps, pts, f.r1, f.r3);
    ChainLeftOf(c, w, p.x);
    assert c[|c| - 1] == f.r3;
    PushKeepsHull(c, w, f.r1, p1, e - f.upperStart);
    Extended(eps, pts, p);
    assert Ups(eps, (f.upper[..e] + [p])[f.upperStart..]) == c[..e - f.upperStart] + [p1];
  }

  lemma LowerShortened(eps: nat, pts: seq<Pt>, f: Fit, i: nat)
    requires f.lowerStart <= i < |f.lower| && Hull(LowerChain(eps, f), Lows(eps, pts))
    ensures Hull(Lows(eps, f.lower[i..]), Lows(eps, pts))
  {
    hide Cross, Hull;
    SuffixKeepsHull(LowerChain(eps, f), Lows(eps, pts), i - f.lowerStart);
    assert Lows(eps, f.lower[i..]) == LowerChain(eps, f)[i - f.lowerStart..];
  }

  lemma SteepestAboveLower(eps: nat, pts: seq<Pt>, p: Pt, f: Fit, i: nat, j: nat)
    requires FitOk(eps, pts, f) && j < |pts| && (forall k :: 0 <= k < |pts| ==> pts[k].x < p.x)
    requires Cross(f.r0, f.r2, Up(eps, p)) >= 0 && Cross(f.r1, f.r3, Up(eps, p)) < 0
    requires f.lowerStart <= i < |f.lower| && TangentAt(LowerChain(eps, f), Mirror(Up(eps, p)), i - f.lowerStart)
    ensures f.lower[i].x < p.x && Cross(Low(eps, f.lower[i]), Up(eps, p), Low(eps, pts[j])) <= 0
  {
    hide Cross, Hull, TangentAt;
    var p1, l := Up(eps, p), Low(eps, f.lower[i]);
    var c, w, q := LowerChain(eps, f), Lows(eps, pts), Mirror(p1);
    ChainLeftOf(c, w, p.x);
    assert c[i - f.lowerStart] == Mirror(l) && c[0] == Mirror(f.r1) && c[|c| - 1] == Mirror(f.r2);
    FitsAbove(eps, pts, f.r1, f.r3);
    FitsAbove(eps, pts, f.r0, f.r2);
    MirrorCross(f.r1, f.r3, p1);
    MirrorCross(f.r0, f.r2, p1);
    TangentSupports(c, w, q, i - f.lowerStart, Mirror(f.r3), Mirror(f.r0), j);
    MirrorCross(l, p1, Low(eps, pts[j]));
  }

  lemma LowerChainPoint(eps: nat, pts: seq<Pt>, f: Fit, i: nat) returns (k: nat)
    requires FitOk(eps, pts, f) && f.lowerStart <= i < |f.lower|
    ensures k < |pts| && pts[k] == f.lower[i]
  {
    hide Cross;
    var c, w := LowerChain(eps, f), Lows(eps, pts);
    assert c[i - f.lowerStart] == Mirror(Low(eps, f.lower[i]));
    assert c[i - f.lowerStart] in w;
    k :| 0 <= k < |w| && w[k] == c[i - f.lowerStart];
  }

  lemma SteepestFits(eps: nat, pts: seq<Pt>, p: Pt, f: Fit, i: nat)
    requires FitOk(eps, pts, f) && |pts| > 0 && pts[|pts| - 1].x < p.x
    requires Cross(f.r0, f.r2, Up(eps, p)) >= 0 && Cross(f.r1, f.r3, Up(eps, p)) < 0
    requires f.lowerStart <= i < |f.lower| && TangentAt(LowerChain(eps, f), Mirror(Up(eps, p)), i - f.lowerStart)
    ensures Fits(eps, pts + [p], Low(eps, f.lower[i]), Up(eps, p))
  {
    hide Cross, Hull, TangentAt;
    var p1, l := Up(eps, p), Low(eps, f.lower[i]);
    ExtendedIncreasing(pts, p);
    forall j | 0 <= j < |pts| ensures FitsPoint(eps, l, p1, pts[j]) {
      SteepestAboveLower(eps, pts, p, f, i, j);
      SteepestBelowUpper(eps, pts, p, f, i, j);
    }
    SteepestAboveLower(eps, pts, p, f, i, 0);
    VerticalGap(l, p1, eps);
    FitsExtended(eps, pts, p, l, p1);
  }

  lemma VerticalGap(l: Pt, p: Pt, eps: nat)
    requires l.x < p.x
    ensures Cross(l, p, p) == 0 && Cross(l, p, Pt(p.x, p.y - eps - eps)) <= 0 && Cross(l, p, Pt(p.x, p.y + eps + eps)) >= 0
  {
    var d := p.x - l.x;
    assert d * (p.y - l.y) == (p.y - l.y) * d;
    assert d * (p.y - eps - eps - l.y) == d * (p.y - l.y) - d * (eps + eps);
    assert d * (p.y + eps + eps - l.y) == d * (p.y - l.y) + d * (eps + eps);
    Mul0(d, eps + eps);
  }

  lemma SteepestBelowUpper(eps: nat, pts: seq<Pt>, p: Pt, f: Fit, i: nat, j: nat)
    requires FitOk(eps, pts, f) && j < |pts| && (forall k :: 0 <= k < |pts| ==> pts[k].x < p.x)
    requires Cross(f.r0, f.r2, Up(eps, p)) >= 0 && Cross(f.r1, f.r3, Up(eps, p)) < 0
    requires f.lowerStart <= i < |f.lower|
    ensures Cross(Low(eps, f.lower[i]), Up(eps, p), Up(eps, pts[j])) >= 0
  {
    hide Cross;
    var k := LowerChainPoint(eps, pts, f, i);
    assert FitsPoint(eps, f.r0, f.r2, pts[k]) && FitsPoint(eps, f.r1, f.r3, pts[k]);
    assert FitsPoint(eps, f.r0, f.r2, pts[j]) && FitsPoint(eps, f.r1, f.r3, pts[j]);
    Between(f.r0, f.r2, f.r1, f.r3, Up(eps, p), Low(eps, f.lower[i]), Up(eps, pts[j]));
  }

  // ----- the second half

  /** The second half, when the new lower point is on or below the flattest line: nothing moves. */
  lemma SecondHalfKept(eps: nat, pts: seq<Pt>, p: Pt, f: Fit)
    requires HalfOk(eps, pts, p, f) && Cross(f.r0, f.r2, Low(eps, p)) <= 0
    ensures FitOk(eps, pts + [p], f)
  {
    hide Cross, Hull, PopsTo, TangentAt;
    var c, w := LowerChain(eps, f), Lows(eps, pts);
    LastOfExtended(pts, p);
    Extended(eps, pts, p);
    assert c[|c| - 1] == Mirror(f.r2);
    SkipKeepsHull(c, w, Mirror(Low(eps, p)));
    FitsExtended(eps, pts, p, f.r0, f.r2);
  }

  lemma LastOfExtended(pts: seq<Pt>, p: Pt)
    requires Increasing(pts + [p])
    ensures Increasing(pts) && forall j :: 0 <= j < |pts| ==> pts[j].x < p.x
  {
    var v := pts + [p];
    forall i, j | 0 <= i < j < |pts| ensures pts[i].x < pts[j].x {
      assert v[i].x < v[j].x;
    }
    forall j | 0 <= j < |pts| ensures pts[j].x < p.x {
      assert v[j].x < v[|pts|].x;
    }
  }

  lemma SecondHalfMoved(eps: nat, pts: seq<Pt>, p: Pt, f: Fit, i: nat, e: nat)
    requires HalfOk(eps, pts, p, f) && Cross(f.r0, f.r2, Low(eps, p)) > 0
    requires f.upperStart <= i < |f.upper| && f.upper[i].x < p.x
    requires TangentAt(UpperChain(eps, f), Low(eps, p), i - f.upperStart)
    requires f.lowerStart < e <= |f.lower| && PopsTo(LowerChain(eps, f), Mirror(Low(eps, p)), e - f.lowerStart)
    ensures FitOk(eps, pts + [p],
                  f.(lower := f.lower[..e] + [p], upperStart := i, r0 := Up(eps, f.upper[i]), r2 := Low(eps, p)))
  {
    hide Cross, Hull, PopsTo, TangentAt;
    LastOfExtended(pts, p);
    LowerPushed(eps, pts, p, f, e);
    UpperShortened(eps, pts + [p], f, i);
    FlattestFits(eps, pts, p, f, i);
  }

  lemma LowerPushed(eps: nat, pts: seq<Pt>, p: Pt, f: Fit, e: nat)
    requires HalfOk(eps, pts, p, f) && Cross(f.r0, f.r2, Low(eps, p)) >= 0
    requires f.lowerStart < e <= |f.lower| && PopsTo(LowerChain(eps, f), Mirror(Low(eps, p)), e - f.lowerStart)
    ensures Hull(Lows(eps, (f.lower[..e] + [p])[f.lowerStart..]), Lows(eps, pts + [p]))
  {
    hide Cross, Hull, AllAbove, PopsTo;
    var c, w, p2 := LowerChain(eps, f), Lows(eps, pts), Mirror(Low(eps, p));
    LastOfExtended(pts, p);
    FitsAbove(eps, pts, f.r0, f.r2);
    MirrorCross(f.r0, f.r2, Low(eps, p));
    assert c[|c| - 1] == Mirror(f.r2);
    PushKeepsHull(c, w, Mirror(f.r0), p2, e - f.lowerStart);
    Extended(eps, pts, p);
    assert Lows(eps, (f.lower[..e] + [p])[f.lowerStart..]) == c[..e - f.lowerStart] + [p2];
  }

  lemma UpperShortened(eps: nat, pts: seq<Pt>, f: Fit, i: nat)
    requires f.upperStart <= i < |f.upper| && Hull(UpperChain(eps, f), Ups(eps, pts))
    ensures Hull(Ups(eps, f.upper[i..]), Ups(eps, pts))
  {
    hide Cross, Hull;
    SuffixKeepsHull(UpperChain(eps, f), Ups(eps, pts), i - f.upperStart);
    assert Ups(eps, f.upper[i..]) == UpperChain(eps, f)[i - f.upperStart..];
  }

  lemma FlattestBelowUpper(eps: nat, pts: seq<Pt>, p: Pt, f: Fit, i: nat, j: nat)
    requires HalfOk(eps, pts, p, f) && Cross(f.r0, f.r2, Low(eps, p)) > 0 && j < |pts| && pts[j].x < p.x
    requires f.upperStart <= i < |f.upper| && f.upper[i].x < p.x
    requires TangentAt(UpperChain(eps, f), Low(eps, p), i - f.upperStart)
    ensures Cross(Up(eps, f.upper[i]), Low(eps, p), Up(eps, pts[j])) >= 0
  {
    hide Cross, Hull, TangentAt;
    var v := pts + [p];
    var c, w := UpperChain(eps, f), Ups(eps, v);
    assert c[i - f.upperStart] == Up(eps, f.upper[i]) && c[0] == f.r0 && c[|c| - 1] == f.r3;
    FitsAbove(eps, pts, f.r0, f.r2);
    Extended(eps, pts, p);
    assert AllAbove(f.r0, f.r2, w);
    FitsAbove(eps, v, f.r1, f.r3);
    assert v[|pts|] == p && FitsPoint(eps, f.r1, f.r3, v[|pts|]);
    assert w[j] == Up(eps, pts[j]);
    TangentSupports(c, w, Low(eps, p), i - f.upperStart, f.r2, f.r1, j);
  }

  lemma UpperChainPoint(eps: nat, pts: seq<Pt>, p: Pt, f: Fit, i: nat) returns (k: nat)
    requires HalfOk(eps, pts, p, f) && f.upperStart <= i < |f.upper| && f.upper[i].x < p.x
    ensures k < |pts| && pts[k] == f.upper[i]
  {
    hide Cross;
    var c, w := UpperChain(eps, f), Ups(eps, pts + [p]);
    assert c[i - f.upperStart] == Up(eps, f.upper[i]);
    assert c[i - f.upperStart] in w;
    k :| 0 <= k < |w| && w[k] == c[i - f.upperStart];
  }

  lemma FlattestFits(eps: nat, pts: seq<Pt>, p: Pt, f: Fit, i: nat)
    requires HalfOk(eps, pts, p, f) && Cross(f.r0, f.r2, Low(eps, p)) > 0
    requires f.upperStart <= i < |f.upper| && f.upper[i].x < p.x
    requires TangentAt(UpperChain(eps, f), Low(eps, p), i - f.upperStart)
    ensures Fits(eps, pts + [p], Up(eps, f.upper[i]), Low(eps, p))
  {
    hide Cross, Hull, TangentAt;
    var p2, u := Low(eps, p), Up(eps, f.upper[i]);
    LastOfExtended(pts, p);
    forall j | 0 <= j < |pts| ensures FitsPoint(eps, u, p2, pts[j]) {
      FlattestBelowUpper(eps, pts, p, f, i, j);
      FlattestAboveLower(eps, pts, p, f, i, j);
    }
    VerticalGap(u, p2, eps);
    FitsExtended(eps, pts, p, u, p2);
  }

  lemma FlattestAboveLower(eps: nat, pts: seq<Pt>, p: Pt, f: Fit, i: nat, j: nat)
    requires HalfOk(eps, pts, p, f) && Cross(f.r0, f.r2, Low(eps, p)) > 0 && j < |pts| && pts[j].x < p.x
    requires f.upperStart <= i < |f.upper| && f.upper[i].x < p.x
    ensures Cross(Up(eps, f.upper[i]), Low(eps, p), Low(eps, pts[j])) <= 0
  {
    hide Cross;
    var k := UpperChainPoint(eps, pts, p, f, i);
    FitsPrefix(eps, pts, p, f.r1, f.r3);
    assert FitsPoint(eps, f.r0, f.r2, pts[k]) && FitsPoint(eps, f.r1, f.r3, pts[k]);
    assert FitsPoint(eps, f.r0, f.r2, pts[j]) && FitsPoint(eps, f.r1, f.r3, pts[j]);
    BetweenMirrored(f.r0, f.r2, f.r1, f.r3, Low(eps, p), Up(eps, f.upper[i]), Low(eps, pts[j]));
  }

  lemma FitsPrefix(eps: nat, pts: seq<Pt>, p: Pt, a: Pt, b: Pt)
    requires Fits(eps, pts + [p], a, b)
    ensures Fits(eps, pts, a, b) && FitsPoint(eps, a, b, p)
  {
    hide Cross;
    var v := pts + [p];
    assert FitsPoint(eps, a, b, v[|pts|]);
    forall j | 0 <= j < |pts| ensures FitsPoint(eps, a, b, pts[j]) {
      assert FitsPoint(eps, a, b, v[j]);
    }
  }

  lemma BetweenMirrored(a: Pt, b: Pt, c: Pt, d: Pt, p: Pt, u: Pt, l: Pt)
    requires a.x < b.x && c.x < d.x && u.x < p.x && l.x <= p.x
    requires Cross(a, b, p) > 0 && Cross(c, d, p) <= 0
    requires Cross(a, b, l) <= 0 && Cross(c, d, l) <= 0 && Cross(a, b, u) >= 0 && Cross(c, d, u) >= 0
    ensures Cross(u, p, l) <= 0
  {
    hide Cross;
    MirrorCross(a, b, p); MirrorCross(c, d, p);
    MirrorCross(a, b, u); MirrorCross(c, d, u);
    MirrorCross(a, b, l); MirrorCross(c, d, l);
    MirrorCross(u, p, l);
    Between(Mirror(c), Mirror(d), Mirror(a), Mirror(b), Mirror(p), Mirror(u), Mirror(l));
  }
}
