/** Real lines within epsilon of a set of points, and the integer lines that decide whether one exists. */
module PlmLines {
  import opened PlmGeometry

  function Up(eps: nat, p: Pt): Pt { Pt(p.x, p.y + eps) }

  function Low(eps: nat, p: Pt): Pt { Pt(p.x, p.y - eps) }

  datatype Line = Line(slope: real, intercept: real)

  function At(l: Line, x: int): real { l.slope * (x as real) + l.intercept }

  ghost predicate Within(l: Line, eps: nat, p: Pt) {
    (p.y - eps) as real <= At(l, p.x) <= (p.y + eps) as real
  }

  /** Some real line passes within `eps` of every point. */
  ghost predicate Feasible(eps: nat, pts: seq<Pt>) {
    exists l: Line :: WithinAll(l, eps, pts)
  }

  ghost predicate WithinAll(l: Line, eps: nat, pts: seq<Pt>) {
    forall j :: 0 <= j < |pts| ==> Within(l, eps, pts[j])
  }

  /** The line through `a` and `b` passes within `eps` of every point. */
  ghost predicate Fits(eps: nat, pts: seq<Pt>, a: Pt, b: Pt) {
    && a.x < b.x
    && forall j :: 0 <= j < |pts| ==> FitsPoint(eps, a, b, pts[j])
  }

  predicate FitsPoint(eps: nat, a: Pt, b: Pt, p: Pt) {
    Cross(a, b, Up(eps, p)) >= 0 && Cross(a, b, Low(eps, p)) <= 0
  }

  lemma {:induction false} RealMul(a: int, b: int)
    ensures (a * b) as real == (a as real) * (b as real)
    decreases if a < 0 then -a else a
  {
    if a > 0 {
      RealMul(a - 1, b);
      assert (a - 1) * b == a * b - b;
      assert ((a - 1) as real) * (b as real) == (a as real) * (b as real) - (b as real);
    } else if a < 0 {
      RealMul(a + 1, b);
      assert (a + 1) * b == a * b + b;
      assert ((a + 1) as real) * (b as real) == (a as real) * (b as real) + (b as real);
    }
  }

  lemma CrossReal(a: Pt, b: Pt, p: Pt)
    ensures Cross(a, b, p) as real
            == ((b.x - a.x) as real) * ((p.y - a.y) as real) - ((b.y - a.y) as real) * ((p.x - a.x) as real)
  {
    RealMul(b.x - a.x, p.y - a.y);
    RealMul(b.y - a.y, p.x - a.x);
  }

  /** The line through two integer points, as a real line. */
  function Through(a: Pt, b: Pt): Line
    requires a.x < b.x
  {
    var s := ((b.y - a.y) as real) / ((b.x - a.x) as real);
    Line(s, a.y as real - s * (a.x as real))
  }

  /** Its height over `p`, scaled by the width, is what the cross product measures. */
  lemma ThroughHeight(a: Pt, b: Pt, p: Pt)
    requires a.x < b.x
    ensures ((b.x - a.x) as real) * (p.y as real - At(Through(a, b), p.x)) == Cross(a, b, p) as real
  {
    CrossReal(a, b, p);
    var d, e, w := (b.x - a.x) as real, (b.y - a.y) as real, (p.x - a.x) as real;
    var s := e / d;
    assert d * s == e;
    assert At(Through(a, b), p.x) == a.y as real + s * w by {
      assert s * (p.x as real) - s * (a.x as real) == s * w;
    }
    var v := (p.y - a.y) as real;
    assert d * (v - s * w) == d * v - d * s * w;
  }

  lemma RealSign(d: real, v: real)
    requires d > 0.0
    ensures d * v >= 0.0 <==> v >= 0.0
    ensures d * v <= 0.0 <==> v <= 0.0
  {
  }

  lemma FitsIsWithin(eps: nat, pts: seq<Pt>, a: Pt, b: Pt)
    requires Fits(eps, pts, a, b)
    ensures WithinAll(Through(a, b), eps, pts) && Feasible(eps, pts)
  {
    hide Cross;
    var l := Through(a, b);
    forall j | 0 <= j < |pts| ensures Within(l, eps, pts[j]) {
      var p := pts[j];
      assert FitsPoint(eps, a, b, p);
      ThroughHeight(a, b, Up(eps, p));
      ThroughHeight(a, b, Low(eps, p));
      RealSign((b.x - a.x) as real, Up(eps, p).y as real - At(l, p.x));
      RealSign((b.x - a.x) as real, Low(eps, p).y as real - At(l, p.x));
    }
    assert WithinAll(l, eps, pts);
  }

  /** No line within `eps` of all points is flatter than the one through `a` and `b`, or steeper than the one through `c` and `d`. */
  ghost predicate Extreme(eps: nat, pts: seq<Pt>, a: Pt, b: Pt, c: Pt, d: Pt)
    requires a.x < b.x && c.x < d.x
  {
    forall l: Line :: WithinAll(l, eps, pts) ==> Through(a, b).slope <= l.slope <= Through(c, d).slope
  }

  /** A line that is at most `a` and then at least `b` is at least as steep as the line through them. */
  lemma AsSteep(l: Line, a: Pt, b: Pt)
    requires a.x < b.x && At(l, a.x) <= a.y as real && At(l, b.x) >= b.y as real
    ensures Through(a, b).slope <= l.slope
  {
    var s, d, e := l.slope, (b.x - a.x) as real, (b.y - a.y) as real;
    assert s * (b.x as real) - s * (a.x as real) == s * d;
    Quotient(e, d, s);
  }

  lemma Quotient(e: real, d: real, s: real)
    requires d > 0.0 && e <= s * d
    ensures e / d <= s
  {
    var q := e / d;
    assert q * d == e;
    if q > s { assert (q - s) * d > 0.0; assert (q - s) * d == q * d - s * d; }
  }

  /** The mirror image. */
  lemma AsFlat(l: Line, a: Pt, b: Pt)
    requires a.x < b.x && At(l, a.x) >= a.y as real && At(l, b.x) <= b.y as real
    ensures l.slope <= Through(a, b).slope
  {
    var m := Line(-l.slope, -l.intercept);
    MirrorAt(l, a.x);
    MirrorAt(l, b.x);
    AsSteep(m, Mirror(a), Mirror(b));
    var d, e := (b.x - a.x) as real, (b.y - a.y) as real;
    assert (-e) / d == -(e / d);
  }

  /**
   A line that is at most `a` over `a.x` and at least `b` over `b.x` is, right of `b`, at least the
   line through them; so it misses every point strictly below that line.
   */
  lemma SteeperBeyond(l: Line, a: Pt, b: Pt, p: Pt)
    requires a.x < b.x <= p.x && At(l, a.x) <= a.y as real && At(l, b.x) >= b.y as real && Cross(a, b, p) < 0
    ensures At(l, p.x) > p.y as real
  {
    CrossReal(a, b, p);
    hide Cross;
    var s, dx, dy, px, py := l.slope, (b.x - a.x) as real, (b.y - a.y) as real, (p.x - a.x) as real, (p.y - a.y) as real;
    var h := a.y as real - At(l, a.x);
    assert At(l, b.x) == At(l, a.x) + s * dx by { assert s * (b.x as real) - s * (a.x as real) == s * dx; }
    assert At(l, p.x) == At(l, a.x) + s * px by { assert s * (p.x as real) - s * (a.x as real) == s * px; }
    Slopes(s, dx, dy, px, py, h);
  }

  lemma RealMono(a: real, b: real, c: real)
    requires a <= b && c >= 0.0
    ensures a * c <= b * c
  {
    assert (b - a) * c >= 0.0;
    assert (b - a) * c == b * c - a * c;
  }

  /** A slope `s` that rises at least `dy + h` over `dx` rises more than `py + h` over the longer `px`. */
  lemma Slopes(s: real, dx: real, dy: real, px: real, py: real, h: real)
    requires 0.0 < dx <= px && 0.0 <= h && dy + h <= s * dx && dx * py < dy * px
    ensures s * px > py + h
  {
    RealMono(dy + h, s * dx, px);
    assert (dy + h) * px == dy * px + h * px;
    RealMono(dx, px, h);
    assert dx * h == h * dx && px * h == h * px;
    assert s * dx * px == dx * (s * px);
    assert dx * (py + h) == dx * py + h * dx;
    assert dx * (s * px) > dx * (py + h);
    if s * px <= py + h {
      RealMono(s * px, py + h, dx);
    }
  }

  /** The mirror image, for a line that is at least `a` and then at most `b`. */
  lemma FlatterBeyond(l: Line, a: Pt, b: Pt, p: Pt)
    requires a.x < b.x <= p.x && At(l, a.x) >= a.y as real && At(l, b.x) <= b.y as real && Cross(a, b, p) > 0
    ensures At(l, p.x) < p.y as real
  {
    var m := Line(-l.slope, -l.intercept);
    MirrorAt(l, a.x);
    MirrorAt(l, b.x);
    MirrorAt(l, p.x);
    MirrorCross(a, b, p);
    SteeperBeyond(m, Mirror(a), Mirror(b), Mirror(p));
  }

  function Mirror(p: Pt): Pt { Pt(p.x, -p.y) }

  lemma MirrorCross(a: Pt, b: Pt, p: Pt)
    ensures Cross(Mirror(a), Mirror(b), Mirror(p)) == -Cross(a, b, p)
  {
    assert (b.x - a.x) * (-p.y + a.y) == -((b.x - a.x) * (p.y - a.y));
    assert (-b.y + a.y) * (p.x - a.x) == -((b.y - a.y) * (p.x - a.x));
  }

  lemma MirrorAt(l: Line, x: int)
    ensures At(Line(-l.slope, -l.intercept), x) == -At(l, x)
  {
    assert (-l.slope) * (x as real) == -(l.slope * (x as real));
  }
}
