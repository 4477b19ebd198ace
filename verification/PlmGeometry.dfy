/** Plane geometry by cross products, exact over the integers. */
module PlmGeometry {

  datatype Pt = Pt(x: int, y: int)

  /** Positive when `b` lies above the line from `o` to `a`, for `o.x < a.x`. */
  function Cross(o: Pt, a: Pt, b: Pt): int {
    (a.x - o.x) * (b.y - o.y) - (a.y - o.y) * (b.x - o.x)
  }

  lemma Mul0(a: int, b: int)
    ensures a >= 0 && b >= 0 ==> a * b >= 0
    ensures a <= 0 && b <= 0 ==> a * b >= 0
    ensures a >= 0 && b <= 0 ==> a * b <= 0
    ensures a <= 0 && b >= 0 ==> a * b <= 0
    ensures a > 0 && b > 0 ==> a * b > 0
    ensures a > 0 && b < 0 ==> a * b < 0
    ensures a < 0 && b > 0 ==> a * b < 0
    ensures a < 0 && b < 0 ==> a * b > 0
  {
  }

  lemma CrossRotates(o: Pt, a: Pt, b: Pt)
    ensures Cross(o, a, b) == Cross(a, b, o) == Cross(b, o, a)
    ensures Cross(o, b, a) == -Cross(o, a, b)
  {
  }

  lemma Distribute(a: int, b: int, c: int, d: int, e: int)
    ensures a * (b * c - d * e) == a * b * c - a * d * e
  {
    assert a * (b * c - d * e) == a * (b * c) - a * (d * e);
    assert a * (b * c) == a * b * c && a * (d * e) == a * d * e;
  }

  lemma Commute(a: int, b: int, c: int)
    ensures a * b * c == b * a * c == a * c * b == c * a * b == b * c * a == c * b * a
  {
    assert a * b == b * a && a * c == c * a && b * c == c * b;
    assert a * b * c == a * (b * c) && a * c * b == a * (c * b) && b * c * a == b * (c * a);
  }

  lemma CrossDegenerate(a: Pt, b: Pt)
    ensures Cross(a, b, a) == 0 && Cross(a, b, b) == 0
  {
    assert (b.x - a.x) * (b.y - a.y) == (b.y - a.y) * (b.x - a.x);
  }

  /** The identity behind every four-point argument below. */
  lemma FourPoints(o: Pt, p: Pt, q: Pt, r: Pt)
    ensures (p.x - o.x) * Cross(o, q, r) + (q.x - o.x) * Cross(o, r, p) + (r.x - o.x) * Cross(o, p, q) == 0
  {
    var px, py, qx, qy, rx, ry := p.x - o.x, p.y - o.y, q.x - o.x, q.y - o.y, r.x - o.x, r.y - o.y;
    Distribute(px, qx, ry, qy, rx);
    Distribute(qx, rx, py, ry, px);
    Distribute(rx, px, qy, py, qx);
    Commute(px, qx, ry);
    Commute(px, qy, rx);
    Commute(qx, rx, py);
  }

  /** `w` left of the corner `b`, above the edge from `a`; the edge stays above the line from `b` to `q`. */
  lemma AboveLeft(a: Pt, b: Pt, q: Pt, w: Pt)
    requires a.x < b.x < q.x && w.x <= b.x && Cross(a, b, w) >= 0 && Cross(b, q, a) >= 0
    ensures Cross(b, q, w) >= 0
  {
    hide Cross;
    FourPoints(b, a, q, w);
    CrossRotates(a, b, w);
    CrossRotates(b, q, a);
    Mul0(q.x - b.x, Cross(b, w, a));
    Mul0(w.x - b.x, Cross(b, a, q));
    Mul0(a.x - b.x, Cross(b, q, w));
  }

  /** `w` right of the corner `b`, above the edge to `n`; the edge stays above the line from `b` to `q`. */
  lemma AboveRight(b: Pt, n: Pt, q: Pt, w: Pt)
    requires b.x < n.x && b.x < q.x && b.x <= w.x && Cross(b, n, w) >= 0 && Cross(b, q, n) >= 0
    ensures Cross(b, q, w) >= 0
  {
    hide Cross;
    FourPoints(b, n, q, w);
    CrossRotates(b, n, w);
    CrossRotates(b, q, n);
    Mul0(q.x - b.x, Cross(b, w, n));
    Mul0(w.x - b.x, Cross(b, n, q));
    Mul0(n.x - b.x, Cross(b, q, w));
  }

  /** `w` beyond `b` above the line from `a` to `b`, `q` beyond `b` below it. */
  lemma BeyondRight(a: Pt, b: Pt, q: Pt, w: Pt)
    requires a.x < b.x < q.x && b.x <= w.x && Cross(a, b, w) >= 0 && Cross(a, b, q) <= 0
    ensures Cross(b, q, w) >= 0
  {
    hide Cross;
    FourPoints(b, a, q, w);
    CrossRotates(a, b, w);
    CrossRotates(a, b, q);
    CrossRotates(b, a, q);
    Mul0(q.x - b.x, Cross(b, w, a));
    Mul0(w.x - b.x, Cross(b, a, q));
    Mul0(a.x - b.x, Cross(b, q, w));
  }

  /** `w` left of `b` above the line from `b` to `n`, `q` right of `b` above it as well. */
  lemma BeyondLeft(b: Pt, n: Pt, q: Pt, w: Pt)
    requires b.x < n.x && b.x < q.x && w.x <= b.x && Cross(b, n, w) >= 0 && Cross(b, n, q) >= 0
    ensures Cross(b, q, w) >= 0
  {
    hide Cross;
    FourPoints(b, n, q, w);
    CrossRotates(b, n, w);
    Mul0(q.x - b.x, Cross(b, w, n));
    Mul0(w.x - b.x, Cross(b, n, q));
    Mul0(n.x - b.x, Cross(b, q, w));
  }

  /** Seen from `q`, "above the line from" is transitive among points on its left. */
  lemma AboveTransitive(a: Pt, b: Pt, c: Pt, q: Pt)
    requires a.x < q.x && b.x < q.x && c.x < q.x && Cross(b, q, a) >= 0 && Cross(c, q, b) >= 0
    ensures Cross(c, q, a) >= 0
  {
    hide Cross;
    FourPoints(q, a, b, c);
    CrossRotates(c, q, b);
    CrossRotates(b, q, a);
    CrossRotates(c, q, a);
    CrossRotates(q, c, a);
    Mul0(a.x - q.x, Cross(q, b, c));
    Mul0(c.x - q.x, Cross(q, a, b));
    Mul0(b.x - q.x, Cross(q, c, a));
  }

  /** Two left turns in a row: the end of the second edge is above the first edge's line. */
  lemma TurnsExtend(a: Pt, b: Pt, n: Pt, p: Pt)
    requires a.x < b.x < n.x <= p.x && Cross(a, b, n) >= 0 && Cross(b, n, p) >= 0
    ensures Cross(a, b, p) >= 0
  {
    hide Cross;
    FourPoints(b, a, n, p);
    CrossRotates(a, b, n);
    CrossRotates(b, a, n);
    CrossRotates(a, b, p);
    Mul0(a.x - b.x, Cross(b, n, p));
    Mul0(p.x - b.x, Cross(b, a, n));
    Mul0(n.x - b.x, Cross(b, p, a));
  }

  // ----- affine functions of a point

  function Affine(k: int, m: int, n: int, z: Pt): int { k * z.y + m * z.x + n }

  lemma AffineShift(k: int, m: int, n: int, z: Pt, o: Pt)
    ensures Affine(k, m, n, z) == Affine(k, m, n, o) + k * (z.y - o.y) + m * (z.x - o.x)
  {
    assert k * (z.y - o.y) == k * z.y - k * o.y;
    assert m * (z.x - o.x) == m * z.x - m * o.x;
  }

  lemma CrossIsAffine(a: Pt, b: Pt, z: Pt)
    ensures Cross(a, b, z) == Affine(b.x - a.x, a.y - b.y, (b.y - a.y) * a.x - (b.x - a.x) * a.y, z)
  {
    assert (b.x - a.x) * (z.y - a.y) == (b.x - a.x) * z.y - (b.x - a.x) * a.y;
    assert (b.y - a.y) * (z.x - a.x) == (b.y - a.y) * z.x - (b.y - a.y) * a.x;
    assert (a.y - b.y) * z.x == -((b.y - a.y) * z.x);
  }

  /** An affine function over the vertical at `w`, from its values at `z` and `p`. */
  lemma AffineChord(k: int, m: int, n: int, z: Pt, p: Pt, w: Pt)
    ensures (p.x - z.x) * Affine(k, m, n, w)
            == (p.x - w.x) * Affine(k, m, n, z) + (w.x - z.x) * Affine(k, m, n, p) + k * Cross(z, p, w)
  {
    AffineShift(k, m, n, w, z);
    AffineShift(k, m, n, p, z);
    var f, dx, dy, wx, wy := Affine(k, m, n, z), p.x - z.x, p.y - z.y, w.x - z.x, w.y - z.y;
    assert p.x - w.x == dx - wx;
    assert dx * (f + k * wy + m * wx) == dx * f + dx * (k * wy) + dx * (m * wx);
    assert wx * (f + k * dy + m * dx) == wx * f + wx * (k * dy) + wx * (m * dx);
    assert (dx - wx) * f == dx * f - wx * f;
    assert k * (dx * wy - dy * wx) == k * (dx * wy) - k * (dy * wx);
    Assoc(dx, k, wy);
    Assoc(wx, k, dy);
    Assoc(dx, m, wx);
    Assoc(wx, m, dx);
    assert dx * wx == wx * dx && dy * wx == wx * dy;
  }

  lemma Assoc(a: int, b: int, c: int)
    ensures a * (b * c) == b * (a * c)
  {
    assert a * (b * c) == (a * b) * c == (b * a) * c == b * (a * c);
  }

  /** A point above a chord whose ends are above a line is above the line. */
  lemma ChordAbove(a: Pt, b: Pt, z: Pt, p: Pt, w: Pt)
    requires a.x < b.x && z.x <= w.x <= p.x && z.x < p.x
    requires Cross(a, b, z) >= 0 && Cross(a, b, p) >= 0 && Cross(z, p, w) >= 0
    ensures Cross(a, b, w) >= 0
  {
    hide Cross;
    var k, m, n := b.x - a.x, a.y - b.y, (b.y - a.y) * a.x - (b.x - a.x) * a.y;
    CrossIsAffine(a, b, z);
    CrossIsAffine(a, b, p);
    CrossIsAffine(a, b, w);
    AffineChord(k, m, n, z, p, w);
    Mul0(p.x - w.x, Cross(a, b, z));
    Mul0(w.x - z.x, Cross(a, b, p));
    Mul0(k, Cross(z, p, w));
    Mul0(p.x - z.x, Cross(a, b, w));
  }

  /** A point off a line is off it on the same side for any two points of the line. */
  lemma SameLine(a: Pt, b: Pt, z: Pt, p: Pt, w: Pt)
    requires a.x < b.x && z.x < p.x && Cross(a, b, z) == 0 && Cross(a, b, p) == 0 && Cross(z, p, w) > 0
    ensures Cross(a, b, w) > 0
  {
    hide Cross;
    var k, m, n := b.x - a.x, a.y - b.y, (b.y - a.y) * a.x - (b.x - a.x) * a.y;
    CrossIsAffine(a, b, z);
    CrossIsAffine(a, b, p);
    CrossIsAffine(a, b, w);
    AffineChord(k, m, n, z, p, w);
    Mul0(k, Cross(z, p, w));
    Mul0(p.x - z.x, Cross(a, b, w));
  }

  /**
   Two lines, `p` between them on their right.  The line from `l`, below both, to `p` passes below
   every `u` above both: it is below the weighted mean of the two lines that goes through `p`.
   */
  lemma Between(a: Pt, b: Pt, c: Pt, d: Pt, p: Pt, l: Pt, u: Pt)
    requires a.x < b.x && c.x < d.x && l.x < p.x && u.x <= p.x
    requires Cross(a, b, p) >= 0 && Cross(c, d, p) <= 0 && (Cross(a, b, p) > 0 || Cross(c, d, p) < 0)
    requires Cross(a, b, l) <= 0 && Cross(c, d, l) <= 0 && Cross(a, b, u) >= 0 && Cross(c, d, u) >= 0
    ensures Cross(l, p, u) >= 0
  {
    hide Cross;
    var w1, w2 := -Cross(c, d, p), Cross(a, b, p);
    var k1, k2 := b.x - a.x, d.x - c.x;
    var X := Cross(l, p, u);
    CrossChord(a, b, l, p, u);
    CrossChord(c, d, l, p, u);
    var dl, du, dul := p.x - l.x, p.x - u.x, u.x - l.x;
    var g1 := dl * Cross(a, b, u) - du * Cross(a, b, l);
    var g2 := dl * Cross(c, d, u) - du * Cross(c, d, l);
    assert g1 == dul * w2 + k1 * X;
    assert g2 == -(dul * w1) + k2 * X by { assert dul * (-w1) == -(dul * w1); }
    Mul0(dl, Cross(a, b, u)); Mul0(du, Cross(a, b, l));
    Mul0(dl, Cross(c, d, u)); Mul0(du, Cross(c, d, l));
    Weighted(w1, w2, k1, k2, dul, X, g1, g2);
    Mul0(w1, g1); Mul0(w2, g2); Mul0(w1, k1); Mul0(w2, k2);
    Mul0(w1 * k1 + w2 * k2, X);
  }

  lemma Weighted(w1: int, w2: int, k1: int, k2: int, d: int, X: int, g1: int, g2: int)
    requires g1 == d * w2 + k1 * X && g2 == -(d * w1) + k2 * X
    ensures w1 * g1 + w2 * g2 == (w1 * k1 + w2 * k2) * X
  {
    assert w1 * g1 == w1 * (d * w2) + w1 * (k1 * X);
    assert w2 * g2 == -(w2 * (d * w1)) + w2 * (k2 * X);
    Assoc(w1, d, w2);
    Assoc(w2, d, w1);
    assert w1 * w2 == w2 * w1;
    assert (w1 * k1 + w2 * k2) * X == w1 * k1 * X + w2 * k2 * X;
    assert w1 * (k1 * X) == w1 * k1 * X && w2 * (k2 * X) == w2 * k2 * X;
  }

  lemma CrossChord(a: Pt, b: Pt, z: Pt, p: Pt, w: Pt)
    ensures (p.x - z.x) * Cross(a, b, w)
            == (p.x - w.x) * Cross(a, b, z) + (w.x - z.x) * Cross(a, b, p) + (b.x - a.x) * Cross(z, p, w)
  {
    hide Cross;
    CrossIsAffine(a, b, z);
    CrossIsAffine(a, b, p);
    CrossIsAffine(a, b, w);
    AffineChord(b.x - a.x, a.y - b.y, (b.y - a.y) * a.x - (b.x - a.x) * a.y, z, p, w);
  }
}
