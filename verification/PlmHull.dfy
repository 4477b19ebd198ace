/** Convex chains below a set of points: what popping, pushing and the tangent search keep. */
module PlmHull {
  import opened PlmGeometry

  predicate Increasing(s: seq<Pt>) {
    forall i, j :: 0 <= i < j < |s| ==> s[i].x < s[j].x
  }

  /** A chain that turns left at every inner point. */
  predicate Convex(c: seq<Pt>) {
    && |c| > 0
    && Increasing(c)
    && forall i :: 0 <= i < |c| - 2 ==> TurnsLeft(c, i)
  }

  predicate TurnsLeft(c: seq<Pt>, i: nat)
    requires i + 2 < |c|
  {
    Cross(c[i], c[i + 1], c[i + 2]) > 0
  }

  predicate AboveEdge(c: seq<Pt>, i: nat, p: Pt)
    requires i + 1 < |c|
  {
    Cross(c[i], c[i + 1], p) >= 0
  }

  /** Every point of `w` within the chain's range is above the line of every edge. */
  ghost predicate Supports(c: seq<Pt>, w: seq<Pt>)
    requires |c| > 0
  {
    forall i, j :: 0 <= i < |c| - 1 && 0 <= j < |w| && c[0].x <= w[j].x <= c[|c| - 1].x ==> AboveEdge(c, i, w[j])
  }

  ghost predicate Hull(c: seq<Pt>, w: seq<Pt>) {
    && Convex(c)
    && Increasing(w)
    && (forall i :: 0 <= i < |c| ==> c[i] in w)
    && Supports(c, w)
  }

  /** `w` is on or above the line through `a` and `b`. */
  ghost predicate AllAbove(a: Pt, b: Pt, w: seq<Pt>) {
    forall j :: 0 <= j < |w| ==> Cross(a, b, w[j]) >= 0
  }

  /**
   The index found by the tangent search from `q`: the slope to `q` does not fall up to it and falls
   right after it.
   */
  predicate TangentAt(c: seq<Pt>, q: Pt, i: nat)
    requires i < |c|
  {
    && (i > 0 ==> Cross(c[i], q, c[i - 1]) >= 0)
    && (i + 1 < |c| ==> Cross(c[i], q, c[i + 1]) >= 0)
  }

  lemma TangentInRange(c: seq<Pt>, w: seq<Pt>, q: Pt, i: nat, j: nat)
    requires Hull(c, w) && i < |c| && j < |w| && c[i].x < q.x && TangentAt(c, q, i)
    requires c[0].x <= w[j].x <= c[|c| - 1].x
    ensures Cross(c[i], q, w[j]) >= 0
  {
    hide Cross;
    if w[j].x <= c[i].x {
      if i > 0 {
        assert AboveEdge(c, i - 1, w[j]);
        AboveLeft(c[i - 1], c[i], q, w[j]);
      } else {
        SameX(c, w, i, j);
        CrossDegenerate(c[i], q);
      }
    } else {
      assert AboveEdge(c, i, w[j]);
      AboveRight(c[i], c[i + 1], q, w[j]);
    }
  }

  lemma SameX(c: seq<Pt>, w: seq<Pt>, i: nat, j: nat)
    requires Hull(c, w) && i < |c| && j < |w| && c[i].x == w[j].x
    ensures c[i] == w[j]
  {
    hide Cross;
    assert c[i] in w;
    var k :| 0 <= k < |w| && w[k] == c[i];
  }

  /**
   The tangent supports every point, also those that were never put on the chain: points left of the
   chain are above the line through its start and `n`, points right of it above the line from `a`
   through its end.
   */
  lemma TangentSupports(c: seq<Pt>, w: seq<Pt>, q: Pt, i: nat, n: Pt, a: Pt, j: nat)
    requires Hull(c, w) && i < |c| && j < |w| && c[i].x < q.x && w[j].x < q.x && TangentAt(c, q, i)
    requires c[0].x < n.x && AllAbove(c[0], n, w) && Cross(c[0], n, q) >= 0
    requires c[|c| - 1].x < q.x ==> a.x < c[|c| - 1].x && AllAbove(a, c[|c| - 1], w) && Cross(a, c[|c| - 1], q) <= 0
    ensures Cross(c[i], q, w[j]) >= 0
  {
    hide Cross;
    var z := c[|c| - 1];
    if w[j].x < c[0].x {
      BeyondLeft(c[0], n, q, w[j]);
      assert c[0] in w;
      var k :| 0 <= k < |w| && w[k] == c[0];
      TangentInRange(c, w, q, i, k);
      AboveTransitive(w[j], c[0], c[i], q);
    } else if w[j].x <= z.x {
      TangentInRange(c, w, q, i, j);
    } else {
      BeyondRight(a, z, q, w[j]);
      assert z in w;
      var k :| 0 <= k < |w| && w[k] == z;
      TangentInRange(c, w, q, i, k);
      AboveTransitive(w[j], z, c[i], q);
    }
  }

  // ----- popping and pushing

  lemma {:induction false} LastAboveEdges(d: seq<Pt>, i: nat)
    requires Convex(d) && i + 1 < |d|
    ensures AboveEdge(d, i, d[|d| - 1])
    decreases |d| - i
  {
    hide Cross;
    if i + 2 < |d| {
      LastAboveEdges(d, i + 1);
      assert TurnsLeft(d, i);
      TurnsExtend(d[i], d[i + 1], d[i + 2], d[|d| - 1]);
    } else {
      CrossDegenerate(d[i], d[i + 1]);
    }
  }

  /** `e` points of the chain are kept and `p` follows them. */
  ghost predicate PopsTo(c: seq<Pt>, p: Pt, e: nat) {
    && 0 < e <= |c|
    && (e >= 2 ==> Cross(c[e - 2], c[e - 1], p) > 0)
    && (e < |c| ==> Cross(c[e - 1], c[e], p) <= 0)
  }

  lemma KeptEdgeSupports(c: seq<Pt>, w: seq<Pt>, a: Pt, p: Pt, e: nat, i: nat, j: nat)
    requires Hull(c, w) && PopsTo(c, p, e) && i + 1 < e && j < |w|
    requires a.x < c[|c| - 1].x < p.x && AllAbove(a, c[|c| - 1], w) && Cross(a, c[|c| - 1], p) <= 0
    requires c[0].x <= w[j].x <= p.x && Cross(c[i], c[i + 1], p) >= 0
    ensures AboveEdge(c, i, w[j])
  {
    hide Cross;
    var z := c[|c| - 1];
    if w[j].x > z.x {
      BeyondRight(a, z, p, w[j]);
      assert z in w;
      var k :| 0 <= k < |w| && w[k] == z;
      assert AboveEdge(c, i, w[k]);
      ChordAbove(c[i], c[i + 1], z, p, w[j]);
    }
  }

  lemma NewEdgeSupports(c: seq<Pt>, w: seq<Pt>, a: Pt, p: Pt, e: nat, j: nat)
    requires Hull(c, w) && PopsTo(c, p, e) && j < |w|
    requires a.x < c[|c| - 1].x < p.x && AllAbove(a, c[|c| - 1], w) && Cross(a, c[|c| - 1], p) <= 0
    requires c[0].x <= w[j].x <= p.x
    ensures Cross(c[e - 1], p, w[j]) >= 0
  {
    hide Cross;
    var z, b := c[|c| - 1], c[e - 1];
    if w[j].x <= b.x {
      if e >= 2 {
        CrossRotates(c[e - 2], b, p);
        assert AboveEdge(c, e - 2, w[j]);
        AboveLeft(c[e - 2], b, p, w[j]);
      } else {
        SameX(c, w, 0, j);
        CrossDegenerate(b, p);
      }
    } else if w[j].x <= z.x {
      CrossRotates(b, c[e], p);
      assert AboveEdge(c, e - 1, w[j]);
      AboveRight(b, c[e], p, w[j]);
    } else {
      BeyondRight(a, z, p, w[j]);
      if e < |c| {
        CrossRotates(b, c[e], p);
        assert z in w;
        var k :| 0 <= k < |w| && w[k] == z;
        assert AboveEdge(c, e - 1, w[k]);
        AboveRight(b, c[e], p, z);
        CrossDegenerate(b, p);
        ChordAbove(b, p, z, p, w[j]);
      }
    }
  }

  lemma PushConvex(c: seq<Pt>, p: Pt, e: nat)
    requires Convex(c) && PopsTo(c, p, e) && c[|c| - 1].x < p.x
    ensures Convex(c[..e] + [p])
  {
    hide Cross;
    var d := c[..e] + [p];
    forall i, j | 0 <= i < j < |d| ensures d[i].x < d[j].x {
      if j == e { assert c[i].x <= c[|c| - 1].x; }
    }
    forall i | 0 <= i < |d| - 2 ensures TurnsLeft(d, i) {
      if i + 2 < e { assert TurnsLeft(c, i) && d[i + 2] == c[i + 2]; } else { assert i == e - 2; }
    }
  }

  /** Popping to `e` and pushing `p` keeps a hull, now of the points with `p`. */
  lemma PushKeepsHull(c: seq<Pt>, w: seq<Pt>, a: Pt, p: Pt, e: nat)
    requires Hull(c, w) && PopsTo(c, p, e) && (forall j :: 0 <= j < |w| ==> w[j].x < p.x)
    requires a.x < c[|c| - 1].x < p.x && AllAbove(a, c[|c| - 1], w) && Cross(a, c[|c| - 1], p) <= 0
    ensures Hull(c[..e] + [p], w + [p])
  {
    hide Cross;
    var d, v := c[..e] + [p], w + [p];
    PushConvex(c, p, e);
    forall i, j | 0 <= i < |d| - 1 && 0 <= j < |v| && d[0].x <= v[j].x <= d[|d| - 1].x
      ensures AboveEdge(d, i, v[j])
    {
      LastAboveEdges(d, i);
      if j < |w| {
        assert v[j] == w[j];
        if i + 1 < e {
          KeptEdgeSupports(c, w, a, p, e, i, j);
        } else {
          NewEdgeSupports(c, w, a, p, e, j);
        }
      }
    }
    forall i | 0 <= i < |d| ensures d[i] in v {
      if i < e { assert c[i] in w; }
    }
  }

  /** Dropping the chain's start keeps a hull. */
  lemma SuffixKeepsHull(c: seq<Pt>, w: seq<Pt>, i: nat)
    requires Hull(c, w) && i < |c|
    ensures Hull(c[i..], w)
  {
    hide Cross;
    var d := c[i..];
    forall k | 0 <= k < |d| - 2 ensures TurnsLeft(d, k) {
      assert TurnsLeft(c, i + k);
    }
    forall k, j | 0 <= k < |d| - 1 && 0 <= j < |w| && d[0].x <= w[j].x <= d[|d| - 1].x
      ensures AboveEdge(d, k, w[j])
    {
      assert c[0].x <= c[i].x;
      assert AboveEdge(c, i + k, w[j]);
    }
  }

  /** A point that extends the data but not the chain, to the right of it, changes nothing. */
  lemma SkipKeepsHull(c: seq<Pt>, w: seq<Pt>, p: Pt)
    requires Hull(c, w) && (forall j :: 0 <= j < |w| ==> w[j].x < p.x) && c[|c| - 1].x < p.x
    ensures Hull(c, w + [p])
  {
    hide Cross;
    var v := w + [p];
    forall i | 0 <= i < |c| ensures c[i] in v {
      assert c[i] in w;
    }
    forall i, j | 0 <= i < |c| - 1 && 0 <= j < |v| && c[0].x <= v[j].x <= c[|c| - 1].x
      ensures AboveEdge(c, i, v[j])
    {
      assert v[j] == w[j];
    }
  }
}
