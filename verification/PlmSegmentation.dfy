/** Greedy segmentation of a key array by the streaming fit, and its optimality. */
module PlmSegmentation {
  import opened PlmGeometry
  import opened PlmHull
  import opened PlmLines
  import opened PlmState
  import opened Plm

  /** The reported segment: a range of indices and its canonical segment. */
  datatype Piece = Piece(start: nat, end: nat, seg: Segment)

  predicate NonDecreasing(data: seq<Pt>) {
    forall i, j :: 0 <= i < j < |data| ==> data[i].x <= data[j].x
  }

  /** The pieces cover `[0, upTo)` by consecutive nonempty ranges. */
  ghost predicate Covers(pieces: seq<Piece>, upTo: nat) {
    && (forall k :: 0 <= k < |pieces| ==> pieces[k].start < pieces[k].end)
    && (forall k :: 0 < k < |pieces| ==> pieces[k].start == pieces[k - 1].end)
    && (if |pieces| == 0 then upTo == 0 else pieces[0].start == 0 && pieces[|pieces| - 1].end == upTo)
  }

  /** The range is within epsilon of a line, its segment fits it, and unless it ends the data it could not be longer. */
  ghost predicate PieceOk(eps: nat, data: seq<Pt>, piece: Piece) {
    && piece.start < piece.end <= |data|
    && Feasible(eps, data[piece.start..piece.end])
    && SegmentFits(eps, data[piece.start..piece.end], piece.seg)
    && (piece.end < |data| ==> !Feasible(eps, data[piece.start..piece.end + 1]))
  }

  ghost predicate AllOk(eps: nat, data: seq<Pt>, pieces: seq<Piece>) {
    forall k :: 0 <= k < |pieces| ==> PieceOk(eps, data, pieces[k])
  }

  lemma Extend(eps: nat, data: seq<Pt>, pieces: seq<Piece>, piece: Piece)
    requires Covers(pieces, piece.start) && piece.start < piece.end <= |data|
    ensures Covers(pieces + [piece], piece.end)
    ensures AllOk(eps, data, pieces) && PieceOk(eps, data, piece) ==> AllOk(eps, data, pieces + [piece])
  {
    hide PieceOk;
  }

  /**
   Covers every index once by consecutive ranges; on strictly increasing keys each range is
   epsilon-feasible, its segment's extreme lines fit it, and no range but the last could be longer.
   */
  method MakeSegmentation(data: seq<Pt>, eps: nat) returns (pieces: seq<Piece>)
    requires NonDecreasing(data)
    ensures Covers(pieces, |data|)
    ensures Increasing(data) ==> AllOk(eps, data, pieces)
  {
    hide FitOk, Feasible, PieceOk, AllOk, Covers, SegmentFits;
    pieces := [];
    EmptyPieces(eps, data);
    if |data| == 0 {
      return;
    }
    var start := 0;
    var p := data[0];
    var opt := new OptimalPiecewiseLinearModel(eps);
    var r := opt.AddPoint(p.x, p.y);
    OnePointFeasible(eps, p);
    SliceExtended(data, 0, 0);
    var i := 1;
    while i < |data|
      invariant 1 <= i <= |data| && start <= i && fresh(opt) && opt.Valid() && opt.epsilon == eps
      invariant Covers(pieces, start)
      invariant if opt.pts == [] then start == i < |data| else start < i && opt.lastX == p.x == data[i - 1].x
      invariant opt.held != []
      invariant Increasing(data) ==> opt.pts == data[start..i] && (start < i ==> Feasible(eps, data[start..i]))
      invariant Increasing(data) ==> AllOk(eps, data, pieces)
      decreases |data| - i, if opt.pts == [] then 0 else 1
    {
      var next := data[i];
      if i != start && next.x == p.x {
        i := i + 1;
        continue;
      }
      p := next;
      SliceExtended(data, start, i);
      r := opt.AddPoint(p.x, p.y);
      if !r.accepted {
        pieces := Report(opt, data, start, i, pieces);
        start := i;
      } else {
        i := i + 1;
      }
    }
    pieces := Report(opt, data, start, |data|, pieces);
  }

  /** The range up to `end` is reported with the segment of the points it consists of. */
  method Report(opt: OptimalPiecewiseLinearModel, data: seq<Pt>, start: nat, end: nat, pieces: seq<Piece>) returns (r: seq<Piece>)
    requires opt.Valid() && opt.held != [] && Covers(pieces, start) && start < end <= |data|
    requires Increasing(data) ==> AllOk(opt.epsilon, data, pieces) && opt.held == data[start..end] && Feasible(opt.epsilon, data[start..end])
    requires Increasing(data) && end < |data| ==> !Feasible(opt.epsilon, data[start..end + 1])
    ensures Covers(r, end)
    ensures Increasing(data) ==> AllOk(opt.epsilon, data, r)
  {
    hide FitOk, Feasible, PieceOk, AllOk, Covers, SegmentFits, Increasing;
    var seg := opt.GetSegment();
    Reported(opt.epsilon, data, start, end, seg);
    Extend(opt.epsilon, data, pieces, Piece(start, end, seg));
    r := pieces + [Piece(start, end, seg)];
  }

  lemma SliceExtended(data: seq<Pt>, i: nat, j: nat)
    requires i <= j < |data|
    ensures data[i..j] + [Pt(data[j].x, data[j].y)] == data[i..j] + [data[j]] == data[i..j + 1]
    ensures i == j ==> data[i..j + 1] == [data[j]]
  {
  }

  lemma EmptyPieces(eps: nat, data: seq<Pt>)
    ensures Covers([], 0) && AllOk(eps, data, [])
  {
  }

  lemma Reported(eps: nat, data: seq<Pt>, start: nat, end: nat, seg: Segment)
    requires start < end <= |data|
    ensures && Feasible(eps, data[start..end])
            && SegmentFits(eps, data[start..end], seg)
            && (end < |data| ==> !Feasible(eps, data[start..end + 1]))
            ==> PieceOk(eps, data, Piece(start, end, seg))
  {
    hide Feasible;
  }

  // ----- optimality

  /** Cut positions that split the data into epsilon-feasible ranges. */
  ghost predicate Segmentation(eps: nat, data: seq<Pt>, cuts: seq<nat>) {
    && |cuts| > 0 && cuts[0] == 0 && cuts[|cuts| - 1] == |data|
    && forall k :: 0 <= k < |cuts| - 1 ==> CutOk(eps, data, cuts, k)
  }

  ghost predicate CutOk(eps: nat, data: seq<Pt>, cuts: seq<nat>, k: nat)
    requires k + 1 < |cuts|
  {
    cuts[k] < cuts[k + 1] <= |data| && Feasible(eps, data[cuts[k]..cuts[k + 1]])
  }

  lemma SubrangeFeasible(eps: nat, data: seq<Pt>, a: nat, b: nat, c: nat, d: nat)
    requires a <= b <= c <= d <= |data| && Feasible(eps, data[a..d])
    ensures Feasible(eps, data[b..c])
  {
    var l :| WithinAll(l, eps, data[a..d]);
    forall j | 0 <= j < c - b ensures Within(l, eps, data[b..c][j]) {
      assert data[b..c][j] == data[a..d][j + b - a];
    }
    assert WithinAll(l, eps, data[b..c]);
  }

  /** The greedy ranges stay ahead of the ranges of any other segmentation. */
  lemma {:induction false} GreedyStaysAhead(eps: nat, data: seq<Pt>, pieces: seq<Piece>, cuts: seq<nat>, k: nat)
    requires Covers(pieces, |data|) && AllOk(eps, data, pieces) && Segmentation(eps, data, cuts)
    requires k < |pieces| && k < |cuts|
    ensures cuts[k] <= pieces[k].start
  {
    hide SegmentFits, Feasible;
    if k > 0 {
      GreedyStaysAhead(eps, data, pieces, cuts, k - 1);
      assert CutOk(eps, data, cuts, k - 1) && PieceOk(eps, data, pieces[k - 1]) && PieceOk(eps, data, pieces[k]);
      var g := pieces[k - 1];
      if cuts[k] > g.end {
        SubrangeFeasible(eps, data, cuts[k - 1], g.start, g.end + 1, cuts[k]);
      }
    }
  }

  /** No segmentation into epsilon-feasible ranges has fewer ranges than the greedy one. */
  lemma GreedyIsOptimal(eps: nat, data: seq<Pt>, pieces: seq<Piece>, cuts: seq<nat>)
    requires Covers(pieces, |data|) && AllOk(eps, data, pieces) && Segmentation(eps, data, cuts)
    ensures |pieces| <= |cuts| - 1
  {
    hide SegmentFits, Feasible;
    if |cuts| <= |pieces| {
      assert PieceOk(eps, data, pieces[|cuts| - 1]);
      GreedyStaysAhead(eps, data, pieces, cuts, |cuts| - 1);
    }
  }
}
