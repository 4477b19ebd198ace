/** Sequential histories of one leaf. */
module ElimHistory {
  import opened Elim

  function Dictionary(log: seq<Entry>): Dict {
    if log == [] then map[] else After(Dictionary(log[..|log| - 1]), log[|log| - 1].op)
  }

  /** Every operation returned what it would return if the operations ran one after the other. */
  predicate Legal(log: seq<Entry>) {
    forall i :: 0 <= i < |log| ==> log[i].res == Result(Dictionary(log[..i]), log[i].op)
  }

  predicate InTimeOrder(log: seq<Entry>) {
    forall i, j :: 0 <= i < j < |log| ==> log[i].time <= log[j].time
  }

  function InsertAt(log: seq<Entry>, q: nat, e: Entry): seq<Entry>
    requires q <= |log|
  {
    log[..q] + [e] + log[q..]
  }

  lemma InsertedAt(log: seq<Entry>, q: nat, e: Entry, i: nat)
    requires q <= |log| && i <= |log| + 1
    ensures i <= |log| ==> InsertAt(log, q, e)[i] == if i < q then log[i] else if i == q then e else log[i - 1]
    ensures i <= q ==> InsertAt(log, q, e)[..i] == log[..i]
    ensures i > q ==> InsertAt(log, q, e)[..i] == InsertAt(log[..i - 1], q, e)
  {
  }

  lemma DictionarySnoc(log: seq<Entry>, e: Entry)
    ensures Dictionary(log + [e]) == After(Dictionary(log), e.op)
  {
    assert (log + [e])[..|log|] == log;
  }

  /** An operation that changes nothing where it is put changes nothing later either. */
  lemma {:induction false} InsertNeutral(log: seq<Entry>, q: nat, e: Entry)
    requires q <= |log| && After(Dictionary(log[..q]), e.op) == Dictionary(log[..q])
    ensures Dictionary(InsertAt(log, q, e)) == Dictionary(log)
    decreases |log|
  {
    if |log| == q {
      assert log[..q] == log && InsertAt(log, q, e) == log + [e];
      DictionarySnoc(log, e);
    } else {
      var n := |log| - 1;
      var init, last := log[..n], log[n];
      assert init[..q] == log[..q] && log == init + [last];
      InsertNeutral(init, q, e);
      assert InsertAt(log, q, e) == InsertAt(init, q, e) + [last];
      DictionarySnoc(InsertAt(init, q, e), last);
      DictionarySnoc(init, last);
    }
  }

  lemma InsertLegal(log: seq<Entry>, q: nat, e: Entry)
    requires q <= |log| && Legal(log) && e.res == Result(Dictionary(log[..q]), e.op)
    requires After(Dictionary(log[..q]), e.op) == Dictionary(log[..q])
    ensures Legal(InsertAt(log, q, e)) && Dictionary(InsertAt(log, q, e)) == Dictionary(log)
  {
    var log' := InsertAt(log, q, e);
    InsertNeutral(log, q, e);
    hide InsertAt, Dictionary;
    forall i | 0 <= i < |log'| ensures log'[i].res == Result(Dictionary(log'[..i]), log'[i].op) {
      InsertedLength(log, q, e);
      InsertedAt(log, q, e, i);
      if i > q {
        assert log[..i - 1][..q] == log[..q];
        InsertNeutral(log[..i - 1], q, e);
      }
    }
  }

  lemma InsertedLength(log: seq<Entry>, q: nat, e: Entry)
    requires q <= |log|
    ensures |InsertAt(log, q, e)| == |log| + 1
  {
  }

  lemma AppendLegal(log: seq<Entry>, e: Entry)
    requires Legal(log) && e.res == Result(Dictionary(log), e.op)
    ensures Legal(log + [e]) && Dictionary(log + [e]) == After(Dictionary(log), e.op)
  {
    DictionarySnoc(log, e);
    var log' := log + [e];
    hide Dictionary;
    forall i | 0 <= i < |log'| ensures log'[i].res == Result(Dictionary(log'[..i]), log'[i].op) {
      assert log'[..i] == log[..i];
      assert i == |log| ==> log[..i] == log;
    }
  }

  /** An eliminated operation is right where it stands: directly before or after the published update. */
  lemma BesideIsRight(log: seq<Entry>, p: nat, x: Thread, k: int, v: int, tag: nat)
    requires Legal(log) && p < |log| && IsUpdate(log[p], tag, k, v) && x.op.k == k && !x.op.Get?
    requires x.pc.AcqCheck? && x.pc.el == v
    ensures var q := Beside(log, p, x.op);
            && q <= |log| && EliminatedResult(x) == Result(Dictionary(log[..q]), x.op)
            && After(Dictionary(log[..q]), x.op) == Dictionary(log[..q])
  {
    var q, e := Beside(log, p, x.op), log[p];
    var d := Dictionary(log[..p]);
    assert e.res == Result(d, e.op);
    assert log[..p + 1] == log[..p] + [e];
    DictionarySnoc(log[..p], e);
    hide Dictionary, Legal;
    assert x.op.Del? && x.op.k !in d ==> d - {x.op.k} == d;
    assert x.op.Del? ==> (d - {x.op.k}) - {x.op.k} == d - {x.op.k};
  }

  /** Its entry shares the time of the published update, so the history stays in time order. */
  lemma InsertInTimeOrder(log: seq<Entry>, p: nat, q: nat, e: Entry)
    requires InTimeOrder(log) && p < |log| && (q == p || q == p + 1) && e.time == log[p].time
    ensures InTimeOrder(InsertAt(log, q, e))
  {
    var log' := InsertAt(log, q, e);
    InsertedLength(log, q, e);
    hide InsertAt;
    forall i, j | 0 <= i < j < |log'| ensures log'[i].time <= log'[j].time {
      InsertedAt(log, q, e, i);
      InsertedAt(log, q, e, j);
    }
  }
}
