/**
 What one target cell of DCSS operations goes through when all of them depend on the same condition: an operation
 is installed whatever the condition, those who help look at the condition while it is installed, the outcome is
 decided by some look, which may be long past, and only then the cell gets its word back.
 */
module DcssCell {

  datatype Status = Undecided | Succeeded | Failed

  /** A plain word, or an installed operation with what helpers have seen of the condition so far. */
  datatype Cell<W> = Word(w: W) | Pending(before: W, after: W, st: Status, sawOpen: bool, sawShut: bool)

  /** The value a cell stands for: behind an operation, the old word until it has succeeded. */
  function Logical<W>(c: Cell<W>): W {
    if c.Word? then c.w else if c.st.Succeeded? then c.after else c.before
  }

  /** Someone looks at the condition for the operation in the cell. */
  function Look<W>(c: Cell<W>, open: bool): Cell<W> {
    if c.Pending? && c.st.Undecided? then
      if open then c.(sawOpen := true) else c.(sawShut := true)
    else c
  }

  predicate Installs<W(==)>(c: Cell<W>, c': Cell<W>) {
    c.Word? && c' == Pending(c.w, if c'.Pending? then c'.after else c.w, Undecided, false, false)
  }

  /** The outcome is what some look has shown. */
  predicate Decides<W(==)>(c: Cell<W>, c': Cell<W>) {
    && c.Pending? && c.st.Undecided?
    && ((c.sawOpen && c' == c.(st := Succeeded)) || (c.sawShut && c' == c.(st := Failed)))
  }

  predicate Removes<W(==)>(c: Cell<W>, c': Cell<W>) {
    c.Pending? && !c.st.Undecided? && c' == Word(Logical(c))
  }

  predicate Acts<W(==)>(c: Cell<W>, c': Cell<W>) {
    c' == c || Installs(c, c') || Decides(c, c') || Removes(c, c')
  }

  /** One step while the condition is `open`: perhaps a look, then perhaps one change of the cell. */
  predicate CellNext<W(==)>(c: Cell<W>, c': Cell<W>, open: bool) {
    Acts(c, c') || Acts(Look(c, open), c')
  }

  /** No undecided operation in the cell has seen the condition open. */
  predicate Calm<W>(c: Cell<W>) {
    !(c.Pending? && c.st.Undecided? && c.sawOpen)
  }

  /** Once the condition is shut, a calm cell stays calm and keeps its logical value. */
  lemma CalmStays<W>(c: Cell<W>, c': Cell<W>)
    requires Calm(c) && CellNext(c, c', false)
    ensures Calm(c') && Logical(c') == Logical(c)
  {
  }

  /** With the condition shut, no step changes the logical value of a cell, exactly when it is calm (or nothing would change). */
  lemma CalmIff<W>(c: Cell<W>)
    ensures (forall c' :: CellNext(c, c', false) ==> Logical(c') == Logical(c)) <==> Calm(c) || c.after == c.before
  {
    if Calm(c) || c.after == c.before {
      forall c' | CellNext(c, c', false) ensures Logical(c') == Logical(c) {
        if Calm(c) { CalmStays(c, c'); }
      }
    } else {
      var c' := c.(st := Succeeded);
      assert Decides(c, c') && CellNext(c, c', false) && Logical(c') != Logical(c);
    }
  }
}
