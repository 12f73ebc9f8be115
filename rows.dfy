/**
 * Editing one of the creation page's row tables: `addRow`, `removeRow` and
 * `update`, each producing a new list from the previous one, as every tab does.
 */
module RowEditing {
  import opened Seqs

  /** `[...p, empty]`. */
  function AddRow<R>(p: seq<R>, empty: R): (r: seq<R>)
    ensures |r| == |p| + 1
    ensures r[..|p|] == p && r[|p|] == empty
  {
    p + [empty]
  }

  /** `p.filter((_, idx) => idx !== i)`: the row at index `i` left out, if there is one. */
  function RemoveRow<R>(p: seq<R>, i: int): (r: seq<R>)
    ensures r == if 0 <= i < |p| then p[..i] + p[i + 1..] else p
  {
    if p == [] then []
    else
      var rest := RemoveRow(p[1..], i - 1);
      if i == 0 then rest
      else
        assert 0 < i < |p| ==> [p[0]] + p[1..][..i - 1] == p[..i];
        [p[0]] + rest
  }

  /** `p.map((r, idx) => idx === i ? edit(r) : r)`. */
  function UpdateRow<R>(p: seq<R>, i: int, edit: R -> R): (r: seq<R>)
    ensures |r| == |p|
    ensures forall k :: 0 <= k < |p| && k != i ==> r[k] == p[k]
    ensures 0 <= i < |p| ==> r[i] == edit(p[i])
  {
    seq(|p|, k requires 0 <= k < |p| => if k == i then edit(p[k]) else p[k])
  }

  /** The trash button is disabled on the last remaining row. */
  predicate CanRemove<R>(p: seq<R>) {
    |p| != 1
  }

  /** Removing the row just added gives back the table as it was. */
  lemma RemoveUndoesAdd<R>(p: seq<R>, empty: R)
    ensures RemoveRow(AddRow(p, empty), |p|) == p
  {
    assert (p + [empty])[..|p|] == p;
  }

  /** An edit to a row that is then removed leaves no trace. */
  lemma RemoveAfterUpdate<R>(p: seq<R>, i: int, edit: R -> R)
    ensures RemoveRow(UpdateRow(p, i, edit), i) == RemoveRow(p, i)
  {
    var u := UpdateRow(p, i, edit);
    if 0 <= i < |p| {
      assert u[..i] == p[..i];
      assert u[i + 1..] == p[i + 1..];
    } else {
      assert u == p;
    }
  }

  /** A table that has at least one row keeps one through every edit the page allows. */
  lemma EditsKeepARow<R>(p: seq<R>, empty: R, i: int, edit: R -> R)
    requires |p| >= 1
    ensures |AddRow(p, empty)| >= 1
    ensures CanRemove(p) ==> |RemoveRow(p, i)| >= 1
    ensures |UpdateRow(p, i, edit)| >= 1
  {
  }

  /** Adding a row whose amount reads as 0 leaves the table's total unchanged. */
  lemma AddRowKeepsTotal<R>(f: R -> real, p: seq<R>, empty: R)
    requires f(empty) == 0.0
    ensures Sum(f, AddRow(p, empty)) == Sum(f, p)
  {
    assert (p + [empty])[..|p|] == p;
  }

  /** Removing row `i` takes exactly that row's amount out of the total. */
  lemma RemoveRowTotal<R>(f: R -> real, p: seq<R>, i: int)
    requires 0 <= i < |p|
    ensures Sum(f, RemoveRow(p, i)) == Sum(f, p) - f(p[i])
  {
    assert p == p[..i] + ([p[i]] + p[i + 1..]);
    SumAppend(f, p[..i], [p[i]] + p[i + 1..]);
    SumCons(f, [p[i]] + p[i + 1..]);
    assert ([p[i]] + p[i + 1..])[1..] == p[i + 1..];
    SumAppend(f, p[..i], p[i + 1..]);
  }

  /** Editing row `i` changes the total by the change in that row's amount. */
  lemma UpdateRowTotal<R>(f: R -> real, p: seq<R>, i: int, edit: R -> R)
    requires 0 <= i < |p|
    ensures Sum(f, UpdateRow(p, i, edit)) == Sum(f, p) - f(p[i]) + f(edit(p[i]))
  {
    var u := UpdateRow(p, i, edit);
    RemoveRowTotal(f, p, i);
    RemoveRowTotal(f, u, i);
    RemoveAfterUpdate(p, i, edit);
  }
}
