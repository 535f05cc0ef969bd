/**
 * The pandas DataFrame as the analysis code uses it: named columns of equal
 * length, each numeric or not.  `Table` is a frame as a value; `DataFrame`
 * is the mutable object that `rename(..., inplace=True)` and
 * `df[name] = values` change in place.
 */
module Frames {
  import opened Numerics
  import opened Text

  /** One column: whether pandas holds it with a numeric dtype, and its cells. */
  datatype Column = Column(numeric: bool, cells: seq<Float>)

  datatype Table = Table(names: seq<string>, cols: seq<Column>, nrows: nat) {
    /** Every column has one cell per row, and one name per column. */
    predicate Valid() {
      |names| == |cols| && forall i :: 0 <= i < |cols| ==> |cols[i].cells| == nrows
    }

    predicate Has(name: string) { name in names }
  }

  /** `df[name]`: the cells of the first column called `name`. */
  function Cells(t: Table, name: string): (r: seq<Float>)
    requires t.Valid() && t.Has(name)
    ensures |r| == t.nrows
  {
    t.cols[IndexOf(t.names, name)].cells
  }

  function IsNumeric(t: Table, name: string): bool
    requires t.Valid() && t.Has(name)
  {
    t.cols[IndexOf(t.names, name)].numeric
  }

  /** `df[names]`: a frame of the named columns, in the order asked for. */
  function Pick(t: Table, names: seq<string>): (r: Table)
    requires t.Valid() && forall n :: n in names ==> n in t.names
    ensures r.Valid() && r.names == names && r.nrows == t.nrows
  {
    Table(names, seq(|names|, i requires 0 <= i < |names| => t.cols[IndexOf(t.names, names[i])]), t.nrows)
  }

  /** A numeric column whose lowercased name is not in `excluded`. */
  predicate Kept(name: string, col: Column, excluded: seq<string>) {
    col.numeric && Lower(name) !in excluded
  }

  /**
   * `[c for c in df.select_dtypes(include=[np.number]).columns if c.lower() not in excluded]`:
   * the names of the kept columns, in frame order.
   */
  function NumericExcept(names: seq<string>, cols: seq<Column>, excluded: seq<string>): seq<string>
    requires |names| == |cols|
    decreases |names|
  {
    if names == [] then []
    else
      var n := |names| - 1;
      NumericExcept(names[..n], cols[..n], excluded) + (if Kept(names[n], cols[n], excluded) then [names[n]] else [])
  }

  /** A name is kept exactly when some column of that name is numeric and its lowercased name not excluded. */
  lemma {:induction false} NumericExceptSpec(names: seq<string>, cols: seq<Column>, excluded: seq<string>)
    requires |names| == |cols|
    ensures |NumericExcept(names, cols, excluded)| <= |names|
    ensures forall x :: x in NumericExcept(names, cols, excluded) <==>
      exists i :: 0 <= i < |names| && names[i] == x && Kept(names[i], cols[i], excluded)
    decreases |names|
  {
    if names != [] {
      var n := |names| - 1;
      NumericExceptSpec(names[..n], cols[..n], excluded);
      forall x ensures x in NumericExcept(names, cols, excluded) <==>
        exists i :: 0 <= i < |names| && names[i] == x && Kept(names[i], cols[i], excluded)
      {
        if x in NumericExcept(names[..n], cols[..n], excluded) {
          var i :| 0 <= i < n && names[..n][i] == x && Kept(names[..n][i], cols[..n][i], excluded);
          assert names[i] == x && Kept(names[i], cols[i], excluded);
        }
        if i :| 0 <= i < |names| && names[i] == x && Kept(names[i], cols[i], excluded) {
          if i < n {
            assert names[..n][i] == x && Kept(names[..n][i], cols[..n][i], excluded);
          }
        }
      }
    }
  }

  /** Appending columns appends their candidates. */
  lemma {:induction false} NumericExceptAppend(
    names: seq<string>, cols: seq<Column>, more: seq<string>, extra: seq<Column>, excluded: seq<string>)
    requires |names| == |cols| && |more| == |extra|
    ensures NumericExcept(names + more, cols + extra, excluded) == NumericExcept(names, cols, excluded) + NumericExcept(more, extra, excluded)
    decreases |more|
  {
    if more == [] {
      assert names + more == names && cols + extra == cols;
    } else {
      var m := |more| - 1;
      var n := |names| + m;
      var allNames, allCols := names + more, cols + extra;
      assert allNames[..n] == names + more[..m];
      assert allCols[..n] == cols + extra[..m];
      assert allNames[n] == more[m] && allCols[n] == extra[m];
      NumericExceptAppend(names, cols, more[..m], extra[..m], excluded);
      var last := if Kept(more[m], extra[m], excluded) then [more[m]] else [];
      assert NumericExcept(allNames, allCols, excluded) == NumericExcept(allNames[..n], allCols[..n], excluded) + last;
      assert NumericExcept(more, extra, excluded) == NumericExcept(more[..m], extra[..m], excluded) + last;
      var a, b := NumericExcept(names, cols, excluded), NumericExcept(more[..m], extra[..m], excluded);
      assert (a + b) + last == a + (b + last);
    }
  }

  /** When every column is a candidate, every name is taken. */
  lemma {:induction false} NumericExceptAll(names: seq<string>, cols: seq<Column>, excluded: seq<string>)
    requires |names| == |cols|
    requires forall i :: 0 <= i < |names| ==> Kept(names[i], cols[i], excluded)
    ensures NumericExcept(names, cols, excluded) == names
    decreases |names|
  {
    if names != [] {
      var n := |names| - 1;
      NumericExceptAll(names[..n], cols[..n], excluded);
      assert names[..n] + [names[n]] == names;
    }
  }

  class DataFrame {
    var names: seq<string>
    var cols: seq<Column>
    var nrows: nat

    predicate Valid()
      reads this
    {
      Snapshot().Valid()
    }

    /** The frame's current contents as a value. */
    function Snapshot(): Table
      reads this
    {
      Table(names, cols, nrows)
    }

    constructor (t: Table)
      requires t.Valid()
      ensures Valid() && Snapshot() == t
    {
      names := t.names;
      cols := t.cols;
      nrows := t.nrows;
    }

    /** `df.copy()`: a new frame with the same contents. */
    method Copy() returns (r: DataFrame)
      requires Valid()
      ensures fresh(r) && r.Valid() && r.Snapshot() == Snapshot()
    {
      r := new DataFrame(Snapshot());
    }

    /** `df.columns = ns`: new labels, same data. */
    method SetNames(ns: seq<string>)
      requires Valid() && |ns| == |names|
      modifies this
      ensures Valid() && names == ns && cols == old(cols) && nrows == old(nrows)
    {
      names := ns;
    }

    /** `df.rename(columns={from: to}, inplace=True)`: every column called `from` is renamed. */
    method Rename(from: string, to: string)
      requires Valid()
      modifies this
      ensures Valid() && names == ReplaceAll(old(names), from, to)
      ensures cols == old(cols) && nrows == old(nrows)
    {
      names := ReplaceAll(names, from, to);
    }

    /** `df[name] = values` for a name the frame does not have yet: a column is appended. */
    method AddColumn(name: string, col: Column)
      requires Valid() && name !in names && |col.cells| == nrows
      modifies this
      ensures Valid() && names == old(names) + [name] && cols == old(cols) + [col]
      ensures nrows == old(nrows)
    {
      names := names + [name];
      cols := cols + [col];
    }
  }
}
