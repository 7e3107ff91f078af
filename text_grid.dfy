/** The console text a row-by-row loop prints, as the sequence of its lines:
    each visited row is printed as the characters of `width` consecutive cells
    and then "\r\n", which ends the line. */
module TextGrid {

  import opened Arith

  /** The `rows` rows first .. first + rows - 1, each `width` cells long at
      row stride `stride`, lie inside a buffer of n cells. */
  predicate Fits(n: nat, stride: nat, width: nat, first: nat, rows: nat)
  {
    rows == 0 || (first + rows - 1) * stride + width <= n
  }

  lemma RowFits(n: nat, stride: nat, width: nat, first: nat, rows: nat, k: nat)
    requires Fits(n, stride, width, first, rows) && k < rows
    ensures (first + k) * stride + width <= n
  {
    MulLeq(first + k, first + rows - 1, stride);
  }

  /** The line printed for row `row`: its `width` cells at stride `stride`. */
  function Line(cells: seq<char>, stride: nat, width: nat, row: nat): seq<char>
    requires row * stride + width <= |cells|
  {
    cells[row * stride .. row * stride + width]
  }

  /** The lines printed for `rows` rows starting at row `first`, where the
      character shown for cell i is cells[i]. */
  function Grid(cells: seq<char>, stride: nat, width: nat, first: nat, rows: nat): (lines: seq<seq<char>>)
    requires Fits(|cells|, stride, width, first, rows)
    ensures |lines| == rows
  {
    seq(rows, k requires 0 <= k < rows =>
      RowFits(|cells|, stride, width, first, rows, k);
      Line(cells, stride, width, first + k))
  }

  /** Line k has `width` characters, and its character c is the cell in
      column c of row first + k. */
  lemma GridAt(cells: seq<char>, stride: nat, width: nat, first: nat, rows: nat, k: nat, c: nat)
    requires Fits(|cells|, stride, width, first, rows)
    requires k < rows && c < width
    ensures (first + k) * stride + width <= |cells|
    ensures |Grid(cells, stride, width, first, rows)[k]| == width
    ensures Grid(cells, stride, width, first, rows)[k][c] == cells[(first + k) * stride + c]
  {
    RowFits(|cells|, stride, width, first, rows, k);
    assert Grid(cells, stride, width, first, rows)[k] == Line(cells, stride, width, first + k);
  }

  /** Printing one more row appends that row's line. */
  lemma GridStep(cells: seq<char>, stride: nat, width: nat, first: nat, rows: nat)
    requires (first + rows) * stride + width <= |cells|
    ensures Fits(|cells|, stride, width, first, rows)
    ensures Fits(|cells|, stride, width, first, rows + 1)
    ensures Grid(cells, stride, width, first, rows + 1) ==
            Grid(cells, stride, width, first, rows) + [Line(cells, stride, width, first + rows)]
  {
    MulLeq(first + rows - 1, first + rows, stride);
    var prev := Grid(cells, stride, width, first, rows);
    var next := Grid(cells, stride, width, first, rows + 1);
    forall k | 0 <= k < rows
      ensures next[k] == prev[k]
    {
      RowFits(|cells|, stride, width, first, rows, k);
    }
  }
}
