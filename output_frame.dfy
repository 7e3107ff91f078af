/** The output renderer: after the accelerator has written RxBuffer, the host
    scans the centre rows of its output at the output stride OUT_WIDTH and
    prints '|' for each edge sample and ' ' for every other one. */
module OutputFrame {

  import opened Layout
  import opened TextGrid
  import opened EdgeThreshold

  /** The character printed for one sample. */
  function EdgeChar(v: Int32): char
  {
    if Active(v) then '|' else ' '
  }

  function EdgeCells(s: seq<Int32>): (cells: seq<char>)
    ensures |cells| == |s|
  {
    seq(|s|, i requires 0 <= i < |s| => EdgeChar(s[i]))
  }

  /** The number of rows the scan prints, one per element of ScannedRows. */
  function ScanRows(g: Geometry): nat
  {
    |ScannedRows(g)|
  }

  lemma RenderFits(g: Geometry)
    requires ScanFits(g)
    ensures Fits(DataLen(g), g.outWidth, g.outWidth, 1, ScanRows(g))
  {
  }

  /** The lines the scan prints for a buffer: one per scanned row, line
      row - 1 showing the OUT_WIDTH samples of row `row` at stride OUT_WIDTH. */
  function Render(s: seq<Int32>, g: Geometry): seq<seq<char>>
    requires ScanFits(g) && |s| == DataLen(g)
  {
    RenderFits(g);
    Grid(EdgeCells(s), g.outWidth, g.outWidth, 1, ScanRows(g))
  }

  /** The render has one line of OUT_WIDTH characters per scanned row; the
      character for (row, col) reads the sample at row * OUT_WIDTH + col,
      inside the buffer, and is '|' exactly when that sample's magnitude is
      strictly above the cutoff. It depends on that one sample only. */
  lemma RenderAt(s: seq<Int32>, g: Geometry, row: int, col: nat)
    requires ScanFits(g) && |s| == DataLen(g)
    requires Scanned(g, row) && col < g.outWidth
    ensures |Render(s, g)| == |ScannedRows(g)|
    ensures row - 1 < |Render(s, g)| && |Render(s, g)[row - 1]| == g.outWidth
    ensures 0 <= ScanIndex(g, row, col) < |s|
    ensures Render(s, g)[row - 1][col] == '|' <==> Magnitude(s[ScanIndex(g, row, col)]) > EDGE_CUTOFF
    ensures Render(s, g)[row - 1][col] == if Active(s[ScanIndex(g, row, col)]) then '|' else ' '
  {
    RenderFits(g);
    ReadIndex(g, row, col);
    GridAt(EdgeCells(s), g.outWidth, g.outWidth, 1, ScanRows(g), row - 1, col);
  }

  /** The render loop: visits rows 1 .. valid_rows - 2 in order, reads RxBuffer
      without changing it, and returns the lines it prints (each ended by "\r\n"). */
  method RenderOutput(rx: array<Int32>, g: Geometry) returns (text: seq<seq<char>>, ghost visited: seq<int>)
    requires ScanFits(g) && rx.Length == DataLen(g)
    ensures text == Render(rx[..], g)
    ensures visited == ScannedRows(g)
  {
    var ow := g.outWidth;
    ghost var cells := EdgeCells(rx[..]);
    RenderFits(g);
    text, visited := [], [];
    var validRows := g.imgHeight as int - 2;
    var row := 1;
    while row < validRows - 1
      invariant 1 <= row && row - 1 <= ScanRows(g)
      invariant visited == ScannedRows(g)[..row - 1]
      invariant Fits(|cells|, ow, ow, 1, row - 1)
      invariant text == Grid(cells, ow, ow, 1, row - 1)
    {
      RowFits(|cells|, ow, ow, 1, ScanRows(g), row - 1);
      var line := [];
      var col := 0;
      while col < ow
        invariant 0 <= col <= ow
        invariant line == cells[row * ow .. row * ow + col]
      {
        var val: int := rx[row * ow + col];
        var absVal := if val < 0 then -val else val;
        if absVal > 100 {
          line := line + "|";
        } else {
          line := line + " ";
        }
        assert cells[row * ow .. row * ow + col + 1] == cells[row * ow .. row * ow + col] + [cells[row * ow + col]];
        col := col + 1;
      }
      GridStep(cells, ow, ow, 1, row - 1);
      text := text + [line];
      assert ScannedRows(g)[..row] == ScannedRows(g)[..row - 1] + [row];
      visited := visited + [row];
      row := row + 1;
    }
  }
}
