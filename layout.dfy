/** Frame geometry of the host test program: the sizes IMG_WIDTH, OUT_WIDTH and
    IMG_HEIGHT, the buffer length TEST_DATA_LEN derived from them, and the index
    arithmetic of the two nested loops that walk the DMA buffers. */
module Layout {

  import opened Arith

  /** The three size constants, kept as parameters so that the bounds below are
      proved for every geometry and then instantiated for the board's values. */
  datatype Geometry = Geometry(imgWidth: nat, outWidth: nat, imgHeight: nat)

  /** The configuration compiled into the program: 28 x 10 input, 26-wide output. */
  const Board: Geometry := Geometry(28, 26, 10)

  /** TEST_DATA_LEN: the element count of both TxBuffer and RxBuffer. */
  function DataLen(g: Geometry): nat
  {
    g.imgWidth * g.imgHeight
  }

  /** Input row `row` starts a window of three rows that lies inside the frame. */
  predicate WindowFits(g: Geometry, row: int)
  {
    0 <= row && row + 2 < g.imgHeight
  }

  /** valid_rows = IMG_HEIGHT - 2, a C int (negative for heights below 2): the
      number of input rows at which a window of three rows fits. */
  function ValidRows(g: Geometry): (r: int)
    ensures forall row :: WindowFits(g, row) <==> 0 <= row < r
    ensures r < 0 <==> g.imgHeight < 2
  {
    g.imgHeight as int - 2
  }

  /** The output scan runs `row = 1` while `row < valid_rows - 1`. */
  function ScanEnd(g: Geometry): int
  {
    ValidRows(g) - 1
  }

  predicate Scanned(g: Geometry, row: int)
  {
    1 <= row < ScanEnd(g)
  }

  /** The rows the output scan visits, in the order it visits them. */
  function ScannedRows(g: Geometry): (rows: seq<int>)
    ensures forall k :: 0 <= k < |rows| ==> Scanned(g, rows[k]) && rows[k] == k + 1
    ensures forall row :: Scanned(g, row) ==> row - 1 < |rows|
  {
    seq(if ScanEnd(g) <= 1 then 0 else ScanEnd(g) - 1, k => k + 1)
  }

  /** The last scanned row, read at stride OUT_WIDTH, ends inside RxBuffer.
      ScanFitsExact shows that this is exactly the condition for every read of
      the scan to be in bounds. */
  predicate ScanFits(g: Geometry)
  {
    ScanEnd(g) <= 1 || (ScanEnd(g) - 1) * g.outWidth + g.outWidth <= DataLen(g)
  }

  /** A write of the fill loop lands inside TxBuffer, and the cell (row, col)
      is recovered from its index, so distinct cells get distinct indices. */
  lemma {:induction false} WriteIndex(g: Geometry, row: nat, col: nat)
    requires row < g.imgHeight && col < g.imgWidth
    ensures row * g.imgWidth + col < DataLen(g)
    ensures (row * g.imgWidth + col) / g.imgWidth == row
    ensures (row * g.imgWidth + col) % g.imgWidth == col
  {
    var w := g.imgWidth;
    var i := row * w + col;
    assert (row + 1) * w <= g.imgHeight * w by { MulLeq(row + 1, g.imgHeight, w); }
    DivModUnique(i, w, row, col);
  }

  /** Every index of TxBuffer is written by exactly one iteration: the one with
      row = i / IMG_WIDTH and col = i % IMG_WIDTH. */
  lemma WriteIndexCovers(g: Geometry, i: nat)
    requires i < DataLen(g)
    ensures g.imgWidth > 0
    ensures i / g.imgWidth < g.imgHeight && i % g.imgWidth < g.imgWidth
    ensures (i / g.imgWidth) * g.imgWidth + i % g.imgWidth == i
  {
    var w := g.imgWidth;
    if w == 0 {
      assert false;
    }
    if i / w >= g.imgHeight {
      MulLeq(g.imgHeight, i / w, w);
      assert false;
    }
  }

  /** The index of RxBuffer the scan reads for (row, col). */
  function ScanIndex(g: Geometry, row: int, col: int): int
  {
    row * g.outWidth + col
  }

  /** A read of the output scan lands inside RxBuffer, although its stride
      OUT_WIDTH differs from the stride IMG_WIDTH the buffer was sized with. */
  lemma ReadIndex(g: Geometry, row: int, col: nat)
    requires ScanFits(g) && Scanned(g, row) && col < g.outWidth
    ensures 0 <= ScanIndex(g, row, col) < DataLen(g)
  {
    MulLeq(row, ScanEnd(g) - 1, g.outWidth);
  }

  /** ScanFits holds if and only if every read of the scan is inside RxBuffer:
      when it fails, the last column of the last scanned row is out of bounds. */
  lemma ScanFitsExact(g: Geometry)
    ensures ScanFits(g) <==>
            forall row, col :: Scanned(g, row) && 0 <= col < g.outWidth ==> ScanIndex(g, row, col) < DataLen(g)
  {
    if ScanFits(g) {
      forall row, col | Scanned(g, row) && 0 <= col < g.outWidth
        ensures ScanIndex(g, row, col) < DataLen(g)
      {
        ReadIndex(g, row, col);
      }
    } else {
      var last := ScanEnd(g) - 1;
      assert Scanned(g, last) && 0 <= g.outWidth - 1;
      assert ScanIndex(g, last, g.outWidth - 1) >= DataLen(g);
    }
  }

  /** An output stride no wider than the input stride is enough for the scan
      to stay inside RxBuffer, as on the board. */
  lemma NarrowOutputFits(g: Geometry)
    requires g.outWidth <= g.imgWidth
    ensures ScanFits(g)
  {
    if ScanEnd(g) > 1 {
      MulLeq(ScanEnd(g), g.imgHeight, g.outWidth);
      MulLeq(g.outWidth, g.imgWidth, g.imgHeight);
    }
  }

  /** For the board's sizes: 280 cells, eight valid rows, the scan visits rows
      1 to 6, every read index is at most 181, which row 6 reaches, and 181 is
      below 280. */
  lemma BoardGeometry()
    ensures DataLen(Board) == 280 && ValidRows(Board) == 8 && ScanFits(Board)
    ensures ScannedRows(Board) == [1, 2, 3, 4, 5, 6]
    ensures forall row :: Scanned(Board, row) <==> 1 <= row <= 6
    ensures forall row, col :: Scanned(Board, row) && 0 <= col < Board.outWidth ==>
              ScanIndex(Board, row, col) <= 181 < DataLen(Board)
    ensures Scanned(Board, 6) && ScanIndex(Board, 6, Board.outWidth - 1) == 181
  {
  }
}
