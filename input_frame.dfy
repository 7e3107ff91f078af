/** The input frame the host sends to the accelerator: a vertical band of
    bright columns on a dim background, written row by row into the byte
    buffer TxBuffer while a character preview of it is printed. */
module InputFrame {

  import opened Layout
  import opened TextGrid
  import opened Arith

  /** An element of TxBuffer (C `u8`). */
  type Byte = b: int | 0 <= b < 256

  /** Columns BAND_FIRST .. BAND_END - 1 form the bright band, whatever the width. */
  const BAND_FIRST: int := 10
  const BAND_END: int := 20
  const BAND_LEVEL: Byte := 200
  const BACKGROUND_LEVEL: Byte := 10

  predicate InBand(col: int)
  {
    BAND_FIRST <= col < BAND_END
  }

  /** The intensity the fill loop writes in column `col`. */
  function Intensity(col: int): Byte
  {
    if InBand(col) then BAND_LEVEL else BACKGROUND_LEVEL
  }

  /** The contents of TxBuffer once the fill loop is done: cell i lies in
      column i % IMG_WIDTH. */
  function Frame(g: Geometry): (f: seq<Byte>)
    ensures |f| == DataLen(g)
  {
    seq(DataLen(g), i requires 0 <= i < DataLen(g) =>
      WriteIndexCovers(g, i); Intensity(i % g.imgWidth))
  }

  /** The preview character for a byte: '#' for the band level, '.' otherwise. */
  function PreviewChar(b: Byte): char
  {
    if b == BAND_LEVEL then '#' else '.'
  }

  function PreviewCells(f: seq<Byte>): (cells: seq<char>)
    ensures |cells| == |f|
  {
    seq(|f|, i requires 0 <= i < |f| => PreviewChar(f[i]))
  }

  lemma PreviewFits(g: Geometry)
    ensures Fits(DataLen(g), g.imgWidth, g.imgWidth, 0, g.imgHeight)
  {
  }

  /** The preview printed for a buffer, line by line: IMG_HEIGHT lines, line
      `row` showing the IMG_WIDTH cells of that row. */
  function Preview(f: seq<Byte>, g: Geometry): seq<seq<char>>
    requires |f| == DataLen(g)
  {
    PreviewFits(g);
    Grid(PreviewCells(f), g.imgWidth, g.imgWidth, 0, g.imgHeight)
  }

  /** Cell (row, col) of the frame holds 200 when col is in the band and 10
      otherwise; so it is 200 exactly in the band, and every value fits a u8. */
  lemma FrameAt(g: Geometry, row: nat, col: nat)
    requires row < g.imgHeight && col < g.imgWidth
    ensures row * g.imgWidth + col < |Frame(g)|
    ensures Frame(g)[row * g.imgWidth + col] == if InBand(col) then 200 else 10
    ensures Frame(g)[row * g.imgWidth + col] == 200 <==> InBand(col)
    ensures 0 <= Frame(g)[row * g.imgWidth + col] < 256
  {
    WriteIndex(g, row, col);
  }

  /** The preview of the frame has IMG_HEIGHT lines of IMG_WIDTH characters;
      the character at (row, col) is '#' exactly when the cell written there
      is 200, which is exactly when col is in the band, and '.' otherwise. */
  lemma PreviewAt(g: Geometry, row: nat, col: nat)
    requires row < g.imgHeight && col < g.imgWidth
    ensures |Preview(Frame(g), g)| == g.imgHeight
    ensures |Preview(Frame(g), g)[row]| == g.imgWidth
    ensures row * g.imgWidth + col < |Frame(g)|
    ensures Preview(Frame(g), g)[row][col] == '#' <==> Frame(g)[row * g.imgWidth + col] == 200
    ensures Preview(Frame(g), g)[row][col] == if InBand(col) then '#' else '.'
  {
    var w := g.imgWidth;
    FrameAt(g, row, col);
    PreviewFits(g);
    GridAt(PreviewCells(Frame(g)), w, w, 0, g.imgHeight, row, col);
  }

  /** The fill loop: writes every cell of TxBuffer once, in index order, and
      returns the preview lines it prints (each ended by "\r\n"). */
  method GenerateInput(tx: array<Byte>, g: Geometry) returns (preview: seq<seq<char>>, ghost written: seq<int>)
    requires tx.Length == DataLen(g)
    modifies tx
    ensures tx[..] == Frame(g)
    ensures preview == Preview(tx[..], g)
    ensures |written| == tx.Length && forall k :: 0 <= k < |written| ==> written[k] == k
  {
    var w := g.imgWidth;
    ghost var cells := PreviewCells(Frame(g));
    preview, written := [], [];
    var row := 0;
    while row < g.imgHeight
      invariant 0 <= row <= g.imgHeight
      invariant row * w <= DataLen(g)
      invariant |written| == row * w && forall k :: 0 <= k < |written| ==> written[k] == k
      invariant forall i :: 0 <= i < row * w ==> tx[i] == Frame(g)[i]
      invariant Fits(|cells|, w, w, 0, row)
      invariant preview == Grid(cells, w, w, 0, row)
    {
      MulLeq(row + 1, g.imgHeight, w);
      var line := [];
      var col := 0;
      while col < w
        invariant 0 <= col <= w
        invariant row * w + col <= DataLen(g)
        invariant |written| == row * w + col && forall k :: 0 <= k < |written| ==> written[k] == k
        invariant forall i :: 0 <= i < row * w + col ==> tx[i] == Frame(g)[i]
        invariant line == cells[row * w .. row * w + col]
      {
        var idx := row * w + col;
        WriteIndex(g, row, col);
        if col >= 10 && col < 20 {
          tx[idx] := 200;
          line := line + "#";
        } else {
          tx[idx] := 10;
          line := line + ".";
        }
        assert cells[row * w .. idx + 1] == cells[row * w .. idx] + [cells[idx]];
        written := written + [idx];
        col := col + 1;
      }
      GridStep(cells, w, w, 0, row);
      preview := preview + [line];
      row := row + 1;
    }
    assert tx[..] == Frame(g);
  }
}
