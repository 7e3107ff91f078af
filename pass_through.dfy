/** The two loops composed through a stand-in device that returns each input
    byte unchanged as the output sample at the same index. The renderer reads
    at stride OUT_WIDTH what the encoder wrote at stride IMG_WIDTH, so such a
    device does not reproduce the input band in place. */
module PassThrough {

  import opened Layout
  import opened InputFrame
  import opened EdgeThreshold
  import opened OutputFrame

  /** The pass-through device: sample i is byte i of the input buffer. */
  function Echo(f: seq<Byte>): seq<Int32>
  {
    seq(|f|, i requires 0 <= i < |f| => f[i] as Int32)
  }

  /** Through the pass-through device, the character for scanned (row, col) is
      '|' exactly when input column (row * OUT_WIDTH + col) % IMG_WIDTH is in
      the band: band samples (200) are above the cutoff, background (10) is not. */
  lemma EchoRenderAt(g: Geometry, row: int, col: nat)
    requires ScanFits(g) && Scanned(g, row) && col < g.outWidth
    ensures g.imgWidth > 0
    ensures row - 1 < |Render(Echo(Frame(g)), g)| && col < |Render(Echo(Frame(g)), g)[row - 1]|
    ensures Render(Echo(Frame(g)), g)[row - 1][col] ==
            if InBand(ScanIndex(g, row, col) % g.imgWidth) then '|' else ' '
  {
    RenderAt(Echo(Frame(g)), g, row, col);
    WriteIndexCovers(g, ScanIndex(g, row, col));
  }

  /** On the board the band of scanned row `row` lies in columns
      10 + 2 * row .. 19 + 2 * row, wrapping past column 27 to the start of the
      line: it moves two columns right per row instead of staying at 10 .. 19. */
  lemma BoardEchoBand(row: int, col: nat)
    requires 1 <= row <= 6 && col < 26
    ensures row - 1 < |Render(Echo(Frame(Board)), Board)| && col < |Render(Echo(Frame(Board)), Board)[row - 1]|
    ensures Render(Echo(Frame(Board)), Board)[row - 1][col] == '|' <==>
            10 + 2 * row <= col < 20 + 2 * row || col < 2 * row - 8
  {
    BoardGeometry();
    EchoRenderAt(Board, row, col);
    var i := row * 26 + col;
    assert i % 28 == (col - 2 * row) % 28 by {
      assert i == (col - 2 * row) + 28 * row;
    }
  }
}
