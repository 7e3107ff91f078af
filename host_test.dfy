/** The visual test `main` runs, reduced to its two frame loops: fill and
    preview the input frame, then render what the accelerator left in the
    output buffer. DMA set-up, the transfers, cache maintenance and the wait
    between the loops are outside this model; the output buffer's contents at
    the time of the scan are an input. */
module HostTest {

  import opened Layout
  import opened InputFrame
  import opened EdgeThreshold
  import opened OutputFrame

  /** Returns the lines the two loops print, in order. */
  method VisualTest(tx: array<Byte>, rx: array<Int32>, g: Geometry) returns (console: seq<seq<char>>)
    requires tx.Length == DataLen(g) && rx.Length == DataLen(g) && ScanFits(g)
    modifies tx
    ensures tx[..] == Frame(g)
    ensures console == Preview(Frame(g), g) + Render(rx[..], g)
  {
    var preview, output;
    ghost var written, visited;
    preview, written := GenerateInput(tx, g);
    output, visited := RenderOutput(rx, g);
    console := preview + output;
  }
}
