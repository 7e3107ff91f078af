# Frame handling of the FPGA CNN accelerator host test

This project models the host-side frame code of the visual test in
`FPGA_CNN_Accelerator/vitis/main.c`. The test drives an edge-detection
accelerator on a Zynq board over AXI DMA. The model covers the two loops of
`main` that touch frame data.

- **Input-frame encoder** (`main.c:53-65`). It fills the byte buffer `TxBuffer`
  (`TEST_DATA_LEN = IMG_WIDTH * IMG_HEIGHT = 28 * 10` cells) in row-major order
  at stride `IMG_WIDTH`. Columns 10 to 19 get 200 and every other column gets 10.
  For each cell it prints `#` or `.`, and it ends each row with `\r\n`.
- **Output renderer** (`main.c:93-114`). It scans the `int` buffer `RxBuffer`
  that the device wrote. The row stride is `OUT_WIDTH = 26`, and the rows are
  1 to `valid_rows - 2`, where `valid_rows = IMG_HEIGHT - 2`. It prints `|`
  when the sample's absolute value is strictly above 100, and ` ` otherwise.

The three size constants are fields of `Layout.Geometry`, so every bound is
proved for any sizes and then instantiated for the board (`Layout.Board`,
28/26/10). The read bounds are proved under `Layout.ScanFits`: the last
scanned row, read at stride `OUT_WIDTH`, ends inside the buffer.
`Layout.ScanFitsExact` shows that this condition holds exactly when every read
of the scan is in bounds. `Layout.NarrowOutputFits` shows that
`OUT_WIDTH <= IMG_WIDTH` is enough for it, and the board meets both.

Modules:

- `Arith`: multiplication monotonicity and uniqueness of Euclidean division.
- `Layout`: the constants, `valid_rows`, the scanned rows, and the write and read index bounds.
- `TextGrid`: the console output of a row-by-row loop, as the sequence of lines it prints. Each visited row is one line of `width` characters.
- `InputFrame`: the frame the fill loop produces, its preview, and the fill loop itself as a method on an `array<Byte>`.
- `EdgeThreshold`: the 32-bit sample type, the absolute value as the program computes it, and the intended threshold.
- `OutputFrame`: the rendered lines and the render loop as a read-only method on an `array<Int32>`.
- `PassThrough`: both loops composed through a device that echoes each input byte to the same output index.
- `HostTest`: `main`'s sequence of the two loops.

`xil_printf` is modelled by the lines each loop method returns. A line holds
the characters the loop prints for one row. The `\r\n` printed after each row
ends a line and is not stored in it. The render method has no `modifies`
clause, so Dafny guarantees that it leaves `RxBuffer` unchanged.

The code waits a fixed second instead of polling for completion. It reads the
output at stride 26 although the input was written at stride 28.
`PassThrough.BoardEchoBand` shows that an echoing device would draw the band
two columns further right on each scanned row.

## Model

| member | source | states |
|---|---|---|
| `Layout.WriteIndex` | FPGA_CNN_Accelerator/vitis/main.c:53-55 | the fill index `row * IMG_WIDTH + col` is below `TEST_DATA_LEN`, and row and column are recovered from it by `/` and `%`, so distinct cells get distinct indices |
| `Layout.WriteIndexCovers` | FPGA_CNN_Accelerator/vitis/main.c:17-19 | every index of `TxBuffer` is the fill index of exactly one in-range (row, col): `i / IMG_WIDTH`, `i % IMG_WIDTH` |
| `Layout.ValidRows` | FPGA_CNN_Accelerator/vitis/main.c:93 | `valid_rows` is the number of input rows at which a window of three rows fits inside the frame, and it is negative exactly when `IMG_HEIGHT < 2` |
| `Layout.ScannedRows` | FPGA_CNN_Accelerator/vitis/main.c:93-101 | the scan visits row k + 1 as its k-th row, each a row with `1 <= row < valid_rows - 1`, and no other row |
| `Layout.ReadIndex` | FPGA_CNN_Accelerator/vitis/main.c:101-104 | when the last scanned row ends inside the buffer, every scan read `row * OUT_WIDTH + col` is inside the buffer of `IMG_WIDTH * IMG_HEIGHT` cells, although the strides differ |
| `Layout.ScanFitsExact` | FPGA_CNN_Accelerator/vitis/main.c:17-20 | the condition the read bounds are proved under holds if and only if every read of the scan is inside `RxBuffer` |
| `Layout.NarrowOutputFits` | FPGA_CNN_Accelerator/vitis/main.c:14-17 | an output stride no wider than the input stride keeps the whole scan inside the buffer |
| `Layout.BoardGeometry` | FPGA_CNN_Accelerator/vitis/main.c:13-20 | for 28/26/10: 280 cells, `valid_rows` = 8, the scan visits exactly rows 1 to 6, every read index is at most 181, and row 6 column 25 reads index 181 |
| `InputFrame.FrameAt` | FPGA_CNN_Accelerator/vitis/main.c:55-61 | after the fill, cell (row, col) holds 200 if `10 <= col < 20` and 10 otherwise, 200 exactly in the band, always a `u8` value |
| `InputFrame.PreviewAt` | FPGA_CNN_Accelerator/vitis/main.c:53-65 | the preview has `IMG_HEIGHT` lines of `IMG_WIDTH` characters; the character at (row, col) is `#` exactly when the cell written there is 200, and it is `.` otherwise |
| `InputFrame.GenerateInput` | FPGA_CNN_Accelerator/vitis/main.c:53-65 | the fill loop leaves `TxBuffer` equal to the band frame, prints that buffer's preview, and writes every index once in increasing order |
| `EdgeThreshold.Wrap32` | FPGA_CNN_Accelerator/vitis/main.c:105 | reduction of an integer to a 32-bit `int` agrees with it modulo 2^32 and is the identity on values that fit |
| `EdgeThreshold.AbsAsWritten` | FPGA_CNN_Accelerator/vitis/main.c:105 | `abs_val` as computed in 32 bits is congruent to the true magnitude modulo 2^32, equals it for every sample except `INT_MIN`, and is `INT_MIN` for `INT_MIN` |
| `EdgeThreshold.ActiveAsWritten` | FPGA_CNN_Accelerator/vitis/main.c:105-107 | `abs_val > 100` on the computed value holds exactly for samples above 100 or below -100, except `INT_MIN` |
| `EdgeThreshold.Active` | FPGA_CNN_Accelerator/vitis/main.c:105-107 | a sample is an edge exactly when it is above 100 or below -100, so 100 and -100 are not edges |
| `EdgeThreshold.AbsAsWrittenAgrees` | FPGA_CNN_Accelerator/vitis/main.c:105 | for every sample except `INT_MIN`, `abs_val` is non-negative, equals `val` or `-val`, is the true magnitude, and gives the intended edge test |
| `EdgeThreshold.IntMinMisclassified` | FPGA_CNN_Accelerator/vitis/main.c:105-107 | at `INT_MIN` the 32-bit negation gives a negative `abs_val`, so the sample renders blank although its magnitude is above 100 |
| `EdgeThreshold.AsWrittenDiffersOnlyAtIntMin` | FPGA_CNN_Accelerator/vitis/main.c:105-107 | the threshold as computed and the intended threshold disagree on exactly one sample value, `INT_MIN` |
| `OutputFrame.RenderAt` | FPGA_CNN_Accelerator/vitis/main.c:101-114 | the render has one line of `OUT_WIDTH` characters per scanned row; the character at (row, col) reads only the in-bounds sample `row * OUT_WIDTH + col` and is `\|` exactly when its magnitude exceeds 100 |
| `OutputFrame.RenderOutput` | FPGA_CNN_Accelerator/vitis/main.c:93-114 | the render loop prints exactly the render of `RxBuffer` and visits exactly the scanned rows in order |
| `PassThrough.EchoRenderAt` | FPGA_CNN_Accelerator/vitis/main.c:53-114 | through an echoing device, scanned (row, col) shows `\|` exactly when input column `(row * OUT_WIDTH + col) % IMG_WIDTH` is in the band |
| `PassThrough.BoardEchoBand` | FPGA_CNN_Accelerator/vitis/main.c:53-114 | on the board, an echoing device draws row r's band in columns `10 + 2r` to `19 + 2r`, wrapped at 28 (so columns 0 to `2r - 9` too), not in columns 10 to 19 |
| `HostTest.VisualTest` | FPGA_CNN_Accelerator/vitis/main.c:51-114 | the test fills `TxBuffer` with the band frame and prints the preview lines followed by the rendered lines of whatever `RxBuffer` holds |

## Findings

| source | as written | input that shows it | evidently intended | confidence | as-written member | corrected member |
|---|---|---|---|---|---|---|
| FPGA_CNN_Accelerator/vitis/main.c:105 | `abs_val = (val < 0) ? -val : val` negates in 32-bit `int`. At `INT_MIN` this is signed overflow, which C leaves undefined. On a two's-complement wrap it yields `INT_MIN` again, so `abs_val > 100` is false. | a sample of -2147483648 in `RxBuffer` | the sample's magnitude, 2^31, is above 100, so it should print `\|` | medium (the behaviour is undefined, and the wrap is the usual result); not executed | `EdgeThreshold.AbsAsWritten` with `EdgeThreshold.IntMinMisclassified` | `EdgeThreshold.Active` (used by `OutputFrame.RenderOutput`) |

The render loop in the model (`OutputFrame.RenderOutput`) computes the
magnitude without overflow, in unbounded integers, which is the corrected
behaviour. `EdgeThreshold.AsWrittenDiffersOnlyAtIntMin` shows that this
changes the output for `INT_MIN` only.

## Left out

- `Init_DMA` (`main.c:23-37`): it only propagates the status of the Xilinx driver calls, and those calls are not part of this model.
- `XAxiDma_SimpleTransfer` (`main.c:73-77`): it submits a hardware DMA through the vendor library. Its status is never checked.
- `Xil_DCacheFlushRange` and `Xil_DCacheInvalidateRange` (`main.c:68-69, 88`): cache coherency is a platform effect, and the model cannot observe it.
- `sleep(1)` (`main.c:85`): a wall-clock wait for the device. Timing and concurrency with the hardware are not modelled. `RxBuffer`'s contents at the time of the scan are an arbitrary input.
- `init_platform`, `cleanup_platform` and the banner strings (`main.c:41, 44, 47, 52, 84, 90, 99, 116`): board bring-up and fixed console text.
- The accelerator's own computation: it runs on the FPGA, and its source is not part of this model.
- OutputFrame.RenderOutput: does not reproduce the 32-bit overflow of `-val` at `INT_MIN` (see Findings). That case is modelled separately by `EdgeThreshold.AbsAsWritten`.
- InputFrame.GenerateInput: the loop counters and indices are unbounded integers. With the board's sizes, every value stays far inside a C `int`.
