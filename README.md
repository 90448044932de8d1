# Video output capture and graphics ROM conversion, modelled in Dafny

This project models two pieces of the tooling around an FPGA
reimplementation of the arcade game 1943.

**The `VideoOut` capture engine** of the Verilator testbench
(`verilator/video_out/video_out.cpp`). The simulation calls it once per
clock tick with the sampled video bus. On every rising clock edge it does
three things:

- It tracks the beam position. The sync-driven `eval_*_HV` paths count from
  horizontal and vertical sync edges. The data-enable `eval_*_DE` paths
  count enabled samples and wrap at `hor_size` and `ver_size`.
- It writes the sample's colour into a `hor_size x ver_size` BMP:
  - RGB is masked and shifted to the configured depth.
  - YUV goes through the fixed-point `yuv2rgb` transform.
  - YUV 4:2:2 pairs two columns on one chroma pair.
  - YUV 4:2:0 buffers luma lines in a four-slot ring and chroma lines in a
    two-slot ring, then emits two output lines at a time.
- At each frame boundary it may save a snapshot `<file>_<n>.bmp` and bump
  `dump_ctr`.

Files:

- `scan_tracker.dfy` (module `ScanTracker`): the counters' per-call
  behaviour as pure step functions (`HvNext`, `DeNext`, `Yuv420Next`), plus
  lemmas over runs of calls:
  - snapshot latency and numbering;
  - the frame period of the data-enable paths;
  - the 4:2:0 rewind and ring-slot arithmetic.
- `video_out.dfy` (module `VideoOutEngine`, class `VideoOut`): the engine
  itself, written imperatively.
  - Fields hold the counters. Arrays hold the BMP, the YUV tables and the
    line rings.
  - `saved` is the list of `Saved(n)` snapshot events.
  - Every `Eval*` method is proved to update the counters exactly as the
    matching step function says. It is also proved to paint exactly the
    pixels it should and to log exactly the snapshots it should.
- `color_convert.dfy` (module `ColorConvert`): the RGB channel and `yuv2rgb`
  arithmetic.

**The bit-plane tile converter `gfx_convert_CCW`** of the ROM conversion
tool (`conv_gfx/main.c`). It reads planar tiles through a `gfx_layout` and
emits 16-bit words, each holding four 4-bit pixels. Each tile is walked
column by column from the right-most column, which rotates it
counter-clockwise.

- `gfx_convert.dfy` (module `GfxConvert`) contains:
  - the five declared layouts;
  - the imperative converter `ConvertCcw`, proved equal to the reference
    `Converted`;
  - lemmas on bit addressing, nibble packing, the output index and length,
    and the exact fit of each layout to its ROM image.
- `bits.dfy` (module `Bits`) holds the 16-bit wrap-around and the bit
  operations on naturals that both parts share.

## Model

| member | source | states |
|---|---|---|
| Bits.Wrap16 | verilator/video_out/video_out.cpp:214-215 | `hcount++` on a 16-bit counter keeps values below 2^16 and wraps 2^16 to 0 |
| Bits.BitAndLowMask | verilator/video_out/video_out.cpp:43 | masking with `2^k - 1` keeps exactly the value modulo 2^k |
| Bits.BitAndTwo | verilator/video_out/video_out.cpp:53 | `n & 2` is 2 exactly when bit 1 of n is set |
| Bits.LowTwoBits | conv_gfx/main.c:179 | `y & 3` is y mod 4, so the emit test is `y mod 4 == 3` |
| ColorConvert.RgbChannelValue | verilator/video_out/video_out.cpp:136-138 | `(v & mask) << shift` keeps the low `8 - shift` bits of v and moves them to the top of the byte; the low `shift` bits are 0 and the channel is at most 255 |
| ColorConvert.Clamp | verilator/video_out/video_out.cpp:669-671 | a component in [0, 255] is kept, a negative one becomes 0 and one above 255 becomes 255 |
| ColorConvert.ClampedShiftRounding | verilator/video_out/video_out.cpp:665-671 | after clamping, `>> 7` (floor) and C's truncating division by 128 agree for every int |
| ColorConvert.Yuv2RgbTruncating | verilator/video_out/video_out.cpp:650-674 | `yuv2rgb` of (lum, cb, cr) equals the reference transform of the masked and shifted samples (luma scaled by 128) computed with C's truncating division: the pixel does not depend on how `>> 7` rounds |
| ColorConvert.NeutralChromaIsGrey | verilator/video_out/video_out.cpp:661-671 | mid-scale Cb and Cr (masked value 128) give R = clamp(y + 1), G = clamp(y - 1), B = clamp(y) for every luma |
| ColorConvert.MidScaleExample | verilator/video_out/video_out.cpp:661-671 | at depth 8, YUV (128, 128, 128) converts to RGB (129, 127, 128) |
| ScanTracker.HvTarget | verilator/video_out/video_out.cpp:130-141 | a sample is written iff `ver_offs <= vcount < ver_offs + ver_size` and `hor_offs <= hcount < hor_offs + hor_size`; it lands at (hcount - hor_offs, vcount - ver_offs), inside the BMP |
| ScanTracker.HvNext | verilator/video_out/video_out.cpp:127-179 | without a rising clock edge only `prev_clk` changes; with one, `prev_vs` and `prev_hs` are recorded; a VS edge zeroes vcount and leaves hcount at 0 with an HS edge, or 1 without one; `dump_ctr` moves exactly when an armed VS edge saves; saving is armed at a VS edge only with a file name; the 4:2:0 counters never change |
| ScanTracker.HvEdges | verilator/video_out/video_out.cpp:144-177 | the VS edge is handled before the HS edge: a VS edge leaves vcount 0, hcount is 0 after an HS edge and one more than after the VS step otherwise; the sync levels are recorded and the 4:2:0 counters untouched |
| ScanTracker.VsEdgeStep | verilator/video_out/video_out.cpp:144-162 | without a VS edge nothing changes; with one hcount and vcount are 0, `dump_ctr` moves only if saving was already armed, and saving is armed only with a file name; no other field changes |
| ScanTracker.HsEdgeStep | verilator/video_out/video_out.cpp:164-174 | an HS edge zeroes hcount, otherwise hcount increments (16-bit); vcount moves, by one, exactly at an HS edge after more than four samples; no other field changes |
| ScanTracker.HvLineEdge | verilator/video_out/video_out.cpp:165-174 | without a VS edge, an HS edge zeroes hcount and bumps vcount only if hcount > 4; otherwise hcount increments (16-bit) |
| ScanTracker.HvSnapshotLatency | verilator/video_out/video_out.cpp:145-162 | over any run of HV calls with n frame boundaries: with a file name, n saves if saving was armed before and n - 1 if it was not; without a file name, none; the snapshots are numbered consecutively from `dump_ctr` |
| ScanTracker.HvSessionSnapshots | verilator/video_out/video_out.cpp:145-162 | from construction, a session with n > 0 VS edges saves snapshots 0 .. n - 2; the first VS edge never saves |
| ScanTracker.DeAdvance | verilator/video_out/video_out.cpp:214-239 | an enabled sample keeps the position inside the frame; saving is armed at the boundary (with a file name) before it is tested, and `dump_ctr` moves by one when it saves |
| ScanTracker.DeNext | verilator/video_out/video_out.cpp:201-243 | a call without a rising edge or without data enable changes nothing but `prev_clk`; an enabled one keeps the position inside the frame |
| ScanTracker.PositionBelowArea | verilator/video_out/video_out.cpp:212 | the write position `vcount * hor_size + hcount` lies in the frame |
| ScanTracker.DeAdvancePosition | verilator/video_out/video_out.cpp:214-239 | an enabled sample is a boundary iff it is the last of the frame; the raster position advances by one and returns to 0 after the boundary |
| ScanTracker.DeFramePeriod | verilator/video_out/video_out.cpp:214-239 | after k enabled samples the position is (start + k) mod (hor_size * ver_size), and the boundaries seen are (start + k) div (hor_size * ver_size) |
| ScanTracker.DeFrameLength | verilator/video_out/video_out.cpp:214-239 | from (0, 0), exactly the `hor_size * ver_size`-th enabled sample is the next frame boundary, and it returns to (0, 0) |
| ScanTracker.DeSnapshotCount | verilator/video_out/video_out.cpp:223-237 | over any run of DE calls, every frame boundary saves when a file name is given (the first one included) and none do otherwise; snapshots are numbered consecutively |
| ScanTracker.LineAdvance | verilator/video_out/video_out.cpp:566-571 | inside a line, one stored sample advances the column by one, or at the line's end returns it to 0 and moves the line counter by one (16-bit); the column stays below `hor_size` |
| ScanTracker.LineAdvancePosition | verilator/video_out/video_out.cpp:566-571 | one stored sample moves the raster position `vcount * hor_size + hcount` on by exactly one |
| ScanTracker.Yuv420Input | verilator/video_out/video_out.cpp:563-582 | the luma counters advance as one LineAdvance exactly when `de_y` is set and stay put otherwise, and likewise the chroma counters with `de_c`; nothing else changes and the counters stay inside a line |
| ScanTracker.Yuv420Next | verilator/video_out/video_out.cpp:560-635 | without a rising edge only `prev_clk` changes; hcount and the sync levels never change; `dump_ctr` moves by one exactly when a ready frame boundary saves |
| ScanTracker.Yuv420Emit | verilator/video_out/video_out.cpp:613-619 | inside the frame the output line moves by exactly 2 and the ring line counters stay; at the frame's end vcount is 0 and the ring line counters are rewound by `ver_size` and `ver_size / 2`, exactly (without wrap-around) once the rings hold the lines just emitted |
| ScanTracker.Yuv420RewindExact | verilator/video_out/video_out.cpp:585-616 | at a 4:2:0 frame boundary `vcount1 >= ver_size` and `2 * vcount2 >= ver_size`, so both rewinds are exact subtractions without wrap; the 4:2:0 counters stay valid |
| ScanTracker.LumaWriteSlot | verilator/video_out/video_out.cpp:565 | luma goes to ring slot `vcount1 & 3` = vcount1 mod 4 |
| ScanTracker.ChromaWriteSlot | verilator/video_out/video_out.cpp:575 | chroma goes to ring slot `vcount2 & 1` = vcount2 mod 2 |
| ScanTracker.UpperLumaSlot | verilator/video_out/video_out.cpp:595 | `(vcount1 & 2) ^ 2` is an even slot below 4 |
| ScanTracker.LowerLumaSlot | verilator/video_out/video_out.cpp:601 | `(vcount1 & 2) ^ 3` is the slot after the upper one |
| ScanTracker.ChromaReadSlot | verilator/video_out/video_out.cpp:592-593 | `(vcount2 & 1) ^ 1` is the chroma slot not being written |
| ScanTracker.LumaReadSlots | verilator/video_out/video_out.cpp:595-604 | when `vcount1 - vcount` is 2 or 3, the slots read are those of output lines vcount and vcount + 1 |
| ScanTracker.ChromaReadLine | verilator/video_out/video_out.cpp:585-593 | when ready, the chroma slot read is that of chroma line `vcount2 - 1` |
| VideoOutEngine.PaintWrites | verilator/video_out/video_out.cpp:130-141 | a single-pixel sample changes exactly the pixel at its position and nothing else |
| VideoOutEngine.DepthMask | verilator/video_out/video_out.cpp:41-50 | for depth <= 8, `bit_mask = 2^depth - 1` and `bit_shift = 8 - depth`; otherwise 0xFF and 0 |
| VideoOutEngine.Yuv422Writes | verilator/video_out/video_out.cpp:409-426 | an even column writes nothing; an odd column x writes columns x - 1 and x of its line |
| VideoOutEngine.Yuv422SharedChroma | verilator/video_out/video_out.cpp:409-426 | an even sample followed by the odd one paints both pixels with Cb of the first sample and Cr of the second, the left one with the first sample's luma |
| VideoOutEngine.VideoOut.MakeTables | verilator/video_out/video_out.cpp:81-87 | entry i of the tables is 44i, 226i, 180i and 91i |
| VideoOutEngine.VideoOut.constructor | verilator/video_out/video_out.cpp:38-95 | depth gives mask and shift as DepthMask; polarity bit 0 selects the HS level and bit 1 the VS level; sizes and offsets are kept; every counter is cleared; nothing is saved; saving can be armed only with a non-empty file name |
| VideoOutEngine.VideoOut.GetHcount | verilator/video_out/video_out.cpp:640-643 | returns hcount |
| VideoOutEngine.VideoOut.GetVcount | verilator/video_out/video_out.cpp:645-648 | returns vcount |
| VideoOutEngine.VideoOut.Yuv2RgbLookup | verilator/video_out/video_out.cpp:650-674 | the table-driven `yuv2rgb` equals the fixed-point transform R = clamp((y + 180v - 22906) >> 7), G = clamp((y - 44u - 91v + 17264) >> 7), B = clamp((y + 226u - 28928) >> 7); table indices stay in [0, 255] |
| VideoOutEngine.VideoOut.SaveSnapshot | verilator/video_out/video_out.cpp:152-160 | an armed save logs `Saved(dump_ctr)` and increments `dump_ctr` by one; nothing else changes |
| VideoOutEngine.VideoOut.VerticalEdge | verilator/video_out/video_out.cpp:145-162 | a VS edge returns the `dump_act` held before it, zeroes both counters, saves if armed, then arms saving when there is a file name |
| VideoOutEngine.VideoOut.HorizontalEdge | verilator/video_out/video_out.cpp:165-174 | updates the counters as HsEdgeStep |
| VideoOutEngine.VideoOut.SyncEdges | verilator/video_out/video_out.cpp:145-177 | VS then HS, then the sync levels are recorded |
| VideoOutEngine.VideoOut.ArmAndSave | verilator/video_out/video_out.cpp:223-237 | at a DE frame end, saving is armed (with a file name) before it is read, so the first boundary already saves |
| VideoOutEngine.VideoOut.EnableCount | verilator/video_out/video_out.cpp:214-239 | the counters move as DeAdvance; returns 1 and logs one snapshot exactly at an armed frame boundary |
| VideoOutEngine.VideoOut.Put | verilator/video_out/video_out.cpp:212 | writes exactly one BMP pixel |
| VideoOutEngine.VideoOut.Grab | verilator/video_out/video_out.cpp:130-141 | the window test: the BMP changes exactly at HvTarget |
| VideoOutEngine.VideoOut.EvalRgb444Hv | verilator/video_out/video_out.cpp:110-182 | counters as HvNext; returns 1 and logs `Saved(dump_ctr)` exactly when an armed VS edge saves; the BMP changes only at the in-window sample position, to the masked and shifted RGB |
| VideoOutEngine.VideoOut.EvalRgb444De | verilator/video_out/video_out.cpp:185-245 | counters as DeNext; an enabled sample paints (hcount, vcount) and nothing else; return value and snapshot log follow DeSaves |
| VideoOutEngine.VideoOut.EvalYuv444Hv | verilator/video_out/video_out.cpp:248-320 | as EvalRgb444Hv, with the pixel converted by yuv2rgb |
| VideoOutEngine.VideoOut.EvalYuv444De | verilator/video_out/video_out.cpp:323-383 | as EvalRgb444De, with the pixel converted by yuv2rgb |
| VideoOutEngine.VideoOut.Yuv422Sample | verilator/video_out/video_out.cpp:409-426 | an even column latches (y0, u0) := (luma, chroma) and writes nothing; an odd column writes the pair as Yuv422Writes |
| VideoOutEngine.VideoOut.Yuv422Grab | verilator/video_out/video_out.cpp:405-428 | the 4:2:2 logic is applied only in the active window, at the relative column |
| VideoOutEngine.VideoOut.EvalYuv422Hv | verilator/video_out/video_out.cpp:386-468 | counters and snapshots as HvNext; the latch and the BMP change as the 4:2:2 logic at the in-window sample position |
| VideoOutEngine.VideoOut.Yuv422Enabled | verilator/video_out/video_out.cpp:489-535 | an enabled 4:2:2 sample applies the pair logic at (hcount, vcount), then advances as DeAdvance |
| VideoOutEngine.VideoOut.EvalYuv422De | verilator/video_out/video_out.cpp:471-541 | counters and snapshots as DeNext; the latch and the BMP change as the 4:2:2 logic at the enabled sample's position |
| VideoOutEngine.VideoOut.StoreLuma | verilator/video_out/video_out.cpp:563-572 | writes the luma sample into slot `vcount1 & 3` at column hcount1 and nothing else; advances as LineAdvance |
| VideoOutEngine.VideoOut.StoreChroma | verilator/video_out/video_out.cpp:573-582 | writes the chroma sample into slot `vcount2 & 1` at column hcount2 and nothing else; advances as LineAdvance |
| VideoOutEngine.VideoOut.PaintPixel | verilator/video_out/video_out.cpp:595-596 | one 4:2:0 output pixel is yuv2rgb of its ring luma and the chroma pair of its column pair; no other pixel changes |
| VideoOutEngine.VideoOut.PaintNeighbours | verilator/video_out/video_out.cpp:592-599 | columns i and i + 1 of a line use the same Cb, Cr pair `c[i]`, `c[i + 1]` |
| VideoOutEngine.VideoOut.EmitColumnPair | verilator/video_out/video_out.cpp:592-605 | one loop iteration paints the 2x2 block at columns i, i + 1 of lines vcount, vcount + 1 from one chroma pair |
| VideoOutEngine.VideoOut.EmitLinePair | verilator/video_out/video_out.cpp:590-606 | the loop paints every pixel of output lines vcount and vcount + 1 and nothing else |
| VideoOutEngine.VideoOut.LinePairDone | verilator/video_out/video_out.cpp:610-632 | vcount advances by 2; at `ver_size` it returns to 0, the ring bases rewind and a snapshot is saved with saving armed first |
| VideoOutEngine.VideoOut.StoreSamples | verilator/video_out/video_out.cpp:563-582 | luma and chroma go into their rings only when their data enables are set; counters as Yuv420Input |
| VideoOutEngine.VideoOut.EmitLines | verilator/video_out/video_out.cpp:585-633 | output lines vcount, vcount + 1 are painted from the upper and lower luma slots and the chroma slot not being written; counters as Yuv420Emit |
| VideoOutEngine.VideoOut.EmitIfReady | verilator/video_out/video_out.cpp:585-633 | lines are emitted only when `vcount1 - vcount >= 2` and `2 * vcount2 - vcount >= 2` (in int) |
| VideoOutEngine.VideoOut.Yuv420Clocked | verilator/video_out/video_out.cpp:563-633 | a rising edge stores the samples, then emits two lines if ready |
| VideoOutEngine.VideoOut.EvalYuv420De | verilator/video_out/video_out.cpp:544-638 | counters and snapshots as Yuv420Next; ring writes only on a rising edge with data enable; the BMP changes exactly on lines vcount and vcount + 1 when the call emits |
| GfxConvert.Pad | conv_gfx/main.c:53-55 | a short array initializer is the given entries followed by zeros |
| GfxConvert.PlaneBits | conv_gfx/main.c:173-178 | the planes sampled so far form a 4-bit value |
| GfxConvert.TileBase | conv_gfx/main.c:186 | advancing the source pointer by `charincrement >> 3` once per element puts element t at byte `t * (charincrement >> 3)` |
| GfxConvert.ByteIndex | conv_gfx/main.c:175-176 | byte `bit >> 3` after the element's base holds bit `bit` of the element: it covers bits `8 * i` .. `8 * i + 7` |
| GfxConvert.SampleBit | conv_gfx/main.c:175-177 | a plane bit is set only when its byte lies inside the image |
| GfxConvert.Pixel | conv_gfx/main.c:171-178 | a pixel is a 4-bit value |
| GfxConvert.WordsPerColumn | conv_gfx/main.c:169-183 | a column emits `height / 4` words; a partial group of rows at the bottom is never emitted |
| GfxConvert.ColumnWords | conv_gfx/main.c:169-183 | n words of a column are n long |
| GfxConvert.AccumulatedWord | conv_gfx/main.c:171-183 | after row 4k + 3 the accumulator is exactly word k (rows 4k .. 4k + 3, earliest in bits 3..0), whatever it held before: nothing carries over |
| GfxConvert.FourShifts | conv_gfx/main.c:171 | four nibble shifts of a 16-bit word push out all old contents |
| GfxConvert.ShiftIn | conv_gfx/main.c:171-177 | for a 4-bit pixel, the new top nibble is the pixel and the low twelve bits are the old word's top twelve |
| GfxConvert.Word | conv_gfx/main.c:171-183 | nibble j of word k is the pixel of row 4k + j: the earliest row in bits 3..0, the latest in bits 15..12 |
| GfxConvert.PlaneBitInTopNibble | conv_gfx/main.c:177 | plane p's bit `0x8000 >> p` is bit `3 - p` of the top nibble |
| GfxConvert.PlaneStep | conv_gfx/main.c:173-178 | one plane iteration sets `0x8000 >> p` exactly when the plane's bit is set |
| GfxConvert.SampleRow | conv_gfx/main.c:171-178 | the row body leaves `(word >> 4)` with the row's pixel in the top nibble |
| GfxConvert.EmitWord | conv_gfx/main.c:179-183 | the word emitted at row 4k + 3 is the column's word k |
| GfxConvert.RowGroup | conv_gfx/main.c:179 | `y % 4 == 3` (equal to `(y & 3) == 3` by LowTwoBits) ends a group of four rows |
| GfxConvert.ConvertColumn | conv_gfx/main.c:169-184 | the row loop of a column emits exactly the column's `height / 4` words |
| GfxConvert.ConvertCcw | conv_gfx/main.c:144-188 | the converter's output equals the reference conversion: elements in order, columns right to left, rows top to bottom |
| GfxConvert.ColumnWordsIndex | conv_gfx/main.c:179-183 | position k of a column's words is word k |
| GfxConvert.ColumnsDoneLength | conv_gfx/main.c:167-185 | c columns emit `c * height / 4` words |
| GfxConvert.TilesUpToLength | conv_gfx/main.c:165-187 | n elements emit `n * width * height / 4` words |
| GfxConvert.ColumnIndex | conv_gfx/main.c:167-183 | the position of word k of the j-th column emitted lies inside its element |
| GfxConvert.ColumnsDoneIndex | conv_gfx/main.c:167-185 | word k of the j-th column emitted (column `width - 1 - j`) is at `j * height / 4 + k` of its element |
| GfxConvert.TilesUpToIndex | conv_gfx/main.c:165-187 | the words of element t follow those of the t earlier elements |
| GfxConvert.ElementIndex | conv_gfx/main.c:167-185 | word k of column x is word `(width - 1 - x) * height / 4 + k` of its element |
| GfxConvert.ConvertedIndex | conv_gfx/main.c:165-187 | output word `t * (w * h/4) + (w - 1 - x) * h/4 + k` is word k of column x of element t (a counter-clockwise rotation), and there are `total * w * h/4` words |
| GfxConvert.PackedNibbles | conv_gfx/main.c:171-183 | a packed word gives back its four nibbles, the first in bits 3..0 and the last in bits 15..12 |
| GfxConvert.PixelPlanes | conv_gfx/main.c:173-178 | plane p of a pixel is its bit `3 - p`; planes beyond the layout's are 0 |
| GfxConvert.TwoPlanePixels | conv_gfx/main.c:52-53 | with 2 planes the low two bits of every pixel are 0 |
| GfxConvert.MsbFirst | conv_gfx/main.c:176 | the mask `0x80 >> k` tests bit k of a byte counted from the most significant bit |
| GfxConvert.ReadsInsideByBounds | conv_gfx/main.c:175-176 | offset bounds plus the last element's base bound every byte read |
| GfxConvert.TileOffsetBounds | conv_gfx/main.c:89-96 | the 32x32 tiles' largest offsets are 193*8+3 (column) and 31*16 (row) |
| GfxConvert.SpriteOffsetBounds | conv_gfx/main.c:137-140 | the sprites' largest offsets are 33*8+3 (column) and 15*16 (row) |
| GfxConvert.CharOffsetBounds | conv_gfx/main.c:53-55 | the characters' largest offsets are 4 (plane), 8+3 (column) and 7*16 (row) |
| GfxConvert.ChrLayout1943Fits | conv_gfx/main.c:48-57 | every read stays in the 0x8000 bytes loaded, the last one is byte 0x7FFF, and the output is 0x10000 bytes |
| GfxConvert.ChrLayoutGsFits | conv_gfx/main.c:62-71 | every read stays in the 0x4000 bytes loaded, the last one is byte 0x3FFF, and the output is 0x8000 bytes |
| GfxConvert.FgnLayoutFits | conv_gfx/main.c:83-98 | every read stays in the 0x40000 bytes loaded, the last one is byte 0x3FFFF, and the output is 0x40000 bytes |
| GfxConvert.BgnLayoutFits | conv_gfx/main.c:104-119 | every read stays in the 0x10000 bytes loaded, the last one is byte 0xFFFF, and the output is 0x10000 bytes |
| GfxConvert.SprLayout1943Fits | conv_gfx/main.c:131-142 | every read stays in the 0x40000 bytes loaded, the last one is byte 0x3FFFF, and the output is 0x40000 bytes |

## Left out

- Debug output, the `debug` argument and the `cycle` argument of the `eval_*` methods are not modelled. They only feed `printf`.
- The snapshot file name is not modelled. `strncpy` and `sprintf("%s_%04d.bmp")` reduce to two facts: whether the name is non-empty, and the number `n` that `Saved(n)` carries.
- EasyBMP is not part of this model. Its `SetBitDepth` and `SetSize` become an abstract `hor_size x ver_size` pixel array, and `WriteToFile` becomes the `Saved(n)` log. BMP encoding is not modelled.
- Engine lifecycle is not modelled: the destructor, `new`/`delete`, the unused `idx_yc` field, and the unused ring rows `y_buf[4..15]` and `c_buf[2..7]`. The rings hold `u8` samples where the source stores them in `int`.
- `verilator/main.cpp` (the testbench driver) is not part of this model.
- `read_rom`, `write_rom` and `main` of `conv_gfx/main.c` are file I/O. The source image is a byte sequence, and the output is the sequence of words written through `dst`.
- `dump_ctr` is an unbounded natural. The source's `int` would overflow only after 2^31 snapshots.
- VideoOutEngine.VideoOut.EvalRgb444De requires the position to be inside a non-empty frame (`InFrame`). The constructor establishes this when both sizes are positive, and every call preserves it. With a zero size, the source writes outside its 0-pixel BMP.
- VideoOutEngine.VideoOut.EvalYuv444De requires `InFrame` for the same reason.
- VideoOutEngine.VideoOut.EvalYuv422De requires `InFrame` for the same reason.
- VideoOutEngine.VideoOut.EvalYuv420De requires even, non-zero sizes and ring counters inside a line (`Yuv420Valid`). Odd `hor_size` makes the source read `c_buf[..][i + 1]` past the line, and odd `ver_size` means `vcount` never equals it.
- ScanTracker.LumaReadSlots only states the ring-slot correspondence when `vcount1 - vcount` is 2 or 3. When `ver_size % 4 == 2` and a luma line of the next frame has started at the rewind, that line continues in another slot. The model follows the code, but no lemma states which pixels that frame then shows.
- VideoOutEngine.VideoOut.EvalYuv444Hv looks up the colour before the window test, where the source converts only inside the window. The lookup has no effect of its own, so the state and the BMP are the same.
- The four YUV tables are declared `int` but filled through `vluint16_t`. The largest entry is 255 * 226 = 57630, so the cast never truncates, and the model stores the plain products.
- GfxConvert.SampleBit reads a byte outside the source image as 0. Reads are proved to stay inside the image for every declared layout (`ReadsInside`), which `ConvertCcw` requires.
- GfxConvert.PackedNibbles and GfxConvert.MsbFirst state nibble packing and MSB-first bit order for any word and byte. They are not instantiated on the layout terms.
- GfxConvert.ConvertCcw returns the words as a sequence. It does not model the `src` and `dst` pointers themselves; the source pointer's per-element advance appears as `TileBase`.
