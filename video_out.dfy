/**
 * The video output capture engine: an object that the simulation calls once
 * per clock tick with the sampled video bus. Each `Eval*` method is one of
 * the engine's `eval_*` entry points; its counters follow the step functions
 * of module ScanTracker, its pixels go to an abstract `hor_size x ver_size`
 * BMP and each saved snapshot is logged as `Saved(n)`.
 */
module VideoOutEngine {
  import opened Bits
  import opened ColorConvert
  import opened ScanTracker

  /** Polarity bits given to the constructor. */
  const HS_POS_POL: u8 := 1
  const VS_POS_POL: u8 := 2

  /** A snapshot of the BMP written to `<file>_<n>.bmp`, n being `dump_ctr` at the time. */
  datatype Event = Saved(n: nat)

  /** One pixel write into the BMP. */
  datatype PixelWrite = PixelWrite(at: Coord, color: Rgb)

  /** The colour of a BMP pixel after a sequence of writes: the last write to it, if any. */
  function Paint(before: Rgb, ws: seq<PixelWrite>, x: nat, y: nat): Rgb
    decreases |ws|
  {
    if ws == [] then before
    else Paint(if ws[0].at == Coord(x, y) then ws[0].color else before, ws[1..], x, y)
  }

  /** Both columns of an even pair read the chroma pair at the even column. */
  lemma PairColumns(i: nat)
    requires i % 2 == 0
    ensures i - i % 2 == i && (i + 1) - (i + 1) % 2 == i
  {
  }

  /** Two writes: the second one wins where both hit the pixel. */
  lemma PaintPair(before: Rgb, w0: PixelWrite, w1: PixelWrite, x: nat, y: nat)
    ensures Paint(before, [w0, w1], x, y)
              == if w1.at == Coord(x, y) then w1.color else if w0.at == Coord(x, y) then w0.color else before
  {
    var c0 := if w0.at == Coord(x, y) then w0.color else before;
    assert [w0, w1][1..] == [w1];
    assert Paint(before, [w0, w1], x, y) == Paint(c0, [w1], x, y);
    assert Paint(c0, [w1], x, y) == Paint(if w1.at == Coord(x, y) then w1.color else c0, [], x, y);
  }

  /** `(v & bit_mask) << bit_shift` on the three channels of an RGB sample. */
  function RgbPixel(c: Config, red: u8, green: u8, blue: u8): Rgb
    requires DepthPair(c.bitMask, c.bitShift)
  {
    RgbChannelValue(red, c.bitMask, c.bitShift);
    RgbChannelValue(green, c.bitMask, c.bitShift);
    RgbChannelValue(blue, c.bitMask, c.bitShift);
    Rgb(RgbChannel(red, c.bitMask, c.bitShift),
        RgbChannel(green, c.bitMask, c.bitShift),
        RgbChannel(blue, c.bitMask, c.bitShift))
  }

  function YuvPixel(c: Config, lum: u8, cb: u8, cr: u8): Rgb
    requires DepthPair(c.bitMask, c.bitShift)
  {
    Yuv2Rgb(c.bitMask, c.bitShift, lum, cb, cr)
  }

  /** The sample position of a sync-driven call: in the active area on a rising clock edge, else none. */
  function HvSamplePos(c: Config, s: Scan, clk: u8): Option<Coord>
  {
    if RisingClock(s.prevClk, clk) then HvTarget(c, s) else None
  }

  /** The sample position of a data-enable call: the current position on an enabled rising clock edge, else none. */
  function DeSamplePos(s: Scan, clk: u8, de: u8): Option<Coord>
  {
    if RisingClock(s.prevClk, clk) && de != 0 then Some(Coord(s.hcount, s.vcount)) else None
  }

  /** The write of a single-pixel sample (RGB444, YUV444) taken at `pos`, if any. */
  function Writes(pos: Option<Coord>, color: Rgb): seq<PixelWrite>
  {
    if pos.Some? then [PixelWrite(pos.value, color)] else []
  }

  /** A single-pixel sample changes exactly the pixel it is taken at. */
  lemma PaintWrites(before: Rgb, pos: Option<Coord>, color: Rgb, x: nat, y: nat)
    ensures Paint(before, Writes(pos, color), x, y) == if pos == Some(Coord(x, y)) then color else before
  {
  }

  /** Snapshots are numbered 0, 1, ... and `dump_ctr` is the next number. */
  ghost predicate Numbered(log: seq<Event>, ctr: nat)
  {
    |log| == ctr && forall i :: 0 <= i < |log| ==> log[i] == Saved(i)
  }

  /**
   * `bit_mask` and `bit_shift` for a colour depth: depths up to 8 keep that
   * many low bits and shift them to the top of the byte, larger depths keep
   * the whole byte.
   */
  function DepthMask(depth: u8): (r: (u8, nat))
    ensures DepthPair(r.0, r.1)
    ensures depth <= 8 ==> r.0 + 1 == Pow2(depth) && r.1 + depth == 8
    ensures depth > 8 ==> r == (0xFF, 0)
  {
    if depth <= 8 then
      Pow2Monotone(depth, 8);
      (Pow2(depth) - 1, 8 - depth)
    else
      (0xFF, 0)
  }

  /**
   * A YUV 4:2:2 sample at relative column `at.x`: an even column only latches
   * its luma and Cb; an odd column completes the pair and writes both
   * pixels, the even one with the latched luma and both with the latched Cb
   * and this sample's Cr.
   */
  function Yuv422Writes(c: Config, at: Coord, y0: u8, u0: u8, luma: u8, chroma: u8): (ws: seq<PixelWrite>)
    requires DepthPair(c.bitMask, c.bitShift)
    ensures at.x % 2 == 0 <==> ws == []
    ensures at.x % 2 == 1 ==> |ws| == 2 && ws[0].at == Coord(at.x - 1, at.y) && ws[1].at == at
  {
    if at.x % 2 == 1 then
      [PixelWrite(Coord(at.x - 1, at.y), YuvPixel(c, y0, u0, chroma)),
       PixelWrite(at, YuvPixel(c, luma, u0, chroma))]
    else []
  }

  /** The latched (y0, u0) after a 4:2:2 sample at relative column x. */
  function Yuv422Latch(x: nat, y0: u8, u0: u8, luma: u8, chroma: u8): (u8, u8)
  {
    if x % 2 == 0 then (luma, chroma) else (y0, u0)
  }

  /**
   * Two consecutive samples, at an even column and the odd column after it,
   * paint both pixels from the same chroma pair: Cb of the first sample and
   * Cr of the second.
   */
  lemma Yuv422SharedChroma(c: Config, x: nat, y: nat, y0: u8, u0: u8, luma0: u8, cb: u8, luma1: u8, cr: u8)
    requires DepthPair(c.bitMask, c.bitShift) && x % 2 == 0
    ensures Yuv422Writes(c, Coord(x, y), y0, u0, luma0, cb) == []
    ensures Yuv422Latch(x, y0, u0, luma0, cb) == (luma0, cb)
    ensures Yuv422Writes(c, Coord(x + 1, y), luma0, cb, luma1, cr)
              == [PixelWrite(Coord(x, y), YuvPixel(c, luma0, cb, cr)), PixelWrite(Coord(x + 1, y), YuvPixel(c, luma1, cb, cr))]
  {
  }

  function Yuv422CallWrites(c: Config, pos: Option<Coord>, y0: u8, u0: u8, luma: u8, chroma: u8): seq<PixelWrite>
    requires DepthPair(c.bitMask, c.bitShift)
  {
    if pos.Some? then Yuv422Writes(c, pos.value, y0, u0, luma, chroma) else []
  }

  function Yuv422CallLatch(pos: Option<Coord>, y0: u8, u0: u8, luma: u8, chroma: u8): (u8, u8)
  {
    if pos.Some? then Yuv422Latch(pos.value.x, y0, u0, luma, chroma) else (y0, u0)
  }

  class VideoOut {
    /** Depth, polarities, active area and whether a file name was given. */
    const config: Config

    // YUV to RGB tables
    const uToG: array<int>
    const uToB: array<int>
    const vToR: array<int>
    const vToG: array<int>

    /** The BMP being filled, indexed `[x, y]`. */
    const bmp: array2<Rgb>

    // YUV420 line rings: four luma lines and two chroma lines
    const yBuf: array2<u8>
    const cBuf: array2<u8>

    /** The snapshots written so far, in order. */
    var saved: seq<Event>

    // YUV422: the even sample waiting for its odd partner
    var y0: u8
    var u0: u8

    var hcount1: u16
    var hcount2: u16
    var hcount: u16
    var vcount1: u16
    var vcount2: u16
    var vcount: u16
    var prevClk: u8
    var prevHs: u8
    var prevVs: u8
    var dumpAct: bool
    var dumpCtr: nat

    /** The internal variables as one value. */
    function State(): Scan
      reads this
    {
      Scan(hcount1, hcount2, hcount, vcount1, vcount2, vcount, prevClk, prevHs, prevVs, dumpAct, dumpCtr)
    }

    /** The YUV to RGB tables hold `i * coefficient`. */
    ghost predicate TablesReady()
      reads uToG, uToB, vToR, vToG
    {
      && uToG.Length == 256 && uToB.Length == 256 && vToR.Length == 256 && vToG.Length == 256
      && (forall i :: 0 <= i < 256 ==> uToG[i] == i * 44 && uToB[i] == i * 226)
      && (forall i :: 0 <= i < 256 ==> vToR[i] == i * 180 && vToG[i] == i * 91)
    }

    /** The BMP covers the active area, the line rings are as wide as it. */
    ghost predicate Shape()
    {
      && DepthPair(config.bitMask, config.bitShift)
      && config.hsPol <= 1 && config.vsPol <= 1
      && bmp.Length0 == config.horSize && bmp.Length1 == config.verSize
      && yBuf.Length0 == 4 && yBuf.Length1 == config.horSize
      && cBuf.Length0 == 2 && cBuf.Length1 == config.horSize
      && yBuf != cBuf
    }

    ghost predicate Valid()
      reads this, uToG, uToB, vToR, vToG
    {
      && Shape()
      && TablesReady()
      // saving is only ever armed when there is a file name
      && (dumpAct ==> config.dumpEnabled)
      && Numbered(saved, dumpCtr)
    }

    /** Fills the four YUV to RGB tables, entry i holding `i` times the coefficient. */
    static method MakeTables() returns (ug: array<int>, ub: array<int>, vr: array<int>, vg: array<int>)
      ensures fresh(ug) && fresh(ub) && fresh(vr) && fresh(vg)
      ensures ug.Length == 256 && ub.Length == 256 && vr.Length == 256 && vg.Length == 256
      ensures forall i :: 0 <= i < 256 ==> ug[i] == i * 44 && ub[i] == i * 226
      ensures forall i :: 0 <= i < 256 ==> vr[i] == i * 180 && vg[i] == i * 91
    {
      ug, ub, vr, vg := new int[256], new int[256], new int[256], new int[256];
      for i := 0 to 256
        invariant forall j :: 0 <= j < i ==> ug[j] == j * 44 && ub[j] == j * 226
        invariant forall j :: 0 <= j < i ==> vr[j] == j * 180 && vg[j] == j * 91
      {
        ug[i] := i * 44;
        ub[i] := i * 226;
        vr[i] := i * 180;
        vg[i] := i * 91;
      }
    }

    constructor (debug: u8, depth: u8, polarity: u8, hoffset: u16, hactive: u16,
                 voffset: u16, vactive: u16, file: string)
      ensures Valid()
      ensures (config.bitMask, config.bitShift) == DepthMask(depth)
      ensures config.hsPol == polarity % 2 && config.vsPol == (polarity / 2) % 2
      ensures config.horOffs == hoffset && config.horSize == hactive
      ensures config.verOffs == voffset && config.verSize == vactive
      ensures config.dumpEnabled == (file != [])
      ensures State() == Initial && saved == []
      ensures fresh(bmp) && fresh(yBuf) && fresh(cBuf)
    {
      // colour depth
      var (mask, shift) := DepthMask(depth);
      // synchro polarities
      BitAndLowMask(polarity, 1);
      BitAndTwo(polarity);
      var hsPol: u8 := if BitAnd(polarity, HS_POS_POL) != 0 then 1 else 0;
      var vsPol: u8 := if BitAnd(polarity, VS_POS_POL) != 0 then 1 else 0;
      config := Config(mask, shift, hsPol, vsPol, hoffset, hactive, voffset, vactive, file != []);
      bmp := new Rgb[hactive, vactive];
      // YUV to RGB tables
      var ug, ub, vr, vg := MakeTables();
      uToG, uToB, vToR, vToG := ug, ub, vr, vg;
      // YUV buffers
      yBuf := new u8[4, hactive];
      cBuf := new u8[2, hactive];
      saved := [];
      hcount, hcount1, hcount2 := 0, 0, 0;
      vcount, vcount1, vcount2 := 0, 0, 0;
      prevClk, prevHs, prevVs := 0, 0, 0;
      dumpAct, dumpCtr := false, 0;
    }

    method GetHcount() returns (h: u16)
      ensures h == hcount
    {
      h := hcount;
    }

    method GetVcount() returns (v: u16)
      ensures v == vcount
    {
      v := vcount;
    }

    /**
     * `yuv2rgb` through the constructor's tables: the table indices are
     * the masked and shifted chroma samples, always in [0, 255], and the
     * result is the fixed-point transform of ColorConvert.
     */
    method Yuv2RgbLookup(lum: u8, cb: u8, cr: u8) returns (p: Rgb)
      requires TablesReady() && DepthPair(config.bitMask, config.bitShift)
      ensures p == Yuv2Rgb(config.bitMask, config.bitShift, lum, cb, cr)
    {
      var mask, shift := config.bitMask, config.bitShift;
      // `(lum & bit_mask) << (bit_shift + 7)`, `(cb & bit_mask) << bit_shift`, ...
      RgbChannelValue(cb, mask, shift);
      RgbChannelValue(cr, mask, shift);
      var y: int := RgbChannel(lum, mask, shift) * 128;
      var u: u8 := RgbChannel(cb, mask, shift);
      var v: u8 := RgbChannel(cr, mask, shift);
      var r: int := (y + vToR[v] - 22906) / 128;
      var g: int := (y - uToG[u] - vToG[v] + 17264) / 128;
      var b: int := (y + uToB[u] - 28928) / 128;
      assert vToR[v] == v * 180 && vToG[v] == v * 91;
      assert uToG[u] == u * 44 && uToB[u] == u * 226;
      p := Rgb(Clamp(r), Clamp(g), Clamp(b));
    }

    /** Writes the BMP file if saving is armed. */
    method SaveSnapshot()
      requires Valid()
      modifies this
      ensures Valid()
      ensures saved == old(saved) + (if old(dumpAct) then [Saved(old(dumpCtr))] else [])
      ensures dumpCtr == if old(dumpAct) then old(dumpCtr) + 1 else old(dumpCtr)
      ensures State() == old(State()).(dumpCtr := dumpCtr)
      ensures y0 == old(y0) && u0 == old(u0)
    {
      if dumpAct {
        saved := saved + [Saved(dumpCtr)];
        dumpCtr := dumpCtr + 1;
      }
    }

    /** A rising edge on VS: back to (0, 0), the snapshot if saving is armed, then saving is armed. */
    method VerticalEdge(vs: u8) returns (ret: u8)
      requires Valid()
      modifies this
      ensures Valid()
      ensures State() == VsEdgeStep(config, old(State()), vs)
      ensures ret == if SyncEdge(vs, old(prevVs), config.vsPol) && old(dumpAct) then 1 else 0
      ensures saved == old(saved)
                       + (if SyncEdge(vs, old(prevVs), config.vsPol) && old(dumpAct) then [Saved(old(dumpCtr))] else [])
      ensures y0 == old(y0) && u0 == old(u0)
    {
      ret := 0;
      if vs == config.vsPol && prevVs != config.vsPol {
        ret := if dumpAct then 1 else 0;
        hcount := 0;
        vcount := 0;
        SaveSnapshot();
        if config.dumpEnabled {
          dumpAct := true;
        }
      }
    }

    /** A rising edge on HS ends the line (counted only after more than 4 samples); any other sample moves one column on. */
    method HorizontalEdge(hs: u8)
      modifies this`hcount, this`vcount
      ensures State() == HsEdgeStep(config, old(State()), hs)
    {
      if hs == config.hsPol && prevHs != config.hsPol {
        if hcount > 4 {
          vcount := Wrap16(vcount + 1);
        }
        hcount := 0;
      } else {
        hcount := Wrap16(hcount + 1);
      }
    }

    /** The sync edges of a rising clock edge (vertical, then horizontal), returning `dump_act` on a vertical edge. */
    method SyncEdges(vs: u8, hs: u8) returns (ret: u8)
      requires Valid()
      modifies this
      ensures Valid()
      ensures State() == HvEdges(config, old(State()), vs, hs)
      ensures ret == if SyncEdge(vs, old(prevVs), config.vsPol) && old(dumpAct) then 1 else 0
      ensures saved == old(saved)
                       + (if SyncEdge(vs, old(prevVs), config.vsPol) && old(dumpAct) then [Saved(old(dumpCtr))] else [])
      ensures y0 == old(y0) && u0 == old(u0)
    {
      ret := VerticalEdge(vs);
      HorizontalEdge(hs);
      prevVs := vs;
      prevHs := hs;
    }

    /** The end of a frame on the data-enable paths: saving is armed when there is a file name, then the snapshot is saved if armed. */
    method ArmAndSave() returns (ret: u8)
      requires Valid()
      modifies this
      ensures Valid()
      ensures dumpAct == (old(dumpAct) || config.dumpEnabled)
      ensures ret == if dumpAct then 1 else 0
      ensures saved == old(saved) + (if dumpAct then [Saved(old(dumpCtr))] else [])
      ensures State() == old(State()).(dumpAct := dumpAct, dumpCtr := if dumpAct then old(dumpCtr) + 1 else old(dumpCtr))
      ensures y0 == old(y0) && u0 == old(u0)
    {
      if config.dumpEnabled {
        dumpAct := true;
      }
      ret := if dumpAct then 1 else 0;
      SaveSnapshot();
    }

    /** One enabled data-enable sample after its pixels are written: the position advances, wrapping at the frame's end. */
    method EnableCount() returns (ret: u8)
      requires Valid()
      modifies this
      ensures Valid()
      ensures State() == DeAdvance(config, old(State()))
      ensures ret == if DeBoundary(config, old(State())) && (old(dumpAct) || config.dumpEnabled) then 1 else 0
      ensures saved == old(saved)
                       + (if DeBoundary(config, old(State())) && (old(dumpAct) || config.dumpEnabled)
                          then [Saved(old(dumpCtr))] else [])
      ensures y0 == old(y0) && u0 == old(u0)
    {
      ret := 0;
      hcount := Wrap16(hcount + 1);
      if hcount == config.horSize {
        hcount := 0;
        vcount := Wrap16(vcount + 1);
        if vcount == config.verSize {
          // clearing the line counter commutes with arming and saving
          vcount := 0;
          ret := ArmAndSave();
        }
      }
    }

    /** Writes one BMP pixel; no other pixel changes. */
    method Put(at: Coord, color: Rgb)
      requires at.x < bmp.Length0 && at.y < bmp.Length1
      modifies bmp
      ensures forall x, y | 0 <= x < bmp.Length0 && 0 <= y < bmp.Length1 ::
                bmp[x, y] == Paint(old(bmp[x, y]), Writes(Some(at), color), x, y)
    {
      bmp[at.x, at.y] := color;
    }

    /** The active-window test of the sync-driven paths: a sample inside it is written at its relative position. */
    method Grab(color: Rgb)
      requires Valid()
      modifies bmp
      ensures forall x, y | 0 <= x < bmp.Length0 && 0 <= y < bmp.Length1 ::
                bmp[x, y] == Paint(old(bmp[x, y]), Writes(HvTarget(config, State()), color), x, y)
    {
      if vcount >= config.verOffs && vcount < config.verOffs + config.verSize {
        if hcount >= config.horOffs && hcount < config.horOffs + config.horSize {
          Put(Coord(hcount - config.horOffs, vcount - config.verOffs), color);
        }
      }
    }

    /** `eval_RGB444_HV`: RGB samples with horizontal and vertical syncs. */
    method EvalRgb444Hv(clk: u8, vs: u8, hs: u8, red: u8, green: u8, blue: u8) returns (ret: u8)
      requires Valid()
      modifies this, bmp
      ensures Valid()
      ensures State() == HvNext(config, old(State()), clk, vs, hs)
      ensures ret == if HvSaves(config, old(State()), clk, vs) then 1 else 0
      ensures saved == old(saved) + (if HvSaves(config, old(State()), clk, vs) then [Saved(old(dumpCtr))] else [])
      ensures y0 == old(y0) && u0 == old(u0)
      ensures forall x, y | 0 <= x < bmp.Length0 && 0 <= y < bmp.Length1 ::
                bmp[x, y] == Paint(old(bmp[x, y]), Writes(HvSamplePos(config, old(State()), clk), RgbPixel(config, red, green, blue)), x, y)
    {
      ret := 0;
      // rising edge on clock
      if clk != 0 && prevClk == 0 {
        Grab(RgbPixel(config, red, green, blue));
        ret := SyncEdges(vs, hs);
      }
      prevClk := clk;
    }

    /** `eval_RGB444_DE`: RGB samples gated by a data enable. */
    method EvalRgb444De(clk: u8, de: u8, red: u8, green: u8, blue: u8) returns (ret: u8)
      requires Valid() && InFrame(config, State())
      modifies this, bmp
      ensures Valid() && InFrame(config, State())
      ensures State() == DeNext(config, old(State()), clk, de)
      ensures ret == if DeSaves(config, old(State()), clk, de) then 1 else 0
      ensures saved == old(saved) + (if DeSaves(config, old(State()), clk, de) then [Saved(old(dumpCtr))] else [])
      ensures y0 == old(y0) && u0 == old(u0)
      ensures forall x, y | 0 <= x < bmp.Length0 && 0 <= y < bmp.Length1 ::
                bmp[x, y] == Paint(old(bmp[x, y]), Writes(DeSamplePos(old(State()), clk, de), RgbPixel(config, red, green, blue)), x, y)
    {
      ret := 0;
      if clk != 0 && prevClk == 0 {
        if de != 0 {
          Put(Coord(hcount, vcount), RgbPixel(config, red, green, blue));
          ret := EnableCount();
        }
      }
      prevClk := clk;
    }

    /** `eval_YUV444_HV`: full-rate YUV samples with horizontal and vertical syncs. */
    method EvalYuv444Hv(clk: u8, vs: u8, hs: u8, luma: u8, cb: u8, cr: u8) returns (ret: u8)
      requires Valid()
      modifies this, bmp
      ensures Valid()
      ensures State() == HvNext(config, old(State()), clk, vs, hs)
      ensures ret == if HvSaves(config, old(State()), clk, vs) then 1 else 0
      ensures saved == old(saved) + (if HvSaves(config, old(State()), clk, vs) then [Saved(old(dumpCtr))] else [])
      ensures y0 == old(y0) && u0 == old(u0)
      ensures forall x, y | 0 <= x < bmp.Length0 && 0 <= y < bmp.Length1 ::
                bmp[x, y] == Paint(old(bmp[x, y]), Writes(HvSamplePos(config, old(State()), clk), YuvPixel(config, luma, cb, cr)), x, y)
    {
      ret := 0;
      if clk != 0 && prevClk == 0 {
        // the table lookup has no effect of its own, so it can precede the window test
        var p := Yuv2RgbLookup(luma, cb, cr);
        Grab(p);
        ret := SyncEdges(vs, hs);
      }
      prevClk := clk;
    }

    /** `eval_YUV444_DE`: full-rate YUV samples gated by a data enable. */
    method EvalYuv444De(clk: u8, de: u8, luma: u8, cb: u8, cr: u8) returns (ret: u8)
      requires Valid() && InFrame(config, State())
      modifies this, bmp
      ensures Valid() && InFrame(config, State())
      ensures State() == DeNext(config, old(State()), clk, de)
      ensures ret == if DeSaves(config, old(State()), clk, de) then 1 else 0
      ensures saved == old(saved) + (if DeSaves(config, old(State()), clk, de) then [Saved(old(dumpCtr))] else [])
      ensures y0 == old(y0) && u0 == old(u0)
      ensures forall x, y | 0 <= x < bmp.Length0 && 0 <= y < bmp.Length1 ::
                bmp[x, y] == Paint(old(bmp[x, y]), Writes(DeSamplePos(old(State()), clk, de), YuvPixel(config, luma, cb, cr)), x, y)
    {
      ret := 0;
      if clk != 0 && prevClk == 0 {
        if de != 0 {
          var p := Yuv2RgbLookup(luma, cb, cr);
          Put(Coord(hcount, vcount), p);
          ret := EnableCount();
        }
      }
      prevClk := clk;
    }

    /**
     * The 4:2:2 pixel logic shared by both 4:2:2 paths, at relative column
     * `at.x` of the BMP: an even column latches, an odd one writes the pair.
     */
    method Yuv422Sample(at: Coord, luma: u8, chroma: u8)
      requires Valid() && at.x < bmp.Length0 && at.y < bmp.Length1
      modifies this`y0, this`u0, bmp
      ensures Valid()
      ensures y0 == Yuv422Latch(at.x, old(y0), old(u0), luma, chroma).0
      ensures u0 == Yuv422Latch(at.x, old(y0), old(u0), luma, chroma).1
      ensures forall x, y | 0 <= x < bmp.Length0 && 0 <= y < bmp.Length1 ::
                bmp[x, y] == Paint(old(bmp[x, y]), Yuv422Writes(config, at, old(y0), old(u0), luma, chroma), x, y)
    {
      if at.x % 2 == 1 {
        // odd pixel
        var p0 := Yuv2RgbLookup(y0, u0, chroma);
        bmp[at.x - 1, at.y] := p0;
        var p1 := Yuv2RgbLookup(luma, u0, chroma);
        bmp[at.x, at.y] := p1;
        forall x, y | 0 <= x < bmp.Length0 && 0 <= y < bmp.Length1
          ensures bmp[x, y] == Paint(old(bmp[x, y]), Yuv422Writes(config, at, old(y0), old(u0), luma, chroma), x, y)
        {
          PaintPair(old(bmp[x, y]), PixelWrite(Coord(at.x - 1, at.y), p0), PixelWrite(at, p1), x, y);
        }
      } else {
        // even pixel
        y0 := luma;
        u0 := chroma;
      }
    }

    /** The active-window test of the 4:2:2 sync-driven path, then the 4:2:2 pixel logic. */
    method Yuv422Grab(luma: u8, chroma: u8)
      requires Valid()
      modifies this`y0, this`u0, bmp
      ensures Valid()
      ensures var pos := HvTarget(config, State());
              && y0 == Yuv422CallLatch(pos, old(y0), old(u0), luma, chroma).0
              && u0 == Yuv422CallLatch(pos, old(y0), old(u0), luma, chroma).1
      ensures forall x, y | 0 <= x < bmp.Length0 && 0 <= y < bmp.Length1 ::
                bmp[x, y] == Paint(old(bmp[x, y]), Yuv422CallWrites(config, HvTarget(config, State()), old(y0), old(u0), luma, chroma), x, y)
    {
      if vcount >= config.verOffs && vcount < config.verOffs + config.verSize {
        if hcount >= config.horOffs && hcount < config.horOffs + config.horSize {
          Yuv422Sample(Coord(hcount - config.horOffs, vcount - config.verOffs), luma, chroma);
        }
      }
    }

    /** `eval_YUV422_HV`: 4:2:2 samples (luma with alternating Cb, Cr) with horizontal and vertical syncs. */
    method EvalYuv422Hv(clk: u8, vs: u8, hs: u8, luma: u8, chroma: u8) returns (ret: u8)
      requires Valid()
      modifies this, bmp
      ensures Valid()
      ensures State() == HvNext(config, old(State()), clk, vs, hs)
      ensures ret == if HvSaves(config, old(State()), clk, vs) then 1 else 0
      ensures saved == old(saved) + (if HvSaves(config, old(State()), clk, vs) then [Saved(old(dumpCtr))] else [])
      ensures y0 == Yuv422CallLatch(HvSamplePos(config, old(State()), clk), old(y0), old(u0), luma, chroma).0
      ensures u0 == Yuv422CallLatch(HvSamplePos(config, old(State()), clk), old(y0), old(u0), luma, chroma).1
      ensures forall x, y | 0 <= x < bmp.Length0 && 0 <= y < bmp.Length1 ::
                bmp[x, y] == Paint(old(bmp[x, y]),
                                   Yuv422CallWrites(config, HvSamplePos(config, old(State()), clk), old(y0), old(u0), luma, chroma), x, y)
    {
      ret := 0;
      if clk != 0 && prevClk == 0 {
        Yuv422Grab(luma, chroma);
        ret := SyncEdges(vs, hs);
      }
      prevClk := clk;
    }

    /** An enabled 4:2:2 sample: the pixel logic at the current position, then the position advances. */
    method Yuv422Enabled(luma: u8, chroma: u8) returns (ret: u8)
      requires Valid() && InFrame(config, State())
      modifies this, bmp
      ensures Valid() && InFrame(config, State())
      ensures State() == DeAdvance(config, old(State()))
      ensures ret == if DeBoundary(config, old(State())) && (old(dumpAct) || config.dumpEnabled) then 1 else 0
      ensures saved == old(saved)
                       + (if DeBoundary(config, old(State())) && (old(dumpAct) || config.dumpEnabled)
                          then [Saved(old(dumpCtr))] else [])
      ensures (y0, u0) == Yuv422Latch(old(hcount), old(y0), old(u0), luma, chroma)
      ensures forall x, y | 0 <= x < bmp.Length0 && 0 <= y < bmp.Length1 ::
                bmp[x, y] == Paint(old(bmp[x, y]), Yuv422Writes(config, Coord(old(hcount), old(vcount)), old(y0), old(u0), luma, chroma), x, y)
    {
      Yuv422Sample(Coord(hcount, vcount), luma, chroma);
      ret := EnableCount();
    }

    /** `eval_YUV422_DE`: 4:2:2 samples gated by a data enable. */
    method EvalYuv422De(clk: u8, de: u8, luma: u8, chroma: u8) returns (ret: u8)
      requires Valid() && InFrame(config, State())
      modifies this, bmp
      ensures Valid() && InFrame(config, State())
      ensures State() == DeNext(config, old(State()), clk, de)
      ensures ret == if DeSaves(config, old(State()), clk, de) then 1 else 0
      ensures saved == old(saved) + (if DeSaves(config, old(State()), clk, de) then [Saved(old(dumpCtr))] else [])
      ensures y0 == Yuv422CallLatch(DeSamplePos(old(State()), clk, de), old(y0), old(u0), luma, chroma).0
      ensures u0 == Yuv422CallLatch(DeSamplePos(old(State()), clk, de), old(y0), old(u0), luma, chroma).1
      ensures forall x, y | 0 <= x < bmp.Length0 && 0 <= y < bmp.Length1 ::
                bmp[x, y] == Paint(old(bmp[x, y]),
                                   Yuv422CallWrites(config, DeSamplePos(old(State()), clk, de), old(y0), old(u0), luma, chroma), x, y)
    {
      ret := 0;
      if clk != 0 && prevClk == 0 {
        if de != 0 {
          ret := Yuv422Enabled(luma, chroma);
        }
      }
      prevClk := clk;
    }

    /**
     * The pixel of column x of a 4:2:0 output line: the luma of that column
     * in ring slot `lumaSlot`, with the Cb and Cr of the column pair in
     * chroma slot `chromaSlot`.
     */
    ghost function Yuv420Pixel(x: nat, lumaSlot: nat, chromaSlot: nat): Rgb
      requires Shape() && config.horSize % 2 == 0
      requires x < config.horSize && lumaSlot < 4 && chromaSlot < 2
      reads yBuf, cBuf
    {
      YuvPixel(config, yBuf[lumaSlot, x], cBuf[chromaSlot, x - x % 2], cBuf[chromaSlot, x - x % 2 + 1])
    }

    /** Stores a luma sample into ring slot `vcount1 & 3` and advances the luma position. */
    method StoreLuma(luma: u8)
      requires Valid() && Yuv420Valid(config, State())
      modifies this`hcount1, this`vcount1, yBuf
      ensures Valid() && Yuv420Valid(config, State())
      ensures hcount1 == LineAdvance(config.horSize, old(hcount1), old(vcount1)).0
      ensures vcount1 == LineAdvance(config.horSize, old(hcount1), old(vcount1)).1
      ensures forall r, x | 0 <= r < 4 && 0 <= x < yBuf.Length1 ::
                yBuf[r, x] == if r == LumaWriteSlot(old(vcount1)) && x == old(hcount1) then luma else old(yBuf[r, x])
    {
      yBuf[LumaWriteSlot(vcount1), hcount1] := luma;
      hcount1 := Wrap16(hcount1 + 1);
      if hcount1 == config.horSize {
        hcount1 := 0;
        vcount1 := Wrap16(vcount1 + 1);
      }
    }

    /** Stores a chroma sample into ring slot `vcount2 & 1` and advances the chroma position. */
    method StoreChroma(chroma: u8)
      requires Valid() && Yuv420Valid(config, State())
      modifies this`hcount2, this`vcount2, cBuf
      ensures Valid() && Yuv420Valid(config, State())
      ensures hcount2 == LineAdvance(config.horSize, old(hcount2), old(vcount2)).0
      ensures vcount2 == LineAdvance(config.horSize, old(hcount2), old(vcount2)).1
      ensures forall r, x | 0 <= r < 2 && 0 <= x < cBuf.Length1 ::
                cBuf[r, x] == if r == ChromaWriteSlot(old(vcount2)) && x == old(hcount2) then chroma else old(cBuf[r, x])
    {
      cBuf[ChromaWriteSlot(vcount2), hcount2] := chroma;
      hcount2 := Wrap16(hcount2 + 1);
      if hcount2 == config.horSize {
        hcount2 := 0;
        vcount2 := Wrap16(vcount2 + 1);
      }
    }

    /**
     * Converts pixel (x, y) of a 4:2:0 output line into the BMP, from luma
     * slot `lumaSlot` and the Cb, Cr pair `u`, `v` read from chroma slot
     * `chromaSlot` at the column pair of x; no other pixel changes.
     */
    method PaintPixel(x: nat, y: nat, lumaSlot: nat, chromaSlot: nat, u: u8, v: u8)
      requires TablesReady() && Shape() && config.horSize % 2 == 0
      requires x < config.horSize && y < config.verSize && lumaSlot < 4 && chromaSlot < 2
      requires u == cBuf[chromaSlot, x - x % 2] && v == cBuf[chromaSlot, x - x % 2 + 1]
      modifies bmp
      ensures bmp[x, y] == Yuv420Pixel(x, lumaSlot, chromaSlot)
      ensures forall x', y' | 0 <= x' < bmp.Length0 && 0 <= y' < bmp.Length1 && (x' != x || y' != y) ::
                bmp[x', y'] == old(bmp[x', y'])
    {
      var p := Yuv2RgbLookup(yBuf[lumaSlot, x], u, v);
      bmp[x, y] := p;
    }

    /** Pixels (i, y) and (i + 1, y) of a 4:2:0 output line share the Cb, Cr pair `u`, `v` of their column pair. */
    method PaintNeighbours(i: nat, y: nat, lumaSlot: nat, chromaSlot: nat, u: u8, v: u8)
      requires TablesReady() && Shape() && config.horSize % 2 == 0
      requires lumaSlot < 4 && chromaSlot < 2 && i % 2 == 0 && i < config.horSize && y < config.verSize
      requires u == cBuf[chromaSlot, i] && v == cBuf[chromaSlot, i + 1]
      modifies bmp
      ensures forall x, y' | 0 <= x < bmp.Length0 && 0 <= y' < bmp.Length1 ::
                bmp[x, y'] == if (x == i || x == i + 1) && y' == y then Yuv420Pixel(x, lumaSlot, chromaSlot)
                              else old(bmp[x, y'])
    {
      PairColumns(i);
      ghost var left := Yuv420Pixel(i, lumaSlot, chromaSlot);
      PaintPixel(i, y, lumaSlot, chromaSlot, u, v);
      assert bmp[i, y] == left;
      PaintPixel(i + 1, y, lumaSlot, chromaSlot, u, v);
    }

    /** One iteration of the conversion loop: the 2x2 block at columns i, i + 1 shares one Cb, Cr pair. */
    method EmitColumnPair(i: nat, lumaSlot: nat, chromaSlot: nat)
      requires Valid() && Yuv420Valid(config, State())
      requires lumaSlot < 3 && chromaSlot < 2 && i % 2 == 0 && i < config.horSize
      modifies bmp
      ensures forall x, y | 0 <= x < bmp.Length0 && 0 <= y < bmp.Length1 ::
                bmp[x, y] == if (x == i || x == i + 1) && y == vcount then Yuv420Pixel(x, lumaSlot, chromaSlot)
                             else if (x == i || x == i + 1) && y == vcount + 1 then Yuv420Pixel(x, lumaSlot + 1, chromaSlot)
                             else old(bmp[x, y])
    {
      var u := cBuf[chromaSlot, i];
      var v := cBuf[chromaSlot, i + 1];
      PaintNeighbours(i, vcount, lumaSlot, chromaSlot, u, v);
      PaintNeighbours(i, vcount + 1, lumaSlot + 1, chromaSlot, u, v);
    }

    /**
     * The conversion loop: output lines `vcount` and `vcount + 1` are
     * painted column pair by column pair from luma slots `lumaSlot` and
     * `lumaSlot + 1` and chroma slot `chromaSlot`; no other pixel changes.
     */
    method EmitLinePair(lumaSlot: nat, chromaSlot: nat)
      requires Valid() && Yuv420Valid(config, State())
      requires lumaSlot < 3 && chromaSlot < 2
      modifies bmp
      ensures forall x, y | 0 <= x < bmp.Length0 && 0 <= y < bmp.Length1 ::
                bmp[x, y] == if y == vcount then Yuv420Pixel(x, lumaSlot, chromaSlot)
                             else if y == vcount + 1 then Yuv420Pixel(x, lumaSlot + 1, chromaSlot)
                             else old(bmp[x, y])
    {
      var i := 0;
      while i < config.horSize
        invariant 0 <= i <= config.horSize && i % 2 == 0
        invariant forall x, y | 0 <= x < bmp.Length0 && 0 <= y < bmp.Length1 ::
                    bmp[x, y] == if y == vcount && x < i then Yuv420Pixel(x, lumaSlot, chromaSlot)
                                 else if y == vcount + 1 && x < i then Yuv420Pixel(x, lumaSlot + 1, chromaSlot)
                                 else old(bmp[x, y])
      {
        EmitColumnPair(i, lumaSlot, chromaSlot);
        i := i + 2;
      }
    }

    /** Two output lines are done: `vcount` moves by 2; at the frame's end the ring bases rewind and a snapshot may be saved. */
    method LinePairDone() returns (ret: u8)
      requires Valid() && Yuv420Valid(config, State()) && Yuv420Ready(State())
      modifies this
      ensures Valid() && Yuv420Valid(config, State())
      ensures State() == Yuv420Emit(config, old(State()))
      ensures ret == if Yuv420Boundary(config, old(State())) && (old(dumpAct) || config.dumpEnabled) then 1 else 0
      ensures saved == old(saved)
                       + (if Yuv420Boundary(config, old(State())) && (old(dumpAct) || config.dumpEnabled)
                          then [Saved(old(dumpCtr))] else [])
      ensures y0 == old(y0) && u0 == old(u0)
    {
      ret := 0;
      vcount := Wrap16(vcount + 2);
      if vcount == config.verSize {
        vcount := 0;
        vcount1 := Wrap16(vcount1 - config.verSize);
        vcount2 := Wrap16(vcount2 - config.verSize / 2);
        ret := ArmAndSave();
      }
    }

    /** The luma and chroma samples of a rising edge go into their rings. */
    method StoreSamples(deY: u8, deC: u8, luma: u8, chroma: u8)
      requires Valid() && Yuv420Valid(config, State())
      modifies this`hcount1, this`vcount1, this`hcount2, this`vcount2, yBuf, cBuf
      ensures Valid() && Yuv420Valid(config, State())
      ensures State() == Yuv420Input(config, old(State()), deY, deC)
      ensures forall r, x | 0 <= r < 4 && 0 <= x < yBuf.Length1 ::
                yBuf[r, x] == if deY != 0 && r == LumaWriteSlot(old(vcount1)) && x == old(hcount1) then luma else old(yBuf[r, x])
      ensures forall r, x | 0 <= r < 2 && 0 <= x < cBuf.Length1 ::
                cBuf[r, x] == if deC != 0 && r == ChromaWriteSlot(old(vcount2)) && x == old(hcount2) then chroma else old(cBuf[r, x])
    {
      if deY != 0 {
        StoreLuma(luma);
      }
      if deC != 0 {
        StoreChroma(chroma);
      }
    }

    /** Two ready lines: output lines `vcount` and `vcount + 1` are painted from the ring slots below the luma and chroma write positions. */
    method EmitLines() returns (ret: u8)
      requires Valid() && Yuv420Valid(config, State()) && Yuv420Ready(State())
      modifies this, bmp
      ensures Valid() && Yuv420Valid(config, State())
      ensures State() == Yuv420Emit(config, old(State()))
      ensures ret == if Yuv420Boundary(config, old(State())) && (old(dumpAct) || config.dumpEnabled) then 1 else 0
      ensures saved == old(saved)
                       + (if Yuv420Boundary(config, old(State())) && (old(dumpAct) || config.dumpEnabled)
                          then [Saved(old(dumpCtr))] else [])
      ensures y0 == old(y0) && u0 == old(u0)
      ensures forall x, y | 0 <= x < bmp.Length0 && 0 <= y < bmp.Length1 ::
                bmp[x, y] == if y == old(vcount) then Yuv420Pixel(x, UpperLumaSlot(old(vcount1)), ChromaReadSlot(old(vcount2)))
                             else if y == old(vcount) + 1 then Yuv420Pixel(x, LowerLumaSlot(old(vcount1)), ChromaReadSlot(old(vcount2)))
                             else old(bmp[x, y])
    {
      EmitLinePair(UpperLumaSlot(vcount1), ChromaReadSlot(vcount2));
      ret := LinePairDone();
    }

    /** When two lines of pixels are ready, they are converted and the output line moves on. */
    method EmitIfReady() returns (ret: u8)
      requires Valid() && Yuv420Valid(config, State())
      modifies this, bmp
      ensures Valid() && Yuv420Valid(config, State())
      ensures State() == if Yuv420Ready(old(State())) then Yuv420Emit(config, old(State())) else old(State())
      ensures ret == if Yuv420Boundary(config, old(State())) && (old(dumpAct) || config.dumpEnabled) then 1 else 0
      ensures saved == old(saved)
                       + (if Yuv420Boundary(config, old(State())) && (old(dumpAct) || config.dumpEnabled)
                          then [Saved(old(dumpCtr))] else [])
      ensures y0 == old(y0) && u0 == old(u0)
      ensures forall x, y | 0 <= x < bmp.Length0 && 0 <= y < bmp.Length1 ::
                bmp[x, y] == if Yuv420Ready(old(State())) && y == old(vcount)
                             then Yuv420Pixel(x, UpperLumaSlot(old(vcount1)), ChromaReadSlot(old(vcount2)))
                             else if Yuv420Ready(old(State())) && y == old(vcount) + 1
                             then Yuv420Pixel(x, LowerLumaSlot(old(vcount1)), ChromaReadSlot(old(vcount2)))
                             else old(bmp[x, y])
    {
      ret := 0;
      if vcount1 - vcount >= 2 && vcount2 * 2 - vcount >= 2 {
        ret := EmitLines();
      }
    }

    /** A rising clock edge of the 4:2:0 path: the samples go into their rings, then two lines are emitted if ready. */
    method Yuv420Clocked(deY: u8, deC: u8, luma: u8, chroma: u8) returns (ret: u8)
      requires Valid() && Yuv420Valid(config, State())
      modifies this, bmp, yBuf, cBuf
      ensures Valid() && Yuv420Valid(config, State())
      ensures var s1 := Yuv420Input(config, old(State()), deY, deC);
              && State() == (if Yuv420Ready(s1) then Yuv420Emit(config, s1) else s1)
              && ret == (if Yuv420Boundary(config, s1) && (old(dumpAct) || config.dumpEnabled) then 1 else 0)
              && saved == old(saved) + (if Yuv420Boundary(config, s1) && (old(dumpAct) || config.dumpEnabled)
                                        then [Saved(old(dumpCtr))] else [])
      ensures y0 == old(y0) && u0 == old(u0)
      ensures forall r, x | 0 <= r < 4 && 0 <= x < yBuf.Length1 ::
                yBuf[r, x] == if deY != 0 && r == LumaWriteSlot(old(vcount1)) && x == old(hcount1) then luma else old(yBuf[r, x])
      ensures forall r, x | 0 <= r < 2 && 0 <= x < cBuf.Length1 ::
                cBuf[r, x] == if deC != 0 && r == ChromaWriteSlot(old(vcount2)) && x == old(hcount2) then chroma else old(cBuf[r, x])
      ensures var s1 := Yuv420Input(config, old(State()), deY, deC);
              forall x, y | 0 <= x < bmp.Length0 && 0 <= y < bmp.Length1 ::
                bmp[x, y] == if Yuv420Ready(s1) && y == old(vcount)
                             then Yuv420Pixel(x, UpperLumaSlot(s1.vcount1), ChromaReadSlot(s1.vcount2))
                             else if Yuv420Ready(s1) && y == old(vcount) + 1
                             then Yuv420Pixel(x, LowerLumaSlot(s1.vcount1), ChromaReadSlot(s1.vcount2))
                             else old(bmp[x, y])
    {
      StoreSamples(deY, deC, luma, chroma);
      ret := EmitIfReady();
    }

    /** `eval_YUV420_DE`: luma and chroma lines with their own data enables, emitted two lines at a time. */
    method EvalYuv420De(clk: u8, deY: u8, deC: u8, luma: u8, chroma: u8) returns (ret: u8)
      requires Valid() && Yuv420Valid(config, State())
      modifies this, bmp, yBuf, cBuf
      ensures Valid() && Yuv420Valid(config, State())
      ensures State() == Yuv420Next(config, old(State()), clk, deY, deC)
      ensures ret == if Yuv420Saves(config, old(State()), clk, deY, deC) then 1 else 0
      ensures saved == old(saved)
                       + (if Yuv420Saves(config, old(State()), clk, deY, deC) then [Saved(old(dumpCtr))] else [])
      ensures y0 == old(y0) && u0 == old(u0)
      ensures forall r, x | 0 <= r < 4 && 0 <= x < yBuf.Length1 ::
                yBuf[r, x] == if RisingClock(old(prevClk), clk) && deY != 0 && r == LumaWriteSlot(old(vcount1)) && x == old(hcount1)
                              then luma else old(yBuf[r, x])
      ensures forall r, x | 0 <= r < 2 && 0 <= x < cBuf.Length1 ::
                cBuf[r, x] == if RisingClock(old(prevClk), clk) && deC != 0 && r == ChromaWriteSlot(old(vcount2)) && x == old(hcount2)
                              then chroma else old(cBuf[r, x])
      ensures var s1 := Yuv420Input(config, old(State()), deY, deC);
              forall x, y | 0 <= x < bmp.Length0 && 0 <= y < bmp.Length1 ::
                bmp[x, y] == if Yuv420Emits(config, old(State()), clk, deY, deC) && y == old(vcount)
                             then Yuv420Pixel(x, UpperLumaSlot(s1.vcount1), ChromaReadSlot(s1.vcount2))
                             else if Yuv420Emits(config, old(State()), clk, deY, deC) && y == old(vcount) + 1
                             then Yuv420Pixel(x, LowerLumaSlot(s1.vcount1), ChromaReadSlot(s1.vcount2))
                             else old(bmp[x, y])
    {
      if clk != 0 && prevClk == 0 {
        Yuv420Rising(config, State(), clk, deY, deC);
        ret := Yuv420Clocked(deY, deC, luma, chroma);
        prevClk := clk;
      } else {
        ret := 0;
        prevClk := clk;
      }
    }
  }
}
