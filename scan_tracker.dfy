/**
 * The per-call behaviour of the video output's position counters and
 * snapshot logic, as pure functions of the previous counters and the
 * sampled signals. The engine (module VideoOutEngine) is proved to update
 * its fields exactly as these functions say; the lemmas here are about what
 * happens over many calls.
 */
module ScanTracker {
  import opened Bits

  datatype Option<T> = None | Some(value: T)

  /** Construction-time configuration, fixed for a capture session. */
  datatype Config = Config(
    bitMask: u8,
    bitShift: nat,
    hsPol: u8,           // level of an active horizontal sync (0 or 1)
    vsPol: u8,           // level of an active vertical sync (0 or 1)
    horOffs: u16,
    horSize: u16,
    verOffs: u16,
    verSize: u16,
    dumpEnabled: bool)   // the snapshot file name is not empty

  /**
   * The engine's internal variables: the 4:2:0 line counters (`hcount1`,
   * `vcount1` for luma, `hcount2`, `vcount2` for chroma), the position
   * counters, the previous clock and sync levels, and the snapshot state.
   */
  datatype Scan = Scan(
    hcount1: u16, hcount2: u16, hcount: u16,
    vcount1: u16, vcount2: u16, vcount: u16,
    prevClk: u8, prevHs: u8, prevVs: u8,
    dumpAct: bool,
    dumpCtr: nat)

  /** The counters right after construction. */
  const Initial := Scan(0, 0, 0, 0, 0, 0, 0, 0, 0, false, 0)

  /** A pixel position inside the BMP. */
  datatype Coord = Coord(x: nat, y: nat)

  predicate RisingClock(prevClk: u8, clk: u8)
  {
    clk != 0 && prevClk == 0
  }

  /** A sync signal reaches its active level in this sample. */
  predicate SyncEdge(level: u8, prev: u8, pol: u8)
  {
    level == pol && prev != pol
  }

  /** `[from, from + 1, ..., from + n - 1]`: snapshot numbers handed out in order. */
  function Numbers(from: nat, n: nat): (r: seq<nat>)
    ensures |r| == n && forall i :: 0 <= i < n ==> r[i] == from + i
  {
    seq(n, i => from + i)
  }

  lemma NumbersCons(from: nat, n: nat)
    ensures [from] + Numbers(from + 1, n) == Numbers(from, n + 1)
  {
    var r := [from] + Numbers(from + 1, n);
    forall i | 0 <= i < n + 1
      ensures r[i] == Numbers(from, n + 1)[i]
    {
      if i > 0 {
        assert r[i] == Numbers(from + 1, n)[i - 1];
      }
    }
  }

  // ---------------------------------------------------------------------
  // Sync-driven capture (eval_RGB444_HV, eval_YUV444_HV, eval_YUV422_HV)
  // ---------------------------------------------------------------------

  /**
   * Where the current sample lands in the BMP, if it lies in the active
   * window: always a coordinate inside `hor_size x ver_size`, relative to
   * the window's offsets.
   */
  function HvTarget(c: Config, s: Scan): (r: Option<Coord>)
    ensures r.Some? ==> r.value.x < c.horSize && r.value.y < c.verSize
    ensures r.Some? ==> r.value.x + c.horOffs == s.hcount && r.value.y + c.verOffs == s.vcount
    ensures r.None? ==> !(c.horOffs <= s.hcount < c.horOffs + c.horSize && c.verOffs <= s.vcount < c.verOffs + c.verSize)
  {
    if c.verOffs <= s.vcount < c.verOffs + c.verSize && c.horOffs <= s.hcount < c.horOffs + c.horSize
    then Some(Coord(s.hcount - c.horOffs, s.vcount - c.verOffs))
    else None
  }

  /** A vertical sync edge is recognised: a frame boundary. */
  predicate HvFrameEdge(c: Config, s: Scan, clk: u8, vs: u8)
  {
    RisingClock(s.prevClk, clk) && SyncEdge(vs, s.prevVs, c.vsPol)
  }

  /** The call saves a snapshot: a frame boundary while saving is armed. */
  predicate HvSaves(c: Config, s: Scan, clk: u8, vs: u8)
  {
    HvFrameEdge(c, s, clk, vs) && s.dumpAct
  }

  /**
   * The counters after one call of a sync-driven `eval_*_HV`. The pixel of
   * the sample is handled first (by the caller), then a vertical sync edge,
   * then a horizontal sync edge.
   */
  function HvNext(c: Config, s: Scan, clk: u8, vs: u8, hs: u8): (t: Scan)
    ensures t.prevClk == clk
    ensures !RisingClock(s.prevClk, clk) ==> t == s.(prevClk := clk)
    ensures RisingClock(s.prevClk, clk) ==> t.prevVs == vs && t.prevHs == hs
    // the 4:2:0 line counters belong to the other path
    ensures t.hcount1 == s.hcount1 && t.vcount1 == s.vcount1
    ensures t.hcount2 == s.hcount2 && t.vcount2 == s.vcount2
    // a vertical edge restarts the frame; with a horizontal edge in the same
    // sample the position is (0, 0), without one the column is already 1
    ensures HvFrameEdge(c, s, clk, vs) ==> t.vcount == 0
    ensures HvFrameEdge(c, s, clk, vs) ==> t.hcount == if SyncEdge(hs, s.prevHs, c.hsPol) then 0 else 1
    // the snapshot counter moves by exactly one per saved snapshot
    ensures t.dumpCtr == if HvSaves(c, s, clk, vs) then s.dumpCtr + 1 else s.dumpCtr
    // saving is armed at the first frame boundary, and only with a file name
    ensures t.dumpAct == (s.dumpAct || (HvFrameEdge(c, s, clk, vs) && c.dumpEnabled))
  {
    if RisingClock(s.prevClk, clk) then HvEdges(c, s, vs, hs).(prevClk := clk)
    else s.(prevClk := clk)
  }

  /** The sync edges of a rising clock edge: first the vertical one, then the horizontal one. */
  function HvEdges(c: Config, s: Scan, vs: u8, hs: u8): (t: Scan)
    ensures t.prevVs == vs && t.prevHs == hs && t.prevClk == s.prevClk
    ensures t.hcount1 == s.hcount1 && t.vcount1 == s.vcount1
    ensures t.hcount2 == s.hcount2 && t.vcount2 == s.vcount2
    // a vertical edge wins over the line count: the frame restarts at line 0
    ensures SyncEdge(vs, s.prevVs, c.vsPol) ==> t.vcount == 0
    ensures !SyncEdge(hs, s.prevHs, c.hsPol) ==> t.hcount == Wrap16(VsEdgeStep(c, s, vs).hcount + 1)
    ensures SyncEdge(hs, s.prevHs, c.hsPol) ==> t.hcount == 0
  {
    HsEdgeStep(c, VsEdgeStep(c, s, vs), hs).(prevVs := vs, prevHs := hs)
  }

  /** Vertical sync: back to the top left corner, a snapshot if armed, then saving is armed if there is a file name. */
  function VsEdgeStep(c: Config, s: Scan, vs: u8): (t: Scan)
    ensures !SyncEdge(vs, s.prevVs, c.vsPol) ==> t == s
    ensures SyncEdge(vs, s.prevVs, c.vsPol) ==> t.hcount == 0 && t.vcount == 0
    // a snapshot is taken only when saving was armed by an earlier edge
    ensures t.dumpCtr == if SyncEdge(vs, s.prevVs, c.vsPol) && s.dumpAct then s.dumpCtr + 1 else s.dumpCtr
    ensures t.dumpAct == (s.dumpAct || (SyncEdge(vs, s.prevVs, c.vsPol) && c.dumpEnabled))
    ensures t == s.(hcount := t.hcount, vcount := t.vcount, dumpCtr := t.dumpCtr, dumpAct := t.dumpAct)
  {
    if SyncEdge(vs, s.prevVs, c.vsPol) then
      s.(hcount := 0, vcount := 0,
         dumpCtr := if s.dumpAct then s.dumpCtr + 1 else s.dumpCtr,
         dumpAct := s.dumpAct || c.dumpEnabled)
    else s
  }

  /** Horizontal sync: the next line, unless fewer than five samples were counted; otherwise one more sample. */
  function HsEdgeStep(c: Config, s: Scan, hs: u8): (t: Scan)
    ensures t == s.(hcount := t.hcount, vcount := t.vcount)
    ensures SyncEdge(hs, s.prevHs, c.hsPol) ==> t.hcount == 0
    ensures !SyncEdge(hs, s.prevHs, c.hsPol) ==> t.hcount == Wrap16(s.hcount + 1)
    // the line moves on exactly at a sync edge after a line of more than four samples
    ensures t.vcount != s.vcount <==> SyncEdge(hs, s.prevHs, c.hsPol) && s.hcount > 4
    ensures t.vcount != s.vcount ==> t.vcount == Wrap16(s.vcount + 1)
  {
    if SyncEdge(hs, s.prevHs, c.hsPol) then
      s.(hcount := 0, vcount := if s.hcount > 4 then Wrap16(s.vcount + 1) else s.vcount)
    else s.(hcount := Wrap16(s.hcount + 1))
  }

  /** Without a frame boundary, a horizontal edge ends the line (if it had more than 4 samples). */
  lemma HvLineEdge(c: Config, s: Scan, clk: u8, vs: u8, hs: u8)
    requires RisingClock(s.prevClk, clk) && !SyncEdge(vs, s.prevVs, c.vsPol)
    ensures var t := HvNext(c, s, clk, vs, hs);
            if SyncEdge(hs, s.prevHs, c.hsPol)
            then t.hcount == 0 && t.vcount == (if s.hcount > 4 then Wrap16(s.vcount + 1) else s.vcount)
            else t.hcount == Wrap16(s.hcount + 1) && t.vcount == s.vcount
  {
  }

  /** One clock-tick observation of the sync-driven bus. */
  datatype HvSample = HvSample(clk: u8, vs: u8, hs: u8)

  function HvStep(c: Config, s: Scan, x: HvSample): Scan
  {
    HvNext(c, s, x.clk, x.vs, x.hs)
  }

  /** The counters after a run of calls. */
  function RunHv(c: Config, s: Scan, xs: seq<HvSample>): Scan
    decreases |xs|
  {
    if xs == [] then s else RunHv(c, HvStep(c, s, xs[0]), xs[1..])
  }

  /** The number of frame boundaries recognised during a run. */
  function HvBoundaries(c: Config, s: Scan, xs: seq<HvSample>): nat
    decreases |xs|
  {
    if xs == [] then 0
    else (if HvFrameEdge(c, s, xs[0].clk, xs[0].vs) then 1 else 0)
         + HvBoundaries(c, HvStep(c, s, xs[0]), xs[1..])
  }

  /** The numbers (`dump_ctr` values) of the snapshots saved during a run, in order. */
  function HvSnapshots(c: Config, s: Scan, xs: seq<HvSample>): seq<nat>
    decreases |xs|
  {
    if xs == [] then []
    else (if HvSaves(c, s, xs[0].clk, xs[0].vs) then [s.dumpCtr] else [])
         + HvSnapshots(c, HvStep(c, s, xs[0]), xs[1..])
  }

  /**
   * Snapshot latency of the sync-driven paths: the first frame boundary
   * only arms saving, every later one saves, snapshots are numbered
   * consecutively from `dump_ctr`, and without a file name nothing is saved.
   */
  lemma {:induction false} HvSnapshotLatency(c: Config, s: Scan, xs: seq<HvSample>)
    requires s.dumpAct ==> c.dumpEnabled
    ensures var n := HvBoundaries(c, s, xs);
            var saves := if !c.dumpEnabled || n == 0 then 0 else if s.dumpAct then n else n - 1;
            && RunHv(c, s, xs).dumpAct == (s.dumpAct || (c.dumpEnabled && n > 0))
            && RunHv(c, s, xs).dumpCtr == s.dumpCtr + saves
            && HvSnapshots(c, s, xs) == Numbers(s.dumpCtr, saves)
    decreases |xs|
  {
    if xs != [] {
      var t := HvStep(c, s, xs[0]);
      HvSnapshotLatency(c, t, xs[1..]);
      if HvSaves(c, s, xs[0].clk, xs[0].vs) {
        var n' := HvBoundaries(c, t, xs[1..]);
        NumbersCons(s.dumpCtr, n');
      }
    }
  }

  /** From construction, a session with `n > 0` frame boundaries saves `n - 1` snapshots, numbered from 0. */
  lemma HvSessionSnapshots(c: Config, xs: seq<HvSample>)
    ensures var n := HvBoundaries(c, Initial, xs);
            HvSnapshots(c, Initial, xs) == Numbers(0, if c.dumpEnabled && n > 0 then n - 1 else 0)
  {
    HvSnapshotLatency(c, Initial, xs);
  }

  // ---------------------------------------------------------------------
  // Data-enable capture (eval_RGB444_DE, eval_YUV444_DE, eval_YUV422_DE)
  // ---------------------------------------------------------------------

  /** The position counters lie inside a non-empty frame. */
  predicate InFrame(c: Config, s: Scan)
  {
    0 < c.horSize && 0 < c.verSize && s.hcount < c.horSize && s.vcount < c.verSize
  }

  /** The enabled sample completes the frame. */
  predicate DeBoundary(c: Config, s: Scan)
  {
    Wrap16(s.hcount + 1) == c.horSize && Wrap16(s.vcount + 1) == c.verSize
  }

  /**
   * One enabled sample: the column advances; a full line moves to the next
   * line, and a full frame restarts at line 0 after arming saving (when a
   * file name is set) and saving if armed.
   */
  function DeAdvance(c: Config, s: Scan): (t: Scan)
    ensures InFrame(c, s) ==> InFrame(c, t)
    ensures t.prevClk == s.prevClk && t.prevHs == s.prevHs && t.prevVs == s.prevVs
    ensures t.hcount1 == s.hcount1 && t.vcount1 == s.vcount1
    ensures t.hcount2 == s.hcount2 && t.vcount2 == s.vcount2
    ensures t.dumpAct == (s.dumpAct || (DeBoundary(c, s) && c.dumpEnabled))
    ensures t.dumpCtr == if DeBoundary(c, s) && t.dumpAct then s.dumpCtr + 1 else s.dumpCtr
  {
    var h := Wrap16(s.hcount + 1);
    if h != c.horSize then s.(hcount := h)
    else
      var v := Wrap16(s.vcount + 1);
      if v != c.verSize then s.(hcount := 0, vcount := v)
      else
        var act := s.dumpAct || c.dumpEnabled;
        s.(hcount := 0, vcount := 0, dumpAct := act,
           dumpCtr := if act then s.dumpCtr + 1 else s.dumpCtr)
  }

  /** The call saves a snapshot: saving is armed before it is tested, so the first boundary already saves. */
  predicate DeSaves(c: Config, s: Scan, clk: u8, de: u8)
  {
    RisingClock(s.prevClk, clk) && de != 0 && DeBoundary(c, s) && (s.dumpAct || c.dumpEnabled)
  }

  /** The counters after one call of a data-enable `eval_*_DE`; a disabled sample only records the clock. */
  function DeNext(c: Config, s: Scan, clk: u8, de: u8): (t: Scan)
    ensures t.prevClk == clk
    ensures !RisingClock(s.prevClk, clk) || de == 0 ==> t == s.(prevClk := clk)
    ensures InFrame(c, s) ==> InFrame(c, t)
  {
    if RisingClock(s.prevClk, clk) && de != 0 then DeAdvance(c, s).(prevClk := clk)
    else s.(prevClk := clk)
  }

  /** The number of samples before the current position in raster order. */
  function Position(c: Config, s: Scan): nat
  {
    s.vcount * c.horSize + s.hcount
  }

  function FrameArea(c: Config): nat
  {
    c.horSize * c.verSize
  }

  /** Raster arithmetic: a position inside a `w x hgt` frame and the position one step later. */
  lemma RasterStep(w: nat, hgt: nat, x: nat, y: nat)
    requires x < w && y < hgt
    ensures y * w + x < w * hgt
    ensures x + 1 < w ==> y * w + x + 1 < w * hgt
    ensures x + 1 == w ==> (y + 1) * w == y * w + x + 1
    ensures x + 1 == w && y + 1 < hgt ==> (y + 1) * w < w * hgt
    ensures x + 1 == w && y + 1 == hgt ==> y * w + x + 1 == w * hgt
  {
    MulMonotone(hgt, y + 1, w);
    assert (y + 1) * w == y * w + w;
    if y + 1 < hgt {
      MulMonotone(hgt, y + 2, w);
      assert (y + 2) * w == (y + 1) * w + w;
    }
  }

  lemma PositionBelowArea(c: Config, s: Scan)
    requires InFrame(c, s)
    ensures Position(c, s) < FrameArea(c)
  {
    RasterStep(c.horSize, c.verSize, s.hcount, s.vcount);
  }

  /** An enabled sample moves one step along the raster and wraps to 0 exactly at the frame's end. */
  lemma DeAdvancePosition(c: Config, s: Scan)
    requires InFrame(c, s)
    ensures DeBoundary(c, s) <==> Position(c, s) + 1 == FrameArea(c)
    ensures Position(c, DeAdvance(c, s)) == if DeBoundary(c, s) then 0 else Position(c, s) + 1
  {
    RasterStep(c.horSize, c.verSize, s.hcount, s.vcount);
    var t := DeAdvance(c, s);
    if s.hcount + 1 < c.horSize {
      assert t.hcount == s.hcount + 1 && t.vcount == s.vcount;
    } else if s.vcount + 1 < c.verSize {
      assert t.hcount == 0 && t.vcount == s.vcount + 1;
    } else {
      assert t.hcount == 0 && t.vcount == 0;
    }
  }

  /** `k` enabled samples in a row. */
  function DeRun(c: Config, s: Scan, k: nat): Scan
    decreases k
  {
    if k == 0 then s else DeRun(c, DeAdvance(c, s), k - 1)
  }

  /** The number of frame boundaries among `k` enabled samples in a row. */
  function DeRunBoundaries(c: Config, s: Scan, k: nat): nat
    decreases k
  {
    if k == 0 then 0
    else (if DeBoundary(c, s) then 1 else 0) + DeRunBoundaries(c, DeAdvance(c, s), k - 1)
  }

  lemma AddModulus(x: nat, m: nat)
    requires m > 0
    ensures (x + m) % m == x % m && (x + m) / m == x / m + 1
  {
    DivModUnique(x + m, m, x / m + 1, x % m);
  }

  /**
   * Enabled samples walk the frame in raster order: after `k` of them the
   * position has advanced by `k` modulo the frame area, and a boundary was
   * signalled once per completed frame.
   */
  lemma {:induction false} DeFramePeriod(c: Config, s: Scan, k: nat)
    requires InFrame(c, s)
    ensures InFrame(c, DeRun(c, s, k))
    ensures Position(c, DeRun(c, s, k)) == (Position(c, s) + k) % FrameArea(c)
    ensures DeRunBoundaries(c, s, k) == (Position(c, s) + k) / FrameArea(c)
    decreases k
  {
    var p, a := Position(c, s), FrameArea(c);
    PositionBelowArea(c, s);
    if k == 0 {
      DivModUnique(p, a, 0, p);
    } else {
      var t := DeAdvance(c, s);
      DeAdvancePosition(c, s);
      DeFramePeriod(c, t, k - 1);
      if DeBoundary(c, s) {
        assert p + k == (k - 1) + a;
        AddModulus(k - 1, a);
      }
    }
  }

  /** From the start of a frame, the next boundary comes with exactly the `hor_size * ver_size`-th enabled sample. */
  lemma DeFrameLength(c: Config, s: Scan, k: nat)
    requires InFrame(c, s) && s.hcount == 0 && s.vcount == 0
    ensures k < FrameArea(c) ==> DeRunBoundaries(c, s, k) == 0
    ensures k == FrameArea(c) ==> DeRunBoundaries(c, s, k) == 1 && Position(c, DeRun(c, s, k)) == 0
  {
    DeFramePeriod(c, s, k);
    PositionBelowArea(c, s);
    if k < FrameArea(c) {
      DivModUnique(k, FrameArea(c), 0, k);
    } else if k == FrameArea(c) {
      DivModUnique(k, FrameArea(c), 1, 0);
    }
  }

  /** One clock-tick observation of the data-enable bus. */
  datatype DeSample = DeSample(clk: u8, de: u8)

  function RunDe(c: Config, s: Scan, xs: seq<DeSample>): Scan
    decreases |xs|
  {
    if xs == [] then s else RunDe(c, DeNext(c, s, xs[0].clk, xs[0].de), xs[1..])
  }

  function DeBoundaries(c: Config, s: Scan, xs: seq<DeSample>): nat
    decreases |xs|
  {
    if xs == [] then 0
    else (if RisingClock(s.prevClk, xs[0].clk) && xs[0].de != 0 && DeBoundary(c, s) then 1 else 0)
         + DeBoundaries(c, DeNext(c, s, xs[0].clk, xs[0].de), xs[1..])
  }

  function DeSnapshots(c: Config, s: Scan, xs: seq<DeSample>): seq<nat>
    decreases |xs|
  {
    if xs == [] then []
    else (if DeSaves(c, s, xs[0].clk, xs[0].de) then [s.dumpCtr] else [])
         + DeSnapshots(c, DeNext(c, s, xs[0].clk, xs[0].de), xs[1..])
  }

  /**
   * Snapshot count of the data-enable paths: with a file name every frame
   * boundary saves (the first one included), numbered consecutively; without
   * one nothing is saved.
   */
  lemma {:induction false} DeSnapshotCount(c: Config, s: Scan, xs: seq<DeSample>)
    requires s.dumpAct ==> c.dumpEnabled
    ensures var n := DeBoundaries(c, s, xs);
            var saves := if c.dumpEnabled then n else 0;
            && RunDe(c, s, xs).dumpAct == (s.dumpAct || (c.dumpEnabled && n > 0))
            && RunDe(c, s, xs).dumpCtr == s.dumpCtr + saves
            && DeSnapshots(c, s, xs) == Numbers(s.dumpCtr, saves)
    decreases |xs|
  {
    if xs != [] {
      var t := DeNext(c, s, xs[0].clk, xs[0].de);
      DeSnapshotCount(c, t, xs[1..]);
      if DeSaves(c, s, xs[0].clk, xs[0].de) {
        NumbersCons(s.dumpCtr, DeBoundaries(c, t, xs[1..]));
      }
    }
  }

  // ---------------------------------------------------------------------
  // YUV 4:2:0 capture with two data enables (eval_YUV420_DE)
  // ---------------------------------------------------------------------

  /** What the 4:2:0 path needs: even, non-empty sizes and counters inside them. */
  predicate Yuv420Valid(c: Config, s: Scan)
  {
    && 0 < c.horSize && c.horSize % 2 == 0
    && 0 < c.verSize && c.verSize % 2 == 0
    && s.hcount1 < c.horSize && s.hcount2 < c.horSize
    && s.vcount % 2 == 0 && s.vcount < c.verSize
  }

  /** One sample of a line: the column advances and a full line bumps the line counter. */
  function LineAdvance(size: u16, h: u16, v: u16): (r: (u16, u16))
    ensures h < size ==> r.0 < size
    ensures r.0 == 0 || r.1 == v
    // inside a line: the next column, or column 0 of the next line at the line's end
    ensures h < size ==> if h + 1 < size then r == (h + 1, v) else r == (0, Wrap16(v + 1))
  {
    var h' := Wrap16(h + 1);
    if h' == size then (0, Wrap16(v + 1)) else (h', v)
  }

  /** Inside a line, a stored sample moves the raster position `v * size + h` on by exactly one. */
  lemma LineAdvancePosition(size: u16, h: u16, v: u16)
    requires h < size && v + 1 < 0x1_0000
    ensures var r := LineAdvance(size, h, v);
            r.1 * size + r.0 == v * size + h + 1
  {
    if h + 1 == size {
      assert LineAdvance(size, h, v) == (0, v + 1);
      assert (v + 1) * size == v * size + size;
    }
  }

  /** The line counters after the luma and chroma samples of a rising edge are stored. */
  function Yuv420Input(c: Config, s: Scan, deY: u8, deC: u8): (t: Scan)
    ensures t.hcount == s.hcount && t.vcount == s.vcount && t.prevClk == s.prevClk
    ensures t.dumpAct == s.dumpAct && t.dumpCtr == s.dumpCtr
    ensures Yuv420Valid(c, s) ==> Yuv420Valid(c, t)
    // each ring's counters move as one stored sample exactly when its data enable is set
    ensures (t.hcount1, t.vcount1) == if deY != 0 then LineAdvance(c.horSize, s.hcount1, s.vcount1) else (s.hcount1, s.vcount1)
    ensures (t.hcount2, t.vcount2) == if deC != 0 then LineAdvance(c.horSize, s.hcount2, s.vcount2) else (s.hcount2, s.vcount2)
  {
    var (h1, v1) := if deY != 0 then LineAdvance(c.horSize, s.hcount1, s.vcount1) else (s.hcount1, s.vcount1);
    var (h2, v2) := if deC != 0 then LineAdvance(c.horSize, s.hcount2, s.vcount2) else (s.hcount2, s.vcount2);
    s.(hcount1 := h1, vcount1 := v1, hcount2 := h2, vcount2 := v2)
  }

  /** Two luma lines and one chroma line beyond the output line are complete (computed in `int`). */
  predicate Yuv420Ready(s: Scan)
  {
    s.vcount1 - s.vcount >= 2 && s.vcount2 * 2 - s.vcount >= 2
  }

  /** Two output lines were emitted: the output line moves by 2; at the frame's end the ring bases rewind. */
  function Yuv420Emit(c: Config, s: Scan): (t: Scan)
    // inside the frame: two lines further, ring bases untouched
    ensures s.vcount + 2 < c.verSize ==> t.vcount == s.vcount + 2 && t.vcount1 == s.vcount1 && t.vcount2 == s.vcount2
    // at the frame's end: back to line 0, each ring's line counter rewound
    // by one frame (exactly, once the rings hold the lines just emitted)
    ensures s.vcount + 2 == c.verSize ==> t.vcount == 0
    ensures s.vcount + 2 == c.verSize && Yuv420Ready(s) ==>
              t.vcount1 == s.vcount1 - c.verSize && t.vcount2 == s.vcount2 - c.verSize / 2
  {
    var v := Wrap16(s.vcount + 2);
    if v != c.verSize then s.(vcount := v)
    else
      var act := s.dumpAct || c.dumpEnabled;
      s.(vcount := 0,
         vcount1 := Wrap16(s.vcount1 - c.verSize),
         vcount2 := Wrap16(s.vcount2 - c.verSize / 2),
         dumpAct := act,
         dumpCtr := if act then s.dumpCtr + 1 else s.dumpCtr)
  }

  /** The 4:2:0 frame boundary: the two lines just emitted are the last ones. */
  predicate Yuv420Boundary(c: Config, s: Scan)
  {
    Yuv420Ready(s) && Wrap16(s.vcount + 2) == c.verSize
  }

  /** The call emits two output lines: a rising edge after which the rings hold enough lines. */
  predicate Yuv420Emits(c: Config, s: Scan, clk: u8, deY: u8, deC: u8)
  {
    RisingClock(s.prevClk, clk) && Yuv420Ready(Yuv420Input(c, s, deY, deC))
  }

  predicate Yuv420Saves(c: Config, s: Scan, clk: u8, deY: u8, deC: u8)
  {
    RisingClock(s.prevClk, clk) && Yuv420Boundary(c, Yuv420Input(c, s, deY, deC))
    && (s.dumpAct || c.dumpEnabled)
  }

  /** The counters after one call of `eval_YUV420_DE`. */
  function Yuv420Next(c: Config, s: Scan, clk: u8, deY: u8, deC: u8): (t: Scan)
    ensures t.prevClk == clk
    ensures !RisingClock(s.prevClk, clk) ==> t == s.(prevClk := clk)
    ensures t.hcount == s.hcount && t.prevHs == s.prevHs && t.prevVs == s.prevVs
    ensures t.dumpCtr == if Yuv420Saves(c, s, clk, deY, deC) then s.dumpCtr + 1 else s.dumpCtr
  {
    if !RisingClock(s.prevClk, clk) then s.(prevClk := clk)
    else
      var s1 := Yuv420Input(c, s, deY, deC);
      if Yuv420Ready(s1) then Yuv420Emit(c, s1).(prevClk := clk) else s1.(prevClk := clk)
  }

  /** On a rising edge the call stores, then emits exactly when the rings are ready, and saves only at a ready frame end. */
  lemma Yuv420Rising(c: Config, s: Scan, clk: u8, deY: u8, deC: u8)
    requires RisingClock(s.prevClk, clk)
    ensures var s1 := Yuv420Input(c, s, deY, deC);
            && Yuv420Next(c, s, clk, deY, deC) == (if Yuv420Ready(s1) then Yuv420Emit(c, s1) else s1).(prevClk := clk)
            && (Yuv420Emits(c, s, clk, deY, deC) <==> Yuv420Ready(s1))
            && (Yuv420Saves(c, s, clk, deY, deC) <==> Yuv420Boundary(c, s1) && (s.dumpAct || c.dumpEnabled))
  {
  }

  /**
   * The frame-end rewind never wraps below zero: readiness guarantees at
   * least `ver_size` luma lines and `ver_size / 2` chroma lines, and the
   * position counters stay valid.
   */
  lemma Yuv420RewindExact(c: Config, s: Scan, clk: u8, deY: u8, deC: u8)
    requires Yuv420Valid(c, s)
    ensures Yuv420Valid(c, Yuv420Next(c, s, clk, deY, deC))
    ensures var s1 := Yuv420Input(c, s, deY, deC);
            RisingClock(s.prevClk, clk) && Yuv420Boundary(c, s1) ==>
              && s1.vcount1 >= c.verSize && s1.vcount2 * 2 >= c.verSize
              && Yuv420Next(c, s, clk, deY, deC).vcount1 == s1.vcount1 - c.verSize
              && Yuv420Next(c, s, clk, deY, deC).vcount2 == s1.vcount2 - c.verSize / 2
  {
    var s1 := Yuv420Input(c, s, deY, deC);
    if RisingClock(s.prevClk, clk) && Yuv420Ready(s1) {
      assert s1.vcount + 2 <= c.verSize;
    }
  }

  /** The luma ring slot of the line being filled, `vcount1 & 3`, and the chroma one, `vcount2 & 1`. */
  function LumaWriteSlot(vcount1: u16): (r: nat)
    ensures r == vcount1 % 4
  {
    BitAndLowMask(vcount1, 2);
    BitAnd(vcount1, 3)
  }

  function ChromaWriteSlot(vcount2: u16): (r: nat)
    ensures r == vcount2 % 2
  {
    BitAndLowMask(vcount2, 1);
    BitAnd(vcount2, 1)
  }

  /** The luma slots the two output lines are read from, `(vcount1 & 2) ^ 2` and `(vcount1 & 2) ^ 3`. */
  function UpperLumaSlot(vcount1: u16): (r: nat)
    ensures r < 4 && r % 2 == 0
  {
    BitAndTwo(vcount1);
    BitXor(BitAnd(vcount1, 2), 2)
  }

  function LowerLumaSlot(vcount1: u16): (r: nat)
    ensures r == UpperLumaSlot(vcount1) + 1
  {
    BitAndTwo(vcount1);
    BitXor(BitAnd(vcount1, 2), 3)
  }

  /** The chroma slot the shared chroma pairs are read from, `(vcount2 & 1) ^ 1`. */
  function ChromaReadSlot(vcount2: u16): (r: nat)
    ensures r < 2 && r != vcount2 % 2
  {
    BitAndLowMask(vcount2, 1);
    BitXor(BitAnd(vcount2, 1), 1)
  }

  /**
   * The ring slots read for output are those of the two output lines
   * `vcount` and `vcount + 1` exactly when the luma counter is two or three
   * lines ahead of the output line.
   */
  lemma LumaReadSlots(vcount: u16, vcount1: u16)
    requires vcount % 2 == 0 && 2 <= vcount1 - vcount <= 3
    ensures UpperLumaSlot(vcount1) == vcount % 4
    ensures LowerLumaSlot(vcount1) == (vcount + 1) % 4
  {
    HalfParity(vcount, vcount1);
    assert (vcount + 1) % 4 == vcount % 4 + 1;
    UpperSlotValue(vcount1);
  }

  /** Two or three lines past an even line, bit 1 of the counter is set exactly when that even line is a multiple of 4. */
  lemma HalfParity(vcount: nat, vcount1: nat)
    requires vcount % 2 == 0 && vcount + 2 <= vcount1 <= vcount + 3
    ensures (vcount1 / 2) % 2 == 1 - (vcount % 4) / 2
  {
    var q := vcount / 4;
    if vcount % 4 == 0 {
      assert vcount == 4 * q;
      assert vcount1 / 2 == 2 * q + 1;
    } else {
      assert vcount == 4 * q + 2;
      assert vcount1 / 2 == 2 * q + 2;
    }
  }

  /** The upper read slot is 0 when bit 1 of the luma counter is set, 2 otherwise. */
  lemma UpperSlotValue(vcount1: u16)
    ensures UpperLumaSlot(vcount1) == 2 - 2 * ((vcount1 / 2) % 2)
  {
    BitAndTwo(vcount1);
    if (vcount1 / 2) % 2 == 1 {
      assert BitXor(2, 2) == 0;
    } else {
      assert BitXor(0, 2) == 2;
    }
  }

  /** A ready chroma counter is at least 1, and the slot read is that of chroma line `vcount2 - 1`. */
  lemma ChromaReadLine(s: Scan)
    requires Yuv420Ready(s)
    ensures s.vcount2 >= 1 && ChromaReadSlot(s.vcount2) == (s.vcount2 - 1) % 2
  {
  }
}
