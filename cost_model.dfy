/** The analytical latency model `spmm_kernel_simulation`: an initialisation
    stage, one B-fetch stage per window followed by one compute stage per
    sub-window cycle, a C write-back stage and a drain, each stage costing the
    larger of its memory time and its compute time; the sum is scaled by the
    number of 8-column passes over the batch and a fixed start-up time is
    added. Durations are seconds, computed over exact reals. */
module CostModel {
  import opened Alignment
  import HostBuffers

  /** Clock of the accelerator, in hertz. */
  const Frequency: real := 350000000.0

  /** Effective memory bandwidth, 90% of 900 GB/s, in bytes per second. */
  const MemoryBandwidth: real := 810000000000.0

  /** `std::max` on doubles. */
  function MaxR(a: real, b: real): (m: real)
    ensures m >= a && m >= b && (m == a || m == b)
  {
    if a < b then b else a
  }

  /** `std::min` on ints. */
  function MinI(a: int, b: int): (m: int)
    ensures m <= a && m <= b && (m == a || m == b)
  {
    if b < a then b else a
  }

  /** The integer arguments of one simulation run. */
  datatype Config = Config(
    N: int,           // batch width of B and C
    numRow: int,      // rows of A (and of C)
    numColumn: int,   // columns of A (rows of B)
    windowSize: int,  // columns of B per window
    numIte: int,      // number of windows
    cycB: int)        // sub-window cycles per window

  /** `init_cycle`: C's rows initialised 64 per cycle. */
  function InitCycle(numRow: int): (r: int)
    ensures numRow >= 0 ==> 0 <= r && numRow <= 64 * r < numRow + 64
  {
    TruncDiv(numRow + 63, 64)
  }

  /** `base_col_index` of window `i`. */
  function BaseColIndex(cfg: Config, i: int): int
  {
    i * cfg.windowSize * cfg.cycB
  }

  /** `wd_actual`: the columns the window reads, at most a full window,
      rounded up to 16 with C's truncating division. */
  function WdActual(cfg: Config, i: int): (wd: int)
    ensures wd % 16 == 0
    ensures var cols := MinI(cfg.windowSize * cfg.cycB, cfg.numColumn - BaseColIndex(cfg, i));
      cols >= 0 ==> cols <= wd < cols + 16
  {
    TruncDiv(MinI(cfg.windowSize * cfg.cycB, cfg.numColumn - BaseColIndex(cfg, i)) + 15, 16) * 16
  }

  /** `row_act`: the rows of C rounded up to 16. */
  function RowAct(numRow: int): (r: int)
    ensures r % 16 == 0
    ensures numRow >= 0 ==> numRow <= r < numRow + 16
  {
    TruncDiv(numRow + 15, 16) * 16
  }

  /** `len_A`: the difference of two consecutive `unsigned int` pointers,
      taken modulo 2^32 and stored into an `int`. */
  function LenA(ptr: seq<U32>, j: nat): (len: int)
    requires j + 1 < |ptr|
    ensures -0x8000_0000 <= len < 0x8000_0000
    ensures (len - (ptr[j + 1] as int - ptr[j] as int)) % 0x1_0000_0000 == 0
  {
    var d: int := (ptr[j + 1] as int - ptr[j] as int) % 0x1_0000_0000;
    if d < 0x8000_0000 then d else d - 0x1_0000_0000
  }

  /** A window of non-negative size and cycle count that starts inside the
      matrix reads a non-negative number of columns. */
  lemma WdActualNonNegative(cfg: Config, i: int)
    requires cfg.windowSize >= 0 && cfg.cycB >= 0 && BaseColIndex(cfg, i) <= cfg.numColumn
    ensures 0 <= WdActual(cfg, i) < cfg.numColumn - BaseColIndex(cfg, i) + 16
  {
    MulMonotone(cfg.cycB, 0, cfg.windowSize);
  }

  /** Initialisation stage: one cycle per 64 rows of C. */
  function InitCost(numRow: int): (t: real)
    ensures numRow >= 0 ==> t >= 0.0
  {
    (InitCycle(numRow) as real) / Frequency
  }

  /** B-fetch stage: 4-byte words shared by 8 PEs, or 16 columns a cycle. */
  function FetchCost(wd: int): (t: real)
    ensures wd >= 0 ==> t >= 0.0
  {
    MaxR(4.0 * (wd as real) * 8.0 / MemoryBandwidth, (wd as real) / 16.0 / Frequency)
  }

  /** Compute stage of one cycle: 64-byte reads shared by 8, or one unit a
      cycle after a 17-cycle fill. */
  function ComputeCost(len: int): (t: real)
    ensures len >= 0 ==> t > 0.0
  {
    MaxR(64.0 * (len as real) * 8.0 / MemoryBandwidth, ((len + 17) as real) / Frequency)
  }

  /** C write-back stage. */
  function WritebackCost(numRow: int): (t: real)
    ensures numRow >= 0 ==> t > 0.0
  {
    MaxR(4.0 * (RowAct(numRow) as real) * 8.0 / MemoryBandwidth,
         ((TruncDiv(RowAct(numRow), 16) + 21) as real) / Frequency)
  }

  /** Fixed drain latency after the write-back. */
  const DrainCost: real := 48.0 / Frequency

  /** Fixed start-up latency, added once after the scaling. */
  const StartupCost: real := 2000.0 / Frequency

  /** The number of cycles the inner loop runs per window. */
  function CycleCount(cfg: Config): nat
  {
    if cfg.cycB > 0 then cfg.cycB else 0
  }

  /** The number of windows the outer loop runs. */
  function WindowCount(cfg: Config): nat
  {
    if cfg.numIte > 0 then cfg.numIte else 0
  }

  /** The highest pointer index the simulation reads (0 when it reads none). */
  function ReadBound(cfg: Config): nat
  {
    WindowCount(cfg) * CycleCount(cfg)
  }

  /** Every `edge_list_ptr` read of the simulation is in range. */
  predicate ReadsInRange(cfg: Config, ptr: seq<U32>)
  {
    ReadBound(cfg) == 0 || ReadBound(cfg) < |ptr|
  }

  /** The compute stages of the first `c` cycles of window `i`, in loop order. */
  function CyclesCost(cfg: Config, ptr: seq<U32>, i: nat, c: nat): real
    requires c <= CycleCount(cfg)
    requires c == 0 || i * CycleCount(cfg) + c < |ptr|
  {
    if c == 0 then 0.0
    else CyclesCost(cfg, ptr, i, c - 1) + ComputeCost(LenA(ptr, i * CycleCount(cfg) + c - 1))
  }

  /** The fetch stage and the compute stages of window `i`. */
  function WindowCost(cfg: Config, ptr: seq<U32>, i: nat): real
    requires CycleCount(cfg) == 0 || (i + 1) * CycleCount(cfg) < |ptr|
  {
    FetchCost(WdActual(cfg, i)) + CyclesCost(cfg, ptr, i, CycleCount(cfg))
  }

  /** The first `n` windows, in loop order. */
  function WindowsCost(cfg: Config, ptr: seq<U32>, n: nat): real
    requires n * CycleCount(cfg) == 0 || n * CycleCount(cfg) < |ptr|
    decreases n
  {
    if n == 0 then 0.0
    else
      MulMonotone(CycleCount(cfg), n - 1, n);
      WindowsCost(cfg, ptr, n - 1) + WindowCost(cfg, ptr, n - 1)
  }

  /** The per-pass cost: everything that `p_time *= N/8` scales. */
  function StageSum(cfg: Config, ptr: seq<U32>): real
    requires ReadsInRange(cfg, ptr)
  {
    InitCost(cfg.numRow) + WindowsCost(cfg, ptr, WindowCount(cfg))
      + WritebackCost(cfg.numRow) + DrainCost
  }

  /** The projected kernel time. */
  function SimulatedTime(cfg: Config, ptr: seq<U32>): real
    requires ReadsInRange(cfg, ptr)
  {
    Scaled(StageSum(cfg, ptr), Passes(cfg.N)) + StartupCost
  }

  /** `N / 8`: the number of 8-column passes over the batch. */
  function Passes(N: int): int
  {
    TruncDiv(N, 8)
  }

  /** `p_time *= N / 8`. */
  function Scaled(t: real, passes: int): real
  {
    t * (passes as real)
  }

  lemma MulSucc(a: int, b: int)
    ensures (a + 1) * b == a * b + b
  {
  }

  /** The pointer index read by cycle `c` of window `i`, and the one after
      it, lie within the range `ReadsInRange` guarantees. */
  lemma {:induction false} ReadIndexInRange(cfg: Config, ptr: seq<U32>, i: nat, c: nat)
    requires ReadsInRange(cfg, ptr) && i < WindowCount(cfg) && c < CycleCount(cfg)
    ensures i * CycleCount(cfg) + c + 1 <= ReadBound(cfg) < |ptr|
  {
    MulMonotone(CycleCount(cfg), i + 1, WindowCount(cfg));
    MulSucc(i, CycleCount(cfg));
  }

  /** Conversely, every pointer step below `ReadBound` is visited by the
      loops: step `j` is cycle `j % NUM_CYC_B` of window `j / NUM_CYC_B`. */
  lemma {:induction false} ReadIndexCovered(cfg: Config, j: nat)
    requires j < ReadBound(cfg)
    ensures CycleCount(cfg) > 0
    ensures j / CycleCount(cfg) < WindowCount(cfg) && j % CycleCount(cfg) < CycleCount(cfg)
    ensures j == (j / CycleCount(cfg)) * CycleCount(cfg) + j % CycleCount(cfg)
  {
    var cc := CycleCount(cfg);
    var q := j / cc;
    if q >= WindowCount(cfg) {
      // then j >= q * cc >= WindowCount * cc == ReadBound
      MulMonotone(cc, WindowCount(cfg), q);
      assert false;
    }
  }

  /** Between non-decreasing pointers less than 2^31 apart, `len_A` is the
      plain difference: the number of sparse elements of that cycle. */
  lemma LenAOfMonotone(ptr: seq<U32>, j: nat)
    requires j + 1 < |ptr| && Ascends(ptr, j)
    ensures LenA(ptr, j) == ptr[j + 1] as int - ptr[j] as int >= 0
  {
  }

  /** The pointer does not decrease from `j` to `j + 1`, and rises by less
      than 2^31. */
  predicate Ascends(ptr: seq<U32>, j: nat)
    requires j + 1 < |ptr|
  {
    ptr[j] <= ptr[j + 1] && ptr[j + 1] as int - ptr[j] as int < 0x8000_0000
  }

  /** The work of the first `k` compute stages, counted as `len_A` does. */
  function WorkUpTo(ptr: seq<U32>, k: nat): int
    requires k < |ptr|
  {
    if k == 0 then 0 else WorkUpTo(ptr, k - 1) + LenA(ptr, k - 1)
  }

  /** Over a non-decreasing stretch of pointers the stage works telescope:
      together they cover exactly the elements between the first and the
      last pointer. */
  lemma {:induction false} WorkTelescopes(ptr: seq<U32>, k: nat)
    requires k < |ptr|
    requires forall j: nat :: j < k ==> Ascends(ptr, j)
    ensures WorkUpTo(ptr, k) == ptr[k] as int - ptr[0] as int
  {
    if k > 0 {
      WorkTelescopes(ptr, k - 1);
      assert Ascends(ptr, k - 1);
      LenAOfMonotone(ptr, k - 1);
    }
  }

  /** Inputs the host produces: non-negative sizes, windows that start inside
      the matrix, and a pointer array that never decreases over the part the
      simulation reads. */
  predicate WellFormed(cfg: Config, ptr: seq<U32>)
  {
    && ReadsInRange(cfg, ptr)
    && cfg.numRow >= 0 && cfg.windowSize >= 0 && cfg.cycB >= 0
    && (forall i: nat :: i < WindowCount(cfg) ==> BaseColIndex(cfg, i) <= cfg.numColumn)
    && (forall j: nat :: j < ReadBound(cfg) ==> Ascends(ptr, j))
  }

  lemma {:induction false} CyclesCostPositive(cfg: Config, ptr: seq<U32>, i: nat, c: nat)
    requires WellFormed(cfg, ptr)
    requires c <= CycleCount(cfg) && i * CycleCount(cfg) + c <= ReadBound(cfg)
    ensures CyclesCost(cfg, ptr, i, c) >= 0.0
    ensures c > 0 ==> CyclesCost(cfg, ptr, i, c) > 0.0
  {
    if c > 0 {
      CyclesCostPositive(cfg, ptr, i, c - 1);
      var j := i * CycleCount(cfg) + c - 1;
      assert Ascends(ptr, j);
      LenAOfMonotone(ptr, j);
    }
  }

  lemma {:induction false} WindowsCostNonNegative(cfg: Config, ptr: seq<U32>, n: nat)
    requires WellFormed(cfg, ptr)
    requires n <= WindowCount(cfg) && n * CycleCount(cfg) <= ReadBound(cfg)
    ensures WindowsCost(cfg, ptr, n) >= 0.0
  {
    if n > 0 {
      var cc := CycleCount(cfg);
      MulMonotone(cc, n - 1, n);
      WindowsCostNonNegative(cfg, ptr, n - 1);
      MulSucc(n - 1, cc);
      CyclesCostPositive(cfg, ptr, n - 1, cc);
      assert BaseColIndex(cfg, n - 1) <= cfg.numColumn;
      WdActualNonNegative(cfg, n - 1);
    }
  }

  /** Under well-formed inputs every stage costs a non-negative time and the
      write-back and drain stages a positive one. */
  lemma StageSumPositive(cfg: Config, ptr: seq<U32>)
    requires WellFormed(cfg, ptr)
    ensures StageSum(cfg, ptr) > 0.0
  {
    WindowsCostNonNegative(cfg, ptr, WindowCount(cfg));
    var init, windows, writeback := InitCost(cfg.numRow), WindowsCost(cfg, ptr, WindowCount(cfg)), WritebackCost(cfg.numRow);
    StagesPositive(init, windows, writeback);
  }

  lemma StagesPositive(init: real, windows: real, writeback: real)
    requires init >= 0.0 && windows >= 0.0 && writeback > 0.0
    ensures init + windows + writeback + DrainCost > 0.0
  {
  }

  /** Two configurations that run the same windows and cycles. */
  predicate SameLoops(cfg: Config, cfg': Config)
  {
    cfg.windowSize == cfg'.windowSize && cfg.numIte == cfg'.numIte && cfg.cycB == cfg'.cycB
  }

  /** `ptr'` gives each compute stage at least the work `ptr` gives it. */
  predicate LessWork(cfg: Config, ptr: seq<U32>, ptr': seq<U32>)
    requires ReadsInRange(cfg, ptr) && ReadsInRange(cfg, ptr')
  {
    forall j: nat :: j < ReadBound(cfg) ==> LenA(ptr, j) <= LenA(ptr', j)
  }

  lemma ComputeCostMonotone(len: int, len': int)
    requires len <= len'
    ensures ComputeCost(len) <= ComputeCost(len')
  {
  }

  lemma FetchCostMonotone(wd: int, wd': int)
    requires wd <= wd'
    ensures FetchCost(wd) <= FetchCost(wd')
  {
  }

  lemma {:induction false} WdActualMonotone(cfg: Config, cfg': Config, i: int)
    requires SameLoops(cfg, cfg') && cfg.numColumn <= cfg'.numColumn
    ensures WdActual(cfg, i) <= WdActual(cfg', i)
  {
    var cols := MinI(cfg.windowSize * cfg.cycB, cfg.numColumn - BaseColIndex(cfg, i));
    var cols' := MinI(cfg'.windowSize * cfg'.cycB, cfg'.numColumn - BaseColIndex(cfg', i));
    TruncDivMonotone(cols + 15, cols' + 15, 16);
  }

  lemma {:induction false} RowCostsMonotone(numRow: int, numRow': int)
    requires numRow <= numRow'
    ensures InitCost(numRow) <= InitCost(numRow')
    ensures WritebackCost(numRow) <= WritebackCost(numRow')
  {
    TruncDivMonotone(numRow + 63, numRow' + 63, 64);
    TruncDivMonotone(numRow + 15, numRow' + 15, 16);
    TruncDivMonotone(RowAct(numRow), RowAct(numRow'), 16);
  }

  lemma {:induction false} CyclesCostMonotone(cfg: Config, ptr: seq<U32>, cfg': Config, ptr': seq<U32>, i: nat, c: nat)
    requires SameLoops(cfg, cfg') && ReadsInRange(cfg, ptr) && ReadsInRange(cfg, ptr')
    requires LessWork(cfg, ptr, ptr')
    requires c <= CycleCount(cfg) && i * CycleCount(cfg) + c <= ReadBound(cfg)
    ensures CyclesCost(cfg, ptr, i, c) <= CyclesCost(cfg', ptr', i, c)
  {
    if c > 0 {
      CyclesCostMonotone(cfg, ptr, cfg', ptr', i, c - 1);
      ComputeCostMonotone(LenA(ptr, i * CycleCount(cfg) + c - 1), LenA(ptr', i * CycleCount(cfg) + c - 1));
    }
  }

  lemma {:induction false} WindowsCostMonotone(cfg: Config, ptr: seq<U32>, cfg': Config, ptr': seq<U32>, n: nat)
    requires SameLoops(cfg, cfg') && cfg.numColumn <= cfg'.numColumn
    requires ReadsInRange(cfg, ptr) && ReadsInRange(cfg, ptr') && LessWork(cfg, ptr, ptr')
    requires n <= WindowCount(cfg) && n * CycleCount(cfg) <= ReadBound(cfg)
    ensures WindowsCost(cfg, ptr, n) <= WindowsCost(cfg', ptr', n)
  {
    if n > 0 {
      var cc := CycleCount(cfg);
      MulMonotone(cc, n - 1, n);
      WindowsCostMonotone(cfg, ptr, cfg', ptr', n - 1);
      MulSucc(n - 1, cc);
      CyclesCostMonotone(cfg, ptr, cfg', ptr', n - 1, cc);
      WdActualMonotone(cfg, cfg', n - 1);
      FetchCostMonotone(WdActual(cfg, n - 1), WdActual(cfg', n - 1));
    }
  }

  /** The per-pass cost grows with the rows of C, with the columns of A and
      with the work of every compute stage. */
  lemma StageSumMonotone(cfg: Config, ptr: seq<U32>, cfg': Config, ptr': seq<U32>)
    requires SameLoops(cfg, cfg') && cfg.numRow <= cfg'.numRow && cfg.numColumn <= cfg'.numColumn
    requires ReadsInRange(cfg, ptr) && ReadsInRange(cfg', ptr') && LessWork(cfg, ptr, ptr')
    ensures StageSum(cfg, ptr) <= StageSum(cfg', ptr')
  {
    WindowsCostMonotone(cfg, ptr, cfg', ptr', WindowCount(cfg));
    RowCostsMonotone(cfg.numRow, cfg'.numRow);
  }

  /** The projected time grows with the batch width, the rows of C, the
      columns of A and the work of every compute stage. */
  lemma {:induction false} SimulatedTimeMonotone(cfg: Config, ptr: seq<U32>, cfg': Config, ptr': seq<U32>)
    requires WellFormed(cfg, ptr) && ReadsInRange(cfg', ptr')
    requires SameLoops(cfg, cfg') && cfg.numRow <= cfg'.numRow && cfg.numColumn <= cfg'.numColumn
    requires 0 <= cfg.N <= cfg'.N && LessWork(cfg, ptr, ptr')
    ensures SimulatedTime(cfg, ptr) <= SimulatedTime(cfg', ptr')
  {
    StageSumPositive(cfg, ptr);
    StageSumMonotone(cfg, ptr, cfg', ptr');
    TruncDivMonotone(cfg.N, cfg'.N, 8);
    ScaledMonotone(StageSum(cfg, ptr), StageSum(cfg', ptr'), Passes(cfg.N), Passes(cfg'.N));
  }

  lemma ScaledMonotone(t: real, t': real, passes: int, passes': int)
    requires 0.0 <= t <= t' && 0 <= passes <= passes'
    ensures Scaled(t, passes) <= Scaled(t', passes')
  {
    assert t * (passes as real) <= t * (passes' as real);
  }

  /** Only the pointers up to `ReadBound` matter: pointer arrays that agree
      there, whatever their padding, give the same projected time. */
  lemma {:induction false} SimulatedTimeIgnoresPadding(cfg: Config, ptr: seq<U32>, ptr': seq<U32>)
    requires ReadsInRange(cfg, ptr) && ReadsInRange(cfg, ptr')
    requires forall j: nat :: j <= ReadBound(cfg) && j < |ptr| ==> j < |ptr'| && ptr[j] == ptr'[j]
    ensures SimulatedTime(cfg, ptr) == SimulatedTime(cfg, ptr')
  {
    forall j: nat | j < ReadBound(cfg)
      ensures LenA(ptr, j) == LenA(ptr', j)
    {
      assert ptr[j] == ptr'[j] && ptr[j + 1] == ptr'[j + 1];
    }
    StageSumMonotone(cfg, ptr, cfg, ptr');
    StageSumMonotone(cfg, ptr', cfg, ptr);
  }

  /** A batch narrower than 8 columns gets no pass at all: only the start-up
      time remains. */
  lemma ShortBatch(cfg: Config, ptr: seq<U32>)
    requires ReadsInRange(cfg, ptr) && -8 < cfg.N < 8
    ensures SimulatedTime(cfg, ptr) == StartupCost
  {
    assert Passes(cfg.N) == 0;
    assert Scaled(StageSum(cfg, ptr), 0) == 0.0;
  }

  /** Eight more columns of B add exactly one more pass. */
  lemma {:induction false} ExtraPass(cfg: Config, ptr: seq<U32>)
    requires ReadsInRange(cfg, ptr) && cfg.N >= 0
    ensures SimulatedTime(cfg.(N := cfg.N + 8), ptr) == SimulatedTime(cfg, ptr) + StageSum(cfg, ptr)
  {
    var wider := cfg.(N := cfg.N + 8);
    var stages := StageSum(cfg, ptr);
    StageSumMonotone(cfg, ptr, wider, ptr);
    StageSumMonotone(wider, ptr, cfg, ptr);
    assert StageSum(wider, ptr) == stages;
    var k := Passes(cfg.N);
    assert Passes(wider.N) == k + 1;
    ScaledSucc(stages, k);
  }

  lemma ScaledSucc(t: real, passes: int)
    ensures Scaled(t, passes + 1) == Scaled(t, passes) + t
  {
  }

  /** `main` runs the simulation with one window per pointer step
      (`num_ite = edge_list_ptr_size - 1`, one cycle per window, windows of
      4096 columns) over the padded buffer `edge_list_ptr_fpga`: every read
      stays inside that buffer. */
  lemma MainCallReadsInRange(N: int, M: int, K: int, size: nat, fpga: seq<U32>)
    requires size >= 1 && |fpga| == HostBuffers.EdgeListPtrChunkSize(size)
    ensures ReadsInRange(Config(N, M, K, 4096, size - 1, 1), fpga)
    ensures ReadBound(Config(N, M, K, 4096, size - 1, 1)) == size - 1
  {
    var cfg := Config(N, M, K, 4096, size - 1, 1);
    assert CycleCount(cfg) == 1 && WindowCount(cfg) == size - 1;
    assert ReadBound(cfg) == size - 1;
    assert size <= HostBuffers.EdgeListPtrChunkSize(size);
  }

  /** One iteration of the outer loop of `spmm_kernel_simulation`: adds the
      B-fetch stage of window `i`, then the compute stage of each of its
      cycles, to the running total `pTime`. */
  method AccumulateWindow(cfg: Config, ptr: seq<U32>, i: nat, pTime: real) returns (pTime': real)
    requires CycleCount(cfg) == 0 || (i + 1) * CycleCount(cfg) < |ptr|
    ensures pTime' == pTime + WindowCost(cfg, ptr, i)
  {
    var wdActual := WdActual(cfg, i);
    pTime' := pTime + FetchCost(wdActual);
    var c := 0;
    while c < cfg.cycB
      invariant 0 <= c <= CycleCount(cfg)
      invariant pTime' == pTime + FetchCost(WdActual(cfg, i)) + CyclesCost(cfg, ptr, i, c)
    {
      MulSucc(i, CycleCount(cfg));
      var lenA := LenA(ptr, i * cfg.cycB + c);
      pTime' := pTime' + ComputeCost(lenA);
      c := c + 1;
    }
  }

  /** `spmm_kernel_simulation`, accumulating into `pTime` as the source does.
      `numPE` is accepted and unused, as in the source. The source's
      `NUM_CYC_B` defaults to 1; here `cycB` is always passed. */
  method SpmmKernelSimulation(N: int, numPE: int, numRow: int, numColumn: int, windowSize: int,
                              numIte: int, ptr: seq<U32>, cycB: int) returns (pTime: real)
    requires ReadsInRange(Config(N, numRow, numColumn, windowSize, numIte, cycB), ptr)
    ensures pTime == SimulatedTime(Config(N, numRow, numColumn, windowSize, numIte, cycB), ptr)
  {
    var cfg := Config(N, numRow, numColumn, windowSize, numIte, cycB);
    pTime := 0.0;
    pTime := pTime + InitCost(numRow);
    var i := 0;
    while i < numIte
      invariant 0 <= i <= WindowCount(cfg)
      invariant i * CycleCount(cfg) == 0 || i * CycleCount(cfg) < |ptr|
      invariant pTime == InitCost(numRow) + WindowsCost(cfg, ptr, i)
    {
      MulMonotone(CycleCount(cfg), i + 1, WindowCount(cfg));
      assert WindowsCost(cfg, ptr, i + 1) == WindowsCost(cfg, ptr, i) + WindowCost(cfg, ptr, i);
      pTime := AccumulateWindow(cfg, ptr, i, pTime);
      i := i + 1;
    }
    pTime := pTime + WritebackCost(numRow);
    pTime := pTime + DrainCost;
    assert pTime == StageSum(cfg, ptr);
    pTime := Scaled(pTime, Passes(N));
    pTime := pTime + StartupCost;
  }
}
