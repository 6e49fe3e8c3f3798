# Sextans host (U280 bulk build): padding, channel layout, parameter packing and cost model

This project models the host program of the Sextans sparse-times-dense
accelerator, `U280/bulk/host_bulk.cpp`. The host multiplies a sparse A by a
dense B into a dense C (`C = alpha*A*B + beta*C`). For the accelerator it
prepares the buffers as follows:

- it sizes the host vectors of the edge-list pointers, of B and of C by
  padding to a multiple of 16 (for B and C, per block of 8 columns) and then
  to a multiple of 1024 words;
- it copies the edge-list pointers into a zero-filled buffer;
- it spreads the column-major dense matrices B and C over per-channel
  buffers for the HBM channels;
- it packs the repeat count and the batch width into one kernel argument,
  `para_N`;
- after the run, it reads C back from the channel buffers.

It also projects the kernel time with the analytical model
`spmm_kernel_simulation`.

The Dafny modules follow those parts:

- `Alignment` (`alignment.dfy`): the round-up formula the host writes inline
  for every padded size, `ceil_eightx`, and C's truncating integer division.
- `Channels` (`channels.dfy`): the channel-interleaved addressing of a dense
  matrix, with two schemes:
  - four channels, each holding two interleaved columns of every 8-column
    block: the build's B;
  - eight channels, one column each: B when configured so, and C always.

  `Locate` is the inverse of the addressing. `Encoded` states what each slot
  holds after encoding.
- `HostBuffers` (`host_buffers.dfy`): the imperative part of `main`:
  - the pointer-buffer fill;
  - the B and C encode loops, over `array2<real>` (channel × offset);
  - the C read-back loop.
- `KernelParam` (`kernel_param.dfy`): `para_N = (rp_time << 16) | N` on
  32-bit words.
- `CostModel` (`cost_model.dfy`): `spmm_kernel_simulation` as a method with
  loop invariants. It is proved equal to a recursive specification over
  `real`. Lemmas cover that specification: in-range reads, the `len_A`,
  `wd_actual` and `row_act` facts, positivity, monotonicity, the batch
  scaling and independence from the pointer buffer's padding.

What the code does not check:

- The code's round-up `((x + b - 1) / b) * b` gives 0 for an empty size;
  `RoundUp` gives 0 too.
- The code raises no error for a non-positive window size or batch width and
  does not validate the pointer array. For every input whose reads are in
  range, `CostModel.SpmmKernelSimulation` computes what
  `spmm_kernel_simulation` computes, over exact reals rather than `double`
  and bar the 32-bit overflow, both listed under Left out. Well-formedness (`CostModel.WellFormed`) is a premise of the
  lemmas only, never a precondition of the operations.
- The code's only precondition is in-range vector access. It appears as
  `requires` where the source indexes: `ReadsInRange`, and the buffer shapes
  of `DecodeC`. `N % 8 == 0` is also required of the encoders; see Left out.

## Model

| member | source | states |
|---|---|---|
| Alignment.CeilEightX | U280/bulk/host_bulk.cpp:114-117 | 1 for a non-positive argument; otherwise a multiple of 8 in `[x, x + 8)` |
| Alignment.CeilEightXIsLeast | U280/bulk/host_bulk.cpp:114-117 | for positive `x`, no multiple of 8 that is at least `x` lies below `ceil_eightx(x)` |
| Alignment.RoundUp | U280/bulk/host_bulk.cpp:204-205 | the inline padding `((x + b - 1) / b) * b` is a multiple of `b` in `[x, x + b)`, and is 0 exactly for `x = 0` |
| Alignment.RoundUpIsLeast | U280/bulk/host_bulk.cpp:204-205 | the padding is the least multiple of `b` that is at least `x` |
| Alignment.RoundUpMonotone | U280/bulk/host_bulk.cpp:204-205 | a larger size never pads to a smaller one |
| Alignment.TruncDiv | U280/bulk/host_bulk.cpp:78 | C `int` division by a positive constant: rounds toward zero for both signs |
| Alignment.TruncDivMonotone | U280/bulk/host_bulk.cpp:85 | truncating division by a positive constant is monotone |
| HostBuffers.EdgeListPtrFpgaSize | U280/bulk/host_bulk.cpp:204 | the pointer count padded to a multiple of 16, less than 16 above it |
| HostBuffers.EdgeListPtrChunkSize | U280/bulk/host_bulk.cpp:205 | the pointer buffer is a multiple of 1024 and at least the padded count, which is at least the count |
| HostBuffers.FillEdgeListPtr | U280/bulk/host_bulk.cpp:206-214 | a fresh buffer of the chunk size holds the pointers in order, and every word past them is 0 |
| Channels.ColumnSize | U280/bulk/host_bulk.cpp:235-239 | the per-block channel stride is a multiple of 16 and 0 only for no rows; eight channels: in `[rows, rows + 16)`; four channels: in `[2 rows, 2 rows + 16)` |
| HostBuffers.TransferSize | U280/bulk/host_bulk.cpp:240 | `column_size * (N / 8)`: the words of one channel that hold data, as at lines 240, 263, 282 and as the B device-buffer size at line 371; `AddressInChunk` bounds every write by it |
| HostBuffers.ChunkSize | U280/bulk/host_bulk.cpp:240 | a channel buffer is a multiple of 1024 and at least the transfer size `stride * (N / 8)`, less than 1024 above it |
| Channels.Address | U280/bulk/host_bulk.cpp:249-256 | every element's write goes to a channel below the channel count; the slot's meaning is fixed by `LocateAddress` and `AddressLocate` |
| Channels.AddressInBounds | U280/bulk/host_bulk.cpp:247-258 | for `N % 8 == 0`, every write of the encode loop lands below `stride * (N / 8)` |
| HostBuffers.AddressInChunk | U280/bulk/host_bulk.cpp:240-258 | every write lands inside the transfer size and so inside the allocated chunk |
| Channels.AddressInjective | U280/bulk/host_bulk.cpp:247-258 | distinct elements `(kk, nn)` are written to distinct `(channel, pos)` |
| Channels.Locate | U280/bulk/host_bulk.cpp:247-258 | the inverse addressing: a slot decodes to an in-range element or to none |
| Channels.LocateAddress | U280/bulk/host_bulk.cpp:247-258 | decoding an element's address gives back that element |
| Channels.AddressLocate | U280/bulk/host_bulk.cpp:247-258 | every slot that decodes to an element is that element's address |
| Channels.Flat | U280/bulk/host_bulk.cpp:252 | the column-major host index `r + rows * n`: `kk + K * nn` here and `mm + nn * M` at line 526; `FlatInRange` and `FlatInjective` state its meaning |
| Channels.FlatInjective | U280/bulk/host_bulk.cpp:252 | the column-major host index `kk + K * nn` identifies the element |
| Channels.Encoded | U280/bulk/host_bulk.cpp:242-277 | the content of each channel slot after the B loop (lines 247-258) or the C loop (lines 270-277): the element `Locate` finds there, else 0; `EncodedAtAddress` and `EncodedPadding` state both cases |
| Channels.EncodedAtAddress | U280/bulk/host_bulk.cpp:252 | after encoding, the slot at an element's address holds `mat[kk + K * nn]` |
| Channels.EncodedPadding | U280/bulk/host_bulk.cpp:242-258 | padding isolation: a slot that is no element's address keeps its initial 0 |
| HostBuffers.EncodeDense | U280/bulk/host_bulk.cpp:242-258 | allocates zero-filled chunks, one per channel; after the column-by-column copy, every slot holds exactly `Encoded` |
| HostBuffers.EncodeB | U280/bulk/host_bulk.cpp:233-258 | dense B in the configured channel layout, four or eight channels |
| HostBuffers.EncodeC | U280/bulk/host_bulk.cpp:261-277 | dense C in the eight-channel layout with stride `RoundUp(M, 16)` |
| HostBuffers.DecodeC | U280/bulk/host_bulk.cpp:523-527 | the read-back visits every element of C and reads channel `nn % 8` at `stride * (nn / 8) + mm` |
| HostBuffers.ReadBack | U280/bulk/host_bulk.cpp:525-527 | the value the comparison loop reads for host index `j` of C: channel `nn % 8` at `stride * (nn / 8) + mm`, for `mm = j % M` and `nn = j / M`; `ReadBackAt` states it per element |
| HostBuffers.RoundTripC | U280/bulk/host_bulk.cpp:523-527 | reading the encoded C back at the decode addresses yields `mat_C_cpu` exactly, since both strides use the same formula |
| KernelParam.PackParaN | U280/bulk/host_bulk.cpp:441 | `(rp_time << 16) | N` with a non-overflowing shift stays a non-negative `int` |
| KernelParam.RepeatField | U280/bulk/host_bulk.cpp:441 | the upper half-word is below 2^16 |
| KernelParam.BatchField | U280/bulk/host_bulk.cpp:441 | the lower half-word is below 2^16 |
| KernelParam.PackUnpack | U280/bulk/host_bulk.cpp:441 | for `N < 2^16` the packing is `rp_time * 2^16 + N`, and both fields come back |
| KernelParam.UnpackPack | U280/bulk/host_bulk.cpp:441 | every non-negative packed word is the packing of its own fields |
| KernelParam.PackInjective | U280/bulk/host_bulk.cpp:441 | two packings with `N < 2^16` agree only on equal inputs |
| KernelParam.PackCollision | U280/bulk/host_bulk.cpp:441 | for `N = 2^16` the fields overlap, so the packing no longer identifies its inputs |
| KernelParam.MainParaN | U280/bulk/host_bulk.cpp:466-478 | the packings `main` performs (repeat count 20, `N` from 8 to 512) hand the kernel both values intact |
| CostModel.MaxR | U280/bulk/host_bulk.cpp:88 | `std::max` of two stage times, as at lines 88, 95 and 103: at least both and equal to one |
| CostModel.MinI | U280/bulk/host_bulk.cpp:85 | `std::min` of two column counts: at most both and equal to one |
| CostModel.BaseColIndex | U280/bulk/host_bulk.cpp:83 | `base_col_index = i * WINDOE_SIZE * NUM_CYC_B`; `WdActualNonNegative` and `WdActualMonotone` use it |
| CostModel.InitCycle | U280/bulk/host_bulk.cpp:78 | `init_cycle` for a non-negative row count is the least count of 64-row cycles covering it |
| CostModel.WdActual | U280/bulk/host_bulk.cpp:85 | `wd_actual` is a multiple of 16, and less than 16 above the window's columns when those are not negative |
| CostModel.WdActualNonNegative | U280/bulk/host_bulk.cpp:83-85 | a window of non-negative size and cycle count that starts inside the matrix reads between 0 and `NUM_COLUMN - base_col_index + 16` columns |
| CostModel.WdActualMonotone | U280/bulk/host_bulk.cpp:85 | more columns in A never shrink a window |
| CostModel.LenA | U280/bulk/host_bulk.cpp:92 | `len_A` is the pointer difference modulo 2^32, read as a signed 32-bit value |
| CostModel.ReadIndexInRange | U280/bulk/host_bulk.cpp:92 | both pointers read by cycle `c` of window `i` lie inside the pointer array |
| CostModel.ReadIndexCovered | U280/bulk/host_bulk.cpp:82-92 | conversely, every pointer step `j` below the read bound is cycle `j % NUM_CYC_B` of a window `j / NUM_CYC_B < num_ite` |
| CostModel.LenAOfMonotone | U280/bulk/host_bulk.cpp:92 | between non-decreasing pointers less than 2^31 apart, `len_A` is their plain difference and not negative |
| CostModel.WorkTelescopes | U280/bulk/host_bulk.cpp:90-96 | over pointers whose every step is non-decreasing and less than 2^31, the compute stages' `len_A` values add up to `ptr[last] - ptr[0]` |
| CostModel.RowAct | U280/bulk/host_bulk.cpp:100 | `row_act` is a multiple of 16; for a non-negative row count it is at least the row count and less than 16 above it |
| CostModel.InitCost | U280/bulk/host_bulk.cpp:79 | for a non-negative row count, the initialisation stage takes a non-negative time |
| CostModel.FetchCost | U280/bulk/host_bulk.cpp:86-88 | the B-fetch stage of a non-negative width takes a non-negative time |
| CostModel.ComputeCost | U280/bulk/host_bulk.cpp:93-95 | a compute stage of non-negative work takes a positive time |
| CostModel.WritebackCost | U280/bulk/host_bulk.cpp:100-103 | for a non-negative row count, the write-back stage takes a positive time |
| CostModel.FetchCostMonotone | U280/bulk/host_bulk.cpp:86-88 | a wider fetch never takes less time |
| CostModel.ComputeCostMonotone | U280/bulk/host_bulk.cpp:93-95 | more work never takes less time |
| CostModel.RowCostsMonotone | U280/bulk/host_bulk.cpp:78-103 | more rows never shorten the initialisation or the write-back |
| CostModel.CyclesCost | U280/bulk/host_bulk.cpp:90-96 | the compute stages of the first `c` cycles of window `i`, summed in loop order; `AccumulateWindow`'s invariant, `CyclesCostPositive` and `CyclesCostMonotone` are stated over it |
| CostModel.WindowCost | U280/bulk/host_bulk.cpp:84-96 | one outer iteration: the B-fetch stage plus all compute stages of window `i` |
| CostModel.WindowsCost | U280/bulk/host_bulk.cpp:82-97 | the first `n` windows in loop order; `SpmmKernelSimulation`'s invariant and `WindowsCostMonotone` are stated over it |
| CostModel.StageSum | U280/bulk/host_bulk.cpp:72-104 | what `p_time` holds before line 107: initialisation, all windows, write-back and the 48-cycle drain |
| CostModel.Passes | U280/bulk/host_bulk.cpp:107 | C's truncating `N / 8`; `ShortBatch` and `ExtraPass` state its effect |
| CostModel.Scaled | U280/bulk/host_bulk.cpp:107 | `p_time *= (N / 8)`: the stage sum times the number of passes; `ScaledMonotone` and `ScaledSucc` are stated over it |
| CostModel.SimulatedTime | U280/bulk/host_bulk.cpp:72-109 | the specification `SpmmKernelSimulation` is proved equal to: the scaled stage sum plus `2000 / frequency` |
| CostModel.AccumulateWindow | U280/bulk/host_bulk.cpp:82-96 | one outer iteration adds exactly the fetch stage and the compute stages of window `i` |
| CostModel.SpmmKernelSimulation | U280/bulk/host_bulk.cpp:58-111 | the accumulated `p_time` equals `(N / 8) * S + 2000 / frequency`, where `S` is the stage sum in loop order |
| CostModel.MainCallReadsInRange | U280/bulk/host_bulk.cpp:502-504 | `main`'s call reads only inside the padded pointer buffer: `num_ite = size - 1`, one cycle per window |
| CostModel.CyclesCostMonotone | U280/bulk/host_bulk.cpp:90-96 | a window's compute stages grow with the work of each cycle |
| CostModel.WindowsCostMonotone | U280/bulk/host_bulk.cpp:82-97 | the window stages grow with the columns of A and the work of each cycle |
| CostModel.StageSumPositive | U280/bulk/host_bulk.cpp:72-104 | for well-formed inputs, the per-pass stage sum is positive |
| CostModel.StageSumMonotone | U280/bulk/host_bulk.cpp:72-104 | the stage sum is non-decreasing in `NUM_ROW`, in `NUM_COLUMN` and in every cycle's work |
| CostModel.SimulatedTimeMonotone | U280/bulk/host_bulk.cpp:72-109 | for well-formed inputs and `0 <= N <= N'`, the projected time is non-decreasing in `N`, `NUM_ROW`, `NUM_COLUMN` and the work |
| CostModel.SimulatedTimeIgnoresPadding | U280/bulk/host_bulk.cpp:92 | pointer arrays that agree up to the last index read give the same projected time |
| CostModel.ShortBatch | U280/bulk/host_bulk.cpp:107-109 | a batch narrower than 8 columns costs exactly `2000 / frequency` |
| CostModel.ExtraPass | U280/bulk/host_bulk.cpp:107-109 | for `N >= 0`, eight more batch columns add exactly one more stage sum |

## Left out

- OpenCL device discovery, programming, buffer creation, argument setting, migration and task enqueueing (lines 306-470, 513-519): foreign runtime calls. The B device buffers (line 371) and the pointer device buffer (line 403) are sized without the 1024-word padding: by `column_size * (N / 8)`, the model's `TransferSize`, and by `edge_list_ptr_fpga_size`. The C device buffers (lines 382, 393) use the padded chunk sizes of lines 263 and 282. The A buffers (line 360) use `8 * edge_list_ptr_fpga[edge_list_ptr_size - 1]` (line 215). None of the device buffers is modelled.
- The kernel run itself: its source is not part of this model. `DecodeC` reads C back from whatever the channel buffers hold. `RoundTripC` feeds it the encoded input to show that the decode addressing inverts the encode addressing.
- Reading the `.mtx` and `.stx` files (lines 152-159, 193-227): file I/O. The pointer words appear as the input sequence of `FillEdgeListPtr`.
- The sparse A channel copy (lines 215-227): its chunk size is read from the tiled file, so its layout is not fixed by this file.
- `read_suitsparse_matrix` and `cpu_spmm_CSR`: `sparse_helper.h` is not part of this model.
- The generated float values of B and C (lines 174-187) and the relative-error mismatch count (lines 528-538): IEEE float arithmetic. Matrices are sequences of `real`. Of the comparison loop, only its read addressing is modelled (`DecodeC`).
- The reinterpretation of the bits of `ALPHA` and `BETA` as `unsigned int` (lines 444-450): a float representation trick.
- Wall-clock timing and the GFLOPS, energy and bandwidth reports (lines 480-509): clocks and output.
- The `#pragma omp parallel` annotations: the loops are modelled as sequential.
- `MAX_SIZE_edge_LIST_PTR` and `MAX_LEN_edge_PTR` (lines 432-436): scalar kernel arguments with no property of their own. The first is `edge_list_ptr_size - 1`, the count read from the file header (line 432). The second is the last pointer, read from the buffer (line 435).
- CostModel.SpmmKernelSimulation: computes over exact `real`, an idealisation of `double`. Rounding is not modelled. The constants `350e6` and `900e9 * 0.9` are exact reals.
- CostModel.SpmmKernelSimulation: takes `cycB` as a mandatory parameter. The source's `NUM_CYC_B` defaults to 1 (line 67), and the only call (line 504) passes 1.
- CostModel.SpmmKernelSimulation: none of the function's 32-bit `int` arithmetic is modelled. The following are all unbounded integers:
  - `NUM_ROW + 63` (line 78) and `NUM_ROW + 15` (line 100);
  - `i * WINDOE_SIZE * NUM_CYC_B` (line 83);
  - `WINDOE_SIZE * NUM_CYC_B`, `NUM_COLUMN - base_col_index` and its `+ 15` (line 85);
  - `i * NUM_CYC_B + c` (line 92) and `len_A + 17` (line 94).

  Only the `unsigned int` subtraction of `len_A` is taken modulo 2^32. `NUM_PE` is accepted and unused, as in the source.
- CostModel.SimulatedTimeMonotone: monotonicity in `N` is stated for `N >= 0` and for well-formed inputs only. For a negative stage sum, for example when windows overrun the matrix, multiplying by a larger `N / 8` decreases the time.
- CostModel.ShortBatch: states `2000 / frequency` for `-8 < N < 8`: C's truncating `N / 8` is 0 exactly there.
- HostBuffers.EncodeDense: requires `N % 8 == 0`, as do `EncodeB`, `EncodeC` and `DecodeC`. For other `N` the source's last, partial block of columns is written past `stride * (N / 8)`. For `N < 8` the chunk is empty, so the write is out of bounds; `main` never does this, since it uses `N = 512`.
- HostBuffers.EncodeDense: the sizes are unbounded `nat`s; the 32-bit `int` arithmetic of `pos` and of the chunk sizes is not modelled.
- Alignment.CeilEightX: works on unbounded integers. The 32-bit overflow of the source's `x + 7` for `x > 2^31 - 8` is not modelled.
- KernelParam.PackParaN: requires `rp_time < 2^15` and `0 <= N < 2^31`, the range in which `rp_time << 16` does not overflow a signed `int` and `N` is non-negative.
