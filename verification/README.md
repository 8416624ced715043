# TiGrIS executor: a verified model

TiGrIS runs compiled neural-network plans inside a small fast arena. It cuts
stages into bands of rows, carries overlap rows from tile to tile in line
buffers, reuses and compacts arena memory in place, and runs If and While
subgraphs with an explicit frame stack. Each mechanism is a fast, stateful form
of something simple. This project models the mechanisms and proves, with Dafny
4.11, that the fast form computes the simple thing, for every plan within the
preconditions below, every tile height and every kernel. Where the loader lets
through plans for which a mechanism does not compute it, the exact condition is
proved instead, and the section after the next lists them. `dafny verify
dfyconfig.toml` checks it.

A tensor is a sequence of opaque rows where only heights matter (bands, chains),
a grid of opaque cells for the 2D tile, a sequence of opaque elements for
transposes, broadcasts, reductions and reshapes, and bytes for LZ4 and
compaction. A kernel is an arbitrary function of what it reads, so a theorem
about a banded run holds for all kernels. What the loader establishes (tensor
numbers in range, operators in topological order, each tensor produced once,
positive extents, pads smaller than the effective kernel, consistent heights) is
an explicit precondition: `WellFormed`, `Loaded`, `Fits`, `Geometry`, `Valid`.
What the executor checks itself is an error result, not a precondition. What
neither establishes is one more precondition of a chain, `Runnable`: every
operand is read at its rows, or the tile is refused, and persistent buffers hold
the rows of every tile that is run.

| files | what they model |
|---|---|
| `rows`, `band_plan`, `band_ranges` | rows, windows and taps; operators on whole tensors; ranges walked back from a tile |
| `chain_budget`, `chain_bytes`, `chain_tiles`, `chain_kernels`, `chain_state`, `chain` | tiled chains with line buffers and their budget |
| `chain_windows`, `chain_limits`, `chain_check`, `chain_witness` | exactly when a chain's tiles are read right, refused or left with a gap; what the loader's check decides of that; chains it lets through |
| `stripe_check`, `stripe_budget`, `stripe_state`, `stripe` | the static band check, the band height, and the height stripe |
| `tile2d` | the 2D tile grid, convolutions and transposed convolutions |
| `control_plan`, `control_flow`, `control_run`, `control_sim` | the flat stage loop with frames against a recursive interpreter |
| `compaction`, `liveness`, `normal_stage` | arena compaction, last uses with in-place reshapes, a stage run whole |
| `permute`, `transpose_band`, `broadcast`, `reshape`, `reduction` | index kernels and their banded forms |
| `lz4`, `fixed_point`, `detection_sort`, `detection` | the block decoder, Q0.31 rounding, sorting and suppression |

## What the code does not meet

Some properties one would expect fail for some plans. The code is modelled as it
is; the exact condition is proved.

- A chain reserves too few rows for an operator behind a kernel smaller than its
  stride: the division at `src/tigris_executor.c:2754` rounds down.
  `ReservedExactly` gives the rows exactly, for an unclamped tile of any height:
  enough if and only if a surplus fixed by kernels and strides is not negative.
  `CoveringKernelsSuffice` shows that kernels no smaller than their strides are
  enough, and `ReservedTightly` that nothing is reserved in vain for them. In a line-buffered chain a tile that leaves more rows would overrun its
  persistent buffer, so `RunChain` asks there that the tiles it runs fit
  (`TilesFit`); `SufficientFits` gives that from the surplus, and
  `StridedShortcutFallsShort` is a chain the executor runs where a tile does not.
- `chain_kernel` shifts an operand to the band only for a two-operand elementwise
  operator, and then only one image of more than one row. `OperandReadExactly`
  says which rows are the right ones: a shifted operand has to cover the band, any
  other has to start on it, end no earlier and, for several images, be the band.
  `TileReadsExactly` shows that `RunChain` asks for exactly this of the tiles it
  runs. `AlignedByWindows` and `AlwaysAlignedExactly` give it by the windows
  between producer and reader, for one tile and for all tiles of all heights:
  composed stride and padding must not move a band's start, unless that is the
  top. `ReadsAtEveryHeight` is the same of a whole chain.
- The loader's band check for a chain looks at one stage at a time.
  `CheckedOperand` says what it settles: an operand its stage produced is read
  right, one the stage was brought is if and only if it lies on the band the stage
  starts from, which the check does not ask. `StageCheckIsLocal` is a two-stage
  chain whose stages it accepts (`ResidualAccepted`) in which a unary operator
  reads a tensor kept from ahead of the earlier stage's convolution, for every row
  the row before.
- A shifted operand need not cover the band: after a stride of 2 and a window that
  grows the rows back, the last tile is refused (`ShiftedMisses`).
  `NeverShortExactly` is the exact condition: strides of 1 in between meet it for
  a tensor that is read to its end.
- A chain output kept from ahead of windows whose composed stride outruns their
  span is refused for a gap, never written wrong: `GaplessExactly`.
- A height stripe cannot give an output produced ahead of a window operator that
  skips input rows. It reports an error then and never wrong rows; `TilesAdjoin`,
  `LastTileEnds` and `GaplessIff` say exactly when.
- A transposed 2D tile is refused exactly when even its first output's last tap
  is past the input (`TransposedRefused`).

## Model

| member | source | states |
|---|---|---|
| `Rows.TapRange` | src/tigris_kernel_window.h:192-214 | the taps in [first, last) are exactly those whose coordinate lands in the extent, for any base and dilation |
| `Rows.WindowReads` | src/tigris_kernel_window.h:141-181 | a tap of an output row reads the one row where stride, padding and dilation meet, or padding when that row is outside |
| `BandPlan.WholeSolves` | src/tigris_executor.c:620-682 | running a schedule once on whole tensors leaves an environment in which every produced row is the kernel's row of the final operands: the meaning every banded run is held to |
| `BandRanges.TileWindowIsGlobal` | src/tigris_kernel_window.h:141-181 | on the rows a tile reads, with the clamped rows as effective padding, the tile-local window of every row is the window of the whole tensor |
| `BandRanges.TapInBand` | src/tigris_kernel_window.h:192-214 | a tap's tile row is its global row less the band's first row, and one is inside exactly when the other is |
| `BandRanges.BandInside` | src/tigris_executor.c:3270-3321 | ranges walked back through any number of window operators stay nonempty and inside every operator's input |
| `BandRanges.BandNoLater` | src/tigris_executor.c:3270-3321 | the ranges walked back are monotone in the rows asked for, hence in the tile index: what a roll relies on |
| `BandRanges.BackAdjoins` | src/tigris_executor.c:3294-3299 | two adjacent bands of output read bands of input with no gap if and only if the effective kernel is at least the stride |
| `BandRanges.StillBand` | src/tigris_band.c:982-1004 | operators counted as not moving the band, a 1-row unpadded stride-1 window among them, leave range and height alone |
| `BandRanges.MovesExactly` | src/tigris_band.c:982-1004 | a window operator counts as moving the band if and only if it changes the height or some band differs across it; below three rows, where no band can tell, if and only if it is not the one-row window |
| `ChainBudget.ComposedField` | src/tigris_executor.c:2690-2701 | the composed stride, kernel and padding give both ends of the rows a run of window operators reads |
| `ChainBudget.ReservedExactly` | src/tigris_executor.c:2718-2764 | rows reserved for an operator are the unclamped need plus a surplus fixed by kernels and strides; they suffice for an unclamped tile of every height if and only if it is not negative |
| `ChainBudget.CoveringKernelsSuffice` | src/tigris_executor.c:2747-2756 | where every effective kernel is at least its stride no operator's reservation falls short |
| `ChainBudget.ReservedTightly` | src/tigris_executor.c:2718-2764 | and nothing is reserved in vain there: the rows reserved are the rows an unclamped tile needs, at every stage, operator and height |
| `ChainBudget.ShrinkMost` | src/tigris_executor.c:2747-2756 | an operator inside a stage is given the most rows its operands allow: n exactly when the rows n take are there |
| `ChainBudget.StageRowsLeast` | src/tigris_executor.c:2718-2735 | ahead of a stage there are as many rows as its field needs or as whole strides take, whichever is more |
| `ChainBudget.TileFitsReservation` | src/tigris_executor.c:3226-3246 | the rows any tile, clamped or partial, leaves at an operator fit the rows reserved for full tiles |
| `ChainBudget.InputFitsReservation` | src/tigris_executor.c:2718-2735 | the input rows of any tile fit the rows counted for the chain's inputs, whatever the kernels |
| `ChainBytes.TotalGrows` | src/tigris_executor.c:2773-2813 | the working set does not shrink with the tile height, so the heights that fit are an interval: what makes the binary search right |
| `ChainBytes.AlignUpLeast` | src/tigris_executor.c:40 | an aligned size is the least multiple of the alignment at or above the size |
| `ChainBytes.TensorBytesLeast` | src/tigris_executor.c:2758-2762 | the bytes counted for a band are the least multiple of the alignment that holds its rows |
| `ChainTiles.SufficientFits` | src/tigris_executor.c:3226-3246 | where no surplus is negative the reserved rows hold every tile, clamped or partial, of every height |
| `ChainTiles.FittingNeverOverflows` | src/tigris_executor.c:2773-2813 | a recomputing chain whose tiles fit its reservation never runs out of fast memory at the height the budget found |
| `ChainTiles.TotalTaken` | src/tigris_executor.c:2773-2813 | where kernels cover their strides an unclamped tile of a recomputing chain takes every byte the working set counts |
| `ChainTiles.OnBandHolds` | src/tigris_band.c:1047-1067 | a tensor no operator moved since it was produced or loaded is held at exactly the band, in every tile |
| `ChainWindows.RunStart` | src/tigris_executor.c:3270-3321 | where the rows read back through any run of window operators start: composed stride and padding, clamped once |
| `ChainWindows.RunEnd` | src/tigris_executor.c:3270-3321 | where they end: the composed field's end, or where the whole tensor's do |
| `ChainWindows.RunAdjoins` | src/tigris_executor.c:3294-3299 | adjacent bands of the last output read adjacent or overlapping bands ahead of a run of windows if and only if the composed span is at least the composed stride |
| `ChainKernels.PointwiseRows` | src/tigris_executor.c:2589-2627 | an elementwise kernel under a row offset writes exactly the new rows, from the operands' rows at their offsets |
| `ChainKernels.WindowRows` | src/tigris_kernel_window.h:141-214 | a window kernel under a row offset writes exactly the new rows, each from its tile window |
| `ChainKernels.ReadWindow` | src/tigris_kernel_window.h:192-214 | the tap loop reads the whole tile window: the rows inside, padding elsewhere |
| `ChainKernels.PointwiseMeans` | src/tigris_executor.c:2983-3027 | rows carried and rows computed together are the band of the whole output |
| `ChainKernels.WindowMeans` | src/tigris_executor.c:2983-3027 | the same for a window operator on the rows read back for its band |
| `ChainState.OperandFromTile` | src/tigris_executor.c:2600-2622 | when an operator runs each operand holds its own rows of the tile, on the band or one chain_kernel shifts, and is found to miss rows exactly when the plan says so |
| `ChainState.TileAdvances` | src/tigris_executor.c:3031-3039 | one operator run carries the state of the tile on: earlier outputs keep this tile's rows, later ones the previous tile's |
| `ChainState.SpillExtends` | src/tigris_executor.c:3355-3378 | spilling held rows that start at or before the first unwritten one leaves every row below the new mark the whole tensor's |
| `Chain.ChainExec.Roll` | src/tigris_executor.c:2986-3029 | after the memmove the front of the persistent buffer holds the rows carried over, and the tile context skips exactly those |
| `Chain.ChainExec.ChainKernel` | src/tigris_executor.c:2589-2627 | outputs hold exactly the operator's global rows; the operator is refused exactly when a shifted operand does not cover the band |
| `Chain.ChainExec.RunOp` | src/tigris_executor.c:2914-3080 | after each operator its buffer holds exactly the operator's global output rows, whether it rolled, was fully carried or was recomputed; it is refused only for wide pads or a missed operand, and in a recomputing chain exactly then |
| `Chain.ChainExec.BackPropagate` | src/tigris_executor.c:3262-3321 | the walk leaves every operator's output range, clamped pads and input rows for the tile |
| `Chain.ChainExec.LoadInputs` | src/tigris_executor.c:3330-3342 | every chain input is loaded at the range walked back, or memory is short |
| `Chain.ChainExec.RunStages` | src/tigris_executor.c:3344-3353 | every operator of every stage has run on the tile: each buffer holds its own range |
| `Chain.ChainExec.SpillOutputs` | src/tigris_executor.c:3355-3385 | each output's held rows are written at their own range, and the tile is refused exactly when one starts past the rows written |
| `Chain.ChainExec.RunTile` | src/tigris_executor.c:3254-3389 | one tile extends what is written to its own end and leaves the buffers what the next tile rolls; memory and refusal each have the tile's stated cause |
| `Chain.ChainExec.Heights` | src/tigris_executor.c:2718-2735 | the band heights of every stage for a tile height |
| `Chain.ChainExec.Bands` | src/tigris_executor.c:2737-2771 | counting or allocating every operator's band takes the bytes of the working set, and stops only past the limit |
| `Chain.ChainExec.Budget` | src/tigris_executor.c:2773-2813 | the search returns the largest tile height, up to the plan's, whose working set fits; 0 when one row does not |
| `Chain.ChainExec.CheckCovered` | src/tigris_executor.c:3391-3396 | accepts exactly when every row of every output was written |
| `Chain.ChainExec.ExecChainTiled` | src/tigris_executor.c:3099-3414 | OK means every output in slow memory is the whole-tensor output and no other slow tensor changed; each result is explained by the plan, the tile height and the room |
| `Chain.RunChain` | src/tigris_executor.c:3099-3414 | for any number of stages and window operators, line-buffered or not: OK means the chain's outputs are what its operators give one after another on whole tensors and that the tiles leave no gap; a tile is refused only for wide pads, a shifted operand that misses rows, or a gap, and in a recomputing chain OK means none was and no tile overflowed |
| `ChainLimits.OperandReadExactly` | src/tigris_executor.c:2589-2627 | the rows a kernel reads of an operand are the right ones if and only if the operand is shifted and covers the band, or is not and starts on it, ends no earlier and, for several images, is the band |
| `ChainLimits.TileReadsExactly` | src/tigris_executor.c:2589-2627 | what a run requires of a tile holds if and only if every operand is read at its rows, but for one the tile is refused for |
| `ChainLimits.AlignedByWindows` | src/tigris_executor.c:3270-3321 | a tensor lies on the band of a tile if and only if the composed windows since it was produced keep the band's start, and, for several images, its end |
| `ChainLimits.AlwaysAlignedExactly` | src/tigris_executor.c:3270-3321 | the same for all tiles of all heights: stride 1 and no padding, or every band starting at the top, or a single start where stride and padding agree |
| `ChainLimits.ReadsAtEveryHeight` | src/tigris_executor.c:2589-2627 | a chain is read right at every tile height if and only if each operand is shifted or kept on the band by the windows of the plan |
| `ChainLimits.NeverShortExactly` | src/tigris_executor.c:2612-2616 | a shifted operand covers the band in every tile of every height if and only if the furthest start is within reach of the padding and its rows do not end early |
| `ChainLimits.GaplessExactly` | src/tigris_executor.c:3355-3396 | the tiles leave every output whole if and only if the composed windows behind each do not skip rows, unless there is one tile, and the whole tensor's rows do not end early |
| `ChainLimits.PlainRuns` | src/tigris_executor.c:3254-3396 | a chain that keeps operands and outputs on the band, with spans the tile context can pad, is read right, refused no tile and left no gap at any height |
| `ChainCheck.CheckedOperand` | src/tigris_band.c:1097-1141 | in an accepted stage an operand of an operator the chain does not shift is read right if and only if the stage produced it or it lies on the band the stage starts from |
| `ChainWitness.ResidualAccepted` | src/tigris_band.c:1097-1141 | the loader's check accepts both stages of a chain with a residual tensor |
| `ChainWitness.StageCheckIsLocal` | src/tigris_executor.c:2589-2599 | in that chain, well-formed otherwise, a tile of height 4 reads for every row of an operand the row before |
| `ChainWitness.ShiftedMisses` | src/tigris_executor.c:2612-2616 | a well-formed chain whose last tile is refused because a shifted operand misses a row |
| `ChainWitness.StridedShortcutFallsShort` | src/tigris_executor.c:2747-2756 | a line-buffered chain, at the one height its budget gives, with a tile that leaves three rows where the persistent buffer has two |
| `ChainWitness.OverrunIsShort` | src/tigris_executor.c:2747-2756 | a tile that overruns a persistent buffer is outside what a run may be asked for, and only behind a negative surplus |
| `StripeCheck.FindBandInput` | src/tigris_band.c:1030-1041 | the tensor whose extents the executor starts with, in a stripe and in a chain |
| `StripeCheck.FindOnBand` | src/tigris_band.c:1047-1067 | finds a tensor on the band exactly when it was produced or loaded with no move since |
| `StripeCheck.StageReadsItsBand` | src/tigris_band.c:1097-1141 | the counting check accepts exactly the stages whose every operand and output is on the running extents; a stripe also a one-row operand of a binary operator, a chain a two-operand one with one operand on them |
| `StripeCheck.MovesBandExactly` | src/tigris_band.c:982-1004 | for the stripe an operator counts as moving if and only if it changes the height, the rows of some band, or at rank 4 the width, but for windows on fewer than three rows |
| `StripeCheck.FoundExactly` | src/tigris_band.c:1047-1067 | a tensor is found on the band if and only if it came from the inputs or an operator and no operator since displaced the band |
| `StripeCheck.AcceptedExactly` | src/tigris_band.c:1097-1141 | the check refuses no more than it must: a stage is accepted if and only if every operand and output has the extents of the band there and no operator displaced it since it came, the broadcast and shifted operands excepted |
| `StripeCheck.AcceptedFits` | src/tigris_band.c:1097-1141 | a stage accepted for the stripe has the heights the band walk assumes at every operator |
| `StripeCheck.CheckSound` | src/tigris_band.c:1097-1141 | in a stage accepted for the stripe, in every tile and at every operator, each operand's held range is the executor's current range, one-row operands of binary operators excepted |
| `StripeBudget.FastBytes` | src/tigris_executor.c:814-868 | the working set of a band: input rows by stride and kernel, every operator's rows on its side of the window operator, none more than its tensor has |
| `StripeBudget.RowsBytesLeast` | src/tigris_executor.c:814-868 | the bytes counted for a band of a tensor are the least multiple of the alignment that holds its rows |
| `Stripe.RowsCounted` | src/tigris_executor.c:814-868 | on a tile whose window is inside its input the rows counted are the rows every operator leaves |
| `StripeBudget.BandBytesGrow` | src/tigris_executor.c:870-907 | a taller band takes no fewer bytes, so the bands that fit are an interval |
| `StripeBudget.BandRows` | src/tigris_executor.c:870-907 | the stated band, refused unless it fits; without one the largest band that fits, refused when none does |
| `StripeState.OutputRange` | src/tigris_executor.c:1116-1127 | where each stage output sits at the end of a tile: at the tile's rows, or at the window operator's input rows when produced ahead of it |
| `StripeState.TilesAdjoin` | src/tigris_executor.c:1133-1146 | consecutive tiles leave no gap in an output if and only if it is not ahead of a window operator whose stride outruns its kernel |
| `StripeState.LastTileEnds` | src/tigris_executor.c:1133-1156 | the last tile ends an output if and only if it is not ahead of a window operator that leaves input rows unread |
| `Stripe.StripeExec.RunOp` | src/tigris_executor.c:1077-1128 | one operator on the current tile: its outputs hold the band it moves to, its pads those of the window operator alone |
| `Stripe.StripeExec.SpillOne` | src/tigris_executor.c:1130-1146 | an output is written at its own range; a gap is refused |
| `Stripe.StripeExec.RunTile` | src/tigris_executor.c:995-1150 | one tile: halo and clamped pads worked out, inputs loaded, operators run, outputs spilled, within the bytes counted for the band |
| `Stripe.StripeExec.GaplessIff` | src/tigris_executor.c:1133-1156 | the per-tile and final coverage checks all pass if and only if the tiles leave every output whole |
| `Stripe.StripeExec.ExecStageTiled` | src/tigris_executor.c:909-1168 | OK means every output is the whole-tensor output and nothing else changed; sizes, room and plan decide the result, but for an input shorter than the band |
| `Stripe.RunStripe` | src/tigris_executor.c:909-1168 | a stage of pointwise operators with at most one window operator: the check, then out of memory exactly when the outputs do not fit slow memory, refused exactly when no band fits, a pad is too wide or rows are skipped, else whole-tensor outputs |
| `Tile2d.FloorDiv` | src/tigris_executor.c:139-142 | the quotient rounds down for negative numerators too |
| `Tile2d.TapRelation` | src/tigris_kernels.c:243-307 | tap k of output o reads input i if and only if i == o * stride - pad + k * dilation for a convolution, and o == i * stride - pad + k for a transposed one |
| `Tile2d.TileAxis` | src/tigris_executor.c:1367-1406 | the input interval and effective padding of a tile along one axis |
| `Tile2d.TileInInside` | src/tigris_executor.c:1367-1408 | no tile of a stage within the loader's geometry reads an empty or outside interval |
| `Tile2d.TransposedRefused` | src/tigris_executor.c:1373-1408 | a transposed tile reads no input if and only if its first output's last tap is past the input |
| `Tile2d.TransposedPad` | src/tigris_executor.c:1383-1392 | a transposed tile's effective padding stays in [0, stride + taps - 2] |
| `Tile2d.TileTapIsGlobal` | src/tigris_kernels.c:249-307 | under the effective padding a tile's taps are the global taps counted from the interval, and every in-bounds global tap is in the interval, for convolution and transposed convolution |
| `Tile2d.SpanBounded` | src/tigris_executor.c:1211-1227 | the extents the working set counts bound the interval of every tile, edge and corner ones too |
| `Tile2d.SpanTight` | src/tigris_executor.c:1211-1227 | and no looser than needed: a tile inside the input takes all of them for a convolution, all but at most three for a transposed one |
| `Tile2d.OneTile` | src/tigris_executor.c:1354-1363 | each output is in exactly one tile of an axis |
| `Tile2d.TileGatherIsGlobal` | src/tigris_executor.c:1367-1430 | the packed rectangle gives every output of a tile the cells the whole operator reads |
| `Tile2d.AxisTaps` | src/tigris_kernels.c:249-307 | the tap loop of one axis visits the taps of the definition |
| `Tile2d.ExecStageTiled2d` | src/tigris_executor.c:1275-1506 | over the grid every output cell is the kernel of its global taps; a tile is never refused within the loader's geometry |
| `ControlFlow.StageLoop.StartOperator` | src/tigris_executor.c:2370-2404 | copies an operator's operands into the graph it enters, loop variables from operands or constants |
| `ControlFlow.StageLoop.StepOperator` | src/tigris_executor.c:2410-2441 | the next graph of a While, or the end of an If or While, with its results copied out |
| `ControlFlow.StageLoop.EnterControl` | src/tigris_executor.c:2450-2469 | pushes a frame and moves to the graph, or reports a full frame stack or a missing tensor |
| `ControlFlow.StageLoop.UnwindControl` | src/tigris_executor.c:2474-2504 | steps or pops frames level by level while graphs finish together |
| `ControlFlow.StageLoop.FreeDeadTensors` | src/tigris_executor.c:2508-2526 | drops exactly the tensors whose last reader is in the finished range, graph outputs never |
| `ControlPlan.WhileTurns` | src/tigris_executor.c:2406-2441 | a While that ends went through its turns: its condition held of all loop values but the last, each the body's outputs on the one before, and it ends with the last |
| `ControlPlan.StageMeans` | src/tigris_executor.c:2366-2441 | a stage that ends gives f of its operands, its then graph's outputs when the condition holds and its else graph's otherwise, or the last of its turns |
| `ControlPlan.InitialTakes` | src/tigris_executor.c:2384-2392 | loop variable by loop variable: a constant is taken as it is, a missing one is the next of the operands |
| `ControlFlow.StageLoop.Run` | src/tigris_executor.c:3763-3902 | the stage loop is the iteration of one step of the frame machine |
| `ControlRun.LastConsumers` | src/tigris_executor.c:3703-3729 | a tensor that is no graph's output has the latest stage that reads it, 0 when none does; every graph output is kept |
| `ControlRun.StageDone` | src/tigris_executor.c:2508-2526 | after a stage, and whatever it ran, memory holds the interpreter's value of every tensor the graph still needs |
| `ControlRun.StillNeeded` | src/tigris_executor.c:2508-2526 | no tensor a later stage of the graph reads is released |
| `ControlRun.EnclosingKept` | src/tigris_executor.c:2508-2526 | no tensor of an enclosing graph is released by an inner one |
| `ControlRun.RunReleases` | src/tigris_executor.c:2508-2526 | and nothing is kept in vain: past a stage of its graph no state of a run holds a tensor the graph has read and reads no more, graph outputs excepted |
| `ControlRun.LeaveReleases` | src/tigris_executor.c:2342-2365 | leaving a graph takes its inputs and outputs out of memory and touches only them and the destinations |
| `ControlRun.EnterGraph` | src/tigris_executor.c:2320-2337 | a graph's inputs take the values together and nothing of the enclosing graph changes |
| `ControlRun.LeaveGraph` | src/tigris_executor.c:2342-2365 | loop variables and results take a graph's outputs together; nothing else of the enclosing graph changes |
| `ControlSim.SimWhile` | src/tigris_executor.c:2410-2441 | the frame machine runs a While as the interpreter does, every turn |
| `ControlSim.SimGraph` | src/tigris_executor.c:2450-2504 | a graph entered with its frame comes back at its caller with the interpreter's outputs |
| `ControlSim.FlatIsRecursive` | src/tigris_executor.c:3756-3902 | whenever the interpreter ends, the flat loop halts with its outputs; whenever it does not within a fuel, the loop is still running after as many steps |
| `ControlSim.StoppedIsRecursive` | src/tigris_executor.c:3756-3902 | a loop that stopped halted, with the interpreter's outputs: no tensor was missing, no frame too many |
| `ControlSim.RunPlan` | src/tigris_executor.c:3703-3902 | a run never fails for a tensor released too early, and one that halts has the interpreter's outputs |
| `Compaction.MemMove` | src/tigris_executor.c:390-399 | a move down over overlapping bytes leaves the source's old bytes at the destination and the rest alone |
| `Compaction.NextLive` | src/tigris_executor.c:378-388 | the live tensor with the lowest address from the cursor on |
| `Compaction.Repoint` | src/tigris_executor.c:401-405 | exactly the aliases of the moved allocation follow it |
| `Compaction.MoveNext` | src/tigris_executor.c:390-407 | one turn packs the next allocation and keeps the bytes of all earlier and later ones |
| `Compaction.CompactPool` | src/tigris_executor.c:366-410 | terminates; every allocation goes to the sum of the aligned sizes below it, with its bytes, and from an aligned start to an aligned offset; the offset returned is the end of the last |
| `Compaction.CompactionAligned` | src/tigris_executor.c:366-410 | from an aligned offset every live tensor is packed at an aligned offset, and so is the end of the last |
| `Compaction.CompactionKeeps` | src/tigris_executor.c:366-410 | live tensors stay live with their bytes, pointers outside the pool are unchanged, and the result is a placement compaction can take again |
| `Compaction.CompactionKeepsPairs` | src/tigris_executor.c:366-410 | of any two live tensors: none moves up, aliases stay aliases and no others arise, address order is kept, distinct allocations are disjoint |
| `Compaction.CompactionTight` | src/tigris_executor.c:366-410 | every byte below the returned offset belongs to a live tensor, and the offset is no further than the old extent |
| `Liveness.LastUses` | src/tigris_executor.c:532-601 | every tensor's last use is the latest last use in its reshape group, a stage output counting as never |
| `Liveness.BackwardPass` | src/tigris_executor.c:569-590 | the backward pass gives every reshape's source the latest use of the group from there on |
| `Liveness.ForwardPass` | src/tigris_executor.c:591-601 | the forward pass gives every member its root's value |
| `NormalStage.UsedInTime` | src/tigris_executor.c:532-601 | no tensor is past its last use when an operator reads or writes it, and no stage output ever is |
| `NormalStage.OwnLastExact` | src/tigris_executor.c:532-567 | a tensor's own last use is the last operator that reads or writes it; a stage output, and a tensor no operator uses, have none |
| `NormalStage.LastUseExact` | src/tigris_executor.c:532-601 | the last use worked out is the last operator that uses any tensor of the reshape group, and there is none if and only if one of them is a stage output or unused |
| `NormalStage.DropsExact` | src/tigris_executor.c:660-682 | dropping the groups last used at an operator leaves exactly the buffers later operators need |
| `NormalStage.StageMemory.Release` | src/tigris_executor.c:490-514 | a buffer is dropped for every tensor of the stage that shares it, and no other |
| `NormalStage.StageMemory.StepOp` | src/tigris_executor.c:620-682 | one operator: share or place outputs, compute, drop; every tensor still needed keeps its value |
| `NormalStage.AfterSolves` | src/tigris_executor.c:620-682 | operators run in order on values solve every operator's equation and keep the inputs |
| `NormalStage.OutputsStay` | src/tigris_executor.c:561-567 | every stage output is still held when the stage ends |
| `NormalStage.ExecStageNormal` | src/tigris_executor.c:516-725 | the stage's outputs in slow memory are what its operators give in order, though any dropped buffer may be taken again at once |
| `Permute.InputStrides` | src/tigris_kernels.c:2812-2821 | the strides are row-major |
| `Permute.DotPermuted` | src/tigris_kernels.c:2822-2825 | permuted coordinates under permuted strides give the source's index |
| `Permute.Advance` | src/tigris_kernels.c:2841-2862 | one odometer step moves to the next output index, and the input index with it |
| `Permute.TransposeWalk` | src/tigris_kernels.c:2805-2864 | the odometer walk gives the permutation by its definition at every element, for any rank |
| `TransposeBand.BandGroups` | src/tigris_transpose_band.h:31-67 | accepts exactly the permutations [prefix][A][B][suffix] to [prefix][B][A][suffix] with A and B nonempty, and finds them |
| `TransposeBand.SwapIsTranspose` | src/tigris_band.c:304-349 | such a permutation is a batch of matrix transposes of blocks |
| `TransposeBand.GatherRowBand` | src/tigris_executor.c:1723-1747 | packs the band's rows of every stretch |
| `TransposeBand.ScatterRowBand` | src/tigris_executor.c:1749-1774 | writes a packed band back to its rows and touches no other |
| `TransposeBand.TransposeTile` | src/tigris_kernels.c:2699-2730 | every matrix of a packed slice is transposed, block by block |
| `TransposeBand.ColumnTile` | src/tigris_executor.c:1884-1928 | a band of columns gathered, transposed and written leaves those columns transposed and the rest alone |
| `TransposeBand.RowTile` | src/tigris_executor.c:1884-1928 | the same for a band of rows |
| `TransposeBand.ExecTransposeBands` | src/tigris_executor.c:1786-1942 | for every band height and both orientations the stage runs exactly on the permutations above and leaves the permuted tensor |
| `Broadcast.OperandShape` | src/tigris_kernels.c:759-773 | the operand's shape padded in front with 1, refused when too long or not positive |
| `Broadcast.OperandAccess` | src/tigris_kernels.c:774-819 | accepts exactly the shapes that broadcast (an inner broadcast up to rank 5), and dense, periodic and strided access each read the broadcast coordinate |
| `Broadcast.GeneralIndex` | src/tigris_kernels.c:821-833 | the digit loop gives the weighted digits of the output index |
| `Broadcast.ReadOperand` | src/tigris_kernels.c:759-977 | for any operand and output shape: refused exactly when the trailing axes do not broadcast or an inner broadcast is past rank 4 (5 for three operands), else every output element reads the element multidirectional broadcasting names |
| `Broadcast.SourceIs` | src/tigris_kernels.c:835-977 | the element broadcasting names is the one whose coordinates agree with the output's on every axis the operand is wider than 1 |
| `Broadcast.ElementWise` | src/tigris_kernels.c:1014-1080 | a two-operand kernel runs exactly when both shapes broadcast, and then every output element is the operation on the two elements broadcasting names |
| `Broadcast.BandOperand` | src/tigris_kernels.c:978-1000 | under a band of one axis: the strides of what is held, and the constant's shift |
| `Broadcast.BandReadsWhole` | src/tigris_kernels.c:978-1012 | under a band every output element reads the element the whole operation reads there, from a shifted constant or a packed operand |
| `Broadcast.GatherPacks` | src/tigris_executor.c:1723-1747 | a row band gathered from every stretch is the packed operand the band expects |
| `Reduction.Pool` | src/tigris_kernels.c:1246-1272 | the kernel folds every channel in position order onto the accumulator, finishing only on the last tile; without an accumulator it is the single pass |
| `Reduction.FoldContinues` | src/tigris_kernels_s8.c:907-941 | a fold over a tile carries on the fold of the whole input, for any combine |
| `Reduction.ExecByInput` | src/tigris_executor.c:1661-1704 | bands of rows of any height give every (batch, channel) the single pass's fold, its output written once |
| `Reduction.ExecGrouped` | src/tigris_executor.c:1992-2035 | groups of channels over intervals of positions give the same, with an accumulator one group long |
| `Reshape.ReshapeBand` | src/tigris_band.c:767-817 | finds a view if and only if some mode shows both shapes as the same blocks; the view covers both tensors |
| `Reshape.FirstWide` | src/tigris_band.c:393-407 | every axis ahead of the one banded is 1, and it is not unless it is the last |
| `Reshape.Divisible` | src/tigris_executor.c:2535-2562 | under the divisibility check every band, the partial last one too, starts and ends on whole output rows |
| `Reshape.ExecReshape` | src/tigris_executor.c:2528-2582 | a band height is accepted exactly when it divides, and then the output's elements are the input's in order, in its own buffer or the input's |
| `Reshape.RunReshape` | src/tigris_executor.c:2528-2582 | from the shapes alone: it runs exactly when a mode serves and the band divides under the first that does, and keeps every element in order |
| `Lz4.Decompress` | src/tigris_lz4.c:21-101 | the decoder is the function Decode of its input: it terminates, reads and writes inside the two buffers, and no length wraps under the source-length bound |
| `Lz4.ReadExtended` | src/tigris_lz4.c:39-48 | a 255-run length, added up in 32 bits, is the length its bytes state |
| `Lz4.CopyBack` | src/tigris_lz4.c:86-97 | a match copied byte by byte repeats the output it reads, overlapping or not |
| `Lz4.RoundTrip` | src/tigris_lz4.c:33-100 | decoding a block's encoding is its expansion, or refuses exactly when the expansion does |
| `Lz4.AcceptedIsEncoding` | src/tigris_lz4.c:33-100 | everything accepted is the encoding of some block |
| `Lz4.DecodesExactly` | src/tigris_lz4.c:33-100 | an output is returned if and only if the input encodes a block that expands to it within the capacity |
| `Lz4.ExpandsWhenFits` | src/tigris_lz4.c:50-97 | a block expands if and only if it fits and no match starts before the output |
| `Lz4.MatchRepeats` | src/tigris_lz4.c:94-97 | every byte of a match is the byte at the offset before it |
| `Lz4.ShortSequence` | src/tigris_lz4.c:33-97 | for up to 14 literals and a match nibble n below 15: the token is literals * 16 + n, the offset its two bytes, low first, the match n + 4 bytes; what is refused, and as what |
| `Lz4.LongLength` | src/tigris_lz4.c:39-48 | a nibble of 15 followed by k bytes of 255 and one byte b that is less stands for 15 + 255 k + b |
| `FixedPoint.HighMulExact` | src/tigris_kernels_s8.c:64-70 | the doubling high multiplication is floor((a * b + 2^30) / 2^31) on all 32-bit pairs but the saturated one |
| `FixedPoint.DivByPotExact` | src/tigris_kernels_s8.c:74-86 | division by a power of two is the nearest, ties away from zero, for every exponent, 32 and above too |
| `FixedPoint.NearestMeans` | src/tigris_kernels_s8.c:72-86 | nearest with ties away from zero, by its error bound, and unique |
| `FixedPoint.RequantizeError` | src/tigris_kernels_s8.c:101-108 | the requantized value is within 1/2 + 2^-(right+1) of x * M * 2^(shift - 31), the saturating product included |
| `FixedPoint.RequantizeMonotone` | src/tigris_kernels_s8.c:101-108 | it is monotone in x for a multiplier that is not negative |
| `FixedPoint.AverageExact` | src/tigris_kernels_s8.c:143-148 | the average pool's rounding is the nearest, ties away from zero |
| `DetectionSort.Merge` | src/tigris_kernels.c:1607-1621 | merging two stably descending runs gives one, of the same indices |
| `DetectionSort.Argsort` | src/tigris_kernels.c:1601-1624 | the bottom-up passes give a stable descending permutation for every length |
| `DetectionSort.PartialArgsort` | src/tigris_kernels.c:1628-1645 | selection by swaps gives the first entries of the stable descending order |
| `DetectionSort.SortedIsOrder` | src/tigris_kernels.c:1599-1624 | there is one stable descending permutation |
| `Detection.Suppress` | src/tigris_kernels.c:1669-1690 | the flag-and-count loop selects what greedy suppression by definition selects |
| `Detection.PicksRight` | src/tigris_kernels.c:1669-1690 | selected boxes are pairwise within the overlap threshold, and every other candidate overlaps an earlier selected one unless the limit was hit |
| `Detection.CandidatesExact` | src/tigris_kernels.c:1650-1668 | the candidates are exactly the boxes at or above the threshold, each once, by index |
| `Detection.RankedExact` | src/tigris_kernels.c:1599-1624 | the ranking lists exactly those, each once: a higher score first, and of equal scores the smaller index |
| `Detection.SingleClass` | src/tigris_kernels.c:1650-1691 | candidates at or above the threshold, in stable descending order, suppressed greedily |
| `Detection.BestOfBest` | src/tigris_kernels.c:1765-1789 | keeping the best k as classes come gives the best k of all of them |
| `Detection.JoinClass` | src/tigris_kernels.c:1771-1788 | one class joined to the best so far leaves the first k of their stable descending sort |
| `Detection.Detect` | src/tigris_kernels.c:1764-1789 | after all classes the list is the first `detections` of a stable descending sort of every class's selections |
| `Detection.EntryNames` | src/tigris_kernels.c:1764-1793 | every entry stands for a box of a class at or above the threshold with that score, and dividing its index by the columns gives back the box and the class |

## Left out

- BandRanges.StillBand: the bottom pad is not a field of the window; equal heights stand for a bottom pad of 0, which consistent extents make the same.
- Chain.RunChain: asks for operands of the band's height, so one-row broadcast operands of a chain's binary operators are not covered; tensors are rank 4 and the `LINEAR` flag is not modelled.
- Chain.RunChain: asks for `Runnable` at the height the budget finds, exactly the tiles that are read right or refused and that fit the persistent buffers; in a line-buffered chain an operand a refused tile would miss may still be carried, so there OK does not say that no tile was refusable.
- Chain.ChainExec.Roll: the persistent buffer of a spilled output is one slot that the spill moves to slow and back, where the code keeps its fast address aside.
- Chain.ChainExec.Budget: sums are unbounded integers; the overflow branches of the 32-bit totals are not modelled, since sizes are taken not to overflow.
- Stripe.RunStripe: sums are unbounded integers, so the refusals for sizes past 32 bits are not modelled; a stage input no operator reads may be shorter than the band, which the executor reports as memory.
- Stripe.RunStripe: a ConvTranspose or Resize as the spatial operator, and row-independent operators run alone, are not modelled.
- Tile2d.ExecStageTiled2d: one spatial operator; the pointwise operators around it, channels and batch are inside an opaque cell, and the tile size is a parameter.
- ControlSim.RunPlan: memory maps tensors to values, so arena addresses, running out of slow memory, state variables and chains as one entry are not modelled; a chain is one computing stage.
- Compaction.CompactPool: aligned sizes are given with the tensors and do not overflow; the two callers that choose the pool and set `fast_used` or `slow_used` are not modelled.
- NormalStage.ExecStageNormal: allocation gives any buffer nothing holds and does not run out; reading an input in place from the fast region is not modelled.
- TransposeBand.ExecTransposeBands: the band height is a parameter, proved for every height; the search for the largest that fits and its memory errors are not modelled.
- Permute.TransposeWalk: the fallback for ranks past the walk's fixed arrays cannot be reached and is not modelled.
- Broadcast.ReadOperand: dtype, quantization and byte-size checks around it are not modelled, nor are the older row bands that keep the general access refused.
- Reduction.ExecByInput: the search for the band height and its memory errors are not modelled; finishing (the division, or requantization) is an arbitrary function of the sum.
- Reshape.ReshapeBand: extents are positive and their products do not overflow, as the loader establishes; the test that decides whether the output may take the input's buffer is not modelled.
- Lz4.Decompress: null pointers are not modelled; the source-length bound under which 32-bit lengths cannot wrap is a precondition.
- Detection.Detect: scores are a total order, overlap an arbitrary relation; box decoding and padding of unused outputs are not modelled.
- Weight decompression into the arena, route selection, prefetch and the workspace layout.
- `exec_stage_tiled_rows` and the leading-axis bands.
- The plan loader's parsing and schema versions, `host/`, traces, statistics and the vendor kernels.
- Floating-point numerics, and the loops over width, channels and batch inside convolution kernels.
