# Radiance attention, reduction and BFS kernels: a Dafny model

This project models the parts of the Radiance GPU kernels whose correctness depends on interleavings, on
bit tricks, or on the grouping of rounded operations, and proves what they are for.

| area | files | what is modelled |
|---|---|---|
| Scale hand-off | `Handshake*.dfy`, `Fairness.dfy` | one rv64 host and two GPU clusters that share double-buffered scale memories and coordinate through mailbox counters, as a transition system with one step per store, mailbox write and mailbox read, under any schedule and under fair ones |
| Record and replay | `Replay.dfy` | the GPU's recorder of command streams, the host's capture through aligned 8-byte loads, and the replay into both command ports |
| Pipelines | `Traces.dfy`, `Dataflow.dfy`, `Pipe.dfy`, `PipeOutput.dfy`, `PipeRun.dfy`, `KLoop.dfy`, `KRun.dfy` | the warp-specialised `FA_PIPE` tile schedule and the double-buffered K-loop: programs whose memory accesses stay pending until a barrier or drain waits for them, and the orders this allows |
| Softmax and reductions | `Streaming.dfy`, `TwoPass.dfy`, `Fused.dfy`, `SoftmaxTile.dfy`, `SoftmaxRun.dfy`, `SoftmaxBlocks.dfy`, `RowSums.dfy`, `Reduce.dfy` | streaming attention over the reals; two-pass, fused, thread-per-row and separate softmax over abstract rounded operations, by row, by stride of rows, and as interleaved threads over a whole tile; tree, fold, butterfly and rotated-fold reductions of an operation that need not be associative |
| Requantization | `E4m3.dfy`, `Swar.dfy`, `Tiles.dfy`, `RowStore.dfy`, `Requant.dfy`, `StrideRun.dfy`, `RequantRun.dfy`, `ScalePack.dfy` | the branching, branchless, straight-line and two-at-a-time e4m3 encoders, the tiled and swizzled layouts, the grid-stride loop with any number of interleaved threads, and the packing of the block scales into the mesh's scale memory |
| BFS | `BfsGraph.dfy`, `BfsSteps.dfy`, `BfsKernel1.dfy`, `BfsKernel2.dfy`, `GridStride.dfy` | the graph builders, the sequential steps and level loop, and the two SIMT kernels interleaved at every load and store |
| Scorer | `Scorer.dfy` | the integer square root, bf16 to fixed point, and the Frobenius error in parts per million |
| Arithmetic | `Arith.dfy`, `Bits.dfy` | quotients by a variable divisor, bitwise operations on words |

Constants (tile counts, rows, columns, lanes, threads, word widths) are parameters, under the divisibility
conditions each contract states. `dafny verify dfyconfig.toml` checks everything.

## What holds, what does not

* The scale hand-off is safe, keeps the clusters within one tile of each other, and under every schedule that keeps
  giving each party a turn completes all tiles, each of which has then had its QK and its PV matmul run, once, on
  each cluster. With host-side packing (`FA_HOSTPACK`) safety needs PACKED on both clusters and PACKREQ on cluster 0
  to be zero at start,
  and the host's start-up code (`kernels/fa_mx_hostsf/host.cpp:451-457`) clears neither word;
  `PackingSafeIffWordsClear` is the exact condition.
* The second BFS kernel never clears its `over` flag; it agrees with the sequential step on that flag exactly
  when the flag was 0 or some node was marked.
* The XOR-rotated fold needs a buffer aligned to its own size, so the padded reduce buffers of `FA_SP_RBPAD`
  break it for every warp but each eighth.
* The two-pass softmax folds every row exactly when there are at most sixteen rows per warp.
* The fused, thread-per-row and separate softmax leave the same whole tile, on any threads and schedules: maxima,
  corrections, scales and packed words; their denominators agree on every row exactly when addition is associative
  and commutes.
* Where nothing rounds, they leave after every block the largest of all scores seen, and the sum of exp(score - maximum)
  over them, whatever the number of blocks and the form of each.
* `fx` truncates toward zero exactly for magnitudes below 2^22 and for 2^24 itself; for every other finite value
  it answers 2^40 with the value's sign.
  The scorer's comment bounds every squared term by 2^48. That holds for a golden value; for a difference it holds
  exactly when the signs agree or the magnitudes sum to less than 256. 2^50 always holds, and the sums still fit
  64 bits.
* `bf16_to_e4m3_scaled` agrees with scaling and then encoding on every finite value; on infinities and NaNs
  exactly while the scale is below 120, or is 120 and the mantissa at least 96.
* The fast requantizer follows the code's choice of a block exponent of 0, not the `emax_elem` choice of
  section 6.3 of the OCP Microscaling Formats (MX) Specification v1.0. Elements are E4M3 (section 5.3.1),
  scales E8M0 (section 5.4.1).

## Modelling choices

* Handshake: the `FULL_ATTN2` + `FA_STEADY` body with `FA_NOSCALES` and `FA_HOSTHS`, `FA_HOSTCFG` and
  `FA_HOSTPACK` as options, from the point where the host has cleared its mailbox words. Spin limits never
  fire. A GPU scale store is one 8-byte beat. Stores of one party are visible in program order.
* Pipelines: a drain waits for the issuing thread's earlier commands and stores, a barrier for all warps and
  their stores but not for moves and matmuls in flight. Within one statement stores go in any order. The mesh is
  any function of the words it reads, with its rounding inside that function; so are the softmax, requantizing and
  packing steps of the pipeline, whose words `PipeOutput` gives as functions of the inputs.
* Streaming is over the reals with any positive E that turns sums into products. The other softmax forms keep
  multiplication, subtraction, addition and the exponential as abstract rounded functions with the laws their
  contracts name, on finite scores and on weights only; minus infinity, the start of a maximum, is neither.
  `Fused.LawsAllowRounding` has operations that obey them all and round. `SoftmaxBlocks` asks in addition that nothing
  rounds, on the values that occur; `SoftmaxBlocks.ExactOperationsExist` has operations that meet that.
* A softmax run: threads store one word at a time; what they store is computed from the row's scores and from the
  state the row had at the start, which the lanes of its one warp load before lane 0 stores it anew. The requantizer
  of the separate form starts when all softmax threads are done.
* A warp runs in lockstep level by level in the tree reductions; within a level the lanes go in any order.
* Requantization: a bf16 code is a number below 2^16, a register a number below 2^32. Or-ing disjoint fields in
  the scalar encoders, and the four bytes of a branching-path word, is written as adding them (`Swar.OrBytes` is the
  equality); the other word packers use the bitwise operations themselves. A thread's step is a store with the
  loads it is computed from, which read softmax words no thread writes.

## Model

| member | source | states |
|---|---|---|
| HandshakeSafety.ScalesAreCurrent | kernels/fa_mx_hostsf/host.cpp:462-478 | In every run over any number of tiles, any matmul in flight on either cluster reads, in the two halves it selected, exactly its own tile's complete scales. |
| HandshakeSafety.ReadHalvesAreQuiet | kernels/fa_mx_hostsf/host.cpp:555-630 | From the issue of a matmul to its drain no step of host or GPU changes a row of the halves it selected. |
| HandshakeSafety.NoRowMixesWriters | kernels/fa_mx_hostsf/host.cpp:178-224 | No 16-byte row of the shared activation port is ever formed from one host beat and one GPU beat. |
| HandshakeSafety.InvariantRun | kernels/fa_mx_hostsf/mxgemm_core.hpp:940-1053 | Every reachable state satisfies the protocol invariant: control, pack words, contents of both scale memories, scratch and pack buffer. |
| HandshakeHistory.DoneMeansRan | kernels/fa_mx_hostsf/mxgemm_core.hpp:1245-1275 | QKDONE and PVDONE tell the truth: a cluster that has published a tile's number has run that tile's matmul and drained its mesh. |
| HandshakeHistory.EachMatmulOnce | kernels/fa_mx_hostsf/mxgemm_core.hpp:1245-1275 | No matmul runs twice or for a tile that does not exist, and a tile's PV matmul runs after its QK matmul. |
| HandshakeOrder.GpuProgramOrder | kernels/fa_mx_hostsf/mxgemm_core.hpp:962-1053 | In every run a cluster has been in exactly the phases its program has for the tiles so far, up to where it is: commands and recordings of its own for tile 0, or for all tiles without host-issued commands, and none skipped. |
| HandshakeOrder.HostProgramOrder | kernels/fa_mx_hostsf/host.cpp:536-630 | The same of the host, cluster 0 before cluster 1: bursts, replays, waits and publications, none skipped and none added. |
| HandshakeOrder.QkHasCommands | kernels/fa_mx_hostsf/host.cpp:577-583 | Whenever a QK matmul is in flight on a cluster its tile's commands have been issued there, by the GPU itself or by the host's replay to that cluster. |
| HandshakeOrder.PvHasCommands | kernels/fa_mx_hostsf/host.cpp:617-623 | The same of every PV matmul, which moreover comes after its tile's softmax. |
| HandshakeOrder.CaptureFindsRecordings | kernels/fa_mx_hostsf/host.cpp:536-546 | When the host stops waiting and captures, CFGREC is 2 on both clusters and each has recorded both of its command streams. |
| HandshakeProgress.CountersStayClose | kernels/fa_mx_hostsf/host.cpp:555-630 | PVDONE <= QKDONE <= QK_READY <= min(PVDONE) + 1 on each cluster, and the clusters are at most one tile apart. |
| HandshakeProgress.BurstsNeverOverlap | kernels/fa_mx_hostsf/mxgemm_core.hpp:960-1053 | With host-issued commands, for tiles after the first no host scale or command burst overlaps a GPU one on the same cluster. |
| HandshakeProgress.NeverStuck | kernels/fa_mx_hostsf/host.cpp:360-372 | In every reachable unfinished state some party can do a productive step, at once or after at most two polls of the host. |
| HandshakeProgress.WorkBoundsEverySchedule | kernels/fa_mx_hostsf/host.cpp:549-630 | However the parties are scheduled, the number of productive steps is bounded by the work left. |
| HandshakeProgress.AllTilesComplete | kernels/fa_mx_hostsf/host.cpp:549-630 | From every reachable state a schedule completes all tiles of both clusters, and every tile's QK and PV matmul has then run on both, QK first. |
| HandshakeProgress.FairSchedulesComplete | kernels/fa_mx_hostsf/host.cpp:549-630 | From every reachable state every endless schedule that keeps giving host, GPUs and meshes their turns, in whatever order, completes all tiles of both clusters, and they stay completed; every tile's matmuls have then run on both. |
| HandshakeProgress.RoundRobinIsFair | kernels/fa_mx_hostsf/host.cpp:549-630 | Such schedules exist: taking turns is one. |
| Fairness.FairSchedulesFinish | kernels/fa_mx_hostsf/host.cpp:360-372 | Waiting in polls is harmless: a system in which every unfinished state has a party whose next move brings the end nearer, and no other move takes that away, is finished by every fair schedule. |
| HandshakeUncleared.PackingSafeIffWordsClear | kernels/fa_mx_hostsf/host.cpp:451-457 | Host-side packing keeps every matmul on current scales under every schedule if and only if PACKED is clear on both clusters and PACKREQ on cluster 0. |
| HandshakeUncleared.UnclearIsUnsafe | kernels/fa_mx_hostsf/host.cpp:339-372 | With a word left set, a concrete schedule starts a PV matmul on scales that are not its tile's. |
| Replay.RecordCaptureReplay | kernels/fa_mx_hostsf/host.cpp:383-438 | What the GPU issues on tile 0 is what the host replays to every cluster, drains where the fence was, for up to 16 entries; of a longer stream, its first 16. |
| Replay.Record | kernels/fa_mx_hostsf/mxgemm_core.hpp:964-985 | The recorded words encode exactly the issued stream, count first, and the GPU's own port sees the same stream. |
| Replay.Gpu.Issue | kernels/fa_mx_hostsf/mxgemm_core.hpp:253-265 | A command is issued with its instruction word and appended to the recording when one is on; otherwise memory is untouched. |
| Replay.InstructionFields | kernels/fa_mx_hostsf/mxgemm_core.hpp:253-265 | An instruction word has the custom-3 opcode, no destination, function-3 code 3, source registers 1 and 2, and the function code on top. |
| Replay.Host.CfgCapture | kernels/fa_mx_hostsf/host.cpp:390-404 | Through aligned 8-byte loads the host caches the first 16 recorded entries word for word. |
| Replay.Host.CfgReplay | kernels/fa_mx_hostsf/host.cpp:410-438 | Each port's log grows by the decoded cached entries. |
| PipeRun.RunRefinesTileByTile | kernels/fa_mx_hostsf/flash_attention_mx.cpp:448-589 | With agent and other warps as statements in source order, barriers, drains and pending accesses that take effect at any moment, every finished run leaves the tile-by-tile memory. |
| PipeRun.RunOutput | kernels/fa_mx_hostsf/flash_attention_mx.cpp:448-589 | And word i of each tile's output is word i of the PV product over the sum of row i / oWords, with scores, probabilities, codes, block scales and packed scales given as functions of that tile's own input words, although buffers are reused and the next tile's scales are stored under the softmax. |
| PipeRun.RunState | kernels/fa_mx_hostsf/flash_attention_mx.cpp:448-589 | The rows' maxima, sums and corrections left at the end are those of the last tile's scores. |
| PipeRun.StepKeeps | kernels/fa_mx_hostsf/flash_attention_mx.cpp:478-576 | Every statement, barrier and effect keeps the invariant: what is pending or done is exactly what was issued, once, and in its stage. |
| PipeRun.NeverStuck | kernels/fa_mx_hostsf/flash_attention_mx.cpp:448-589 | Barriers and drains never block each other: an unfinished reachable state has a next step. |
| PipeRun.RunsAreBounded | kernels/fa_mx_hostsf/flash_attention_mx.cpp:448-589 | Under every schedule the run has a bounded number of steps. |
| PipeRun.Completes | kernels/fa_mx_hostsf/flash_attention_mx.cpp:448-589 | From every reachable state some schedule finishes all tiles. |
| Pipe.PipelineRefinesTileByTile | kernels/fa_mx_hostsf/flash_attention_mx.cpp:448-589 | For any tile count and any order of accesses that keeps the stages apart, the final memory is that of the tile-by-tile program. |
| PipeOutput.PipelinedOutput | kernels/fa_mx_hostsf/flash_attention_mx.cpp:448-589 | In any such order too each finalized output word is that value of its own tile's inputs. |
| PipeOutput.ComputesSemantics | kernels/fa_stable_fpga/flash_mx_impl.hpp:1687-1705 | For any kernels there are steps that compute with them, so the statement about the output is about something. |
| Pipe.ConflictsAreFenced | kernels/fa_mx_hostsf/flash_attention_mx.cpp:208-258 | Two conflicting accesses of different stages are always separated by a barrier or a drain. |
| Pipe.SmemMapIsDisjoint | kernels/fa_mx_hostsf/flash_attention_mx.cpp:62-76 | Different buffers of the shared-memory map, each warp's reduce buffer at 0x15000 included, share no byte for any tile and number of warps that fit. |
| Pipe.SchedulesExist | kernels/fa_mx_hostsf/flash_attention_mx.cpp:448-589 | For every shape there are orders that keep the stages apart and tile-by-tile orders. |
| KRun.RunComputesProduct | kernels/fa_mx_hostsf/mxgemm_core.hpp:782-916 | With the loop's statements in source order and moves, matmuls and scale stores taking effect at any moment before their fence or drain, every finished run leaves the sum over all K-tiles of the products of all words of their own A and B with all words of their own A and B scales. |
| KRun.RunRefinesPlainLoop | kernels/fa_mx_hostsf/mxgemm_core.hpp:782-916 | And the same tile as a plain loop with one buffer. |
| KRun.NeverStuck | kernels/fa_mx_hostsf/mxgemm_core.hpp:782-916 | An unfinished reachable state has a next step. |
| KRun.RunsAreBounded | kernels/fa_mx_hostsf/mxgemm_core.hpp:782-916 | Under every schedule the run has a bounded number of steps. |
| KRun.PlainOrderExists | kernels/fa_mx_hostsf/mxgemm_core.hpp:782-916 | The single-buffered loop has an order to compare with, for every shape. |
| KLoop.LoopComputesProduct | kernels/fa_mx_hostsf/mxgemm_core.hpp:782-916 | For any number of K-tiles and any completion order between drains, the moved-out element is that sum. |
| KLoop.DoubleBufferingIsInvisible | kernels/fa_mx_hostsf/mxgemm_core.hpp:782-916 | The double-buffered loop leaves the same tile as a plain loop with one buffer. |
| Traces.EquivalentOrdersAgree | kernels/fa_mx_hostsf/flash_attention_mx.cpp:448-589 | Two orders of the same accesses that agree on conflicting pairs end in the same memory. |
| Streaming.StreamingAttention | kernels/fa_mx_hostsf/flash_attention_mx.cpp:1081-1231 | However many blocks the keys come in, of whatever sizes, the streamed output is dense attention over all of them. |
| Streaming.Row.OnlineSoftmaxBlock | kernels/fa_stable_fpga/flash_mx_impl.hpp:1398-1477 | New maximum, correction, denominator and unnormalized weights of one block. |
| Streaming.Row.RescaleAccumulate | kernels/fa_stable_fpga/flash_mx_impl.hpp:1660-1682 | The accumulated output is rescaled by the correction and extended by the block's product. |
| Streaming.Row.FinalizeO | kernels/fa_stable_fpga/flash_mx_impl.hpp:1687-1705 | The output is the accumulator over the denominator. |
| Streaming.FoldedStep | kernels/fa_mx_hostsf/flash_attention_mx.cpp:1081-1231 | After each block m is the running maximum and l and O_acc are the sums over all columns seen. |
| TwoPass.TwoPassWarp | kernels/fa_stable_fpga/flash_mx_impl.hpp:1103-1396 | On each row that a lane folds the warp leaves the cooperative maximum, denominator and probabilities, with either place of the scale; other rows keep a stale maximum and denominator. |
| TwoPass.FoldsCoverRows | kernels/fa_stable_fpga/flash_mx_impl.hpp:1227 | The lanes fold every row exactly when there are at most sixteen rows a warp. |
| TwoPass.FoldIsRefMax | kernels/fa_stable_fpga/flash_mx_impl.hpp:1230-1295 | The linear fold of the partial maxima, scaled before or after, is the reference's tree maximum. |
| SoftmaxBlocks.TwoPassRow | kernels/fa_stable_fpga/flash_mx_impl.hpp:1103-1396 | What the two-pass form leaves on such a row: the largest of its scaled scores, the exponential of each less that, and with exact addition their sum. |
| Fused.FusedRow | kernels/fa_stable_fpga/flash_mx_impl.hpp:1553-1656 | Sixteen lanes of contiguous columns give the row's maximum, correction, block scales and codes, and a denominator whose row sum is the tree over the lanes' chains; each lane stores its c / 4 words, in any order of lanes, so that the word at every fourth column's tiled byte over four is the four codes, low byte first, and no other row changes. |
| Fused.ThreadPerRow | kernels/fa_stable_fpga/flash_mx_impl.hpp:1488-1544 | One thread for the whole row leaves the same maximum, correction, scales, codes and packed words at the same tiled places, eight words a block; its row sum is one chain. |
| Fused.SeparateRow | kernels/fa_stable_fpga/flash_mx_impl.hpp:1895-1907 | The cooperative softmax followed by the branching requantization, its block maximum by two chains of magnitudes over the stored words, leaves the same maximum, correction, scales, codes and packed words at the same tiled places, eight words an item; its row sum is the tree over strided lanes. |
| Fused.SameWords | kernels/fa_stable_fpga/flash_mx_impl.hpp:1634-1650 | What a form leaves in scratchpad and scale scratch is fixed by the row, so the three forms leave the same words and slots everywhere. |
| Fused.RowIs | kernels/fa_stable_fpga/flash_mx_impl.hpp:1398-1477 | Whatever is rounded: the new maximum is the larger of the state's and the row's, the correction the exponential of the old less the new, each block's scale the exponent of its largest weight, and each code its score's weight, scaled and encoded by the branching encoder. |
| SoftmaxBlocks.FirstBlock | kernels/fa_stable_fpga/flash_mx_impl.hpp:1398-1477 | Where nothing rounds, a first block in any form leaves the largest of its scores and the sum of exp(score - maximum). |
| SoftmaxBlocks.LaterBlock | kernels/fa_stable_fpga/flash_mx_impl.hpp:1553-1628 | A later block in any form leaves the largest of all scores seen and their sum, and its correction times any sum taken at the old maximum, plain or weighted by values, is that sum at the new one. |
| SoftmaxBlocks.OnlineSoftmax | kernels/fa_stable_fpga/flash_mx_impl.hpp:1398-1656 | However many blocks a row comes in, each in whatever form, maximum and denominator are those of all its scores. |
| SoftmaxBlocks.ExactOperationsExist | kernels/fa_stable_fpga/flash_mx_impl.hpp:1605-1628 | There are operations that do not round and meet all the laws. |
| SoftmaxTile.StrideRows | kernels/fa_stable_fpga/flash_mx_impl.hpp:1502-1574 | In each form a thread, or a warp, of any number does the rows of its stride, all of them: words and scales at their places, maximum, denominator and correction; every other row's are untouched. |
| SoftmaxRun.TileLeft | kernels/fa_stable_fpga/flash_mx_impl.hpp:1484-1656 | In each form, however many threads there are and however their stores interleave, a finished tile holds every code at its place, given by tile row, tile column, row and column in the tile, the scale of block b of a row in slot b * 16r + row, and each row's maximum, correction and denominator; through the straight-line requantizer in the blocks whose scale is 7 or more. |
| SoftmaxRun.SameTile | kernels/fa_stable_fpga/flash_mx_impl.hpp:1484-1656 | Whichever two forms do a tile, on whatever threads and schedules: the scratchpad, scales, maxima and corrections they leave are the same, and with exact addition the denominators. |
| SoftmaxRun.RunLeaves | kernels/fa_stable_fpga/flash_mx_impl.hpp:1396-1477 | The separate form's softmax leaves every weight pair where the requantizer reads it, in every layout; the other forms their words and scales. |
| Fused.LawsAllowRounding | kernels/fa_stable_fpga/flash_mx_impl.hpp:1605-1628 | The laws asked of the operations can all be met by operations that round. |
| RowStore.LaneWordsCover | kernels/fa_stable_fpga/flash_mx_impl.hpp:1636-1637 | The fused lanes' words cover the row, each word once. |
| Fused.ScaleFromScore | kernels/fa_stable_fpga/flash_mx_impl.hpp:1629-1631 | A block's scale from its largest score is the scale from its largest weight. |
| Fused.DenominatorsAgree | kernels/fa_stable_fpga/flash_mx_impl.hpp:1605-1628 | With exact addition the three forms leave the same denominator. |
| RowSums.DenominatorsAgreeIffExact | kernels/fa_stable_fpga/flash_mx_impl.hpp:1605-1628 | With a neutral zero, the contiguous, chained and strided sums agree on every row of two blocks or more if and only if addition is associative and commutes. |
| RowSums.LanesAgreeIffAssociative | kernels/fa_stable_fpga/flash_mx_impl.hpp:1605-1628 | The contiguous lanes' tree and the chain agree on every row if and only if addition is associative. |
| RowSums.DenominatorsDiffer | kernels/fa_stable_fpga/flash_mx_impl.hpp:1605-1628 | Under a rounding that absorbs small addends, lanes sum sixteen equal weights to 16 and a chain to 8. |
| Reduce.WarpTreeReduce | kernels/fa_stable_fpga/flash_mx_impl.hpp:828-838 | For any operation and any order of lanes within a level, slot 0 ends with the balanced tree of all lanes. |
| Reduce.WarpFold | kernels/fa_stable_fpga/flash_mx_impl.hpp:885-914 | The fold of the pairs read as words computes the same tree, for any operation. |
| Reduce.WarpButterflyReduce | kernels/fa_stable_fpga/flash_mx_impl.hpp:813-826 | Lane 0 ends with the tree for any operation, every lane when the operation commutes. |
| Reduce.WarpFoldX | kernels/fa_stable_fpga/flash_mx_impl.hpp:891-899 | Through rotated addresses every lane gets the tree of an aligned buffer when the operation commutes. |
| Reduce.RotatedTree | kernels/fa_stable_fpga/flash_mx_impl.hpp:865-884 | Exchanging lanes by an exclusive or does not change the tree of a commuting operation. |
| Reduce.FoldxNeedsAlignment | kernels/fa_stable_fpga/flash_mx_impl.hpp:891-899 | A word-aligned buffer is read correctly by every lane exactly when it is aligned to its own size. |
| Reduce.ReduceBuffers | kernels/fa_stable_fpga/flash_mx_impl.hpp:1077-1081 | Unpadded reduce buffers work for every warp, padded ones only for each eighth. |
| E4m3.ScaledIsScaleThenEncode | kernels/fa_stable_fpga/flash_mx_impl.hpp:167-184 | The branchless encoder is scaling followed by the truncating encoder on every finite value and every scale; on infinities and NaNs exactly while the scale is below 120, or is 120 and the mantissa at least 96. |
| E4m3.RoundsToNearest | kernels/fa_stable_fpga/flash_mx_impl.hpp:134-157 | The rounding form of the encoder gives every value in range the nearest code, of two as near the even one. |
| E4m3.OutOfRange | kernels/fa_stable_fpga/flash_mx_impl.hpp:134-157 | It flushes what is below the smallest normal code and saturates at 448 what is above the largest. |
| E4m3.FastIsLegacy | kernels/fa_stable_fpga/flash_mx_impl.hpp:186-226 | From a block exponent of 7 up the straight-line codes and scale are the legacy ones. |
| E4m3.SameValues | kernels/fa_stable_fpga/flash_mx_impl.hpp:1818-1856 | For every block exponent the dequantized values of both forms are equal. |
| E4m3.CodesAreSmall | kernels/fa_stable_fpga/flash_mx_impl.hpp:200-206 | No code of either form exceeds 63. |
| E4m3.QuantizationError | kernels/fa_stable_fpga/flash_mx_impl.hpp:1818-1856 | A kept value loses less than an eighth of itself; a flushed one was below 2^-6 of the block scale. |
| Swar.Pack4IsCodes | kernels/fa_stable_fpga/flash_mx_impl.hpp:228-271 | For every block bias and words whose codes fit a byte, the instructions pack the four codes, low half first. |
| Swar.SwarIsPack4 | kernels/fa_stable_fpga/flash_mx_impl.hpp:273-319 | For every bias from 0 to 960 and words whose codes fit a byte, the two-at-a-time form gives the same word. |
| Tiles.FastWordIsTiled | kernels/fa_stable_fpga/flash_mx_impl.hpp:1736-1741 | The fast word index is the tiled byte offset over four, and its bytes are the four columns' tiled bytes. |
| Tiles.TiledElement | kernels/fa_stable_fpga/flash_mx_impl.hpp:1736-1741 | Tiles follow each other row by row, 256 bytes each, with rows of 16 bytes. |
| Tiles.FastWordInjective | kernels/fa_stable_fpga/flash_mx_impl.hpp:1839-1856 | Every scratchpad word is stored by one word of one block only. |
| Tiles.FastWordOnto | kernels/fa_stable_fpga/flash_mx_impl.hpp:1839-1856 | Every word of the tile is stored. |
| Tiles.ReaderIsWriter | kernels/fa_stable_fpga/flash_mx_impl.hpp:1783-1806 | Under every layout an item reads each of its words where the softmax put it. |
| Tiles.WriterInjective | kernels/fa_stable_fpga/flash_mx_impl.hpp:1442-1466 | Different words are put at different places. |
| Requant.BlockQuantization | kernels/fa_stable_fpga/flash_mx_impl.hpp:1818-1856 | For every value of a block: legacy codes and scale from exponent 7 up, legacy values always, and the error bound. |
| Requant.RequantThread | kernels/fa_stable_fpga/flash_mx_impl.hpp:1783-1859 | One thread of any number requantizes all blocks of its stride and touches nothing else. |
| RequantRun.TileContents | kernels/fa_stable_fpga/flash_mx_impl.hpp:1745-1911 | With any number of threads striding over the items, one store at a time in any interleaving, on the straight-line path or the branching one: when all threads are done, the byte of every element at its place, given by tile row, tile column, row and column in the tile, is its code, and slot b * 16r + row holds the scale of block b of the row. |
| RequantRun.FinishedStoresOnce | kernels/fa_stable_fpga/flash_mx_impl.hpp:1783-1856 | The stores of every finished requantizing run are each word and each scale exactly once. |
| RequantRun.RunsAreBounded | kernels/fa_stable_fpga/flash_mx_impl.hpp:1783-1856 | Under every schedule there are at most nine stores for each item. |
| ScalePack.PackScales | kernels/fa_stable_fpga/flash_mx_impl.hpp:1949-1958 | One thread packs the scratch into the scale memory, four scales to a word, low byte first, and touches no other word. |
| ScalePack.Prepack | kernels/fa_stable_fpga/flash_mx_impl.hpp:1965-1976 | Striding threads pack the same words into the staging buffer, each its own. |
| ScalePack.CopyScales | kernels/fa_stable_fpga/flash_mx_impl.hpp:1978-1985 | The staged words are copied in ascending order. |
| ScalePack.RequantScaleByte | kernels/fa_stable_fpga/flash_mx_impl.hpp:1913-1985 | After any finished requantizing run and the packing, byte b * 16r + row of the mesh's scale memory is the scale of block b of the row. |
| ScalePack.TileScaleByte | kernels/fa_stable_fpga/flash_mx_impl.hpp:1913-1985 | So it is after a tile in any form of the softmax. |
| StrideRun.StepKeeps | kernels/fa_stable_fpga/flash_mx_impl.hpp:1783-1856 | In any grid-stride loop, after every store of any thread, what has been stored is what each thread has passed on its stride, once. |
| StrideRun.FinishedStoresOnce | kernels/fa_stable_fpga/flash_mx_impl.hpp:1783-1856 | Every finished run of any number of threads has done each store of each item exactly once. |
| StrideRun.Completes | kernels/fa_stable_fpga/flash_mx_impl.hpp:1783-1856 | From every reachable state some schedule finishes. |
| Requant.EveryPlaceIsStored | kernels/fa_stable_fpga/flash_mx_impl.hpp:1745-1911 | Every word of the tile and every scale slot is the target of a store. |
| Requant.BlockMax | kernels/fa_stable_fpga/flash_mx_impl.hpp:1818-1827 | Four chains find the block's largest value. |
| Requant.FMaxIsLargest | kernels/fa_stable_fpga/flash_mx_impl.hpp:1818-1827 | The maximum of two codes is the larger by sign and magnitude. |
| Requant.LegacyBlockMax | kernels/fa_stable_fpga/flash_mx_impl.hpp:1876-1887 | The branching path's two chains over magnitudes find the block's largest value. |
| Requant.SwarStoresTheSame | kernels/fa_stable_fpga/flash_mx_impl.hpp:1846-1848 | On values up to 1 the two-at-a-time form stores the same word. |
| BfsSteps.Search.Run | kernels/bfs/bfs.py:180-274 | The level loop ends with cost the shortest distance from node 0, or 0xFFFFFFFF for unreachable nodes, and visited the reachable nodes. |
| BfsSteps.Search.Bfs1Step | kernels/bfs/bfs.py:107-127 | In place, the mask is spent and exactly the unvisited neighbours are marked; when masked nodes share one cost, with one more than it. |
| BfsSteps.Search.Bfs2Step | kernels/bfs/bfs.py:130-143 | In place, marked nodes become mask and visited, and the flag says whether there were any. |
| BfsSteps.LevelStep | kernels/bfs/bfs.py:207-274 | From mask the distance-k set and visited the distance-at-most-k set, the two steps make k one larger, and the flag says whether that set is empty. |
| BfsGraph.DistanceBound | kernels/bfs/bfs.py:188-274 | A distance is less than the number of nodes, so the loop ends and costs do not wrap. |
| BfsGraph.BuildGraph | kernels/bfs/bfs.py:160-170 | Every node's slice of the edge array is its adjacency list, slices are end to end, and edges are exactly the adjacencies. |
| BfsGraph.BuildTreeAdjacency | kernels/bfs/bfs.py:11-29 | Bad parameters are refused; otherwise every node above the last level gets its children in level order. |
| BfsGraph.TreeDistances | kernels/bfs/bfs.py:11-29 | In a generated tree the distance of a node from the root is its level. |
| BfsGraph.BuiltIsTree | kernels/bfs/bfs.py:11-33 | The graph of the built lists is the tree: its edges are exactly those from a node above the last level to its children. |
| BfsGraph.GenerateTree | kernels/bfs/bfs.py:11-33 | Bad parameters are refused; otherwise what is generated is the tree, and its distances from the root are the levels. |
| BfsKernel1.KernelIsSequential | kernels/bfs/kernel_impl.hpp:35-56 | From masked nodes that are visited and share one cost, every finished interleaving of any number of threads leaves what the sequential first step leaves. |
| BfsKernel1.KernelTerminates | kernels/bfs/kernel_impl.hpp:35-56 | Under every schedule the threads take a bounded number of steps. |
| BfsKernel2.KernelIsSequential | kernels/bfs/kernel_impl.hpp:58-72 | Every finished interleaving leaves the sequential arrays, and the sequential flag exactly when the flag was 0 or some node was marked. |
| BfsKernel2.KernelTerminates | kernels/bfs/kernel_impl.hpp:58-72 | Under every schedule the threads take a bounded number of steps. |
| BfsKernel2.DeviceLevel | kernels/bfs/kernel_impl.hpp:35-72 | At any level the two kernels, on any thread counts and schedules, leave the arrays of the next level. |
| Scorer.Isqrt | kernels/fa_stable_fpga/host.cpp:1191-1196 | For every 64-bit number the result is the rounded-down root, and no operation overflows. |
| Scorer.FxTruncates | kernels/fa_stable_fpga/host.cpp:1183-1190 | For finite values fx is v * 2^16 rounded toward zero exactly when the magnitude of v is below 2^22 or is 2^24. |
| Scorer.HalvesOfWord | kernels/fa_stable_fpga/host.cpp:1200-1203 | The even element of a pair is the low half of its word, the odd one the high half. |
| Scorer.CodeFields | kernels/fa_stable_fpga/host.cpp:1183-1204 | A code is its sign, exponent and mantissa; the codes skipped and counted are those with all exponent bits set. |
| Scorer.Accumulate | kernels/fa_stable_fpga/host.cpp:1197-1208 | For up to 8192 elements below 256 the sums of squares are exact in 64 bits, and non-finite outputs are skipped and counted. |
| Scorer.FrobeniusPpm | kernels/fa_stable_fpga/host.cpp:1209-1211 | The result is a million times the root of the error over the root of the norm, each rounded down, in 32 bits. |
| Scorer.TermFits48Bits | kernels/fa_stable_fpga/host.cpp:1180-1181 | A squared golden value is below 2^48; a squared difference of values below 256 is if and only if their signs agree or their fixed-point magnitudes sum to less than 256. |
| Scorer.TermPasses48Bits | kernels/fa_stable_fpga/host.cpp:1180-1181 | It is not at output 255, golden value -255. |

## Left out

- Hardware timing: barrier pads, cycle stamps, settle delays and the measured failures the comments record.
- The sequential `FULL_ATTN2` hand-off from softmax to requantization, which has no barrier between warps.
- The diagnostic builds `FA_EARLYV`, `FA_HOSTHS_VEARLY`, `FA_HOSTCFG_NOMVIN` and the scale and phase probes.
- Burst exclusion without `FA_HOSTCFG`: there the prefetch issues commands before it blocks, so the claim is not made.
- The mesh's internal rounding, the real bf16 exponential and the instruction operands of the mesh.
- Whole-kernel addresses of global memory; the K-loop's input words are named by tile and index.
- Scale arrays longer than the last tile are assumed padded, since the K-loop loads one tile past the end.
- `Streaming.Row.ValueProduct`: the mesh over exact values, one query row at a time; rows are independent.
- `TwoPass` works on rows as values, so writing P over S in place is shown word by word but arrays are not shared with other warps; `Fused` computes a row on values and then stores its words and scales, and `SoftmaxRun` takes the scores as given.
- File emission, array cloning and the environment variables of `bfs.py`, and the golden files.
- `pack_scales_to_sfmem`'s lane-parallel form, `copy_P_to_requant`, and the earlier subset of the header in `fa_mx_hostsf`.
- UART printing, reset, MMIO probes and the O-window dump in the hosts.
- `flash_attention_mx_fp6`, the log and trace parsers, and the torch and numpy generators.
