# Verified models of the R9700 work: kernels, controllers, evidence

This Dafny project models the parts of the repository that are easy to get subtly wrong and proves what
they are for. Nothing is executed: every statement below is a theorem about the model, for all inputs, all
command outcomes and all interleavings it names.

* **Routed INT4 kernels** (`BitOps`, `AwqLayout`, `Swizzle`, `MoeProblem`, `MoeKernels`, `MoePresum`,
  `MoeLaunch`, `MoeWeights`, `HybridApply`, `HybridMeaning`). AutoAWQ words are repacked nibble by nibble; four kernels
  (dequantise in the loop, algebraic, algebraic with a correction tensor, algebraic with presummed
  activations) compute a routed product tile by tile. All four are loops over masked loads and are proved to
  store the plain product `sum_k A[t / top_k, k] * (q - z) * s`, in any program order and any interleaving of
  their stores, and nothing else. `HybridExperts.Apply` runs the whole layer on real heap arrays, the first
  and third intermediate cache sharing one of them, and is proved equal to the pipeline on separate values.
* **Promotion controller** (`Phase6Log`, `Phase6Control`). Each command may succeed, fail, time out or be the
  point where the controller is killed. The history of what was done and seen is a ghost log, and the
  controller's promises are stated on that log.
* **Durable writes** (`DurableIo`). A step relation over a two-level file system, with any number of
  interleaved writers and a power loss at any step.
* **Temporary BMC account** (`BmcAccount`). Mint, use, revoke and read back, where any command may fail with
  or without having taken effect, and an exit code that must not claim more than was confirmed.
* **Bit-packing references and patch scanners** (`Int4Reference`, `PatchLines`).
* **Partition sweep** (`HsaAgents`, `ModeSweep`) and **benchmark evidence** (`SortedLists`, `BenchStats`,
  `BenchRunner`, `BenchAudit`, `BenchAgreement`): what the runner measures, the auditor recomputes.

Code that changes state is modelled by methods and classes that change state, proved against specification
functions; the theorems are then lemmas about those functions or about the invariants the methods keep.
Integers are unbounded and the two's complement shift and mask of negative words are written out in
`BitOps`. Arithmetic on activations, scales, times and rates is exact (`real`).

## Assumptions made explicit

* `moe_align_block_size` is the contract `MoeProblem.Table.Aligned`: every id of `[0, M * top_k)` once below
  `npost`, padding ids at least the number of valid ids, `npost` a multiple of the block size and no more than
  the table's length, one expert per block. The pack order of AutoAWQ is any permutation of 0..7. The
  adapter asserts an even K, and so does the model.
* The stock WNA16 kernel is the contract of `HybridApply.StockGemm`; activation and input quantisation are
  arbitrary rowwise functions.
* Controller: only the controller starts units, and a unit that answers "not active" after a stop request is
  down and stays down until its next start. A stop that `systemctl` reports as failed still counts as asked
  for. A killed controller loses its lock. `wait_backend_ready` hands back a last probe it does not check,
  so the claim for stock is that a probe passed in this transaction.
* Temporary names are never reused. An unsynced directory entry or permission change may or may not survive
  a power loss; data is certain only after its own fsync.
* The BMC run may be interrupted anywhere inside the `with` body. Its user listing parses exactly or fails.
* The benchmark's clock readings are inputs. `BenchAgreement.ClockSound` says that a request takes no longer
  than the wall time of its round; it is needed only where a statement names it.

## Where the code and its comments differ

`atomic_write_bytes` copies an existing file's mode after the temporary file was synced, while its
documentation promises the mode without qualification. Every running process sees the old mode
(`DurableIo.ModeKept`), but across a power loss the mode of a published replacement is certain exactly when
the file was owner-only to begin with (`DurableIo.ModeCertainIffOwnerOnly`), and `DurableIo.ModeMayBeLost`
is a finished call on a 0644 file after which the file may be found with mode 0600.

`current_modes` strips white space before it strips the asterisk some cards print, so `SPX *` is read as `SPX`
with a trailing space, while `parse_mode` yields `SPX`. The sweep then restores the same mode under its other
spelling; `ModeSweep.RestoreReadsExactly` says exactly when the two spellings are one.

The runner stamps sample schema v2 while the auditor accepts v1, so agreement is stated arm by arm and for the
gate, not for a whole report.

## Model

| member | source | states |
|---|---|---|
| BitOps.AndLowBits | scripts/r9700_wna16_hybrid_patch_v7_clean.py:169-191 | masking with n low ones is the remainder modulo 2^n, negative int32 words included |
| BitOps.NibbleOfPack | scripts/r9700_vllm_source_candidate.py:186-205 | every 4-bit lane ORed into a word is read back unchanged by shift and mask |
| AwqLayout.PackedWeightsReadBack | scripts/r9700_wna16_hybrid_patch_v7_clean.py:169-191 | the repacked N-first bytes, read with the kernel's shift, hold AutoAWQ's code of every (e, n, k), for any lane permutation |
| AwqLayout.PackedZerosReadBack | scripts/r9700_wna16_hybrid_patch_v7_clean.py:169-191 | the same for the zero point of every (e, n, group) |
| AwqLayout.AwqRoundTrip | scripts/r9700_wna16_hybrid_patch_v7_clean.py:169-191 | packing codes with a permutation, converting and reading is the identity on codes |
| AwqLayout.UnpackZeros | scripts/r9700_wna16_hybrid_patch_v7_clean.py:209-217 | the two strided assignments fill every column with the zero point the kernels read |
| AwqLayout.BuildCorrection | scripts/r9700_wna16_hybrid_patch_v7_clean.py:209-217 | the tensor is zero point times scale at every expert, column and group |
| AwqLayout.CorrectionOfAwq | scripts/r9700_wna16_hybrid_patch_v7_clean.py:209-217 | built from converted zero points, the correction recovers AutoAWQ's own zero point times scale |
| AwqLayout.DecodeOfAdapter | scripts/r9700_awq_triton_layout_proof.py:47-84 | `decode_triton` after `adapter` is the direct dequantisation of the AWQ words, at every (e, k, n) |
| AwqLayout.ZeroOfAdapter | scripts/r9700_awq_triton_layout_proof.py:47-84 | the zero points the decoder interleaves are those of the AWQ words |
| Swizzle.PidRoundTrip | scripts/r9700_wna16_group128_rdna4_kernel.py:52-58 | every program's tile is inside the tile grid and determines the program, for every GROUP_SIZE_M, short last group included |
| Swizzle.TileRoundTrip | scripts/r9700_wna16_group128_rdna4_kernel.py:52-58 | every tile of the grid belongs to a program in range: with the row above, a bijection |
| Swizzle.UngroupedIsRowMajor | scripts/r9700_wna16_hybrid_patch_v7_clean.py:90-112 | with one row per group the grouped order is the hybrid kernel's row-major order |
| MoeProblem.Problem.GroupAlgebra | scripts/r9700_wna16_hybrid_patch_v7_clean.py:114-160 | adding `qacc * s - asum * (z * s)` to a product up to a group extends it by that group |
| MoeProblem.Problem.ProductTail | scripts/r9700_wna16_hybrid_patch_v7_clean.py:114-160 | the masked columns past K, in a short last group, add nothing |
| MoeProblem.Problem.OwnerHasLane | scripts/r9700_wna16_hybrid_patch_v7_clean.py:90-112 | every valid cell has a program of the grid and a lane of its tile, below `npost` |
| MoeProblem.Problem.LaneIsOwners | scripts/r9700_wna16_hybrid_patch_v7_clean.py:90-112 | a lane that stores a valid cell belongs to that one program and place |
| MoeProblem.Problem.TableInBounds | scripts/r9700_wna16_hybrid_patch_v7_clean.py:90-112 | the unmasked loads of both tables by a program that is not skipped stay in bounds |
| MoeProblem.Problem.BlockExpert | scripts/r9700_wna16_hybrid_patch_v7_clean.py:90-112 | a block's expert is the one each of its valid slots was routed to |
| MoeKernels.GroupDots | scripts/r9700_wna16_moe_algebraic_kernel.py:50-64 | the inner loop leaves the code dot product and the activation sum of one group |
| MoeKernels.CloseGroup | scripts/r9700_wna16_moe_algebraic_kernel.py:50-64 | closing a group extends every lane's product by that group |
| MoeKernels.CorrectionTile | scripts/r9700_wna16_hybrid_patch_v7_clean.py:114-160 | the hybrid kernel's accumulator holds the plain product in every lane |
| MoeKernels.AlgebraicTile | scripts/r9700_wna16_moe_algebraic_kernel.py:36-64 | the algebraic kernel's accumulator does too |
| MoeKernels.DequantTile | scripts/r9700_wna16_group128_rdna4_kernel.py:74-94 | the dequantise-in-loop kernel's accumulator does too |
| MoePresum.FillGroupSums | scripts/r9700_wna16_presum_routed_kernel.py:29-30 | the prepass grid, in any program order, leaves every (row, group) sum |
| MoePresum.CellOf | scripts/r9700_wna16_presum_routed_kernel.py:29-30 | program ids and (row, group) cells correspond one to one, both ways |
| MoePresum.SumsAreASums | scripts/r9700_wna16_presum_routed_kernel.py:29-43 | the presummed value read for a slot is the sum the algebraic kernel forms itself |
| MoePresum.PresumTile | scripts/r9700_wna16_presum_routed_kernel.py:31-43 | the presum kernel's accumulator holds the plain product in every lane |
| MoeLaunch.CellHasLane | scripts/r9700_wna16_hybrid_patch_v7_clean.py:161-166 | every valid cell is stored by an active lane of its owner |
| MoeLaunch.LaneHasCell | scripts/r9700_wna16_hybrid_patch_v7_clean.py:161-166 | every active lane stores a valid cell that its program owns: with the row above, each valid cell is stored exactly once |
| MoeLaunch.StoreTile | scripts/r9700_wna16_hybrid_patch_v7_clean.py:161-166 | the masked store writes the lane values to the tile's valid cells and changes no other element |
| MoeLaunch.Program | scripts/r9700_wna16_hybrid_patch_v7_clean.py:90-166 | one program of any of the four kernels stores its cells' products, zero for a block of another rank, and nothing when past `npost` |
| MoeLaunch.Launch | scripts/r9700_wna16_hybrid_patch_v7_clean.py:253-303 | the grid in any program order leaves the product in every valid cell and the rest of C unchanged |
| MoeLaunch.LaunchPresum | scripts/r9700_wna16_presum_routed_kernel.py:29-47 | prepass grid, then routed grid reading what it left: the product in every valid cell, in any orders |
| MoeLaunch.TileOf | scripts/r9700_wna16_hybrid_patch_v7_clean.py:90-160 | the values a program holds when it comes to its store are the products of its valid cells, computed from the inputs alone |
| MoeLaunch.CellHoldsItsLane | scripts/r9700_wna16_hybrid_patch_v7_clean.py:161-166 | whatever values the lanes hold and in whatever order they store, a valid cell ends with the value of its one lane |
| MoeLaunch.AnyInterleaving | scripts/r9700_wna16_hybrid_patch_v7_clean.py:161-166 | any two interleavings of all stores, for arbitrary lane values, leave the same buffer |
| MoeLaunch.LaunchInterleaved | scripts/r9700_wna16_hybrid_patch_v7_clean.py:253-303 | all programs at once, each storing the tile its kernel computed, lane by lane in any order: the product in every valid cell, the rest of C unchanged |
| MoeWeights.CellIsPlain | scripts/r9700_wna16_hybrid_patch_v7_clean.py:57-166 | a stored cell is `sum_k A[t / top_k, k] * (q - z) * s`, whatever the table and block sizes |
| MoeWeights.PlainDotMoves | scripts/r9700_wna16_hybrid_patch_v7_clean.py:114-160 | what the plain product is: one activation moves it by the change times `(code - zero) * scale` of that column, read from the packed tensors |
| MoeWeights.PlainDotOfZeros | scripts/r9700_wna16_hybrid_patch_v7_clean.py:114-160 | and it is zero on zero activations |
| MoeWeights.PlainCellMoves | scripts/r9700_wna16_hybrid_patch_v7_clean.py:132-160 | one activation of token m moves exactly the cells of slots m * top_k to m * top_k + top_k - 1, each by its own expert's weight |
| MoeWeights.PlainCellOfZeros | scripts/r9700_wna16_hybrid_patch_v7_clean.py:106-112 | a slot of another rank's expert, or zero activations, give zero |
| MoeWeights.KernelsAgree | scripts/r9700_wna16_presum_routed_kernel.py:29-47 | any two of the kernels, with any tables, tiles and orders, compute the same output |
| MoeWeights.CorrectionIsReady | scripts/r9700_wna16_hybrid_patch_v7_clean.py:209-217 | what `_build_correction` makes is what the correction kernel needs |
| MoeWeights.DequantIsAwq | scripts/r9700_wna16_hybrid_patch_v7_clean.py:169-191 | the weight every kernel multiplies by is AutoAWQ's `(code - zero) * scale` |
| HybridApply.NewExperts | scripts/r9700_wna16_hybrid_patch_v7_clean.py:223-231 | a layer without W1 zero points is refused, and only such a layer; any other gets its correction |
| HybridApply.HybridExperts.constructor | scripts/r9700_wna16_hybrid_patch_v7_clean.py:225-231 | an accepted layer holds the correction tensor of its own weights |
| HybridApply.SmallW1 | scripts/r9700_wna16_hybrid_patch_v7_clean.py:253-303 | the custom W1 launch fills the first cache with the plain products |
| HybridApply.HybridExperts.Apply | scripts/r9700_wna16_hybrid_patch_v7_clean.py:305-443 | with caches 1 and 3 in one array, the output is W1, activation, W2, sum on separate values, on the custom and the stock path, with the table reused or built again; the custom path is taken exactly under the listed conditions |
| HybridMeaning.WeightMoves | scripts/r9700_wna16_hybrid_patch_v7_clean.py:421-443 | what that output is: changing one slot's routing weight moves exactly its own token's row, by the change times W2's plain product of the slot, for every slot |
| HybridMeaning.SlotMoves | scripts/r9700_wna16_hybrid_patch_v7_clean.py:344-443 | taking one slot from its expert lowers exactly its token's row by the slot's weighted product, whoever carries the weight: every slot is summed once, in its own row |
| HybridMeaning.NothingContributes | scripts/r9700_wna16_hybrid_patch_v7_clean.py:344-443 | and the output is zero where no slot contributes |
| HybridApply.FirstFromCells | scripts/r9700_wna16_hybrid_patch_v7_clean.py:344-443 | the cells W1 stores, whichever kernel stored them, are the pipeline's first stage |
| HybridApply.MoeSum | scripts/r9700_wna16_hybrid_patch_v7_clean.py:344-443 | the sum over choices reads the third cache only, and gives the pipeline's output |
| Phase6Control.Controller.Promote | scripts/r9700_phase6_control.py:278-324 | keeps the invariant through every outcome and crash; returns normally only with S3 recorded as validated; raising, it leaves the file as it was, or began a fallback and leaves the file not naming S3; not killed, it owes no fallback when it ends; does nothing when the lock is held |
| Phase6Control.Controller.Rollback | scripts/r9700_phase6_control.py:327-331 | keeps the invariant; returns normally only with validated stock recorded |
| Phase6Control.Controller.FallbackLocked | scripts/r9700_phase6_control.py:230-251 | keeps the invariant; gives up with a RuntimeError only after the guard was told to stop and S3 asked to stop; returns normally only with stock started, probed and recorded as validated; otherwise leaves the file as it was or not naming S3 |
| Phase6Control.Controller.ReconcileStockState | scripts/r9700_phase6_control.py:254-275 | keeps the invariant; returns normally only after S3 was seen not active and a probe of stock passed, with validated stock recorded |
| Phase6Control.Controller.GuardOnce | scripts/r9700_phase6_control.py:334-356 | returning normally: the state file is unchanged unless it named S3; then S3 not active leaves validated stock, a passed probe no failures, an unready one one failure more, or validated stock once that reaches the threshold; the action says which; not killed, it owes no fallback when it ends |
| Phase6Control.Controller.Lock | scripts/r9700_phase6_control.py:212-227 | a held lock refuses and changes nothing |
| Phase6Control.Controller.StartUnit | scripts/r9700_phase6_control.py:300-324 | the one start command; callable only after the other unit's shutdown was seen complete in this transaction |
| Phase6Control.Controller.WaitBackendReady | scripts/r9700_phase6_control.py:171-178 | returns only after a probe in this transaction passed; the last probe is not checked |
| Phase6Control.Controller.SaveState | scripts/r9700_phase6_control.py:80-88 | the state file is replaced completely or not at all |
| Phase6Control.Controller.AnyHistory | scripts/r9700_phase6_control.py:212-356 | over any commands, outcomes, crashes, unit drift and loss of the state file, stock and S3 are never both up |
| Phase6Control.InvariantMeans | scripts/r9700_phase6_control.py:230-356 | in every reachable state: every start follows the other unit's stop, inactivity, clean VRAM and free port in one transaction; a file naming S3 stands on a promotion (S3 verified, timer seen active, saved) not undone since and with no S3 start since the verification, and `guard_failures` is the current run of unready readings; each save of validated stock follows a passed probe, a stopped guard and S3 seen not active in its transaction; a fallback for unreadiness has begun only with the run at the threshold, and a command whose guard saw S3 not active, or that saved a reading reaching the threshold, or a promotion in progress, does not end unkilled without beginning a fallback (or, for a promotion, committing S3) |
| Phase6Log.StartsFollowShutdown | scripts/r9700_phase6_control.py:300-324 | a good log has the four shutdown observations, in order and in the same transaction, before each start |
| Phase6Log.CommittedMeansPromoted | scripts/r9700_phase6_control.py:300-324 | a committed S3 state has a verification, a timer seen active and a save, in that order, with no later save taking S3 out and no S3 start after the verification |
| Phase6Log.StockMeansProbed | scripts/r9700_phase6_control.py:230-275 | validated stock is saved only after a probe of stock passed since its last start, and with the guard told to stop, in one transaction |
| Phase6Log.RunCountsReadings | scripts/r9700_phase6_control.py:334-356 | the counter equals the number of trailing unready readings recorded |
| Phase6Log.ReachedMeansFallback | scripts/r9700_phase6_control.py:347-355 | after a saved reading that reached the threshold, a command that ends began a fallback |
| Phase6Log.InactiveMeansFallback | scripts/r9700_phase6_control.py:336-343 | once the guard has read that the state file names S3 and then seen S3 not active, its command does not end, unless killed, before a fallback began |
| Phase6Log.FallbackMeansReached | scripts/r9700_phase6_control.py:347-355 | a fallback for unreadiness begins only on an unready reading with the run at the threshold or above |
| Phase6Log.OpenedMeansClosed | scripts/r9700_phase6_control.py:295-324 | a promotion recorded as in progress commits S3 or begins a fallback before its command ends |
| Phase6Log.IdleMeansSeen | scripts/r9700_phase6_control.py:254-261 | validated stock is saved, and a fallback for an inactive unit begun, only after S3 was seen not active |
| DurableIo.OldOrComplete | src/kernelforge/durable_io.py:31-55 | any interleaving of calls, any power loss: the path has the old file, unchanged, or one call's complete payload |
| DurableIo.ReturnedSurvives | src/kernelforge/durable_io.py:22-55 | after a call returned, a power loss finds its payload or that of a later replacement |
| DurableIo.NoTemporaryLeft | src/kernelforge/durable_io.py:31-55 | a call that returned or raised leaves no temporary file |
| DurableIo.ModeKept | src/kernelforge/durable_io.py:31-55 | at every moment the path of an existing file has the mode it had |
| DurableIo.ModeCertainIffOwnerOnly | src/kernelforge/durable_io.py:40-55 | across a power loss a replacement's mode is certain if and only if the old mode was owner-only |
| DurableIo.ModeMayBeLost | src/kernelforge/durable_io.py:40-55 | a finished call on a 0644 file after which a power loss may leave mode 0600 |
| DurableIo.FirstPublication | src/kernelforge/durable_io.py:31-55 | a finished first publication: the path, which named nothing, names a durable file with the payload |
| DurableIo.RecoveredIsSettled | src/kernelforge/durable_io.py:31-55 | recovery yields a starting state again, so the guarantees hold across any number of crashes |
| BmcAccount.TempBmcAccount.Slot | scripts/platform_audit_bmc.py:236-246 | when the listing succeeds, the lowest slot with the sentinel's name, else the lowest free slot above 2, else none; none when it fails |
| BmcAccount.LowestWhere | scripts/platform_audit_bmc.py:236-246 | the lowest matching slot, or none if none matches |
| BmcAccount.TempBmcAccount.Enter | scripts/platform_audit_bmc.py:248-318 | the claimed slot's own status is asked first and an enabled one noted as a credential failure; every command is about that slot and only it changes |
| BmcAccount.TempBmcAccount.Exit | scripts/platform_audit_bmc.py:320-372 | no failures are recorded exactly when every revoke step on the claimed slot reported success and that slot was read back as not enabled |
| BmcAccount.Run | scripts/platform_audit_bmc.py:551-640 | without a given account and permission to mint, or with any other pre-check failing: exit 2, the BMC asked nothing, nothing changed; with a given account nothing is minted; otherwise exactly the slot the listing names is claimed, and the knobs are read exactly when name and password were set and nothing interrupted. Exit 3 exactly when the claimed slot was not cleanly handled, from its status at entry to its read-back; exit 0 exactly when clean, read and all knobs PASS; exit 1 exactly when some knob FAILs; no other slot is asked about or changed |
| BmcAccount.ReliableRun | scripts/platform_audit_bmc.py:320-352 | where setaccess needs an enabled account and revoking needs one of the two privileges, a run ends with access off and the account disabled |
| BmcAccount.ManyRuns | scripts/platform_audit_bmc.py:236-372 | any number of runs keeps at most one sentinel slot and never changes another name's slot |
| BmcAccount.ReusedKeepsTable | scripts/platform_audit_bmc.py:236-246 | reusing a permitted slot keeps both table properties |
| Int4Reference.Repack | scripts/r9700_vllm_source_candidate.py:186-205 | accepts exactly non-empty rectangular bytes with N a multiple of 8; otherwise reports the first violated requirement in the loops' order; accepted, lane n % 8 of word (e, k, n / 8) is the code of (e, n, k) |
| Int4Reference.ViolationUnique | scripts/r9700_vllm_source_candidate.py:186-201 | there is one first violation, and none for an accepted input |
| Int4Reference.RepackKeepsCodes | scripts/r9700_vllm_source_candidate.py:186-229 | unpacking the repacked words is unpacking the original bytes, for all e, n, k |
| Int4Reference.RowCodeMeans | scripts/r9700_vllm_source_candidate.py:219-229 | a byte is its even column's code plus 16 times its odd column's |
| Int4Reference.WordFits | scripts/r9700_vllm_source_candidate.py:186-205 | every word is below 2^32 |
| Int4Reference.RepackInjective | scripts/r9700_vllm_source_candidate.py:186-205 | accepted inputs with equal words are equal |
| Int4Reference.UnpackRepacked | scripts/r9700_vllm_source_candidate.py:208-216 | every (e, n, k) is the lane n % 8 of its word |
| Int4Reference.UnpackOriginal | scripts/r9700_vllm_source_candidate.py:219-229 | fails exactly when a list index would; otherwise every (e, n, k) is its nibble of byte k / 2, and zero past the end of a short row |
| Int4Reference.UnpackZp | scripts/r9700_vllm_source_candidate.py:232-244 | returns the first error in the loops' order, or every zero point as its nibble, and zero past the end of a short row |
| Int4Reference.ZpAcceptedExactly | scripts/r9700_vllm_source_candidate.py:232-244 | no error exactly when no list index fails and every used value is a byte |
| Int4Reference.RepackAndUnpack | scripts/r9700_vllm_source_candidate.py:186-229 | running repack, then both unpackers, gives equal tables |
| Int4Reference.ZeroPointsBothWays | scripts/r9700_vllm_source_candidate.py:232-244 | `unpack_zp_reference` gives, transposed, the zero points `_build_correction` unpacks |
| PatchLines.HunkCountMismatches | scripts/r9700_vllm_source_candidate.py:60-106 | the index-driven scan terminates and returns the reports of the line-by-line reading |
| PatchLines.EveryBadHunkReported | scripts/r9700_vllm_source_candidate.py:60-106 | the reports are, in line order, exactly one for each hunk whose header is malformed or whose counts differ from its body, under the path named last before it |
| PatchLines.NoneReported | scripts/r9700_vllm_source_candidate.py:60-106 | nothing is reported if and only if every hunk is good |
| PatchLines.BodyOfEdit | scripts/r9700_vllm_source_candidate.py:84-93 | the body written for an edit counts the lengths of the two texts it relates, and ends where the next hunk or section starts |
| PatchLines.HunkOfEdit | scripts/r9700_vllm_source_candidate.py:72-105 | a hunk written for an edit is good exactly when its header declares those lengths |
| PatchLines.FilterPatch | scripts/r9700_phase3_build_vllm43389_overlay.py:49-66 | the one-pass collector returns the kept lines of the recursive reading |
| PatchLines.KeptIsAllowedSections | scripts/r9700_phase3_build_vllm43389_overlay.py:49-66 | what is kept is exactly the allowed sections, whole and in order |
| PatchLines.FilterOfSections | scripts/r9700_phase3_build_vllm43389_overlay.py:49-66 | a patch made of sections is filtered to exactly those whose path is allowed |
| PatchLines.FilterIdempotent | scripts/r9700_phase3_build_vllm43389_overlay.py:49-66 | filtering twice is filtering once |
| PatchLines.FilterKeepsConsistency | scripts/r9700_phase3_build_vllm43389_overlay.py:49-66 | a patch with no reported hunk has none after filtering |
| HsaAgents.ParseHsaAgents | scripts/partition_mode_sweep.py:539-586 | the one-pass loop equals cutting the text into agent blocks, reading each alone and keeping the valid GPUs |
| HsaAgents.IndicesConsecutive | scripts/partition_mode_sweep.py:539-586 | indices count up from the start, whatever is skipped |
| HsaAgents.PrintedIsRead | scripts/partition_mode_sweep.py:539-586 | parsing what is printed for a list of agents, BDFID before compute units, gives back its GPUs in order, each with its own CU count and address |
| HsaAgents.BdfRebuilds | scripts/partition_mode_sweep.py:539-586 | bus, device and function rebuild the low 16 bits of BDFID |
| HsaAgents.CuOnBusExactly | scripts/partition_mode_sweep.py:608-625 | answers if and only if the bus has a device and its devices agree on the CU count, with that count |
| HsaAgents.SelectedExactly | scripts/partition_mode_sweep.py:642-678 | accepted, the selection is ascending and holds exactly the matching devices on the bus |
| HsaAgents.SelectionIsWholeBus | scripts/partition_mode_sweep.py:608-678 | with the agreed CU count the selection is every device on the bus, exactly as many as the layout implies |
| ModeSweep.Card.SetMode | scripts/partition_mode_sweep.py:453-533 | asks the card exactly the queries and sets of the protocol (query; unless it answered the mode, set while busy; an accepted set read back); succeeds exactly when the last answer is the mode; an unmodelled failure exactly when one occurred |
| ModeSweep.Card.RestoreEntryMode | scripts/partition_mode_sweep.py:997-1026 | always asks, and unless the card answers the entry mode always sets, an unreadable mode included; fails exactly when that set did not end in the read-back |
| ModeSweep.Card.RunMode | scripts/partition_mode_sweep.py:783-858 | one record per device, in order, ok exactly for a process that exited 0 with a report |
| ModeSweep.Card.TryMode | scripts/partition_mode_sweep.py:1168-1225 | unexpected exactly when something unmodelled happened; measured exactly when the mode was read back and every partition ran to a report; the runs are exactly the devices on the swept card's bus in the enumeration answered, ascending, as many as the mode implies and alike in CU count; a card of that shape that fits is benchmarked |
| ModeSweep.Sweep | scripts/partition_mode_sweep.py:1160-1260 | over the history of what was asked and answered: one result per mode reached, in order, each with runs on exactly the swept card's own devices, none tried after a signal, stopped early only by an unmodelled exception; the restore always follows; exit 3 exactly when it did not end in the entry mode, 4 exactly when restored and something unmodelled happened or the report failed, 0 exactly when restored, nothing of that happened and some mode had every partition reported |
| ModeSweep.SweepRestores | scripts/partition_mode_sweep.py:997-1026 | any exit but 3 leaves the entry mode as the last mode read, to the letter unless the entry name ends in white space |
| ModeSweep.RestoreReadsExactly | scripts/partition_mode_sweep.py:484-487 | a successful restore always ends by reading the entry name to the letter if and only if that name is not a known mode followed by white space |
| ModeSweep.TrailingSpaceIsReported | scripts/partition_mode_sweep.py:298-316 | such a name exists: a card printing `SPX *` is read as `SPX ` with its space |
| ModeSweep.CanonicalOfReported | scripts/partition_mode_sweep.py:298-316 | how `parse_mode` reads a reported name |
| ModeSweep.RestoreReads | scripts/partition_mode_sweep.py:997-1026 | a successful restore last read the entry mode or the known mode it spells |
| ModeSweep.RestoreOkExactly | scripts/partition_mode_sweep.py:997-1026 | for a known entry mode, restored exactly when the last answer is that mode; for an unknown one, exactly when the first was |
| ModeSweep.AllReportedMeans | scripts/partition_mode_sweep.py:1184-1215 | a mode counts exactly when the events after its set are one enumeration and one fan-out in which every process exited 0 with a report |
| ModeSweep.OddMeans | scripts/partition_mode_sweep.py:1211-1225 | unexpected: an unmodelled exception from a query, a set, or the steps between |
| ModeSweep.KnownModes | src/hyperloom/common/gpu_partition.py:71-76 | the four modes, their partitions, and their spellings |
| SortedLists.SortOrdered | scripts/r9700_upstream_agent_e2e.py:152-202 | the sorting used throughout yields an ordered rearrangement |
| BenchStats.PercentileIsQuantile | scripts/r9700_evidence_audit.py:97 | the runner's percentile and the inclusive cut points the auditor uses agree, at every hundredth, on every list of two or more values |
| BenchStats.MedianRealIsMedian | scripts/r9700_evidence_audit.py:103-111 | the median is the value of middle rank by count, or halfway between the two of middle ranks |
| BenchStats.MedianIsMedian | scripts/r9700_upstream_agent_e2e.py:213-221 | the same for figures that may be infinite |
| BenchStats.MedianUnique | scripts/r9700_upstream_agent_e2e.py:213-221 | there is only one such value |
| BenchStats.PercentileIsPercentile | scripts/r9700_upstream_agent_e2e.py:152-163 | the percentile lies between the values of the two ranks around position q * (n - 1), at the position's fraction of the way |
| BenchStats.MeanMoves | scripts/r9700_upstream_agent_e2e.py:195-199 | one value moves the mean by its change over the number of values |
| BenchStats.MeanOfEqual | scripts/r9700_upstream_agent_e2e.py:195-199 | equal values have their own value as mean |
| BenchStats.PercentileKeepsBags | scripts/r9700_upstream_agent_e2e.py:152-163 | the percentile does not depend on the order of the values |
| BenchStats.PercentileScales | scripts/r9700_upstream_agent_e2e.py:184-202 | scaling to milliseconds before or after the percentile is the same |
| BenchRunner.OneRequest | scripts/r9700_upstream_agent_e2e.py:67-149 | a sample passes exactly when the text is non-blank and correct, both token counts are valid and 0 < ttft <= elapsed |
| BenchRunner.Benchmark | scripts/r9700_upstream_agent_e2e.py:166-202 | for every completion order, the record is that of submission order but for the order of its errors |
| BenchRunner.CompletionOrderIrrelevant | scripts/r9700_upstream_agent_e2e.py:166-202 | the lemma behind it: any rearrangement of the rows gives the same counts, rates, means, percentiles and samples |
| BenchRunner.BenchmarkRounds | scripts/r9700_upstream_agent_e2e.py:205-227 | an arm is three such rounds with their aggregate |
| BenchRunner.RoundFollowsReplies | scripts/r9700_upstream_agent_e2e.py:178-196 | one reply moves a round's counts, tokens and latency sum by its own share, none if it failed; rates are tokens over wall time |
| BenchRunner.FiguresOfPassed | scripts/r9700_upstream_agent_e2e.py:182-199 | where all passed, the latency figures are means and 95th percentiles of the requests' own latencies and times to first token |
| BenchRunner.AggregateMeans | scripts/r9700_upstream_agent_e2e.py:205-222 | the aggregate's medians are medians of its rounds' figures, its extremes extremes, its mean the sum over the number |
| BenchRunner.KeepMeans | scripts/r9700_upstream_agent_e2e.py:247-284 | KEEP exactly when all eighteen requests of both arms passed with figures, throughput is at least 11/10 and p95 at most 5/4 of the baseline's |
| BenchAudit.ReplayArm | scripts/r9700_evidence_audit.py:62-120 | the nested loops accept exactly the arms whose every claim follows from their samples, and return the rebuilt aggregate |
| BenchAudit.ReplayRound | scripts/r9700_evidence_audit.py:67-100 | one round's checks, in exactly those cases |
| BenchAudit.AcceptedIsPositive | scripts/r9700_evidence_audit.py:168-178 | any accepted arm, measured or forged, has positive medians, so the recomputed gain and ratio never divide by zero |
| BenchAudit.RebuildMeans | scripts/r9700_evidence_audit.py:102-112 | the rebuilt medians are medians of the recomputed figures, the extremes extremes, the mean the sum over three |
| BenchAudit.AcceptedRoundMeans | scripts/r9700_evidence_audit.py:67-100 | what acceptance of a round proves, honest or forged: six passed samples inside the round, one for each of its request numbers, counts that are theirs, figures within 1e-9 of theirs |
| BenchAudit.AcceptedArmMeans | scripts/r9700_evidence_audit.py:102-119 | and of an arm: three such rounds and an aggregate within 1e-9 of what they rebuild |
| BenchAgreement.RoundAccepted | scripts/r9700_evidence_audit.py:67-100 | a measured round is accepted exactly when every request passed within its wall time, and its figures are recomputed exactly |
| BenchAgreement.ArmAccepted | scripts/r9700_evidence_audit.py:62-120 | a measured arm, in any completion orders, is accepted exactly when all its rounds are; rebuilt medians and means are the recorded ones |
| BenchAgreement.ArmAcceptedInClock | scripts/r9700_evidence_audit.py:62-120 | with a sound clock, accepted exactly when every request passed, and exactly when the runner's own checks find no fault |
| BenchAgreement.DecisionsAgree | scripts/r9700_evidence_audit.py:168-178 | on two accepted measured arms, runner and auditor compute the same gain, ratio and verdict |
| BenchAgreement.NoFaultMeansPassed | scripts/r9700_upstream_agent_e2e.py:247-284 | the verdict computes a gain only if every request of every round passed |
| BenchAgreement.KeepIsAudited | scripts/r9700_upstream_agent_e2e.py:247-284 | with a sound clock, KEEP holds exactly when the auditor accepts both arms and its gate keeps the candidate |

## Left out

- Floating-point rounding and fp16/bf16: all arithmetic is exact.
- Timing, throughput and kernel tuning: no claim about speed.
- vLLM, Triton, torch and AITER internals: contracts or arbitrary functions only.
- HybridApply: the optional path recording and the patch installation are not modelled.
- MoeLaunch.LaunchInterleaved: interleaves single stores; loads are not interleaved because no program reads C.
- Phase6Control: `dry_run`, `status`, the command line and the texts of systemd, docker and HTTP answers; only the decisions taken on them are modelled.
- Phase6Control.Controller.AnyHistory: commands that find the lock held end at once, so concurrent commands appear one after another.
- Phase6Control.Controller.FallbackLocked: the evidence of the failed probe is not stored in the modelled state file.
- DurableIo: creation of parent directories and partial writes below one flush; a temporary file that was not fully written is never certain.
- BmcAccount: an exception inside `__enter__` or `__exit__`, which does not get the full revoke path, is excluded; Redfish and ipmitool texts are oracle answers.
- Int4Reference.UnpackRepacked: the packed words are a rectangular array with enough columns for N, as repacking makes them.
- PatchLines: a patch is given as its lines; the header patterns are parameters of the scan.
- PatchLines.HunkCountMismatches: `parse_unified_patch` and the pinned hashes are not modelled.
- ModeSweep.Sweep: printing does not raise; the refusals before anything is set (exit 2), the mode list's resolution and the dry run are not modelled, so the list is taken as resolved.
- ModeSweep.Canonical: strips and upper-cases ASCII only.
- ModeSweep.Choose: whether a mode's streams fit its partitions is a parameter, and a CU count of zero is a modelled failure.
- ModeSweep.Card.RunMode: launching, waiting and report parsing are reduced to how each process ended; the environment and command line of a benchmark are left out.
- HsaAgents.ParseHsaAgents: lines arrive already split and matched against the field patterns.
- BenchRunner.OneRequest: the streamed HTTP text is reduced to what the checks read; error texts of the transport are arbitrary.
- BenchAudit.ReplayArm: the rejection code is dropped, and fields of the wrong JSON type cannot occur in a typed record.
- BenchAgreement.KeepIsAudited: whole reports (schema, timestamps, agent log, digests) are outside; the statement is about the two arms and the gate.
- Upstream watch, rebase readiness, overlay contracts, launchers and evidence writers: flat tables or plumbing.
