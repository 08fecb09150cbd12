# Verification of the quantized inference session

A Dafny 4.11 model of the control state, caches, parsers and index arithmetic
of a CPU inference engine for quantized language models, with proofs. Run
`dafny verify dfyconfig.toml` here, or hand every `.dfy` file to one
`dafny verify` command.

| files | what they model |
|---|---|
| `TargetModel`, `Decoding`, `Ngram`, `Arms`, `MtpGap`, `Drafting`, `Session` | greedy decoding, plain and speculative: the target as a stack of layers, thinking budgets, the n-gram index, draft arms and span cursors, the retained gap of the multi-token predictor, what each pass drafts, and the session that runs turns over all of them |
| `Indexing`, `Buffers`, `Attention`, `DeltaNet`, `Convolution`, `DeltaSnapshots` | loops over flat float buffers and the simple forms they must equal bit for bit; recurrent-state snapshots |
| `RealMeaning` | what attention and the delta rule compute over the reals |
| `FusedMatmul`, `Simd`, `LaneSums`, `KScales`, `KernelQ4K`, `KernelQ6K`, `KernelQ80` | the fused quantized matrix product, and the integer part of its vector kernels |
| `ExpertCache`, `Residency` | the expert-matrix LRU cache, pair fusion, full residency and warm-up |
| `Json`, `JsonReading`, `JsonPrinting`, `JsonSpacing`, `Texts`, `ToolCallScan`, `ToolCalls`, `ToolCallGrammar`, `ToolCallArguments` | tool-call markup, well formed or not, its JSON arguments, the member scanner and the printer |
| `PromptCache`, `PromptCacheNames` | prompt-cache boundaries, index, eviction, lookup, and file names |

Floating-point values are an abstract type and every operation on them is an
uninterpreted function, so two loops are only ever proved equal because they do
the same operations on the same operands in the same order; `RealMeaning` then
reads the results over the reals. The target's layers, its token choice, the
predictor, hash functions and the caller's token callback are arbitrary
functions too: theorems hold for all of them. The callback may fail at any call.

## Where the code does less than its text promises

Each of these is stated with the exact condition under which the promise holds.

- A tool call need not survive its own markup just because its name and keys
  are free of `>`: a key such as `a</function` completes a closing tag.
  `ToolCalls.MarkupParses` gives the condition, an if-and-only-if;
  `ToolCallArguments.KeyEndingInStem` is the failing input.
- Re-rendering parsed arguments restores the model's bytes if and only if each
  value is `Faithful` (`ToolCallArguments.RoundTrip`): a string, text that is
  not JSON, a scalar without outer blanks, or a container that a recogniser on
  its text finds spelled as the template spells it. `LooseValuesChange` has two
  values that fail.
- `render` ignores how a JSON object is spelled if and only if every container
  among its members can be parsed again (`RenderBySyntaxIff`); past the parser's
  depth and number limits the spelling shows (`DeepArgumentShowsSpelling`).
- The acceptance average stays in [0, 1] on every run if and only if the
  unvalidated blending factor does (`Arms.EwmaConfinedIff`); with any other,
  one rejected proposal takes it out (`OneRejectionLeavesUnit`).
- A lookup that meets a hash collision can miss an older true match: it equals
  brute force if and only if the position is not `Shadowed`
  (`Ngram.LookupIsBruteForce`; `ConstantHashShadows` is the failing input).
- `fuse_pair` pushes no queue record. Without a `mark_fully_resident` before
  the next insert the cache can exceed its capacity
  (`ExpertCache.UnmarkedFusionOverflows`; `RecordReadAndInsert` has the exact
  condition).
- The Q8_0 kernel is exact for a block if and only if no activation is -128
  under a negative weight (`KernelQ80.ExactIff`; `MinusOneTwentyEightFails`).
- The scanned byte count of the prompt cache is exact if and only if no file
  with bytes was displaced by a later file of the same key
  (`PromptCache.Scan`), and otherwise too high by what displaced files hold;
  `TwoSpellings` is a directory for which it is.

## Model

| member | source | states |
|---|---|---|
| TargetModel.BatchedPass | src/qwen/quantized_model.rs:654-752 | one multi-row pass leaves the state, and returns the hidden rows, of evaluating the same tokens one at a time |
| TargetModel.PassSplit | src/runtime.rs:748-771 | splitting a pass anywhere changes neither the final state nor any row |
| TargetModel.RollbackIsPrefix | src/qwen/quantized_model.rs:177-204 | after a snapshotted pass, rolling back to row `r` gives exactly the state of evaluating only the first `r` tokens, also when a rollback has already happened |
| TargetModel.RollbackOnlyInside | src/qwen/quantized_model.rs:182-186 | it can go to every row of the pass and to no other |
| TargetModel.InterruptedPassUndone | src/runtime.rs:1707-1721 | a pass that failed after any number of layers is undone completely by rolling back to row 0 |
| Decoding.ThinkingBudget.ObserveCommitted | src/runtime.rs:218-237 | the budget's new state and the boundary it reports |
| Decoding.RecentIsTail | src/runtime.rs:218-237 | while active, the budget has counted every token and its window holds the last ones |
| Decoding.ThinkingBoundaryIs | src/runtime.rs:186-255 | natural closure wins exactly when the tokens seen end in the closing tag, forced closure fires exactly when the budget is spent and enforced |
| Decoding.TurnConserves | src/runtime.rs:999-1145 | whatever ends a turn, context and pending token together hold the prompt and every emitted token, and a halt leaves exactly the failing token pending |
| Decoding.UnbudgetedTurnIsGreedy | src/runtime.rs:999-1145 | without a thinking budget a turn emits the target's own greedy choices until a stop token, the length limit or a failing callback |
| Decoding.ClosingBreaksFirst | src/runtime.rs:963-976 | a forced closure breaks at the first token the callback refuses, with those before it evaluated, and closes if and only if it refuses none |
| Decoding.TurnHaltsFirst | src/runtime.rs:999-1145 | whatever its thinking budget, a turn halts exactly at the first token the callback refuses, in a closure as anywhere |
| Decoding.TurnRuled | src/runtime.rs:999-1145 | a whole turn follows a local rule: greedy but for a forced closure where an open section's budget is spent, and over at the first refusal, sampled stop token, or limit outside the closure; what stays pending and whether closure was forced follow from its tokens |
| Decoding.RuleDetermines | src/runtime.rs:999-1145 | that rule allows one run of tokens only |
| Ngram.NgramIndex.Push | src/ngram.rs:116-129 | appends one token and keeps every map and last match right |
| Ngram.LookupIsBruteForce | src/ngram.rs:136-148 | a hit is always the brute-force most recent earlier match, and the lookup equals brute force if and only if no later hash collision hides it |
| Ngram.InjectiveHashNeverShadows | src/ngram.rs:136-148 | without collisions nothing is ever hidden |
| Ngram.ConstantHashShadows | src/ngram.rs:136-148 | a hash and six tokens for which the lookup misses a match that is there |
| Ngram.NgramIndex.MostRecentMatch | src/ngram.rs:136-148 | the same on the index's own state, for each key length |
| Ngram.NgramIndex.Draft | src/ngram.rs:156-194 | proposes the continuation of the longest matching key, as long as asked unless the sequence ends or a stop token comes next, and says which; proposes nothing exactly when no key of the least length matches or a stop token follows the best one |
| Ngram.NgramIndex.ContinueFrom | src/ngram.rs:204-230 | refuses exactly when there is nothing to copy, and otherwise copies the stretch at the cursor, as long as asked unless the sequence ends or a stop token comes next |
| Ngram.NgramIndex.MatchIsFound | src/ngram.rs:116-148 | what a lookup finds depends on the hash and the tokens alone, not on how the index got there |
| Ngram.NgramIndex.LongestMatchIsBest | src/ngram.rs:156-171 | the key it settles on matches, and no longer one does |
| Arms.ChainedSpanStaysLive | src/speculative.rs:450-473 | a chained span's grown suffix equals the index segment before its cursor, so the cursor stays inside the index |
| Arms.ChainsIffStillLive | src/speculative.rs:450-473 | a span goes on exactly when the pass took all of it, the index goes on past it, and with the committed tokens it is still a match |
| Arms.ArmsOfMode | src/runtime.rs:2305-2342 | which arms a mode lets draft, and how long their drafts are at first, at most and at a probe |
| Arms.ArmsAreTuned | src/runtime.rs:2305-2342 | both arms take the run's settings, each with its own suspension bar |
| Arms.ArmController.Poll | src/speculative.rs:323-342 | opening an arm moves exactly the fields of one transition |
| Arms.ArmController.Observe | src/speculative.rs:345-401 | so does recording an outcome |
| Arms.EveryRunKeepsInvariant | src/speculative.rs:274-407 | over any run the draft length stays in its range, the arm is never both suspended and probing, and `k` failed probes give a window of min(backoff * 2^k, cap) |
| Arms.AcceptanceGrows | src/speculative.rs:375-381 | after any run, `n` full acceptances give a draft length of min(length + n * grow, cap) |
| Arms.RejectionHalves | src/speculative.rs:375-381 | `n` proposals less than half accepted give max(length / 2^n, floor) |
| Arms.LengthStays | src/speculative.rs:375-381 | any other proposals, and any at all of an arm of fixed length, leave the length alone |
| Arms.PollOpensProbe | src/speculative.rs:323-342 | a poll lets an enabled arm draft unless its suspension still lasts, and changes nothing but to open a probe once it has ended, at the probe's own length |
| Arms.ProposalDecides | src/speculative.rs:345-406 | after any proposal the arm is suspended for a window from there exactly when its average is below the bar; a probe's average is its own acceptance |
| Arms.AverageApproaches | src/speculative.rs:356-373 | the average's distance from a steady acceptance shrinks by (1 - alpha)^n |
| Arms.EwmaStaysInUnit | src/speculative.rs:345-401 | the average stays in [0, 1] on every honest run with a factor in [0, 1] |
| Arms.EwmaConfinedIff | src/speculative.rs:181-216 | it does so on all runs if and only if the factor is in [0, 1] |
| Arms.OneRejectionLeavesUnit | src/speculative.rs:345-401 | with any other factor one rejected proposal takes the average out of [0, 1] |
| Arms.SuspensionIsAWindow | src/speculative.rs:345-406 | after any run, a suspension in force was set by one of the run's observations, to end one window after it |
| Arms.NeverOpensEarly | src/speculative.rs:323-406 | whatever is polled before a suspension's window ends leaves the arm as it was, and the next poll opens it exactly from the end of the window on |
| Arms.TotalRejectionsSuspend | src/speculative.rs:345-406 | total rejections suspend at the first count whose decayed average falls below the bar |
| Arms.DecayedIsPower | src/speculative.rs:345-401 | after `n` rejections the average is the start times (1 - alpha)^n |
| MtpGap.RetainDescribes | src/runtime.rs:1260-1284 | retaining the rows of a pass keeps gap tokens, rows and prior row those of the target |
| MtpGap.CatchUpDescribes | src/runtime.rs:1159-1188 | catching up leaves the predictor holding exactly the shifted stream up to the target's position |
| MtpGap.TruncateDescribes | src/runtime.rs:1212-1257 | following a rollback shortens the gap or the predictor to describe exactly the shorter context |
| MtpGap.ShiftedHiddenInputs | src/runtime.rs:2184-2223 | one shifted row per token, refused only past position 0 without a carry |
| Session.AcceptedDraftPrefix | src/runtime.rs:2225-2236 | the longest run of drafts that are the target's own choices |
| Session.Runtime.Evaluate | src/runtime.rs:932-947 | a target pass from the session's state |
| Session.Runtime.VerifyDrafts | src/runtime.rs:1699-1757 | accepted drafts and the authoritative token are the target's greedy choices, and the stored snapshots cover every row |
| Session.Runtime.CommitRows | src/runtime.rs:1810-1836 | after rejected drafts are rolled back, state, gap and carry describe exactly the committed tokens |
| Session.Runtime.HaltPass | src/runtime.rs:1886-1916 | a failing callback leaves every earlier token evaluated and exactly the failed one pending, side state included |
| Session.Runtime.EmitOutputs | src/runtime.rs:1882-1951 | emitting a pass's outputs continues the same plain decoding through stop tokens, natural and forced closure and failure, on any output |
| Session.Runtime.ForceClosePolicy | src/runtime.rs:1332-1355 | a forced closure of any number of tokens, halted anywhere, is the plain one |
| Session.Runtime.SampleAndEmit | src/runtime.rs:1289-1309 | emits the greedy token unless the limit is reached, and leaves it pending on failure |
| Session.Runtime.IndexInput | src/runtime.rs:1464-1469 | the index goes on from the context it mirrors or starts over with the input, so equal length means equal contents |
| Session.Runtime.DraftMtp | src/runtime.rs:1995-2056 | the drafts are the predictor's guesses in order, each fed back with its own row after the seed and the carried row, up to the first stop token, unconfident guess or one below the margin, and no further than the depth |
| Drafting.NextSpanLive | src/runtime.rs:1843-1864 | the next step inherits a span exactly when the index drafted, all was accepted and the span is still a match, which is then genuine and longer |
| Session.Runtime.ProposeNgram | src/runtime.rs:1593-1637 | a live span goes on unless a stop token is next, only without one is a fresh key asked for, and every proposal is a genuine match, as long as the arm and the budget allow |
| Session.Runtime.ProposeMtp | src/runtime.rs:1646-1691 | the predictor drafts from the target's own stream: exactly its chain after the context and the seed |
| Session.Runtime.ChooseDrafts | src/runtime.rs:1585-1693 | both arms are polled, and the first option that applies is taken: a live span, a key, the predictor, or nothing |
| Drafting.StepBudget | src/runtime.rs:1563-1577 | a pass may carry as many drafts as can all be accepted within the turn's limit and an open section's budget, and no fewer |
| Session.Runtime.VerifyAndCommit | src/runtime.rs:1699-1840 | only the arm that drafted learns how the pass went, and the predictor catches up at once or when it next drafts |
| Drafting.DrafterLearns | src/runtime.rs:1762-1808 | the arm that drafted grows on full acceptance and is suspended from the last committed token on; the other keeps its average and window |
| Drafting.IdleArmsKeep | src/runtime.rs:1560-1955 | over a turn, an arm that never drafts keeps its average |
| Session.Runtime.PolicyStep | src/runtime.rs:1560-1951 | one pass is the one it records: drafts chosen by the rule, accepted as far as the target agrees, both arms told, the outputs handed over, the span passed on only if all were |
| Session.Runtime.PolicyLoop | src/runtime.rs:1560-1955 | over a turn each pass starts from the arms and the span the one before left, and the index takes exactly the tokens handed over |
| Session.Runtime.ReadyMeansAligned | src/runtime.rs:829-833 | in every session state that reports a usable predictor, the gap tokens are the context from the synced position on, and rows, prior row, carry and predictor stream are the target's own |
| Session.Runtime.Reset | src/runtime.rs:720-731 | empties the session and its index and leaves the predictor usable |
| Session.Runtime.PrefillTokens | src/runtime.rs:783-819 | refuses exactly the empty list, changing nothing, and otherwise extends the context by the tokens, in passes; the predictor is usable afterwards, with its cache imaged, exactly when it was before and its gap was tracked |
| Session.Runtime.RestoreSession | src/runtime.rs:883-923 | refuses exactly an image whose token count differs from its position, changing nothing, and otherwise reaches the imaged context, with a usable predictor exactly when the image carries its cache and the hidden row |
| Session.Runtime.SessionImage | src/runtime.rs:854-876 | refuses exactly when a token is pending or the length differs, and otherwise images the session faithfully |
| Session.Runtime.GeneratePlain | src/runtime.rs:999-1145 | the session lands exactly where the decoding specification says |
| Session.Runtime.GeneratePolicy | src/runtime.rs:1371-1994 | so does the speculative policy, for every target, every drafts source and every failing callback: same tokens, same evaluated context, same pending token; it refuses exactly under the source's conditions, changing nothing; the predictor is usable afterwards exactly when it was before and the mode allows it; the index holds its start and all that was handed over; and the passes start from the mode's two arms |
| Session.Runtime.PrepareMtp | src/runtime.rs:1646-1663 | after catching up the predictor stands at the target's position and the carry is there, so the check before drafting never fires |
| Session.Runtime.Generate | src/runtime.rs:999-1028 | in every mode: refuses exactly the turns the source refuses, changing nothing, and otherwise lands where the decoding specification says |
| Session.DecodeTwice | src/runtime.rs:999-1994 | one turn in any two modes gives the same result, context, state and pending token, unless a session refuses it, each exactly under its own mode's conditions |
| Session.RunSession | src/runtime.rs:720-1994 | over any run of resets, prefills, restores and turns in mixed modes with any failures, the invariant holds, exactly the operations that must be refused are, and the session is where plain decoding of the run would be, with a usable predictor exactly when the run kept it so |
| Attention.Dot | src/qwen/quantized_attention.rs:155-178 | the tail summed first, then eight interleaved lanes added to it in order |
| Attention.Split | src/qwen/quantized_attention.rs:65-71 | a block is never finer than its grain nor longer than the larger of grain and whole |
| Attention.SplitIsLeast | src/qwen/quantized_attention.rs:65-71 | it is the least multiple of the grain, or the whole, at which the fewest blocks that keep every thread busy cover everything |
| Attention.PerHeadScan | src/qwen/quantized_attention.rs:525-589 | every output element is the softmax-weighted sum of its own head's scores |
| Attention.BlockedScan | src/qwen/quantized_attention.rs:610-781 | so is every element of the blocked scan, for every grouping, chunking, block split and transposed accumulator, although its buffers are reused |
| Attention.Scan | src/qwen/quantized_attention.rs:479-507 | whichever scan is picked, the result is the same |
| Attention.RowIsOneRowPass | src/qwen/quantized_attention.rs:525-589 | each row equals what a one-row pass at its depth computes |
| Attention.PassSplits | src/qwen/quantized_attention.rs:409-507 | a pass is its two halves run one after the other |
| Attention.AttentionState.Truncate | src/qwen/quantized_attention.rs:255-281 | keeps exactly the first positions of both caches, refuses exactly when it cannot, and then changes nothing |
| Attention.AppendThenTruncate | src/qwen/quantized_attention.rs:255-281 | truncating after a pass is as if only the kept rows had been appended |
| RealMeaning.DotIsInner | src/qwen/quantized_attention.rs:155-178 | over the reals, however the lanes are split, the dot product is the inner product |
| RealMeaning.SoftmaxIsShare | src/qwen/quantized_attention.rs:525-589 | each weight is its score's share of the exponentials: subtracting the largest score changes nothing |
| RealMeaning.MaxIsLargest | src/qwen/quantized_attention.rs:525-589 | what is subtracted is the largest score |
| RealMeaning.SharesAddUp | src/qwen/quantized_attention.rs:525-589 | the weights add up to one |
| RealMeaning.OutputIsAttention | src/qwen/quantized_attention.rs:479-589 | every output element is gated softmax attention by its plain formula, over the positions up to the token's own, each query head with the key-value head of its own run of heads |
| DeltaNet.DeltaHeadStep | src/qwen/deltanet.rs:170-217 | the row-by-row head step gives each column's decayed, corrected state and each output |
| DeltaNet.StridedHeadStep | src/qwen/deltanet.rs:374-413 | so does the column-by-column reference |
| DeltaNet.RecurrentDeltaStep | src/qwen/deltanet.rs:122-166 | all heads, run in any order, reach the one result |
| DeltaNet.StepDetermined | src/qwen/deltanet.rs:122-166 | that result is unique, cell by cell |
| DeltaNet.StepsAgree | src/qwen/deltanet.rs:374-413 | row traversal in any head order and the strided reference leave the same state and output |
| RealMeaning.StepReads | src/qwen/deltanet.rs:170-217 | over the reals, what any probe reads from the state after a step, from what it read before |
| RealMeaning.DeltaRule | src/qwen/deltanet.rs:170-217 | a value written in full under a unit key is what the key reads back, and a probe orthogonal to the key reads what it read, decayed |
| RealMeaning.HeadOutputIs | src/qwen/deltanet.rs:170-217 | a head's output is what its query reads, scaled |
| Convolution.ConvStep | src/qwen/quantized_deltanet.rs:733-759 | rolls every channel's window by one and convolves it |
| Convolution.ConvolveAll | src/qwen/quantized_deltanet.rs:574-640 | a run of steps streams every token over the rolled history |
| Convolution.StreamIsWindowed | src/qwen/quantized_deltanet.rs:733-759 | from a zero state, streaming equals the windowed convolution of the zero-padded inputs |
| RealMeaning.StreamIsConvolution | src/qwen/quantized_deltanet.rs:733-759 | over the reals, what a channel streams is the activated inner product of its taps with its last inputs, zeros before the first |
| Convolution.LayoutIsBijection | src/qwen/quantized_deltanet.rs:364-375 | both head layouts pair key heads and repeats with value heads one to one |
| Convolution.RepeatHeads | src/qwen/quantized_deltanet.rs:574-640 | every value head receives its own key head's row |
| DeltaSnapshots.Snapshots.Reserve | src/qwen/quantized_deltanet.rs:111-120 | a reused arena forgets what it stored |
| DeltaSnapshots.Snapshots.Store | src/qwen/quantized_deltanet.rs:135-150 | one slot is written and no other changes |
| DeltaSnapshots.Snapshots.RestoreInto | src/qwen/quantized_deltanet.rs:156-176 | restores the slot, does nothing for a layer that never ran, and refuses exactly an unstored slot or another shape |
| DeltaSnapshots.ForwardRows | src/qwen/quantized_deltanet.rs:574-683 | slot `r` records the state after the first `r` rows |
| DeltaSnapshots.PassAndRollBack | src/qwen/quantized_deltanet.rs:109-176 | pass and restore together are the shorter pass, for arenas with any earlier contents |
| DeltaSnapshots.FailedPassRollsBack | src/qwen/quantized_deltanet.rs:156-176 | a layer the pass never reached is left as it was by any rollback |
| FusedMatmul.RowKernel | src/qgemm.rs:405-436 | register tiles plus remainder give every input row's block-by-block fold, and touch nothing else |
| RealMeaning.FoldedIsSum | src/qgemm.rs:405-436 | where taking in a pair of blocks adds its product, the fold is the sum over all pairs, each weight block with the input block of its own place |
| FusedMatmul.Repack | src/gguf.rs:655-663 | block-major repacking loses and moves no block of any row |
| FusedMatmul.FusedForward | src/gguf.rs:606-690 | the transposed product, in any order of weight rows, is the naive product |
| FusedMatmul.TileRows | src/gguf.rs:502-512 | tiles of at most sixteen rows and never a one-row tail |
| FusedMatmul.TiledMultiRow | src/gguf.rs:493-520 | tiling covers every row once and equals one wide product |
| Simd.NibblesShifted | src/qgemm.rs:207-208 | a 16-bit shift then a nibble mask is a byte shift: no bit of the neighbour survives |
| LaneSums.LanesTotal | src/qgemm.rs:204-224 | whatever lane a product lands in, the lanes together hold the plain sum |
| LaneSums.FourGroups | src/qgemm.rs:322-328 | accumulating four groups never wraps a 32-bit lane |
| KScales.UnpackKScales | src/qgemm.rs:153-167 | rewriting four words in order yields the format's eight scales, then its eight mins |
| KScales.PackUnpacked | src/qgemm.rs:153-167 | packing the unpacked values restores the twelve bytes, and every value has six bits |
| KScales.UnpackPacked | src/qgemm.rs:153-167 | unpacking packed values restores them: the map is a bijection |
| KernelQ4K.ScaleShuffleTable | src/qgemm.rs:107-121 | the table's entry for a scale names its two bytes, alternating |
| KernelQ4K.GroupExact | src/qgemm.rs:205-224 | one group is exact for all activations: nothing saturates, nothing wraps |
| KernelQ4K.BlockSums | src/qgemm.rs:190-238 | the vector code's lanes are the exact scaled products of the format's weights, and the min lanes the exact corrections, for every input row |
| KernelQ4K.BlockExact | src/qgemm.rs:204-230 | the lanes add up to the block's scaled dot product, and each is exactly a float |
| KernelQ4K.MinLanesTotal | src/qgemm.rs:231-237 | the min lanes add up to the block's exact corrections |
| KernelQ4K.TwoSumsSuffice | src/qgemm.rs:46-49 | over the reals, the two integer sums give the dot product of the dequantized weights |
| KernelQ6K.ScaleShuffleTable | src/qgemm.rs:352-362 | the table's entries select two scales, eight lanes each |
| KernelQ6K.BlockSums | src/qgemm.rs:263-330 | the lanes are the exact scaled products, the offset of thirty-two taken off after multiplying, for all activations and signed scales |
| KernelQ6K.DecodedAre | src/qgemm.rs:266-289 | the six-bit values the vectors assemble are the format's weights, element by element |
| KernelQ6K.BlockExact | src/qgemm.rs:263-330 | the lanes add up to the block's scaled dot product, and each is exactly a float |
| KernelQ80.BlockDots | src/qgemm.rs:380-388 | the sign trick never saturates, whatever the bytes |
| KernelQ80.ExactIff | src/qgemm.rs:380-388 | it is exact if and only if no activation is -128 under a negative weight, since errors cannot cancel |
| KernelQ80.QuantizedExact | src/qgemm.rs:380-388 | activations in -127..127 are exact lane by lane |
| KernelQ80.MinusOneTwentyEightFails | src/qgemm.rs:380-388 | a block for which it is not exact |
| ExpertCache.ExpertMatrixCache.Get | src/gguf.rs:854-880 | a hit is the cached matrix and becomes the most recent, requests are hits plus misses, and the queue stays sound |
| ExpertCache.ExpertMatrixCache.RecordReadAndInsert | src/gguf.rs:882-926 | evicts exactly the least recently used prefix that makes room, never more than fits, and keeps resident bytes exact |
| ExpertCache.EvictCountIsLeast | src/gguf.rs:898-912 | one eviction fewer would not have made room |
| ExpertCache.EvictCountFits | src/gguf.rs:898-912 | the evictions that happen do make room |
| ExpertCache.OldestIsFirst | src/gguf.rs:898-912 | the first of the order is the entry with the smallest access time |
| ExpertCache.SortedRecords | src/gguf.rs:826-838 | the rebuilt queue holds each live record once, oldest first |
| ExpertCache.ExpertMatrixCache.CompactIfNeeded | src/gguf.rs:826-838 | compaction loses no live record and bounds the queue by 4 * entries + 1024 |
| ExpertCache.ExpertMatrixCache.LeaveFullResidency | src/gguf.rs:882-892 | leaving full residency rebuilds a queue that covers every entry |
| ExpertCache.ExpertMatrixCache.FusePair | src/gguf.rs:928-1013 | succeeds exactly when every expert can be fused, moves both members' bytes into one entry, the first's before the second's, reports the pairs' bytes, and keeps resident bytes |
| ExpertCache.ExpertMatrixCache.MarkFullyResident | src/gguf.rs:1141-1155 | refuses only an empty or disabled cache |
| ExpertCache.ExpertMatrixCache.Load | src/gguf.rs:1355-1402 | always serves the file's matrix, as a true LRU cache would |
| ExpertCache.ServeAll | src/gguf.rs:1355-1402 | any run of loads keeps the cache invariant and serves the file's bytes |
| ExpertCache.UnmarkedFusionOverflows | src/gguf.rs:928-1013 | a fusion without a mark before the next insert ends above capacity |
| Residency.WarmTensors | src/residency.rs:76-102 | loads every expert of every tensor with no eviction and exact byte counts |
| Residency.FuseLayers | src/residency.rs:103-113 | after fusing, each expert has one gate/up entry and one down entry, with the same bytes |
| Residency.WarmAll | src/residency.rs:39-131 | warm-up succeeds exactly when capacity, counts and layouts allow, evicts nothing, and ends fully resident with the total bytes |
| Residency.ServeUntilMiss | src/residency.rs:103-115 | warm requests all hit; the first miss leaves a sound LRU cache again |
| JsonReading.ValueMoves | src/tool_calls.rs:113-125 | what a JSON value reads as does not depend on the text after it |
| JsonPrinting.StringPrinted | src/tool_calls.rs:128-130 | a printed string reads back as itself, control characters and quotes included (RFC 8259 section 7) |
| JsonPrinting.ValuePrinted | src/tool_calls.rs:142-157 | a printed value reads back as itself before any following text |
| JsonPrinting.ParsePrinted | src/tool_calls.rs:142-157 | parsing inverts printing for every canonical value within the nesting limit |
| JsonSpacing.PrintedTight | src/tool_calls.rs:142-157 | whatever the template prints passes the spacing recogniser |
| JsonSpacing.TextIsPrinted | src/tool_calls.rs:142-157 | text that passes the spacing recogniser and reads as a value is what that value prints to |
| Texts.FindIsFirst | src/tool_calls.rs:164-194 | a search finds the first occurrence, and finds one if there is one |
| ToolCallScan.ScanString | src/tool_calls.rs:384-396 | the string scan ends where its specification does |
| ToolCallScan.ScanContainer | src/tool_calls.rs:354-381 | the container scan ends where its bracket stack empties |
| ToolCallScan.ScanValueAt | src/tool_calls.rs:335-349 | the value scan ends where its specification does |
| ToolCallScan.Members | src/tool_calls.rs:293-325 | the member loop reads the members its specification reads |
| ToolCallScan.ScanStops | src/tool_calls.rs:335-396 | on any JSON value, however spelled and whatever delimiter follows, the scan stops exactly at its end (RFC 8259 sections 2 to 7) |
| ToolCallScan.MembersFound | src/tool_calls.rs:293-325 | on any JSON object the scan finds every member, in order and with duplicates, as text that reads as its value |
| ToolCallScan.JoinedScanned | src/tool_calls.rs:83-102 | the scan inverts the joining of members into object text |
| ToolCalls.ReadParameters | src/tool_calls.rs:208-230 | the parameter loop reads its specification's parameters |
| ToolCalls.ReadMarkup | src/tool_calls.rs:164-194 | so does the loop over calls |
| ToolCalls.MarkupParses | src/tool_calls.rs:164-261 | rendered markup parses back to its call if and only if the call is well tagged |
| ToolCalls.TurnParses | src/tool_calls.rs:164-194 | a turn of text and any number of well-tagged calls, with any text free of the opening tag between them, parses to its calls in order and the text before them |
| ToolCallGrammar.TextSplits | src/tool_calls.rs:164-187 | every text splits into blocks, text between them, and perhaps a last block that is never closed |
| ToolCallGrammar.TextParses | src/tool_calls.rs:164-194 | and parses to the calls of its blocks: blocks without a call are passed over, text between them dropped, a block never closed runs to the end, and without any call the text comes back whole |
| ToolCallGrammar.ClosingChangesNothing | src/tool_calls.rs:175-186 | closing a block that was cut off changes no call and no content |
| ToolCallGrammar.CutTurnParses | src/tool_calls.rs:164-194 | a turn of well-tagged calls cut off anywhere after its last function's closing tag parses to all of them |
| ToolCallGrammar.CallRead | src/tool_calls.rs:198-207 | a block is read between its first function tags, its name without outer blanks, and a blank name makes it no call |
| ToolCallGrammar.CallHasShape | src/tool_calls.rs:198-207 | nothing else is a call |
| ToolCallGrammar.ParametersRead | src/tool_calls.rs:208-230 | parameters are read in order up to the first place from which no whole one follows |
| ToolCallGrammar.FrameComesOff | src/tool_calls.rs:222-227 | at most one newline comes off each end of a value, whether or not there is one at the other |
| ToolCallArguments.BuildArguments | src/tool_calls.rs:83-102 | the builder pushes the specified object text |
| ToolCallArguments.RenderCall | src/tool_calls.rs:243-261 | the renderer pushes the specified markup |
| ToolCallArguments.ArgumentsAreObject | src/tool_calls.rs:83-125 | the arguments text is always one JSON object, its members the parameters in order with their meanings |
| ToolCallArguments.RenderArguments | src/tool_calls.rs:83-285 | rendering the arguments of any call gives its markup with each value rewritten alone |
| ToolCallArguments.RewrittenIffFaithful | src/tool_calls.rs:106-125 | a value is rewritten to itself if and only if it is faithful to its declared type |
| ToolCallArguments.TemplateSpacedIff | src/tool_calls.rs:142-157 | a container comes back as it was written if and only if its text is spaced and escaped as the template does, the parser re-prints each of its numbers as written and no key repeats |
| ToolCallArguments.RoundTrip | src/tool_calls.rs:83-285 | parse, encode and render are the identity on markup if and only if every value is faithful |
| ToolCallArguments.KeyEndingInStem | src/tool_calls.rs:198-231 | a key free of `>` that the parser nevertheless loses |
| ToolCallArguments.LooseValuesChange | src/tool_calls.rs:83-285 | a container with a blank of its own, and a scalar with a blank before it, do not come back |
| ToolCallArguments.RenderBySyntax | src/tool_calls.rs:243-325 | two spellings of one JSON object render to the same bytes when their nested containers can be parsed |
| ToolCallArguments.SpellingMatters | src/tool_calls.rs:273-325 | for any spelling of an object with a container that cannot be parsed among its members, another spelling renders differently |
| ToolCallArguments.RenderBySyntaxIff | src/tool_calls.rs:243-325 | all spellings of an object render alike if and only if every container among its members can be parsed |
| ToolCallArguments.DeepArgumentShowsSpelling | src/tool_calls.rs:273-325 | a hundred and twenty-eight nested arrays: two spellings of one object that render differently |
| PromptCache.BoundariesExact | src/prompt_cache/mod.rs:95-104 | the boundaries are exactly the descending multiples of the block from the minimum to one below the length |
| PromptCache.StoreBoundaryIsLongest | src/prompt_cache/mod.rs:115-126 | the stored boundary is the longest above what was reused and within the stable prefix |
| PromptCache.Index.Insert | src/prompt_cache/mod.rs:178-183 | the byte count stays the sum of entries and foreign files |
| PromptCache.Index.Remove | src/prompt_cache/mod.rs:185-189 | so it does on removal |
| PromptCache.Index.Candidates | src/prompt_cache/mod.rs:280-300 | every entry but the kept one, and every foreign file, in order of use |
| PromptCache.Index.Evict | src/prompt_cache/mod.rs:280-323 | removes what the recency order says, never the kept entry, keeps the count exact up to its surplus, and ends within budget or with nothing left that can be removed |
| PromptCache.TakenIsPrefix | src/prompt_cache/mod.rs:302-322 | when removals succeed a prefix of the order goes, and no shorter prefix would have been enough |
| PromptCache.TakenIsLeast | src/prompt_cache/mod.rs:302-322 | in any case everything removable goes up to the first place in the order at which the bytes fit, and nothing after |
| PromptCache.TakenFits | src/prompt_cache/mod.rs:302-322 | the bytes removed reach the budget or everything removable is gone |
| PromptCache.ForeignFirst | src/prompt_cache/mod.rs:280-300 | foreign files go before entries that have been used |
| PromptCache.Scan | src/prompt_cache/mod.rs:567-608 | the scanned count is the index's bytes plus those of displaced files, so it is exact if and only if no file with bytes was displaced |
| PromptCache.ScannedExactly | src/prompt_cache/mod.rs:567-608 | of a directory with canonical names the index has exactly the cache files, each with its own size and time, under its key or among the foreign ones |
| PromptCache.TwoSpellings | src/prompt_cache/mod.rs:567-621 | a directory of two files for which the count is too high |
| PromptCache.Open | src/prompt_cache/mod.rs:336-376 | refuses exactly a bad configuration, clears half-written files, keeps all the listing gives but what makes room in order of use, and with canonical names opens a sound cache whose entries' files are untouched |
| PromptCache.LostIffDisplaced | src/prompt_cache/mod.rs:567-608 | the entries never account for more bytes than the files, and for all of them if and only if no file with bytes was displaced by a later one of its key |
| PromptCache.Cache.Discard | src/prompt_cache/mod.rs:235-242 | forgets one entry and changes no other file |
| PromptCache.Cache.TryPrefix | src/prompt_cache/mod.rs:404-429 | a prefix is served exactly when its image is readable and its stored tokens are the prefix, and then no file changes; otherwise only its own entry goes |
| PromptCache.Cache.Lookup | src/prompt_cache/mod.rs:394-432 | serves the first usable boundary above the bound, discards exactly the unusable entries passed, and leaves every remaining entry's file as it was |
| PromptCache.LookupIsLongest | src/prompt_cache/mod.rs:394-432 | no longer usable boundary exists |
| PromptCache.Cache.Write | src/prompt_cache/mod.rs:244-274 | a failed write changes nothing; otherwise the entry is usable, what goes is what makes room in order of use, every other remaining entry's file is as it was, and the cache is within budget or has nothing left to remove |
| PromptCache.RunCache | src/prompt_cache/mod.rs:235-432 | over any run of lookups and writes the byte count stays exact, a lookup misses only when nothing usable is there and otherwise serves the longest, a written entry is usable, and every hit is the image of its own prefix |
| PromptCache.StoreThenLook | src/prompt_cache/mod.rs:244-432 | what was just stored at a boundary of a request is served to it, or something longer is |
| PromptCacheNames.NamesRoundTrip | src/prompt_cache/mod.rs:142-158 | a file name parses back to its key if and only if the fingerprint has no dash |
| PromptCacheNames.NameParses | src/prompt_cache/mod.rs:142-158 | a canonical file name is recognised and parses back to its key |
| PromptCacheNames.NamesDiffer | src/prompt_cache/mod.rs:142-158 | different keys have different file names |
| PromptCacheNames.OtherSpelling | src/prompt_cache/mod.rs:611-621 | a second file name that parses to the same key |

## Left out

- Sampling: only greedy choice is modelled; temperatures, the stochastic sampler, and the policy's refusal of temperatures and traces are not.
- Model errors inside a session: a failed target pass is modelled only as its rollback to row 0; other error returns of the model end the program's turn and are not part of a turn here.
- Floating-point values: operations are uninterpreted, so rounding, NaN and overflow are not modelled; the arms' averages and factors are reals.
- Chunked prefill: proved identical only where a multi-row pass is the fold of one-row passes, as the model defines it; the engine's kernels for different widths need not agree numerically.
- Vocabulary-reduced draft heads, tracing, profiles, timings, metrics and report structs: they carry no state the properties depend on.
- Text as UTF-8: strings are sequences of characters, and byte offsets are character offsets.
- Session images and cache files are values; their file formats, checksums and I/O are not part of this model, and a restored image whose token count matches is taken to be faithful to its session.
- The target's state and the recurrent snapshots are values in `TargetModel`; the arenas that are rewritten in place are in `DeltaSnapshots`.
- The predictor's gap fields are one record, replaced as a whole.
- Fixed-width counters: byte totals, access clocks and statistics are unbounded, so saturation and overflow checks are not modelled, except the lane arithmetic of the kernels and the arms' window doubling.
- SpanCursor.links: carried as the program carries it for its metrics; nothing is proved about it.
- Sorting: library sorts are modelled as insertion into an ordered list; the order is what is proved.
- Threads: parallel loops are sequential, over any order of heads or weight rows; locking and non-temporal stores are not modelled.
- Vector floats: the per-block float update and the final lane reduction are one uninterpreted step and one uninterpreted finish in `FusedMatmul`.
- Q5K and the per-row kernel: they share no tile code with the fused path.
- Shape and type errors of the matrix product and of `concatenate_rows`: preconditions or refusals without detail.
- Number formatting by the JSON library: an arbitrary function, which may refuse a number and may change its own output again; where a round trip needs it, what it prints is only assumed to be a JSON number (`NumbersStayNumbers`).
- Ill-tagged calls among several: the exact condition is for the first call of a text; a whole turn is proved for well-tagged calls.
- Hash quality: hash functions are arbitrary, and FNV-1a is not computed.
- The prompt cache's background writer and its counters: writes are steps of the cache, and a failed one leaves the directory as it was.
- `src/qwen/moe.rs`, `src/config.rs`, `src/tokenizer.rs`, `src/loader.rs`, the binaries and the server are not part of this model.
