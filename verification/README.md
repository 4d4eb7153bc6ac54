# Verified model of the conversion and reference tools

A Dafny model of the Python tools around the engine and the converter, with proofs about them. Each module
follows one tool. Floats are exact reals, or an abstract arithmetic under which equal results are bit-equal;
sha256 is an abstract function; files are byte sequences or the facts a process reads from them; processes that
share files are state machines whose steps are single file effects, with a kill possible between any two.

| module | program | what is proved |
|---|---|---|
| `PackageMerge` | `tools/glm_entropy_report.py` | package-merge returns the optimal cost of a length-limited prefix code |
| `StageJournal` | `tools/glm-stage.py`, class `Journal` | the kept journal object equals a fresh check, over growth and converter resumes |
| `FetchGlm` | `tools/fetch-glm.py` | a verified file is genuine, whatever the transfers deliver and wherever the process dies |
| `GlmStage` | `tools/glm-stage.py` with the downloader and the converter | no shard that is still needed is deleted; exactly when a deleted one is fetched again |
| `Mul1Pipeline`, `Mul1Progress` | `tools/glm_mul1_quantize.py` | the bounded capture/quantize pipeline and its torn-line journal; exactly what it can still mark and capture after kills |
| `DenseFetch`, `DenseResume` | `tools/fetch-dense-originals.py` | minimal request coalescing; the chunked scatter is a copy, and over killed runs every slice is right |
| `PleIds` | `oracle/ref_engine_logits.py`, `oracle/ref_longctx_logits.py` | the vectorised n-gram table equals the loop form |
| `LongctxRun`, `LongctxResume` | `oracle/ref_longctx_logits.py` | chunked forward equals one call; the resumable dump |
| `CalibIds`, `NgramGuard` | `tools/calib_qwen35_ids.py` | optimal apportionment; the hash prefilter loses no match |
| `StaleScan` | `tools/cache_stale_rollbacks.py` | the log checker is exact, and silent on a cache that forgets |
| `Notices` | `tools/engine_notices.py` | exactly what the licence evaluator accepts, and that it is monotone |
| `ImagePositions` | `oracle/ref_qwen35_image_logits.py` | two forms of multimodal rotary positions agree |
| `Nvfp4` | `oracle/nvfp4_sim.py` | nearest rounding; the exhaustive scale search, independent of its row chunks |
| `WeightReaders` | `oracle/cnq_weights.py`, `oracle/glm5_common.py` | block readers commute with row slicing |

`Common` and `Arithmetic` hold what the modules share. `dafny verify dfyconfig.toml` checks everything.

## Where the code and its documentation differ

- `tools/fetch-glm.py:418` says a shard with a `.deleted` marker is never fetched again. The downloader looks at the
  marker once, before `fetch_file`. Right after the removal of a shard some continuation fetches it again if and only
  if that look lies behind and `fetch_file` has not begun, and the shard is not empty or has a `.part`
  (`GlmStage.RefetchedAfterRemovalIff`; `GlmStage.RefetchedIff` decides every later state too). Such a state is
  reachable (`GlmStage.RaceIsReachable`) and leads to a whole download (`GlmStage.InsideIsRefetched`); from every other
  state after a removal the promise holds for ever (`GlmStage.DeletedIsNotFetched`).
- `fetch_file` trusts a record without a digest as far as its size: the marker it then writes is never accepted by
  `is_verified`, so a `True` result means "verified" exactly when the record has a digest (`FetchGlm.File.FetchFile`).
  On an empty record that is not verified it ends in an error, hashing a `.part` that is not there, unless the file on
  disk is empty and matches; that is an if-and-only-if in the same contract.
- A quantizer killed between the last journal line of a layer and its `quantized.json` strands the layer: resuming
  never marks it. A captured layer is marked in some continuation if and only if it is not stranded
  (`Mul1Progress.MarkedIff`), and in every reachable state some continuation captures another layer if and only if one
  is left and fewer than `max_ahead` are stranded (`Mul1Progress.CapturesMoreIff`). A run ends with both processes
  waiting (`Mul1Pipeline.BlockingIsReachable`).
- Chunks shorter than the convolution's nine pad rows do not give the rows of a single call: two to eight rows are a
  shape error (`LongctxRun.ShortChunksFail`), one row is broadcast. The other chunk sizes, and one chunk for everything,
  are exactly those that are exact for every arithmetic (`LongctxRun.ChunkingIsExactIff`).
- A kill between the two writes of `on_rows` leaves logits the rows file does not know. The next run appends those
  rows again and reports success, or refuses when there was no checkpoint yet (`LongctxResume.Output.KillBetweenWrites`);
  it happens from an empty directory (`LongctxResume.ThreeRuns`). The dump of a finished run is right if and only if
  dump and rows file had the same number of rows when it began (`LongctxResume.Output.CmdRun`).
- The check that the rows file is "an ascending prefix of the plan" (`oracle/ref_longctx_logits.py:539-542`) passes every
  ascending selection from the plan, gaps included (`LongctxResume.OrderCheckPasses`). On files of earlier runs with
  the same plan it makes no difference.
- The licence parser never looks at the token in a closing parenthesis' place and ignores what follows the expression.
  It accepts exactly the lists that open with a tree in which such a place holds anything but AND and OR, or lies at
  the end, and behind which neither AND nor OR follows (`Notices.CoveredIff`; `Notices.CloseIsNotChecked` and
  `Notices.CoveredUndoesPrint` say when either goes unnoticed).
- `coalesce_ranges` is minimal for all ranges with begin <= end, overlapping ones included.

## Model

| member | source | states |
|---|---|---|
| `PackageMerge.HuffmanCostBits` | tools/glm_entropy_report.py:74-89 | for every histogram and limit: it refuses exactly when two or more symbols outnumber the words of `limit` bits, and then no prefix-free code exists; otherwise the result is the cost of some prefix-free code with words of 1..limit bits, and no such code costs less |
| `PackageMerge.PackageMergeOptimal` | tools/glm_entropy_report.py:85-89 | the 2n-2 cheapest items of the last list add up to the optimum over all prefix codes, as sets of bit strings, within the limit |
| `PackageMerge.NoneCheaper` | tools/glm_entropy_report.py:85-89 | lower bound: no length assignment within the limit that satisfies Kraft's inequality costs less |
| `PackageMerge.Attained` | tools/glm_entropy_report.py:85-89 | the sum is the cost of an actual assignment of lengths 1..limit that satisfies Kraft's inequality |
| `PackageMerge.LongEnough` | tools/glm_entropy_report.py:82-89 | when the symbols fit the limit, the list after limit-1 rounds holds at least 2n-2 items |
| `PackageMerge.LevelBelow` | tools/glm_entropy_report.py:86-88 | what every round keeps: the first items of the list cost at most the symbols any assignment places at those depths |
| `PackageMerge.TakenCoversWidth` | tools/glm_entropy_report.py:86-88 | what every round keeps: an assignment's items pay for the width of its code words |
| `PackageMerge.Unpack` | tools/glm_entropy_report.py:86-88 | any prefix of a list unpacks into symbols level by level, with the same sum and the same width |
| `PackageMerge.MergeBelow` | tools/glm_entropy_report.py:88 | the first items of a merge are the cheapest choice from both inputs |
| `PackageMerge.KraftHolds` | tools/glm_entropy_report.py:75-76 | Kraft's inequality holds for every prefix-free set of bit strings |
| `PackageMerge.KraftCode` | tools/glm_entropy_report.py:75-76 | lengths that satisfy it are those of a prefix-free code |
| `PackageMerge.CodeOfSorted` | tools/glm_entropy_report.py:77 | dropping zero counts and sorting loses no code and changes no cost |
| `PackageMerge.CodeFromSorted` | tools/glm_entropy_report.py:77 | a code of the sorted counts is one of the histogram at the same cost |
| `PackageMerge.NoCode` | tools/glm_entropy_report.py:83-84 | more symbols than words of `limit` bits: no prefix-free code at all |
| `PackageMerge.AtMostOneSymbol` | tools/glm_entropy_report.py:79-82 | no symbol costs 0 and one symbol its count, and that is optimal |
| `StageJournal.Journal.Refresh` | tools/glm-stage.py:173-221 | the object after a refresh is what the scan from its position, or from the start when the journal was rewritten, gives; after a refused head it is empty; `stuck` names the first record not taken |
| `StageJournal.Journal.Extend` | tools/glm-stage.py:185-218 | the loop takes complete lines up to the first that is refused or half written |
| `StageJournal.Journal.NextLine` | tools/glm-stage.py:186-215 | one round of the loop takes one line and leaves the rest of the scan unchanged, or says why it stops |
| `StageJournal.Journal.TakeLine` | tools/glm-stage.py:189-215 | one line: the head, or a record that passes the check; otherwise nothing changes |
| `StageJournal.Journal.Check` | tools/glm-stage.py:223-250 | a record is taken exactly when its seq, offset, zero padding and container hash fit the prefix |
| `StageJournal.RefreshIsFresh` | tools/glm-stage.py:173-221 | over files that keep what was verified (a grown or a cut and regrown journal), a refresh gives what a new object computes, and no verified name is lost |
| `StageJournal.IncrementalIsExact` | tools/glm-stage.py:149-221 | for every history of growth, half-written lines included, and converter resumes, and any moments of refreshing, the kept state equals one fresh check of the files at the last moment |
| `StageJournal.Watch` | tools/glm-stage.py:149-221 | the same for the object: one `Journal` refreshed through a whole history returns the names of a fresh check, or refuses the head exactly when it does |
| `StageJournal.HistoryKeeps` | converter/README.md:112 | whatever lies between two moments of a history, the later files still hold what a check of the earlier ones verified |
| `StageJournal.ChangesKeep` | converter/README.md:112 | one growth, or one resume that cuts journal and container behind the verified records, keeps what was verified |
| `StageJournal.ResumeKeepsVerified` | converter/README.md:112 | a resume leaves exactly the head line and the verified records, and they still verify in the cut container |
| `StageJournal.FreshIsLongestPrefix` | tools/glm-stage.py:150-157 | a fresh check returns the longest run of records with consecutive seq, contiguous offsets, zero padding and matching hashes, its end and its names |
| `StageJournal.ScanResumes` | tools/glm-stage.py:179-215 | a scan of files that keep what an older scan verified passes through the state the older scan stopped in |
| `StageJournal.BadHeadStays` | tools/glm-stage.py:193-196 | a journal refused for its head line stays refused however it grows |
| `FetchGlm.VerifiedIsGenuine` | tools/fetch-glm.py:422-436 | in every state of every run, kills and restarts anywhere and transfers adversarial, a file that `is_verified` accepts has the record's size and digest |
| `FetchGlm.StepKeepsSound` | tools/fetch-glm.py:507-579 | every file effect of the download keeps the invariant behind it |
| `FetchGlm.CannotFetch` | tools/fetch-glm.py:507-579 | with the final file gone, a call that is past fetching, or has nothing to fetch, never touches `.part` or the final file again |
| `FetchGlm.FetchPath` | tools/fetch-glm.py:507-579 | and every other call has a path that changes `.part`: a transfer, an overlong or mismatched file, or a placing |
| `FetchGlm.File.FetchFile` | tools/fetch-glm.py:507-579 | every disk state it passes through is a run of the machine; it returns success only on a file that `is_verified` accepts if and only if the record has a digest, stops after exactly MAX_MISMATCHES bad hashes, and misses its `.part` if and only if the record is empty, the file was not verified and what lay on disk is not an empty file that matches |
| `FetchGlm.File.Settle` | tools/fetch-glm.py:526-551 | a complete `.part` is published with its marker if and only if it matches, and deleted and counted otherwise |
| `FetchGlm.File.Prepare` | tools/fetch-glm.py:515-519 | before anything is fetched `.part` holds the unverified final file, or what it held when there was none |
| `GlmStage.NoNeededShardDeleted` | tools/glm-stage.py:324-362 | over every interleaving of downloader, converter and supervisor with kills and resumes: a tensor that is not recorded has every shard it reads unmarked and not being removed |
| `GlmStage.ResumeNeedsNoDeletedShard` | converter/README.md:112 | what a resumed converter still has to write needs no deleted shard |
| `GlmStage.UnlinkIsGuarded` | tools/glm-stage.py:335-356 | at the moment of the removal every guard holds, and every tensor that reads the shard is recorded |
| `GlmStage.NextPassCompletes` | tools/glm-stage.py:324-356 | after a kill between marker and removal the next pass removes the shard through the same guards |
| `GlmStage.StepKeepsInv` | tools/glm-stage.py:299-362 | every step of every process, kills included, keeps the protocol invariant |
| `GlmStage.Reachable` | tools/glm-stage.py:299-362 | the invariant holds in every reachable state |
| `GlmStage.CheckedNamesAreVerifiedNames` | tools/glm-stage.py:299-313 | the one object the supervisor keeps, refreshed at any moments of any history of growth and converter resumes, returns exactly the verified prefix the protocol model lets it see |
| `GlmStage.ResumeKeepsRecords` | converter/README.md:112 | a resume that cuts the files is the protocol's resume: the records up to the first that does not verify, all verified afterwards |
| `GlmStage.ResumeStaysBacked` | converter/README.md:112 | files that are a state's records are so after a resume of both |
| `GlmStage.GrowthIsAStep` | converter/README.md:112 | and after every growth of journal and container by no record or the one in hand, which is a step of the protocol's converter |
| `GlmStage.GrowthRaises` | converter/README.md:112 | growth of both files only adds records and never undoes one that verifies |
| `GlmStage.FilesHaveARun` | converter/README.md:112 | the files simulated: for every history of a conversion, kills and resumes included, with all shards on disk, a run of the protocol has the journal lines as its records at every moment |
| `GlmStage.PassReadsTheObject` | tools/glm-stage.py:299-327 | a pass of the protocol starts with what the kept object returns |
| `GlmStage.NeedCoversReaders` | tools/glm-stage.py:93-109 | a shard's required names include every written tensor that reads it, a shard that holds only its scale included |
| `GlmStage.OmittedWithItsWeight` | tools/glm-stage.py:84-109 | a scale whose own name is omitted belongs to an omitted weight, so the early `continue` loses nothing |
| `GlmStage.CollectRequired` | tools/glm-stage.py:93-109 | the loop over the header collects exactly the declarative set |
| `GlmStage.Stage.OnePass` | tools/glm-stage.py:324-362 | every listed shard is treated by its verdict against one reading of the journal, others are untouched, the number returned is that of the listed shards whose final file went, and the pass is a run of supervisor steps |
| `GlmStage.Stage.OneShard` | tools/glm-stage.py:328-356 | one shard of the pass, with the steps it stands for |
| `GlmStage.DeletedIsNotFetched` | tools/fetch-glm.py:725-730 | once a shard is marked and no call is under way for it but one that is past fetching, no run ever changes its `.part` or brings its final file back |
| `GlmStage.RefetchedIff` | tools/fetch-glm.py:725-730 | once it is marked and its final file gone, in every reachable state: some continuation fetches bytes of it again if and only if a call that can still fetch is under way for it |
| `GlmStage.RefetchedAfterRemovalIff` | tools/fetch-glm.py:725-730 | right after the removal that is: the downloader has looked for the marker and not begun, and the shard is not empty or has a `.part` |
| `GlmStage.InsideIsRefetched` | tools/fetch-glm.py:725-730 | a downloader that looked before the marker was written can download a shard that is not empty once more, any bytes, or publish the complete `.part` it finds |
| `GlmStage.RaceIsReachable` | tools/fetch-glm.py:725-730 | a run of all three processes that ends in that state |
| `Mul1Pipeline.AtMostMaxAhead` | tools/glm_mul1_quantize.py:350-368 | in every reachable state at most `max_ahead` layers are captured and not quantized |
| `Mul1Pipeline.CaptureFindsItsStates` | tools/glm_mul1_quantize.py:377-416 | a capture, resumed or not, finds every hand-over state the layer it works on reads |
| `Mul1Pipeline.JournalledOnceAndPlaced` | tools/glm_mul1_quantize.py:587-592 | across kills each (layer, expert) is journalled at most once, and only behind its record file |
| `Mul1Pipeline.QuantizerFindsTheDump` | tools/glm_mul1_quantize.py:546-563 | a layer the quantizer enters still has its dump |
| `Mul1Pipeline.NeverBlockEachOther` | tools/glm_mul1_quantize.py:364-368 | in runs in which the quantizer is not killed the two waits never hold at once |
| `Mul1Pipeline.BlockedIffOrphans` | tools/glm_mul1_quantize.py:364-368 | with kills, an idle quantizer blocks the capture if and only if `max_ahead` layers are journalled in full and unmarked |
| `Mul1Pipeline.StrandedForever` | tools/glm_mul1_quantize.py:540-544 | a layer that is journalled in full, unmarked and not in the quantizer's hands stays so in every continuation |
| `Mul1Progress.MarkedIff` | tools/glm_mul1_quantize.py:540-606 | in every reachable state: some continuation writes a captured layer's `quantized.json` if and only if the layer is not stranded |
| `Mul1Progress.MarksAll` | tools/glm_mul1_quantize.py:532-606 | and one continuation marks all captured layers that are not stranded, with no further capture |
| `Mul1Progress.FinishLayer` | tools/glm_mul1_quantize.py:566-601 | from anywhere inside a layer the quantizer can journal every expert left, mark the layer and go on |
| `Mul1Progress.CapturesMoreIff` | tools/glm_mul1_quantize.py:345-419 | in every reachable state: some continuation captures another layer if and only if one is left to capture and fewer than `max_ahead` layers are stranded, or there is no limit |
| `Mul1Progress.CapturesUpTo` | tools/glm_mul1_quantize.py:345-419 | with room the capture gets through the layers before the next one to capture, every file handed over, and captures it |
| `Mul1Pipeline.BlockedForGood` | tools/glm_mul1_quantize.py:364-368 | once an idle quantizer blocks the capture, every continuation captures exactly the same layers, and the capture is off or waits |
| `Mul1Pipeline.KillBeforeMarkStrands` | tools/glm_mul1_quantize.py:598-601 | a kill before `quantized.json` makes one |
| `Mul1Pipeline.BlockingIsReachable` | tools/glm_mul1_quantize.py:345-419 | a run that ends with the capture blocked |
| `Mul1Pipeline.StepKeepsInv` | tools/glm_mul1_quantize.py:345-606 | every step of both processes keeps the pipeline invariant |
| `Mul1Pipeline.Reachable` | tools/glm_mul1_quantize.py:345-606 | the invariant holds in every reachable state |
| `Mul1Pipeline.JournalFile.ReadJournal` | tools/glm_mul1_quantize.py:185-203 | the file is cut behind its last newline and the entries are those of its lines |
| `Mul1Pipeline.JournalFile.AppendJournal` | tools/glm_mul1_quantize.py:206-210 | behind complete lines the file is the encoding of one entry more, and the next read cuts nothing and returns exactly that entry beside the earlier ones |
| `Mul1Pipeline.TornLineIsCut` | tools/glm_mul1_quantize.py:192-195 | after a kill inside an append, the next read cuts exactly the torn line and returns exactly the complete entries |
| `Mul1Pipeline.LinesOfEncoded` | tools/glm_mul1_quantize.py:192-203 | reading lines undoes appending them |
| `DenseFetch.CoalesceRanges` | tools/fetch-dense-originals.py:195-215 | an order-preserving partition of the sorted ranges into their hulls within `max_gap` and `max_span`, and no such partition has fewer groups |
| `DenseFetch.GreedyIsMinimal` | tools/fetch-dense-originals.py:195-215 | the greedy cuts are at most as many as those of any plan within the limits |
| `DenseFetch.StaysAhead` | tools/fetch-dense-originals.py:205-214 | cut by cut, greedy is at least as far as any other plan |
| `DenseFetch.SortedInOrder` | tools/fetch-dense-originals.py:205 | the ranges are taken in order of (begin, end), none lost |
| `DenseFetch.ScatterMember` | tools/fetch-dense-originals.py:503-513 | one tensor's share of one chunk lands at its place, the rest of the file unchanged, and feeds its digest |
| `DenseFetch.ScatterChunk` | tools/fetch-dense-originals.py:503-513 | after a chunk every tensor of the group holds, and has hashed, what has arrived of it |
| `DenseFetch.ScatterGroup` | tools/fetch-dense-originals.py:498-518 | for any chunk size every tensor's slice is its shard slice, its digest fed exactly those bytes in order, and nothing else is written |
| `DenseFetch.FetchShard` | tools/fetch-dense-originals.py:486-518 | the same for all groups of a shard, for any `max_gap` and `max_span` |
| `DenseFetch.NextShard` | tools/fetch-dense-originals.py:483-527 | one shard more: its entries are copied and fed to their digests, those of the shards before stay copies, and nothing else changes |
| `DenseFetch.FetchGroup` | tools/fetch-dense-originals.py:483-527 | after all shards every fetched entry is a copy with the right digest; entries of an earlier run and the header are untouched |
| `DenseResume.Download.Run` | tools/fetch-dense-originals.py:436-532 | one run over whatever the file holds: wherever it dies the recorded digests stay those of the shard slices and confirmed slices stay untouched; if it finishes, every slice of the file has its shard slice's digest, re-verified ones included, and it is recorded |
| `DenseResume.Download.Runs` | tools/fetch-dense-originals.py:436-532 | any number of killed runs, whatever each left, and one that finishes: every slice of the file is its shard slice when digests match only equal bytes |
| `DenseFetch.LayOut` | tools/fetch-dense-originals.py:229-242 | offsets contiguous from 0, without holes |
| `DenseFetch.ContiguousApart` | tools/fetch-dense-originals.py:221-223 | contiguous offsets do not overlap |
| `DenseFetch.HeaderLaysOut` | tools/fetch-dense-originals.py:427-430 | shifted by the header they give the layout the scatter needs |
| `PleIds.PleIdsFor` | oracle/ref_engine_logits.py:94-132 | the loop form computes the declarative ids: the shift-p token is hist[i-p] unless an EOS lies in [i-p, i), wrapping multiply and xor, signed floor-mod |
| `PleIds.PleUidTable` | oracle/ref_longctx_logits.py:185-227 | the vectorised form computes the same |
| `PleIds.BothForms` | oracle/ref_longctx_logits.py:185-227 | the two agree on every token list, row for row |
| `PleIds.SegmentTest` | oracle/ref_engine_logits.py:109-115 | the segment arithmetic decides exactly whether an EOS lies in between |
| `PleIds.ShiftedRow` | oracle/ref_engine_logits.py:98-116 | one shift of the history |
| `PleIds.UidInRange` | oracle/ref_longctx_logits.py:224-226 | every id lies in [off, off + vs) of its head |
| `PleIds.RowIsLocal` | oracle/ref_longctx_logits.py:205-226 | a row depends on the last NGRAM tokens only |
| `LongctxRun.Chunked` | oracle/ref_longctx_logits.py:279-306 | chunks of nine rows or more, or one chunk, give exactly the rows of one call |
| `LongctxRun.ChunkedIsOneCall` | oracle/ref_longctx_logits.py:292-306 | the carry makes the chunked convolution equal the unchunked one, bit for bit |
| `LongctxRun.ChunkIsSlice` | oracle/ref_longctx_logits.py:292-306 | one chunk from a right carry gives its slice of the single call |
| `LongctxRun.ChunkingIsExactIff` | oracle/ref_longctx_logits.py:292-306 | over all integer arithmetics and all inputs of n rows: exact if and only if the chunk is at least nine or holds everything |
| `LongctxRun.ShortChunksFail` | oracle/ref_longctx_logits.py:295-296 | chunks of two to eight rows fail at the second chunk, whatever the rows |
| `LongctxRun.ChunkMaskIsCausal` | oracle/ref_longctx_logits.py:434-442 | the masks the loop builds chunk by chunk are the matching rows of the full causal mask, which hides every key behind them |
| `LongctxRun.Run` | oracle/ref_longctx_logits.py:415-475 | every wanted row from start_token on is handed out exactly once, ascending; the skipped rows are those before |
| `LongctxRun.RowsInAscending` | oracle/ref_longctx_logits.py:461-464 | the handed rows are ascending and exactly the wanted ones of their range |
| `LongctxResume.Output.CmdRun` | oracle/ref_longctx_logits.py:491-587 | on files of earlier runs, killed anywhere: it refuses for a stated reason or finishes the whole plan, the rows file stays a prefix of the plan, the finished dump equals the uninterrupted run's if and only if dump and rows file agreed in length before, and a kill at the first write with rows ahead leaves logits in surplus |
| `LongctxResume.Output.AdmitsUnlessTorn` | oracle/ref_longctx_logits.py:511-542 | on such files only a torn file or a dump without a state is refused |
| `LongctxResume.Output.RunChunks` | oracle/ref_longctx_logits.py:544-571 | chunk by chunk the files stay consistent through every kill |
| `LongctxResume.Output.Advance` | oracle/ref_longctx_logits.py:461-469 | one chunk writes the next rows of the plan with the uninterrupted run's logits |
| `LongctxResume.Output.KillBetweenWrites` | oracle/ref_longctx_logits.py:544-552 | a run killed between the two writes and a second run: over a checkpoint the second finishes the plan with a wrong dump, without one it refuses |
| `LongctxResume.ThreeRuns` | oracle/ref_longctx_logits.py:491-587 | that happens from no files at all: one chunk, a killed run and a run that reports success over a wrong dump |
| `LongctxResume.Output.NoneSkipped` | oracle/ref_longctx_logits.py:572-576 | a resume skips no unwritten row, so the lost-row refusal never fires on such files |
| `LongctxResume.OrderCheckPasses` | oracle/ref_longctx_logits.py:539-542 | the order check passes exactly the ascending selections from the plan |
| `LongctxResume.PrefixPasses` | oracle/ref_longctx_logits.py:518-542 | rows that open the plan pass the order check, and what is left is the rest of the plan |
| `LongctxResume.ChunkStaysOnTrack` | oracle/ref_longctx_logits.py:562-568 | a state that continues as the uninterrupted run does still does so after a chunk |
| `CalibIds.LargestRemainder` | tools/calib_qwen35_ids.py:203-211 | the shares add up to the total, each is the floor of its quota or one more, and no integer allocation of that total is closer to the quotas in sum of distances |
| `CalibIds.LargestFirstIsBest` | tools/calib_qwen35_ids.py:207-210 | rounding up the largest fractions is optimal among all integer allocations |
| `CalibIds.FloorsFallShort` | tools/calib_qwen35_ids.py:206-207 | the floors fall short of the total by less than one a place |
| `CalibIds.SharesAreNatural` | tools/calib_qwen35_ids.py:203-211 | weights and a total that are not negative give shares that are not |
| `CalibIds.Order` | tools/calib_qwen35_ids.py:208 | a permutation of the places by falling fraction, then index |
| `NgramGuard.Guard.Hits` | tools/calib_qwen35_ids.py:250-261 | exactly the windows shared with an added sequence, in order, each once: neither a collision nor the prefilter changes the answer |
| `NgramGuard.NgramHashes` | tools/calib_qwen35_ids.py:225-234 | the pass per offset gives every window the wrapping hash of that window |
| `NgramGuard.Guard.Freeze` | tools/calib_qwen35_ids.py:246-248 | the frozen set holds exactly the hashes of the added windows |
| `StaleScan.Scan` | tools/cache_stale_rollbacks.py:43-78 | reported, in log order and once each, are exactly the positions an earlier WARM line listed above its L with no COLD, reset or snapshot of them since, that a WARM line lists or chooses |
| `StaleScan.StaleStep` | tools/cache_stale_rollbacks.py:57-77 | how one line changes what is stale |
| `StaleScan.ForgettingIsClean` | tools/cache_stale_rollbacks.py:6-18 | every trace of a cache that forgets slots above L on a rollback has no violation |
| `StaleScan.StaleIsNotHeld` | tools/cache_stale_rollbacks.py:6-18 | in such a trace stale and held slots stay disjoint |
| `StaleScan.KeepingIsCaught` | tools/cache_stale_rollbacks.py:15-16 | a cache that keeps a bypassed slot is reported at the next WARM line that lists it |
| `StaleScan.HeldAt` | tools/cache_stale_rollbacks.py:63-64 | one line's held violations, lowest position first |
| `Notices.Covered` | tools/engine_notices.py:134-170 | on the tokens of any AND/OR/parenthesis tree over known ids with sufficient parentheses it consumes everything and returns the tree's meaning, and whatever it accepts is such a tree but for its closing places |
| `Notices.CoveredIff` | tools/engine_notices.py:134-170 | for every token list: it returns v and stops at a place if and only if a tree that means v opens the list up to there, closing places unread, and no operator follows |
| `Notices.CoveredUndoesPrint` | tools/engine_notices.py:134-170 | a printed tree is read back, and exactly it consumed, if and only if neither AND nor OR follows |
| `Notices.CloseIsNotChecked` | tools/engine_notices.py:140-146 | an open parenthesis and a tree read like a closed one if and only if the closing one's place holds neither AND nor OR, or nothing |
| `Notices.CoveredIsMonotone` | tools/engine_notices.py:134-170 | on every token list more kinds never cover less, and the error or the stop does not depend on them |
| `Notices.LooseOrMeansOtherwise` | tools/engine_notices.py:154-168 | without its parentheses an OR below an AND means something else: AND binds tighter |
| `Notices.ConjReads` | tools/engine_notices.py:154-160 | a conjunction that stands at a place is read off in one run of conj |
| `Notices.DisjReads` | tools/engine_notices.py:162-168 | an expression that no AND follows is read off in one run of disj |
| `Notices.DisjMeans` | tools/engine_notices.py:134-170 | soundness: whatever disj accepts from any place on is a tree that stands there and has the value returned |
| `Notices.DisjStops` | tools/engine_notices.py:154-168 | and it stops where neither AND nor OR follows |
| `Notices.Parser.ReadAtom` | tools/engine_notices.py:140-152 | the closure over the shared position does what the grammar says, errors included |
| `Notices.Parser.ReadConj` | tools/engine_notices.py:154-160 | the same for the AND loop |
| `Notices.Parser.ReadDisj` | tools/engine_notices.py:162-168 | the same for the OR loop |
| `ImagePositions.Lay` | oracle/ref_qwen35_image_logits.py:73-117 | both programs compute the positions of the group recursion and a delta from their maximum |
| `ImagePositions.FormsAgree` | oracle/ref_qwen35_image_logits.py:73-117 | on well-sized images the nested loops and the divmod form agree if and only if every image has one frame |
| `ImagePositions.PositionsFill` | oracle/ref_qwen35_image_logits.py:77-78 | positions lie between the first and the final cursor, reach one below it, and never run ahead of the token count |
| `ImagePositions.LaterGroupsExceed` | oracle/ref_qwen35_image_logits.py:77-78 | every coordinate of a later group exceeds every coordinate before it |
| `ImagePositions.BothForms` | oracle/ref_qwen35_image_logits.py:95-117 | on single-frame images both give the same positions and delta; max + 1 is the cursor, and the delta is never positive |
| `ImagePositions.Raster` | oracle/ref_qwen35_image_logits.py:90-93 | the three nested loops lay the rows out by quotient and remainder of their index |
| `ImagePositions.GroupsAreRuns` | oracle/ref_qwen35_image_logits.py:81 | the groups are the maximal runs of the types |
| `Nvfp4.DequantIsNearest` | oracle/nvfp4_sim.py:48-56 | at every positive scale no E2M1 value of either sign is nearer |
| `Nvfp4.ErrorAtMostScale` | oracle/nvfp4_sim.py:48-56 | the error is at most the scale when the value is at most six scales |
| `Nvfp4.Index` | oracle/nvfp4_sim.py:52-54 | counting midpoints finds the bin; a midpoint belongs to the bin above |
| `Nvfp4.Ue4m3Table` | oracle/nvfp4_sim.py:23-32 | the 127 scales rise strictly from 0 to 448 |
| `Nvfp4.Search` | oracle/nvfp4_sim.py:71-103 | the global scale is the source's; every non-zero sub-block gets the smallest byte in 1..126 of least cost, a zero one byte 0, under all three objectives and for any row_chunk, and the result is dequantized with those bytes |
| `Nvfp4.SearchTwice` | oracle/nvfp4_sim.py:71-103 | two searches with any two row_chunk sizes return the same scale, bytes and tensor |
| `Nvfp4.SearchIsDetermined` | oracle/nvfp4_sim.py:71-103 | what a search promises determines all three results |
| `Nvfp4.SearchChunk` | oracle/nvfp4_sim.py:83-102 | the same for one chunk of rows |
| `Nvfp4.GlobalScale` | oracle/nvfp4_sim.py:41-45 | the largest sub-block magnitude over 6 and 448, which some sub-block attains, or 1 for a tensor of zeros |
| `Nvfp4.GlobalScaleIsUnique` | oracle/nvfp4_sim.py:41-45 | no other number has that property |
| `Nvfp4.BestIsUnique` | oracle/nvfp4_sim.py:88-101 | the byte is determined by the sub-block, the scale and the objective |
| `Nvfp4.BestOfAll` | oracle/nvfp4_sim.py:71-101 | under x126, and diag with weights that are not negative, the byte is no worse than any of 0..126 |
| `Nvfp4.BestIsBounded` | oracle/nvfp4_sim.py:41-45 | and costs no more than one top scale of error in every value |
| `Nvfp4.NoWorseThanZero` | oracle/nvfp4_sim.py:71-101 | no byte is worse than byte 0 |
| `Nvfp4.DequantBytes` | oracle/nvfp4_sim.py:59-68 | the tensor dequantized row by row, whatever the chunk |
| `WeightReaders.RowsAreSlices` | oracle/cnq_weights.py:103-127 | rows read by seek are those rows of the whole decoded tensor, for bf16, f32 and, with cols a multiple of 64, NVFP4 |
| `WeightReaders.DeqFlat` | oracle/cnq_weights.py:129-151 | the strided whole-tensor form is the concatenation of its blocks, sanitized or not |
| `WeightReaders.DeqBlock` | oracle/cnq_weights.py:55-70 | one block; equal to the flat form without sanitizing |
| `WeightReaders.ValuesAreFlat` | oracle/cnq_weights.py:90-91 | element-wise decoding of whole blocks is the flat form |
| `WeightReaders.ValuesSlice` | oracle/cnq_weights.py:112-127 | decoding the bytes of a run of elements gives those elements |
| `WeightReaders.Fp8RowsAreSlices` | oracle/glm5_common.py:244-256 | FP8 rows read in whole 128-row blocks are those rows of the whole tensor, the partial last block included |
| `WeightReaders.DequantAt` | oracle/glm5_common.py:100-113 | each weight is scaled by the scale of its own block |
| `WeightReaders.PartFits` | oracle/glm5_common.py:249-255 | the scale rows read with the blocks fit them |

## Left out

- JSON, regex, safetensors and licence text parsing: the models start from records, events and tokens.
- HTTP, curl, retries and back-off: a transfer leaves any bytes in `.part`; disk-space parking and permanent HTTP errors are further ways to stop.
- Logs, timing, host paths and `same_path`: the converter's `.done` names its container by an abstract name.
- sha256 and git blob hashing are abstract functions; what matches is the digest, not the content.
- Floating-point rounding, where real arithmetic is used (`CalibIds`, `Nvfp4`).
- Torch forwards, attention, MoE and quantizer numerics: abstract functions of what they read.
- The Rust converter and engine: only the contract of converter/README.md:107-112.
- GlmStage: the supervisor's readings of one shard's files are one step each; a converter resume is one step; the index trailer is a set of names.
- StageJournal: a history is one conversion; a journal that is removed and begun anew for another one is not a step of it.
- Mul1Pipeline: disk checks, pruning of consumed records, `stop_after`, and layers of a partial run in another order.
- Mul1Pipeline.NeverBlockEachOther: says that the two waits never hold at once; it does not bound how long either lasts.
- DenseResume: `--skip-verify`, a manifest of another plan, and the creation of the output file; a run begins with the file at its final size.
- LongctxResume: dense `--all-rows` dumps, plans with negative rows, and a resume with another chunk size or plan; a torn append leaves whole rows.
- ImagePositions.FormsAgree: images of several frames are covered as the case in which the forms differ, not as a layout.
- Nvfp4.BestOfAll: not for the `lh` objective, whose matrix couples the values of a sub-block.
- WeightReaders: i64 tensors have no rows in the source; bytes behind the last whole element are ignored.
- `place`, the bootstrap and coverage fits, `readme_image.py`, the guards over docs and dates, `vit-lag.py` and the one-shot scripts.
