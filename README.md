# rust-bitcoin-script: structured scripts, stack analysis and chunking

This project models the core of `rust-bitcoin-script` in Dafny:

- the **structured script builder** (`src/builder.rs`): a Bitcoin script kept
  as a list of blocks, either literal instruction runs or calls to previously
  registered sub-scripts, with its byte length, its `OP_IF`/`OP_ENDIF`
  bookkeeping, an optional stack hint and a debug identifier; the push
  operations (`push_opcode`, `push_script`, `push_env_script`, `push_int`,
  `push_slice`), the memoised compilation to bytes and `debug_info`;
- the **stack analyzer** (`src/analyzer.rs`): the abstract interpreter that
  computes, for a script, the deepest stack slot it touches and its net stack
  change, following `OP_IF`/`OP_ELSE`/`OP_ENDIF` and `OP_PICK`/`OP_ROLL` with
  a preceding constant;
- the **chunker** (`src/chunker.rs`): the loop that cuts a structured script
  into consecutive chunks whose byte lengths lie in
  `[target - tolerance, target]`, splitting a fragment into its blocks when it
  is too large.

The thread-local script map of the source is modelled as an explicit value,
a `Registry`, that holds the registered scripts, the order in which they were
registered and the next free index. Sub-script ids (content hashes in the
source) are abstract numbers; `push_env_script` receives its id as a
parameter. A registered script only calls scripts registered before it. That
fact is what makes expansion, analysis and chunking terminate.

Files:

| file | contents |
|---|---|
| `wrappers.dfy` | `Option` and `Result` |
| `opcodes.dfy` | opcode constants, instructions, the push encoding of Bitcoin script |
| `scriptnum.dfy` | the script-number encoding written by `push_int` and read by the analyzer |
| `structure.dfy` | blocks, if-bookkeeping, stack status, structured scripts, the registry, expansion to bytes |
| `builder.dfy` | the push operations, the if-bookkeeping they maintain, debug info, stack hints |
| `compiler.dfy` | `compile` / `compile_to_bytes` with their cache of already-emitted sub-scripts |
| `stackeffect.dfy` | the analyzer's transfer functions over pure states, and their algebra |
| `analyzer.dfy` | the `StackAnalyzer` object and `analyze_stack` |
| `chunker.dfy` | chunking as functions over the work stack, and the `Chunker` object |

## Model

| member | source | states |
|---|---|---|
| Structure.ThreadAddScript | src/builder.rs:21-26 | Registering an id that is already present leaves the map unchanged. A new id is added with its script. Every previous entry is kept. |
| Structure.AddKeepsValid | src/builder.rs:21-26 | Registering a script whose calls all point into the registry keeps the registry well formed and extends it. |
| Structure.FlattenLength | src/builder.rs:90-92 | The length kept by a script equals the length of its full expansion to bytes. |
| Structure.FlattenExtends | src/builder.rs:28-35 | Looking a script up in a larger registry expands it to the same bytes. |
| Builder.New | src/builder.rs:76-88 | A new script is empty: size 0, no blocks, no hint, no open ifs, the given debug identifier. |
| Builder.LenIsExpansionLength | src/builder.rs:90-92 | `len` is the length of the compiled script. |
| Builder.UpdateMaxInterval | src/builder.rs:165-169 | The widest if-interval is replaced only by a strictly wider one. The result is at least as wide as both. |
| Builder.RecordOpcodeOk | src/builder.rs:183-207 | Recording one opcode keeps the if-bookkeeping consistent at the next position. Non-flow opcodes leave it untouched. A flow op is present afterwards iff it was before or the opcode is one. |
| Builder.PushOpcode | src/builder.rs:183-207 | Pushing an opcode adds one byte and appends its instruction to the last literal block. Hint and debug id are kept, and the widest if-interval never shrinks. |
| Builder.AppendToScriptBlock | src/builder.rs:149-160 | After appending, the blocks are non-empty and end in a literal run. |
| Builder.AppendToScriptBlockExpands | src/builder.rs:149-160 | Appending an instruction to the trailing run (or a new run) adds exactly its bytes at the end of the expansion and its length to the size. |
| Builder.PushOpcodeDebugInfo | src/builder.rs:183-207 | After `push_opcode`, `debug_info` of the new byte is the script's own debug identifier, and every earlier byte keeps its owner. |
| Builder.LoneIfAndEndif | src/builder.rs:183-207 | A lone `OP_IF`/`OP_NOTIF` records an unclosed if at 0; a lone `OP_ENDIF` records an extra endif at 0. |
| Builder.PushOpcodeFlow | src/builder.rs:94-98 | After a push, `ContainsFlowOp` holds iff it held before or the pushed opcode is IF, NOTIF or ENDIF. |
| Builder.PushScript | src/builder.rs:209-244 | Appending a literal script grows the size by its encoded length. It adds one literal block and rescans the if-bookkeeping over the new bytes. |
| Builder.WalkRun | src/builder.rs:210-239 | The instruction walk yields the bookkeeping of the whole run and its encoded length. |
| Builder.ScanIfsOk | src/builder.rs:210-239 | Scanning any run keeps the bookkeeping consistent at the end position, and the widest interval never shrinks. |
| Builder.ScanIfsFlow | src/builder.rs:94-98 | After a scan, `ContainsFlowOp`'s test holds iff it held before or the run holds an IF, NOTIF or ENDIF. |
| Builder.PushScriptExpands | src/builder.rs:209-244 | The compiled bytes after `push_script` are the old bytes followed by the pushed script. |
| Builder.PushScriptAsWritten | src/builder.rs:234-240 | The length check as written succeeds exactly when its counter equals the encoded length. |
| Builder.CountedLenAsWrittenExact | src/builder.rs:234-238 | The counter never exceeds the real length. It equals it iff no push carries 76 bytes or more. |
| Builder.PushScriptLongPushPanics | src/builder.rs:236-240 | A single 76-byte push makes the check as written fail. |
| Builder.PushEnvScript | src/builder.rs:246-279 | Splicing a sub-script registers it (unless already present) and appends one call block. The size grows by the sub-script's size. The bookkeeping is merged with the pairing corrected (see Findings) and stays consistent. The registry is extended. The compiled bytes are the caller's followed by the sub-script's. |
| Builder.SpliceIfs | src/builder.rs:248-273 | The bookkeeping loop computes the merge of the two bookkeepings. |
| Builder.CloseAcrossSplice | src/builder.rs:249-263 | The closing loop runs min(open ifs, extra endifs) rounds. Round j pairs the j-th latest open if with the sub-script's j-th extra endif, so exactly those ifs are dropped and the interval is widened over each pair (pairing corrected, see Findings). |
| Builder.MergeIfsConsistent | src/builder.rs:248-273 | Merging two consistent bookkeepings gives one that is consistent for the joined length and at least as wide as either. |
| Builder.CloseIfsBound | src/builder.rs:254-267 | Intervals closed across the splice stay inside the joined script and never shrink. |
| Builder.MergeIfsMatchesRescan | src/builder.rs:248-273 | Splicing a script built from one literal run leaves exactly the bookkeeping that walking the run from the caller's end would leave: same open ifs, extra endifs, count and widest interval. |
| Builder.MergeRecordOpcode | src/builder.rs:248-273 | Recording an opcode of the sub-script and then splicing equals splicing and then recording it at the shifted position. The `push_opcode` rule commutes with the splice. |
| Builder.MergeIfsAsWrittenMispairs | src/builder.rs:253-271 | The splice as written pairs an open if with the sub-script's last extra endif. `IF` + `ENDIF ENDIF` keeps the extra endif at byte 1 and records the interval (0,2). A rescan gives byte 2 and (0,1). `IF IF` + `ENDIF ENDIF` records (1,3) where the rescan gives (0,3). |
| Builder.PushEnvScriptDebugInfo | src/builder.rs:126-147 | After `push_env_script`, the caller's bytes keep their `debug_info` owners. Byte `size + p` is owned as byte `p` of the script registered under the call's id. |
| Builder.PushSlice | src/builder.rs:428-434 | Pushing data adds its encoded length and one push instruction, and leaves the if-bookkeeping and hint unchanged. |
| Builder.IntInstruction | src/builder.rs:407-421 | An integer takes a single byte exactly when it lies in -1..16. |
| Builder.NumberPush | src/builder.rs:422-426 | A non-minimal integer push carries the script-number encoding of the value, at most 9 bytes in all. |
| Builder.PushIntNonMinimal | src/builder.rs:422-426 | The script grows by one length byte plus the script-number bytes. |
| Builder.PushInt | src/builder.rs:407-421 | The script grows by the length of the chosen instruction. Bookkeeping and hint are kept. |
| Builder.PushIntRoundTrip | src/builder.rs:407-421 | Reading back the instruction `push_int` emits gives the pushed number, for every value strictly between -2^31 and 2^31, the range ScriptNum.RoundTrip covers. |
| Builder.PushIntMinNotReadBack | src/builder.rs:407-421 | -2^31 is pushed as the five script-number bytes `00 00 00 80 80`, which the four-byte decoder refuses, so it is not read back. |
| Builder.PushIntVectors | tests/test.rs:7-25 | `push_int` encodings of 1234, 255, -1 and -255 as in the expected bytes. 0 and 16 match `tests/test.rs:82-85`. -1234 is an extra vector that no test states. |
| Builder.DebugInfoFound | src/builder.rs:126-147 | `debug_info` finds an owner exactly for the positions inside the script's expansion. |
| Builder.DebugInfoAppend | src/builder.rs:126-147 | `DebugInfoIn` over `a + b` answers as over `a` for the first `SizeOf(a)` bytes and as over `b`, offset back, for the rest. |
| Builder.DebugInfoSnocScript | src/builder.rs:138-143 | A trailing literal run owns its bytes under the script's identifier. Nothing owns the bytes past it. |
| Builder.DebugInfoExtends | src/builder.rs:131-135 | A call is looked up in the registry, so a larger registry gives the same owners. |
| Builder.AppendToScriptBlockDebugInfo | src/builder.rs:149-160 | Appending an instruction gives its first byte to the script's identifier and keeps the owner of every earlier byte. |
| Builder.AddStackHint | src/builder.rs:381-390 | The hint is set to the given pair and nothing else changes. |
| Builder.AddAltstackHint | src/builder.rs:392-401 | An existing hint is kept. Otherwise the hint becomes the given pair. Nothing else changes. |
| Compiler.Compilation.CompileToBytes | src/builder.rs:283-340 | The output grows by exactly the expansion of the blocks. The cache stays correct and keeps every earlier entry. |
| Compiler.Compilation.CompileBlock | src/builder.rs:285-338 | One block appends its expansion. A call is either copied from the cache or compiled and cached. |
| Compiler.Compilation.CopyCached | src/builder.rs:290-311 | Copying from a cached offset appends exactly the callee's expansion. |
| Compiler.Compilation.EmitRun | src/builder.rs:321-337 | A literal run appends its encoding. |
| Compiler.Compile | src/builder.rs:342-362 | The compiled bytes are the script's expansion, and their length is the script's size. |
| Opcodes.EncodeAppend | src/builder.rs:283-340 | Encoding distributes over concatenation of instruction runs. |
| Opcodes.RunLenEncoded | src/builder.rs:234-240 | The sum of per-instruction lengths equals the encoded length. |
| Opcodes.PushPrefix | src/builder.rs:428-434 | Pushes use the direct length byte below 76 bytes, then `OP_PUSHDATA1`, `2` or `4`. |
| ScriptNum.RoundTrip | src/analyzer.rs:67-80 | Reading back the script number written for any value of magnitude below 2^31 gives the value. |
| ScriptNum.WriteScriptIntVectors | tests/test.rs:7-25 | Script-number bytes of 1234, 255 and -255 as in the expected bytes. 0xd2 matches `tests/test.rs:78-84`. -1234 is an extra vector that no test states. |
| ScriptNum.WriteScriptIntWidth | src/builder.rs:422-426 | A written number takes at most 8 bytes, and none exactly for zero. |
| StackEffect.StackChange | src/analyzer.rs:151-167 | With no open if, the main status is composed with the effect. Otherwise only the innermost open frame changes. The last constant is kept. |
| StackEffect.ComposeAssoc | src/analyzer.rs:151-167 | Sequencing stack effects is associative. |
| StackEffect.ComposeIdentity | src/analyzer.rs:151-167 | `(0,0)` is a right identity exactly on feasible effects, and a left identity exactly on effects that access no positive slot. |
| StackEffect.ComposeSane | src/analyzer.rs:151-167 | Composition keeps statuses sane and never makes the deepest access shallower. |
| StackEffect.OpcodeStackTableSound | src/analyzer.rs:171-256 | Every table entry is feasible. All except CLTV/CSV are sane. Flow and pick/roll opcodes have no entry. |
| StackEffect.OpcodeStackTableVectors | src/analyzer.rs:171-256 | `OpcodeStackTable` entries for DUP, ADD, WITHIN, PUSHDATA1, PUSHNUM_16, CLTV and CSV. |
| StackEffect.IfOpensFrame | src/analyzer.rs:85-88 | `OP_IF`/`OP_NOTIF` applies its table effect and opens a fresh if-frame. |
| StackEffect.ElseRules | src/analyzer.rs:89-96 | `OP_ELSE` succeeds iff the innermost frame is an if-frame, and then turns it into an else-frame. |
| StackEffect.EndIfRules | src/analyzer.rs:97-109 | `OP_ENDIF` fails with no open frame. It requires a zero net change for a lone if, and equal net changes for if/else. It pops one frame and adds the merged effect (the deeper read, the common change) to the enclosing accumulator: the main one for an outermost IF, the current arm of the next frame out for a nested one. |
| StackEffect.PickRollRules | src/analyzer.rs:110-125 | `OP_PICK`/`OP_ROLL` succeed iff a constant precedes them. Their effect, `constant + 1` slots deep with a change of 0 or -1, goes to the main accumulator with no open IF, and to the current arm of the innermost frame inside one; the constant is cleared. |
| StackEffect.UnlistedOpcodeFails | src/analyzer.rs:171-256 | An opcode with no table entry is rejected. |
| StackEffect.LastConstantRules | src/analyzer.rs:67-80 | Opcodes set the last constant only for `OP_PUSHNUM_n`. Sub-scripts clear it. Data pushes set it for numbers 0..1000, clear it for other numbers, and keep it for non-numbers. |
| StackEffect.GetStatus | src/analyzer.rs:146-149 | The status is available exactly when no if is open, and it is the main status. |
| StackEffect.RunBlocksSane | src/analyzer.rs:35-65 | No accumulator ever reads above the top of stack, whatever hints the registry holds; with feasible hints and a feasible start every accumulator also stays feasible. |
| StackEffect.RunBlocksStep | src/analyzer.rs:35-65 | `RunBlocks` over the first `i + 1` blocks is `RunBlocks` over the first `i` followed by block `i`: a run instruction by instruction, a call through `handle_sub_script` of the callee's `get_stack`. |
| StackEffect.RunBlocksPrefixErr | src/analyzer.rs:35-65 | Once the analysis of some prefix of the blocks panics, the whole analysis panics. |
| StackEffect.RunInstrsPrefixErr | src/analyzer.rs:46-60 | Once some prefix of a literal run panics, the whole run panics. |
| StackEffect.HandleInstructionSane | src/analyzer.rs:67-139 | `handle_opcode` and `handle_push_slice` never make an accumulator read above the top of stack, and keep feasible accumulators feasible. |
| StackEffect.RunBlocksRebase | src/analyzer.rs:35-65 | Analysing blocks from a state whose main status is `b` equals analysing them from `(0,0)` and composing onto `b`. |
| StackEffect.GetStackSane | src/builder.rs:374-379 | The status computed for a script without a hint never reads above the top, whatever the registry's hints; with feasible hints every status, hint or computed, is feasible. |
| StackEffect.InlineEqualsSummary | src/analyzer.rs:141-144 | Analysing a run after a prefix gives the run's own summary composed onto the prefix status. |
| StackEffect.CallInline | src/analyzer.rs:38-44 | Handling a call through its summary gives the same status as analysing its blocks inline. |
| StackEffect.ThreeAdds | tests/test_analyzer.rs:6-15 | Three `OP_ADD`s access depth -4 and change the stack by -3. |
| StackEffect.IfBranchExample | tests/test_analyzer.rs:84-97 | `{1} OP_IF {120} OP_ADD OP_ENDIF` gives (-1, 0). |
| StackEffect.InnerFn2Summary | tests/test_analyzer.rs:27-46 | Walking `inner_fn2`'s sixteen instructions from a fresh analyzer ends with no open if, main status (0, 1) and no last constant. |
| StackEffect.TwoInnerFn2CallsThenAdd | tests/test_analyzer.rs:71-80 | With `inner_fn2` registered and called twice, then `OP_ADD`, `GetStack` of `inner_fn2` is (0, 1) and `GetStack` of the whole is (0, 1). |
| Analyzer.StackAnalyzer.constructor | src/analyzer.rs:26-33 | A new analyzer is in the fresh state. |
| Analyzer.StackAnalyzer.StackChange | src/analyzer.rs:151-167 | The object moves to the state the transfer function gives. |
| Analyzer.StackAnalyzer.HandleOpcode | src/analyzer.rs:82-139 | Succeeds exactly when the pure rule does, and then takes its state. |
| Analyzer.StackAnalyzer.HandleElse | src/analyzer.rs:89-96 | Same, for `OP_ELSE`. |
| Analyzer.StackAnalyzer.HandleEndIf | src/analyzer.rs:97-109 | Same, for `OP_ENDIF`. |
| Analyzer.StackAnalyzer.HandlePushSlice | src/analyzer.rs:67-80 | A data push moves to the state of the pure rule. |
| Analyzer.StackAnalyzer.HandleSubScript | src/analyzer.rs:141-144 | A sub-script status moves to the state of the pure rule. |
| Analyzer.StackAnalyzer.GetStatus | src/analyzer.rs:146-149 | Returns the status exactly when no if is open. |
| Analyzer.StackAnalyzer.HandleInstruction | src/analyzer.rs:46-60 | One instruction of a literal run succeeds exactly when the pure rule does, and the object then takes its state. |
| Analyzer.StackAnalyzer.AnalyzeBlock | src/analyzer.rs:37-60 | One block, a literal run or a call through the callee's stack status, succeeds exactly when the pure block rule does, and the object then takes its state. |
| Analyzer.StackAnalyzer.RunScript | src/analyzer.rs:45-61 | The instruction loop succeeds iff the pure run does, ending in its state. |
| Analyzer.StackAnalyzer.Analyze | src/analyzer.rs:35-65 | The block loop succeeds iff the pure analysis does. It returns the final main status. |
| Analyzer.AnalyzeStack | src/builder.rs:364-372 | A fresh analyzer over a script returns exactly its specified stack status. |
| Chunking.NextStep | src/chunker.rs:41-74 | One turn: the new stack stays closed and strictly decreases in the termination measure. |
| Chunking.NextChunk | src/chunker.rs:37-77 | The remaining stack stays closed and is smaller than before. |
| Chunking.Chunks | src/chunker.rs:79-87 | Every chunk holds only closed fragments. |
| Chunking.StepShape | src/chunker.rs:41-74 | A turn that takes the top fragment adds exactly its size to the running length and stays within the target; a turn that stops yields a chunk between target − tolerance and the target holding the accumulated fragments and the top one. |
| Chunking.StepBytes | src/chunker.rs:41-74 | A turn keeps the bytes of the accumulated fragments followed by the stack unchanged, and keeps every fragment closed. |
| Chunking.ExplodedWeight | src/chunker.rs:53-68 | Splitting a fragment into its blocks lowers the call weight of the stack by the number of calls. |
| Chunking.ExplodedBytes | src/chunker.rs:53-68 | Splitting a fragment into its blocks leaves the bytes the stack stands for unchanged. |
| Chunking.NextChunkShape | src/chunker.rs:37-77 | A chunk never exceeds the target. A chunk followed by more work is at least `target - tolerance` long. Each chunk takes at least one fragment. Its length is the sum of its fragments' sizes. |
| Chunking.NextChunkBytes | src/chunker.rs:37-77 | The chunk's bytes followed by the rest of the stack's bytes are the bytes of the input stack. |
| Chunking.ScriptOnlyTooLargeFails | src/chunker.rs:49-69 | A fragment with no calls that does not fit makes the chunker fail with "Not able to chunk up scriptBufs". |
| Chunking.ChunksBounds | src/chunker.rs:79-87 | Every chunk lies in the window, except that the last may be shorter. |
| Chunking.ChunksCover | src/chunker.rs:79-87 | The chunks' bytes, concatenated in order, are exactly the bytes of the stack. |
| Chunking.ChunkScript | src/chunker.rs:27-87 | Chunking a script yields its compiled bytes, and chunks within the window; the size list `find_chunks` returns sums to the script's size. |
| Chunking.LensTotal | src/chunker.rs:79-87 | The returned size list has one entry per chunk, that chunk's length, and sums to the chunks' total length. |
| Chunking.StopOnExact | src/chunker.rs:70-74 | A fragment exactly of the target size closes a chunk on its own. |
| Chunking.ChunksOfCopies | src/chunker.rs:79-87 | A stack of k copies of a target-sized fragment gives k chunks, one per copy. |
| Chunking.UniformCalls | src/chunker.rs:49-87 | A script of k calls to one target-sized sub-script gives k chunks, one per call. |
| Chunking.FourCallsExample | tests/test_chunker.rs:5-23 | Four calls to a two-`OP_ADD` script, target 2 and tolerance 0, give the lengths [2, 2, 2, 2]. |
| Chunking.Chunker.constructor | src/chunker.rs:27-35 | The work stack holds the script alone. No chunks are recorded yet. The size is the script's length. |
| Chunking.Chunker.PushChild | src/chunker.rs:54-66 | A call pushes the registered callee. A literal run pushes a fresh script holding that run. |
| Chunking.Chunker.Explode | src/chunker.rs:52-68 | The loop pushes the blocks' fragments last block first, so the first block is on top. It reports whether any block was a call. |
| Chunking.Chunker.Turn | src/chunker.rs:41-74 | One loop turn does exactly what the specified step does. |
| Chunking.Chunker.FindNextChunk | src/chunker.rs:37-77 | The loop returns exactly the specified next chunk, or the specified error, and leaves the specified rest of the stack. |
| Chunking.Chunker.CutChunk | src/chunker.rs:81-85 | One turn of the outer loop records the next chunk's fragments, shrinks the stack, and leaves the specified chunk sequence equal to the chunks so far followed by the chunks of the new stack; on error the specified sequence is that error. |
| Chunking.Chunker.FindChunks | src/chunker.rs:79-87 | On success it returns the lengths of the specified chunks, records their fragments and empties the stack. Otherwise it returns the specified error. |

## Left out

- Alt-stack effects: the analyzer fields for the alt stack are not modelled. `OP_TOALTSTACK`/`OP_FROMALTSTACK` use their main-stack entries only.
- Builder.AddAltstackHint: `plain_stack_status` is not part of this model. It is taken to return its two arguments as the main-stack pair.
- Fixed-width integers: `i32` statuses, `i64` constants and `usize` sizes are unbounded integers. `i64::MIN` in `push_int`, `usize` overflow of `result_len` and `i32` overflow of `-(x + 1)` are not modelled.
- Builder.PushIntRoundTrip: holds for values strictly between -2^31 and 2^31 only. `push_int` accepts -2^31 as an `i64` too, but writes it as five bytes, which `read_scriptint`'s four-byte limit refuses (Builder.PushIntMinNotReadBack).
- Chunking.NextStep: the `usize` subtraction `target_chunk_size - tolerance` panics in the source when `tolerance > target`. The model returns the error "attempt to subtract with overflow" on the first turn with a non-empty stack. The state left behind by any panic is not modelled beyond the error message.
- Chunking.Chunker.FindChunks: returns a `Result` where the source panics through `assert!`.
- The chunker's `Builder::new()` is modelled as a script with an empty debug identifier.
- The `assert` in `compile` that re-checks minimal pushes is left out, as are script decoding errors (`instructions()` failing) and hashing. Ids are abstract and not content hashes.
- The formatting of `debug_info`, `push_key`, `push_x_only_key`, `push_expression` and the `Pushable` trait implementations are left out. They are conversions into the modelled pushes.
- `is_single_instruction`, `is_script_buf`, `num_unclosed_ifs` and the other field getters are left out. They read fields the model exposes directly.
- The thread-local script map is an explicit registry value, and concurrency is not modelled. The `unsafe` byte copies in `compile_to_bytes` are sequence appends.
- `read_scriptint` follows Bitcoin Core: minimal encoding and at most 4 bytes. This fixes which data pushes count as constants.
- `tests/test_analyzer.rs:49-56` expects (-11, -1) for `inner_fn1`. Under the `OP_ROLL` rule at `src/analyzer.rs:118-125`, that script gives a different status. The code's rule is modelled and the test's numbers are not claimed.
- `tests/test_chunker.rs:26-76` expects chunk borders that respect `OP_IF` blocks. `src/chunker.rs` has no such logic, so the model follows the code.
- StackEffect.GetStack: `analyze_status`, called at src/builder.rs:369 and src/builder.rs:377, is not part of this model. It is taken to be a fresh `analyze` followed by `get_status`. `get_stack` at src/builder.rs:374 takes the caller's analyzer, but `analyze` at src/analyzer.rs:43 calls it with no argument, so the two files come from different revisions. The model runs a fresh analysis per call, as `analyze_stack` does.
- Analyzer.AnalyzeStack: proved against StackEffect.GetStack, so it rests on the same reading of `analyze_status`.
- Chunking.Chunker.PushChild: a literal run becomes a fragment through the corrected `push_script` (see Findings). The source calls `push_script` as written at src/chunker.rs:65, which panics on a run holding a push of 76 bytes or more. That panic is not modelled here.
- StackEffect.ComposeIdentity: `(0,0)` is an identity only on feasible effects (right) and on effects that touch no positive depth (left), not on all pairs.

## Findings

| source | as written | input that shows it | evidently intended | confidence | as-written member | corrected member |
|---|---|---|---|---|---|---|
| src/builder.rs:234-240 | `push_script` advances its position counter by `len + 1` for every data push, then `assert_eq!`s the counter against the script's byte length | a script holding one 76-byte push: its encoding has a 2-byte `OP_PUSHDATA1` prefix (78 bytes), the counter says 77, so the assertion panics | advance by the push's real encoded length, so every well-formed script can be appended | not executed | Builder.PushScriptLongPushPanics | Builder.PushScript |
| src/builder.rs:253-271 | `push_env_script` reads the sub-script's extra ENDIFs from the end (`.iter().rev()`): the caller's latest open IF is paired with the sub-script's LAST extra ENDIF, and the FIRST extras are kept | `IF` followed by a sub-script `ENDIF ENDIF`: the IF is paired with byte 2 and byte 1 is kept as the extra ENDIF, while the joined script closes the IF at byte 1 and byte 2 is extra; with `IF IF` before it, the widest interval comes out (1,3) instead of (0,3) | pair the j-th latest open IF with the j-th extra ENDIF and keep the last extras, so that the splice agrees with walking the joined script | not executed | Builder.MergeIfsAsWrittenMispairs | Builder.MergeIfsMatchesRescan |
