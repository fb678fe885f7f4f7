# Geas in Dafny

Geas is a macro assembler for the EVM. This project models its stack checker, the back end of its
assembler, its disassembler, and its expression parser and printer, and proves what they promise.
`dafny verify dfyconfig.toml` checks all of it.

Each part consists of a specification in functions over values, methods that do what the program does
(loops over a worklist, fields updated in place, tokens consumed one by one) and are proved to agree
with the specification, and lemmas about the specification.

**The stack checker.** `Statements`, `Blocks`, `SymbolicStack`, `StackObject`, `PushLiterals` and
`Propagation` model the division into basic blocks, the symbolic stack with its comments, and the worklist
with its minimum-depth merge; `Reporting` is the second pass with the warnings, `Analysis` puts both
together. `FixedPoint` says what an empty worklist means and `Reachability` which blocks it reaches;
`Termination`, `LateEntry` and `Divergence` say when it empties and when it never does. `Machine` is the
machine that executes a document, defined without the checker; `DepthSoundness` proves that silence means
that no execution of it underflows, `MachineTracks` that the symbolic stack follows it, and `ExactDepth`
and `UnevenJoin` when the analysed depth is exact. `InferredInputs`, `NetLoops` and `InputOrder` are about
the inputs that are inferred, and `Crashes` says when the checker stops. `Tracking`, `CommentExactness`,
`CommentVerdict` and `StackDepth` are about the stack and its comments alone, `MergeVerdict` about comments
where blocks are joined.

**The assembler.** `Ast`, `Arithmetic` and `Evaluator` are expressions and macros; `CompilerProg`,
`Expansion` and `Compiler` the expansion into sections of instructions; `Relaxation`, `Assembly` and
`AssemblyRun` the PUSH sizes that depend on label positions which depend on PUSH sizes; `CodeOutput` and
`LabelAddresses` the layout of the code and the values of labels; `JumpTargets`, `GlobalLabels` and
`DottedJump` where jumps lead. What a program means is said without these: `ExprMeaning` and
`Substitution` give the values of expressions and of macro calls, `Scoping` what names refer to, `Listing`
the list of operations that statements stand for, with the bodies of macros and files in place, and
`ListedCode` and `PushSizes` the bytes of that list. `Inlining` and `InlinedCode` prove that files can be
written in place of their include statements.

**The round trips.** `Lzint` and `Numerals` are numbers that remember their leading zeros. `EvmOps` and
`InstructionSets` are operations, immediates and forks, and `OpAvailability` says which operations a fork
has. `Disassembler`, `CodeParser`, `DisasmParses` and `DisasmRoundTrip` take bytes to text and back, and
`DisasmData` says which bytes become operations. `Lexer`, `Parser`, `ParserObject`, `Printer` and
`ExprRoundTrip` take expressions to text and back, `StmtRoundTrip` statements, and `StackComment` stack
comments; `Grammar` says which operators bind tighter.

What holds only under a condition is proved with the condition, and with the input that fails:

- The worklist need not empty, even if depths agree everywhere (`NeverDrains`). It does if back edges lead
  to dominators (`DominatedDrains`). That is not necessary, and no condition on the block graph and the
  depths is exact (`GraphDoesNotTell`); if a loop is entered from behind, it depends on whether the names
  settle (`LateLoopDrainsIff`).
- No warnings means no underflow for all documents. The depth is at least the analysed one, and exactly
  that if and only if the predecessors of each reached block agree (`AlwaysExactIff`). They need not
  (`AcceptedUneven`), but they do if each block but the first has an earlier predecessor
  (`ForwardIsExact`).
- The retry loop ends unless a loop that avoids the first block pops more than it pushes
  (`RetryEndsWithoutLoops`). Such a loop through the first block goes unnoticed
  (`FirstBlockLoopUnnoticed`), since the entry of the first block is not part of the iteration; the inferred
  inputs are enough for all paths if and only if there is none (`InferredCoversIff`).
- `InferredInputs` is documented to list inputs top first. An extension of the stack by two or more
  items at once lists them bottom first (`GrowListsTopFirstIff`), and what the analysis reports is top first
  if and only if the last propagation starts with at most one item, or with names that read the same in
  both directions (`ReportedTopFirstIff`).
- The check of pushed literals stops the program at a push of a literal with a stack comment that names
  nothing, such as `push 1 ; []` (`CrashIff`).
- An accepted jump lands on a valid destination if and only if its label is at a JUMPDEST (`JumpsLand`). A
  jump to a global label is validated against the definition that is on record at that time. Another
  definition of the name can be instantiated first, and it can be dotted (`AcceptedDottedJump`); without
  dotted definitions of global names all jumps land (`AllJumpsLand`).
- `ValidateImmediate` rejects the EXCHANGE bytes 0x80 to 0xcf, which encoding produces and decoding
  reads (`ValidVersusEmitted`).
- Disassembled code assembles to the same bytes unless a byte below 0x10 is printed as data: it is
  printed with one digit, which `#bytes` rejects (`RoundTrip`).
- A macro call has the value of its body with the arguments in place of the parameters
  (`CallIsSubstitution`), except below builtins that take the text of a literal, which do not look at
  parameters (`QuotedParameter`).
- Deduplicated input names are distinct only if no given name looks like a generated one
  (`DedupedDistinctIff`).

Conditions of the theorems that are about the instruction set (`ValidTarget`, `CompleteTarget`,
`MachineCodes`, `RoundTripTarget`) say that PUSH1 to PUSH32 and JUMPDEST exist with the codes of the EVM,
that names and codes are inverse (which `RegistryInverse` proves of registries whose operations are
identified by name), that names are upper case, and that operations with an immediate are neither pushes
nor jumps. `SmallIsTarget` exhibits an instruction set that meets all of them.
Executions in the depth theorem are those of section 9.4.2 of the Yellow Paper, restricted to stack
depth; valid jump destinations are those of section 9.4.3.

Methods are listed with what they compute; the functions that they agree with are named in their
contracts.

## Model

| member | source | states |
|---|---|---|
| `StackComment.ParseComment` | internal/stack/stackcomment.go:44-86 | returns on every text; the result is the item list or the error that the reading of the text prescribes, with the bracket nesting shared by all items |
| `StackComment.InStream.ParseElem` | internal/stack/stackcomment.go:88-122 | reads one item: up to a comma outside of brackets or the end, without blanks, and rejects mismatched brackets and quotes |
| `StackComment.InStream.SkipSpace` | internal/stack/stackcomment.go:143-156 | advances to the next character that is no blank |
| `StackComment.Render` | internal/stack/stack.go:359-370 | writes the items with separators, in brackets |
| `StackComment.RoundTrip` | internal/stack/stackcomment.go:44-122 | parsing the rendering of a list of items gives back the list if and only if some comment denotes the list |
| `StackComment.ParsedRoundTrip` | internal/stack/stackcomment.go:44-86 | whenever parsing a text succeeds, rendering the items and parsing again gives the same items, through nested brackets, inner commas, blanks and wildcards |
| `StackComment.BlanksIgnored` | internal/stack/stackcomment.go:44-156 | a text and the same text without any blanks parse to the same items, or to the same error |
| `StackObject.Stack.constructor` | internal/stack/stack.go:60-73 | a new stack in the state that Init leaves |
| `StackObject.Stack.Init` | internal/stack/stack.go:104-129 | ends in the specified state: equal names share an item unless a mask of confirmed positions is given |
| `StackObject.Stack.Apply` | internal/stack/stack.go:133-185 | ends in exactly the state, and with the error, that the specification Applied gives for the old state |
| `StackObject.Stack.FindCopies` | internal/stack/stack.go:168-180 | the positions of outputs that are copies of deeper outputs |
| `StackObject.Stack.CheckComment` | internal/stack/stack.go:195-199 | a label comment may not leave out items at the bottom |
| `StackObject.Stack.CheckNames` | internal/stack/stack.go:212-319 | checks and applies a comment as specified, on success and on error |
| `StackObject.Stack.Peek` | internal/stack/stack.go:380-392 | item i; with a wildcard, deeper accesses create items at the bottom |
| `StackObject.Stack.Get` | internal/stack/stack.go:396-407 | item i; in inferred mode or with a wildcard, deeper accesses create items at the bottom |
| `StackObject.Stack.GrowBottom` | internal/stack/stack.go:92-96 | extends the stack by n unnamed items at the bottom; negative n changes nothing |
| `StackObject.Stack.Items` | internal/stack/stack.go:322-329 | the names of the items, top first |
| `StackObject.Stack.InferredInputs` | internal/stack/stack.go:339-348 | the names of the items that growing the stack created |
| `Tracking.NewStackTracks` | internal/stack/stack.go:104-129 | a stack built from names can be valued on given words if and only if positions with equal names hold equal words |
| `Tracking.MergeStackTracks` | internal/stack/stack.go:104-129 | a stack built with a mask of confirmed positions can be valued on any words of its size |
| `Tracking.ApplyTracks` | internal/stack/stack.go:133-185 | if the items can be valued on the words before an operation, then also on the words after it, whatever the comment says |
| `Tracking.RunTracks` | internal/stack/stack.go:133-185 | over any sequence of operations without underflow the symbolic stack has a valuation that matches the concrete stack at every position |
| `Tracking.RunSameItemSameWord` | internal/stack/stack.go:245-263 | after any such run, two positions with the same item hold equal words |
| `CommentExactness.AcceptedExact` | internal/stack/stack.go:212-319 | outside of inferred mode, an accepted comment names exactly the first items of the stack; a label comment without wildcard names all of them |
| `CommentExactness.OwnItemsAccepted` | internal/stack/stack.go:212-329 | on a fully named stack, a comment equal to the stack's own items is accepted and changes no item |
| `CommentExactness.ReachedItemsAccepted` | internal/stack/stack.go:104-329 | after any run of operations and comments from any new stack, a comment equal to the stack's items is accepted and changes none, if all of them have names |
| `CommentExactness.AssignIff` | internal/stack/stack.go:444-480 | an item assigns a name if and only if it is an identifier, an equals sign, and a text that does not start with another equals sign |
| `CommentVerdict.CheckVerdict` | internal/stack/stack.go:212-319 | the error of a comment, told from the stack before the check: its length first, then the first position whose value has another name in the comment, whose name belongs to another value, or that renames a confirmed value |
| `CommentVerdict.NoErrorIff` | internal/stack/stack.go:245-309 | there is no naming error if and only if no position deserves one |
| `CommentVerdict.CopyVerdict` | internal/stack/stack.go:245-263 | a comment that assigns another name to the copy on top is judged, and names the items, as if the copy were an item that the operation creates |
| `CommentVerdict.OwnOrderOnly` | internal/stack/stack.go:281-286 | if all items have names of their own, a comment that uses these names is accepted if and only if it lists the topmost items in their order: exchanged names are rejected |
| `CommentVerdict.AppliedVerdict` | internal/stack/stack.go:133-185 | the error of an operation with a comment is the verdict on the comment for the stack after the operation |
| `CommentVerdict.ReachedVerdict` | internal/stack/stack.go:104-319 | the same as OwnOrderOnly for every stack that operations and comments lead to |
| `StackDepth.AppliedDepth` | internal/stack/stack.go:133-185 | depth does not depend on names: an operation underflows if and only if the stack is smaller than its inputs, then nothing changes, and otherwise the depth changes by outputs minus inputs |
| `StackDepth.LabelDepth` | internal/stack/stack.go:195-319 | a label comment fails if and only if its length differs from the depth, with the error that says which way; a shorter one truncates the stack |
| `Blocks.SplitBlocks` | internal/stackcheck/blocks.go:53-149 | the blocks partition the statements in order; each block is non-empty, starts at a label or after an end, and has exactly the edges of its fall-through and its jump; the index leads to the last block with a label |
| `Propagation.ApplyStatement` | internal/stackcheck/check.go:731-799 | applies the effect of an opcode with its comment, or nothing, and collects the warnings, the push literal check included |
| `Machine.EffectIsAction` | internal/stackcheck/check.go:852-900 | the stack effect that the checker finds for a statement relates the same stacks as what the machine does there: dupn[n] copies the n-th word from the top, swapn[n] exchanges the top with the n-th word and exchange[n, m] the n-th with the m-th, a labelled jump takes its other inputs only, a push adds one word, and other operations replace their inputs by their outputs |
| `MachineTracks.WalkTracks` | internal/stackcheck/check.go:720-799 | if the symbolic stack tracks the machine before some statements and no underflow is found in them, it tracks the machine after them |
| `PushLiterals.CheckPushLiteral` | internal/stackcheck/check.go:825-850 | agreement, a mismatch, or an index out of range, for a pushed literal and the first item of the comment |
| `PushLiterals.NoItemsIff` | internal/stack/stackcomment.go:44-86 | a comment is parsed to no items if and only if its first bracket encloses nothing but blanks |
| `PushLiterals.NumberVerdict` | internal/stackcheck/check.go:825-850 | for a push of a literal and a comment that starts with a decimal number, there is a mismatch if and only if the numbers differ |
| `PushLiterals.NoVerdict` | internal/stackcheck/check.go:825-850 | statements that push no literal, and comments that start with no number, are not compared |
| `Crashes.CrashIff` | internal/stackcheck/check.go:439-850 | the analysis stops with an index out of range, instead of ending with a result, if and only if a block that the graph leads to pushes a literal with a stack comment that has nothing in its brackets |
| `Propagation.WalkBlock` | internal/stackcheck/check.go:720-726 | applies the statements of a block in order |
| `Propagation.ApplyLabelComment` | internal/stackcheck/check.go:427-435 | applies a label comment and drops its errors |
| `Propagation.MergeNames` | internal/stackcheck/check.go:645-676 | the names of the shallowest predecessor; of several, the one with the smallest key |
| `Propagation.MergePredecessor` | internal/stackcheck/check.go:401-423 | records an exit under its predecessor key and recomputes the entry; changed is true if and only if the entry or the wildcard flag differs, or the block was not reached before |
| `Propagation.PropagateStates` | internal/stackcheck/check.go:283-397 | ends in the state after the given number of worklist rounds, and tells if the worklist is empty; never fails on the way |
| `Propagation.ProcessBlock` | internal/stackcheck/check.go:373-393 | the exit of a block from its merged entry, and what the block needs at the bottom in inferred mode |
| `FixedPoint.DrainedIsFixedPoint` | internal/stackcheck/check.go:283-423 | whenever the worklist empties in closed mode, every reached block's exit is its transfer of its entry, every successor records exactly that exit under that key, and every entry is the minimum-depth merge of its recorded predecessors |
| `Termination.AcyclicDrains` | internal/stackcheck/check.go:371-397 | on an acyclic block graph without wildcards the worklist empties, in closed and in inferred mode |
| `Termination.DominatedDrains` | internal/stackcheck/check.go:371-423 | in closed mode without wildcards the worklist empties if depths agree on all edges, nothing underflows and the target of every backward edge dominates its source |
| `Termination.BackEdgeQuiet` | internal/stackcheck/check.go:645-676 | an exit recorded under a later key than an exit of the same depth never becomes the base of the merge |
| `LateEntry.LateLoopDrainsIff` | internal/stackcheck/check.go:371-423 | if depths agree but control enters a loop from a block behind it, the worklist empties if and only if the names at the start of the loop are the same after some number of times around as after one more |
| `Reachability.ReachedIffReachable` | internal/stackcheck/check.go:371-397 | when the worklist is empty, exactly the blocks that the graph leads to from the first one are reached |
| `Reachability.ReachableWarnings` | internal/stackcheck/check.go:439-471 | for stable states, exactly the warnings about blocks that the graph leads to are reported |
| `Divergence.SwapBlocks` | internal/stackcheck/blocks.go:53-149 | the blocks and edges of a concrete document with a swap loop that is first reached from a later block |
| `Divergence.SwapBalanced` | internal/stackcheck/check.go:371-423 | in this document depths agree on all edges and nothing underflows |
| `Divergence.SwapNotDominated` | internal/stackcheck/check.go:371-423 | its back edge does not lead to a dominator |
| `Divergence.NeverDrains` | internal/stackcheck/check.go:371-423 | its worklist is not empty after any number of rounds |
| `Divergence.SwapNames` | internal/stackcheck/check.go:371-423 | each time around the loop exchanges the two names at its start |
| `Divergence.GraphDoesNotTell` | internal/stackcheck/check.go:371-423 | a second document with the same block graph and the same depths has an empty worklist after some rounds, so that no condition on these alone is exact |
| `Reporting.ComputeConfirmed` | internal/stackcheck/check.go:682-705 | the merged names, and the mask of the positions at which all predecessors agree |
| `Reporting.CheckMergeDepth` | internal/stackcheck/check.go:477-500 | warns if and only if forward predecessors disagree in depth where no comment or wildcard allows it |
| `Reporting.CheckLoopBalance` | internal/stackcheck/check.go:505-530 | warns if and only if a back edge has another depth than the forward edges |
| `Reporting.CheckLabelComment` | internal/stackcheck/check.go:542-576 | applies the label comment and gives the warnings it deserves |
| `Reporting.CheckComments` | internal/stackcheck/check.go:439-471 | the warnings of all reached blocks in order, each with the stack of its merged entry; a crash takes its place among them |
| `Reporting.CheckJumpDepth` | internal/stackcheck/check.go:581-631 | warns for a block if and only if some predecessor has the declared depth and another one has not |
| `MergeVerdict.MergeRename` | internal/stackcheck/check.go:542-705 | where blocks are joined, a label comment that gives a new name to one position is an error if and only if all predecessors agree on its name |
| `MergeVerdict.LabelLength` | internal/stackcheck/check.go:542-576 | a label comment of the wrong length is reported, except that one that is too short is not if some predecessor arrives with the declared depth |
| `MergeVerdict.WrongDepthReported` | internal/stackcheck/check.go:542-631 | a statement that leads to a label with another depth than declared is reported, at the label or at the statement |
| `DepthSoundness.NoWarningsNoUnderflow` | internal/stackcheck/check.go:439-530 | depth soundness, for executions of a machine that is defined without the checker: if the worklist empties and phase two is silent, no statement of any execution underflows, control stays at statements of reached blocks, and the depth is at least the analysed depth; exactly that depth if all predecessors of each reached block agree |
| `ExactDepth.AlwaysExactIff` | internal/stackcheck/check.go:439-530 | for a document without warnings, all executions have exactly the analysed depth everywhere if and only if all recorded predecessors of each reached block have the same depth |
| `ExactDepth.ForwardIsExact` | internal/stackcheck/check.go:477-530 | they have it if every block but the first that the graph leads to follows, or is jumped to from, an earlier block that the graph leads to |
| `UnevenJoin.AcceptedUneven` | internal/stackcheck/check.go:477-530 | a concrete document without warnings that has an execution of another depth: two later blocks jump to one block with different depths |
| `DepthSoundness.LabelBlock` | internal/stackcheck/blocks.go:126-149 | a label statement is the first one of the block that the label index names |
| `DepthSoundness.TransferIsEdge` | internal/stackcheck/blocks.go:134-149 | the edges cover every transfer of control: after a block, control is at the start of a successor or at the end |
| `DepthSoundness.QuietMerge` | internal/stackcheck/check.go:477-530 | without merge and loop warnings all predecessors of a block arrive with one depth |
| `Analysis.PropagateUntilSettled` | internal/stackcheck/check.go:229-241 | repeats the propagation with more items at the bottom until nothing is needed; it ends, with exactly the growth, states and inputs of the last propagation, if and only if the specified loop ends within the bounds |
| `Analysis.AnalyzeBlocks` | internal/stackcheck/check.go:217-275 | splits, propagates and reports: the warnings, exit items, inferred inputs and the fall-through, or the crash, are those of the states that the retry loop ends with, and there is no result only if the loop does not end within the bounds; an empty document keeps its items |
| `Analysis.SilentAnalysisIsSafe` | internal/stackcheck/check.go:217-275 | whenever the analysis of a closed document with known opcodes and literal jumps gives no warning, no execution of it underflows |
| `Analysis.AnalysisInputsExact` | internal/stackcheck/check.go:217-275 | in inferred mode the result of the analysis has exactly as many inputs as the deepest position that a path touches which does not return to the first block |
| `Analysis.ClosedNeedsNothing` | internal/stackcheck/check.go:229-241 | in closed mode no propagation needs anything at the bottom, so the retry loop ends with the first one |
| `Analysis.BalancedAnalysisEnds` | internal/stackcheck/check.go:217-275 | with enough rounds the analysis of a balanced closed document whose back edges lead to dominators ends, without retries |
| `Analysis.BalancedDocumentEnds` | internal/stackcheck/blocks.go:53-149 | this holds of the blocks that any document is split into, which have at most two successors each |
| `InferredInputs.TouchIsDeepest` | internal/stackcheck/check.go:720-799 | the touch of a block is the maximum over its statements of inputs minus the height reached so far |
| `InferredInputs.InferredExact` | internal/stackcheck/check.go:229-241 | when the retry loop ends, the number of inferred inputs is the least bound of what the paths touch that do not return to the first block |
| `InferredInputs.RetryEndsIff` | internal/stackcheck/check.go:229-241 | the retry loop ends if and only if some bound holds for what the paths touch that do not return to the first block, given that every propagation drains |
| `NetLoops.RetryEndsWithoutLoops` | internal/stackcheck/check.go:229-241 | given that every propagation drains, the retry loop ends if and only if no loop that can be reached and avoids the first block pops more than it pushes |
| `NetLoops.LoopNeverEnds` | internal/stackcheck/check.go:229-241 | with such a loop the analysis runs forever: it uses up every bound on rounds and retries |
| `NetLoops.InferredCoversIff` | internal/stackcheck/check.go:229-397 | when the retry loop ends, the inferred inputs are enough for all paths, also those that return to the first block, if and only if no loop through the first block pops more than it pushes |
| `InferredInputs.AcyclicInputs` | internal/stackcheck/check.go:229-241 | on an acyclic block graph the retry loop ends, and the number of inputs is exactly the deepest touch of a path, with no overshoot |
| `InferredInputs.NegativeLoopNeeds` | internal/stackcheck/check.go:341-397 | a reached loop that pops more than it pushes and does not go through the first block makes every drained propagation report a need of at least one |
| `InferredInputs.SingleBlockSettles` | internal/stackcheck/check.go:341-397 | a single block settles at once, even if it loops to itself |
| `InferredInputs.FirstBlockLoopUnnoticed` | internal/stackcheck/check.go:341-397 | a concrete net-popping loop at the first block for which no need is reported: its inferred input count is one |
| `InputOrder.PullListsTopFirst` | internal/stack/stack.go:396-421 | items pulled in one by one are listed top first |
| `InputOrder.GrowListsTopFirstIff` | internal/stack/stack.go:411-421 | items created by one extension of n items are listed top first if and only if n is at most one |
| `InputOrder.InputsListedIff` | internal/stackcheck/check.go:341-397 | the items recorded for a document are its inputs top first if and only if the last propagation starts with at most one of them |
| `InputOrder.ReportedTopFirstIff` | internal/stackcheck/check.go:217-275 | the analysis reports the names of the inputs top first if and only if the names of the items that the last propagation starts with read the same in both directions, as they do if it starts with at most one |
| `Effects.Dedup` | internal/stackcheck/effect.go:60-68 | rewrites the names in place: a repeated name gets its number of earlier occurrences as a suffix |
| `Effects.DedupedDistinctIff` | internal/stackcheck/effect.go:60-68 | all names differ afterwards if and only if no given name is one that deduplication makes up for another one |
| `Lzint.FromBytes` | internal/lzint/value.go:80-91 | the number of the bytes, with two zero nibbles for each leading zero byte |
| `Lzint.BytesOfBytes` | internal/lzint/value.go:80-151 | every byte string survives conversion to a value and back |
| `Lzint.OfBytesLen` | internal/lzint/value.go:155-160 | the byte length of a byte string's value is its length |
| `Numerals.ParseNumberLiteral` | internal/lzint/value.go:94-126 | the value or the error of every text, by prefix, leading zero and digits |
| `Numerals.HexLiteralBytes` | internal/lzint/value.go:94-160 | every non-empty hex literal of even length, with either prefix, denotes exactly its decoded digits, and its byte length is half of the digit count |
| `Numerals.HexLiteralParity` | internal/lzint/value.go:139-151 | a hex literal has a byte form if and only if its number of digits is even |
| `Numerals.HexLiteralText` | internal/lzint/value.go:171-192 | a hex literal prints as it was written, in lower case |
| `Numerals.BytesTextRoundTrip` | internal/lzint/value.go:94-192 | parsing the text of a non-empty byte string's value gives the same bytes |
| `Numerals.DecimalRoundTrip` | internal/lzint/value.go:94-126 | reading the decimal text of a number gives the number |
| `EvmOps.DecodeEncoded` | internal/evm/ops.go:584-673 | decoding an immediate inverts encoding, for all integer arguments that can be encoded |
| `EvmOps.EncodeDecoded` | internal/evm/ops.go:519-673 | encoding inverts decoding for every byte that validation accepts |
| `EvmOps.EmittedBytes` | internal/evm/ops.go:620-673 | the bytes that encoding can produce are exactly those outside of 0x5b..0x7f, and for EXCHANGE outside of 0x50..0x7f |
| `EvmOps.EmittedNotCode` | internal/evm/ops.go:620-673 | no encoded immediate is in the range of JUMPDEST and the pushes with data |
| `EvmOps.ValidVersusEmitted` | internal/evm/ops.go:519-528 | validation accepts exactly the bytes that encoding produces, except for the EXCHANGE bytes 0x80..0xcf |
| `EvmOps.ImmediateEffects` | internal/evm/ops.go:539-580 | the declared effects of DUPN, SWAPN and EXCHANGE move words exactly as their decoded immediates say |
| `EvmOps.DupnStackOut` | internal/evm/ops.go:544-551 | fills the output names of DUPN |
| `EvmOps.SwapStackOut` | internal/evm/ops.go:558-580 | fills and swaps the output names of SWAPN and EXCHANGE |
| `InstructionSets.Lineage` | internal/evm/instruction_set.go:139-160 | stops on every registry, cyclic ones included, with the chain of definitions or the error |
| `InstructionSets.ChainAncestors` | internal/evm/instruction_set.go:139-160 | a lineage lists all ancestors of a fork, up to one without parent |
| `InstructionSets.InstructionSet.ResolveDefs` | internal/evm/instruction_set.go:163-196 | the tables of the fork, or the first error in the order of the definitions |
| `InstructionSets.ResolvedInverse` | internal/evm/instruction_set.go:163-196 | definitions whose operations are identified by name keep lookup by name and lookup by code mutual inverses |
| `InstructionSets.RegistryInverse` | internal/evm/instruction_set.go:139-196 | in every instruction set that resolves, of any registry whose operations are identified by name, the two lookups are mutual inverses |
| `OpAvailability.AvailableOps` | internal/evm/instruction_set.go:139-196 | an instruction set has an operation if and only if the newest definition in its lineage that mentions the name adds it |
| `SmallTarget.SmallIsTarget` | internal/evm/ops.go:30-140 | a small instruction set meets all conditions that the theorems put on instruction sets |
| `InstructionSets.RemovedInverse` | internal/evm/instruction_set.go:163-196 | removal keeps the two tables inverse if and only if name and code denote the same operation |
| `InstructionSets.PushNameSize` | internal/evm/instruction_set.go:95-99 | the name made for a push size is a push name of that size |
| `Arithmetic.BitwiseBits` | asm/evaluator.go:233-303 | and, or and xor on integers of any sign are the operations on all bits of the two's complement |
| `ExprMeaning.OperatorMeans` | asm/evaluator.go:233-303 | each operator gives the one number that its defining relation determines, with Euclidean division, shifts that round down and bitwise operations; it fails exactly for a zero divisor and for a shift amount that is negative or has more than 64 bits |
| `ExprMeaning.EvalMeans` | asm/evaluator.go:168-303 | the value of an expression of literals and operators is the number that it stands for, and there is an error if and only if it stands for none |
| `ExprMeaning.BuiltinMeans` | asm/evaluator_builtins.go:51-107 | the builtins that calculate give the magnitude, the least number of bits or bytes for it, or the number of bytes with leading zeros |
| `Evaluator.Evaluator.EvalExpr` | asm/evaluator.go:168-187 | terminates on every program, cyclic macros included; gives the specified result and leaves the stack of macros as it was |
| `Evaluator.Evaluator.EvalMacroCall` | asm/evaluator.go:323-365 | arguments are evaluated in the caller's environment, the body with the macro on the stack |
| `Evaluator.Evaluator.EvalVariable` | asm/evaluator.go:305-321 | a variable is a bound value, or an argument of the instruction macro evaluated at its call site |
| `Evaluator.Evaluator.EvalArith` | asm/evaluator.go:233-303 | left operand first; an error of either operand is the result |
| `Evaluator.StableWithoutLabels` | asm/compiler_eval.go:58-74 | a result obtained while labels are disabled is the same under every later label assignment, so that pre-evaluated arguments never go stale |
| `Evaluator.GuardOnlyRejects` | asm/evaluator.go:374-385 | a value does not depend on the macros that are being evaluated: the guard only rejects |
| `Substitution.CallIsSubstitution` | asm/evaluator.go:323-365 | the value of a macro call is the value of the macro's body with a literal for the value of each argument in place of its parameter, in the macro's document and without the arguments of any instruction macro |
| `Substitution.CallFails` | asm/evaluator.go:341-355 | the first argument without value determines the outcome of the call |
| `Substitution.ParameterIsArgument` | asm/evaluator.go:305-321 | in the body of an instruction macro, a parameter has the value of its argument at the call site |
| `Substitution.LastValue` | asm/evaluator.go:348-355 | of parameters with the same name, the last one counts |
| `Substitution.QuotedParameter` | asm/evaluator_builtins.go:109-220 | a builtin that takes a text does not see parameters, where substitution would: the counterexample to substitution under such builtins |
| `Scoping.InnermostWins` | internal/loader/program.go:81-154 | a local name refers to its definition in the innermost enclosing document that has one, and to nothing if none has |
| `Scoping.GlobalNames` | internal/loader/program.go:81-154 | global names refer to global definitions; an instruction macro with a global name can also be a local definition |
| `CompilerProg.CompilerProg.AddLabelDef` | asm/compiler_prog.go:147-158 | adds a pending label |
| `CompilerProg.CompilerProg.AddInstr` | asm/compiler_prog.go:162-168 | adds an instruction to the current section and links the pending labels to it |
| `CompilerProg.CompilerProg.Push` | asm/compiler_prog.go:118-128 | opens a section inside of the current one |
| `CompilerProg.CompilerProg.Pop` | asm/compiler_prog.go:131-137 | returns to the parent section |
| `CompilerProg.CompilerProg.Finish` | asm/compiler_prog.go:107-115 | labels at the end get an empty instruction |
| `CompilerProg.CompilerProg.IterInstructions` | asm/compiler_prog.go:171-189 | yields what walking the elements prescribes |
| `CompilerProg.CompilerProg.ComputePC` | asm/compiler_prog.go:192-207 | places each instruction after the bytes of all instructions before it, whatever sections lie in between |
| `CompilerProg.FinishedProgram` | asm/compiler_prog.go:107-189 | after expansion, iteration pairs each instruction with exactly the section that was current when it was added, and every label has the instruction that followed it |
| `CompilerProg.AddInstructionWellFormed` | asm/compiler_prog.go:162-168 | adding an instruction keeps the invariant of programs: walk, links and sections agree with the history |
| `Compiler.Compiler.OpcodeStatement` | asm/compiler_expand.go:80-139 | the instructions or the error that each kind of opcode gets |
| `Compiler.Compiler.LabelStatement` | asm/compiler_expand.go:52-70 | a label, with a JUMPDEST unless it is dotted; a global label only once |
| `Compiler.Compiler.ValidateJumpArg` | asm/compiler_expand.go:163-183 | accepts exactly labels that are defined and not dotted |
| `Compiler.Compiler.MacroCallStatement` | asm/compiler_expand.go:186-249 | expands the body in a section of its own, with the arguments; rejects recursion and wrong argument counts |
| `Compiler.Compiler.IncludeStatement` | asm/compiler_expand.go:253-264 | expands the included statements in a section of their own |
| `Compiler.Compiler.BytesStatement` | asm/compiler_expand.go:287-296 | data, with a dotted label if it is named |
| `Compiler.Compiler.CheckDuplicateParams` | asm/compiler_analysis.go:52-60 | one error for each repeated parameter name |
| `Compiler.Compiler.ExpandToplevel` | asm/compiler_expand.go:28-48 | the state after expanding the whole program is the specified one |
| `Expansion.Expand` | asm/compiler_expand.go:28-48 | expansion of statements terminates despite recursive macros, and leaves the macro stack and the section stack as it found them, on success and on error; earlier sections stay |
| `Expansion.ExpandSound` | asm/compiler_expand.go:28-296 | expansion keeps: only immediates have data, non-dotted labels lead to a JUMPDEST, and a jump with a label follows a push of the same label |
| `Expansion.ExpandedProgram` | asm/compiler_expand.go:28-296 | after expanding any program the macro stack is empty, the section stack unwound, and the facts hold that the later stages need |
| `Listing.BodyLists` | asm/compiler_expand.go:28-296 | expansion of statements emits exactly their list, which has the bodies of macro calls and loaded files in place, each instruction in a section with the scope of its body, and reports an error if and only if there is no such list |
| `Listing.ExpansionLists` | asm/compiler_expand.go:28-296 | the same for a whole program: expansion succeeds if and only if the program has a list, and its instructions and labels are then those of the list |
| `ListedCode.ListedProgram` | asm/compiler.go:181-317 | the code of a program that compiles without error consists of one piece for each operation of its list, in order: opcode and data, or a push of the big-endian value of the argument in the scope of the operation, for the positions of these pieces |
| `Inlining.InlinedAlike` | asm/compiler_expand.go:253-264 | the list of statements with included files and the list with the files' statements in place differ in the documents of scopes only |
| `InlinedCode.IncludesInPlace` | asm/compiler_expand.go:253-264 | included files that place no labels and define no local names can be written in place, in any nesting: the program compiles without error if and only if it did before, and has the same code |
| `AssemblyRun.PreEvaluateArgs` | asm/compiler_eval.go:31-76 | initial sizes, and the values of arguments that need no labels; one error for each argument that fails |
| `AssemblyRun.EvaluateArgs` | asm/compiler_eval.go:79-103 | the values of label-dependent arguments, up to the first failure, which is named |
| `AssemblyRun.AssignArg` | asm/compiler_eval.go:110-134 | the shortest big-endian form of the value, if it is not negative, at most 32 bytes long and fits |
| `AssemblyRun.Relax` | asm/compiler.go:204-227 | ends in the specified instructions, after at most as many raises as there is slack |
| `AssemblyRun.RegisterLabels` | asm/evaluator.go:106-115 | the table of the instructions that label instances lead to |
| `AssemblyRun.CheckPCLabels` | asm/compiler_analysis.go:43-49 | one error for each numeric label that is not at the position it claims |
| `AssemblyRun.CompileProgram` | asm/compiler.go:181-246 | all stages in order; the code exists if and only if there are no errors |
| `Relaxation.RelaxedConsistent` | asm/compiler.go:204-227 | on success every label-dependent push holds the big-endian value of its argument for the final positions, which fits; sizes never shrink and stay at most 32 |
| `Relaxation.RelaxedLeast` | asm/compiler.go:204-227 | if no label-dependent argument decreases as positions grow, the final sizes are pointwise no larger than those of any consistent choice of sizes |
| `Relaxation.RelaxedSucceedsIff` | asm/compiler.go:204-227 | if such arguments also have values for all positions, relaxation succeeds if and only if a consistent choice of sizes exists |
| `Relaxation.SlackBound` | asm/compiler.go:204-227 | the slack is at most 31 for each push whose size can be raised |
| `Assembly.RaisesBounded` | asm/compiler_eval.go:31-76 | pre-evaluation gives every such push the size one, so at most 31 raises follow for each |
| `PushSizes.AcceptedIff` | asm/compiler_eval.go:31-134 | an argument is accepted before labels are placed if and only if it is data that converts to bytes, a push of a number that fits into the declared size or 32 bytes, or a push that depends on labels |
| `PushSizes.CompilesIff` | asm/compiler.go:181-246 | a program compiles without error if and only if it has a list, all its arguments are accepted before labels are placed, relaxation succeeds, and numeric labels are where they claim to be |
| `PushSizes.PushIsSmallest` | asm/compiler_eval.go:58-134 | a push without declared size whose argument needs no labels gets the smallest size that holds the value and that the instruction set has |
| `Assembly.BuildReady` | asm/compiler.go:181-246 | after an error-free compilation every push, early or late, has the value of its argument for the final positions in at most 32 bytes, and all data is the value of its expression |
| `CodeOutput.GenerateOutput` | asm/compiler.go:249-317 | the output, and the panics, of all instructions in order |
| `CodeOutput.EmitPiece` | asm/compiler.go:249-317 | opcode, zero padding and data of one instruction, or the bug that makes the compiler panic |
| `CodeOutput.Layout` | asm/compiler.go:249-317 | after an error-free compilation each pc equals the number of bytes emitted before it, no panic can happen and no opcode is unknown |
| `CodeOutput.CodeAt` | asm/compiler.go:249-317 | the bytes of every instruction are at its position in the final code |
| `LabelAddresses.DenotedInstance` | asm/evaluator.go:127-160 | the lookup of a label from a document gives the instruction of the instance that it denotes: that of the nearest enclosing document that has one, and of a global label the one instance |
| `LabelAddresses.ReferenceKnown` | asm/evaluator.go:127-160 | a label reference has a value if and only if a definition is found for it, which is dotted if the reference is, and it denotes an instance of the definition |
| `LabelAddresses.LabelAddress` | asm/evaluator.go:127-160 | after an error-free compilation the value of a label reference is the byte offset of the definition point of the instance that it denotes, across section boundaries |
| `LabelAddresses.OwnAddress` | asm/evaluator.go:106-160 | if no two instances share a key, each label has, in its own document, the byte offset of its own instance as value |
| `JumpTargets.DestinationsExact` | asm/compiler.go:249-317 | in a program without data, the valid destinations of a linear sweep are exactly the positions of JUMPDEST instructions |
| `JumpTargets.SweepVisits` | asm/compiler.go:249-317 | in a program without data, a sweep that skips only push data visits every emitted opcode |
| `JumpTargets.JumpsLand` | asm/compiler_expand.go:80-183 | every accepted jump to a label pushes the offset of the instance that the label denotes from there, which is a valid destination if and only if a JUMPDEST is the first instruction with bytes from there on |
| `JumpTargets.DestinationAt` | asm/compiler.go:249-317 | the position of an instruction is a valid destination if and only if a JUMPDEST is the first instruction with bytes from there on |
| `JumpTargets.OnlyDottedGlobalsFail` | asm/compiler_expand.go:163-183 | an accepted jump misses only if it names a global label and the instance is that of a dotted definition |
| `GlobalLabels.AllJumpsLand` | asm/compiler_expand.go:52-183 | in a program that defines no global label with a dot and names no data globally, every accepted jump lands on a valid destination |
| `DottedJump.AcceptedDottedJump` | asm/compiler_expand.go:163-183 | a concrete program that compiles without errors, to the bytes 60 03 56 00 for every instruction set with these operations: its jump to a global label goes to 3, the STOP after a dotted definition |
| `DottedJump.SmallHasJumps` | internal/evm/ops.go:30-140 | the small instruction set of SmallTarget is one of these |
| `Disassembler.Disassembler.Disassemble` | disasm/disassembler.go:86-115 | writes the specified text for every byte string and every way of printing |
| `Disassembler.Disassembler.PrintPrefix` | disasm/disassembler.go:117-145 | the program counter, or a label of even length before a JUMPDEST and an indent |
| `Disassembler.Disassembler.PrintPush` | disasm/disassembler.go:159-174 | a push with its data, or the rest of the code as data if the push is cut off |
| `Disassembler.Disassembler.PrintImmediate` | disasm/disassembler.go:176-198 | decoded arguments in brackets, or data if the immediate is missing or invalid |
| `Disassembler.Disassembler.PrintNewline` | disasm/disassembler.go:200-211 | one line break, and a blank line at block boundaries |
| `CodeParser.Parse` | internal/ast/parse.go:99-116 | the statements of a text without directives other than #bytes, or none if there is an error |
| `CodeParser.ParseNextStatement` | internal/ast/parse.go:187-245 | skips line tokens, reads one statement, and the line end or comment after it |
| `CodeParser.ParseOpcodeStmt` | internal/ast/parse.go:479-503 | an opcode with immediates and an argument, if there are any |
| `CodeParser.ParseImmediateList` | internal/ast/parse.go:505-538 | one or two numbers of at most eight bits, up to the closing bracket |
| `CodeParser.ParseBytesStmt` | internal/ast/parse.go:454-477 | an expression after at most one name |
| `CodeParser.ParseMacroCallStmt` | internal/ast/parse.go:557-571 | a macro name with arguments, if there are any |
| `DisasmParses.LinesCover` | disasm/disassembler.go:86-115 | the lines of a piece of code stand for exactly its bytes, without gap or overlap |
| `DisasmParses.DisassemblyParses` | disasm/disassembler.go:86-211 | the text parses into one statement for each line and for each printed position; it is rejected if and only if a printed position has more than 32 bits |
| `DisasmData.DisassemblyWrites` | disasm/disassembler.go:86-198 | the statements of a disassembly write the code piece by piece: wherever a defined operation has all of its data and a valid immediate it is written as that operation with these data, and only other bytes are written as data; positions are written where the options say |
| `DisasmRoundTrip.ItemsTruthful` | disasm/disassembler.go:117-145 | every printed position is the number of bytes that the lines before it stand for, so that assembling checks true claims |
| `DisasmRoundTrip.ItemsAssemble` | asm/compiler_eval.go:31-56 | compiling the statements of a disassembly gives no error if and only if no line is printed with a single digit, and then the bytes of the lines |
| `DisasmRoundTrip.RoundTrip` | disasm/disassembler.go:86-198 | assembling the disassembly of any byte string, for any fork and any way of printing, gives no error if and only if no byte below 0x10 at an instruction boundary is printed as data, and then the same bytes |
| `DisasmRoundTrip.UndefinedByteFails` | disasm/disassembler.go:147-149 | any undefined byte below 0x10 is a counterexample: its disassembly parses but does not assemble |
| `ParserObject.Parser.ParseExpr` | internal/ast/parse.go:574-577 | consumes tokens one by one, with the result and the rest of the stream that the grammar prescribes |
| `ParserObject.Parser.ParseArith` | internal/ast/parse.go:580-626 | the loop over operators, with the name behind a dense modulus sign put back as an identifier |
| `ParserObject.Parser.ParseArithInner` | internal/ast/parse.go:628-651 | extends the right operand with operators of higher precedence |
| `ParserObject.Parser.ParsePrimary` | internal/ast/parse.go:653-717 | operands of all kinds, and errors |
| `ParserObject.Parser.ParseUnary` | internal/ast/parse.go:719-732 | only a minus sign, and an operand |
| `ParserObject.Parser.ParseParen` | internal/ast/parse.go:734-757 | a group, with line ends before the closing parenthesis, not empty |
| `ParserObject.Parser.ParseCallArguments` | internal/ast/parse.go:778-793 | arguments up to the closing parenthesis |
| `Printer.Printer.WriteExpr` | internal/printer/printer.go:165-219 | appends the specified text, and keeps the line length |
| `Printer.Printer.WriteArgs` | internal/printer/printer.go:449-461 | appends the arguments of a call, or nothing |
| `ExprRoundTrip.PrintLexes` | internal/printer/printer.go:165-219 | the printed text has exactly the tokens of the tree, although a dense modulus sign merges with a name |
| `ExprRoundTrip.ExprWellFormed` | internal/ast/parse.go:574-757 | every tree that the parser builds from lexer tokens has left operands of at least equal and right operands of strictly higher precedence |
| `ExprRoundTrip.ExprParses` | internal/ast/parse.go:574-757 | the tokens of such a tree parse to the tree, whatever follows |
| `ExprRoundTrip.PrintedParses` | internal/printer/printer.go:165-219 | parsing the printed text of such a tree gives the same tree |
| `ExprRoundTrip.WellFormedIff` | internal/ast/parse.go:574-757 | the trees with these properties are exactly the trees that the parser builds from some text |
| `Grammar.ParsesChain` | internal/ast/parse.go:580-651 | the parser gives a chain of operands the tree whose root is the last plus, minus, bitwise or, or exclusive or, and without these the last operator, with the trees of what comes before and after it |
| `Grammar.ThreeOperands` | internal/ast/arith.go:80-91 | a op1 b op2 c groups to the right if and only if op1 is one of these four operators and op2 is not |
| `Grammar.TwoOperators` | internal/ast/arith.go:80-91 | the tree of a chain of two operators, with the same distinction |
| `Grammar.SignsMean` | internal/ast/arith.go:23-91 | which operator each sign stands for |
| `StmtRoundTrip.StmtReadBack` | internal/ast/parse.go:454-571 | opcodes with immediates and an argument, macro calls with arguments, and named and unnamed data are read back from their tokens, whatever follows |
| `StmtRoundTrip.ImmediatesBounded` | internal/ast/parse.go:505-538 | no list of more than two immediates is read, and no number of more than eight bits |

## Left out

- Propagation.PropagateStates: the worklist loop of the program has no bound; here it has a number of rounds as fuel, and the result tells if the worklist is empty. The theorems on termination say when a sufficient number exists. Edges of external jumps are not modelled.
- Analysis.PropagateUntilSettled: the retry loop is bounded in the same way; `RetryEndsWithoutLoops` says when it ends.
- Analysis.AnalyzeBlocks: the bounds of both loops are parameters, and there are no external jumps in the result.
- Blocks.SplitBlocks: calls of macros and included files whose code ends control flow do not end a block, since statements carry no effect for them.
- Propagation.ApplyStatement: macro and include calls have no effect, and there are no external jump edges.
- Propagation.MergeNames: predecessors are blocks and the initial stack; the virtual predecessors of external jumps are not modelled.
- Propagation.MergePredecessor: no virtual predecessors of external jumps.
- Reporting.ComputeConfirmed: no virtual predecessors of external jumps.
- Reporting.CheckLabelComment: the case of a label with virtual predecessors only does not occur.
- Reporting.CheckComments: the warnings about macro and include calls are missing, and the texts of all warnings.
- Reporting.CheckMergeDepth: returns whether there is a warning, not its text and position.
- Reporting.CheckLoopBalance: returns whether there is a warning, not its text and position.
- Reporting.CheckJumpDepth: which of several equal warnings on one source statement is kept is not modelled, only if there is one; no virtual predecessors.
- InferredInputs.RetryEndsIff: assumes that every propagation drains, which `AcyclicDrains` proves for acyclic graphs and which fails for some cyclic ones.
- NetLoops.RetryEndsWithoutLoops: the same assumption; `LoopNeverEnds` does without it.
- CodeParser.Parse: `#define`, `#include`, `#assemble`, `#pragma` and closing braces are rejected; after an error the program resumes on the next line, here the result is none.
- CodeParser.ParseNextStatement: of the directives only `#bytes` is read, the others are errors.
- DisasmRoundTrip.RoundTrip: the code is at most 2^63 - 1 bytes long, the length of a byte slice.
- InlinedCode.IncludesInPlace: files with labels or local definitions of their own are left as they are, since these names would change their meaning, and so are files that are included from within macros.
- DisasmData.DisassemblyWrites: line breaks, blank lines, upper and lower case and the width of printed positions are not part of the statements; they are those of the functions in `Disassembler`.
- StmtRoundTrip.StmtReadBack: tokens, not text; the program prints expressions only, and disassembled code.
- MachineTracks.WalkTracks: for statements whose comments can be parsed; the others are reported.
- LabelAddresses.LabelAddress: if several instances share a key, as local labels of a file that is included from a macro expanded twice do, a reference denotes the last of them, as in the program; `OwnAddress` is about programs without such labels.
- CompilerProg.ComputePC: the start and end positions of sections, which nothing reads.
- CodeOutput.GenerateOutput: the warnings about unreachable code.
- External jumps out of macros and included files, and the effects of macro and include calls in the stack checker: statements here are opcodes, labels and other statements without effect.
- The limit of 1024 stack items, gas, dynamic jumps and data in the control flow.
- File loading, the resolution of include paths, `assemble()` and the `#assemble` directive, the command line and the Emacs mode.
- The builtins `sha256`, `keccak256`, `selector` and `address` are uninterpreted functions.
- Characters that are not ASCII, in the lexer, in names and in comments; token positions; the channel between lexer and parser.
- Texts of errors and warnings; warnings about unused labels and deprecated macros; the limit on the number of errors.
- Printing of documents: statements, comment columns and quoted file names.
- The opcode table as data: operations are records with a name, a code, stack effects and flags.
