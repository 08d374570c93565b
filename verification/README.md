# Verification of the pattern matchers

This Dafny project models the SNOBOL4 pattern matching of the repository, which decides it
several times over by different machines, and proves each of them against one meaning.

`Denotation` gives the meaning: a pattern, run on a subject from a cursor, yields an ordered
stream of end cursors, the order in which backtracking delivers them, and a mark that says
whether the stream was cut (by ABORT or FENCE, or because a recursion is deeper than the depth
followed). Against it are proved:

1. **The Psi/Omega engine** (`archive/backend/engine.c`): `EngineStep` is the dispatch loop's
   body as a function, `EngineValue` and `EngineProof` show that every turn keeps the first
   result still obtainable, `EngineTermination` that every turn lowers a potential,
   `EngineStacks` and `Engine` are the growing arrays and the loop itself.
2. **Pattern construction and scanning** (`archive/backend/snobol4_pattern_with_engine.c`):
   `Patnd` and `PatndHeap` for the flattening constructors over shared nodes and the right-folded
   materialisation, `Scan` for leftmost matching and replacement.
3. **The chunk compiler** (`archive/ir/lower.py`, `archive/backend/emit_jvm.py`): `Lowering` and
   `ByrdIr` for the four-port code and its label machine, `LoweringProof`, `LoweringRuns` and
   `LoweredProgram` for its meaning, `Jvm`, `JvmEmitter` and `JvmProgram` for the switch program
   with integer states.
4. **The function compiler** (`archive/backend/emit_c.py`, `archive/backend/runtime.c`):
   `FuncIr` is a small-step machine for the generated C functions with their frames in the
   arena, `FuncEmitter` the code generator, `FuncSpec` what is to be delivered, `FuncArena` the
   frames a derivation keeps and asks for, `FuncFrames` to `FuncSession` the proof that a
   function enumerates its pattern's ends or overflows the arena at such a frame, `Optimiser`,
   `OptimiserProof`, `OptimiserRuns` and `OptimiserResult` the jump-threading pass, its
   simulation proof and its exact result, `FuncGenerator` the whole generated file, `FuncTotal`
   and `FuncBounds` its completeness without left recursion and the arena that suffices,
   `FuncLeft` what happens with left recursion. `Runs` holds what all machines share.
5. **Artefacts with exact languages**: a^n b^n, decided by a counting scan and by the compiled
   pattern (`Anbn`), by the generated engine as it stands in `bench/gen_anbn.c` (`GenAnbn`) and by
   the table-driven parser (`AnbnParser`); the generated engine for (a|b)*abb (`AorbStarAbb`); and
   the machine code for a literal, written and patched byte by byte (`LitBox`), under the
   instructions of `X86`, run in `LitBoxRuns`.
6. **Token round trip** (`archive/frontend/lex.c`, `archive/frontend/parse.c`): `Lexer` for both
   tokenisers, `TokenShapes` for what each token is in terms of characters, `TokenText` for
   rendering a token and when it is read as itself again, `TokenRoundTrip` for whole bodies.

Strings stand for the bytes (C) or characters (Java) that the programs see; subjects and
character sets hold no NUL. SPAN differs between the machines, as it does in the repository:
the engine keeps the longest run only, the compiled functions give characters back one by one.

Findings:

- `match_pattern_at` moves POS by the cursor twice: it finds what the pattern with each POS(n)
  replaced by POS(n - cursor) matches there (`Scan.MatchedFromCursorIsShifted`).
- The chunk compiler advances by encoded bytes over a subject indexed by characters, so a
  literal is right exactly if it is ASCII (`LoweredProgram.LitIsRightIffAscii`).
- Every call of a generated function returns or overflows the arena, whatever the recursion
  (`FuncLeft.EveryCallEnds`). A pattern whose leftmost path comes back to it overflows on every
  subject (`FuncLeft.LeftRecursionOverflows`). `FuncTotal.NoLeftRecursion` is sufficient for the
  complete enumeration, not necessary: left recursion behind a part that fails does no harm.
- The comment above the arena in `archive/backend/runtime.c` speaks of 64 KB; the constant is
  4 MiB, and the model follows the code.
- yyparse never returns 0: after the whole text is reduced the parser asks for one token more and
  gets the end mark a second time. Only the result variable tells (`AnbnParser.Parser.Yyparse`).
- The engine in `bench/gen_anbn.c` does not give frames back when a call fails, as the compiler's
  present output does; its arena of 4096 bytes overflows from 51 leading a's on
  (`GenAnbn.EngineAnbn`).
- The (a|b)*abb engine stops at 64 repetitions, so that it is right up to 67 characters
  (`AorbStarAbb.EngineAorbStarAbb`).
- The literal box is right for up to 14 bytes; from 15 on a jump distance no longer fits a byte
  (`LitBox.PatchesFit`, `LitBoxRuns.FifteenBytesJumpOut`).
- A body is read again as the tokens it was queued as exactly if no token outgrows its scratch
  buffer, the whole does not outgrow the body buffer, there are at most 2048 tokens, and no token
  joins the text after it (`TokenRoundTrip.RoundTrip`); a body without illegal characters has no
  tokens that join (`TokenRoundTrip.LegalRoundTrip`), while one with illegal characters may
  (`TokenRoundTrip.IllegalJoinsNeighbours`).
- The comment above `_optimize_body` promises that every block nothing names is removed; the
  code keeps those of more than one line, and the model follows the code.

## Model

| member | source | states |
|---|---|---|
| Denotation.LeafEnd | archive/backend/engine.c:216-289 | the one end a scanner accepts lies between the cursor and the end of the subject |
| EngineProof.ScanIsLeafEnd | archive/backend/engine.c:207-289 | each scanner succeeds exactly where the pattern's one end is, and leaves the cursor there |
| EngineProof.ConcedeAddsNothing | archive/backend/engine.c:338-341 | a child that concedes where an older choice has the same arms left loses nothing: the entry left behind at line 338 only repeats failed arms |
| EngineProof.PiDescends | archive/backend/engine.c:334-335 | entering the next arm of an alternation, with the choice saved, keeps the first result still obtainable |
| EngineProof.PiExhausted | archive/backend/engine.c:336-341 | an alternation without arms left gives way to the older choices without losing a result |
| EngineProof.PiAdvances | archive/backend/engine.c:338-340 | moving to the next arm keeps the first result still obtainable |
| EngineProof.SigmaDescends | archive/backend/engine.c:343-344 | entering the next part of a sequence keeps the first result still obtainable |
| EngineProof.SigmaCompletes | archive/backend/engine.c:345-348 | a completed sequence succeeds with the cursor of its last part |
| EngineProof.SigmaMovesOn | archive/backend/engine.c:349-352 | the cursor of a part is committed before the next one, and no result is lost |
| EngineProof.SigmaBacktracks | archive/backend/engine.c:353-356 | a failed part hands over to the newest choice, whose value is what was still obtainable |
| EngineProof.OptDelivers | archive/backend/engine.c:364-372 | every case of the optional pattern: first the empty match, then the child |
| EngineProof.ArbYields | archive/backend/engine.c:392-393 | ARB matches one character more each time it is resumed, shortest first |
| EngineProof.ArbExhausted | archive/backend/engine.c:394-397 | ARB past the end of the subject gives way to older choices |
| EngineProof.FenceDelivers | archive/backend/engine.c:406-411 | FENCE matches empty and, resumed, ends the whole match |
| EngineProof.LeafDelivers | archive/backend/engine.c:450-490 | every scanner case: success continues, failure concedes, the first result still obtainable stays the same |
| EngineProof.StepDelivers | archive/backend/engine.c:325-555 | one turn of the loop, for every node type of the fragment and every signal it can meet: the next configuration is in order (path, cursors, saved choices, no unhandled pair) and the first result still obtainable is unchanged |
| EngineTermination.StepFalls | archive/backend/engine.c:325-405 | every turn lowers the potential, although an alternation whose child concedes keeps its saved entry and tries arms again |
| EngineTermination.EnteringStraight | archive/backend/engine.c:325-360 | the potential of scanners and sequences of them, nested or not, is at most the pattern's size |
| EngineStacks.PsiStack.Push | archive/backend/engine.c:32-38 | the pushed frame is on top of the old contents, also when the array is reallocated |
| EngineStacks.PsiStack.Pop | archive/backend/engine.c:40-47 | returns the top frame and leaves the rest, or reports an empty stack |
| EngineStacks.PsiStack.Snapshot | archive/backend/engine.c:49-56 | a fresh copy with the stack's contents; of an empty stack, an array of no elements, where the source has none |
| EngineStacks.PsiStack.Restore | archive/backend/engine.c:58-66 | afterwards the contents are those of the snapshot |
| EngineStacks.OmegaStack.Push | archive/backend/engine.c:108-116 | saves state and a copy of the continuation; earlier entries keep their copies |
| EngineStacks.OmegaStack.Pop | archive/backend/engine.c:118-130 | restores state and continuation exactly as saved, whatever happened to the live stacks since; with no entry, no current node |
| Engine.Machine.ZDown | archive/backend/engine.c:148-162 | descends into a child and remembers the way back |
| Engine.Machine.ZUp | archive/backend/engine.c:164-167 | returns to the parent, or to no node at all |
| Engine.Machine.Move | archive/backend/engine.c:207-214 | moves the cursor when the target lies within the subject |
| Engine.Machine.ScanSpan | archive/backend/engine.c:238-248 | the longest run of the set, at least one character |
| Engine.Machine.ScanBreak | archive/backend/engine.c:250-257 | stops before the first character of the set |
| Engine.Machine.ScanOne | archive/backend/engine.c:224-236 | one character in, or not in, the set |
| Engine.Machine.ScanLiteral | archive/backend/engine.c:216-222 | the literal's text at the cursor |
| Engine.Machine.Scan | archive/backend/engine.c:207-289 | every scanner does what the pure step says |
| Engine.Machine.TurnPi | archive/backend/engine.c:334-341 | the alternation cases change the machine as the pure step says |
| Engine.Machine.TurnSigma | archive/backend/engine.c:343-356 | the sequence cases change the machine as the pure step says |
| Engine.Machine.TurnOpt | archive/backend/engine.c:364-372 | the optional cases change the machine as the pure step says |
| Engine.Machine.TurnArb | archive/backend/engine.c:392-397 | the ARB cases change the machine as the pure step says |
| Engine.Machine.TurnFence | archive/backend/engine.c:406-417 | the bare FENCE cases change the machine as the pure step says |
| Engine.Machine.TurnLeaf | archive/backend/engine.c:450-490 | the scanner cases change the machine as the pure step says |
| Engine.Machine.Turn | archive/backend/engine.c:331-554 | one turn of the dispatch on (type, signal), over the real stacks, is one pure step |
| Engine.InitDelivers | archive/backend/engine.c:308-322 | the initial configuration is in order and delivers the first end of the pattern |
| Engine.EveryRunDelivers | archive/backend/engine.c:325-561 | over any number of turns, what is still deliverable never changes |
| Engine.RunsStop | archive/backend/engine.c:325-405 | a run stops within as many turns as its potential |
| Engine.EngineIsExact | archive/backend/engine.c:300-573 | a run that stops within k turns, k any number, reports a match exactly when the pattern has an end, and then the first end in backtracking order |
| Engine.PotentialIsEnough | archive/backend/engine.c:324-330 | as many turns as the potential of the start are always enough for the run to stop |
| Engine.StraightStops | archive/backend/engine.c:324-330 | a pattern of scanners and sequences, of a size of up to ten million, is never stopped by the iteration limit |
| Engine.TurnIsSound | archive/backend/engine.c:325-555 | a turn keeps the configuration in order and the cursor within the subject, and brings the end of the run closer |
| Engine.EngineMatchEx | archive/backend/engine.c:300-573 | the whole function: what at most 10,000,000 turns report; the first end of the pattern, or no match, whenever the run stops within them; never an end past the subject |
| Laws.SeqSplits | archive/backend/engine.c:343-352 | a sequence may be split anywhere without changing its ends or their order |
| Laws.AltSplits | archive/backend/engine.c:334-341 | an alternation may be split anywhere without changing its ends or their order |
| Laws.ChoiceEnds | archive/backend/engine.c:334-341 | an alternation of two: the ends of the first, then those of the second, unless the first is cut |
| Laws.SequenceEnds | archive/backend/engine.c:343-356 | a sequence of two: from each end of the first in turn the ends of the second, until one is cut |
| Laws.OptionalEnds | archive/backend/engine.c:364-372 | an optional pattern: first the empty match, then the pattern's ends |
| Laws.EndsAreAhead | archive/backend/engine.c:207-214 | no pattern ends before the cursor |
| Laws.ShiftEnds | archive/backend/engine.c:284-291 | matching the rest of a subject with POS and TAB counted from the whole finds the same ends, shifted |
| Patnd.MaterialisedEnds | archive/backend/snobol4_pattern_with_engine.c:729-745 | right-folded materialisation has the ordered ends of the n-ary tree |
| Patnd.TipEnds | archive/backend/snobol4_pattern_with_engine.c:600-727 | for every kind of leaf the exact ends, said of the characters of the subject: TAB ends at its argument, RTAB as far from the end, ARB everywhere from the cursor on, FENCE at the cursor and nowhere after, and so on |
| Patnd.EmptyTreeEnds | archive/backend/snobol4_pattern_with_engine.c:729-745 | a sequence or alternation without children matches the empty string |
| Patnd.BuiltIsFlat | archive/backend/snobol4_pattern_with_engine.c:286-298 | whatever the nesting of calls, no concatenation stands directly under a concatenation, nor an alternation under an alternation |
| Patnd.BuiltEnds | archive/backend/snobol4_pattern_with_engine.c:273-323 | flattening keeps the ordered ends of what was written |
| Patnd.FlattenThenFold | archive/backend/snobol4_pattern_with_engine.c:273-323 | construction and materialisation together keep the ordered ends of what was written |
| Patnd.CatOfTwo | archive/backend/snobol4_pattern_with_engine.c:286-298 | two trees concatenated, flattened, have the ends of the sequence of the two |
| Patnd.AltOfTwo | archive/backend/snobol4_pattern_with_engine.c:309-323 | two trees alternated, flattened, have the ends of the alternation of the two |
| PatndHeap.PatNode.AppendChild | archive/backend/snobol4_pattern_with_engine.c:288-296 | one more child at the end; the other children and the appended node are untouched |
| PatndHeap.PatNode.AbsorbChildren | archive/backend/snobol4_pattern_with_engine.c:288-290 | takes over all children of a node of the same kind, in order, without changing that node |
| PatndHeap.PatToPatnd | archive/backend/snobol4_pattern_with_engine.c:255-267 | strings and printed numbers become literals, the null value the empty literal, other values nothing |
| PatndHeap.CatMatches | archive/backend/snobol4_pattern_with_engine.c:273-299 | what concatenation returns matches as the sequence of the operands, as the only operand, or as the empty match |
| PatndHeap.AltMatches | archive/backend/snobol4_pattern_with_engine.c:302-323 | what alternation returns matches as the choice of the operands, the left one first, as the only operand, or as the empty match |
| PatndHeap.Combine | archive/backend/snobol4_pattern_with_engine.c:273-323 | a new node holding the flattened operands, neither operand changed, and the cases of an operand that is no pattern |
| PatndHeap.PatCat | archive/backend/snobol4_pattern_with_engine.c:273-299 | matches the left operand and then the right one, texts and printed numbers as literals, the null value as the empty literal; with one operand missing the other one, with both the empty match; nests of calls build the tree of the nest; no input node is mutated |
| PatndHeap.PatAlt | archive/backend/snobol4_pattern_with_engine.c:302-323 | matches the left operand or else the right one, with the same readings of the operands; nests of calls build the tree of the nest; no input node is mutated |
| PatndHeap.Materialise | archive/backend/snobol4_pattern_with_engine.c:640-745 | the engine pattern of the node graph is that of its tree |
| PatndHeap.FoldChildren | archive/backend/snobol4_pattern_with_engine.c:729-745 | the loop from the last child to the first builds the right fold |
| Scan.AttemptEnds | archive/backend/snobol4_pattern_with_engine.c:1102-1119 | an attempt on the rest of the subject finds the match there is in the whole subject, positions counted absolutely |
| Scan.TryMatchAtRoot | archive/backend/snobol4_pattern_with_engine.c:1102-1119 | one attempt: the first end found at the front of the rest of the subject, or no match, if this run stops before the engine's limit |
| Scan.Leftmost | archive/backend/snobol4_pattern_with_engine.c:1251-1272 | the scan finds the least start with a match and its first end, or that there is none anywhere, if each attempt it comes to stops before the engine's limit |
| Scan.AttemptDecides | archive/backend/snobol4_pattern_with_engine.c:1179-1188 | an attempt either is the leftmost match or rules out one more start; it needs the engine's limit for this start only |
| Scan.LeftmostIsUnique | archive/backend/snobol4_pattern_with_engine.c:1251-1272 | there is at most one such answer |
| Scan.MatchPattern | archive/backend/snobol4_pattern_with_engine.c:1143-1191 | true exactly if the pattern matches somewhere (at the start when anchored), if each attempt made stops before the engine's limit; strings are searched for as such; other values never match |
| Scan.MatchGoesAhead | archive/backend/snobol4_pattern_with_engine.c:1102-1119 | no match ends before it starts |
| Scan.MatchAndReplace | archive/backend/snobol4_pattern_with_engine.c:1232-1289 | the leftmost match, up to its first end, is replaced: everything before it, the replacement and everything after it stand in the result, character by character, and nothing else; otherwise the subject stays as it is |
| Scan.MatchAtMeaning | archive/backend/snobol4_pattern_with_engine.c:1160-1191 | the scanned pattern matches where the n-ary reading of the tree matches |
| Scan.LeftmostOfWritten | archive/backend/snobol4_pattern_with_engine.c:273-323 | construction, materialisation and scan together find the leftmost match of what was written |
| Scan.MatchPatternAt | archive/backend/snobol4_pattern_with_engine.c:1208-1230 | an anchored match at a cursor; values that are no patterns match as literals or as the empty string |
| Scan.MatchedFromCursorIsShifted | archive/backend/snobol4_pattern_with_engine.c:657-663 | for every tree, match_pattern_at answers what the tree with each POS(n) replaced by POS(n - cursor) should: POS is moved by the cursor when materialised and again when scanned |
| Scan.MatchedFromCursorIsExact | archive/backend/snobol4_pattern_with_engine.c:1208-1230 | without POS, or at cursor 0, the match at the cursor is the right one |
| Scan.PosIsOffsetTwice | archive/backend/snobol4_pattern_with_engine.c:657-663 | a bare POS holds at twice the cursor, and is right exactly when that makes no difference |
| Scan.PosAtCursorOneFails | archive/backend/snobol4_pattern_with_engine.c:657-663 | POS(1) at cursor 1 of a two-character subject should match and does not |
| Labels.SerialOfDecimal | archive/ir/lower.py:40-49 | the number at the end of a generated name can be read back, so that names with different counters differ |
| ByrdIr.Utf8LenOfAscii | archive/ir/lower.py:223-227 | encoded length equals length exactly for ASCII text |
| ByrdIr.Utf8LenOfOne | archive/ir/lower.py:223-227 | one byte up to U+007F, two up to U+07FF, three up to U+FFFF, four beyond |
| ByrdIr.Utf8LenAdds | archive/ir/lower.py:223-227 | the encoded length of a text is that of its parts together |
| Lowering.Lowerer.Draw | archive/ir/lower.py:40-49 | every draw has a new counter at its end |
| Lowering.Lowerer.Emit | archive/ir/lower.py:213-318 | appends the chunks of the node, in order, to the shared list and advances the counter |
| Lowering.Lowerer.EmitSeq | archive/ir/lower.py:266-285 | the sequence case: the four drawn labels, the two wiring chunks, then both parts |
| Lowering.Lowerer.EmitAlt | archive/ir/lower.py:288-318 | the alternation case: the slot and six labels, the four wiring chunks, then both arms |
| LoweringProof.NoCut | archive/ir/lower.py:213-318 | the patterns lowered here have complete streams of ends |
| LoweringProof.LeafIs | archive/ir/lower.py:223-264 | what a literal, ANY, NOTANY, POS and RPOS match, said of the characters of the subject |
| LoweringProof.SuspendedFrame | archive/ir/lower.py:298-317 | a suspended node depends on its own slots only |
| LoweringRuns.Enter | archive/ir/lower.py:213-318 | entered at alpha, the chunks of a node reach gamma at its first end or omega with the cursor unmoved, in any surrounding code that leaves its slots alone |
| LoweringRuns.Resume | archive/ir/lower.py:213-318 | re-entered at beta, the chunks reach gamma at the next end, or omega with the cursor where the node was entered |
| LoweringRuns.GoOnRight | archive/ir/lower.py:276-284 | the right part is tried from each end of the left part in turn |
| LoweringRuns.LeaveLeft | archive/ir/lower.py:309-315 | when the left arm has no ends left the right arm is entered; until then its beta is remembered |
| LoweredProgram.LowerIsDistinct | archive/ir/lower.py:213-318 | no two chunks have the same name |
| LoweredProgram.LowerIsWired | archive/ir/lower.py:213-318 | the emitted chunks are the wiring that the runs are about |
| LoweredProgram.RootReaches | archive/backend/emit_jvm.py:310-322 | from the root ports the code succeeds at the first end, or concedes, wherever the module's counter was at |
| LoweredProgram.LitIsRightIffAscii | archive/ir/lower.py:223-227 | a lowered literal is right on every subject exactly if it is ASCII: the cursor moves by encoded bytes, the subject is indexed by characters |
| LoweredProgram.AccentIsMissed | archive/ir/lower.py:223-227 | a one-letter accented literal does not match itself |
| Jvm.JavaIdKeepsSerial | archive/backend/emit_jvm.py:290-292 | turning a name into a Java identifier keeps the counter at its end |
| Jvm.BlocksAgree | archive/backend/emit_jvm.py:88-197 | the Java statements of a chunk do what the chunk does, states being numbers and slots indices |
| Jvm.JumpsAgree | archive/backend/emit_jvm.py:88-105 | the jump through an int local goes where the jump through the label slot goes |
| JvmEmitter.CollectAllCovers | archive/backend/emit_jvm.py:67-71 | every label a slot can hold is in its table |
| JvmEmitter.LabelMap.Get | archive/backend/emit_jvm.py:43-47 | a number per label, no two labels sharing one, earlier numbers kept |
| JvmEmitter.Emitter.CollectTmpTargets | archive/backend/emit_jvm.py:67-71 | the tables of all slots, in order of appearance |
| JvmEmitter.Emitter.EmitInsn | archive/backend/emit_jvm.py:88-114 | the statement emitted is the encoding of the instruction |
| JvmEmitter.Emitter.EmitChunks | archive/backend/emit_jvm.py:73-86 | one case per chunk, each the encoding of its chunk under the final numbers |
| JvmProgram.SlotsApart | archive/ir/lower.py:298-317 | slots of one program have different counters |
| JvmProgram.IdentifiersApart | archive/backend/emit_jvm.py:290-292 | and so different Java identifiers |
| JvmProgram.RootIsWellNamed | archive/backend/emit_jvm.py:310-322 | chunk names are distinct and none is called like the two final labels |
| JvmProgram.StepsAgree | archive/backend/emit_jvm.py:233-283 | the switch program and the chunk machine take the same step in corresponding states, or both stop |
| JvmProgram.RunsAgree | archive/backend/emit_jvm.py:256-283 | a run of the chunk machine to a final label is answered by the Java method, true exactly at the label of success |
| JvmProgram.AnswersAgree | archive/backend/emit_jvm.py:256-283 | and an answer of the Java method comes from a run of the chunk machine to that final label |
| JvmProgram.GeneratedProgramDecides | archive/backend/emit_jvm.py:310-322 | the Java method returns, and returns whether the pattern matches at the start of the subject; lowered at any state of the counter |
| JvmProgram.CompileToJava | archive/backend/emit_jvm.py:310-322 | for ASCII literals the emitted class, on every subject, returns whether the pattern matches at its start; for all patterns it implements the lowered chunks |
| JvmProgram.Generate | archive/backend/emit_jvm.py:233-283 | the generated program has a case for every chunk, the two final states, and declared locals |
| FuncIr.Total | archive/backend/runtime.c:47-48 | a frame takes its payload and a header, rounded up to the next multiple of 8 |
| FuncEmitter.Emitter.Fresh | archive/backend/emit_c.py:209-211 | every draw has a new counter |
| FuncEmitter.Emitter.EmitNode | archive/backend/emit_c.py:216-350 | appends the labelled lines of the node and advances the counter |
| FuncEmitter.Emitter.EmitCat | archive/backend/emit_c.py:274-289 | the sequence case: four own blocks around those of both parts |
| FuncEmitter.Emitter.EmitAlt | archive/backend/emit_c.py:219-234 | the alternation case: five own blocks around those of both arms |
| FuncEmitter.Emitter.EmitFunction | archive/backend/emit_c.py:480-486 | the blocks of one pattern's function, counter carried over |
| FuncFrames.SuspendedFrame | archive/backend/emit_c.py:220-289 | a suspended node depends on its own fields and its own part of the arena only |
| FuncParts.LeafIs | archive/backend/emit_c.py:236-272 | what a literal, LEN, POS, RPOS and SPAN match, said of the characters of the subject; SPAN its longest run first and then one character less each time |
| FuncLeaves.EnterLit | archive/backend/emit_c.py:236-244 | a literal: its end if the text is there, else failure with the cursor unmoved |
| FuncLeaves.EnterLen | archive/backend/emit_c.py:254-259 | LEN: the cursor n further if the subject is long enough |
| FuncLeaves.EnterPos | archive/backend/emit_c.py:246-252 | POS and RPOS: the cursor itself, if it is where it must be |
| FuncLeaves.EnterSpan | archive/backend/emit_c.py:261-269 | SPAN: the longest run first |
| FuncLeaves.ResumeSpan | archive/backend/emit_c.py:270-272 | SPAN resumed: one character less, down to one, then failure with the cursor restored |
| FuncArena.FullStops | archive/backend/runtime.c:48-51 | a frame that does not fit ends the run |
| FuncArena.SuspendedShape | archive/backend/emit_c.py:335-350 | a suspended node keeps exactly the frames of its derivation |
| FuncCalls.ToCall | archive/backend/emit_c.py:335-346 | a reference comes to the call with entry 0, its field cleared |
| FuncCalls.OpenStep | archive/backend/emit_c.py:335-346 | the call with entry 0, if its frame fits: a zeroed frame on top of the arena, linked from the caller's field |
| FuncCalls.Reopen | archive/backend/emit_c.py:347-350 | the call with entry 1 resumes the frame in the caller's field |
| FuncCalls.ReturnNone | archive/backend/runtime.c:63-69 | a callee that fails gives its frame back: the arena position and the caller's field are as before the call |
| FuncCalls.Return | archive/backend/emit_c.py:343-350 | after the callee's answer the caller goes on at success or failure, with the callee's next end |
| FuncRuns.Enter | archive/backend/emit_c.py:216-350 | entered at alpha, the blocks of a node reach success at its first end and suspended in the arena, or failure with cursor and arena position unmoved, changing no other field and no older frame; or the calls nest deeper than the stream follows references; or the run stops at a call whose frame does not fit, one of those the node may ask for |
| FuncRuns.Resume | archive/backend/emit_c.py:216-350 | resumed at beta, the blocks reach success at the next end, or failure with cursor and arena position as when the node was entered, or one of the other two outcomes |
| FuncRuns.GoOnRight | archive/backend/emit_c.py:280-289 | the right part is tried from each end of the left part in turn |
| FuncRuns.LeaveLeft | archive/backend/emit_c.py:226-230 | when the left arm has no ends left the right arm is entered |
| FuncRuns.EnterRef | archive/backend/emit_c.py:335-346 | a reference delivers the ends of the named pattern, or its frame does not fit |
| FuncProgram.BlocksDistinct | archive/backend/emit_c.py:209-350 | no two blocks of a function have the same label |
| FuncProgram.FunctionIsWired | archive/backend/emit_c.py:480-550 | a whole function, return labels included, is the wiring that the runs are about |
| FuncSession.FunctionYields | archive/backend/emit_c.py:538-550 | called with entry 0 and then entry 1 again and again, a function leaves the cursor at the successive ends, then answers empty with cursor and arena position restored, or overflows the arena at a frame its derivations ask for |
| FuncSession.OverflowIsFinal | archive/backend/runtime.c:48-51 | a call that overflows the arena does not return |
| FuncSession.NoOverflow | archive/backend/runtime.c:48-51 | if the arena holds every frame asked for, no call overflows it |
| FuncSession.NothingToResume | archive/backend/emit_c.py:544 | without a frame, entry 1 answers empty and changes nothing |
| Optimiser.OptimizeBody | archive/backend/emit_c.py:375-474 | the whole pass, loop by loop, computes the redirected and pruned body |
| OptimiserResult.ResolveIsEnd | archive/backend/emit_c.py:404-415 | a resolved label is where the chain of bare gotos ends: the first label on it that is no bare goto or lies on a cycle |
| OptimiserResult.OptimisedPasses | archive/backend/emit_c.py:375-474 | the whole pass, said of the blocks alone: every goto leads to the end of its chain, nothing else is changed; a block is left exactly if it has two lines or more, is protected, ends a chain or is named by a rewritten goto; in order |
| OptimiserResult.LeftGotoIsThreaded | archive/backend/emit_c.py:404-430 | no goto that is left leads to a bare goto, unless that one leads back to itself |
| OptimiserResult.PassesOnce | archive/backend/emit_c.py:375-474 | there is one such result only |
| Optimiser.BuildRedirects | archive/backend/emit_c.py:417-423 | the redirects are exactly the blocks that hold one goto and lead elsewhere |
| Optimiser.CountIncoming | archive/backend/emit_c.py:435-446 | each label's count: protected, end of a chain, or the number of gotos that name it |
| Optimiser.DropDead | archive/backend/emit_c.py:448-455 | drops the small blocks nothing names, keeps the rest in order |
| OptimiserProof.ResolveForwards | archive/backend/emit_c.py:404-415 | a resolved label is reached by bare gotos only, cycles included |
| OptimiserProof.NamedIsKept | archive/backend/emit_c.py:435-455 | where a chain of gotos ends, the block is kept |
| OptimiserProof.PassOptimises | archive/backend/emit_c.py:375-474 | each remaining goto leads where the chain of bare gotos led, entry labels are kept |
| OptimiserProof.NoDanglingGoto | archive/backend/emit_c.py:443-455 | no goto that is left names a label that is gone |
| OptimiserRuns.StepMatches | archive/backend/emit_c.py:375-474 | the optimised program moves exactly when the original does, and then to a state the original reaches |
| OptimiserRuns.PassSimulates | archive/backend/emit_c.py:375-474 | each step of the optimised program is one or more steps of the original at the same call depth |
| OptimiserRuns.ReturnsAlike | archive/backend/emit_c.py:375-474 | the optimised program returns in a state exactly when the original does; a forwarding cycle is a loop in both |
| OptimiserRuns.DeepAlike | archive/backend/emit_c.py:375-474 | call depths the original reaches, the optimised program reaches |
| OptimiserRuns.FullAlike | archive/backend/emit_c.py:375-474 | where the original stops at a frame that does not fit, so does the optimised program, at the same frame |
| Runs.StopsAlike | archive/backend/emit_c.py:375-474 | where the original stops, a simulating machine stops in a related state |
| FuncGenerator.FunctionIsTargeted | archive/backend/emit_c.py:216-350 | every emitted goto names an emitted label or an exit |
| FuncGenerator.BlocksJump | archive/backend/emit_c.py:216-350 | no emitted block falls through to the next |
| FuncGenerator.OptimisedJumps | archive/backend/emit_c.py:457-472 | nor does a block the pass leaves |
| FuncGenerator.EmitAll | archive/backend/emit_c.py:479-486 | all functions are emitted in order, sharing one counter |
| FuncGenerator.GenerateSource | archive/backend/emit_c.py:476-552 | all functions, emitted, then optimised one by one |
| FuncGenerator.EveryBodyPasses | archive/backend/emit_c.py:476-552 | each function's blocks, as emitted, have gone through that pass, its ports and return labels protected |
| FuncGenerator.AbortsAlike | archive/backend/emit_c.py:375-474 | the optimised program overflows the arena at the frame at which the original does |
| FuncGenerator.GeneratedSourceYields | archive/backend/emit_c.py:476-552 | the generated file: for every graph of patterns, recursive ones included, every subject and every arena position, calling a function enumerates its pattern's ends in order and then answers empty, cursor and arena position restored, or overflows the arena; a recursion deeper than the stream follows is deeper in the calls too |
| FuncTotal.EndsLieAhead | archive/backend/emit_c.py:216-350 | ends never lie before the cursor, and lie beyond it for a node that must consume |
| FuncTotal.EnoughIsComplete | archive/backend/emit_c.py:335-350 | without left recursion, references followed deep enough for the rest of the subject give the complete stream |
| FuncTotal.DeeperIsSame | archive/backend/emit_c.py:335-350 | a complete stream does not depend on the depth |
| FuncBounds.SizeIsBounded | archive/backend/emit_c.py:335-350 | without left recursion a suspended node keeps at most a constant of the arena and a constant per character it has consumed |
| FuncBounds.AsksAreBounded | archive/backend/emit_c.py:335-350 | and no frame it asks for ends beyond a constant and a constant per character ahead |
| FuncBounds.GeneratedSourceIsTotal | archive/backend/emit_c.py:476-552 | without left recursion the enumeration is complete: every end, then the empty answer, or overflow |
| FuncBounds.LinearArenaSuffices | archive/backend/emit_c.py:476-552 | and every frame entered ends within a constant and a constant per character of the subject, so that with that much arena nothing overflows |
| FuncLeft.EveryCallEnds | archive/backend/emit_c.py:476-552 | for every graph and subject, each call returns or overflows, as the stream says that is followed as deep as the arena can hold frames |
| FuncLeft.NextCallEnds | archive/backend/emit_c.py:538-550 | which means: the next end, or the empty answer after the last one of a complete stream, or overflow; after the last end of a cut stream, overflow |
| FuncLeft.LeftRecursionOverflows | archive/backend/emit_c.py:335-350 | a pattern whose leftmost path (left parts of sequences and alternations, and references) comes back to it: on every subject, at every cursor, the generated program overflows the arena and never returns |
| Runs.Lockstep | archive/backend/emit_jvm.py:256-283 | machines that move step by step alike stay related over any run |
| JvmProgram.MatchIsRun | archive/backend/emit_jvm.py:256-283 | the match method answers what the state says in which its loop is left |
| Anbn.AfterB | bench/pda/bench_pda.c:55-61 | once a b has been read, membership is a matter of counts and of the next character |
| Anbn.TinyAnbn | bench/pda/bench_pda.c:47-62 | the counting scan answers yes exactly on a^n b^n, n at least 1 |
| Anbn.AnbnEnds | bench/gen_anbn.c:45-96 | S = a S b | a b has one end, past all leading a's and as many b's, if there are as many, and otherwise none |
| Anbn.AnbnEndIsLanguage | bench/gen_anbn.c:101-112 | that end is the end of the subject exactly if the subject is in the language |
| Anbn.AnbnAsks | archive/backend/emit_c.py:335-346 | the frames a call of S asks for: one for each a ahead, and one more |
| Anbn.CompiledAnbnDecides | archive/backend/emit_c.py:476-552 | the functions the compiler now generates for S enumerate that end and nothing else, then answer empty with the arena restored, and enter a frame for each leading a and one more at most |
| GenAnbn.Arms | bench/gen_anbn.c:45-85 | what the long and the short arm deliver, in terms of the next character |
| GenAnbn.SuspendedAbove | bench/gen_anbn.c:53-61 | a suspended call depends only on its own frame and those entered after it |
| GenAnbn.Engine.Start | bench/gen_anbn.c:32-98 | S with entry 0: its end with the chain of suspended frames, or empty with the cursor back, or the arena overflows, exactly when the a's in front need more frames than are free |
| GenAnbn.Engine.Resume | bench/gen_anbn.c:86-98 | S with entry 1: no second end, the cursor where S was entered, older frames untouched |
| GenAnbn.EngineAnbn | bench/gen_anbn.c:101-112 | 1 exactly on the language as long as the arena of 4096 bytes holds the frames, that is for up to 50 leading a's; beyond that the program exits |
| AnbnParser.Actions | bench/pda/anbn.tab.c:540-595 | every action the LALR tables encode, state by state and token by token |
| AnbnParser.Gotos | bench/pda/anbn.tab.c:560-580 | every goto the parser can take |
| AnbnParser.NoErrorShift | bench/pda/anbn.tab.c:1160-1180 | no state shifts the error token, so that the first error ends the parse |
| AnbnParser.ChosenIs | bench/pda/anbn.tab.c:955-1035 | what the compressed tables choose is what the text read so far calls for |
| AnbnParser.StackAfter | bench/pda/anbn.tab.c:1010-1097 | after each shift or reduction the state stack is again that of the text read so far |
| AnbnParser.ActionKeeps | bench/pda/anbn.tab.c:955-1097 | each action keeps stack and text in step and comes closer to the end |
| AnbnParser.ErrorDecides | bench/pda/anbn.tab.c:1103-1136 | an error means that the text is not in the language, unless it has been recognised already |
| AnbnParser.FullMeansTooDeep | bench/pda/anbn.tab.c:889-935 | the stack is full only for texts with too many leading a's |
| AnbnParser.TooDeepInLanguage | bench/pda/anbn.tab.c:889-935 | within the language, that is a matter of length |
| AnbnParser.Parser.Grow | bench/pda/anbn.tab.c:916-935 | a stack twice as large, at most the maximum, with the same contents |
| AnbnParser.Parser.Choose | bench/pda/anbn.tab.c:955-1035 | reads a token exactly in the states that need one, and takes the action of the tables |
| AnbnParser.Parser.Act | bench/pda/anbn.tab.c:955-1136 | the action of a state: shift, reduction or error; stack, position and result keep describing the text read |
| AnbnParser.Parser.Turn | bench/pda/anbn.tab.c:865-1199 | from one new state to the next: stack, position and result keep describing the text read |
| AnbnParser.Parser.Yyparse | bench/pda/anbn.tab.c:815-1255 | returns 1, or 2 when the stack is full, never 0; the result variable is set exactly for texts of the language that are not too deep |
| AnbnParser.BisonAnbn | bench/pda/anbn.tab.c:1265-1276 | the table parser, by its result variable, decides a^n b^n for texts shorter than 2 * 9998 characters |
| AorbStarAbb.RepeatsStop | bench/gen_aorb_star_abb.c:78-96 | after a character that is neither a nor b, or after 64 repetitions, no later match exists |
| AorbStarAbb.HitAtEnd | bench/gen_aorb_star_abb.c:136-147 | a match that ends the subject is membership in (a|b)*abb with at most 67 characters |
| AorbStarAbb.Engine.Ab | bench/gen_aorb_star_abb.c:28-57 | one a or b, else the cursor unmoved; its frame stays in the arena |
| AorbStarAbb.Engine.OneMore | bench/gen_aorb_star_abb.c:78-96 | one repetition more, its start cursor pushed, or no further match |
| AorbStarAbb.Engine.Root | bench/gen_aorb_star_abb.c:71-133 | entry 0 delivers the first match, entry 1 the next one, none passed over; the cursor stack is always 0, 1, 2, ... and the arena never overflows |
| AorbStarAbb.EngineAorbStarAbb | bench/gen_aorb_star_abb.c:136-147 | 1 exactly on the texts of (a|b)*abb with at most 67 characters, for every subject |
| X86.JlMeansLess | archive/backend/bb_poc.c:107-115 | after the comparison, sign and overflow differ exactly if the length is less |
| LitBox.PatchesFit | archive/backend/bb_poc.c:180-193 | all patched distances fit a signed byte exactly for literals of up to 14 bytes |
| LitBox.Assembler.E32 | archive/backend/bb_poc.c:45-50 | four bytes, lowest first, and no other |
| LitBox.Assembler.EmitAll | archive/backend/bb_poc.c:103-178 | everything before the patches, with the sites to be patched |
| LitBox.Assembler.BuildLitBox | archive/backend/bb_poc.c:90-193 | the bytes written and patched are the box of the literal |
| LitBoxRuns.CharStep | archive/backend/bb_poc.c:146-155 | the code of one character goes on if the byte is right, else jumps, and reads that byte only |
| LitBoxRuns.BoxDecides | archive/backend/bb_poc.c:90-193 | for literals of up to 14 bytes, running the bytes returns 1 exactly if the length is enough and the subject starts with the literal, else 0, reading nothing beyond the length |
| LitBoxRuns.ShortSubjectFails | archive/backend/bb_poc.c:180-188 | on a subject that is too short the failure port is reached exactly for literals of up to 14 bytes |
| LitBoxRuns.FifteenBytesJumpOut | archive/backend/bb_poc.c:180-188 | with 15 bytes the jump leaves the code |
| Lexer.ReadNumber | archive/frontend/lex.c:119-146 | integers, fractions and exponents, as far as they go |
| Lexer.ReadToken | archive/frontend/lex.c:97-196 | one token, by the longest match of its kind, and where it ends |
| TokenShapes.FirstIs | archive/frontend/lex.c:97-196 | for every text the first token and where it ends, said of its characters: blanks, strings up to the next equal quote, numbers with fraction and exponent and their values, keywords of letters, digits and underscores, identifiers of these, dots and bytes from 0x80 on, two stars, the 22 operators, and all other characters illegal |
| TokenShapes.FirstIsNumber | archive/frontend/lex.c:119-146 | an integer has the decimal value of its first 63 digits, or the greatest long |
| TokenShapes.FirstIsName | archive/frontend/lex.c:163-172 | an identifier takes exactly the longest run of its characters; END in any case is its own kind |
| Lexer.Queue.TokeniseBody | archive/frontend/lex.c:95-196 | the queue grows by the tokens of the body, illegal characters left out |
| Lexer.Lex.RawNext | archive/frontend/lex.c:350-438 | the next token of the string, or its end; the rest is still ahead |
| TokenText.Render | archive/frontend/parse.c:939-975 | the text of one token, with the quote its text does not contain, as far as the scratch buffer allows |
| TokenText.PieceOf | archive/frontend/parse.c:942-975 | what is written for each kind of token, oversized ones included |
| TokenText.Reconstruct | archive/frontend/parse.c:937-978 | the buffer holds the pieces that fit, in order |
| TokenText.WrittenNext | archive/frontend/parse.c:976 | each piece goes in exactly if fewer than 8190 characters are in the buffer then; one that does not fit is left out and later ones may still go in |
| TokenText.PrintedValue | archive/frontend/parse.c:956 | a printed integer has the value it was printed from, saturated and truncated ones included |
| TokenText.RealInside | archive/frontend/lex.c:119-146 | a real ends where it did, before any text that does not start with what it takes on, and not otherwise |
| TokenText.RealAlone | archive/frontend/lex.c:119-146 | a real read off the front of a text is a real by itself |
| TokenText.FirstIsClean | archive/frontend/lex.c:95-196 | what every token of a text satisfies |
| TokenText.AgainIffApart | archive/frontend/lex.c:95-196 | the text of a token, before any other text, is read as that token again exactly if it does not join it, the condition spelled out kind by kind on the next two characters |
| TokenRoundTrip.TextsAreNoLonger | archive/frontend/lex.c:95-196 | the texts of the tokens of a text with paired quotes are together no longer than that text |
| TokenRoundTrip.WrittenIsPaired | archive/frontend/parse.c:937-978 | what is rendered has paired quotes, whatever was left out |
| TokenRoundTrip.ReadIsApart | archive/frontend/lex.c:95-196 | tokens that are read again from their texts do not join each other |
| TokenRoundTrip.FirstIsApart | archive/frontend/lex.c:95-196 | maximal munch: the first token of a text does not join the rest of it |
| TokenRoundTrip.RoundTrip | archive/frontend/parse.c:937-980 | for every body, illegal characters or not: rendering the queued tokens and reading that again gives the same tokens exactly if the buffers hold everything and no token joins the text after it |
| TokenRoundTrip.LegalRoundTrip | archive/frontend/parse.c:937-980 | for every body without illegal characters the same tokens come back exactly if each fits the scratch buffer and all fit the body buffer and the token limit |
| TokenRoundTrip.IllegalJoinsNeighbours | archive/frontend/lex.c:195 | an illegal character between two stars is dropped, and the stars then join |

## Left out

- Engine: ARBNO, conjunction, BAL, FENCE with a pattern, SUCCEED, BREAKX, the line anchors, captures, function nodes and variable references; ARBNO's guard concedes after the empty match, captures share one start, BAL mixes absolute and relative positions.
- Engine: the 32-bit width of cursors and lengths, and debugging output.
- Engine.EngineMatchEx: past the iteration cap the result is whatever signal the loop broke off with; the contract says so and is exact whenever the run stops within it.
- Pattern construction: captures, deferred variables, how numbers are printed, ARBNO, SUCCEED, BAL, BREAKX and user calls.
- Chunk compiler: SPAN, BREAK and ARBNO share one local between all their occurrences; calls are placeholders; escaping of Java text, characters outside the basic plane, and the abandoned draft `_lower`.
- Function compiler: FlatEmitter, ARB, ARBNO, assignments and output, the emitted main's loop; fields of a struct are a map, its size any positive number; a pattern named like a generated identifier; a literal whose text looks like a goto, which the pass would rewrite.
- Function compiler: the scan loop of SPAN is one operation of the machine.
- FuncLeaves.EnterLen: LEN with a negative argument, which the compiler accepts and which moves the cursor back, possibly before the subject; patterns are taken to have none (`FuncSpec.Closed`).
- FuncLeft.LeftRecursionOverflows: says when every subject overflows; which subjects overflow when only some do is left to `FuncLeft.EveryCallEnds`.
- GenAnbn.EngineAnbn: the arena is counted in frames of 80 bytes, what a frame and its header take under the System V AMD64 ABI.
- AnbnParser: the value stack, kept lookahead (no token is ever kept, since each is shifted or an error), and debugging output.
- AorbStarAbb: the label an5_beta, which no goto names.
- X86: instructions other than those the box holds, and flags other than zero, sign and overflow; memory protection and the instruction cache.
- Lexer: labels, goto fields and statement splitting, and the queue's capacity; the decimal value of a real stands as the text it is computed from.
- The relocation patcher, the committed-choice matcher, the lowered ARBNO and ir_nary_right_fold: easier members, or, for ARBNO, one local shared by all occurrences.
- Drivers, tree-walk interpreter, variable store, memory protection, benchmarks and foreign calls.
