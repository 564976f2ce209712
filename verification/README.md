# A verified model of the panvk command-stream builder

The Mesa Vulkan driver for Mali GPUs records work as command streams: linear GPU instruction
streams that its builder (`mesa_src/genxml/cs_builder.h`) emits, in one pass, from structured
code. This project models the builder and a machine for the instructions it emits, and proves
what the emitted code does on every run. Four smaller parts of the driver are modelled beside it:
the suballocating memory pool, descriptor slots and the layout-support query, packing of push
uniforms, and the sub-images behind multisampled images.

## How it is put together

*Meaning.* `Isa` is the machine: registers, memory, in-flight loads, MOVE, ADD, shifts, LOAD and
STORE_MULTIPLE (the selected registers packed into consecutive words), WAIT, JUMP and relative
BRANCH on the sign of a 32-bit register. `Structured` has programs (if, else, while with break and
continue, match, maybe), what they mean, and `Gen`, the code they come out as, every instruction
annotated with what the builder's tracker believed when it was emitted. `Preservation` proves
that the code means what the program means, and starts the jobs the program orders even if neither
ever ends.

*Loads in flight.* `Tracker` proves that no instruction of a `Covered` program meets a load in
flight on any path. `Careful` derives that from conditions on the text of the program, `Lost` has
the converse: the exact conditions under which an `else` or a match goes wrong, and programs for
which they do. `Async` draws the conclusion for a machine whose loads complete late.

*Stores in flight.* `Stores` proves that a store still in flight at the end of any path is one the tracker
knows of, so that no path leaves a flush of the stores with one in flight, in nests of all constructs;
`LostStores` derives the condition for it from the text, and has the exact conditions under which a
condition, an `else` or a loop loses one. `Needless` proves that code which starts no load or
store and needs nothing pending comes out without a WAIT.

*The builder.* `Chunks` has the chunks and the links between them (class `CommandStream`), and
`Linking` proves the links invisible to the code. `Labels` and `Builder` have the chains of
unresolved branches and LOAD_IPs threaded through the instructions, the pending `if`, and the copy
of a finished block into a chunk (classes `Builder`, `Label`, `Block`, `LsTracker`). `Control` and
`Constructs` are the calls a client makes, and `Driver` proves that making them for any nest of
statements emits exactly what `Gen` says, `Outermost` that a construct outside any block does, too.
`Program` puts all of it together: its method `Record`
takes any stream built so far, any sequence of programs, constructs and instructions, and goes
to finished chunks in memory; its postcondition goes from the machine that follows the links in them
to the meaning of the sequence. `Spaces` says which buffers a recording takes, so that it is known beforehand
whether it runs out of memory, and `Accepts` which programs the builder takes. `Sequences` is about code one behind the other, `Tidy` about code
that stays inside its block.

*Maybe blocks.* `Handles` lists the maybe blocks a program leaves, `Choices` says which of them are
filled in, `Orders` what any order of patching leads to, and `Patching` when that is the code of the
program with a chosen set of blocks. `Maybes` compares patching early, late and never, and `Late` does
it to the chunks of a stream that other code has been recorded to since.

*Generators.* `Arith` (64-bit multiplication, 32-bit division by a constant), `Lists` (appending to
and walking a linked list), `Functions` (saving and restoring the registers a function uses) and
`Emission` (the same in the order the builder emits it, and the length it records), and `LateCalls` (the
same on the machine with late loads).

*Beside the builder.* `MemPool`, `Descriptors`, `Fau`, `MsImages`; `Bits` and `Numbers` are helpers.

Client registers are numbered from 0, machine words are naturals below 2^32, and every place where
32 or 64 bits wrap is written out. `NO_POS` (all ones in the builder) is -1. Memory is a map from
byte address to 32-bit word: words that overlap in part are not modelled.

## What the code needs, and where it does less than it says

- *Else.* `cs_else_end` takes the loads of the if arm from `pending_if`, which any conditional in the
  else body overwrites (lines 1240-1253). `Lost.ElseLosesLoads` is a program that then reads a register
  whose load is still in flight; `Lost.ElseOnPath` says for any two arms, on every path through the if arm,
  when that happens; `Careful.ElseWithoutIf` says that it cannot without a conditional in the else body.
- *64-bit conditions.* The WAIT for the second half of the operand is emitted between the branches, and
  the first branch can leave before it (lines 1128-1172). `Lost.HalfLost` is a program that then reads a
  register whose load is in flight; `Lost.SplitExact` is the exact condition.
- *Stores behind these two.* The same else and the same conditions lose stores: a flush of the stores behind
  them then comes out as nothing and is passed with one in flight (`LostStores.ElseLosesStores`,
  `LostStores.ElseStoreExact`, `LostStores.SplitStoreExact`).
- *Stores round a loop.* Before it goes round, a loop waits for loads its head does not know of, but not for
  stores (lines 1319-1376). A flush at the head of the body comes out as nothing and is passed with a store of
  the round before in flight, exactly when one is pending on the back branch (`LostStores.LoopStoreExact`).
  Behind the loop the tracker knows of it again (`Stores.StoresTracked`).
- *Match.* Each further test is emitted under the tracker of the case before it, but reached from the test
  before (lines 2492-2513). A first test for 0 does not touch the scratch register; when that is in flight
  and the first case waits for it, the second test writes it without waiting (`Lost.MatchLosesScratch`).
  `Lost.MatchExact` is the exact condition.
- *Order of patching.* An enclosing maybe block patched after one inside it blanks it again
  (`Patching.InsideOut`). `Patching.PatchedExactly` is the exact condition on the order for any choice of
  blocks; from the outside in always works (`Orders.OuterFirstMeets`).
- *Postamble of a function.* It is emitted under the tracker the preamble has cleared, though the body comes
  in between. A load of the context register or of the builder's own pair that the body leaves in flight is
  not waited for (`LateCalls.PostambleExact`); without one the registers are restored (`LateCalls.LateRestores`).
- *Function length.* Two or three instructions more are emitted than line 2681 counts, and the recorded
  length can leave out the last WAIT or the last restoring load (`Emission.CallLength`).
- *Continue* goes to the loop start behind the first test, so the loop condition is not tested again.
- *Chunk capacity.* The assertion that a block fits an empty chunk (line 575) leaves no room for the
  link behind it. The model asks for the largest block, one slot and a link.
- *LOAD_IP outside a block.* The address is computed before the WAIT that the MOVE48 may need; with the
  destination in flight it is one slot short (`Control.LoadIpToStream`).
- *Division.* The increment can wrap 32 bits. Then the result is 0, and that is always wrong (`Arith.DivIs`,
  `Arith.Wraps`), as it is for the largest dividend and 7 (`Arith.SevenWraps`).
- *Dump size.* It counts every dirty register, while only those below the kernel's own are saved
  (`Functions.TilesDump`).
- *Preallocation.* A preallocated buffer object of exactly the slab size is never allocated from before
  the pool is reset (`MemPool.InitAndAllocate`).
- *Inline uniform blocks* of fixed size with count 0 are counted as one descriptor by the support query but get
  no slots in the layout (`Descriptors.AskedIs`); the bound of `Descriptors.SupportBoundsAllocation` holds all
  the same.

## Model

| member | source | states |
|---|---|---|
| Preservation.CompilationPreservesMeaning | mesa_src/genxml/cs_builder.h:1054-1385 | For every well-formed program (if, else, while with break and continue, match, maybe, operations) and all states: the emitted code, run from its first instruction, stops at its end in a state exactly when the program means that state. Both directions, so it also runs for ever exactly when the program does. |
| Preservation.SameJobs | mesa_src/genxml/cs_builder.h:1054-1385 | Whether or not a program ever ends: a sequence of jobs, with the registers and memory each starts with, is reached by the code exactly when the program orders it. So a program that loops for ever starts the same jobs in the same order as its code. |
| Preservation.Simulate | mesa_src/genxml/cs_builder.h:1185-1253 | The invariant behind it: the code of a statement, wherever it lies, reaches its own end, the end of the loop (break) or the loop start (continue) in the state in which the statement ends that way; as long as the statement loops, the code stays inside itself. |
| Preservation.SimulateLoop | mesa_src/genxml/cs_builder.h:1319-1385 | From the loop start, which lies behind the first test, the code does what the loop does, `continue` going round without testing the condition again. |
| Preservation.RunBranch64 | mesa_src/genxml/cs_builder.h:1128-1172 | The one to three 32-bit branches emitted for a 64-bit condition take the branch exactly when the signed 64-bit condition holds, over all 2^64 values, and change nothing. |
| Preservation.InvertFlips | mesa_src/genxml/cs_builder.h:1105-1126 | The inverted condition holds exactly when the condition does not, for 32- and 64-bit operands. |
| Structured.MatchDispatch | mesa_src/genxml/cs_builder.h:2492-2555 | A match runs exactly the first body whose id equals the subject, else the default, else nothing; the wrapping 32-bit subtraction is exact for every pair, and only the scratch register can change before the body. |
| Structured.MoreFuel | mesa_src/genxml/cs_builder.h:1319-1385 | A program that has come to an end within a number of loop rounds ends the same way with any larger number, so its meaning does not depend on the bound. |
| Preservation.SimulateCases | mesa_src/genxml/cs_builder.h:2455-2563 | The code emitted for a list of cases runs the selected one and leaves at the common exit. |
| Tracker.NoHazard | mesa_src/genxml/cs_builder.h:345-419 | On every path through the code of a program, whichever way each branch goes, no instruction reads or writes a register while a load to it is in flight; at the end the tracker covers what still is. Holds for all programs that are `Covered`, a condition on the trackers at each conditional, else and case. |
| Tracker.SafeStmt | mesa_src/genxml/cs_builder.h:958-1385 | The invariant behind it: every instruction of a statement's code is annotated with a bound of what is in flight, is no hazard under that bound, and hands on at most the bound of each successor, back edges included. |
| Tracker.ConditionExact | mesa_src/genxml/cs_builder.h:1128-1172 | The annotations of a condition bound what the tracker claims on every way out exactly when the condition is 32 bits wide or its halves agree on being in flight, as far as both are read: the WAIT for the second half is emitted between the branches. `Lost.SplitExact` is the same about paths. |
| Careful.ElseWithoutIf | mesa_src/genxml/cs_builder.h:1219-1253 | An else body with no conditional in it leaves `pending_if` alone, so the tracker after it covers both arms, whatever the arms do. |
| Careful.CarefulIsCovered | mesa_src/genxml/cs_builder.h:1054-1385 | A program whose text keeps to `Heeds` is `Covered`, whatever tracker it is emitted under. `Heeds` is read off the statements: no conditional in an else body, the two halves of a 64-bit condition loaded together or not in flight, subject and scratch of a match not in flight. What may be in flight is bounded by `Flying`, also computed from the text. |
| Careful.CarefulNoHazard | mesa_src/genxml/cs_builder.h:345-419 | Programs that keep to these conditions have no load hazard on any path through their code. |
| Careful.CarefulMeaning | mesa_src/genxml/cs_builder.h:843-890 | And on the machine with late loads they end as they mean. |
| Lost.ElseOnPath | mesa_src/genxml/cs_builder.h:1219-1253 | Converse for the else, whatever the two arms are: every path to the end of the if arm goes on to the instruction behind the else, and meets a hazard there exactly when the instruction needs a load that is in flight on this path and lost from `pending_if`, and none that makes the builder emit a WAIT. |
| Lost.ElseExact | mesa_src/genxml/cs_builder.h:1219-1253 | For a straight if arm the path is constructed, and what is in flight on it is all that the arm leaves. |
| Lost.ElseLosesLoads | mesa_src/genxml/cs_builder.h:1240-1253 | The failing input: a conditional inside an else body overwrites the tracker state of the if arm before `cs_else_end` reads it. For all registers and slots, a program whose code has a path on which a register is read while its load is in flight. |
| Lost.SplitExact | mesa_src/genxml/cs_builder.h:1128-1172 | For any condition and any instruction behind it: there is a path on which the instruction meets a load in flight exactly when the halves of a 64-bit condition do not agree on being in flight (`SplitOk` fails) and the instruction needs a load that is. |
| Lost.FirstWayOut | mesa_src/genxml/cs_builder.h:1128-1172 | That path: out by the first branch, with everything still in flight that was at the condition. |
| Lost.HalfLost | mesa_src/genxml/cs_builder.h:1128-1172 | The failing input: a 64-bit `if` entered with only its low half in flight, then a read of the low half, for all registers and slots. |
| Lost.MatchExact | mesa_src/genxml/cs_builder.h:2492-2555 | The case tests behind the first are right, whatever tracker the case bodies leave, exactly when the match does not begin with the id 0 while the scratch register, but not the subject, is in flight. |
| Lost.SecondTestExact | mesa_src/genxml/cs_builder.h:2492-2513 | Converse for the case tests: the path that does not select the first case meets a hazard at the second test exactly when that test is not covered. |
| Lost.MatchLosesScratch | mesa_src/genxml/cs_builder.h:2492-2513 | The failing input: a match whose first case has id 0 and waits for its loads; the second test then writes the scratch register while its load is in flight. |
| Lost.WaitsExactly | mesa_src/genxml/cs_builder.h:357-419 | In straight code a WAIT is emitted in front of an instruction if and only if that instruction needs a load that is in flight when control gets there. |
| Needless.NoNeedlessWait | mesa_src/genxml/cs_builder.h:958-1385 | A program that starts no loads and no stores, and needs nothing of what is pending when it is reached, comes out without a single WAIT, whatever its conditionals, loops, matches and maybe blocks, and leaves the tracker exactly as it was. |
| Stores.StoresTracked | mesa_src/genxml/cs_builder.h:1014-1020 | On every path through the code of a program, whichever way its branches go and however often it goes round its loops: a store in flight at the end, with no WAIT on the load/store slot behind it, is one the tracker knows of. Holds for all programs that are `StoresKept`; loops, matches and maybe blocks ask for nothing. |
| Tracker.FlushedLoads | mesa_src/genxml/cs_builder.h:1003-1011 | No path leaves `cs_flush_loads` with a load in flight, behind any `Covered` program. |
| Stores.FlushedStores | mesa_src/genxml/cs_builder.h:1014-1020 | So behind `cs_flush_stores` no path has a store in flight. |
| Stores.FencesHold | mesa_src/genxml/cs_builder.h:1014-1020 | Nor has any path at an instruction behind a flush anywhere inside a program, under ifs, elses, cases, maybe blocks and loops that hand no store round. |
| Stores.MaybeHandsOnNone | mesa_src/genxml/cs_builder.h:1429-1470 | A maybe block, patched in or not, hands on no store but one that was pending before it. |
| Stores.MarkStmt | mesa_src/genxml/cs_builder.h:958-1385 | The invariant behind it: positions can be marked so that each instruction hands a store on only to marked positions, and a way out of a statement is marked only if the tracker there knows of a store or an enclosing loop hands one round. |
| LostStores.CoveredKeepsStores | mesa_src/genxml/cs_builder.h:1219-1253 | A program that is `Covered` and opens no `if` in an else body is `StoresKept`. |
| LostStores.CarefulStores | mesa_src/genxml/cs_builder.h:1014-1020 | So programs that keep to the text conditions flush what they have stored. |
| LostStores.StraightExact | mesa_src/genxml/cs_builder.h:1014-1020 | Behind straight code a flush emits a WAIT if and only if there is a path on which a store is in flight there. |
| LostStores.SplitStoreExact | mesa_src/genxml/cs_builder.h:1128-1172 | Behind any condition: there is a path that leaves the flush with a store in flight exactly when one was pending at the condition and the halves of a 64-bit condition do not agree on being loaded. |
| LostStores.ElseStoreOnPath | mesa_src/genxml/cs_builder.h:1219-1253 | Behind any two arms: each path to the end of the if arm goes on through the flush, and leaves it with a store in flight exactly when it had one and neither `pending_if` nor the tracker of the else knows of any. |
| LostStores.ElseStoreExact | mesa_src/genxml/cs_builder.h:1219-1253 | With a straight if arm: such a path exists exactly when the arm ends with a store pending and neither of the two knows of any. |
| LostStores.ElseLosesStores | mesa_src/genxml/cs_builder.h:1240-1253 | The failing input: a store in the if arm, an else that flushes the stores and then contains an `if`; the flush behind both comes out as nothing, for all registers and slots. |
| LostStores.LoopStoreExact | mesa_src/genxml/cs_builder.h:1319-1376 | A flush at the head of a loop in front of which no store is pending comes out as nothing, and is passed by a path with a store in flight exactly when one is pending on the back branch. |
| Async.AsyncRefinesSync | mesa_src/genxml/cs_builder.h:986-1001 | On a machine whose loads complete at any time before the WAIT, every run of the emitted code goes through exactly the states of the machine with immediate loads. |
| Async.AsyncMeaning | mesa_src/genxml/cs_builder.h:843-890 | A run that reaches the end of the code on the asynchronous machine has the registers, memory and job log the program means, up to loads the tracker still knows about. |
| Async.StepAgrees | mesa_src/genxml/cs_builder.h:357-419 | One step that touches no register in flight is a step of the synchronous machine, and what is in flight changes as the tracker says. |
| Chunks.CommandStream.Wrap | mesa_src/genxml/cs_builder.h:305-318 | The length of the current chunk, 8 bytes an instruction, goes into the open link and nowhere else; the root size is updated when the current chunk is the root. |
| Chunks.CommandStream.EmitLink | mesa_src/genxml/cs_builder.h:590-611 | MOVE48, MOVE32 and JUMP are appended in order, and the place of the open length is returned. |
| Chunks.CommandStream.NextChunk | mesa_src/genxml/cs_builder.h:576-620 | A new chunk is linked in: the stream, and the code of all chunks before it, stay as they were; all links but the open one hold their final length. |
| Chunks.CommandStream.Reserve | mesa_src/genxml/cs_builder.h:517-628 | Afterwards the current chunk has room for the instructions and a link, or the stream is out of memory, which happens exactly when they did not fit and there is no allocator or no buffer left. Exactly one buffer is taken when they did not fit, none when they did; the stream itself is unchanged. |
| Chunks.CommandStream.Alloc | mesa_src/genxml/cs_builder.h:631-644 | The room is contiguous, at the end of the stream and inside one chunk; what is left of the chunk and of the buffers is what the size asked for leaves. |
| Chunks.CommandStream.Fill | mesa_src/genxml/cs_builder.h:690-700 | A block copied into its room is the end of the stream; everything before it is unchanged. |
| Chunks.CommandStream.Append | mesa_src/genxml/cs_builder.h:758-769 | One instruction is added at the end of the stream, or none when the chunk is full and no buffer is left. |
| Chunks.CommandStream.Rewrite | mesa_src/genxml/cs_builder.h:1479-1491 | Code in any chunk can be overwritten in place: the stream changes at exactly that position, the links do not. |
| Chunks.CommandStream.End | mesa_src/genxml/cs_builder.h:771-782 | All chunks are in memory, every link holds the final length of the chunk it leads to, the stream is unchanged, and root buffer and root size are those of the first chunk with its link. |
| Chunks.ExtendedLinks | mesa_src/genxml/cs_builder.h:590-611 | Linking a new chunk behind the last keeps every earlier link right and the flattened stream the same. |
| Chunks.FlattenRewrite | mesa_src/genxml/cs_builder.h:1479-1491 | Overwriting inside chunk k overwrites the flat stream at the position counted over the chunks before it. |
| Linking.ChunksRefineStream | mesa_src/genxml/cs_builder.h:517-644 | Running the linked chunks from the root chunk, following JUMPs with the lengths in the links, stops in a state exactly when the flat stream does, as far as the client's registers go. Both directions. |
| Linking.RunLink | mesa_src/genxml/cs_builder.h:590-611 | The three link instructions lead to the first slot of the chunk at that address with the size the length says, and change nothing but the last three registers. |
| Linking.StepTogether | mesa_src/genxml/cs_builder.h:784-789 | At an instruction of the stream, machine over chunks and machine over the flat stream take the same step. |
| Linking.VisibleOp | mesa_src/genxml/cs_builder.h:474-485 | The two registers the builder keeps for links have no influence on what a client instruction does to the others. |
| Labels.PatchStep | mesa_src/genxml/cs_builder.h:717-745 | The walk over the chained branches: each offset read before patching leads to the branch before it, strictly downwards, and patching it takes the block one step nearer to all branches patched. |
| Labels.BranchForward | mesa_src/genxml/cs_builder.h:1054-1103 | A branch to an unset label extends the chain by exactly its own position and changes no other instruction. |
| Labels.InReachResolved | mesa_src/genxml/cs_builder.h:717-745 | Resolved code fits its 16-bit offsets exactly when the unresolved code does with the labels at those places. |
| Builder.Builder.SetLabel | mesa_src/genxml/cs_builder.h:717-745 | Every branch emitted to the label, and no other instruction, gets the offset target - pos - 1; the walk terminates. |
| Builder.Builder.PatchIps | mesa_src/genxml/cs_builder.h:646-700 | Every LOAD_IP of the block, and no other instruction, gets the address of its slot for a block placed at the given chunk position; the walk terminates. |
| Control.IpsExact | mesa_src/genxml/cs_builder.h:646-700 | In a placed block each LOAD_IP holds the address of the slot behind itself and keeps its register; every other instruction is unchanged. |
| Builder.Builder.FlushBlockInstrs | mesa_src/genxml/cs_builder.h:646-700 | A finished outermost block becomes the end of the stream in one piece, in one chunk, with its LOAD_IPs patched for that place; every pending maybe block learns its place; if the last instruction is a LOAD_IP, one more instruction fits behind it before any link. |
| Builder.Builder.PlaceBlock | mesa_src/genxml/cs_builder.h:646-700 | The same for the part that allocates, patches and copies. |
| Builder.Builder.LocateMaybes | mesa_src/genxml/cs_builder.h:680-688 | Each pending maybe block gets the address of its instructions inside the current chunk. |
| Builder.Builder.FlushPendingIf | mesa_src/genxml/cs_builder.h:747-756 | The pending if is closed with its label at the current end; when it was outermost the block goes to the stream. |
| Builder.Builder.Emit | mesa_src/genxml/cs_builder.h:758-769 | An instruction in a block is appended behind the block with its pending if closed. |
| Builder.Builder.EmitToStream | mesa_src/genxml/cs_builder.h:758-769 | An instruction outside any block follows whatever a pending outermost if still held. |
| Builder.Builder.WaitSlots | mesa_src/genxml/cs_builder.h:958-975 | The WAIT is appended, and the tracker is cleared exactly when the load/store slot is among the slots. |
| Builder.Builder.FlushOperands | mesa_src/genxml/cs_builder.h:357-419 | One WAIT is emitted before an instruction exactly when one of its operands has a load in flight. |
| Builder.Builder.EmitOp | mesa_src/genxml/cs_builder.h:784-789 | WAIT if needed, then the instruction, then the load or store it starts is tracked. That the tracker is right is `Tracker.NoHazard` for loads and `Stores.StoresTracked` for stores; that no WAIT is needless `Lost.WaitsExactly`. |
| Builder.Builder.BlockStart | mesa_src/genxml/cs_builder.h:1023-1029 | The new block is the innermost; the code so far is kept, with the pending if closed. |
| Builder.Builder.BlockEnd | mesa_src/genxml/cs_builder.h:1031-1042 | An inner block leaves the code as it is; an outermost one is copied to the stream with its LOAD_IPs and maybe blocks placed. |
| Control.BranchLabel32 | mesa_src/genxml/cs_builder.h:1054-1103 | WAIT if needed and one branch: final for a label that is set, chained for one that is not. |
| Control.BranchLabel64 | mesa_src/genxml/cs_builder.h:1128-1172 | The branches emitted for each of the seven 64-bit conditions, their skips resolved, are those whose meaning is proved; the label is extended by exactly those that go to it. |
| Control.LoadIpTo | mesa_src/genxml/cs_builder.h:935-956 | Inside a block the MOVE48 is chained and the chain holds exactly the slots behind the LOAD_IPs. |
| Control.LoadIpToStream | mesa_src/genxml/cs_builder.h:935-956 | Outside any block the address loaded is that of the slot behind the MOVE48 exactly when no load to the destination was in flight; otherwise the WAIT has taken that slot. |
| Constructs.IfStart | mesa_src/genxml/cs_builder.h:1185-1198 | The inverted condition branches to the end; what was emitted, the label's references and both tracker copies. |
| Constructs.IfEnd | mesa_src/genxml/cs_builder.h:1200-1217 | The code stays, the label stays open in `pending_if`, and the tracker is the union over both ways. |
| Constructs.ElseStart | mesa_src/genxml/cs_builder.h:1219-1238 | A branch over the else body is added and the branches to the if's end are set behind it; nothing else changes. |
| Constructs.ElseEnd | mesa_src/genxml/cs_builder.h:1240-1253 | The branch over the body is set; the tracker is the union of the current one with whatever `pending_if` then holds. |
| Constructs.WhileStart | mesa_src/genxml/cs_builder.h:1304-1342 | The first test, then the loop start label; the tracker at the head is copied. |
| Constructs.ConditionalContinue | mesa_src/genxml/cs_builder.h:1277-1356 | A WAIT when something is in flight that the head does not know, then the branch back to the start; the diverging tracker is joined. |
| Constructs.ConditionalBreak | mesa_src/genxml/cs_builder.h:1357-1364 | The branch to the loop end is chained and the tracker joined for the exit. |
| Constructs.WhileEnd | mesa_src/genxml/cs_builder.h:1366-1385 | The loop condition branches back, then every break is set to the end; the tracker after the loop covers every way out. |
| Constructs.MaybeEnd | mesa_src/genxml/cs_builder.h:1429-1470 | The instructions of the block, with a WAIT for what it left in flight, are kept aside and their range is NOPs; everything before is unchanged. |
| Constructs.PatchMaybe | mesa_src/genxml/cs_builder.h:1479-1491 | The range is filled in, in the block while it is open and in the chunk it went to afterwards; nothing else changes. |
| Constructs.MatchCase | mesa_src/genxml/cs_builder.h:2492-2513 | The case before is closed with a branch to the exit, the chained tests lead here, and the test of the new id branches on to the next case. |
| Constructs.MatchDefault | mesa_src/genxml/cs_builder.h:2515-2533 | The same without a test. |
| Constructs.MatchEnd | mesa_src/genxml/cs_builder.h:2535-2555 | Every pending branch to the exit or to a next case is set to the end; the tracker joins all cases, and the entry state when there is no default. |
| Driver.EmitStmt | mesa_src/genxml/cs_builder.h:1185-1385 | Inside a block, building any well-formed statement through these calls appends exactly the code, and leaves exactly the tracker, that the meaning and hazard theorems are about, extends the loop's break references by exactly its own, and leaves the references of all other open labels alone. Arbitrary nesting. |
| Driver.EmitIfElse | mesa_src/genxml/cs_builder.h:1185-1253 | The same for an if with an else. |
| Driver.EmitWhile | mesa_src/genxml/cs_builder.h:1319-1385 | The same for a loop. |
| Driver.EmitMaybe | mesa_src/genxml/cs_builder.h:1414-1491 | The same for a maybe block, patched or left out. |
| Driver.EmitMatch | mesa_src/genxml/cs_builder.h:2455-2563 | The same for a match. |
| Outermost.EmitConstruct | mesa_src/genxml/cs_builder.h:1185-1470 | A conditional, loop, match or maybe block outside any block is its own outermost block: the same calls emit the same code, nested statements included, and its end sends it to the stream in one piece, with its maybe blocks located. |
| Outermost.BareElse | mesa_src/genxml/cs_builder.h:1185-1253 | That for an if with an else. |
| Outermost.BareWhile | mesa_src/genxml/cs_builder.h:1319-1385 | That for a loop. |
| Outermost.BareMatch | mesa_src/genxml/cs_builder.h:2455-2563 | That for a match. |
| Outermost.BareMaybe | mesa_src/genxml/cs_builder.h:1414-1470 | That for a maybe block. |
| Maybes.FitsExactly | mesa_src/genxml/cs_builder.h:1066-1103 | The builder's 16-bit offsets suffice while it emits a program exactly when every branch of the program's finished code, with all maybe blocks filled in, is within reach. |
| Maybes.LeftOut | mesa_src/genxml/cs_builder.h:1429-1470 | Leaving maybe blocks unpatched changes nothing but their ranges, which are NOPs: same length, same tracker, all other instructions identical. |
| Maybes.EarlyOrLate | mesa_src/genxml/cs_builder.h:646-700 | Filling in a range before or after the block is placed gives the same stream, provided the range holds no LOAD_IP. |
| Patching.KeptNested | mesa_src/genxml/cs_builder.h:1429-1470 | The blocks a program leaves are disjoint or nested, and each is listed before those inside it. |
| Patching.KeptLayers | mesa_src/genxml/cs_builder.h:1429-1491 | The code of a program shows, at every place, what the program with all blocks filled in has there if all blocks around the place are filled in, and a NOP otherwise; and each block keeps what is there when it is patched in, the blocks inside it as they were when it was closed. |
| Patching.PatchedExactly | mesa_src/genxml/cs_builder.h:1479-1491 | For any program, any order of patching (blocks may be patched several times, or never) and any choice of blocks: the result is the code of the program with exactly these blocks filled in if and only if the order meets the choice, that is, for every block with an instruction of its own, behind the last patch around it no block that holds it was left out when it was closed, exactly when it and all blocks around it are chosen. |
| Orders.StandsExactly | mesa_src/genxml/cs_builder.h:1479-1491 | When nothing was filled in at first: a block is there in the end exactly when it is patched behind the last patch of every block it is in. |
| Orders.OuterFirstMeets | mesa_src/genxml/cs_builder.h:1479-1491 | So any choice of blocks that takes a block only with those around it is met by patching it from the outside in. |
| Patching.InsideOut | mesa_src/genxml/cs_builder.h:1479-1491 | The failing input: an enclosing block patched after one inside it blanks that one again. |
| Late.PatchLate | mesa_src/genxml/cs_builder.h:1479-1491 | Patching in the chunks, after any other code was recorded behind the program, in any order: every chunk still holds whole blocks that stand on their own, all other code, chunk sizes and links stay, and the stream is what it would have been with exactly the chosen blocks filled in from the start if and only if the order meets the choice. |
| Late.RecordLate | mesa_src/genxml/cs_builder.h:1414-1491 | End to end with late patches: commands are recorded, then any chosen maybe blocks of one of them are patched in the chunks, in an order that meets the choice, and the stream is ended. The linked chunks in memory mean the commands with exactly these blocks filled in, unless the buffers did not suffice for the commands. |
| Late.CloseThenPatch | mesa_src/genxml/cs_builder.h:1479-1491 | Closing the outermost block and patching the maybe block in its chunk leaves the stream with the filled block, LOAD_IP addresses included. |
| Late.PatchThenClose | mesa_src/genxml/cs_builder.h:1479-1491 | Patching first and closing then leaves the same stream. |
| Tidy.CodeExits | mesa_src/genxml/cs_builder.h:1277-1385 | Branches to the end or start of a loop come from that loop's own breaks and continues alone. |
| Tidy.FinishedTidy | mesa_src/genxml/cs_builder.h:474-485 | The finished code of a program stays inside itself and uses none of the registers the builder keeps for links. |
| Program.BlockAdded | mesa_src/genxml/cs_builder.h:631-700 | No block is ever split: after one has been added every chunk still holds whole blocks. |
| Program.Compile | mesa_src/genxml/cs_builder.h:646-700 | Building a program as one block adds exactly its finished code to whatever the stream held, inside one chunk, with every piece of earlier code and memory kept; the maybe blocks it leaves are exactly those of the program, located in their chunk. |
| Program.EmitBare | mesa_src/genxml/cs_builder.h:1023-1042 | A construct outside any block adds exactly its finished code to the stream, as if it stood in a block of its own. |
| Program.EmitOutside | mesa_src/genxml/cs_builder.h:758-789 | An instruction outside any block is added with the WAIT the tracker asks for, and the stream still consists of pieces that stand on their own. |
| Program.End | mesa_src/genxml/cs_builder.h:771-782 | The finished stream is linked, addressable and in memory, ready to be run from the root chunk. |
| Sequences.OneAfterTheOther | mesa_src/genxml/cs_builder.h:646-700 | Two pieces of code that stay inside themselves, one behind the other, stop in a state exactly when the second does from some state in which the first stops. |
| Sequences.AllPatched | mesa_src/genxml/cs_builder.h:1429-1491 | Filling in the maybe blocks of one program in a sequence changes that program's code and no other, before or behind it. |
| Program.Record | mesa_src/genxml/cs_builder.h:517-782 | End to end: any sequence of programs in blocks, constructs outside any block, and instructions outside any block, recorded behind whatever a well-formed stream held, across as many chunks as it takes, and the stream ended. The machine that starts in the root chunk and follows the links through memory stops in exactly the states that the old code followed by the commands in sequence can end in, on the client's registers. Memory runs out exactly when the buffers do, computed beforehand from the sizes of the commands; a buffer for every piece is always enough. |
| Program.NewRecording | mesa_src/genxml/cs_builder.h:237-255 | A new stream and builder are ready to record: nothing pending, an empty stream, and all of the first buffer and the supply to write to. |
| Spaces.Enough | mesa_src/genxml/cs_builder.h:517-644 | A recording with a buffer for every block, and for every instruction outside any block, does not run out of memory. |
| Spaces.OneBuffer | mesa_src/genxml/cs_builder.h:528-537 | With a single buffer, what is recorded fits if and only if all of it together does. |
| Spaces.RunsOut | mesa_src/genxml/cs_builder.h:576-594 | A recording runs out only at a piece that did not fit the current chunk when every buffer had been taken. |
| Accepts.Accepted | mesa_src/genxml/cs_builder.h:717-745 | The builder takes every well formed program of up to 2^15 - 1 instructions that leaves no `if` open where an enclosing if, maybe block or match ends. |
| Accepts.SettledOk | mesa_src/genxml/cs_builder.h:1186-1270 | For such a program its assertions hold, whatever tracker it is emitted under. |
| Program.BehindNothing | mesa_src/genxml/cs_builder.h:517-782 | For a stream that was empty that is exactly the meaning of the commands. |
| Arith.MulIs | mesa_src/genxml/cs_builder.h:2047-2078 | The code of the multiplication leaves src * imm mod 2^64 in the destination, the source and every other register unchanged, for every source value and constant. |
| Arith.MulFromIs | mesa_src/genxml/cs_builder.h:2057-2077 | The Horner invariant over the set bits, from the top: after handling the bits above, the destination is src times those bits. |
| Arith.Umul64 | mesa_src/genxml/cs_builder.h:2047-2078 | The generating loop terminates and emits exactly that code, for constants below 2^32. |
| Arith.DivIs | mesa_src/genxml/cs_builder.h:2080-2119 | The code of the division leaves floor(src / imm) exactly when imm is a power of two or the shifted dividend plus the increment does not wrap 32 bits; when it wraps, the result is 0. |
| Arith.FastQuotient | mesa_src/genxml/cs_builder.h:2096-2118 | The multiply-and-shift quotient is exact for every dividend, given the usual error bound on the multiplier. |
| Arith.Wraps | mesa_src/genxml/cs_builder.h:2096-2118 | When the increment wraps, the quotient that is lost is not 0. |
| Arith.SevenWraps | mesa_src/genxml/cs_builder.h:2080-2119 | The failing input: with multiplier 2454267026, post-shift 2 and an increment, the largest dividend divided by 7 gives 0. |
| Arith.DivKeeps | mesa_src/genxml/cs_builder.h:2080-2119 | Nothing but the destination and the four scratch registers is written. |
| Arith.Udiv32 | mesa_src/genxml/cs_builder.h:2080-2119 | The builder emits exactly that code. |
| Lists.AddTailAppends | mesa_src/genxml/cs_builder.h:3085-3115 | On any memory with a well-formed list and a separate node, the code appends exactly that node: head, tail and all links are right for empty and other lists, and no other memory and none of the caller's registers change. |
| Lists.AddTailHeeds | mesa_src/genxml/cs_builder.h:3085-3115 | The append keeps to the conditions of `Careful`, so it also works with late loads. |
| Lists.AddTailFlushes | mesa_src/genxml/cs_builder.h:3085-3115 | No path through the append leaves a store in flight, whatever was pending before it. |
| Lists.VisitsAll | mesa_src/genxml/cs_builder.h:3068-3083 | The loop visits every node once, in order, and stops with a null pointer, for every structured body that ends normally and leaves the node register and the links alone. |
| Lists.ForEachHeeds | mesa_src/genxml/cs_builder.h:3068-3083 | The walk keeps to the conditions of `Careful` when its body does. |
| Functions.Group | mesa_src/genxml/cs_builder.h:2627-2676 | The masks and bases found by the scan are exactly the dirty registers below the kernel's own, each in exactly one group of at most 16, and there are at most SAVE_RESTORE_MAX_OPS groups. |
| Functions.OffsetIsRank | mesa_src/genxml/cs_builder.h:2697-2728 | The popcount offset of a group is four times the number of dirty registers below its base. |
| Functions.TilesDump | mesa_src/genxml/cs_builder.h:2660-2681 | The groups tile the dump area from its start; they fill it exactly when no register of the kernel's own is dirty. |
| Functions.StoreGroup | mesa_src/genxml/cs_builder.h:2697-2728 | A packed store puts each dirty register of the group in its own slot and writes nothing else. |
| Functions.LoadGroup | mesa_src/genxml/cs_builder.h:2697-2728 | A packed load takes each dirty register of the group back from its own slot and changes no other. |
| Functions.SaveRestore | mesa_src/genxml/cs_builder.h:2605-2736 | For any body that writes only dirty registers, and leaves the context register, the stored dump address and the dump area alone, the function leaves every register below the kernel's own at its entry value, and memory and job log as the body left them. |
| Emission.EmittedRestores | mesa_src/genxml/cs_builder.h:2681-2736 | The same for the code itself, emitted as the source does, body first and preamble under the tracker the body leaves: run from its first instruction to its last it restores the caller's registers. |
| Emission.CallLength | mesa_src/genxml/cs_builder.h:2677-2736 | The function emits two instructions more than it counts, three when the preamble has to wait for a load of the body. A call with the recorded length runs all of it exactly when the padding makes up for them; with the count at 7 mod 8 it drops the last WAIT, and at a multiple of 8 the last restoring load and the WAIT. |
| LateCalls.LateRestores | mesa_src/genxml/cs_builder.h:2681-2736 | On the machine with late loads: called with nothing in flight, the emitted function restores the caller's registers and leaves nothing in flight, if its body keeps to what the tracker needs and leaves no load of the context register or the builder's own pair in flight. |
| LateCalls.PostambleExact | mesa_src/genxml/cs_builder.h:2691-2725 | The converse: the postamble is emitted under the tracker the preamble has cleared. On the way through a straight body its first load meets a load in flight exactly when the body leaves one of the context register or the builder's own pair. |
| LateCalls.RunSplits | mesa_src/genxml/cs_builder.h:2681-2736 | A run with late loads through two pieces of code is a run of the one and then of the other. |
| MemPool.FindBig | mesa_src/mesa_vulkan/panvk_mempool.c:52-66 | The first large buffer object on the list that is big enough, or none. |
| MemPool.Take | mesa_src/mesa_vulkan/panvk_mempool.c:38-75 | When a whole slab is asked for and there is one, the head of the list of slabs; otherwise the first buffer object on the other list that is large enough; a new one only when there is neither. The lists lose exactly what was taken, and it is on no list of any pool. |
| MemPool.AllocBacking | mesa_src/mesa_vulkan/panvk_mempool.c:37-120 | The slab size or the request, whichever is larger, is asked for in whole pages; the new buffer object is filed on exactly the list for its size and becomes the current one exactly when more is left over in it than in the present one. |
| MemPool.AllocMem | mesa_src/mesa_vulkan/panvk_mempool.c:122-173 | A request that fits behind what the current buffer object has handed out comes out of that one, at the next aligned offset, and changes no list and no count; for any other exactly one buffer object joins, taken as `Take` says, and the offset is 0, or none does and the allocation fails. What is handed out overlaps nothing handed out since the last reset, what is idle stays idle, and the sharing invariant over all pools is kept. |
| MemPool.Reset | mesa_src/mesa_vulkan/panvk_mempool.c:216-244 | All buffer objects go to the free list for their size and none is lost; the count is 0; the invariant over all pools is kept. |
| MemPool.Init | mesa_src/mesa_vulkan/panvk_mempool.c:195-213 | A new pool joins the others, with at most one buffer object, the head of the list of slabs if there is one; it is idle exactly when it is as large as the slab size. |
| MemPool.AllocMany | mesa_src/mesa_vulkan/panvk_mempool.c:122-173 | Over any number of allocations the pool holds exactly the pieces handed out, in order; what is idle stays idle and nothing comes out of it. |
| MemPool.InitAndAllocate | mesa_src/mesa_vulkan/panvk_mempool.c:122-213 | So a preallocated buffer object of exactly the slab size is never allocated from before the pool is reset. |
| MemPool.Pool.Commit | mesa_src/mesa_vulkan/panvk_mempool.c:150-172 | A piece behind everything handed out from its buffer object is disjoint from all of it. |
| Descriptors.CreateLayout | mesa_src/mesa_vulkan/panvk_vX_descriptor_set_layout.c:70-265 | Going through the sorted bindings, each gets its first slot behind all slots of the bindings before it, dynamic buffers counted separately, with the planes `TexPlanes` and `SamplerPlanes` say. |
| Descriptors.TexPlanes | mesa_src/mesa_vulkan/panvk_vX_descriptor_set_layout.c:70-88 | The texture planes of an entry are the most that any immutable sampler with a conversion needs, and at least as many as the type has. |
| Descriptors.SamplerPlanes | mesa_src/mesa_vulkan/panvk_vX_descriptor_set_layout.c:70-88 | So for its sampler planes. |
| Descriptors.IubExact | mesa_src/mesa_vulkan/panvk_descriptor_set_layout.h:132-147 | The descriptors of an inline uniform block hold its bytes, and no fewer would. |
| Descriptors.SlotsAreDistinct | mesa_src/mesa_vulkan/panvk_descriptor_set_layout.h:149-209 | Every descriptor the application's bindings have, each plane of each immutable sampler included, has a slot below the set's count, and different ones have different slots, for any list of bindings. |
| Descriptors.DynamicSlotsAreDistinct | mesa_src/mesa_vulkan/panvk_vX_descriptor_set_layout.c:151-205 | The same for dynamic buffers in their own numbering. |
| Descriptors.PartsDiffer | mesa_src/mesa_vulkan/panvk_descriptor_set_layout.h:176-198 | Within an element, texture and sampler planes never share an index. |
| Descriptors.PartOrder | mesa_src/mesa_vulkan/panvk_descriptor_set_layout.h:186-195 | Texture planes come first, in order, then sampler planes; a plane past the last stands for the last. |
| Descriptors.LayoutSupport | mesa_src/mesa_vulkan/panvk_vX_descriptor_set_layout.c:278-414 | Supported exactly when every mutable type list has a usable entry and both totals are within the limits; the maximum returned for the binding of variable size is the largest with which the set still fits. |
| Descriptors.AskedIs | mesa_src/mesa_vulkan/panvk_vX_descriptor_set_layout.c:349-386 | What the query counts for a binding is what a layout makes room for, an empty one of variable size taken as four bytes or one descriptor; only an empty block of fixed size is counted as one descriptor and gets none. |
| Descriptors.AllocIs | mesa_src/mesa_vulkan/panvk_vX_descriptor_set.c:516-545 | An allocated set has as many descriptors as a layout in which the binding of variable size has the count it was allocated with. |
| Descriptors.SumPermuted | mesa_src/mesa_vulkan/panvk_vX_descriptor_set_layout.c:295-345 | Sums over the bindings as given and over the sorted bindings agree. |
| Descriptors.SupportBoundsAllocation | mesa_src/mesa_vulkan/panvk_vX_descriptor_set.c:516-545 | If a layout is supported with maximum m, every set allocated with a variable count up to m has at most 2^24 descriptors. |
| Fau.Pack | mesa_src/mesa_vulkan/panvk_vX_cmd_push_constant.c:33-56 | The used words are packed in order behind each other; nothing else is written. |
| Fau.PatchImmediates | mesa_src/mesa_vulkan/panvk_vX_cmd_push_constant.c:58-72 | Each immediate changes exactly its own half-word. |
| Fau.PrepareUniforms | mesa_src/mesa_vulkan/panvk_vX_cmd_push_constant.c:25-75 | Every repeat has its own block: the used system values in order, the first common one being the address of that very block, then push constants, then immediates; blocks do not overlap, other half-words keep what they held, and nothing outside is written. |
| Fau.SysvalRead | mesa_src/mesa_vulkan/panvk_shader.h:273-283 | What a shader reads at the remapped offset of a used system value is, at the same byte: the address of the block it reads for word 2, the printf buffer for word 3, and the command buffer's own value for any other. |
| Fau.PushConstRead | mesa_src/mesa_vulkan/panvk_shader.h:273-283 | So for push constants, which lie behind all system values. |
| Fau.RankIsInjective | mesa_src/mesa_vulkan/panvk_shader.h:273-283 | Different used words are never remapped to the same place. |
| MsImages.Requirements | mesa_src/mesa_vulkan/panvk_image.c:974-1059 | The size is the end of the last sub-image when each is appended aligned, missing ones skipped; the alignment is the largest of all. |
| MsImages.BindImages | mesa_src/mesa_vulkan/panvk_image.c:1239-1321 | The offsets counted back from the total are those of placing the images one behind the other from where the total leaves room. |
| MsImages.BoundImages | mesa_src/mesa_vulkan/panvk_image.c:1239-1321 | With one alignment for all and an aligned memory offset: every sub-image is aligned, behind the base image and behind the sub-images before it, and the last ends exactly at the reported size, for every subset of missing ones. |

## Left out

- Builder.Builder.BlockStart: opening a block while an outermost `if` is still pending is not modelled in one call; the client closes that `if` with `FlushPendingIf` first, which the source does inside the call.
- Constructs.IfStart: likewise for an outermost `if` that is still pending.
- Constructs.WhileStart: likewise.
- Constructs.MatchStart: likewise.
- Constructs.MaybeStart: likewise.
- Builder.Builder.Emit: inside a block; outside any block an instruction goes to the stream, which is `EmitToStream`.
- Builder.Builder.WaitSlots: inside a block; outside any block it is part of `Program.EmitOutside`, which states the same for the stream.
- Builder.Builder.FlushOperands: likewise.
- Builder.Builder.EmitOp: likewise.
- Driver.EmitStmt: inside a block; constructs outside any block are `Outermost.EmitConstruct`, instructions `Program.EmitOutside`.
- Driver.EmitIfElse: inside a block; otherwise `Outermost.BareElse`.
- Driver.EmitWhile: inside a block; otherwise `Outermost.BareWhile`.
- Driver.EmitMatch: inside a block; otherwise `Outermost.BareMatch`.
- Driver.EmitMaybe: inside a block; otherwise `Outermost.BareMaybe`.
- Outermost.BareMaybe: the block is left out when it is closed, as in the source; patching it is a call of its own, `Late.PatchLate`.
- Builder.Builder.EmitToStream: with LOAD_IPs pending in an outermost `if`, only that the stream stays well formed is stated, not the addresses, which `FlushPendingIf` states.
- Program.Record: programs hold no LOAD_IP, whose addresses are stated call by call (`Control.IpsExact`, `Builder.Builder.FlushBlockInstrs`); the chunks are what the supply grants, each at least as large as the builder asks for; the program of a block has to fit one chunk with a link, as the builder's own assertion demands.
- Program.Compile: programs hold no LOAD_IP.
- Emission.EmittedRestores: the function has at least one group to save and its body does not end with an open `if`, which line 2644 asserts; address and placement are not modelled.
- Emission.CallLength: likewise; without anything to save the recorded length is at least the code's.
- LateCalls.PostambleExact: a straight body; in general what is in flight at its end depends on the path.
- Tracker.NoHazard: an instruction that reads memory a store in flight writes is no hazard here; the builder waits for stores at a flush alone, which is `Stores.FlushedStores` and `Stores.FencesHold`.
- Stores.FencesHold: instructions behind a flush inside a loop that hands a store round are not counted; for such a loop with a straight body `LostStores.LoopStoreExact` says what happens.
- LostStores.ElseStoreExact: a straight if arm behind a 32-bit condition; for any arms and conditions `LostStores.ElseStoreOnPath` says it path by path.
- LostStores.LoopStoreExact: a straight body and a 32-bit condition; other loops that hand a store round may or may not wait for it before the flush.
- MemPool.AllocMem: owned pools only; reference counts, locking and mapped memory are not modelled, and a new buffer object is whatever size of at least the one asked for the kernel grants.
- Descriptors.CreateLayout: hashing, the storage-buffer bit mask, immutable sampler copies and allocation failures are not modelled; counts do not overflow 32 bits.
- MsImages.BindImages: one memory binding; planes, sparse images and address assignment are not modelled.
- Fau.PrepareUniforms: allocation of the buffer is a parameter.
- The packing of instruction fields into 64-bit words, other than those the builder patches by hand.
- Calls and jumps of the client (`cs_call`, `cs_jump`), tracing wrappers, cache and endpoint instructions.
- The register-permission and dirty-register callbacks of the configuration; the dirty set of a function is a parameter.
- Error printing and backtraces.
- Descriptor contents, set allocation from the pool's heap and its rollback, set updates and copies.
- The kernel queue, submission, synchronisation objects and buffer-object creation.
- Image formats and modifiers, host image copies, shader lowering, blend and texture descriptors.
