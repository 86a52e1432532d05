# CBPF ownership and compilation, verified

A Dafny model of the three connected parts of the CBPF repository, and proofs about them for all
inputs:

1. **The ownership machine, three times.** `theory/check_model.py` (transitions, two independent
   checkers, an exhaustive explorer), `src/cbpf.c` (the reference interpreter) and `src/gate.c`
   (the same machine over capability handles). `theory/check_conformance.py` replays a finite set
   of histories and says that this is not a refinement proof; here the refinement is proved, in
   both directions, for every program and every history, and for any numbers of cells, registers,
   spill slots and instructions.
2. **The kernel gate** of `linux/ownership/cbpf_runtime.c`: private cells, public views, sticky
   failure, the wrapper's cleanup and the callback witness. `theory/kernel-ownership.md` maps it to
   the ownership machine and says that the map is no refinement proof; here the refinement is
   proved, for every admitted program and down to the compiled image.
3. **The bounded BPF-to-Morello compiler** of `linux/ownership/cbpf_jit.c`: admission as an abstract
   interpretation, the three generation passes, and a small-step machine on which the whole emitted
   image is run. The source language is the subset of RFC 9669 that the compiler admits (MOV of
   section 4.1 with its sign-extended immediate, JEQ, CALL and EXIT of section 4.3, regular loads
   and stores of section 5.1).

The files follow the sources. `OwnershipModel`, `OwnershipOracle`, `OwnershipVerdict`,
`BreadthFirst`, `SearchOrder`, `Explorer` and `ModelCheck` are the Python model; `HostMachine`
(specification), `HostRun` (the interpreter as it runs), `HostOwnership`, `HostTrace`, `Refinement`
and `Conformance` are the reference machine; `GateMachine`, `GateRun` and `GateEquivalence` are the
host gate; `KernelMachine`, `KernelRun`, `KernelOwnership`, `KernelTrace` and `KernelCallbacks` are
the kernel gate; `Bpf`, `Admission`, `AdmissionFixpoint`, `AdmissionSound`, `AdmissionExact`,
`Emission` and `JitRun` are the source language and the compiler; `NativeMachine`, `Templates`,
`BodyCorrect`, `CompilerCorrect` and `AllOnes` are the target and the compiler's correctness;
`KernelProgram`, `KernelRefinement` and `EndToEnd` join the compiler, the kernel gate and the
ownership machine.

Code that updates state in place is imperative here too: classes for `struct cbpf_result`,
`struct gate_state`, `struct cbpf_invocation` and `struct cbpf_compiler`, arrays for their buffers,
loops with invariants. Each such method is proved equal to a specification function, and the
properties are proved about that function.

Premises, each written where it is used: distinct cells have distinct addresses, none of them 0 or
U64_MAX (`KernelMachine.Sane`, `GateMachine.Sane`); the kernel object holds a C `int`; and the kernel
has at least two cells where an admitted program runs on it, as the header does. Where admission is
stated exactly, an instruction's immediate fits its 32-bit field (`AdmissionExact.Fields`).

The gateway reads a value of all ones as a failure. `CompilerCorrect.CompilerIsCorrect` and
`EndToEnd.InvokeComputes` therefore speak of the run as the gateway hears it, without any premise on
the values. `CompilerCorrect.HeardExactly` says when that is the program's own run, and
`EndToEnd.UnambiguousExactly` decides it for the kernel: for every admitted program, if and only if
the object does not hold -1 or no first acquisition can succeed.

In `KernelRefinement` the machine's fixed read answer stands for the object's value, whatever that
is. A call the gate refuses for its acquire argument or for a capability it cannot build is no edge
of the machine, nor is the end of a run at an answer of all ones: cleanup then is the machine's
termination, whatever the reason is called.

## Model

| member | source | states |
|---|---|---|
| OwnershipModel.TransitionsAreFirings | theory/check_model.py:51-98 | an edge is generated if and only if the state is active, the move's operands are in range, and the edge is the one that move fires |
| OwnershipModel.TransitionsOrdered | theory/check_model.py:51-98 | the edges come strictly in the order of the nested loops, so none twice: acquisitions into empty registers before full ones, each class by number; copies before reloads by destination; spills by slot; read before release by register; then the return |
| OwnershipModel.TransitionsUnique | theory/check_model.py:51-98 | a sequence with exactly the enabled edges in that order is the generator's output |
| OwnershipModel.AcquireThenNull | theory/check_model.py:56-69 | each acquisition edge is followed at once by the NULL outcome on the same register |
| OwnershipOracle.StateCheckerExact | theory/check_model.py:101-121 | the state checker accepts exactly the states with the three ownership invariants (consumption, alias range, reference accounting) |
| OwnershipVerdict.StateVerdictExactly | theory/check_model.py:101-121 | the state checker names a fault if and only if the rule it stands for, stated on the state alone, is broken and no rule before it in the text is, acquisition by acquisition |
| OwnershipVerdict.EdgeVerdictExactly | theory/check_model.py:124-211 | the same for every fault of the edge checker: which acquisition is also affected or changed, which identity, answer, alias, count or ending is wrong |
| OwnershipOracle.OracleExact | theory/check_model.py:124-211 | from any state with the invariants, for every capacity and any registers and spills, both checkers accept an edge if and only if the generator produces it |
| OwnershipOracle.FireKeepsOwned | theory/check_model.py:51-98 | every edge, with or without the mutation, keeps the invariants |
| OwnershipOracle.MutantDiffers | theory/check_model.py:89-97 | object-wide revocation equals the correct release exactly when fewer than two acquisitions are live |
| OwnershipOracle.MutantRejectedExactly | theory/check_model.py:81-97 | the mutant's targets always pass the state checker; the edge checker rejects exactly its valid releases with two or more live acquisitions |
| BreadthFirst.Nearest | theory/check_model.py:219-242 | a state reached by a clean path is discovered with a history no longer than that path |
| BreadthFirst.Reject | theory/check_model.py:230-239 | the history reported for a bad edge is a real path, and no counterexample is shorter |
| BreadthFirst.Conclude | theory/check_model.py:243-244 | an exhausted queue means there is no counterexample, and the discovered states are exactly the reachable ones |
| BreadthFirst.History | theory/check_model.py:231-238 | walking the parent map and reversing yields the labels of the discovered path |
| SearchOrder.FirstRejected | theory/check_model.py:224-242 | the rejected edge ends the first counterexample of all, by length and then by the positions of its edges in the successor lists |
| SearchOrder.DoneExactly | theory/check_model.py:224-242 | the states expanded before a state are exactly those that some clean path reaches earlier in that order |
| Explorer.UniverseComplete | theory/check_model.py:101-121 | every state the search can discover lies in one finite universe, the search's termination measure |
| Explorer.Explore | theory/check_model.py:214-244 | for all sizes it terminates; says verified exactly when no reachable edge fails a checker, and then counts reachable states, terminal states and edges exactly; otherwise returns the first counterexample in the generator's order, the checkers' verdict on its last edge, and the exact counts of discovered states and checked edges at that point |
| ModelCheck.MachinePasses | theory/check_model.py:247-268 | the unmutated machine has no counterexample, for any sizes |
| ModelCheck.MutantNeedsThree | theory/check_model.py:81-97 | a counterexample to the mutant has at least three edges, and needs capacity 2 and a register |
| ModelCheck.MutantKilled | theory/check_model.py:261-266 | for every capacity of 2 or more with a register, the mutant has a three-edge counterexample |
| ModelCheck.MutantFirst | theory/check_model.py:261-266 | for all such bounds the mutant's first counterexample is acquire(0), acquire(1), release(0), or acquire(0) again where there is one register |
| ModelCheck.Check | theory/check_model.py:247-268 | the program's verdict, for all bounds: okay exactly when the capacity is usable and, with the mutation check, the mutant can be killed; its report is that history and the fault that the release also affects the other acquisition |
| HostRun.Validate | src/cbpf.c:4-39 | accepts exactly the programs of a legal size that end in a return and whose instructions are known, name registers and slots that exist, acquire with 0 or 1 and branch forward inside the program; otherwise blames 0 for the size, the least instruction that does not, or the last |
| HostMachine.ValidExactly | src/cbpf.c:4-39 | the validator's rules are those conditions on operands and successors, and its blame is theirs |
| HostMachine.RunRejects | src/cbpf.c:49-60 | the result of a program that is not accepted is invalid, blames that index, and is otherwise empty at baseline 1 |
| HostMachine.BlamesUnique | src/cbpf.c:4-39 | the reported index is determined by the program |
| HostRun.StepOnce | src/cbpf.c:61-121 | one iteration of the interpreter on its arrays is the specified step, and records at most one event |
| HostRun.CleanupCells | src/cbpf.c:122-130 | the cleanup loop in place is the specified sweep, within the event buffer |
| HostRun.Interpret | src/cbpf.c:61-121 | the loop never indexes out of range, ends by a return or a trap, and leaves the specified configuration |
| HostRun.Run | src/cbpf.c:49-132 | the result structure the caller gets is the specified result of the run, for every program |
| HostOwnership.EveryStepAccounted | src/cbpf.c:61-131 | after every number of iterations: references are 1 + acquired - explicit - cleanup = 1 + live cells, aliases name acquired cells, effect counts match liveness |
| HostOwnership.StepIndependent | src/cbpf.c:87-99 | only a release through an alias of cell i changes cell i, once, and a consumed cell never becomes live again |
| HostOwnership.ExecEnds | src/cbpf.c:105-121 | every run of a valid program ends at a return or at a trap of the opcode that can raise it |
| HostOwnership.RunBalanced | src/cbpf.c:122-131 | every finished run is at baseline 1 with explicit + cleanup = 1 for each acquired cell and 0 for the others |
| HostTrace.TraceFaithful | src/cbpf.c:41-47 | folding the events alone reproduces the counters; each event's reference count is the balance of its prefix; program pcs strictly increase; the buffer bound holds |
| Refinement.StepMatches | src/cbpf.c:61-121 | each instruction takes the model edge of its move, and a null branch is a stutter |
| Refinement.RunRefines | src/cbpf.c:49-132 | the run of every valid program is a path of the model, edge by edge, ending in the same terminal reason, counts and reference count |
| Conformance.ReplayFrom | theory/check_conformance.py:68-99 | from any replayed state, translating the rest of a history predicts the rest of the run |
| Conformance.HistoryConforms | theory/check_conformance.py:154-162 | for every complete model history that fits, of any length, the built program's run equals the predicted observation, event list included, and the return after a trap never executes |
| Conformance.BranchConforms | theory/check_conformance.py:124-139 | after any replay, the branch program takes the NULL exit exactly on token 0 and produces the predicted observation |
| Conformance.HistoryBranchConforms | theory/check_conformance.py:171-173 | the same after every unfinished model history that fits, for every register |
| GateMachine.PreparedIsView | src/gate.c:35-54 | preparation either fails or publishes exactly the canonical view |
| GateMachine.ViewsDistinct | src/gate.c:56-63 | views of distinct cells differ under exact comparison, and none is NULL |
| GateEquivalence.IdentifyRecovers | src/gate.c:65-80 | table lookup recovers the token of every handle a program can hold |
| GateRun.IdentifyHandle | src/gate.c:69-80 | the lookup loop finds the first exact match and reports a miss only when there is none |
| GateRun.StepGate | src/gate.c:192-246 | one iteration over cells, views, registers, result and metrics is the specified step |
| GateRun.CleanupGate | src/gate.c:248-252 | the final loop consumes and logs exactly the cells still holding authority |
| GateRun.Run | src/gate.c:170-254 | result and metrics in place are those of the specification, for every program |
| GateEquivalence.AdvanceLifts | src/gate.c:192-246 | when no preparation fails, each gate step is the reference step seen through the handle table |
| GateEquivalence.GateIsReference | src/gate.c:170-254 | with its views prepared, the gate's result equals the reference result field by field and event by event, and its metrics are the trace's counts |
| GateEquivalence.HostGateIsReference | src/gate_demo.c:81-102 | on the host build at the sizes of src/cbpf.h, the two agree on every program |
| GateEquivalence.GateRefusal | src/gate.c:100-103 | otherwise the gate stops before the first acquisition whose view fails: events are a prefix of the reference run's and then cleanup, status invalid, baseline restored, no effect of the failed acquisition |
| KernelMachine.ExactMeans | linux/ownership/cbpf_runtime.c:43-54 | construction is tagged exactly when the hardware produced the requested capability, and then is it |
| KernelRun.GateImpl | linux/ownership/cbpf_runtime.c:92-153 | the gate on the invocation's fields is the specified call; without an active invocation it reports failure and changes nothing |
| KernelRun.TestInvoke | linux/ownership/cbpf_runtime.c:378-413 | refuses a nested or ungated program; otherwise returns the specified value, empties the slot and leaves the reference count as it was; the log ends with failed and the value is 0, or with exit and the value is the program's, and no earlier line ends it |
| KernelOwnership.EveryCallSound | linux/ownership/cbpf_runtime.c:92-153 | over any sequence of entries and calls with any arguments: refs = base + acquired - released, tagged cells = acquired - released, canonical views, a balanced and numbered log, one acquisition and at most one cut per cell |
| KernelOwnership.GateAdvances | linux/ownership/cbpf_runtime.c:92-153 | views are distinct and never change, consumed cells never regain authority, the log only grows |
| KernelOwnership.ConsumeLogged | linux/ownership/cbpf_runtime.c:75-89 | a release cuts the stored authority before the count drops, and both lines of it balance |
| KernelOwnership.FailureIsSticky | linux/ownership/cbpf_runtime.c:99-100 | after a failure a call changes only the trace and fails again |
| KernelOwnership.EntersFirst | linux/ownership/cbpf_runtime.c:494-500 | over any calls, the invocation enters exactly if an entry is accepted before any gate call |
| KernelTrace.CallPrints | linux/ownership/cbpf_runtime.c:56-153 | every call prints what came of it, at its own pc and with the state's own counts: one reject, null, acquire or read line, or a clear line with the old counts and a release line with the new |
| KernelTrace.CleanupPrints | linux/ownership/cbpf_runtime.c:395-397 | cleanup prints a clear and a cleanup line for each cell that still held authority, in order, and for no other |
| KernelTrace.InvokePrints | linux/ownership/cbpf_runtime.c:391-400 | for every call list the log is the calls' lines, the cleanup's lines and one last line at baseline: failed exactly if a call was rejected or the program never entered, else exit; no other line is either |
| KernelCallbacks.AcquireExactly | linux/ownership/cbpf_runtime.c:101-126 | with a free cell, an acquisition succeeds exactly if both capabilities can be built, and then takes the next cell and publishes its canonical view |
| KernelOwnership.UseExactly | linux/ownership/cbpf_runtime.c:129-152 | on the view of an acquired cell, a read or release succeeds exactly if the cell still holds authority, and affects that cell alone |
| KernelOwnership.UseRefused | linux/ownership/cbpf_runtime.c:127-137 | any other capability or operation is rejected |
| KernelOwnership.FailureSignal | linux/ownership/cbpf_runtime.c:24 | a reply reads as failure exactly if the invocation failed, or a read returned an object holding -1 |
| KernelOwnership.FailureSignalAmbiguous | linux/ownership/cbpf_runtime.c:448-449 | an object holding -1 makes a successful read look like a failure |
| KernelOwnership.InvokeBalances | linux/ownership/cbpf_runtime.c:391-412 | however the program runs, the wrapper ends with acquired = released, refs at the baseline, no authority left, every acquired cell cut exactly once, and 0 exactly for a failed or never entered run or a zero program result |
| KernelCallbacks.DispatchRetained | linux/ownership/cbpf_runtime.c:263-307 | one alias retained by every callback: for every limit, the first release succeeds, the second is refused and no third callback runs |
| KernelCallbacks.DispatchIndependent | linux/ownership/cbpf_runtime.c:282-290 | two aliases: both callbacks release their own cell, the second after reading it |
| KernelCallbacks.RetainedPrints | linux/ownership/cbpf_runtime.c:263-291 | the retained alias is released at pc 4 and refused at pc 6 |
| KernelCallbacks.IndependentPrints | linux/ownership/cbpf_runtime.c:263-291 | the independent aliases are released at pc 4, and read at pc 6 and released at pc 7 |
| KernelCallbacks.DispatchCallbacks | linux/ownership/cbpf_runtime.c:293-307 | the dispatcher's loop in place stops at the first rejection |
| KernelCallbacks.CallbackCheck | linux/ownership/cbpf_runtime.c:309-362 | on an idle CPU at the baseline the check passes exactly if the capabilities it needs can be built and, when it reads, the object holds 42; teardown always restores the count |
| AdmissionFixpoint.JoinIsLub | linux/ownership/cbpf_jit.c:90-101 | join is the least upper bound of two flow entries |
| AdmissionFixpoint.TransferMonotone | linux/ownership/cbpf_jit.c:122-188 | a larger entry passes on larger states, along at least the same edges |
| AdmissionFixpoint.PropagateProcessed | linux/ownership/cbpf_jit.c:113-189 | processing a pc leaves every entry up to it unchanged and closed |
| AdmissionFixpoint.AdmittedIsClosed | linux/ownership/cbpf_jit.c:103-192 | on acceptance every instruction is reached, passes its checks, and the table is closed under every transfer |
| AdmissionFixpoint.AdmittedIsLeast | linux/ownership/cbpf_jit.c:103-192 | the table lies below every other closed annotation that contains the entry state |
| AdmissionFixpoint.AdmittedExactly | linux/ownership/cbpf_jit.c:103-192 | the one pass accepts exactly the programs whose least closed annotation reaches every instruction, passes every check and does not run off the end, with one or two acquisition sites and an exit |
| AdmissionFixpoint.AdmittedCounts | linux/ownership/cbpf_jit.c:163 | an accepted program has one or two acquisition sites and an exit |
| AdmissionExact.CheckExactly | linux/ownership/cbpf_jit.c:113-189 | an instruction passes its checks exactly if it is reached, its fields are those of an admitted encoding, it is no third acquisition site, and no configuration its entry describes gets stuck under any lawful gate; it is unsupported exactly if it is reached and its code is outside the grammar |
| AdmissionExact.TransferTight | linux/ownership/cbpf_jit.c:122-188 | what an instruction passes on is covered by every table that describes its steps, so no transfer is wider than it must be |
| AdmissionExact.AdmittedSemantically | linux/ownership/cbpf_jit.c:103-192 | without naming a check, a transfer or a join: a program is accepted if and only if its fields are admitted encodings with one or two acquisition sites and an exit, some inductive table of kinds lets no step get stuck and does not reach the end, and every inductive table reaches every instruction; the error is unsupported exactly if an instruction outside the grammar is reached behind instructions that pass |
| AdmissionSound.StepConsistent | linux/ownership/cbpf_jit.c:113-189 | every step from a described configuration is defined and lands in a described one inside the program |
| AdmissionSound.AdmissionIsSound | linux/ownership/cbpf_jit.c:80-192 | under any lawful gate, a run of an accepted program uses no undefined value, tests only nulls and handles, passes each call the argument its contract demands, and ends in a scalar or a refusal |
| JitRun.Compiler.AdmitOne | linux/ownership/cbpf_jit.c:113-189 | the switch on one instruction gives the specified error, and otherwise updates the table in place as specified |
| JitRun.Compiler.Admit | linux/ownership/cbpf_jit.c:103-192 | the pass over the flow table gives the specified verdict, table and recorded operations |
| JitRun.Compiler.Word | linux/ownership/cbpf_jit.c:194-211 | a word is appended, written or compared; it is refused, with the failure flag set, exactly without room or for an unencodable instruction |
| JitRun.Compiler.EmitBody | linux/ownership/cbpf_jit.c:264-311 | a pass without an image records each start, the others find it; the words are the blocks in order |
| JitRun.Compiler.EmitEpilogue | linux/ownership/cbpf_jit.c:313-350 | the two exits and the executive length are recorded, or found as recorded |
| JitRun.Compiler.Generate | linux/ownership/cbpf_jit.c:352-358 | every pass visits the recorded layout; a write pass produces the image; a check pass over any image of the right length fails exactly if it differs from it in some word |
| JitRun.Compile | linux/ownership/cbpf_jit.c:369-445 | a program requested, of the scheduler class, unblinded, without functions or maps and of 1 to 64 instructions is, given memory, accepted exactly if admitted, with the image of the recorded layout, at most 426 words, and byte offsets of its starts; no self-check can fail; any other is unsupported |
| JitRun.Match | linux/ownership/cbpf_jit.c:66-78 | a program is gated exactly if it is marked or has a call with source 2, destination 0 and a kfunc that resolves to acquire, read or release |
| Bpf.OperationExactly | linux/ownership/cbpf_jit.c:47-64 | an instruction has operation k exactly if its fields are those of a call to the kfunc k |
| JitRun.AdmittedMatches | linux/ownership/cbpf_jit.c:66-78 | every admitted program is gated |
| Emission.WordCount | linux/ownership/cbpf_jit.c:352-358 | the length of a pass is the sum of the template lengths, whatever layout it reads, and at most 426 |
| Emission.NativeRegInjective | linux/ownership/cbpf_jit.c:27 | distinct BPF registers have distinct native registers |
| Emission.MarksPlaced | linux/ownership/cbpf_jit.c:233-244 | the image opens with the branch-target mark, signs the return address before saving it and authenticates it after restoring it, each exactly if the build asks for it, and has no other such word |
| Templates.ImmediateRebuilds | linux/ownership/cbpf_jit.c:213-220 | MOVZ and k MOVKs leave the value modulo 2^(16(k+1)), whatever the register held |
| Templates.ImageHolds | linux/ownership/cbpf_jit.c:264-350 | the image holds prologue, body, restricted exit and epilogue at the recorded places |
| NativeMachine.GateClears | linux/ownership/cbpf_runtime.c:434-478 | after a gate call every register is zero but the result, the continuation, the sidecar's address, the gate, the four that survive calls and the exit, which keep their values |
| BodyCorrect.StepFollows | linux/ownership/cbpf_jit.c:264-311 | each BPF step is followed by its block, and between two instructions every register outside that list and the BPF registers is zero |
| BodyCorrect.BranchFollows | linux/ownership/cbpf_jit.c:289-292 | a compiled null test goes to the block of the BPF target or of the next instruction |
| BodyCorrect.AfterCallRelated | linux/ownership/cbpf_runtime.c:434-478 | through the gateway the surviving BPF registers keep their values and r0 gets the result |
| BodyCorrect.RunFollows | linux/ownership/cbpf_jit.c:264-311 | from the first body word the machine follows the whole BPF run on the values that are defined, to the executive epilogue with the scalar, or with 0 after a refusal |
| CompilerCorrect.EnterDecides | linux/ownership/cbpf_runtime.c:482-551 | with the prologue's arguments, entry succeeds exactly if an invocation is active, not yet entered and not failed, its program is the cookie, the sidecar's address is 16-byte aligned and does not wrap, the caller's return address is a word inside the executive range, and the capabilities can be constructed; otherwise it returns to the executive code with the range error if only the construction failed, and the invalid-argument error if a check did |
| CompilerCorrect.EntryRegions | linux/ownership/cbpf_jit.c:245-250 | the executive region handed to cbpf_enter is exactly the epilogue at the image's end, right behind the restricted exit |
| CompilerCorrect.EntryRefused | linux/ownership/cbpf_jit.c:256-260 | a refused entry reaches the executive epilogue with result 0 |
| CompilerCorrect.Returns | linux/ownership/cbpf_jit.c:313-350 | from the executive epilogue the function returns x7, restores the caller's frame and callee-saved registers, and leaves zero in every other register but the tag test's flag and the sealed return |
| CompilerCorrect.ScrubRuns | linux/ownership/cbpf_jit.c:327-332 | the scrub zeroes the sidecar and every register below 30 except the result, which keeps its 64-bit value only |
| CompilerCorrect.CompilerIsCorrect | linux/ownership/cbpf_jit.c:233-358 | for every admitted program, lawful gate, build and caller state, the image runs from its first word to a return with the scalar and the gate calls of the program's run on the gate as the gateway hears it, where all ones is a refusal |
| CompilerCorrect.HeardExactly | linux/ownership/cbpf_runtime.c:448-453 | for every program, gate and configuration, the run as heard equals the run if and only if no value the run receives is all ones |
| CompilerCorrect.HeardExits | linux/ownership/cbpf_runtime.c:448-453 | a run as heard that exits is the program's own run |
| AllOnes.AllOnesIsLost | linux/ownership/cbpf_runtime.c:448-453 | one admitted program which, on every gate that grants it a handle and then reads all ones, returns all ones while the run as heard aborts |
| AllOnes.CompiledReturnsZero | linux/ownership/cbpf_runtime.c:448-453 | the image of that program, on every such lawful gate, returns 0 for every build and caller |
| KernelProgram.KernelGateObeys | linux/ownership/cbpf_runtime.c:92-153 | the kernel gate keeps the kfuncs' contracts, and no value reads as failure unless the object holds -1 |
| KernelProgram.RefusedExactly | linux/ownership/cbpf_runtime.c:104-137 | a call that admission allows is refused exactly for an out-of-range acquire argument, a capability that cannot be built, or a consumed handle |
| KernelProgram.AdmissionDischarges | linux/ownership/cbpf_jit.c:146-177 | no run of an admitted program meets the gate's capacity, unknown-view, tagged-argument or bad-operation rejection |
| EndToEnd.UnambiguousExactly | linux/ownership/cbpf_runtime.c:448-453 | on the kernel gate, every admitted program's run as heard is its own run if and only if the object does not hold -1 or the first cell's capabilities cannot be built |
| EndToEnd.KernelReadsAllOnes | linux/ownership/cbpf_runtime.c:127-145 | otherwise the kernel gate itself grants the first view and reads all ones through it |
| EndToEnd.InvokeComputes | linux/ownership/cbpf_runtime.c:378-413 | for every kernel, cbpf_test_invoke of the compiled image returns the scalar of the run as heard, truncated to 32 bits, or 0 when entry is refused or that run aborts; the session failed exactly if entry was refused or the gate refused the last call; every acquisition is released and the count is at its baseline |
| EndToEnd.InvokeReturnsProgram | linux/ownership/cbpf_runtime.c:378-413 | under the exact condition above, the same with the BPF program's own run |
| KernelRefinement.KernelRefines | linux/ownership/cbpf_runtime.c:92-153 | every run of an admitted program on the kernel gate, or on the gate as heard, is a path of the ownership machine with ten registers and one spill slot: the gate calls and answers are the path's edges in order, a use of a consumed handle is its stale fault, and the invocation after the wrapper has the terminal state's identities, per-identity effects, totals and reference count |
| KernelRefinement.CallSimulates | linux/ownership/cbpf_runtime.c:92-153 | an accepted call is one edge of the machine, with the same answer, and keeps every handle the program holds an alias of the identity the machine records |
| KernelRefinement.FinishStands | linux/ownership/cbpf_runtime.c:391-412 | the wrapper's cleanup, exit line and scrub are the machine's termination, effect by effect |
| EndToEnd.InvokeRefines | linux/ownership/cbpf_runtime.c:378-413 | from the compiled image to the machine: an entered invocation of the image ends in the session that such a path describes |

## Left out

- The `A64_*` encoders are not part of this model: instructions are constructors, and an encoder
  returns the break-fault instruction exactly for operands outside its field (16-bit immediates,
  19- and 26-bit word displacements, a 1 MB address displacement). BTI and pointer authentication
  words are present in the layout and have no effect.
- NativeMachine.Enter: whether `cbpf_enter` can construct and seal its capabilities, with the
  permissions it asks for, is one boolean of the environment. Sealed entries are opaque register
  values.
- Kernel services: allocation is a boolean argument of `JitRun.Compile`; locking, cache maintenance,
  messages other than the gate's trace lines, BTF registration and the saving of `rddc`/`rcsp` are
  not modelled. Compilation frees nothing.
- The Linux verifier: a stale handle is a run-time rejection here as in the source.
- KernelMachine.Take: `refcount_t` saturation is not modelled, because the count stays within the
  baseline and the baseline plus the number of cells. The 32-bit wrap of the sequence and read
  counters is modelled.
- HostMachine.Run: the 64-bit width of `imm` is not modelled, because the machine only compares and
  copies it. A null program pointer is an empty program, and the gate's metrics pointer is never null.
- `cbpf_guard_check`, a fixed sequence of three gate calls: an instance of `KernelOwnership.UseExactly`.
- `theory/check_conformance.py`'s `Host` and `check`, and `tools/conformance_bridge.c`: flat arrays
  and the finite work list; observations are compared as records and the replay is a theorem.
- `theory/check_oracle.py`, `theory/check_ownership_cve.py`, the demonstrations, `linux/kfunc`, the
  guest programs, the tools and the evidence records: finite cases, I/O or hardware observation.
- Concurrency: the sources state that gate, wrapper and callbacks are synchronous.
