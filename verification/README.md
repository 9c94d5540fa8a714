# Batched dual execution: a verified model

The repository is a two-party computation library that stays secure against a malicious partner by running
garbled circuits in both directions, in batches. Each party garbles many copies of one circuit, some copies are
opened and checked, the rest are grouped into buckets, and every circuit of a bucket is evaluated by the other
party. A private set intersection at the end lets the parties find a value that both computed.

This project models that library bottom up and proves what it relies on at each level:

- **Circuits and their compiler.** `Gates` and `Circuits` are the gate tables and plain circuits.
  `Dags`, `BristolFiles`, `DagCircuits`, `Inverts`, `InvertValues`, `WrongOutputs`, `Reduction`, `Irreducible`,
  `Reaches`, `Linearize`, `ToCircuit` and `Compiler` take a Bristol-format file to a circuit: reading it into a doubly
  linked graph, removing INV gates by rewriting truth tables, and emitting the graph depth-first with an explicit stack
  and recursion.
- **Garbling.** `Schemes` is the argument for any gate-by-gate garbling scheme; `HalfGates` is the half-gate scheme
  with free XOR and point-and-permute, `Lanes` the lane-wise addition by which its tweaks count; `GarbledCircuits` is
  whole-circuit garbling, evaluation and validation; `HashTweaks` is what the hash reads and why no use repeats another;
  `ClassicCircuits` is the four-row scheme, a second instance of the same argument.
- **Buckets.** `BitVectors` are bit vectors in a growing byte buffer, `KProbe` and `KProbeVectors` encode inputs against
  probing, `Packages` forms and opens garbled packages, `BucketMessages`,
  `Buckets`, `HonestBuckets` and `BucketRuns` run one bucket between two honest parties, from the first
  message to the value that the set intersection compares.
- **Oblivious transfer.** `Transpose`, with its table of masks in `TransposeMasks`, and `CarrylessMul` are the two
  bit-level kernels and `OTExtension` the protocol on top.
- **Modular arithmetic.** `Limbs` and `Montgomery` are multi-limb Montgomery multiplication and exponentiation;
  `Residues` proves Euler's criterion from the definition of a prime, and `SquareRoots` is Shanks's algorithm on top of it.
- **Concurrency.** `MpscQueue`, `PsiProtocol`, `AsyncPsi` and `SlotProtocol` are state machines over every interleaving of
  their threads; `Barriers` is the counter and promise that the set intersections wait at. `OutputPromises` puts both
  parties' slots, the intersection between them and the threads' reports together, up to the bucket's output promise;
  `BothDirections` runs both intersections of a bucket at once, with the check of the output translation between them.
  `Reports` follows the reports for any parties, honest or not.
- **Allocation.** `Allocation` is how circuits, buckets and transfers are shared out between threads, and `Transfers` how
  the threads at both ends then use the transfers. `Counting` holds the facts about sizes of sets that several modules need,
  and `XorSums` those about running exclusive-ors, which are parities of counts.

A *block* is 128 bits with exclusive-or; its low bit is the permute bit. AES, the fixed-key permutation of the hash,
the commitment and the pseudo-random streams are arbitrary functions, passed as parameters; a theorem that needs
commitments to be injective says so (`Binding`). Code is imperative where the repository's is: the classes
`Circuit`, `Linearizer`, `DagCircuit`, `HalfGtGarbledCircuit`, `ClassicGarbledCircuit`, `BitVector`, `CircuitPackage`,
`CommCircuitPackage`, `Bucket`, `OTExtReceiver`, `OTExtSender` and `ZpData` update their fields and arrays in place, and
each method is proved against a relation or a function whose own properties are lemmas.

The build modelled is the release build with `ADAPTIVE_SECURE`, `ENCODABLE_KPROBE` and `PARALLEL_PSI` on and
`ASYNC_PSI` off in buckets.

## What the code does that its callers may not expect

- `Circuit::AddGate` compares a gate's inputs with `>` and so accepts the wire it is about to create
  (`Circuits.AddGateAcceptsItsOwnWire`). The circuit stays well formed exactly when both inputs are older wires
  (`Circuits.WithGateWellFormedIff`).
- `Circuit::AddGate` accepts an INV gate, and garbling then treats it as AND (`GarbledCircuits.InvertGateIsGarbledAsAnd`).
  For one gate the ten half-gate types are exactly those whose garbled table is right (`Gates.GarbledFaithfullyIff`,
  `GarbledCircuits.GatesAgreeIff`). For a circuit they suffice (`GarbledCircuits.EvaluationIsPlainEvaluation`) but are not
  needed (`GarbledCircuits.UnreadInvertGateIsHarmless`): on an input all wires are right exactly when every gate's table is
  right on the operands it meets (`GarbledCircuits.RealisedIsSameIff`).
- `invertOutput` inverts a child once per entry of the child list, so a gate with one node as both of its operands is
  corrupted (`InvertValues.DoubledConjunctionBreaks`). It is meaning-preserving exactly when every such doubled gate has
  equal table entries for its two equal-operand rows (`InvertValues.InvertOutputFlipsIff`).
- `removeInvertGates` does not always rid a graph of INV gates. It does exactly when no output's INV gate shares its
  feeder with another INV gate or follows an input or INV gate, and no two-operand gate reads an output's INV gate or a
  chain of INV gates (`Irreducible.ReducibleIff`; `Irreducible.SharedFeederStays` is a file that fails).
- `removeInvertGates` can return with wrong outputs, in two ways. It complements the node that feeds an output's INV gate,
  and if that node is recorded as feeding another output, one of the two is wrong on every input: a file that asks for c
  and for NOT c gets NOT c twice (`WrongOutputs.BothPolaritiesGoWrong`). And a gate that reads such a node at both operands
  has both inverted: with outputs c AND c and NOT c the first is complemented (`WrongOutputs.DoubledFeederGoesWrong`). The
  outputs are kept exactly when no node that feeds an output's INV gate is itself an output and inverting both operands of
  the gates that read one twice changes no output (`WrongOutputs.SameOutputsIff`). For a file this says that no INV line
  leads from one output wire to another, and that an AND line which reads twice a wire that an INV line negates to an
  output may as well be an INV line (`Compiler.ReducedComputesIff`). If one output's INV gate follows another's, the gate
  loop may look for a child that is no longer listed and write past the list (`WrongOutputs.ChainRunsOff`); otherwise it
  never does (`InvertValues.NeverRunsOff`).
- `readBris` reads a line's inputs into an array of two before it checks their number, so a first bad line with more than
  two inputs is written past the array and does not throw (`DagCircuits.DagCircuit.ReadBris`).
- `BitVector::equals` skips a last byte that is full, so it decides equality exactly for sizes that are not multiples of
  eight (`BitVectors.EqualsIsEqualityIff`). On empty vectors its index of the last byte wraps around and it compares
  whole buffers, past their end unless they differ (`BitVectors.BitVector.Equals`).
- `sqrRootMod` modulo p = 1 (mod 4) has no exit for a number that is not a square or is a non-zero multiple of p
  (`SquareRoots.LoopsEndIff`; `SquareRoots.TwoModuloFive` is an instance).
- A thread that finds its value stored already draws a new one and compares that with the later values only, so a draw
  that repeats an earlier value is stored twice (`SlotProtocol.RedrawMayRepeat`). The value stored is new exactly when it
  is not among those before the last match (`SlotProtocol.ScanIsNewIff`).
- The asynchronous sender cannot be driven by one thread input after input, as the repository itself notes
  (`AsyncPsi.SerialUseIsStuck`); a waiting sender thread goes on exactly when all have received and the last to arrive has
  set the promise (`AsyncPsi.GoesOnIff`).
- A thread of `DualExActor::initRecv` waits for its own encoding size of transfers but consumes the other party's; its waits
  end exactly under the condition of `Transfers.WaitsEndIff`, which an encoding that is longer by enough misses
  (`Transfers.LongerEncodingSticks`).
- `Bucket::sendCircuitInputs` sizes the partner's corrections with its own input count, so the partner gets them exactly if
  both input counts agree (`BucketMessages.CorrectionsArriveIff`; `BucketMessages.UnequalInputsFail` is a circuit on which
  one party sends too little and the other throws).

## Model

| member | source | states |
|---|---|---|
| Gates.AlphasDescribeTable | libBDX/Circuit/Gate.h:51-54 | The three alpha bits describe the gate as a conjunction with inverted inputs and output: what the half-gate scheme garbles |
| Gates.NamedTables | libBDX/Circuit/Gate.h:8-26 | Each of the sixteen type numbers is the table that its name says |
| Gates.RefusedIff | libBDX/Circuit/Circuit.cpp:56-61 | The types refused are those that ignore an operand, except the negation of the first |
| Gates.GarbledFaithfullyIff | libBDX/Circuit/HalfGtGarbledCircuit.cpp:213-262 | A gate's garbled table agrees with its truth table on all inputs exactly for the ten half-gate types |
| Circuits.Circuit.AddGate | libBDX/Circuit/Circuit.cpp:49-66 | Throws exactly on an out-of-range input or a refused type, leaving the circuit alone; otherwise appends one gate on the next wire and counts it if it is not free |
| Circuits.WithGateWellFormedIff | libBDX/Circuit/Circuit.cpp:49-66 | An accepted gate leaves a well-formed circuit well formed if and only if both inputs are wires that already exist |
| Circuits.AddGateAcceptsItsOwnWire | libBDX/Circuit/Circuit.cpp:51-54 | The range test lets a gate read the wire it defines |
| Circuits.AcceptedIff | libBDX/Circuit/Circuit.cpp:49-66 | A gate is accepted exactly if neither input lies beyond its own wire and its table asks both operands, or it is a negation |
| Circuits.NonXorCountIsSize | libBDX/Circuit/Circuit.cpp:63-63 | The counter kept is the number of gates that are not free |
| Circuits.WithGateKeepsValues | libBDX/Circuit/Circuit.cpp:49-66 | Adding a gate changes the value of no earlier wire on any input |
| Circuits.Circuit.AddOutputWire | libBDX/Circuit/Circuit.h:56-62 | Throws exactly on a wire that does not exist, else appends one output |
| Circuits.Circuit.Evaluate | libBDX/Circuit/Circuit.cpp:148-160 | The gate loop gives every wire its value under the recursive semantics, and ignores what the buffer held beyond the inputs |
| Circuits.Circuit.Translate | libBDX/Circuit/Circuit.cpp:162-173 | Output i is the label of output wire i |
| Circuits.Circuit.XorShareInputs | libBDX/Circuit/Circuit.cpp:176-218 | The three loops build exactly the shared circuit: one XOR gate per input, then the old gates and outputs shifted |
| Circuits.SharedComputesOnXor | libBDX/Circuit/Circuit.cpp:176-218 | On every pair of shares the shared circuit outputs what the original outputs on their exclusive-or |
| Circuits.SharedIsWellFormed | libBDX/Circuit/Circuit.cpp:176-218 | Sharing keeps gate order, wire count, output range and the non-XOR count |
| Dags.ValuationIsUnique | libBDX/Circuit/DagCircuit.h:36-87 | On an acyclic graph any assignment that obeys every gate is the recursive value of every node |
| BristolFiles.EveryGateHasItsLine | libBDX/Circuit/DagCircuit.cpp:138-212 | A file with as many lines as gate wires and distinct line outputs defines every gate wire |
| BristolFiles.AllLinesRead | libBDX/Circuit/DagCircuit.cpp:165-210 | After the line loop the graph is the file's: parents, types, outputs, child lists matching parent lists with multiplicity, and the two-operand gates counted |
| BristolFiles.AcceptedLines | libBDX/Circuit/DagCircuit.cpp:165-210 | Accepted are exactly the files of XOR, AND and INV lines with one output wire and at most two input wires |
| BristolFiles.NonInvertCountIsSize | libBDX/Circuit/DagCircuit.cpp:165-210 | The count of other lines is the number of lines that are not INV lines |
| DagCircuits.DagCircuit.ReadBris | libBDX/Circuit/DagCircuit.cpp:138-212 | Returns exactly if no line is rejected, and then the graph is the file's and mNonInvertGateCount counts its non-INV lines; otherwise it throws, except that it has written past its array of two if the first rejected line has more inputs |
| DagCircuits.DagCircuit.InvertInput | libBDX/Circuit/DagCircuit.cpp:74-87 | Throws exactly when the node is not a parent; else inverts the table at each operand that is it |
| DagCircuits.DagCircuit.InvertOutput | libBDX/Circuit/DagCircuit.cpp:89-101 | Refines the graph function: throws on an input node or an unrelated child, else complements the gate and inverts child operands |
| DagCircuits.DagCircuit.DropOutputInvert | libBDX/Circuit/DagCircuit.cpp:245-264 | Refines the graph function for one output, including the throw and the search that may run off the child list |
| DagCircuits.DagCircuit.ReduceInvert | libBDX/Circuit/DagCircuit.cpp:103-135 | Refines the graph function for one gate: an INV gate leaves its parent's child list, another absorbs the INV gates it reads |
| DagCircuits.DagCircuit.RemoveInvertGates | libBDX/Circuit/DagCircuit.cpp:240-273 | Refines the two loops, ending the same way with the same graph |
| Inverts.InvertChildrenAt | libBDX/Circuit/DagCircuit.cpp:97-100 | Inverting along a child list inverts a gate exactly when it occurs in the list an odd number of times |
| Inverts.RemoveOneContents | libBDX/Circuit/DagCircuit.cpp:111-113 | Overwriting the found entry with the last and dropping the last removes one occurrence and nothing else |
| Inverts.RemoveOneAt | libBDX/Circuit/DagCircuit.cpp:111-113 | The last entry takes the place of the first occurrence and all others stay |
| InvertValues.InvertOutputFlipsIff | libBDX/Circuit/DagCircuit.cpp:89-101 | After invertOutput the graph has the same values with the node flipped if and only if no gate that reads the node twice tells its two equal-operand rows apart |
| InvertValues.DoubledConjunctionBreaks | libBDX/Circuit/DagCircuit.cpp:89-101 | A conjunction of a node with itself, beside the INV gate of an output that calls invertOutput on the node: the value is lost |
| InvertValues.AbsorbKeepsValues | libBDX/Circuit/DagCircuit.cpp:119-133 | Absorbing an INV operand into the table keeps the value of every node |
| InvertValues.OutputLoop | libBDX/Circuit/DagCircuit.cpp:245-264 | If no feeder of an output's INV gate is an output: the types are those with each feeder seen complemented and each operand that is one inverted once per reading, the outputs have moved to their feeders, child lists match but for the gates let go, and the loop throws only if an input feeds an output's INV gate |
| InvertValues.GateLoop | libBDX/Circuit/DagCircuit.cpp:266-270 | The gate loop keeps every valuation, the order and the outputs, and never looks for a missing child |
| InvertValues.RemoveInvertGatesComputes | libBDX/Circuit/DagCircuit.cpp:240-273 | If no feeder of an output's INV gate is an output, whenever removeInvertGates returns, the graph is still acyclic and computes on every input what the old one does with both operands inverted in each gate that reads a feeder twice; and it never runs off a child list |
| InvertValues.NeverRunsOff | libBDX/Circuit/DagCircuit.cpp:240-273 | If no output's INV gate follows another output's, neither loop searches a child list in vain |
| WrongOutputs.RoughLoop | libBDX/Circuit/DagCircuit.cpp:245-264 | On every graph, after the output loop an output is still on its node or has moved off an INV gate that its feeder no longer lists, and a one-operand gate has changed only if it or its operand was complemented |
| WrongOutputs.MovedGateIsCopy | libBDX/Circuit/DagCircuit.cpp:103-116 | If the gate loop returns, every INV gate that an output moved off has become a copy of its operand |
| WrongOutputs.SameOutputsNeed | libBDX/Circuit/DagCircuit.cpp:240-273 | If removeInvertGates returns with the same outputs on every input, no node that feeds an output's INV gate is an output; of the acyclic graph only matching lists are asked |
| WrongOutputs.SameOutputsIff | libBDX/Circuit/DagCircuit.cpp:240-273 | For every returning run: the outputs are the same on every input if and only if no feeder of an output's INV gate is an output and inverting both operands of the gates that read a feeder twice changes no output |
| WrongOutputs.RemoveInvertGatesPreserves | libBDX/Circuit/DagCircuit.cpp:240-273 | A returning run keeps all outputs if no feeder is an output or read twice by a gate that tells equal operands apart |
| WrongOutputs.BothPolaritiesGoWrong | libBDX/Circuit/DagCircuit.cpp:245-264 | Outputs c and NOT c: removeInvertGates returns, and the first output is complemented on every input |
| WrongOutputs.DoubledFeederGoesWrong | libBDX/Circuit/DagCircuit.cpp:245-264 | Outputs c AND c and NOT c: no feeder is an output, removeInvertGates returns, and the first output is complemented on every input |
| WrongOutputs.ChainRunsOff | libBDX/Circuit/DagCircuit.cpp:103-116 | Outputs NOT c and NOT NOT c in a chain: the gate loop searches a child list in vain |
| Reduction.TidyLoop | libBDX/Circuit/DagCircuit.cpp:245-264 | If every output's INV gate follows a two-operand gate the output loop returns; unary gates are copies exactly below flipped feeders, and each flipped feeder has let go of exactly one INV gate |
| Reduction.AbsorbTames | libBDX/Circuit/DagCircuit.cpp:119-133 | On a reducible graph absorbing never throws and leaves an operand that is no unary gate |
| Reduction.TameAfter | libBDX/Circuit/DagCircuit.cpp:266-270 | The gate loop always returns and keeps that state |
| Reduction.ReducibleBecomesEmittable | libBDX/Circuit/DagCircuit.cpp:240-273 | On a reducible graph removeInvertGates returns, and what is reached is exactly the original's two-operand gates, all of half-gate types |
| Irreducible.PassedAfter | libBDX/Circuit/DagCircuit.cpp:266-270 | Whenever the gate loop returns, one-operand gates are as before, copies are still listed, and every two-operand gate has skipped exactly the INV gates it read |
| Irreducible.ReducibleIff | libBDX/Circuit/DagCircuit.cpp:240-273 | removeInvertGates returns with exactly the two-operand gates left to emit, of half-gate types, if and only if the graph is reducible |
| Irreducible.SharedFeederStays | libBDX/Circuit/DagCircuit.cpp:245-264 | NOT (a AND b) as two outputs is a graph it does not reduce |
| Linearize.Linearizer.Emit | libBDX/Circuit/DagCircuit.cpp:304-313 | A node whose parents are emitted becomes the next gate, reading its parents' new wires; throws only on a refused type |
| Linearize.Linearizer.DepthFirstAdd | libBDX/Circuit/DagCircuit.cpp:278-328 | The recursion terminates by unmarked nodes, keeps the emission invariant, restores the stack below its argument and leaves no child of a marked node both unmarked and unstacked |
| Linearize.Linearizer.AddParents | libBDX/Circuit/DagCircuit.cpp:293-301 | The parent loop marks every parent, emits it before the node, and keeps the set of half-done nodes |
| Linearize.Linearizer.AddChildren | libBDX/Circuit/DagCircuit.cpp:317-327 | The child loop marks or stacks every child |
| Linearize.EmitKeepsGood | libBDX/Circuit/DagCircuit.cpp:304-313 | Emitting one more node keeps the invariant that gate k is node order[k] over its parents' wires |
| ToCircuit.ToCircuit | libBDX/Circuit/DagCircuit.cpp:330-369 | For every acyclic graph: succeeds exactly when no reached gate has a refused type and every output is reached; then the gates are the reached gates, each once, parents first, and the circuit's outputs are the graph's on every input |
| ToCircuit.AddOutputs | libBDX/Circuit/DagCircuit.cpp:364-368 | Throws exactly when some output node was never emitted, else the outputs are the nodes' new wires |
| ToCircuit.MarkedIsLive | libBDX/Circuit/DagCircuit.cpp:351-352 | Once the stack is empty the marked nodes are closed under parents and children, so they hold everything reached |
| Reaches.LiveHoldsReached | libBDX/Circuit/DagCircuit.cpp:339-352 | What the inputs reach along child and parent links is the least set closed under them |
| Reaches.LinkedIsAllReached | libBDX/Circuit/DagCircuit.cpp:339-352 | In an acyclic graph a closed set whose gates all hang from their parents by child lists is exactly what is reached |
| ToCircuit.EmittedBit | libBDX/Circuit/DagCircuit.cpp:304-313 | The wire of an emitted node carries the node's value on every input |
| ToCircuit.ComputesOutputs | libBDX/Circuit/DagCircuit.cpp:330-369 | The finished circuit is well formed and computes the graph's outputs |
| Compiler.ReadReduced | libBDX/Circuit/Circuit.cpp:68-93 | For every acyclic file: whenever it returns there is one gate per non-INV line, and the circuit computes the file exactly if no INV line joins two output wires and misreading the doubled AND lines changes no output; without such an INV line it computes the file so misread and never runs off a child list; it returns with half-gate types only exactly if no line is rejected and the file is reducible; a rejected line ends it as in reading |
| Compiler.FileIsRegular | libBDX/Circuit/DagCircuit.cpp:165-210 | Every accepted acyclic file reads as a graph with what removal of INV gates relies on: one-operand gates negate, two-operand gates are half gates, outputs differ, and child lists match parent lists |
| Compiler.ReducedComputesIff | libBDX/Circuit/Circuit.cpp:68-93 | A circuit built from the reduced graph computes the file on every input if and only if no INV line leads from one output wire to another and the file with its doubled AND lines misread has the same outputs; with the first alone it computes the misread file |
| Compiler.TwistedMeansMisread | libBDX/Circuit/DagCircuit.cpp:89-101 | The graph with both operands inverted in each gate that reads a feeder twice means the file in which each AND line that reads twice a wire negated to an output is an INV line of it |
| Compiler.HalfGatesMeanReducible | libBDX/Circuit/DagCircuit.cpp:240-369 | If what is emitted after a returning removal has half-gate types only and one gate per non-INV line, the file is reducible |
| Compiler.ReadPlain | libBDX/Circuit/Circuit.cpp:68-93 | Without reduction it returns exactly if no line is rejected, and then the circuit computes the file with one gate per line; else it ends as reading does |
| Compiler.CompiledComputes | libBDX/Circuit/Circuit.cpp:68-93 | File, graph and circuit agree: if a graph means the file, a circuit emitted from one with the same outputs gives, on any wire values that obey every line of the file, the file's outputs |
| Compiler.LinearisationSize | libBDX/Circuit/DagCircuit.cpp:330-369 | A linearisation emits as many gates as there are live gates |
| Schemes.Simulation | libBDX/Circuit/HalfGtGarbledCircuit.cpp:281-361 | For every gate-correct scheme, circuit and offset: if inputs are active labels of some bits, every wire's label is its zero label offset by its bit |
| Schemes.GarblingIsUnique | libBDX/Circuit/HalfGtGarbledCircuit.cpp:168-279 | Equal input labels leave no freedom in any wire label or table |
| HalfGates.GateSimulation | libBDX/Circuit/HalfGtGarbledCircuit.cpp:219-262 | One gate, every hash, offset with low bit 1, pair of zero labels and pair of bits: evaluating its two rows on the active labels gives the active output label |
| HalfGates.HalfGateSchemeCorrect | libBDX/Circuit/HalfGtGarbledCircuit.cpp:168-361 | The half-gate scheme with masked tables is gate-correct, so the simulation theorem applies |
| HashTweaks.HashReadsKey | libBDX/Circuit/HalfGtGarbledCircuit.cpp:213-262 | A hash depends on the fixed-key permutation at one key only, and changes by what the permutation changes there |
| HashTweaks.TableReadsKeys | libBDX/Circuit/HalfGtGarbledCircuit.cpp:213-262 | A table reads the permutation at the keys of both labels of both inputs, each input under its own tweak, and nowhere else |
| HashTweaks.TweaksAreUsed | libBDX/Circuit/HalfGtGarbledCircuit.cpp:190-262 | The running tweaks and the output hashes use the tweaks listed |
| HashTweaks.TweaksNeverRepeat | libBDX/Circuit/HalfGtGarbledCircuit.cpp:190-262 | In a circuit that fits 64 bits no two hash uses, by either input of any gate or by any output and bit, share a tweak |
| HashTweaks.KeysNeverRepeat | libBDX/Circuit/HalfGtGarbledCircuit.cpp:213-262 | So no label meets the permutation twice with one key, nor do both labels of a wire in one use |
| HalfGates.GarbleGate | libBDX/Circuit/HalfGtGarbledCircuit.cpp:213-262 | The straight-line code, with four hashes in an array, running tweak blocks and mask position, makes the scheme's zero label and masked table for the gate that the counters stand at, and counts them on exactly if the gate is not free |
| HalfGates.EvaluateGate | libBDX/Circuit/HalfGtGarbledCircuit.cpp:310-345 | The straight-line code, unmasking the table in its own copy of the masks, makes the scheme's active label and counts tweaks and mask position on; masks still to come are untouched |
| Lanes.AddedLanes | libBDX/Common/Defines.h:78-81 | Adding blocks adds their 64-bit lanes as numbers modulo 2 to the 64 |
| Lanes.CountUp | libBDX/Common/Defines.h:78-81 | Adding one block counts the low lane on and leaves the high lane |
| Lanes.ShiftDoubles | libBDX/Circuit/HalfGtGarbledCircuit.cpp:236-240 | Shifting the lanes left doubles each modulo 2 to the 64 |
| Lanes.LanesDiffer | libBDX/Circuit/HalfGtGarbledCircuit.cpp:190-200 | Numbers below 2 to the 64 are read back from their lanes |
| GarbledCircuits.HalfGtGarbledCircuit.Garble | libBDX/Circuit/HalfGtGarbledCircuit.cpp:168-279 | The loop, with tweaks and mask position as running state, makes the honest garbling of the seed, masks and circuit |
| GarbledCircuits.HalfGtGarbledCircuit.GarbleSend | libBDX/Circuit/HalfGtGarbledCircuit.cpp:37-164 | Working in the caller's wire buffer and a send buffer of one table per gate that is not free, the tables and translation bits sent are the same honest garbling, and the circuit's own table list is untouched |
| GarbledCircuits.EvaluateTables | libBDX/Circuit/HalfGtGarbledCircuit.cpp:281-361 | The evaluation loop in place, with running tweaks and a copy of the masks that it unmasks into, gives every wire the label the tables determine |
| GarbledCircuits.HalfGtGarbledCircuit.Evaluate | libBDX/Circuit/HalfGtGarbledCircuit.cpp:281-361 | Evaluation on the circuit's own tables |
| GarbledCircuits.HalfGtGarbledCircuit.Validate | libBDX/Circuit/HalfGtGarbledCircuit.cpp:363-479 | Accepts exactly what honest garbling of the opened seed makes: accepted means the view is that garbling, rejected means no honest garbling of that seed has these tables and translation bits |
| GarbledCircuits.HalfGtGarbledCircuit.Translate | libBDX/Circuit/HalfGtGarbledCircuit.cpp:481-504 | Output i is the permute bit of its label against the translation bit |
| GarbledCircuits.HonestGarblingIsUnique | libBDX/Circuit/HalfGtGarbledCircuit.cpp:37-279 | A seed, masks and a circuit have at most one honest garbling, so the buffer form and the plain form agree |
| GarbledCircuits.EveryWireEncodesItsBit | libBDX/Circuit/HalfGtGarbledCircuit.cpp:168-361 | After evaluating an honest garbling every label is its zero label offset by the wire's plain bit |
| GarbledCircuits.EvaluationIsPlainEvaluation | libBDX/Circuit/HalfGtGarbledCircuit.cpp:168-504 | Garble, evaluate and translate give the plain outputs on every input |
| GarbledCircuits.EvaluationIsRealised | libBDX/Circuit/HalfGtGarbledCircuit.cpp:168-504 | For every circuit, half-gate types or not: garble, evaluate and translate give the outputs of the circuit with each gate's garbled table |
| GarbledCircuits.GatesAgreeIff | libBDX/Circuit/HalfGtGarbledCircuit.cpp:213-262 | All gates' garbled tables agree with their own on all operands if and only if every gate has a half-gate type |
| GarbledCircuits.RealisedIsSameIff | libBDX/Circuit/HalfGtGarbledCircuit.cpp:213-262 | On any input, all wires carry the plain bits after garbling if and only if every gate's garbled table is right on the operands it meets |
| GarbledCircuits.UnreadInvertGateIsHarmless | libBDX/Circuit/HalfGtGarbledCircuit.cpp:213-262 | A circuit with an INV gate that nobody reads has the plain outputs on every input |
| GarbledCircuits.InvertGateIsGarbledAsAnd | libBDX/Circuit/HalfGtGarbledCircuit.cpp:213-262 | A one-gate circuit that AddGate accepts and garbling changes |
| GarbledCircuits.MismatchMeansNotGarbled | libBDX/Circuit/HalfGtGarbledCircuit.cpp:457-460 | One table that differs rules out every honest garbling with these tables |
| GarbledCircuits.RemaskedIsHonest | libBDX/Circuit/HalfGtGarbledCircuit.cpp:213-262 | Each mask is in exactly one row and nothing else depends on the masks: other masks give the same labels and translation, and tables that differ by the difference of the masks |
| ClassicCircuits.ClassicGateSimulation | libBDX/Circuit/ClassicGarbledCircuit.cpp:51-84 | One gate of any of the sixteen types: the active operand labels point at and decipher the active output label, given a cipher with an inverse |
| ClassicCircuits.RowIsLockedTwice | libBDX/Circuit/ClassicGarbledCircuit.cpp:57-84 | Every row is under the keys of both operand labels |
| ClassicCircuits.DrawnDiffer | libBDX/Circuit/ClassicGarbledCircuit.cpp:35-93 | Under an injective cipher no block drawn from the seed is drawn twice |
| ClassicCircuits.ClassicSchemeCorrect | libBDX/Circuit/ClassicGarbledCircuit.cpp:35-125 | The four-row scheme is gate-correct, so the simulation theorem applies |
| ClassicCircuits.ClassicGarbledCircuit.GarbleRows | libBDX/Circuit/ClassicGarbledCircuit.cpp:57-84 | The swapped permute array puts row i where the operands' permute bits say |
| ClassicCircuits.ClassicGarbledCircuit.Garble | libBDX/Circuit/ClassicGarbledCircuit.cpp:35-93 | The loops make the seed's garbling: offset, input labels, a fresh label and a table per gate, and the translation bits |
| ClassicCircuits.ClassicGarbledCircuit.Evaluate | libBDX/Circuit/ClassicGarbledCircuit.cpp:95-130 | Throws exactly on a wrong number of labels or, for the garbler itself, a label that is not one of its wire's two; else the labels are those the tables determine |
| ClassicCircuits.ClassicGarbledCircuit.Translate | libBDX/Circuit/ClassicGarbledCircuit.cpp:173-196 | Throws exactly when the garbler finds an output label that is not its wire's label for the translated bit |
| ClassicCircuits.ClassicWireEncodesItsBit | libBDX/Circuit/ClassicGarbledCircuit.cpp:35-130 | After evaluation every label is its zero label offset by the wire's plain bit |
| ClassicCircuits.ClassicEvaluationIsPlain | libBDX/Circuit/ClassicGarbledCircuit.cpp:35-196 | Garble, evaluate and translate give the plain outputs for every circuit and input, and the garbler's own checks pass |
| KProbe.EncodeBlocks | libBDX/Circuit/KProbeResistant.cpp:212-238 | The same round trip for labels |
| KProbe.DecodeBlocks | libBDX/Circuit/KProbeResistant.cpp:285-314 | The same for labels, written through the caller's array |
| KProbe.DecodedBitsXor | libBDX/Circuit/KProbeResistant.cpp:241-270 | Decoding is linear in the encoding |
| KProbe.BitDotIsParity | libBDX/Circuit/KProbeResistant.cpp:241-270 | The row product of bits is the parity of those that the row selects |
| KProbe.BlockDotIsSum | libBDX/Circuit/KProbeResistant.cpp:285-314 | The row product of labels is the sum of those that the row selects |
| KProbe.DecodedActiveLabels | libBDX/Circuit/KProbeResistant.cpp:241-314 | Decoding active labels of encoded bits gives active labels of the decoded bits, for every offset |
| KProbeVectors.EncodeBits | libBDX/Circuit/KProbeResistant.cpp:179-209 | On byte-buffer bit vectors: throws exactly on a wrong length; else the encoding keeps the random free part and decodes to the input, for every matrix |
| KProbeVectors.DecodeInto | libBDX/Circuit/KProbeResistant.cpp:241-270 | On byte-buffer bit vectors: throws exactly on a wrong length; else the input is the decoding |
| KProbeVectors.DecodeBits | libBDX/Circuit/KProbeResistant.cpp:241-270 | The same on values, through vectors of its own: throws exactly on a wrong length; else bit i is its own coordinate plus the row's product with the free part |
| KProbeVectors.ProjectedParity | libBDX/Circuit/KProbeResistant.cpp:196-200 | Copying, masking and taking the parity is the row's product with the free part |
| KProbeVectors.RoundTrip | libBDX/Circuit/KProbeResistant.cpp:179-270 | Encoding and decoding through the byte buffers gives the input back |
| BitVectors.BitVector.Append | libBDX/Common/BitVector.cpp:168-198 | Appends exactly the source bits from the offset, byte by byte or bit by bit, and keeps the old bits |
| BitVectors.BitVector.Copy | libBDX/Common/BitVector.cpp:271-276 | The vector becomes the source's bits from idx, whatever it held before |
| BitVectors.BitVector.Resize | libBDX/Common/BitVector.cpp:231-248 | Keeps the bits that fit, in the old buffer or a new one |
| BitVectors.BitVector.Reserve | libBDX/Common/BitVector.cpp:223-229 | Makes room and leaves the vector as it was |
| BitVectors.BitVector.Reset | libBDX/Common/BitVector.cpp:251-269 | All bits are zero, also in a buffer used before |
| BitVectors.BitVector.SetBit | libBDX/Common/BitVector.cpp:18-33 | Assigning one bit changes that bit only |
| BitVectors.BitVector.AndWith | libBDX/Common/BitVector.cpp:334-340 | Bytewise conjunction is bitwise conjunction with the other vector's prefix |
| BitVectors.BitVector.XorWith | libBDX/Common/BitVector.cpp:342-349 | Bytewise exclusive-or is exclusive-or of the bits |
| BitVectors.BitVector.Equals | libBDX/Common/BitVector.cpp:353-374 | True exactly if all bits agree, leaving out a last byte that is full; on empty vectors it leaves the buffers exactly if they agree as far as both go, and else is false |
| BitVectors.EqualsIsEqualityIff | libBDX/Common/BitVector.cpp:368-370 | So it decides equality if and only if the size is not a multiple of eight |
| BitVectors.BitVector.ParityOf | libBDX/Common/BitVector.cpp:385-410 | The parity of exactly the vector's bits: true if and only if an odd number of them is set |
| Packages.CommitLabels | libBDX/DualEx/CircuitPackage.cpp:121-156 | Each label pair is committed in the order its decoded choice bit says |
| Packages.HashOutputs | libBDX/DualEx/CircuitPackage.cpp:158-198 | Every output wire yields the hashes of its two labels under its index |
| Packages.CircuitPackage.Init | libBDX/DualEx/CircuitPackage.cpp:38-94 | The tables, translation bits and commitments sent are the honest offer of the three seeds |
| Packages.CircuitPackage.InitOT | libBDX/DualEx/CircuitPackage.cpp:96-120 | Takes the next encodingSize choice bits, advances the transfer index by as many, and commits own inputs in the order the decoded choices give |
| Packages.CheckLabels | libBDX/DualEx/CircuitPackage.cpp:422-433 | Accepts exactly the commitments that honest committing makes |
| Packages.CommCircuitPackage.Open | libBDX/DualEx/CircuitPackage.cpp:309-436 | Accepts exactly honest packages: on success the received offer and commitments are the honest ones of the opened seeds and choices and the transfer sum grows by the chosen messages; on failure no honest run makes them |
| Packages.ChosenSumIsSum | libBDX/DualEx/CircuitPackage.cpp:393-410 | The transfer sum takes the chosen message of every transfer once |
| Packages.ChosenSumFlip | libBDX/DualEx/CircuitPackage.cpp:393-410 | Another choice in one transfer changes it by the difference of that transfer's messages |
| Packages.GarblingIsDetermined | libBDX/DualEx/CircuitPackage.cpp:335-366 | The opened seeds determine the whole garbled view |
| BucketMessages.UnmaskedIsActive | libBDX/DualEx/Bucket.cpp:276-324 | With correct transfers, unmasking gives the active labels of the receiver's choices |
| BucketMessages.CorrectedLabelsEncodeInput | libBDX/DualEx/Bucket.cpp:592-703 | Decoded labels offset by the garbler's correction are active labels of the evaluator's input, in every circuit of the bucket though only circuit 0's choices were corrected |
| BucketMessages.OpensInputIff | libBDX/DualEx/Bucket.cpp:362-404 | With injective commitments, labels pass the consistency check if and only if they encode the one input correction plus decoded choices of circuit 0 |
| BucketRuns.OneInputIff | libBDX/DualEx/Bucket.cpp:362-404 | With injective commitments, whatever labels and correction arrive, the check of a whole bucket accepts if and only if the labels of all circuits encode one input: correction plus decoded choices of circuit 0 |
| BucketMessages.HonestInputOpens | libBDX/DualEx/Bucket.cpp:362-404 | Honest labels pass the consistency check without any assumption on the commitment |
| BucketMessages.AgreedIsSymmetric | libBDX/DualEx/Bucket.cpp:541-575 | The value the two parties agree on does not depend on who garbled |
| BucketMessages.AgreedIsSum | libBDX/DualEx/Bucket.cpp:541-575 | The compared value sums up both parties' labels of all outputs, each once |
| BucketMessages.AgreedFlip | libBDX/DualEx/Bucket.cpp:573-573 | Flipping output i changes it by exactly that output's label differences |
| BucketMessages.AgreedConcat | libBDX/DualEx/Bucket.cpp:541-575 | Over outputs in two groups it is the sum of the groups' values |
| BucketMessages.AgreedSameIff | libBDX/DualEx/Bucket.cpp:541-575 | Two output vectors give one value if and only if the label differences of the outputs at which they differ cancel out |
| BucketMessages.OutputLabelTranslates | libBDX/DualEx/Bucket.cpp:546-563 | An output label opens the translation entry to the garbler's common label of exactly its bit |
| BucketMessages.TranslationOpensIff | libBDX/DualEx/Bucket.cpp:729-764 | A translation opens to the committed hashes if and only if it is the honest one |
| Buckets.Bucket.InitSend | libBDX/DualEx/Bucket.cpp:89-195 | Sends every circuit's translation to the common labels, and each circuit's choices relative to circuit 0's |
| Buckets.Bucket.InitRecv | libBDX/DualEx/Bucket.cpp:32-87 | Throws exactly on a delta of the wrong length; else stores translations and decoded deltas |
| Buckets.Bucket.InitKProbeInputSend | libBDX/DualEx/Bucket.cpp:197-274 | Sends k-probe labels masked by the transfer messages and keeps their decoding |
| Buckets.Bucket.InitKProbeInputRecv | libBDX/DualEx/Bucket.cpp:276-324 | Throws exactly when some unmasked label does not open its commitment; else keeps the decoded labels |
| Buckets.OpensKProbeIff | libBDX/DualEx/Bucket.cpp:276-324 | With injective commitments exactly the labels of the choices open |
| Buckets.Bucket.CorrectInput | libBDX/DualEx/Bucket.cpp:340-350 | The correction sent is the decoded choices of circuit 0 plus the input |
| Buckets.Bucket.SendCircuitInputs | libBDX/DualEx/Bucket.cpp:592-703 | For every circuitStep-th circuit from circuitOffset on: own active input labels, then the first of the partner's corrections, as many as this party has inputs; throws exactly if that is more than the partner has |
| BucketMessages.CorrectionsArriveIff | libBDX/DualEx/Bucket.cpp:667-703 | The partner, which waits for one block per input of its own, receives exactly its corrections if and only if both input counts agree; else it receives none, and the party with more inputs throws |
| BucketMessages.UnequalInputsFail | libBDX/DualEx/Bucket.cpp:667-703 | One input against two: the first party sends one correction of two and the second throws |
| BucketMessages.OneThreadPerCircuit | libBDX/DualEx/Bucket.cpp:612-612 | Threads with offsets below the step share a bucket's circuits out, each circuit to exactly one |
| Buckets.Bucket.EvalCircuit | libBDX/DualEx/Bucket.cpp:408-590 | Places both parties' labels in the wire buffer, evaluates, and leaves the translated bits and the psi value |
| Buckets.Bucket.CheckInputs | libBDX/DualEx/Bucket.cpp:362-404 | Accepts exactly when every circuit's received labels open their commitments in corrected order |
| Buckets.Bucket.CheckTranslation | libBDX/DualEx/Bucket.cpp:729-764 | Accepts exactly when common labels and translation hash to the committed outputs |
| Buckets.Combine | libBDX/DualEx/Bucket.cpp:535-575 | The output loop yields the translated bits, and the sum over all outputs of hash, translation value and own common label for the bit |
| HonestBuckets.KProbeLabelsOpen | libBDX/DualEx/Bucket.cpp:197-324 | Between honest parties every unmasked k-probe label opens, and is the active label of its choice |
| HonestBuckets.OwnLabelsEncode | libBDX/DualEx/Bucket.cpp:488-501 | The evaluator's corrected labels encode its input in every circuit |
| HonestBuckets.OtherLabelsOpen | libBDX/DualEx/Bucket.cpp:362-404 | The garbler's own labels pass the evaluator's consistency check |
| HonestBuckets.OutputLabelEncodes | libBDX/DualEx/Bucket.cpp:526-561 | Every evaluated output label is the zero label offset by the plain output bit |
| HonestBuckets.EvaluationIsRight | libBDX/DualEx/Bucket.cpp:408-590 | One circuit's translated bits are the plain outputs and its psi value depends only on them and the two parties' common labels |
| HonestBuckets.TranslationOpens | libBDX/DualEx/Bucket.cpp:715-764 | The honest common labels pass checkTranslation |
| HonestBuckets.PsiIsAgreed | libBDX/DualEx/Bucket.cpp:541-575 | The psi sum is the sum of both parties' common labels of the output bits |
| HonestBuckets.DisagreementShows | libBDX/DualEx/Bucket.cpp:535-580 | Two evaluations by either party with outputs x and y give one value if and only if the label differences where x and y differ cancel out; if one output alone differs, exactly if both parties' labels of it differ by the same block |
| BucketRuns.SetUp | libBDX/DualEx/Bucket.cpp:32-324 | Set-up between honest parties never throws and leaves decoded labels and orders matching the garbler's secrets |
| BucketRuns.EvaluateAll | libBDX/DualEx/Bucket.cpp:328-590 | Every circuit of the bucket yields the plain outputs and the same psi value |
| BucketRuns.Finish | libBDX/DualEx/Bucket.cpp:328-764 | Neither the input check nor the translation check throws |
| BucketRuns.Run | libBDX/DualEx/Bucket.cpp:32-764 | For every circuit, inputs, seeds, masks and choices: two honest parties get past the corrections exactly if both have the same number of inputs, and then run to the end, all outputs in both buckets are plain evaluation on both inputs, and all psi values of both parties are one value |
| Transpose.SwapNarrow | libBDX/OT/Tools.cpp:171-209 | The masked shifts of two rows exchange exactly the off-diagonal halves of width below 64 |
| Transpose.SwapWide | libBDX/OT/Tools.cpp:210-243 | The 64-bit step does the same across lanes |
| Transpose.PassMasks | libBDX/OT/Tools.cpp:145-166 | The table's two words for each pass are exactly the positions whose index bit is 0, for both lanes |
| TransposeMasks.NarrowMask | libBDX/OT/Tools.cpp:145-153 | Bit p of both words for a width below 64 is set exactly if p div width is even |
| Transpose.Pass | libBDX/OT/Tools.cpp:160-243 | One pass of the nested loops in place is the swap of one index bit |
| Transpose.PassAdvances | libBDX/OT/Tools.cpp:143-246 | A pass of width w moves the matrix from the stage of the wider width to its own |
| Transpose.EklundhTranspose | libBDX/OT/Tools.cpp:143-246 | The array in place becomes its exact 128 by 128 bit transpose |
| Transpose.TransposeTwice | libBDX/OT/Tools.cpp:143-246 | Transposing twice is the identity |
| CarrylessMul.Mul128 | libBDX/OT/Tools.cpp:64-81 | Four half products recombined are the 256-bit polynomial product over two-element field |
| CarrylessMul.ProductBit | libBDX/OT/Tools.cpp:64-81 | Bit k of the 256 bits is the parity of the pairs of set bits whose degrees add up to k |
| CarrylessMul.ProductOfUnits | libBDX/OT/Tools.cpp:64-81 | The product of two monomials is the monomial of the sum of the degrees, in the low or the high half |
| CarrylessMul.NoZeroDivisors | libBDX/OT/Tools.cpp:64-81 | A product is zero if and only if a factor is |
| CarrylessMul.CoefOfHalves | libBDX/OT/Tools.cpp:64-81 | Each coefficient of the product splits over the four half products |
| CarrylessMul.CoefCommutes | libBDX/OT/Tools.cpp:64-81 | Coefficients of a product do not depend on the order of the factors |
| CarrylessMul.ProductXor | libBDX/OT/Tools.cpp:64-81 | The product is linear |
| CarrylessMul.ProductCommutes | libBDX/OT/Tools.cpp:64-81 | The product commutes |
| OTExtension.RowsCorrelate | libBDX/OT/OTExtSender.cpp:232-246 | With correct base transfers a sender row is the receiver row offset by the choice bit times delta |
| OTExtension.RowsAreCorrelated | libBDX/OT/OTExtSender.cpp:225-291 | So it is for every row of every block after transposition |
| OTExtension.CheckHolds | libBDX/OT/OTExtSender.cpp:307-382 | Correlated rows always pass the correlation check, by linearity of the product |
| OTExtension.SumsAreSums | libBDX/OT/OTExtReceiver.cpp:340-362 | The check's sums take every row's product and every chosen challenge once |
| OTExtension.CheckPassesIff | libBDX/OT/OTExtSender.cpp:307-382 | For rows that deviate in any way the check passes if and only if the products of the deviations with the challenges cancel out |
| OTExtension.OneAlteredRowFails | libBDX/OT/OTExtSender.cpp:307-382 | With one row altered it fails unless that row's challenge block is zero |
| OTExtension.OTExtReceiver.Start | libBDX/OT/OTExtReceiver.cpp:180-246 | Choice bits are extended to whole blocks and the seed is committed |
| OTExtension.OTExtReceiver.NextBlock | libBDX/OT/OTExtReceiver.cpp:246-320 | One block: columns expanded, corrections sent, rows transposed and hashed; published messages never change |
| OTExtension.OTExtReceiver.TakeRows | libBDX/OT/OTExtReceiver.cpp:280-320 | Every index below the published counter holds its final message |
| OTExtension.OTExtReceiver.Finish | libBDX/OT/OTExtReceiver.cpp:320-371 | The three check values are the sums over all rows; surplus choice bits are dropped |
| OTExtension.OTExtSender.NextBlock | libBDX/OT/OTExtSender.cpp:225-291 | The sender's side of one block; published message pairs never change |
| OTExtension.OTExtSender.TakeRows | libBDX/OT/OTExtSender.cpp:254-290 | Every index below the published counter holds its final pair, rows past otCount are kept for the check only |
| OTExtension.OTExtSender.Finish | libBDX/OT/OTExtSender.cpp:295-382 | Accepts exactly a matching seed commitment and equal sums |
| OTExtension.Extend | libBDX/OT/OTExtSender.cpp:172-385 | For every count, also not a multiple of 128: the check passes and the receiver's message i is the sender's message of choice i |
| Limbs.AddMul1 | libBDX/OT/Math/Zp_Data.cpp:68-74 | Limb multiply-accumulate with carry: exact value equation, other limbs untouched |
| Limbs.Mul1 | libBDX/OT/Math/Zp_Data.cpp:67-67 | Limb multiplication with carry: exact value equation |
| Limbs.AtLeast | libBDX/OT/Math/Zp_Data.cpp:78-78 | Limb comparison is comparison of values |
| Limbs.SubN | libBDX/OT/Math/Zp_Data.cpp:80-80 | Limb subtraction with borrow: exact value equation |
| Limbs.ValueUnique | libBDX/OT/Math/Zp_Data.cpp:61-86 | A value has one limb representation |
| Montgomery.CarriesFit | libBDX/OT/Math/Zp_Data.cpp:73-74 | The two carries of a round together fit the one limb they are added into |
| Montgomery.RoundBound | libBDX/OT/Math/Zp_Data.cpp:69-75 | A running value below twice the modulus stays so after a round |
| Montgomery.SumClears | libBDX/OT/Math/Zp_Data.cpp:69-75 | The quotient digit clears the lowest limb |
| Montgomery.RoundEquation | libBDX/OT/Math/Zp_Data.cpp:69-75 | What a round keeps: running value times radix power is the partial product plus a multiple of the modulus |
| Montgomery.ZpData.FirstRound | libBDX/OT/Math/Zp_Data.cpp:66-68 | The first round establishes that equation and bound in the accumulator |
| Montgomery.ZpData.NextRound | libBDX/OT/Math/Zp_Data.cpp:69-75 | Each further round keeps them, with no carry lost |
| Montgomery.ZpData.FinalSubtract | libBDX/OT/Math/Zp_Data.cpp:78-85 | The conditional subtraction leaves the reduced value below the modulus |
| Montgomery.ZpData.MontMult | libBDX/OT/Math/Zp_Data.cpp:61-86 | For every limb count, odd modulus and y below it: throws exactly on a non-zero top limb, else the result is below the modulus and times the radix power congruent to the product |
| Montgomery.ZpData.Mul | libBDX/OT/Math/modp.cpp:186-191 | Multiplying Montgomery forms of a and b gives the form of a times b |
| Montgomery.ZpData.Power | libBDX/OT/Math/modp.cpp:257-271 | Throws exactly on a negative exponent, else gives the form of the power |
| Montgomery.FormsMultiply | libBDX/OT/Math/modp.cpp:186-191 | The arithmetic behind it: one reduction cancels one radix power |
| Montgomery.CancelRadix | libBDX/OT/Math/Zp_Data.cpp:61-86 | Radix powers cancel modulo a number that has an inverse digit |
| Montgomery.PowHalves | libBDX/OT/Math/modp.cpp:257-271 | Square-and-multiply keeps result times base to the remaining exponent |
| Residues.Wilson | libBDX/OT/Math/bigint.cpp:15-24 | Wilson's theorem, by pairing residues with their inverses |
| Residues.EulerCriterion | libBDX/OT/Math/bigint.cpp:15-24 | For every odd prime and number it does not divide, the power (p-1)/2 is one for squares and minus one for others |
| SquareRoots.LegendreIsSymbol | libBDX/OT/Math/bigint.cpp:23-23 | Euler's formula computes the Legendre symbol |
| SquareRoots.SplitPower | libBDX/OT/Math/bigint.cpp:25-31 | p - 1 is split into an odd number and a power of two |
| SquareRoots.LeastOrder | libBDX/OT/Math/bigint.cpp:44-49 | The inner loop ends, at the least number of squarings, one or more, that gives one, and below r |
| SquareRoots.StartsWell | libBDX/OT/Math/bigint.cpp:32-40 | The initial x, y, b and r satisfy the invariant a b = x^2, y^(2^(r-1)) = -1, b^(2^(r-1)) = 1 |
| SquareRoots.RoundKeeps | libBDX/OT/Math/bigint.cpp:50-59 | One round keeps the invariant with a smaller r |
| SquareRoots.Shanks | libBDX/OT/Math/bigint.cpp:16-62 | For every odd prime and unit square the loops end with a root |
| SquareRoots.SqrRootMod | libBDX/OT/Math/bigint.cpp:6-66 | Where the loops end, the result's square is a modulo p if and only if a is a square modulo p |
| SquareRoots.LoopsEndIff | libBDX/OT/Math/bigint.cpp:32-60 | Whatever a is and whichever non-residue was drawn, the two loops end if and only if p does not divide a and a is a square modulo p |
| SquareRoots.EndingRunFindsRoot | libBDX/OT/Math/bigint.cpp:42-60 | Every run of the outer loop that ends started from a square, as each turn keeps x squared equal to a times b |
| SquareRoots.InvariantEnds | libBDX/OT/Math/bigint.cpp:42-60 | From a state with the invariant there is a run that ends, each inner loop stopping at a smaller r |
| SquareRoots.TwoModuloFive | libBDX/OT/Math/bigint.cpp:42-60 | The search for a root of 2 modulo 5 does not end |
| SquareRoots.NonSquareNeverEnds | libBDX/OT/Math/bigint.cpp:42-60 | While x squared is a times b, b is not one for a non-square |
| SquareRoots.MultipleNeverEnds | libBDX/OT/Math/bigint.cpp:38-49 | For a multiple of p the inner loop never sees one |
| MpscQueue.StepInv | libBDX/Common/mpsc_queue.h:56-83 | Every atomic step of any producer or the consumer keeps the chain invariant |
| MpscQueue.ExchangeInv | libBDX/Common/mpsc_queue.h:64-64 | The head exchange step keeps it |
| MpscQueue.LinkInv | libBDX/Common/mpsc_queue.h:65-65 | The delayed link step keeps it, whatever happened since the exchange |
| MpscQueue.TakeInv | libBDX/Common/mpsc_queue.h:79-80 | Advancing the tail keeps it and takes the next exchanged item |
| MpscQueue.DeleteInv | libBDX/Common/mpsc_queue.h:81-81 | Deleting the old node keeps it |
| MpscQueue.RunInv | libBDX/Common/mpsc_queue.h:56-83 | The invariant holds in every state of every run |
| MpscQueue.DequeuedIsPrefix | libBDX/Common/mpsc_queue.h:56-83 | In every run what was dequeued is a prefix of the exchange order: nothing lost, duplicated or reordered, and no unallocated node touched |
| MpscQueue.DeletedIsUnused | libBDX/Common/mpsc_queue.h:68-83 | A node about to be deleted is one no producer will link from or to |
| MpscQueue.EmptyIff | libBDX/Common/mpsc_queue.h:72-77 | Dequeue reports empty exactly when all exchanged items are taken or the next one's producer has exchanged and not linked |
| MpscQueue.ProducerOrderKept | libBDX/Common/mpsc_queue.h:56-83 | Each producer's items come out in the order it put them in |
| MpscQueue.FromAt | libBDX/Common/mpsc_queue.h:56-83 | A producer's items are exactly its own, each at the number of its earlier ones |
| MpscQueue.AskedAt | libBDX/Common/mpsc_queue.h:56-62 | The items asked for hold the value of every call, at the number of the producer's earlier calls |
| MpscQueue.ExchangedAsAsked | libBDX/Common/mpsc_queue.h:56-66 | In every run what a producer has exchanged is what it was called to enqueue, values and order, but for the last call while that has not exchanged |
| MpscQueue.DequeuedAsAsked | libBDX/Common/mpsc_queue.h:56-83 | What is dequeued of a producer is a prefix of what it was called to enqueue |
| MpscQueue.AllocatedIffHeld | libBDX/Common/mpsc_queue.h:56-83 | In every run the nodes allocated are exactly those in the chain, those prepared and the one about to be freed: none leaks |
| MpscQueue.NobodyWaits | libBDX/Common/mpsc_queue.h:56-83 | Wherever a producer or the consumer is, it has a step that no other thread must make possible |
| MpscQueue.DequeueTakesNext | libBDX/Common/mpsc_queue.h:68-83 | A dequeue that finds a link hands out the next item in the order of the exchanges |
| MpscQueue.QuietQueueDrains | libBDX/Common/mpsc_queue.h:68-83 | When no enqueue is under way, dequeue reports empty only once everything has been handed out |
| PsiProtocol.EqualInputsMatch | libBDX/PSI/PSISender.cpp:73-94 | Equal inputs give the two parties the same comparison value |
| PsiProtocol.HonestOpen | libBDX/PSI/PSIReceiver.cpp:135-188 | Opening values that match their commitments never throws and reports a match exactly if one exists |
| PsiProtocol.OpenResultIff | libBDX/PSI/PSIReceiver.cpp:135-188 | Against any sender the first value that does not open its commitment makes open throw, the first that opens and meets makes it true, whichever comes first, and else it is false |
| PsiProtocol.MaskIsSum | libBDX/PSI/PSISender.cpp:73-94 | A mask sums up the selected messages of all bits, each once |
| PsiProtocol.MaskFlip | libBDX/PSI/PSISender.cpp:90-90 | Flipping one bit changes the mask by the difference of that bit's messages |
| PsiProtocol.MasksAgreeIff | libBDX/PSI/PSIReceiver.cpp:55-70 | The two parties' masks agree if and only if the message differences of the bits where the inputs differ cancel out |
| PsiProtocol.HonestOpenIff | libBDX/PSI/PSIReceiver.cpp:135-188 | If the pseudo-random function separates blocks, open against an honest sender is true if and only if they do so for some input of the sender |
| PsiProtocol.ValuesDiffer | libBDX/PSI/PSIReceiver.cpp:55-70 | If it separates indices too, no value of one sender input serves for another |
| PsiProtocol.ResultTellsEquality | libBDX/PSI/PSIReceiver.cpp:135-188 | In every interleaving, if differing inputs never cancel out, an open that has finished says whether the input is one of the sender's |
| PsiProtocol.StepInv | libBDX/PSI/PSIReceiver.cpp:33-188 | Every step of every receiver or sender thread keeps the protocol invariant, and reads no entry before it is written |
| PsiProtocol.StepAdvances | libBDX/PSI/PSISender.cpp:37-128 | Every step advances exactly one thread by one place, so runs end |
| PsiProtocol.ColumnIsHonest | libBDX/PSI/PSISender.cpp:53-114 | What a sender thread commits to is the honest column whenever the first barrier is open |
| PsiProtocol.ResultIsHonest | libBDX/PSI/PSIReceiver.cpp:135-188 | What a receiver thread opens is the honest result whenever the last barrier is open |
| PsiProtocol.EveryRunIsSafe | libBDX/PSI/PSIReceiver.cpp:33-188 | In every interleaving: no throw, no early read, no promise set twice, every result is the honest one, and equal inputs are found |
| PsiProtocol.NoDeadlock | libBDX/PSI/PSISender.cpp:37-128 | Until all threads are done some step is enabled |
| PsiProtocol.PromisesSetOnce | libBDX/PSI/PSISender.cpp:37-114 | At the end every promise was set exactly once |
| Barriers.OpenMeansAll | libBDX/PSI/PSISender.cpp:45-58 | A counter barrier is open only after all threads have arrived |
| AsyncPsi.EqualInputsMatch | libBDX/PSI/AsyncPsiSender.cpp:60-134 | Equal inputs give equal sums of shares: choices and permutes cancel |
| AsyncPsi.SumReplace | libBDX/PSI/AsyncPsiReceiver.cpp:150-222 | Another share in place of one changes a sum by their difference |
| AsyncPsi.SumsAgreeIff | libBDX/PSI/AsyncPsiReceiver.cpp:150-222 | The two parties' sums agree if and only if the share differences of the bits where the inputs differ cancel out |
| AsyncPsi.SharesOpenIff | libBDX/PSI/AsyncPsiReceiver.cpp:150-222 | With injective commitments exactly the shares that the announcements select open |
| AsyncPsi.OpenResultIff | libBDX/PSI/AsyncPsiReceiver.cpp:150-222 | Against any sender open throws if and only if some share does not open, and else is true if and only if some sum matches |
| AsyncPsi.HonestOpen | libBDX/PSI/AsyncPsiReceiver.cpp:150-222 | Honest openings open every commitment, and open reports a match exactly if some sum matches |
| AsyncPsi.FillIsHonest | libBDX/PSI/AsyncPsiSender.cpp:188-205 | Past its wait a sender thread fills its buffer with exactly the shares that the announcements select |
| AsyncPsi.ResultIsHonest | libBDX/PSI/AsyncPsiReceiver.cpp:150-222 | Past its wait a receiver thread opens the honest result |
| AsyncPsi.StepInv | libBDX/PSI/AsyncPsiSender.cpp:148-227 | Every step of any thread of either party keeps the invariant, and reads no entry before it is written |
| AsyncPsi.EveryRunIsSafe | libBDX/PSI/AsyncPsiReceiver.cpp:94-222 | In every interleaving: no throw, no early read, no promise set twice, and equal inputs are found |
| AsyncPsi.NoDeadlock | libBDX/PSI/AsyncPsiSender.cpp:148-227 | Until all threads are done some step is enabled |
| AsyncPsi.StepAdvances | libBDX/PSI/AsyncPsiSender.cpp:148-227 | Every step advances exactly one thread by one place, so runs end |
| AsyncPsi.AllPassed | libBDX/PSI/AsyncPsiSender.cpp:166-186 | Once a party's threads have all arrived twice its promise is set exactly once |
| AsyncPsi.GoesOnIff | libBDX/PSI/AsyncPsiSender.cpp:166-186 | A waiting sender thread can go on if and only if all threads have received and arrived a second time and the last to arrive has set the promise |
| AsyncPsi.SerialUseIsStuck | libBDX/PSI/AsyncPsiSender.cpp:181-186 | A sender thread never goes on while another has not received |
| SlotProtocol.ReplaceLoop | libBDX/DualEx/DualExActor.cpp:1008-1012 | The loop over the stored values draws anew at every value that equals the current one: the scan in order |
| SlotProtocol.ScanIsLast | libBDX/DualEx/DualExActor.cpp:1008-1012 | The scan value by value: at each stored value that equals the current one the next unused draw takes its place, and the last is stored |
| SlotProtocol.FreshScan | libBDX/DualEx/DualExActor.cpp:1008-1012 | If no draw is among the stored values, the result is the own value, or the first draw if the own value is stored already |
| SlotProtocol.ScanIsNewIff | libBDX/DualEx/DualExActor.cpp:1008-1012 | For any draws: the value stored differs from all stored values if and only if it differs from those before the last match, which is none exactly if the own value is not stored yet |
| SlotProtocol.RedrawMayRepeat | libBDX/DualEx/DualExActor.cpp:1008-1012 | Two stored values and a draw that repeats the earlier one: the repeated value is kept |
| SlotProtocol.StepInv | libBDX/DualEx/DualExActor.cpp:1001-1018 | Every thread step keeps the slot invariant |
| SlotProtocol.RunInv | libBDX/DualEx/DualExActor.cpp:1001-1018 | The invariant holds in every state of every run: slots are handed out in order, each to one thread |
| SlotProtocol.PromisesSetAtMostOnce | libBDX/DualEx/DualExActor.cpp:1005-1017 | In no run is a slot's promise set twice |
| SlotProtocol.PromisesSetOnce | libBDX/DualEx/DualExActor.cpp:1005-1017 | When every thread has its value every promise was set exactly once |
| SlotProtocol.NoDeadlock | libBDX/DualEx/DualExActor.cpp:1001-1018 | Until then some thread can step |
| SlotProtocol.RunDistinct | libBDX/DualEx/DualExActor.cpp:1008-1015 | Given fresh draws the stored values are pairwise distinct in every state |
| SlotProtocol.EachValueHandedOnce | libBDX/DualEx/DualExActor.cpp:1001-1018 | Every thread's value is handed to exactly one thread |
| OutputPromises.MatchIsOwner | libBDX/DualEx/DualExActor.cpp:1001-1050 | Two honest parties whose circuits agree: once a receiver thread's open has returned, its input equals a sender's exactly if the thread is the one the agreed value was handed to |
| OutputPromises.DoneIsOwner | libBDX/DualEx/DualExActor.cpp:1050-1050 | No open throws, and that thread alone is told of a match |
| OutputPromises.StepInv | libBDX/DualEx/DualExActor.cpp:1001-1072 | Every step of any thread of either party, in the slots, in the intersection or on the output promise, keeps the invariant |
| OutputPromises.RunInv | libBDX/DualEx/DualExActor.cpp:1001-1072 | The invariant holds in every state of every run with fresh draws |
| OutputPromises.OutputSetAtMostOnce | libBDX/DualEx/DualExActor.cpp:1050-1072 | In every interleaving the output promise is set at most once, by that thread, and never to an exception; the miss counter stays below the bucket's size |
| OutputPromises.OutputSetOnce | libBDX/DualEx/DualExActor.cpp:1050-1072 | Once all threads are through it was set exactly once and all other threads have missed |
| OutputPromises.SameWordIff | libBDX/PSI/PSISender.cpp:73-94 | Values are compared in their low bits alone |
| Reports.StepInv | libBDX/DualEx/DualExActor.cpp:1050-1072 | Whatever the intersection says, every step keeps the bookkeeping of reports: outputs put there, misses counted, each count given once, the exception |
| Reports.PromiseSets | libBDX/DualEx/DualExActor.cpp:1050-1072 | In every interleaving of any parties, once all threads are through: each thread with a match has set the promise once, and if there is none an exception has been put there once |
| BothDirections.StepInv | libBDX/DualEx/DualExActor.cpp:876-955 | Every step of any thread of either party, in the slots, in either intersection, in the translation check or on the output promises, keeps the invariant |
| BothDirections.RunInv | libBDX/DualEx/DualExActor.cpp:795-1072 | The invariant holds in every state of every run with fresh draws |
| BothDirections.LabelsAfterCommitments | libBDX/DualEx/DualExActor.cpp:876-904 | A party that has opened its output labels holds, for every thread, the other party's masked input of the one intersection and its commitments of the other |
| BothDirections.OpensAfterChecks | libBDX/DualEx/Bucket.cpp:729-764 | Once one sender thread has opened, all threads of its party have checked their translation, on labels the other party has opened; a receiver thread that is done has checked its own |
| BothDirections.OutputsSetOnce | libBDX/DualEx/DualExActor.cpp:1041-1072 | In every interleaving of both intersections each party's output promise is set at most once, by the owner of the agreed value, never to an exception; once all threads are through it has been, and the promise that all translations are checked has been set once |
| BothDirections.NoDeadlock | libBDX/DualEx/DualExActor.cpp:795-1072 | With all waits of the online phase, among them those for both commitments, the labels and the checks: until all threads of both parties are through, some step is enabled |
| Allocation.GetRandSubset | libBDX/DualEx/DualExActor.cpp:21-47 | For every random source the two arrays partition the circuits, each place of the subset ends with the last index to draw it, or its own if none has, and the j-th of the others is the index that the j-th draw drives out |
| Allocation.InSubsetIff | libBDX/DualEx/DualExActor.cpp:30-40 | An index from subsetSize on is in the subset if and only if it draws a place there that no later index draws, a lower one if and only if none draws its place |
| Allocation.RangesPartition | libBDX/DualEx/DualExActor.cpp:510-511 | The threads' circuit ranges ascend from nothing to all |
| Allocation.RangesDisjoint | libBDX/DualEx/DualExActor.cpp:510-511 | No circuit is in two ranges |
| Allocation.RangeCovers | libBDX/DualEx/DualExActor.cpp:510-511 | Every circuit is in some range |
| Allocation.AssignBuckets | libBDX/DualEx/DualExActor.cpp:604-630 | The advancing iterators give a thread exactly the buckets congruent to it, each with positions b·B up to b·B + B |
| Allocation.UseWithinBudget | libBDX/DualEx/DualExActor.cpp:263-267 | A thread's whole use fits the budget computed for it |
| Transfers.UseTransfers | libBDX/DualEx/DualExActor.cpp:533-630 | A thread's loops over its circuits and then its buckets get stuck exactly when some wait asks for more than will ever be done; else they use one interval per circuit and one per bucket |
| Transfers.UseIsDisjoint | libBDX/DualEx/DualExActor.cpp:533-630 | A thread's intervals are pairwise disjoint, in order, and within what was made ready for it |
| Transfers.WaitsEndIff | libBDX/DualEx/DualExActor.cpp:263-267 | With the budget made ready for the size used, all waits for another size end if and only if the thread has no circuits or that size is still there before its last one |
| Transfers.SmallWaitsEnd | libBDX/DualEx/DualExActor.cpp:708-716 | A thread that waits for no more than it uses, as the circuits' sender does, is never stuck |
| Transfers.UseAtBothEnds | libBDX/DualEx/DualExActor.cpp:536-767 | The sender gets through; the receiver is stuck exactly under that condition, and otherwise both have used the same intervals |
| Transfers.LongerEncodingSticks | libBDX/DualEx/DualExActor.cpp:538-549 | One circuit, one bucket, one thread: an encoding longer by three than the sender's waits for ever |

## Left out

- Nodes, packages, futures and promises are wire indices, values or state-machine fields, so aliasing between C++ objects is not captured.
- AES, the fixed-key permutation, SHA-1, the commitment and the pseudo-random streams are arbitrary functions; privacy, leakage and probability claims are not stated.
- Network, channels and the ordering work of sendLoop: messages are passed as values in the order the protocol sends them.
- Debug-build checks (such as the label-count test of evaluate) and disabled code.
- ToCircuit.ToCircuit: requires a target circuit that is empty, because toCircuit never clears it.
- GarbledCircuits.HalfGtGarbledCircuit.Garble: requires wires numbered in gate order, because garbling appends labels and never looks at a gate's output wire.
- Compiler.ReadReduced: requires a file with consistent wire numbers and no cycles; on a file that is not reducible it says that no run returns with half-gate types only, but not which runs throw.
- DagCircuits.DagCircuit.ReadBris: wires are in range and each gate wire has one line; what happens after the array of two has been overrun is not modelled.
- SquareRoots.SqrRootMod: takes a as non-negative and only where the loops end, which SquareRoots.LoopsEndIff characterises; the draws of the seeded generator are a parameter with some non-residue among them.
- OutputPromises.OutputSetOnce: random replacements differ in their compared bits from all values held so far, and different inputs never meet in the pseudo-random function, which PsiProtocol.ValuesMeetIfEqual derives from its separating blocks and the messages not cancelling out. The same holds for BothDirections.OutputsSetOnce, where moreover the translation check of honest parties is taken to pass (HonestBuckets.TranslationOpens) and the input corrections to have arrived.
- MpscQueue.StepInv: steps are sequentially consistent, so memory-order subtleties are not captured; construction and destruction of the queue are left out.
- BitVectors.BitVector.Equals: buffers have at most 2^64 - 1 bytes; sizes in bits are unbounded, while the original narrows a new size to int.
- AsyncPsi.StepInv: the sender's preparation of shares is a function of the configuration, since it is finished before any thread starts; its blinding terms are zero, as in the original.
- writeBris, KProbeMatrix build, load and save, Zp_Data initialisation, inversion and the non-Montgomery mode, powerMod, and the base transfers.
