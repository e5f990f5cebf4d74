# Verification model of the masked Ibex repository

A Dafny model of the parts of this repository whose correctness is decided by code: the formal-flow
tools that transform netlists and and-inverter graphs, the modified RTL, and the stateful reference
models. `dafny verify dfyconfig.toml` checks everything. Each module is one file of the same name.

## What is modelled

**Mux-tree optimiser** (`MuxNetlist`, `MuxKnowledge`, `MuxRules`, `MuxPruning`, `MuxWalk`, `MuxChains`,
`MuxReaders`, `MuxRounds`, `OptMuxtree`, `MuxSmallRuns`, `MuxExamples`). The worker is a class whose
flags, counters, rerun list and cells change in place. The walk is proved to terminate, to return every
counter to its entry value, to cover every root, and to do what the functional walk of `MuxWalk` does,
which hands knowledge down instead of counting; the order in which sets are iterated is a parameter, any
function of the set and of the iterations left. Conditions: no combinational loop (a rank of the bits)
and at most one active select per `$pmux`. One run keeps every bit that something other than a mux data
port reads if own selects are in their right place (`OwnSelectsRight`, which pairwise distinct selects
imply) and each mux inside a tree feeds a single port of its user (`SinglePort`). The repeated pass
keeps every kept bit of every design with pairwise distinct selects per mux, without constant selects on
muxes that drive selects, and in which a mux with several reading ports has an output that is kept or
read by a gate and no constant select (`Repeatable`): a run keeps these facts. They are read off the
initial netlist. A run that is not given up leaves of every mux only ports that a chain from a root
leads to, on which each mux is left through a port that constants and the selects met above allow
(`OnlyReached`). Termination, covering, this and the structure of the result do not depend on any of
these conditions.

**AIGER writer** (`GateNetlist`, `Aig`, `AigerPlan`, `AigerWriter`, `AigerTraces`, `AigerMonitors`,
`AigerLiveness`, `AigerBinary`). The writer is a class whose counters, cache and lists grow in place;
`AigerPlan.Compiled` says what a correct result is, `WriteAiger` establishes it, and the trace lemmas
prove both directions of trace equivalence from it, on infinite runs, with and without zero resets. The
liveness and fairness circuits are proved exact. The binary gate section decodes to the gates.

**aig-manip** (`StepSelect`, `AigQueries`). The in-place selection equals the selection by position and
stepwise proofs compose. The searches of `coi` and `why` terminate on every graph that `CheckAig`
accepts and whose constant, inputs and latches are no gates, and answer exactly the named nodes reached.
A `why` answer settles the value of a query bit if and only if the bit is a gate or the constant, when
all leaves reached have names: for a query on an input or a latch the search answers nothing although
the bit could have either value.

**ALU** (`PrefixCounter`, `Butterfly`, `ButterflyNetwork`, `Crc`, `CrcConstants`). Words are sequences
of bits and widths are 2^k, 32 being an instance. Scatter and gather are stated by counting ones;
nothing in their statement mentions masks or stages. The CRC theorem is for any width and polynomial;
the constants of both CRCs are then proved to fit their polynomials.

**Masking** (`Masking`). Any netlist over the plain cells, masked gate by gate, on infinite runs with
arbitrary random bits in every cycle. A masked run exists for every plain run and any random bits.

**Controller** (`ControllerSpec`, `Controller`, `ControllerRuns`, `ControllerLaws`). The class is the
RTL with its default assignments and overrides; it is proved against a declarative description, about
which the run theorems are proved. The fetch stage enters through a contract on its instruction
register: it takes a new instruction when one is offered, decode is ready and the PC is not redirected,
and otherwise keeps its instruction until it is cleared.

**CSR model** (`CsrRegisters`, `PmpLocking`, `CsrLaws`, `CsrModel`, `PmpStandard`). Registers in one
list whose lock masks read each other. Locking theorems are over all sequences of transactions to all
CSRs until reset.

**Co-simulation queue** (`Cosim`), **noise generator** (`Gng`), **proof scheduler** (`ProcessRunner`,
`ChunkNames`, `PrefixTree`). Memory readings, exit codes and times of the scheduler are arbitrary
inputs.

## Where the code and its description differ

- Known-bit replacement in the mux-tree optimiser can change an output, for any order of iteration; the
  pass checks for neither of the two causes. A data bit that is a select of its own mux gets its value
  from the place at which the select first appears among the distinct selects. Unless the connections
  keep its port from being active, the value is right exactly when that place is the port if and only if
  the select is that of the port (`OwnSelectRule`). Equal selects before it move the place
  (`DuplicateSelectBreaksReplacement`); equal selects after it do no harm.
- The other cause is a mux that feeds two ports of its user and gets what is known behind the first port
  written into it for both. With distinct selects, the 1 written for the select of the first port and the
  0 written for the select of the second are wrong below the second port, and every other bit known is
  right there, unless the connections keep that port and the port of the bit from being active together
  (`SharedPortRule`, `DistinctMisleads`, `SharedPortBreaksReplacement`). `PossibleExactly` says when they
  do; gates and what muxes compute are left out of that.
- The pass is repeated until nothing is removed, and a run may leave a netlist that the next run gets
  wrong, although the first met every condition: removing a mux can make another feed two ports of one
  mux. `SecondRunBreaksReplacement` is such a netlist, with its output changed after the second run.
- The address of a PMP region is frozen when the next region is top-of-range even if that region is not
  locked, and also while RLB is set. Section 3.7.1 of the RISC-V Privileged Architecture freezes it only
  when the next region is locked as well, and its Smepmp extension lets locks be bypassed while RLB is
  set. `StandardExactly` states for which configuration bits the two agree; `UnlockedNeighbourFreezes`
  and `BypassDoesNotReach` reach states in which they do not.
- `MAX_RUNNING` of the scheduler is two less than the number of processors and can be 0 or negative;
  then nothing is ever started.
- A process with a pending request to be killed for good that is taken off the machine for lack of
  memory is restarted instead, as the restart overwrites the request (`KillLast`, `KillSome`).
- The comment on `split_by_prefixes` promises `[[a_x, a_y], b]`; the result is `[b, [a_x, a_y]]`
  (`SingleNamesFirst`).
- The "(and node)" mark that `coi` prints is computed from the query bit instead of the node found, so
  it is always printed, also for inputs and latches (the contract of `Coi`).
- `split_by_prefixes` raises an exception for an empty name, which has no chunk (`SplitByPrefixes`).
- A failed check of a misaligned access has already noted its bytes as seen when the data comparison
  fails (`Cosim.Noted` describes the queue after each kind of failure).

## Model

| member | source | states |
|---|---|---|
| MuxRounds.RoundsKeepMeaning | baseline_ibex/dv/formal/yosys_formal/opt_muxtree.cc:508-520 | After any number of runs, equal free bits and at most one active select per mux give every kept bit the same value as before, on every design with pairwise distinct selects per mux, no constant select on a mux that drives a select, and no mux with several reading ports unless it has a kept or gate-read output and no constant select; nothing is asked of the netlists in between |
| MuxReaders.OptimisedStaysRepeatable | baseline_ibex/dv/formal/yosys_formal/opt_muxtree.cc:84-283 | One run keeps these facts about the design, for any order of iteration, so that the next run finds them again |
| MuxReaders.PrunedStaysRepeatable | baseline_ibex/dv/formal/yosys_formal/opt_muxtree.cc:223-283 | Pruning keeps them if every pure root without constant selects keeps all its ports |
| MuxReaders.SelectsStay | baseline_ibex/dv/formal/yosys_formal/opt_muxtree.cc:258-281 | The selects of the muxes left are the same signals as before and still distinct: no select bit is reconnected, as a mux that drives one is a root whose ports are all kept |
| MuxReaders.OneReaderStays | baseline_ibex/dv/formal/yosys_formal/opt_muxtree.cc:236-256 | A mux that is replaced by a connection hands its only reader on, so that every mux left has at most one, or may have several as before |
| MuxReaders.GoneIsReadOnce | baseline_ibex/dv/formal/yosys_formal/opt_muxtree.cc:236-256 | A mux that is replaced by a connection or deleted had at most one reading port |
| MuxReaders.StillShared | baseline_ibex/dv/formal/yosys_formal/opt_muxtree.cc:152-198 | A mux with a kept or gate-read output and without constant selects is still one after the run |
| MuxReaders.ReadsByChain | baseline_ibex/dv/formal/yosys_formal/opt_muxtree.cc:236-256 | Whatever drives a data bit of a port after a run is joined to that port before the run by a chain of muxes that were taken out |
| MuxReaders.ChainsAgree | baseline_ibex/dv/formal/yosys_formal/opt_muxtree.cc:236-256 | If a mux and all that are taken out have one reader each, all such chains from that mux end at the same port |
| MuxReaders.RootsKeepPorts | baseline_ibex/dv/formal/yosys_formal/opt_muxtree.cc:198-218 | Without constant selects a root that enables ports ends with every port enabled |
| MuxReaders.RepeatableIsReplaceable | baseline_ibex/dv/formal/yosys_formal/opt_muxtree.cc:375-419 | These designs meet the conditions for known-bit replacement |
| OptMuxtree.Execute | baseline_ibex/dv/formal/yosys_formal/opt_muxtree.cc:508-520 | The repeated pass terminates, joins every module of the result to the module it came from by a chain of runs, never adds ports, and keeps the value of every kept bit of every module that meets the conditions of RoundsKeepMeaning, for any order of iteration |
| OptMuxtree.Round | baseline_ibex/dv/formal/yosys_formal/opt_muxtree.cc:510-515 | One round relates every module to its result by one pass, and each removal it reports takes at least one port off the total, so rounds that report removals cannot go on for ever |
| OptMuxtree.OptimiseModule | baseline_ibex/dv/formal/yosys_formal/opt_muxtree.cc:84-283 | The in-place run gives the netlist of the functional walk; it stays well formed and, under the replacement conditions, keeps the value of every bit read outside mux data ports; a run that was not given up leaves no mux with a constant select, and of every mux only ports that a chain from a root leads to, each mux on it left through a port that constants and the selects met above allow |
| MuxChains.OptimisedIsReached | baseline_ibex/dv/formal/yosys_formal/opt_muxtree.cc:220-473 | The netlist after a run that was not given up has of every mux only such ports, in order and with their own selects and data, and bits of muxes that are gone are connected to such a port |
| MuxChains.EnabledIsReached | baseline_ibex/dv/formal/yosys_formal/opt_muxtree.cc:198-218 | Every enabled port is the end of such a chain, which starts at a root that is run on its own: a pure root, or a shared mux that comes after four roots on a chain |
| MuxChains.NeverLeft | baseline_ibex/dv/formal/yosys_formal/opt_muxtree.cc:456-472 | With distinct selects, none constant, and at most one select per mux of the chain that is that of a port entered above, no port of the chain has the select of another port of a mux entered above |
| MuxChains.TakenIsFollowed | baseline_ibex/dv/formal/yosys_formal/opt_muxtree.cc:438-454 | Where a select of a mux on the chain is that of a port entered above, the port taken is the first such |
| MuxChains.ReachedFromPureRoot | baseline_ibex/dv/formal/yosys_formal/opt_muxtree.cc:186-198 | Without muxes of two users every such chain starts at a pure root |
| MuxChains.KnowsMore | baseline_ibex/dv/formal/yosys_formal/opt_muxtree.cc:328-335 | Below a port the counters are above zero exactly for the selects of the ports entered and of the ports left on the way |
| MuxPruning.PruningKeepsMeaning | baseline_ibex/dv/formal/yosys_formal/opt_muxtree.cc:220-283 | Removing the ports no evaluation enabled keeps every bit seen outside mux data ports, provided the roots are covered by the enabled ports, including roots cut off and run again later |
| MuxPruning.RewritingKeepsMeaning | baseline_ibex/dv/formal/yosys_formal/opt_muxtree.cc:375-419 | Known-bit replacement alone, without removal (the pass that gives up), keeps every bit seen outside mux data ports |
| MuxPruning.NeededValuesKept | baseline_ibex/dv/formal/yosys_formal/opt_muxtree.cc:220-283 | A bit that is needed (seen, or driven by an observed mux) has the same value in the pruned netlist as before |
| MuxPruning.PrunedBitValue | baseline_ibex/dv/formal/yosys_formal/opt_muxtree.cc:246-281 | An output bit of a pruned mux carries the data bit of the port that was active before, whether the cell was kept, shrunk or replaced by a connection |
| MuxPruning.PrunedActive | baseline_ibex/dv/formal/yosys_formal/opt_muxtree.cc:258-275 | After the live ports are moved together, with the last one as default, the active port of the smaller mux is the same port |
| MuxPruning.PruningKeepsStructure | baseline_ibex/dv/formal/yosys_formal/opt_muxtree.cc:223-283 | Pruning keeps the netlist well formed and acyclic, with the same bits, free bits and kept bits |
| MuxPruning.NoConstantSelects | baseline_ibex/dv/formal/yosys_formal/opt_muxtree.cc:447-472 | If only ports that constant selects allow are enabled, no mux that survives removal has a constant select |
| MuxKnowledge.ReplacementIsSound | baseline_ibex/dv/formal/yosys_formal/opt_muxtree.cc:375-419 | The constant that replaces a data bit of the active port equals the value of that bit, unless the bit is a select of its own mux whose place in the numbering is wrong |
| MuxRules.OwnSelectRule | baseline_ibex/dv/formal/yosys_formal/opt_muxtree.cc:382-402 | For a data bit of port p that is a select of its own mux, whatever else is known: the constant written is right whenever p is active if and only if its first place in the numbering of selects is p exactly when it is the select of p, or the connections do not let p be active |
| MuxRules.SharedPortRule | baseline_ibex/dv/formal/yosys_formal/opt_muxtree.cc:319-419 | For every bit known behind port p of a mux c, 0 or 1, that is no select of the mux reached: the constant written is right below another port q of c if and only if the bit is neither the select of q nor, unless another port has it too or it was known to be 0 before, the select of p; or the connections do not let the two ports be active together |
| MuxRules.SharedValue | baseline_ibex/dv/formal/yosys_formal/opt_muxtree.cc:319-372 | The constant written behind port p differs from the value with port q active exactly in those cases |
| MuxRules.DistinctMisleads | baseline_ibex/dv/formal/yosys_formal/opt_muxtree.cc:319-372 | With pairwise distinct selects, and the bit not known to be 0 before, these are exactly the selects of the two ports |
| MuxRules.PossibleExactly | baseline_ibex/dv/formal/yosys_formal/opt_muxtree.cc:319-372 | Some valuation that respects connections, sets at most one select per mux and makes what is known true has given ports active if and only if nothing demanded is constant 0 or known to be 0, no other select of these muxes is 1 or demanded, and no mux has two such selects; the valuation with nothing set that need not be decides it |
| MuxKnowledge.OwnValue | baseline_ibex/dv/formal/yosys_formal/opt_muxtree.cc:382-402 | With port p active a select of the mux is 1 exactly if it is the select of p |
| MuxKnowledge.DistinctIsRight | baseline_ibex/dv/formal/yosys_formal/opt_muxtree.cc:382-402 | Pairwise distinct selects put every own select in its right place |
| MuxExamples.DuplicateSelectBreaksReplacement | baseline_ibex/dv/formal/yosys_formal/opt_muxtree.cc:382-402 | A well-formed netlist with two equal selects before the select in question: for any order of iteration the netlist after one run gives its output 0 where it was 1, so that the run does not keep the kept bits |
| MuxExamples.SharedPortBreaksReplacement | baseline_ibex/dv/formal/yosys_formal/opt_muxtree.cc:341-351 | A well-formed netlist with distinct selects whose inner mux feeds both ports of its user: after one run its output is 1 where it was 0, so that the run does not keep the kept bits |
| MuxExamples.SecondRunBreaksReplacement | baseline_ibex/dv/formal/yosys_formal/opt_muxtree.cc:508-520 | A netlist that meets every condition for one run, but has a mux with two readers: the first run makes it feed both ports of one mux, and after the second run the output is 1 where it was 0, so that the two runs do not keep the kept bits |
| MuxSmallRuns.SharedRun | baseline_ibex/dv/formal/yosys_formal/opt_muxtree.cc:319-419 | What one run makes of a netlist whose muxes are a root and one mux feeding both its ports: the knowledge of port 0 and then that of port 1 is written into the shared mux, and no port is removed |
| MuxKnowledge.ActivePortExtends | baseline_ibex/dv/formal/yosys_formal/opt_muxtree.cc:328-335 | If the examined port is the active one, the counters it increments describe true facts: others inactive, its own select active |
| MuxKnowledge.ObservedThroughItsPort | baseline_ibex/dv/formal/yosys_formal/opt_muxtree.cc:337-351 | A mux inside a tree is observed only through the single port it feeds, and then that port is active |
| MuxKnowledge.CoversMux | baseline_ibex/dv/formal/yosys_formal/opt_muxtree.cc:324-326 | If the active port of a mux is enabled and its input muxes are covered, the mux is covered |
| MuxKnowledge.OnlyActivePort | baseline_ibex/dv/formal/yosys_formal/opt_muxtree.cc:433-454 | A port with constant 1 select, or with a select known to be active, is the only one that has to be enabled |
| MuxKnowledge.NeverActivePort | baseline_ibex/dv/formal/yosys_formal/opt_muxtree.cc:458-466 | A port with constant 0 select, or with a select known to be inactive, is never the active one |
| MuxKnowledge.SomePortIsActive | baseline_ibex/dv/formal/yosys_formal/opt_muxtree.cc:456-472 | Covering every port under the assumption that it is active covers the mux |
| MuxKnowledge.SetBitKeepsObserved | baseline_ibex/dv/formal/yosys_formal/opt_muxtree.cc:388-411 | Replacing one data bit keeps the value of the active port of every observed mux |
| MuxRounds.EvalModels | baseline_ibex/dv/formal/yosys_formal/opt_muxtree.cc:223-283 | Every acyclic netlist has a valuation for any values of its free bits, so that the meaning theorems are about something |
| MuxRounds.ModelIsUnique | baseline_ibex/dv/formal/yosys_formal/opt_muxtree.cc:223-283 | The free bits determine every bit: two valuations that agree on them agree everywhere |
| MuxNetlist.RepKeepsValue | baseline_ibex/dv/formal/yosys_formal/opt_muxtree.cc:286-303 | The representative of a bit under the connection map has the value of the bit |
| OptMuxtree.OptMuxtreeWorker.constructor | baseline_ibex/dv/formal/yosys_formal/opt_muxtree.cc:84-198 | Starts with nothing enabled, the pure roots enabling ports, an empty rerun list and the iteration limit 0x7fffffff |
| OptMuxtree.OptMuxtreeWorker.EvalMuxPort | baseline_ibex/dv/formal/yosys_formal/opt_muxtree.cc:319-373 | Terminates; unless the limit is hit every knowledge counter is back at its entry value, and the port is covered if it is active; what is enabled, promoted and rewritten is what the functional walk of the port gives |
| OptMuxtree.OptMuxtreeWorker.EvalParents | baseline_ibex/dv/formal/yosys_formal/opt_muxtree.cc:345-356 | The muxes feeding a port are covered, except those that are roots run on their own |
| OptMuxtree.OptMuxtreeWorker.EvalParent | baseline_ibex/dv/formal/yosys_formal/opt_muxtree.cc:346-353 | A root at abort depth 0 is promoted and queued exactly once; otherwise the mux is evaluated and covered |
| OptMuxtree.OptMuxtreeWorker.EvalMux | baseline_ibex/dv/formal/yosys_formal/opt_muxtree.cc:421-474 | The mux is covered for every valuation consistent with the knowledge, and the knowledge is returned unchanged; with replacement on, no data bit of the mux is one of its own selects afterwards |
| OptMuxtree.OptMuxtreeWorker.EvalPorts | baseline_ibex/dv/formal/yosys_formal/opt_muxtree.cc:432-473 | Covers the mux by evaluating the first port with constant 1 select, or the port known to be active, or every port not known to be inactive; does what the functional walk of the ports does |
| OptMuxtree.OptMuxtreeWorker.EvalOtherPorts | baseline_ibex/dv/formal/yosys_formal/opt_muxtree.cc:456-472 | Evaluates every port that is not ruled out, in order, and covers the mux |
| OptMuxtree.OptMuxtreeWorker.EnterPort | baseline_ibex/dv/formal/yosys_formal/opt_muxtree.cc:328-335 | Adds exactly one count per other port to its select, and one active count to the own select |
| OptMuxtree.OptMuxtreeWorker.LeavePort | baseline_ibex/dv/formal/yosys_formal/opt_muxtree.cc:360-372 | Takes back exactly what EnterPort added |
| OptMuxtree.OptMuxtreeWorker.ReplaceKnown | baseline_ibex/dv/formal/yosys_formal/opt_muxtree.cc:375-419 | Replaces exactly the bits of the given ports of this cell by their known values, and keeps the active bits of observed muxes |
| OptMuxtree.OptMuxtreeWorker.EvalRootMux | baseline_ibex/dv/formal/yosys_formal/opt_muxtree.cc:476-485 | Adds a root to the covered ones; roots covered before stay covered; no data bit of the root is one of its own selects |
| OptMuxtree.OptMuxtreeWorker.EvalRoots | baseline_ibex/dv/formal/yosys_formal/opt_muxtree.cc:198-218 | If not given up, every root that enables ports is covered, however roots were promoted on the way, and no root mux is left with a data bit that is one of its own selects; the state reached is that of the functional walk |
| OptMuxtree.OptMuxtreeWorker.RerunRoots | baseline_ibex/dv/formal/yosys_formal/opt_muxtree.cc:208-218 | The rerun list empties after finitely many runs and every promoted root is covered |
| OptMuxtree.OptMuxtreeWorker.CollectLivePorts | baseline_ibex/dv/formal/yosys_formal/opt_muxtree.cc:225-234 | Lists exactly the enabled ports, in order |
| OptMuxtree.OptMuxtreeWorker.PruneMux | baseline_ibex/dv/formal/yosys_formal/opt_muxtree.cc:223-281 | One cell is pruned or removed and its outputs reconnected; it reports as dead no more ports than it loses |
| OptMuxtree.OptMuxtreeWorker.RemoveDeadPorts | baseline_ibex/dv/formal/yosys_formal/opt_muxtree.cc:223-283 | The result is the pruned netlist; the ports lost pay for every removal reported, and no removal means no cell changed |
| PrefixCounter.BitCounts | Verification_modifiedCoreRTL/ibex_alu.sv:507-546 | For width 2^k (k at least 2) the Brent-Kung tree leaves at every position the number of ones up to and including it |
| PrefixCounter.FirstStage | Verification_modifiedCoreRTL/ibex_alu.sv:507-512 | After stage 1 odd positions hold pair sums and the others nothing |
| PrefixCounter.UpStage | Verification_modifiedCoreRTL/ibex_alu.sv:513-526 | Each further stage of the primary tree doubles the stretch summed at positions that end one, and leaves the rest alone |
| PrefixCounter.DownStage | Verification_modifiedCoreRTL/ibex_alu.sv:530-540 | Each stage of the intermediate tree completes the counts at the next finer set of positions |
| PrefixCounter.LastStage | Verification_modifiedCoreRTL/ibex_alu.sv:541-545 | The last stage completes the counts at all positions |
| Butterfly.RegisterHoldsBlocks | Verification_modifiedCoreRTL/ibex_alu.sv:1053-1075 | In the saved word the block for count bit b starts where the loading code reads it |
| Butterfly.LoadedIsCountMod | Verification_modifiedCoreRTL/ibex_alu.sv:1077-1103 | The count reloaded from the saved bits is the full count taken modulo twice the segment half, although the other bits were never stored |
| Butterfly.MasksAreSwaps | Verification_modifiedCoreRTL/ibex_alu.sv:1113-1131 | The left and right masks computed by the rotated pattern mark exactly the positions that the stage swaps |
| Butterfly.StagePermutes | Verification_modifiedCoreRTL/ibex_alu.sv:1134-1162 | A stage with the masks loaded from the registers fetches every bit from its source position |
| ButterflyNetwork.SwapRoutes | Verification_modifiedCoreRTL/ibex_alu.sv:1114-1130 | An element is swapped exactly when it sits in the half that its mask position is not in |
| ButterflyNetwork.StageRoutes | Verification_modifiedCoreRTL/ibex_alu.sv:1139-1162 | A stage moves every element from its place before the stage to its place after it |
| ButterflyNetwork.NetworkRoutes | Verification_modifiedCoreRTL/ibex_alu.sv:1139-1162 | The whole network brings source bit number (ones of the mask below t) to every mask position t |
| ButterflyNetwork.ForwardOfBackward | Verification_modifiedCoreRTL/ibex_alu.sv:1139-1187 | The inverse network undoes the network, stage by stage |
| ButterflyNetwork.BackwardOfForward | Verification_modifiedCoreRTL/ibex_alu.sv:1139-1187 | The network undoes the inverse network |
| ButterflyNetwork.FirstCycle | Verification_modifiedCoreRTL/ibex_alu.sv:1052-1075 | The first cycle stores, in two words, the counts that the masks of the second cycle need |
| ButterflyNetwork.Bdecompress | Verification_modifiedCoreRTL/ibex_alu.sv:1077-1163 | bdecompress is bit scatter, for every mask and every width 2^k |
| ButterflyNetwork.Bcompress | Verification_modifiedCoreRTL/ibex_alu.sv:1165-1187 | bcompress is bit gather: mask bits packed at the low end, the rest zero |
| ButterflyNetwork.GatherOfScatter | Verification_modifiedCoreRTL/ibex_alu.sv:1139-1187 | bcompress(bdecompress(a, m), m) is a cut down to its low popcount(m) bits |
| ButterflyNetwork.ScatterOfGather | Verification_modifiedCoreRTL/ibex_alu.sv:1139-1187 | bdecompress(bcompress(a, m), m) is a AND m |
| ButterflyNetwork.GatherIsUnique | Verification_modifiedCoreRTL/ibex_alu.sv:1165-1187 | The two clauses that define gather determine the result |
| Crc.PairUpKeepsXor | Verification_modifiedCoreRTL/ibex_alu.sv:955-969 | Combining neighbours keeps the xor of all rows |
| Crc.Clmul | Verification_modifiedCoreRTL/ibex_alu.sv:951-971 | The xor tree over the shifted rows is the truncated carry-less product |
| Crc.ShiftedOutBit | Verification_modifiedCoreRTL/ibex_alu.sv:940-975 | Bit s of the product with the constant is the bit that step s of the bit-serial CRC shifts out |
| Crc.RecurrenceIsMuRev | Verification_modifiedCoreRTL/ibex_alu.sv:903-908 | A word that satisfies the feedback recurrence is the Barrett constant of the polynomial |
| Crc.DivisionInvariant | Verification_modifiedCoreRTL/ibex_alu.sv:940-975 | Quotient times polynomial plus remainder equals the shifted dividend after every number of serial steps |
| Crc.BarrettIsSerial | Verification_modifiedCoreRTL/ibex_alu.sv:940-975 | Two truncated products with reversals equal the bit-serial reflected CRC of a whole word, for any width, polynomial and matching constant |
| Crc.ShortCrc | Verification_modifiedCoreRTL/ibex_alu.sv:932-938 | For n bits moved to the top the xor with the operand shifted down gives n serial steps |
| Crc.CrcInstruction | Verification_modifiedCoreRTL/ibex_alu.sv:1242-1256 | The two-cycle instruction on n bits makes n bit-serial steps on the operand |
| CrcConstants.Crc32ConstantsFit | Verification_modifiedCoreRTL/ibex_alu.sv:904-905 | The CRC-32 constant 0xf7011641 belongs to polynomial 0x04c11db7 |
| CrcConstants.Crc32cConstantsFit | Verification_modifiedCoreRTL/ibex_alu.sv:907-908 | The CRC-32C constant 0xdea713f1 belongs to polynomial 0x1edc6f41 |
| CrcConstants.CrcAlu | Verification_modifiedCoreRTL/ibex_alu.sv:903-949 | crc32.b/h/w and crc32c.b/h/w make 8, 16 and 32 serial steps of the reflected CRC for every operand |
| AigerTraces.NetlistToGraph | baseline_ibex/dv/formal/yosys_formal/write_aiger.cc:376-535 | Every run of the netlist, with any choice of the sampling inputs, has a run of the compiled graph that agrees with it on every translated bit at every cycle |
| AigerTraces.GraphToNetlist | baseline_ibex/dv/formal/yosys_formal/write_aiger.cc:376-535 | Every run of the compiled graph is the image of a run of the netlist that agrees with it on every translated bit at every cycle, with and without zero resets |
| AigerTraces.ObservablesAgree | baseline_ibex/dv/formal/yosys_formal/write_aiger.cc:466-494 | In matching runs every output, bad and constraint of the graph says what the netlist says about the output, assert and assume; padding outputs are constant 0 |
| AigerTraces.LitsAgree | baseline_ibex/dv/formal/yosys_formal/write_aiger.cc:88-141 | Every cached literal evaluates to its netlist bit |
| AigerTraces.MuxLit | baseline_ibex/dv/formal/yosys_formal/write_aiger.cc:439-444 | The three gates select the initial-value input in the first cycle and the latch later |
| AigerTraces.FfLatchLit | baseline_ibex/dv/formal/yosys_formal/write_aiger.cc:432-445 | The literal of a flop is its latch, negated exactly for a flop that starts at 1 under zero resets |
| AigerMonitors.LivenessMonitorIsExact | baseline_ibex/dv/formal/yosys_formal/write_aiger.cc:496-518 | Some sampling input makes the justice output true infinitely often if and only if there is an enabled moment after which A never holds |
| AigerMonitors.FairnessMonitorIsExact | baseline_ibex/dv/formal/yosys_formal/write_aiger.cc:520-534 | The fairness output is true infinitely often if and only if every enabled moment is followed by A |
| AigerLiveness.LivenessIsExact | baseline_ibex/dv/formal/yosys_formal/write_aiger.cc:496-518 | The same on the compiled graph: some matching graph run meets justice property k if and only if the netlist run violates live cell k |
| AigerLiveness.FairnessIsExact | baseline_ibex/dv/formal/yosys_formal/write_aiger.cc:520-534 | The same on the compiled graph: fairness property k is met in a graph run if and only if the netlist run satisfies fair cell k |
| AigerWriter.WriteAiger | baseline_ibex/dv/formal/yosys_formal/write_aiger.cc:376-535 | The compiler succeeds if and only if every cone it has to translate is free of undefined constants and undriven wires, never reports a loop on an acyclic netlist, and its result is a correct compilation |
| AigerWriter.AigerWriter.constructor | baseline_ibex/dv/formal/yosys_formal/write_aiger.cc:376-377 | Starts with the two constants in the cache and all counters at zero |
| AigerWriter.AigerWriter.MkGate | baseline_ibex/dv/formal/yosys_formal/write_aiger.cc:81-86 | Appends the gate with its larger literal first and returns twice the new variable |
| AigerWriter.AigerWriter.Bit2Aig | baseline_ibex/dv/formal/yosys_formal/write_aiger.cc:88-141 | Returns a literal exactly when the cone is clean; caches it; earlier literals and gates are never changed; gates stay in topological order; the loop check never fires |
| AigerWriter.AigerWriter.Driver2Aig | baseline_ibex/dv/formal/yosys_formal/write_aiger.cc:116-131 | The literal of a NOT, AND, alias or first-cycle bit computes its driver from the literals of what it reads |
| AigerWriter.AigerWriter.NumberInputs | baseline_ibex/dv/formal/yosys_formal/write_aiger.cc:379-402 | Variables 1, 2, ... are inputs, then initial-value inputs, then sampling inputs, each with its own role |
| AigerWriter.AigerWriter.NumberLatches | baseline_ibex/dv/formal/yosys_formal/write_aiger.cc:404-428 | The next variables are flops, the first-cycle latch if it is needed, and the monitor latches, with their reset codes |
| AigerWriter.AigerWriter.ZeroReset | baseline_ibex/dv/formal/yosys_formal/write_aiger.cc:432-445 | Under zero resets a flop with reset 1 gets the negated latch, and one without reset the first-cycle multiplexer |
| AigerWriter.AigerWriter.ZeroResets | baseline_ibex/dv/formal/yosys_formal/write_aiger.cc:430-446 | All flops are rewritten so, before any logic is translated |
| AigerWriter.AigerWriter.NextStates | baseline_ibex/dv/formal/yosys_formal/write_aiger.cc:448-455 | Every flop latch gets the literal of its data bit, negated for a flop stored inverted |
| AigerWriter.AigerWriter.StateNexts | baseline_ibex/dv/formal/yosys_formal/write_aiger.cc:448-464 | Flop next states, the padding latch only when there is no latch at all, and constant 1 for the first-cycle latch, in latch order |
| AigerWriter.AigerWriter.Outputs | baseline_ibex/dv/formal/yosys_formal/write_aiger.cc:466-475 | One literal per output bit, or a constant 0 if padding is asked for and there is none |
| AigerWriter.AigerWriter.Asserts | baseline_ibex/dv/formal/yosys_formal/write_aiger.cc:477-487 | One bad per assert, true exactly when it is enabled and fails |
| AigerWriter.AigerWriter.Assumes | baseline_ibex/dv/formal/yosys_formal/write_aiger.cc:489-494 | One constraint per assume, false exactly when it is enabled and fails |
| AigerWriter.AigerWriter.LiveMonitor | baseline_ibex/dv/formal/yosys_formal/write_aiger.cc:505-517 | The two latches and the output of a liveness monitor are built from these five gates |
| AigerWriter.AigerWriter.LiveMonitors | baseline_ibex/dv/formal/yosys_formal/write_aiger.cc:496-518 | Each live cell has its sampling input, its two latches and its justice output |
| AigerWriter.AigerWriter.FairMonitor | baseline_ibex/dv/formal/yosys_formal/write_aiger.cc:527-533 | The latch of a fairness monitor waits from an enabled moment until A holds |
| AigerWriter.AigerWriter.FairMonitors | baseline_ibex/dv/formal/yosys_formal/write_aiger.cc:520-534 | Each fair cell has its latch and its fairness output |
| AigerWriter.AigerWriter.Prepare | baseline_ibex/dv/formal/yosys_formal/write_aiger.cc:376-446 | Numbering and zero resets leave the writer ready to translate, with every source bit placed |
| AigerWriter.AigerWriter.Translate | baseline_ibex/dv/formal/yosys_formal/write_aiger.cc:448-534 | Translates everything, exactly when all of it is clean, and leaves the lists in file order |
| AigerWriter.AigerWriter.VariableCount | baseline_ibex/dv/formal/yosys_formal/write_aiger.cc:543 | The number of variables is inputs plus latches plus gates, as the writer asserts |
| AigerWriter.AigerWriter.Written | baseline_ibex/dv/formal/yosys_formal/write_aiger.cc:589-619 | The file holds the inputs, latches with resets, and the output sections cut from one list at the counted places |
| AigerBinary.AigerEncode | baseline_ibex/dv/formal/yosys_formal/write_aiger.cc:37-47 | Writes the seven-bit groups of the number, low group first |
| AigerBinary.GroupsRoundTrip | baseline_ibex/dv/formal/yosys_formal/write_aiger.cc:37-47 | Decoding the groups gives back the number and the bytes after it |
| AigerBinary.WriteGates | baseline_ibex/dv/formal/yosys_formal/write_aiger.cc:611-619 | The gate section is the concatenated groups of the two differences of every gate, which are never negative |
| AigerBinary.GateSectionRoundTrip | baseline_ibex/dv/formal/yosys_formal/write_aiger.cc:611-619 | Decoding the gate section gives back every gate pair, for gate lists of any length |
| GateNetlist.EvalSettles | baseline_ibex/dv/formal/yosys_formal/write_aiger.cc:88-141 | An acyclic netlist has a settled valuation for any values of its sources |
| Aig.EvalVarHolds | baseline_ibex/dv/formal/yosys_formal/write_aiger.cc:611-613 | A topologically ordered gate list has an evaluation for any values of its inputs and latches |
| StepSelect.StepwiseProofsCompose | baseline_ibex/dv/formal/aig-manip/src/main.rs:126-164 | If every property that is not a cover is unreachable in some selection of its step that keeps it, then none of these properties can fail in the original graph; nothing is asked of the other bads of a selection, such as covers that are meant to be reached |
| StepSelect.WholeSelectionsCompose | baseline_ibex/dv/formal/aig-manip/src/main.rs:126-164 | In particular if all bads of the selections are unreachable and every such property is kept by one |
| StepSelect.FirstFailureIsReached | baseline_ibex/dv/formal/aig-manip/src/main.rs:144-160 | At a first failure everything its step assumes has held, so the failure is reachable in the selected graph |
| StepSelect.FindFirst | baseline_ibex/dv/formal/aig-manip/src/main.rs:144-160 | A failure implies a first one: earliest cycle, then lowest step |
| StepSelect.Select | baseline_ibex/dv/formal/aig-manip/src/main.rs:126-164 | The in-place loop with two indices gives exactly the selection by position, and aborts exactly on justice, fairness, a wrong name count or a malformed name |
| StepSelect.Place | baseline_ibex/dv/formal/aig-manip/src/main.rs:144-160 | One bad is kept (negated for a cover), deleted, or deleted and assumed |
| StepSelect.SplitOnce | baseline_ibex/dv/formal/aig-manip/src/main.rs:134-138 | Splits at the first occurrence of the character, or there is none |
| StepSelect.AssumptionHasSource | baseline_ibex/dv/formal/aig-manip/src/main.rs:157-160 | Every added constraint is the negation of a bad of a lower step that is not a cover |
| StepSelect.KeptIsThere | baseline_ibex/dv/formal/aig-manip/src/main.rs:144-153 | Every kept property that is not a cover is still a bad, unchanged |
| StepSelect.KeptMeans | baseline_ibex/dv/formal/aig-manip/src/main.rs:144-153 | Every property asked for has its own bad in the selection, at the place counted by those asked for before it; it is true in a cycle exactly when the original bad is, and for a cover exactly when it is not; there are no other bads |
| StepSelect.SelectedConstraints | baseline_ibex/dv/formal/aig-manip/src/main.rs:154-160 | The constraints of a selection hold up to a cycle if and only if the original ones do and no property of a lower step that is not a cover has failed, unless assumptions are switched off |
| StepSelect.SelectedReaches | baseline_ibex/dv/formal/aig-manip/src/main.rs:126-164 | A run reaches the bad of a property in the selection if and only if it is a run of the original that meets its constraints and these assumptions and makes the original bad true, or false for a cover |
| StepSelect.NamesReadBack | baseline_ibex/dv/formal/aig-manip/src/main.rs:132-139 | A name of six characters, Step, a number, an underscore, a label and a dollar sign gives that number and label |
| StepSelect.AcceptedNames | baseline_ibex/dv/formal/aig-manip/src/main.rs:132-139 | Only names of this form are accepted |
| AigQueries.CheckAig | baseline_ibex/dv/formal/aig-manip/src/main.rs:414-433 | Accepts exactly the graphs whose gates read constants, inputs, latches and earlier gates, and whose next states are among these; what it accepts is a graph the searches terminate on if the constant, inputs and latches are no gates |
| AigQueries.CheckedIsGraph | baseline_ibex/dv/formal/aig-manip/src/main.rs:414-433 | Such an accepted graph has no loop among its gates |
| AigQueries.Coi | baseline_ibex/dv/formal/aig-manip/src/main.rs:266-302 | Terminates; prints exactly the named nodes that a path leads to from a fanin of a query gate through unnamed gates to their fanins, every one with the mark of a gate, also those that are none |
| AigQueries.ConeReached | baseline_ibex/dv/formal/aig-manip/src/main.rs:275-293 | What the search reaches is the end of such a path |
| AigQueries.CoiSearch | baseline_ibex/dv/formal/aig-manip/src/main.rs:277-293 | The worklist ends with every reachable node explored, although edges and not nodes are marked as visited |
| AigQueries.Why | baseline_ibex/dv/formal/aig-manip/src/main.rs:331-389 | Terminates; for every evaluation that the simulation stands for, answers exactly the named nodes that a path leads to from a fanin of a query gate through unnamed gates, each step along an edge with the value of its gate; aborts exactly when such a path meets a gate with an unknown fanin |
| AigQueries.WhyByValue | baseline_ibex/dv/formal/aig-manip/src/main.rs:359-387 | The answer consists of the named nodes at the end of such paths |
| AigQueries.AbortsByValue | baseline_ibex/dv/formal/aig-manip/src/main.rs:356-358 | It aborts exactly when such a path ends at an unnamed gate with an unknown fanin |
| AigQueries.ResponsibleByValue | baseline_ibex/dv/formal/aig-manip/src/main.rs:363-387 | The fanins followed from a gate are those whose edge has the value of the gate |
| AigQueries.WhyStep | baseline_ibex/dv/formal/aig-manip/src/main.rs:350-388 | One step explores a node, or stops at a name, and adds the fanins responsible for its value |
| AigQueries.WhySearch | baseline_ibex/dv/formal/aig-manip/src/main.rs:350-388 | The worklist ends with every reachable node explored, or at a node that aborts |
| AigQueries.SearchDone | baseline_ibex/dv/formal/aig-manip/src/main.rs:270-294 | An exhausted worklist has found exactly the answer |
| AigQueries.ReachedAgrees | baseline_ibex/dv/formal/aig-manip/src/main.rs:359-387 | Every reached node has the same value in every evaluation that agrees with the trace on the answer |
| AigQueries.WhyExplains | baseline_ibex/dv/formal/aig-manip/src/main.rs:341-389 | If the reached leaves are named, the answer settles the value of the query bit if and only if the bit is a gate or the constant |
| AigQueries.WhyExplainsAll | baseline_ibex/dv/formal/aig-manip/src/main.rs:341-389 | The answer for several bits settles each of them that is a gate, although they share one visited set |
| AigQueries.FlippedEvaluates | baseline_ibex/dv/formal/aig-manip/src/main.rs:343-345 | For an input or latch as query another evaluation gives it the opposite value |
| Masking.MaskingKeepsMeaning | Verification_modifiedCoreRTL/gates_cmo.v:3-102 | In every run from reset, with any random bits at every flop in every cycle and any further resets, the two shares of every wire recombine to its value in the plain netlist |
| Masking.CellRecombines | Verification_modifiedCoreRTL/gates_cmo.v:3-85 | The shares a masked XOR, INV, BUF, AND or OR cell drives recombine to the gate of the recombined inputs |
| Masking.FirstInputApart | Verification_modifiedCoreRTL/gates_cmo.v:26-85 | A share of a masked AND or OR depends on the same share of its first input and not on the other |
| Masking.LinearGatesApart | Verification_modifiedCoreRTL/gates_cmo.v:3-23 | A share of a masked XOR, INV or BUF depends on the same share of its inputs only |
| Masking.FlopsRefresh | Verification_modifiedCoreRTL/gates_cmo.v:87-102 | After a clock each share of a flop is the share of its data with the random bit of the flop added |
| Masking.MaskIsAcyclic | Verification_modifiedCoreRTL/gates_cmo.v:3-102 | Masking an acyclic netlist gives an acyclic one |
| Masking.MaskedRunExists | Verification_modifiedCoreRTL/gates_cmo.v:3-102 | For every plain run, any random bits and any second shares of the inputs there is a masked run with these, and its shares recombine to the plain run |
| Masking.LoopFreeRuns | Verification_modifiedCoreRTL/gates_cmo.v:3-102 | A netlist without combinational loop runs, whatever its undriven wires and its reset do |
| Masking.WrapperIsTransparent | Verification_modifiedCoreRTL/ibex_core_wrapper.sv:147-262 | With the wrapper splitting the inputs by any random bits and recombining outputs, an observer sees the plain netlist |
| Masking.RandomIndex | Verification_modifiedCoreRTL/ibex_core_wrapper.sv:147-224 | Every bit of every port is masked by one of the sixteen random bits |
| Masking.SplitHides | Verification_modifiedCoreRTL/ibex_core_wrapper.sv:147-224 | With the other value of its random bit each share of an input bit takes the other value, whatever the input bit is |
| Masking.RandomSpread | Verification_modifiedCoreRTL/ibex_core_wrapper.sv:147-224 | Two bits of a port have the same random bit only if they are 16 apart, or 6 apart in the 22-bit ports |
| ControllerRuns.AlwaysInv | Verification_modifiedCoreRTL/ibex_controller.sv:453-896 | In every reachable state decode is empty in the seven states that promise it, FLUSH sees the requests of the held instruction, IRQ_TAKEN is never in NMI or debug mode and DBG_TAKEN_IF never in debug mode |
| ControllerRuns.StepKeepsInv | Verification_modifiedCoreRTL/ibex_controller.sv:453-896 | Every clock keeps these facts, for any inputs and fetch behaviour |
| ControllerRuns.FlushHandlesOneThing | Verification_modifiedCoreRTL/ibex_controller.sv:239-300 | FLUSH is entered only from DECODE with the same instruction held, and exactly one exception has priority there if one is pending, none otherwise |
| ControllerRuns.DebugCsrsNotResaved | Verification_modifiedCoreRTL/ibex_controller.sv:676-726 | The debug CSRs are written only outside debug mode, and the core is in debug mode afterwards |
| ControllerRuns.IrqFindsPipelineEmpty | Verification_modifiedCoreRTL/ibex_controller.sv:898-899 | IRQ_TAKEN is entered only with no instruction in decode, never in NMI or debug mode, and from DECODE only with writeback ready |
| ControllerRuns.ModeChangeFlushes | Verification_modifiedCoreRTL/ibex_controller.sv:676-726 | Any change of debug mode flushes decode, redirects the fetch and leaves decode empty |
| ControllerRuns.MretBetweenNmis | Verification_modifiedCoreRTL/ibex_controller.sv:798-804 | Two entries into NMI mode are always separated by an mret |
| ControllerRuns.DretBetweenDebugSaves | Verification_modifiedCoreRTL/ibex_controller.sv:805-809 | Two writes of the debug CSRs are always separated by a dret |
| ControllerRuns.NmiEntry | Verification_modifiedCoreRTL/ibex_controller.sv:637-674 | NMI mode is entered exactly from IRQ_TAKEN with an NMI still there and interrupts still handled |
| ControllerLaws.Boots | Verification_modifiedCoreRTL/ibex_controller.sv:494-509 | From reset the core boots and then fetches |
| ControllerLaws.WakesExactly | Verification_modifiedCoreRTL/ibex_controller.sv:520-534 | In SLEEP the core goes to FIRST_FETCH exactly when there is an NMI, a pending interrupt, a debug request, debug mode or single step, and sleeps on otherwise |
| ControllerLaws.WfiSleeps | Verification_modifiedCoreRTL/ibex_controller.sv:511-534 | A wfi that FLUSH executes without exception or debug request puts the core into WAIT_SLEEP and then SLEEP, where it stays until the first cycle with a wake-up |
| ControllerLaws.FirstFetchLeads | Verification_modifiedCoreRTL/ibex_controller.sv:536-559 | Where FIRST_FETCH leads, by the inputs: debug over interrupt over decode |
| ControllerLaws.DecodeLeads | Verification_modifiedCoreRTL/ibex_controller.sv:561-635 | Where DECODE leads, by the inputs and the instruction |
| ControllerLaws.FlushLeads | Verification_modifiedCoreRTL/ibex_controller.sv:728-832 | Where FLUSH leads: a pending debug request wins over all but an ebreak into debug mode, then exceptions, then wfi |
| ControllerLaws.Remembered | Verification_modifiedCoreRTL/ibex_controller.sv:873-896 | What the registers hold is what the inputs and the instruction said in the cycle before |
| ControllerLaws.DebugModeChanges | Verification_modifiedCoreRTL/ibex_controller.sv:676-726 | Debug mode is set exactly by the two states for it and cleared exactly by a dret that FLUSH executes; NMI mode exactly by taking an NMI and by an mret |
| ControllerLaws.ExceptionOrder | Verification_modifiedCoreRTL/ibex_controller.sv:239-293 | Exactly which exception has priority: with a writeback stage store error, load error, fetch error, illegal instruction, ecall, ebreak in this order, without one the memory errors last |
| ControllerLaws.InterruptOrder | Verification_modifiedCoreRTL/ibex_controller.sv:647-670 | The interrupt reported is the first raised of external NMI, internal NMI, fast from the lowest, external, software, timer |
| ControllerLaws.TrapCause | Verification_modifiedCoreRTL/ibex_controller.sv:756-795 | A trap reports the cause of the exception with priority, saves it and jumps |
| ControllerLaws.TrapsAreWhole | Verification_modifiedCoreRTL/ibex_controller.sv:637-832 | A cause is saved only with a jump to a handler, and at most one PC, only with a cause |
| ControllerLaws.RedirectsExactly | Verification_modifiedCoreRTL/ibex_controller.sv:495-832 | The fetch is redirected exactly out of reset, by unpredicted jumps and branches, to handlers, and by mret and dret |
| ControllerLaws.ReadyExactly | Verification_modifiedCoreRTL/ibex_controller.sv:838-871 | When decode takes an instruction, is flushed and is cleared |
| Controller.Controller.constructor | Verification_modifiedCoreRTL/ibex_controller.sv:873-884 | The registers start in RESET, all else clear |
| Controller.Controller.FastIrqId | Verification_modifiedCoreRTL/ibex_controller.sv:416-425 | The loop from 14 down to 0 finds the lowest raised fast interrupt |
| Controller.Controller.PriorityLogic | Verification_modifiedCoreRTL/ibex_controller.sv:239-293 | With a writeback stage store and load errors come first, without it last |
| Controller.Controller.IrqCause | Verification_modifiedCoreRTL/ibex_controller.sv:647-670 | NMI before fast before external before software before timer |
| Controller.Controller.FirstFetch | Verification_modifiedCoreRTL/ibex_controller.sv:536-559 | Next state and outputs: debug over interrupt over decode |
| Controller.Controller.Decode | Verification_modifiedCoreRTL/ibex_controller.sv:561-635 | Next state and outputs: special requests over debug over interrupt, each waiting for what it has to |
| Controller.Controller.FlushException | Verification_modifiedCoreRTL/ibex_controller.sv:756-795 | The cause that has priority is reported, or the ebreak goes to debug |
| Controller.Controller.FlushSpecial | Verification_modifiedCoreRTL/ibex_controller.sv:797-813 | mret over dret over wfi |
| Controller.Controller.Flush | Verification_modifiedCoreRTL/ibex_controller.sv:728-832 | Next state and outputs in FLUSH, with pending debug overriding everything but an ebreak into debug |
| Controller.Controller.IrqTaken | Verification_modifiedCoreRTL/ibex_controller.sv:637-674 | An interrupt that has gone away changes nothing but the state |
| Controller.Controller.OneAction | Verification_modifiedCoreRTL/ibex_controller.sv:495-534 | Next state and outputs of the states with a single action |
| ControllerRuns.RequestsDecide | Verification_modifiedCoreRTL/ibex_controller.sv:561-635 | In DECODE a special request keeps its instruction and leads to FLUSH exactly when writeback is ready or failing; a debug or interrupt request lets no new instruction in and is taken, debug first, exactly when nothing is left to complete; without requests the state stays and an offered instruction is accepted |
| ControllerRuns.SpecialIsServed | Verification_modifiedCoreRTL/ibex_controller.sv:576-594 | Over a run an instruction that asks for FLUSH stays in decode for as long as writeback takes, and FLUSH gets that instruction |
| ControllerRuns.NothingStartsBeforeEntry | Verification_modifiedCoreRTL/ibex_controller.sv:613-635 | Over a run, while a debug or interrupt request stands and no special request comes, decode holds the instruction it held or none until everything has completed, and then the request is taken |
| Controller.Controller.Combinational | Verification_modifiedCoreRTL/ibex_controller.sv:453-871 | Outputs and next values are those of the declarative description |
| Controller.Controller.Clock | Verification_modifiedCoreRTL/ibex_controller.sv:873-896 | One clock takes the registers to the declared next state |
| PmpLocking.LockedForever | baseline_ibex/dv/cs_registers/model/base_register.cc:100-234 | Once a configuration byte is locked with RLB clear, no sequence of reads, writes, sets and clears to any CSRs changes the byte, the RLB bit or the address of the region |
| PmpLocking.ModesForever | baseline_ibex/dv/cs_registers/model/base_register.cc:113-132 | MML and MMWP never fall |
| PmpLocking.RunKeepsInv | baseline_ibex/dv/cs_registers/model/base_register.cc:134-204 | Over every run: without MML no byte is writable but not readable, and the read-as-zero bits are clear |
| PmpLocking.AppliedKeepsInv | baseline_ibex/dv/cs_registers/model/base_register.cc:134-204 | One transaction keeps these facts |
| PmpLocking.ResetGivesInv | baseline_ibex/dv/cs_registers/model/register_model.cc:100-104 | Reset establishes them |
| PmpLocking.CfgByteStays | baseline_ibex/dv/cs_registers/model/base_register.cc:134-204 | A locked byte survives a transaction, because making a legal byte legal again changes nothing |
| PmpLocking.RlbStaysClear | baseline_ibex/dv/cs_registers/model/base_register.cc:113-119 | With some lock bit set RLB cannot be set |
| PmpLocking.AddrStays | baseline_ibex/dv/cs_registers/model/base_register.cc:206-234 | The address of a locked region survives a transaction |
| PmpLocking.ModesStay | baseline_ibex/dv/cs_registers/model/base_register.cc:121-129 | One transaction keeps MML and MMWP set |
| PmpLocking.FrozenExactly | baseline_ibex/dv/cs_registers/model/base_register.cc:228-233 | A region address cannot be changed by any transaction if and only if the region is locked or the next region is top-of-range, locked or not and whatever RLB is |
| PmpStandard.StandardExactly | baseline_ibex/dv/cs_registers/model/base_register.cc:206-234 | Model and standard agree on whether a region address is frozen if and only if: with RLB set the region is unlocked and the next one is not top-of-range; without RLB the region is locked, or the next one is locked or not top-of-range |
| PmpStandard.ModelIsStricter | baseline_ibex/dv/cs_registers/model/base_register.cc:206-234 | Whatever the standard freezes the model freezes |
| PmpStandard.UnlockedNeighbourFreezes | baseline_ibex/dv/cs_registers/model/base_register.cc:228-233 | From the registers as built one write, making region 1 top-of-range and unlocked, freezes the address of region 0, which the standard leaves writable |
| PmpStandard.BypassDoesNotReach | baseline_ibex/dv/cs_registers/model/base_register.cc:228-233 | From the registers as built, setting RLB and then locking region 0 freezes its address, although the standard lets locked regions be changed while RLB is set |
| CsrLaws.TransactionLaw | baseline_ibex/dv/cs_registers/model/base_register.cc:14-34 | A transaction changes the register at its address only. Every bit that is not locked becomes the data bit by a write, 1 where the data is 1 by a set, 0 where the data is 1 by a clear, and stays otherwise; locked bits stay; configuration registers obey this up to the bits made legal |
| CsrLaws.SeccfgWritten | baseline_ibex/dv/cs_registers/model/base_register.cc:113-132 | A write to mseccfg: MML and MMWP only rise, RLB can be set unless it is clear while a region is locked, no other bit changes |
| CsrLaws.CfgOpenExactly | baseline_ibex/dv/cs_registers/model/base_register.cc:134-182 | The configuration of an implemented region can be changed by some transaction if and only if it is not locked or RLB is set |
| CsrLaws.CounterWritten | baseline_ibex/dv/cs_registers/model/base_register.cc:14-34 | A counter takes every bit written that its mask leaves open |
| CsrModel.BuiltInv | baseline_ibex/dv/cs_registers/model/register_model.cc:9-98 | The registers as built have distinct addresses, the layout protection relies on, and the invariant |
| CsrModel.RegisterModel.constructor | baseline_ibex/dv/cs_registers/model/register_model.cc:9-98 | Builds the 114 registers in order with their kinds, masks and reset values |
| CsrModel.RegisterModel.AnyPmpCfgsLocked | baseline_ibex/dv/cs_registers/model/base_register.cc:100-111 | True exactly when some configuration register has a lock bit set |
| CsrModel.RegisterModel.ReadFromMap | baseline_ibex/dv/cs_registers/model/base_register.cc:86-94 | What is read at an address, zero if there is nothing |
| CsrModel.RegisterModel.GetLockMask | baseline_ibex/dv/cs_registers/model/base_register.cc:113-234 | Bit by bit the lock of each kind of register |
| CsrModel.RegisterModel.HandleReservedVals | baseline_ibex/dv/cs_registers/model/base_register.cc:185-204 | Clears the read-as-zero bits and, without MML, writable bytes that are not readable |
| CsrModel.RegisterModel.Operate | baseline_ibex/dv/cs_registers/model/base_register.cc:14-34 | Write, set and clear change exactly the bits that are not locked, as TransactionLaw says, and configuration words are made legal |
| CsrModel.RegisterModel.NewTransaction | baseline_ibex/dv/cs_registers/model/register_model.cc:106-123 | The one register at the address is changed as TransactionLaw says; the testbench is stopped exactly on a wrong read value or on a missing register without an error |
| CsrModel.RegisterModel.RegisterReset | baseline_ibex/dv/cs_registers/model/register_model.cc:100-104 | Every register takes its reset value |
| Cosim.RunMatches | baseline_ibex/dv/cosim/spike_cosim.cc:764-1037 | In any run without reported errors and without error flags, the bytes of the simulator group, in order, into exactly the enabled bytes of the accesses consumed from the queue, each byte once with matching data; only the front entry is partly matched, by a proper subset of its bytes |
| Cosim.QueueAfter | baseline_ibex/dv/cosim/spike_cosim.cc:764-1037 | The queue after a run of notifications and checks stays well formed |
| Cosim.CheckMatches | baseline_ibex/dv/cosim/spike_cosim.cc:887-948 | A check without a problem extends the matching |
| Cosim.NotifyMatches | baseline_ibex/dv/cosim/spike_cosim.cc:764-770 | A notification extends the queue and keeps the matching |
| Cosim.CoversMore | baseline_ibex/dv/cosim/spike_cosim.cc:901-927 | Two disjoint sets of bytes that fit an access together fit their union |
| Cosim.SpikeCosim.constructor | baseline_ibex/dv/cosim/spike_cosim.cc:764-770 | Starts with an empty queue and no errors |
| Cosim.SpikeCosim.NotifyDsideAccess | baseline_ibex/dv/cosim/spike_cosim.cc:764-770 | Appends the access with no byte seen |
| Cosim.SpikeCosim.CheckMemAccess | baseline_ibex/dv/cosim/spike_cosim.cc:841-1037 | Accepts an access exactly if it has none of the problems; reports the first problem in the order of the checks, or consumes from the front exactly what is done, both halves on an error in a crossing access |
| Cosim.FirstProblem | baseline_ibex/dv/cosim/spike_cosim.cc:841-948 | The problem reported is one the access has, and it has none of those looked for before; without a report it has none |
| Cosim.AcceptedLeaves | baseline_ibex/dv/cosim/spike_cosim.cc:950-1037 | What an accepted access leaves of the queue, in terms of the bytes touched and the error flags |
| Cosim.PiecesAccepted | baseline_ibex/dv/cosim/spike_cosim.cc:887-948 | A split access whose enabled bytes the simulator touches in any pieces, each once and with its data, is accepted piece by piece and leaves the queue with the last |
| Cosim.WholeAccepted | baseline_ibex/dv/cosim/spike_cosim.cc:887-948 | An access that the simulator makes with exactly the enabled bytes and their data is accepted and taken |
| Gng.ClocksAreSerial | Verification_modifiedCoreRTL/gng.v:465-481 | After n enabled clocks the effective bits of each word are n times s steps (24, 13 and 7) of its bit-serial recurrence |
| Gng.WordStepIsSerial | Verification_modifiedCoreRTL/gng.v:465-468 | One word update is s bit-serial steps on the effective bits |
| Gng.SerialIsWindow | Verification_modifiedCoreRTL/gng.v:465-468 | n serial steps move a window along the linear recurring sequence |
| Gng.StatesNeverMeet | Verification_modifiedCoreRTL/gng.v:465-481 | The clocked state determines the start: different effective bits never meet |
| Gng.NeverReachesZero | Verification_modifiedCoreRTL/gng.v:465-481 | A state is zero after n clocks if and only if it was zero before |
| Gng.NeverStuck | Verification_modifiedCoreRTL/gng.v:444-448 | From the three reset values no word ever reaches zero |
| Gng.GngCtg.NextState | Verification_modifiedCoreRTL/gng.v:465-468 | The three concatenations are the three word updates |
| Gng.GngCtg.Clock | Verification_modifiedCoreRTL/gng.v:470-497 | Reset, hold and step of the registers and both outputs, counted in enabled clocks; the word given out is, bit by bit, the xor of the three words stepped to |
| Gng.Lzd | Verification_modifiedCoreRTL/gng.v:785-921 | For every width 2^k the tree computes the number of leading zeros of a word that is not zero |
| Gng.GngLzd | Verification_modifiedCoreRTL/gng.v:764-924 | For 61 bits, with the three ones appended, the number of leading zeros, 61 for zero |
| Gng.LeadingZerosOfPair | Verification_modifiedCoreRTL/gng.v:853-917 | Leading zeros of a pair: of the upper half, or its width plus those of the lower half |
| ProcessRunner.Process.constructor | baseline_ibex/dv/formal/conductor.py:138-154 | A new process has no result, is not started and nobody wants it killed |
| ProcessRunner.Process.Start | baseline_ibex/dv/formal/conductor.py:156-162 | Forgets the memory seen before |
| ProcessRunner.Process.SetKill | baseline_ibex/dv/formal/conductor.py:165-166 | Requests the kill |
| ProcessRunner.Process.KillRestart | baseline_ibex/dv/formal/conductor.py:170-171 | Overrides any request with a restart |
| ProcessRunner.Process.SetResult | baseline_ibex/dv/formal/conductor.py:183-184 | A result is set at most once, and not after cancellation |
| ProcessRunner.Process.Poll | baseline_ibex/dv/formal/conductor.py:173-216 | Done exactly when ended, killed or too slow; delivers one result with the right reason unless it is to be restarted, which instead raises the expectations |
| ProcessRunner.Process.ResultMeans | baseline_ibex/dv/formal/conductor.py:173-216 | A process is reported finished, with its exit code, exactly if it ended and nobody wanted it killed; otherwise timed out exactly if it is beyond its time, and killed if not |
| ProcessRunner.ProcessRunner.constructor | baseline_ibex/dv/formal/conductor.py:227-231 | Starts with nothing |
| ProcessRunner.ProcessRunner.Append | baseline_ibex/dv/formal/conductor.py:235-236 | The new process goes to the bottom of the stack |
| ProcessRunner.ProcessRunner.KillLast | baseline_ibex/dv/formal/conductor.py:253-257 | The last started process goes back on top of the stack without a result and without any request to kill it, also if it was to be killed for good, and frees what it used, 3 GB at least |
| ProcessRunner.ProcessRunner.KillSome | baseline_ibex/dv/formal/conductor.py:249-257 | Kills from the most recently started while memory is short and more than one runs; all of them go on the stack in order and have lost their kill requests |
| ProcessRunner.ProcessRunner.StartSome | baseline_ibex/dv/formal/conductor.py:259-265 | Processes start from the top of the stack, each reserving max(expected, 3) GB; starting stops when slots, processes or memory run out, and leaves more than 2 GB |
| ProcessRunner.ProcessRunner.DropFinished | baseline_ibex/dv/formal/conductor.py:267-273 | Exactly the processes that ended, were to be killed or ran too long are finished; the others keep running in their order |
| ProcessRunner.ProcessRunner.Poll | baseline_ibex/dv/formal/conductor.py:249-273 | Every process ever appended stays in exactly one of pending, running and finished; finished ones are never touched again and have one result unless cancelled; at most max(0, MAX_RUNNING) run. The killed go on top of the pending stack in order, those started come off its top, each reserving max(expected, 3) GB, which leaves more than 2 GB; killing stops at one process or enough memory |
| PrefixTree.GroupItems | baseline_ibex/dv/formal/conductor.py:502-518 | Used-up names first, then one subtree for each first chunk in order of first appearance, built the same way |
| PrefixTree.SplitByPrefixes | baseline_ibex/dv/formal/conductor.py:496-520 | Fails exactly if a name is empty; otherwise the tree is that grouping of the chunked names, and its leaves are the given names, as often as given |
| ChunkNames.ChunksJoin | baseline_ibex/dv/formal/conductor.py:497-500 | The chunks of a name joined are the name without its underscores; a chunk has a capital letter at most in front; only the empty name has no chunks |
| ChunkNames.UnderscoreBeforeCapital | baseline_ibex/dv/formal/conductor.py:497-500 | Anywhere in a name, an underscore before a capital letter makes no difference to the chunks if and only if it does not follow an underscore |
| ChunkNames.ChunksOfBoth | baseline_ibex/dv/formal/conductor.py:497-500 | Cut before a separator, and not between an underscore and a capital letter, the two parts of a name are chunked separately |
| ChunkNames.OtherGoesOn | baseline_ibex/dv/formal/conductor.py:497-500 | A character that is no underscore and no capital letter goes on with the last chunk |
| ChunkNames.CapitalOpens | baseline_ibex/dv/formal/conductor.py:497-500 | A capital letter opens a chunk, or fills the empty one of an underscore before it |
| ChunkNames.UnderscoreOpens | baseline_ibex/dv/formal/conductor.py:497-500 | An underscore opens an empty chunk |
| PrefixTree.GroupingKeepsNames | baseline_ibex/dv/formal/conductor.py:502-518 | Any such grouping has exactly the given names as leaves |
| PrefixTree.SingleNamesFirst | baseline_ibex/dv/formal/conductor.py:495-518 | For a_x, a_y, b the result is b, [a_x, a_y] |

## Left out

- MuxRounds.RoundsKeepMeaning: gives a condition under which repeated runs keep the outputs, not the exact one. Whether a wrong constant written on the way reaches a kept bit asks whether some values of the free bits bring it there; mux networks compute every Boolean function and the gates are arbitrary, so the exact condition is a satisfiability question about the whole netlist and cannot be read off its connections. The rules for a single bit, `OwnSelectRule` and `SharedPortRule`, are exact.
- OptMuxtree.Execute: for a design that does not meet these conditions it promises the structure of the result and the chain of runs, each of which keeps meaning if its own netlist meets the conditions for one run.
- OptMuxtree.OptimiseModule: does not state that every port that can never be active is removed, because the walk is cut off at depth 3 and by its iteration limit.
- AigerWriter.WriteAiger: asks for an acyclic netlist; which loop is reported on a cyclic one, and overflow of the 32-bit variable numbers, are not modelled.
- AigerTraces.ObservablesAgree: does not list which wires become outputs; the collection of cells and wires into the maps (lines 143 to 375 of the writer) is the input of the model.
- AigQueries.WhyExplains: says nothing when a leaf without a name is reached, because the trace then decides on something the answer cannot show.
- Controller.Controller.Combinational: leaves out `pc_mux`, `exc_pc_mux`, `debug_cause`, `csr_mtval`, instruction request, busy, run and performance outputs, which no modelled output or register depends on.
- ControllerRuns.IrqFindsPipelineEmpty: does not claim writeback ready on entry from FIRST_FETCH, which depends on the writeback stage that is not part of this model.
- CsrModel.RegisterModel.constructor: the number of performance counters is a number, so that a shift by 32 or more in the original has no counterpart.
- Cosim.RunMatches: assumes that no access has its error flag set; for accesses with errors CheckMemAccess states what is consumed.
- ProcessRunner.ProcessRunner.Poll: does not say that a pending process is ever started, which depends on memory and time.
- Masking.MaskingKeepsMeaning: masks a plain buffer share by share, for which the library has no cell of its own; it is about function only, and the strength of the masking against an observer of power or timing is not modelled.
- The internal NMI register for memory integrity errors is an input of the controller.
- Symbol, map and ASCII output of the AIGER writer, and the mapping of `$anyseq`, `$anyconst` and `$anyinit`.
- Parsing of AIGER, VCD, witness and map files, and the `simulate` command.
- The shifter, shuffles, comparisons, min/max and other ALU operations, and the reversed and high carry-less products.
- The list of wrapper signals: a port is described by how the sixteen random bits are spread over it.
- `SpikeCosim::step` and everything that forwards to the simulator, and messages for a counter that ran ahead.
- The interpolation, coefficient table and output pipeline of the noise generator.
- Proof strategies of the conductor, racing, logging and the 30-second report.
- In the mux-tree optimiser a constant is 0 or 1: undefined constants, and the removal of data bits made of them, are not part of this model.
