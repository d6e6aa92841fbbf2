# Verified model of the architecture simulator

Dafny models of the parts of the simulator whose correctness does not show in any one function, with the
proofs of what they guarantee over whole runs. `dafny verify dfyconfig.toml` checks everything.

**Directory coherence.** Five protocols (MI, MSI, MESI, MOSI, MOESIF) as tables of agents and handlers of the
directory (`Protocols`), a transition system over one block and any number of processors (`CoherenceSystem`),
and an invariant that ties the directory entry to every agent, channel and latched response
(`CoherenceInvariant`, `HandlerProof`, `ProtocolProof`). From it follow safety (`CoherenceSafety`,
`CoherenceSharing`), progress (`CoherenceProgress`), the laws of the counters (`CoherenceAccounting`), and
that every copy is the last store's (`CoherenceValues`). `CoherenceMachine` is the machine with all blocks,
the traces, the controller's rotating queue and its latch; each of its events is, for every block, an event of
the one-block system or none. `CoherenceTermination` proves that every fair run of that machine ends with all
traces executed, `CoherenceOverRing` that the machine whose channels are the ring's is the same machine,
`OverRingTermination` that its fair runs end too, and `MachineAccounting` the laws of the counters over all
blocks, and `SequentialConsistency` that the machine is sequentially consistent, over the ring too. `FairRuns`
is the argument behind all fair runs here. `DirectoryController`, `CacheAgent` and `ProcessorNode` are the
same code in place, as classes, proved against the tables.

**Ring.** `Ring` proves that the interconnect is a FIFO channel between any two nodes, which is what the
protocols rely on; `RingProgress` that it always delivers, under every fair schedule; `RingNetwork` is the
network in place, tick by tick and tock by tock, and `RingLatency` how long a message takes.

**Out-of-order core.** `Pipeline` gives the five stages as functions on values, `PipelineInvariant`,
`PipelineProof`, `FrontEndProof` and `PipelineInduction` the invariant of every move, `PipelineSafety` what it
means, `PipelineMeaning` that completion order computes what program order computes, `PipelineProgress` that
the core drains, `PipelineTiming` what happens in which cycle. `OooCore` has the tables and the stages in
place, `Mshr` the miss registers the load/store units wait on.

**Synchronisation replay.** `SyncReplay` replays recorded locks, atomics and barriers over pipelines that
retire in order; `SyncProgram` is the trace builder and `SyncWriting` what it writes, `SyncProgress` and
`SyncDiscipline` the freedom from deadlock, `SyncExact` the exact condition for it, `SyncCoordinator` the
coordinator in place. `TraceCodec` is the CasimV2 file format with its round trips, `TraceReader` writer and
reader over it, and `SyncSimulation` shows that readers, coordinator and cores together are a replay.
`SyncCores` puts the pipelines of `Pipeline` behind the readers and says exactly when they all finish.

**Caches.** `WriteBack` and `CacheLevels` are stacks of caches against flat memory, `StackGeometry` the exact
condition for a stack to behave like memory, `Replacement` which lines stay, `LlsCache` the shared cache
against true LRU.

Reading notes:

- The value specifications carry histories (`fetched`, `retired`, `done`, `sent`, `taken`, `calls`) that the
  program does not have; in the classes they are ghost fields.
- A throw of the program is an outcome (`Throw`, `Bad`, `Crash`, `None`, `ok == false`), never a precondition.
- Agents of the five protocols are one table whose rows the protocol selects; states a protocol does not have
  are never entered.
- A link of the ring is one slot: the sender's `outgoing_packets` mark and the receiver's `incoming_packets`
  entry are free together exactly when the slot is (`RingNetwork.Network.Valid` ties the mark to the slot).
- A functional unit's pointer to a list entry is that entry's tag; `PipelineSafety.NoDanglingPointer` shows
  that it always names a live entry.
- The predictor's guess, the cache latency of an access, how often the reader answers before a sync gate is
  shut, the directory's response latency and the sink's answers are arbitrary inputs.
- Contents of a block are named by the store that wrote them, counted per block; 0 is what was there at first
  (`CoherenceValues`). The program moves no data; where it counts a memory write, memory takes the copy.
- Caches carry data in the model although the simulator keeps tags only: it is what the tags stand for. Two things
  that the configuration accepts make a stack lose data: a level with smaller blocks than the one above it
  (`src/cache/cache_mode.cpp:94-103` reads `block_size` for each level), and a write-through level, which by the
  comment in `src/cache/cache.cpp:145-146` passes writes on but does not (`src/cache/cache.cpp:397-417`).
  `StackGeometry.TransparentIff` says that nothing else does.
- The header of a trace file is always written with 32 bytes, whatever `header_size` the caller set, while the reader
  skips as many as it says: `TraceCodec.HeaderRoundTrip`.
- Programs that the builder accepts can deadlock in replay; `SyncExact.BuiltNeverStuckIff` says exactly which.
- `MSHR::allocate` merges any operation on an outstanding block, so a store can share the slot of a load
  although `Cache::issue` says that it never does; the model follows the code.
- The constructor of `OooCore.Processor` takes an invariant that every move keeps; `OooCore.Simulate` makes one with
  the invariant of `PipelineProgress` and runs it to the end.
- A message that one event sends enters the ring in processor order, which is the order of the program's loops
  (`CoherenceOverRing.Flush`).
- `ProcessorNode.Node.HandleNetwork` requires that an agent replies only to the access its processor waits
  for; `CoherenceMachine.ReplyAwaited` proves it of every reachable state.

## Model

| member | source | states |
|---|---|---|
| `CoherenceSafety.NoThrow` | src/coherence/directory_moesif.cpp:11-434 | In every run of any of the five protocols, with any number of processors, neither the directory nor an agent ever meets a (state, message) pair it throws on: no `bad_msg`, no invalid pair, no surplus INVACK, no processor request at an agent in transition |
| `CoherenceSafety.SingleWriter` | src/coherence/directory_mesi.cpp:9-229 | While one agent is in M or E, every other agent is in I, IS or IM, no grant is on its way to it and the directory has none latched for it |
| `CoherenceSafety.SingleOwner` | src/coherence/directory_mosi.cpp:17-234 | At most one agent is in M, E, O, F, EM, OM or FM; for MOSI that is at most one in M, O, OM |
| `CoherenceSafety.SharerCounts` | src/coherence/directory_moesif.cpp:247-377 | `active_sharers` always equals the number of presence bits; MESI S and MOESIF F and O have at least two sharers; a GETX that reaches O comes from a non-sharer and one that reaches F from the forwarder, which is why those branches need no zero-INVACK case |
| `CoherenceSafety.AckConservation` | src/coherence/directory_mesi.cpp:151-205 | `inv_ack_waiting` is exactly the number of REQ_INVALIDs and INVACKs in flight, in every reachable state |
| `CoherenceSafety.Debtor` | src/coherence/directory_moesif.cpp:143-377 | Whenever the directory is in a transient state some node has a demand on its way or an answer in flight that will move the directory on |
| `CoherenceSafety.QuietBooks` | src/coherence/directory_moesif.cpp:143-311 | With nothing in flight, presence is exactly the set of agents with a copy, `o_f_id` names the O or F holder exactly when the directory is in O or F, M and E agree on both sides, and nobody is in transition |
| `CoherenceSafety.RunKeepsInvariant` | src/coherence/directory_msi.cpp:11-162 | Every event of every protocol keeps the invariant that ties the directory entry to every agent and channel |
| `CoherenceSafety.OwnerSupplies` | src/coherence/directory_moesif.cpp:100-265 | The directory reads memory for a request only when no cache owns the block; a load is otherwise served by asking the owner, and nobody else, for a copy |
| `CoherenceSafety.FirstReaderOwns` | src/coherence/directory_mesi.cpp:20-60 | A load served from memory gets the block exclusively exactly when there is no copy, in MESI and MOESIF and in no other protocol |
| `CoherenceSharing.AsksByPermission` | src/coherence/agent_mesi.cpp:51-101 | A load is answered at once exactly when there is a copy, a store exactly when it may be written; GETX is asked exactly for a store to the only copy, GETS exactly for a load (never in MI), GETM otherwise |
| `CoherenceSharing.ReadersShare` | src/coherence/directory_moesif.cpp:100-265 | Loads share: in MSI, MESI, MOSI and MOESIF no cache loses its copy while only loads are issued |
| `CoherenceValues.EventFresh` | src/coherence/directory_mesi.cpp:79-150 | Were the messages to carry the data they stand for, then after every event every copy, in a cache, on its way or about to be read from memory, would be the last store's; memory takes a copy only where the program counts a memory write |
| `CoherenceValues.AnswerLast` | src/coherence/agent_mesi.cpp:51-101 | An answered load has the content of the last answered store to the block, an answered store makes the next one |
| `CoherenceValues.AnswerHolds` | src/coherence/agent_mesi.cpp:51-101 | The event that answers a store leaves its agent in M, one that answers a load leaves it with a copy |
| `HandlerProof.PurgeStep` | src/coherence/directory_mesi.cpp:151-182 | Sending REQ_INVALID to all sharers but the writer (and, in O and F, the owner) and waiting for that many INVACKs keeps the invariant for every node |
| `HandlerProof.SharerAckStep` | src/coherence/directory_mosi.cpp:111-133 | An INVACK in SM: the last one upgrades a requester that still has its copy and fetches for one that lost it, and every node stays in agreement |
| `HandlerProof.OwnerGoneStep` | src/coherence/directory_moesif.cpp:291-311 | When the recalled owner's data arrives in OM or FM the requester becomes the only holder, consistently at every node |
| `ProtocolProof.HandleStep` | src/coherence/directory.cpp:57-66 | For each protocol and each pending message the handler's branch is one of the proved moves, or cycles the message |
| `ProtocolProof.EventKeepsInvariant` | src/coherence/coherence_cache.cpp:25-42 | Processor requests, deliveries, directory polls and latched responses all keep the invariant and none of them throws |
| `CoherenceProgress.NoDeadlock` | src/coherence/directory_moesif.cpp:409-434 | While a request, answer, demand, grant, latched response or transient state is outstanding, some event that consumes one of them is enabled |
| `CoherenceProgress.NoLivelock` | src/coherence/directory.cpp:57-97 | At one block and without new processor requests, at most `Work` events that consume something can happen, in any order; what polls that only cycle the queue may do meanwhile is `CoherenceTermination.EveryFairRunEnds` |
| `CoherenceProgress.Drain` | src/coherence/fici_cpu.cpp:60-94 | From every invariant state of one block some at most `Work` events bring it to rest: nothing in flight, every processor answered |
| `CoherenceProgress.DrainedAtRest` | src/coherence/fici_cpu.cpp:60-94 | A reachable state of one block in which no event that consumes something is possible is at rest: every processor answered, nothing in flight |
| `CoherenceTermination.EveryFairRunEnds` | src/coherence/network.cpp:66-78 | In the whole machine, under every schedule that tries each event again and again, for any protocol, traces and number of processors: from some moment on all accesses have been issued and answered and nothing is in flight, so neither the rotating queue nor the one latch for all blocks can starve anyone |
| `CoherenceTermination.CyclicEnds` | src/coherence/directory.cpp:57-104 | In particular every simulation ends whose cycles try every event, in whatever order |
| `CoherenceTermination.ActingLowers` | src/coherence/directory.cpp:73-97 | Every event that consumes something lowers one potential over all blocks, channels and traces |
| `CoherenceAccounting.MissLaw` | src/coherence/directory_msi.cpp:68-162 | All five protocols without a shared cache, in every reachable state. Together: transfers + memory reads + agents in IS or IM whose data has not been sent = misses + upgrades demoted to IM by a race, apart from transfers acknowledged to a requester that had a copy. Each by itself: one transfer for every recall that a cache has received, unless its copy is still on its way (MOESIF leaves out those of OM with a requester that has a copy); one memory read for every response latched, unless it is still latched |
| `CoherenceAccounting.DeliverWants` | src/coherence/agent_msi.cpp:149-171 | Delivering a message changes an agent's claim on data only by demoting an upgrade |
| `MachineAccounting.MachineMissLaw` | src/coherence/directory_mesi.cpp:79-150 | The same laws, together and each counter by itself, for the whole machine with its one set of counters over all blocks, any traces and any run |
| `MachineAccounting.MissesServed` | src/coherence/directory_mesi.cpp:219-228 | When all is done, every miss of MI, MSI and MESI has been served by exactly one transfer or memory read |
| `MachineAccounting.AloneReadsMemory` | src/coherence/directory_mesi.cpp:219-228 | With one processor there are no transfers: every miss is a memory read or still waits for it, in every protocol |
| `MachineAccounting.WantingSplits` | src/coherence/agent_msi.cpp:51-80 | A processor waits at one block only: those that want data are those that want it at a given block and those that want it elsewhere |
| `CoherenceMachine.EventSimulated` | src/coherence/directory.cpp:57-104 | No event of the machine with all blocks, one controller queue, one latch and FIFO channels throws, and for every block it is the event of the one-block system that `EventAt` names, or no event at all |
| `CoherenceMachine.MachineSafe` | src/coherence/network.cpp:72-78 | No run of the whole machine over any traces throws, and every block satisfies the invariant at every moment |
| `CoherenceMachine.MachineSingleWriter` | src/coherence/directory_mesi.cpp:9-229 | In the whole machine no processor holds a block, or has a grant for it under way or latched in the controller, while another may write it |
| `CoherenceMachine.TickOfMachine` | src/coherence/directory_mesi.cpp:9-229 | A tick of the directory is a poll followed, when a response is due, by that response |
| `SequentialConsistency.SequentiallyConsistent` | src/coherence/fici_cpu.cpp:60-83 | The machine is sequentially consistent, in every protocol, for any traces and any run: the answered accesses, in the order of their answers, are an interleaving of what the processors have done of their traces, in program order, in which each load returns the last store to its block; when all is done, of the whole traces |
| `SequentialConsistency.AnswerPermission` | src/coherence/agent_moesif.cpp:59-146 | In every run, when a store is answered its agent is in M and no other processor has a copy, is being sent one or is about to be; when a load is answered its agent has a copy |
| `CoherenceOverRing.MoveMirrors` | src/coherence/node.cpp:39-129 | With the ring as the only transport: the outcome of every move of processors and directory is that of its event on the machine with FIFO channels, and moves inside the ring are invisible to it |
| `CoherenceOverRing.OverRingSafe` | src/coherence/network.cpp:10-78 | So over the ring, whatever the contention on its links, no run throws and every block keeps its invariant |
| `CoherenceOverRing.OverRingSingleWriter` | src/coherence/agent.cpp:19-41 | And while one processor may write a block, no other holds it and no grant for another is on the ring or in the latch |
| `SequentialConsistency.OverRingConsistent` | src/coherence/agent.cpp:19-41 | And it is sequentially consistent with its channels on the ring, under any contention there |
| `OverRingTermination.EveryFairRunEnds` | src/coherence/network.cpp:66-78 | Processors, directory and ring together, under every schedule that tries each of their moves again and again: from some moment on all accesses have been issued and answered and nothing is on the ring, queued or latched |
| `Protocols.AgentProc` | src/coherence/agent_moesif.cpp:59-146 | What an agent does with a load or store: it either answers its processor or sends a request to the directory, never both; when it answers, see CoherenceSharing.AsksByPermission and SequentialConsistency.AnswerPermission |
| `Protocols.AgentNtwk` | src/coherence/agent_moesif.cpp:148-323 | What an agent does with a message: it either answers its processor or sends an INVACK or DATA to the directory, never both |
| `ProtocolProof.MoesifStep` | src/coherence/directory_moesif.cpp:11-420 | MOESIF: for every pending message in an invariant state, MOESIF_tick's branch does not throw, and what it changes, sends and latches keeps the invariant of directory, agents and channels |
| `ProtocolProof.MesiStep` | src/coherence/directory_mesi.cpp:9-215 | As above, for MESI_tick |
| `ProtocolProof.MosiStep` | src/coherence/directory_mosi.cpp:17-225 | As above, for MOSI_tick |
| `ProtocolProof.MsiStep` | src/coherence/directory_msi.cpp:11-154 | As above, for MSI_tick |
| `ProtocolProof.MiStep` | src/coherence/directory_mi.cpp:9-52 | As above, for MI_tick |
| `CacheAgent.CacheAgent.ProcessProcRequest` | src/coherence/agent_mesi.cpp:25-101 | The in-place switch reaches the state, message and answer of the table, throws exactly where it does, and counts a miss exactly in I |
| `CacheAgent.CacheAgent.ProcessNtwkRequest` | src/coherence/agent_mosi.cpp:38-200 | The in-place switch on a network message reaches the table's state, message and answer and throws exactly where it does |
| `DirectoryController.Controller.InvalidateSharers` | src/coherence/directory_moesif.cpp:217-226 | The loop sends one REQ_INVALID to each sharer but two given nodes, in index order, and returns their number |
| `DirectoryController.Controller.FindHolder` | src/coherence/directory_mosi.cpp:40-45 | The loop leaves the last holder in `target_node`, -1 if there is none |
| `DirectoryController.Controller.CountOwnerAck` | src/coherence/directory_moesif.cpp:269-290 | An INVACK in FM or OM updates counts, and the last one upgrades or recalls, as the handler specifies |
| `DirectoryController.Controller.MoesifPlainEntry` | src/coherence/directory_moesif.cpp:15-216 | The in-place branches without an owner produce the handler's entry, packets and latch |
| `DirectoryController.Controller.MoesifOwnedEntry` | src/coherence/directory_moesif.cpp:217-420 | The in-place branches with a forwarder or owner produce the handler's entry, packets and latch |
| `DirectoryController.Controller.MesiEntry` | src/coherence/directory_mesi.cpp:9-215 | MESI_tick's branches in place, against MesiHandle |
| `DirectoryController.Controller.MosiEntry` | src/coherence/directory_mosi.cpp:17-225 | MOSI_tick's branches in place, against MosiHandle |
| `DirectoryController.Controller.MsiEntry` | src/coherence/directory_msi.cpp:11-154 | MSI_tick's branches in place, against MsiHandle |
| `DirectoryController.Controller.MiEntry` | src/coherence/directory_mi.cpp:9-52 | MI_tick's branches in place, against MiHandle |
| `DirectoryController.Controller.DoTick` | src/coherence/directory.cpp:57-97 | One controller tick: handle or cycle the head unless a response is latched, then answer the latched target when its latency has passed; entries, queues, latch and packets are those of the value specification |
| `DirectoryController.Controller.DoTock` | src/coherence/directory.cpp:68-70 | request_next joins the end of request_queue |
| `ProcessorNode.Node.CpuTick` | src/coherence/fici_cpu.cpp:60-83 | A CPU tick is the machine's Accept (if an answer is there) followed by its Fetch (if nothing is outstanding) |
| `ProcessorNode.Node.HandleCpu` | src/coherence/coherence_cache.cpp:25-31 | Draining the CPU mailbox is the machine's Lookup, throwing where the agent throws |
| `ProcessorNode.Node.HandleNetwork` | src/coherence/coherence_cache.cpp:32-41 | Draining the network mailbox is the machine's Deliver |
| `ProcessorNode.Node.CacheTock` | src/coherence/coherence_cache.cpp:44-53 | Shifting the mailboxes is invisible to the machine: order and contents of the channel stay |
| `ProcessorNode.EventsOfMachine` | src/coherence/fici_cpu.cpp:60-94 | The processor's moves are events of the whole machine |
| `Ring.Routing` | src/coherence/node.cpp:55-60 | The modular formulas of Node::tick compute the distance and the neighbour the model routes by |
| `Ring.HopCloser` | src/coherence/node.cpp:53-60 | Every hop lowers the remaining distance by exactly one and the message never turns around |
| `Ring.NextPlaced` | src/coherence/node.cpp:39-129 | Every message stays on the route from its source to its destination |
| `Ring.FifoChannels` | src/coherence/node.cpp:39-129 | For any ring size, run and contention: what d has taken from s followed by what is still under way is exactly what s has sent to d, in order, so nothing is lost, duplicated or overtaken |
| `RingProgress.ProductiveLowersWork` | src/coherence/node.cpp:48-105 | Every forward, arrival, hand-off and useful tock brings the ring closer to empty |
| `RingProgress.NeverStuck` | src/coherence/node.cpp:62-70 | A ring with anything in it can move: busy links and head-of-line blocking never stop it for good |
| `RingProgress.Deliver` | src/coherence/node.cpp:39-129 | From every state of a run all messages reach their engines in finitely many events, each channel delivering exactly what was sent |
| `RingProgress.FairDelivery` | src/coherence/node.cpp:39-129 | Under every fair schedule of forwards, arrivals, hand-overs and tocks, from every state of a run and without new sends: the ring empties, and from some moment on every engine has taken exactly what was sent to it, each channel in order |
| `RingNetwork.NetworkIsFifo` | src/coherence/network.cpp:72-78 | Over any number of whole cycles and any behaviour of the engines, what d has received from s is a prefix of what s sent it |
| `RingLatency.AloneTakes` | src/coherence/node.cpp:45-131 | On a ring that carries nothing else, a message of f flits with r hops to go is taken exactly r * (f + 1) cycles after the cycle in which it was sent, wherever the nodes stand in the order of ticks |
| `RingLatency.LegsTimes` | src/coherence/node.cpp:45-131 | Legs(r, f) is r * (f + 1) |
| `RingNetwork.CycleFaithful` | src/coherence/node.cpp:39-129 | A tick of all nodes followed by a tock of all nodes keeps every channel faithful |
| `RingNetwork.Network.DrainQueue` | src/coherence/node.cpp:48-73 | The loop forwards queued messages until one finds its port busy; both busy marks together say exactly that the link slot is taken |
| `RingNetwork.Network.PullFrom` | src/coherence/node.cpp:75-87 | An arrived message leaves the link and joins the inbox or travels on |
| `RingNetwork.Network.HandOver` | src/coherence/node.cpp:89-105 | At most `room` messages reach the engine, oldest first |
| `RingNetwork.Network.TockOne` | src/coherence/node.cpp:108-129 | Fresh messages join the queue and only messages that are still leaving get closer |
| `RingNetwork.Network.TickAll` | src/coherence/network.cpp:72-74 | All nodes tick in index order |
| `RingNetwork.Network.TockAll` | src/coherence/network.cpp:76-78 | All nodes tock in index order |
| `PipelineSafety.InOrderRetirement` | src/ooo/core.cpp:137-224 | Exactly once, in order: after any number of cycles the retired instructions are the first of the program, numbered 1, 2, 3, ..., and fetched = retired + reorder buffer + dispatch queue |
| `PipelineSafety.SlotIsLive` | src/ooo/rob.cpp:8-19 | Every scheduling queue entry's `rob_idx` is a live slot of the circular buffer that holds its own tag and instruction, not ready, wrapped around or not |
| `PipelineSafety.SlotsDistinct` | src/ooo/rob.cpp:8-19 | No two scheduling queue entries point at the same slot |
| `PipelineSafety.WaitsForYoungestWriter` | src/ooo/core.cpp:484-504 | An operand carries the tag of the youngest older writer of its register, and is ready exactly when that writer has written back; until then the writer is in the queue |
| `PipelineSafety.RenamingRight` | src/ooo/core.cpp:305-317 | An instruction is in a functional unit only after the youngest older writer of each of its sources has written back |
| `PipelineSafety.NoDanglingPointer` | src/ooo/core.cpp:229-296 | Units and busy entries correspond one to one: no unit points at an erased entry, no two at the same one, every busy entry is in a unit of its kind, every load or store in a unit finds its MSHR entry |
| `PipelineSafety.MemoryOrder` | src/ooo/core.cpp:357-461 | A store is with the cache only after every older load and store has completed, a load only after every older store has |
| `PipelineTiming.IssuesAllItCan` | src/ooo/core.cpp:301-461 | What a cycle issues. As long as there is an idle ALU, a free first stage, or an idle load/store unit and a free miss register, no instruction with its operands is left: no ALU operation or branch, no multiplication, no load without an older store, no store without an older load or store. Of each kind the oldest go first. A unit that takes a load or store has asked the cache for its block, due after its latency unless it joined an outstanding request |
| `PipelineTiming.UnitsTakeTheirTime` | src/ooo/core.cpp:229-289 | What completes in a cycle, exactly: what is in an ALU, what is in the third stage of a multiplier, and the loads and stores whose request is due; multiplications move one stage on |
| `PipelineTiming.LetsInAllItCan` | src/ooo/core.cpp:469-579 | Dispatch and fetch take instructions in order, each as many as the width allows unless there are no more, there is no room, the reader holds back, or a branch has been mispredicted |
| `PipelineTiming.RetiresAll` | src/ooo/core.cpp:134-224 | Retirement goes on to the first instruction that is not done, or through a mispredicted branch |
| `PipelineSafety.StoreBreakNeverNeeded` | src/ooo/core.cpp:364-394 | While a store is in flight the disambiguation walk offers nothing, so the one-store-per-cycle guard never acts |
| `PipelineSafety.MispredictIsYoungest` | src/ooo/core.cpp:516-577 | A mispredicted branch in flight is the youngest instruction and fetch waits for it |
| `PipelineSafety.RecoveryIsClean` | src/ooo/core.cpp:165-180 | When a mispredicted branch retires the buffer, queues and units are all empty and flushing the alias table changes nothing |
| `PipelineProof.FlushIsClean` | src/ooo/rat.cpp:37-41 | At that moment every alias table entry is ready already |
| `PipelineProof.UnitDone` | src/ooo/core.cpp:291-296 | A writeback (alias table, buffer, dependents, queue) keeps the whole invariant and takes exactly its own pointer away |
| `PipelineProof.UnitFired` | src/ooo/core.cpp:319-355 | Issuing an entry to a free unit keeps the whole invariant |
| `FrontEndProof.DispatchKeeps` | src/ooo/core.cpp:469-510 | Dispatch renames sources before the destination takes its fresh tag, and keeps the invariant |
| `PipelineSafety.AliasTableRight` | src/ooo/rat.cpp:15-41 | In every reachable core the alias table names, for every register, the youngest dispatched writer, ready exactly when it has written back; while it is not, that writer is in the scheduling queue under that tag |
| `PipelineSafety.AliasTableSeed` | src/ooo/rat.cpp:7-13 | A register that no dispatched instruction writes keeps its ready seed |
| `PipelineMeaning.SameResults` | src/ooo/core.cpp:229-464 | Whatever the instructions compute: evaluating them in writeback order, with the source tags the core gave them and memory as it is at that moment, yields for each the value of program order |
| `PipelineMeaning.SameMachine` | src/ooo/core.cpp:40-57 | When nothing is in flight, memory and the registers the alias table names hold what program order leaves there |
| `PipelineMeaning.StoresBefore` | src/ooo/core.cpp:357-386 | When a memory operation completes, the stores that have completed are exactly the older ones |
| `PipelineProgress.OldestCanGo` | src/ooo/core.cpp:301-386 | The oldest entry of the scheduling queue always has its operands and is never memory-ambiguous |
| `PipelineProgress.TickProgress` | src/ooo/core.cpp:40-126 | Every cycle of an unfinished core moves an instruction on or brings outstanding data closer; only a shut gate at fetch can make it idle |
| `PipelineProgress.CoreDrains` | src/ooo/core.cpp:40-126 | With at least one of every unit, slot and queue entry, any program and any gates that do not stay shut for ever, the core finishes in finitely many cycles with the whole program retired in order |
| `OooCore.ReorderBuffer.Allocate` | src/ooo/rob.cpp:8-14 | Writes the slot at the tail and advances it circularly |
| `OooCore.ReorderBuffer.RetireHead` | src/ooo/rob.cpp:16-19 | Advances the head circularly |
| `OooCore.AliasTable.Complete` | src/ooo/rat.cpp:29-35 | Readies a register only if it still carries the tag |
| `OooCore.AliasTable.FlushToReady` | src/ooo/rat.cpp:37-41 | Every entry becomes ready and keeps its tag |
| `OooCore.SchedulingQueue.WakeDependents` | src/ooo/schedq.cpp:22-27 | Every matching source becomes ready, nothing else changes |
| `OooCore.SchedulingQueue.EraseByTag` | src/ooo/schedq.cpp:12-20 | The entry with the tag goes, the others keep their order |
| `OooCore.Processor.WriteBack` | src/ooo/core.cpp:291-296 | The four updates together, on the entry a unit points at |
| `OooCore.Processor.PickOldest` | src/ooo/core.cpp:305-317 | The scan for the smallest sequence number finds the first ready entry of its kind, because the queue is in program order |
| `OooCore.Processor.Overtakes` | src/ooo/core.cpp:373-386 | The disambiguation walk finds an entry ambiguous exactly when it is a load with an older store in the queue or a store with an older load or store |
| `OooCore.Processor.StageStateUpdate` | src/ooo/core.cpp:137-224 | The retire loop: heads leave while they are ready, up to and including a mispredicted branch, which flushes the alias table and lets fetch go on |
| `OooCore.Processor.StageExec` | src/ooo/core.cpp:229-289 | Writebacks of all units, the multiplier shift and the polled load/store units |
| `OooCore.Processor.StageSchedule` | src/ooo/core.cpp:301-464 | Issue to ALUs, multipliers and load/store units, with disambiguation and MSHR stalls |
| `OooCore.Processor.StageDispatch` | src/ooo/core.cpp:469-513 | The dispatch loop with its three limits |
| `OooCore.Processor.StageFetch` | src/ooo/core.cpp:516-579 | The fetch loop: dispatch queue limit, shut gate (also one behind the last record), end of trace, mispredicted branch |
| `OooCore.Processor.TickOnce` | src/ooo/core.cpp:40-126 | One cycle is Tick of the specification, and false means finished |
| `OooCore.Processor.RunToEnd` | src/ooo/core.cpp:128-132 | Running without a cycle cap terminates with everything drained, for any gates that do not stay shut for ever |
| `OooCore.Simulate` | src/ooo/core.cpp:24-132 | A core made with at least one of everything and run on any program stops, having retired exactly the program, in order |
| `Mshr.AllocateMeans` | src/cache/mshr.cpp:22-55 | Allocation fails exactly when the table is full and the block is not outstanding; otherwise the fresh id joins with the due time of its block and nobody else notices |
| `Mshr.ReleaseMeans` | src/cache/mshr.cpp:79-105 | Releasing an id removes exactly that id; every other id, merged or promoted, keeps its block, due time and readiness |
| `Mshr.TickMeans` | src/cache/mshr.cpp:71-77 | A tick readies exactly what is due |
| `Mshr.TickLowersWait` | src/cache/mshr.cpp:71-77 | Every tick brings outstanding requests closer to ready, so each becomes ready |
| `Mshr.IssueMeans` | src/cache/cache.cpp:483-532 | An accepted request gets a fresh id held by nobody else, due when the outstanding miss of its block is, or after its latency; it is refused only when every slot is taken (and, for a load, its block is not outstanding) |
| `Mshr.MissTakesLatency` | src/cache/cache.cpp:483-545 | A request that joins no other is ready with the latency-th tick, or the first if the latency is 0, and not before |
| `Mshr.MshrFile.Take` | src/cache/mshr.cpp:22-55 | Allocation in place |
| `Mshr.MshrFile.Discharge` | src/cache/mshr.cpp:79-105 | Release in place |
| `Mshr.AsyncCache.IssueRequest` | src/cache/cache.cpp:483-532 | issue in place: merge check, capacity check, allocation |
| `SyncReplay.MutualExclusion` | src/common/sync_coordinator.cpp:48-63 | In every interleaving of fetch polls and in-order retirements: when turn n + 1 of a mutex (or atomic word) has been taken, turn n has been completed and its release has retired |
| `SyncReplay.SectionsDisjoint` | src/common/sync_coordinator.cpp:33-117 | If a later section of a mutex has been entered, every earlier one has retired completely |
| `SyncReplay.ReleaseByOne` | src/common/sync_coordinator.cpp:111-117 | `last_completed_seq` rises by exactly one per release and never otherwise |
| `SyncReplay.BarrierHolds` | src/common/sync_coordinator.cpp:82-92 | No thread leaves a barrier iteration before every arrival of that iteration has retired |
| `SyncProgram.BuiltWell` | tools/casim_synth/casim_synth.cpp:180-244 | Whatever builder calls are made, each turn is released at most once, by the thread that took it and after taking it, and no barrier iteration has more arrivals than it expects |
| `SyncWriting.WritesExactly` | tools/casim_synth/casim_synth.cpp:73-244 | Told from the calls alone: a construction succeeds exactly when each call is acceptable after those before it, and every thread's trace is record by record what its calls append: two accesses to the lock word and the acquire with the number of earlier locks, a store and the release of the innermost open section, arrive and leave of the round that the earlier arrivals make |
| `SyncProgram.ReplayExcludes` | src/ooo/core.cpp:200-208 | So in every replay of every built program, when a thread has fetched past acquire n + 1 of a mutex, release n has retired |
| `SyncProgram.ArriveKeeps` | tools/casim_synth/casim_synth.cpp:221-244 | A barrier call keeps the count of arrivals of each iteration at what the builder's tables say |
| `SyncProgress.NoDeadlock` | src/common/sync_coordinator.cpp:33-147 | On sensible traces every reachable state with an unfinished thread lets some thread fetch or retire |
| `SyncProgress.Finish` | src/common/sync_coordinator.cpp:33-147 | Every replay of sensible traces can be continued to the end, in exactly as many steps as there are fetches and retirements left |
| `SyncDiscipline.RecordableSensible` | tools/casim_synth/casim_synth.cpp:180-244 | If every mutex was free when it was locked and no thread made a call while waiting at a barrier, the traces are sensible |
| `SyncDiscipline.NeverDeadlocks` | src/common/sync_coordinator.cpp:48-92 | So replays of such programs, with locks and barriers, never deadlock |
| `SyncDiscipline.RelockDeadlocks` | tools/casim_synth/casim_synth.cpp:180-200 | A program outside that condition that does deadlock: a thread that locks a mutex twice is accepted by the builder, and its replay reaches a state where nothing can move |
| `SyncExact.NeverStuckIff` | src/common/sync_coordinator.cpp:33-147 | The exact condition, for all well-built traces: no replay ever gets stuck if and only if some order of recording explains the traces, if and only if some single replay completes |
| `SyncExact.BuiltNeverStuckIff` | tools/casim_synth/casim_synth.cpp:135-244 | The same for whatever the builder accepts: one replay that completes is proof that no interleaving deadlocks |
| `SyncExact.CompletedExplains` | src/common/sync_coordinator.cpp:48-92 | The fetch times of a complete replay are an explanation: every turn was fetched after the one before it was completed, every barrier left after all its arrivals |
| `SyncExact.RelockUnexplained` | tools/casim_synth/casim_synth.cpp:180-200 | The double lock has no explanation and no replay of it completes |
| `SyncSimulation.RunFollows` | src/common/trace.cpp:404-478 | Cores that read through the reader with the coordinator as sink and notify it when signal records retire: however they interleave, they are in step with a replay of the recorded traces |
| `SyncSimulation.CoresExclude` | src/ooo/core.cpp:192-212 | So in the cores themselves: once a reader has let acquire n + 1 of a mutex pass, everything up to release n has left its core's pipeline |
| `SyncCores.TickMatches` | src/ooo/core.cpp:516-579 | A cycle of a core that fetches from its trace file through the reader, and whose retirements notify the coordinator, is a cycle of the pipeline whose gate is open as often as the reader answers |
| `SyncCores.IdleUnit` | src/ooo/core.cpp:40-126 | A cycle without progress leaves the coordinator alone, and the core is empty and finished or held at a shut gate |
| `SyncCores.CoresFinish` | src/full/full_mode.cpp:1231-1236 | Several cores with one coordinator, of any build and under any schedule that gives each of them cycles again and again: if their traces can never get stuck, all finish, each having retired its whole program once and in order |
| `SyncCores.CoresFinishIff` | src/common/sync_coordinator.cpp:33-147 | The exact condition, for well-built traces: the cores all finish if and only if some order of recording explains the traces |
| `SyncCoordinator.Coordinators.TryConsume` | src/common/sync_coordinator.cpp:33-100 | The poll answers as the replay's coordinator does, sets the thread's blocked flag, throws for a bad thread id and leaves every later answer as it was, though looking something up may insert it |
| `SyncCoordinator.Coordinators.NotifyRetire` | src/common/sync_coordinator.cpp:106-147 | The signal makes the coordinator the one that the replay's signal makes |
| `TraceCodec.RecordRoundTrip` | src/common/trace.cpp:132-205 | For each of the three kinds of record and whatever follows it: reading a written frame gives the record back and leaves what follows |
| `TraceCodec.StreamRoundTrip` | src/common/trace.cpp:494-581 | `next_any` over what Writer wrote for any list of records returns exactly that list and then the end of the stream |
| `TraceCodec.FrameLength` | src/common/trace.cpp:119-205 | Every frame has 64 bytes |
| `TraceCodec.InstrLayout` | src/common/trace.cpp:132-150 | Which bytes of an instruction's frame hold what, lowest digit first: type, flags, ip at 2, registers from 10, addresses from 16 on |
| `TraceCodec.SyncLayout` | src/common/trace.cpp:167-178 | Which bytes of a sync record's frame hold what: kind at 1, object at 8, sequence number at 16, argument at 24, ip at 32, time at 40, zeros elsewhere |
| `TraceCodec.LifeLayout` | src/common/trace.cpp:194-203 | Which bytes of a lifecycle record's frame hold what: kind at 1, peer at 4, ip at 8, zeros elsewhere |
| `TraceCodec.HeaderLayout` | src/common/trace.cpp:217-229 | Which bytes of the header hold what: magic, version at 8, size at 10, thread at 12, count at 16, program at 20, zeros |
| `TraceCodec.NextAnyMeans` | src/common/trace.cpp:494-526 | Of any bytes at all: next_any ends only where there are none, throws exactly where the type is unknown or no whole frame is left, and otherwise takes 64 bytes and returns a record of the type they name |
| `TraceCodec.TruncationNoticed` | src/common/trace.cpp:494-526 | A stream that is cut inside a frame yields the records before the cut and then the exception, never a wrong record |
| `TraceCodec.HeaderRoundTrip` | src/common/trace.cpp:217-248 | The file header reads back, with nothing lost behind it, exactly when it claims the 32 bytes that are always written; `write_header` does not check that |
| `TraceCodec.FileRoundTrip` | src/common/trace.cpp:217-248 | A written file reads back: header, all records, end |
| `TraceReader.ReaderExact` | src/common/trace.cpp:404-478 | Over the bytes Writer produced for any list of records, any number of calls and any behaviour of the sink, or no sink: nothing throws; what is returned is a prefix, in order, of the instructions and signal records; the approvals are a prefix of the gated records, each once; both are complete when nothing is left |
| `TraceReader.NextFollows` | src/common/trace.cpp:404-526 | On a written stream the reader does, byte for byte, what it does on the records |
| `TraceReader.NextExact` | src/common/trace.cpp:404-478 | One call takes its result off the front of what was to surface, and returns nothing only at a shut gate or the end |
| `TraceReader.Reader.NextRecord` | src/common/trace.cpp:404-478 | The loop with its held record, over the bytes, in place |
| `TraceReader.Writer.Write` | src/common/trace.cpp:551-581 | Appends the record's frame and counts it, or refuses before the header |
| `TraceReader.Writer.WriteHeader` | src/common/trace.cpp:541-549 | Writes the 32 bytes of the header once, and refuses a second time |
| `WriteBack.Transparent` | src/cache/cache.cpp:273-395 | With write-back levels whose blocks do not get smaller on the way down, each access reads the words a flat memory holds and changes exactly the written ones: for any number of levels, any associativity and sets and either insertion policy |
| `WriteBack.WritebacksAccounted` | src/cache/cache.cpp:150-207 | At every level of any stack, lines made dirty = dirty lines written back + dirty lines still resident, and none in a write-through level |
| `StackGeometry.TransparentIff` | src/cache/cache.cpp:56-92 | A stack of caches finds, whatever memory holds and whatever is asked, what plain memory would find, if and only if every level writes back and no level has smaller blocks than the one above it; neither is checked when the stack is configured |
| `StackGeometry.ThroughFails` | src/cache/cache.cpp:397-417 | A write-through level passes no write on, so words are lost as soon as more of them are written than the levels down to it can hold |
| `StackGeometry.ShrinkingFails` | src/cache/cache.cpp:344-380 | Over a level with smaller blocks the single access at the base of a block leaves its other words behind |
| `WriteBack.RunAccounted` | src/cache/cache.cpp:150-207 | The account of dirty lines holds over every run of any stack |
| `Replacement.MostRecentStay` | src/cache/cache.cpp:150-329 | With MIP insertion, whatever a level is asked and whatever lies below it: each row holds the assoc blocks of its set that the level has used most recently, in that order; in a write-through level a write that misses is no use |
| `Replacement.BroughtInGoesNext` | src/cache/cache.cpp:150-329 | With LIP insertion a block that is brought in is the next of its row to go, as long as it is not used: the next block brought into the full row replaces it and nothing else |
| `Replacement.UsedGoesLast` | src/cache/cache.cpp:301-329 | A block that is used goes to the front of its row and the others keep their order, with either insertion |
| `Replacement.LevelsRun` | src/cache/cache.cpp:150-207 | Every level of a stack is run by what the level above passes down: on a miss the block, then a dirty victim; so the above holds of each of them |
| `CacheLevels.CacheLevel.Probe` | src/cache/cache.cpp:301-329 | The search loop, with its splice and dirty bit |
| `CacheLevels.CacheLevel.Place` | src/cache/cache.cpp:150-207 | Insertion with eviction of the last line of a full row; in which order lines are evicted, see Replacement |
| `CacheLevels.TwoLevels.AccessL1` | src/cache/cache.cpp:273-395 | access on two levels over memory is Access of the specification |
| `LlsCache.HoldsMostRecent` | src/coherence/lls_cache.cpp:38-61 | A set always holds exactly the `assoc` most recently used distinct blocks, in recency order |
| `LlsCache.HitIff` | src/coherence/lls_cache.cpp:38-61 | An access hits exactly when the block was used before and fewer than `assoc` other blocks of its set have been used since |
| `LlsCache.MoreWays` | src/coherence/lls_cache.cpp:38-61 | More ways with the same number of sets never lose a hit |
| `LlsCache.CacheIsLru` | src/coherence/lls_cache.cpp:29-61 | In a cache driven by accesses, every set is true LRU of its share of the history |
| `LlsCache.Lls.Touch` | src/coherence/lls_cache.cpp:38-61 | access in place: hit, victim, order of its set, and no change to other sets |
| `LlsCache.Lls.Contains` | src/coherence/lls_cache.cpp:29-36 | The probe finds exactly the resident blocks |
| `LlsCache.Lls.Invalidate` | src/coherence/lls_cache.cpp:63-69 | Drops the block and nothing else |
| `LlsCache.Configure` | src/coherence/lls_cache.cpp:7-27 | Refuses a size that is no multiple of the associativity; zero disables the cache |

## Left out

- Evictions and the full-mode glue: `on_evict` sends DATA_WB without driving the agents, so agents and directory can disagree and the coherence theorems do not carry over; DATA_WB is not a message of the model. The branches that recover from it (a GETX in I, DATA in SM or EM) are in the tables and are never taken.
- The entry fields `dirty` and `block_id`, the message fields of timing and flits beyond the ring, and statistics other than misses, transfers and memory reads (memory writes are where `CoherenceValues` writes memory, but are not counted).
- Presence vectors are as long as the number of processors; the program's bound of 16 processors and an out-of-range `req_node_in_transient` or `o_f_id`, which would be undefined behaviour, are modelled as a throw, and proved never to happen.
- Exact latencies: `mem_latency` and the LLS hit latency are an arbitrary finite delay, so the effect of the shared cache on timing is not modelled.
- Prefetchers, branch predictors and the bookkeeping of prefetched lines.
- The part of `Cache::access` that talks to a coherence sink; `Mshr.Issue` takes the latency of the access as a parameter and never suspends.
- Instruction classification from trace records, the Standard trace format, and hosts that are not little-endian; streams fail only by ending. Lifecycle records are skipped and thread scheduling is not modelled.
- OooCore.Processor.StageStateUpdate: training the predictor and notifying the sync sink are not in its contract; a core whose retirements notify the coordinator is `SyncCores.TickUnit`.
- CoherenceProgress.NoLivelock: counts productive events of one block only; termination of the whole machine under fair schedules is `CoherenceTermination.EveryFairRunEnds`.
- CoherenceProgress.Drain: chooses the schedule and is about one block, like NoLivelock.
- Watchdog, logging, reports, configuration, command line, manifests and file I/O.
- C++ ownership, `new` and `delete`, and integer widths: counters, tags, sequence numbers and cycle counts are unbounded (64 bits in the program).
