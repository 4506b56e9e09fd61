# Translators, a pipeline, a switch and a graph walk over DPDK

This project models the stateful packet programs of the repository and proves what they keep over every run.

- **Four network address translators.** `NAT/NAT_twoTables/main.c` (forward and reverse hash over shared entries, one timer
  per flow), `NAT/Nat_with_TIMER/nwt.c` (one hash, ingress by scan, a global idle clear), `NAT/NWT_actualPkts/main.c` (the same
  bookkeeping in a burst receive loop) and `NAT/main.c` (time stamps and a sweep that deletes while it iterates). Each is a
  transition system over *all* event sequences and a class whose methods are proved to take exactly those transitions. The
  states hold the heap, the timers that are armed (where the program has timers) and a count of frees, so a double free, a use
  after free or a leak shows.
- **One simple form they all refine.** `FlowSpec` is a finite map from keys to flows. Port uniqueness, stability, the round trip
  and the reconstruction of the state from the history are proved there once, for any key type; the programs inherit the history laws by
  refinement. Which port a packet gets and where replies go is also proved of each program directly, on runs the refinement excludes.
- **The three-lcore pipeline** of `ThreadedParsing`, as a transition system over every interleaving of its handlers, with the
  handlers' loops proved to be schedules of it.
- **The learning switch** of `l2fwd/veth_peer/main.c` and the **graph walk** of `Graphs/rx_packets/rx.c`.

## What is assumed of the libraries

- A hash is a finite map keyed by field values. Adding a present key overwrites its data and always works. Adding a new key works
  or fails; which of the two is an input of the event (`room`, `fwdRoom`, `revRoom`), so every lemma covers every pattern of failures.
- For `NAT/main.c` the hash is a row of slots: iteration visits them in order, deletion empties one slot and moves nothing, and only an
  addition may move keys (any swaps, then an empty slot, given by the event).
- `rte_timer_manage` at time `m` runs the callbacks of exactly the armed timers with deadline at most `m`, in any order. Timers and
  packets read one clock, which does not run backwards and is unbounded; differences of `uint64_t` readings wrap as in C.
- `next_port` is a 16-bit counter that wraps. A pointer is the serial number of its allocation.
- A ring of 1024 slots holds 1023. In the transition system an enqueue may take any prefix that fits and a dequeue any prefix that is
  there, because the other side's progress may be seen late; the classes take as much as there is room for. Every safety lemma of the
  pipeline therefore holds of the stricter ring too, and the lemmas that say a state or a step exists use operations that take all they can.

## What the proofs found

- **The reverse table can be stolen.** After 65536 allocations the counter is back at the port of a flow that was kept alive, the
  addition to the reverse table overwrites its entry, and replies for the older flow reach the newer flow's host
  (`WrapStealsPort`, with every addition succeeding). Both tables reach every live entry throughout a run *exactly* when every new flow
  finds its port unused and both additions work (`LinkedRun`). They stay inverse to each other under a weaker condition: the port is unused, the
  two additions work or fail together, and an expiry deletes both sides of a pair or neither (`InverseRun`).
- **Ignored additions.** An opened flow keeps its port for its next packet exactly when the (forward) addition worked
  (`PortKeptIff`, for each program), and from then on for as long as its key stays in the table, on every run. In `NAT/main.c` an entry without a place
  is never freed (`LostForever`); nothing is lost exactly when every addition found a place (`NothingLostRun`).
- **The idle clear does not stop timers.** It frees entries and leaves their timers armed. This is harmless exactly when the delay `d`
  from the stamp of a packet (or burst) to its timer reset and the delay `g` from the timer run to the idle check satisfy
  `d + g <= 5 * hz + 1`: then the clear only ever finds an empty table. One cycle more and there is a run in which a callback uses freed
  memory (`BudgetIsExact`, `LoopBudgetIsExact`).
- **Unmatched replies are not dropped.** The NAT programs with an ingress path announce a drop, or nothing, and leave the packet as it is; so does
  the model.
- **The classifier does not check its buffers.** 32 slots suffice exactly when neither kind has more than 32 frames (`NoOverrunIff`), which the
  receive node's burst size guarantees.

## Model

| member | source | states |
|---|---|---|
| NatTypes.PortIsModular | NAT/NAT_twoTables/main.c:63-132 | the port of allocation n, however often the 16-bit counter wrapped, is (10000 + n) mod 65536 |
| NatTypes.PublicIs | NAT/NAT_twoTables/main.c:17-132 | allocation n gets 0x0A000001 and port (10000 + n) mod 65536 |
| NatTypes.SamePort | NAT/NAT_twoTables/main.c:132 | two allocations get the same port iff they are a multiple of 65536 apart, also across 65535 to 0 |
| Rte.IterationOrder | NAT/Nat_with_TIMER/nwt.c:142-159 | a loop over an unchanged hash meets every key exactly once |
| FlowSpec.UniqueStep | NAT/NAT_twoTables/main.c:120-141 | a step keeps ports unique iff it opens no flow on the port of a live one |
| FlowSpec.UniqueRun | NAT/NAT_twoTables/main.c:63-141 | ports are unique in every state of a run iff every flow it opened found the counter's port unused |
| FlowSpec.PortFreeByAge | NAT/NAT_twoTables/main.c:132 | the counter's port is unused iff no live flow is a multiple of 65536 allocations old |
| FlowSpec.YoungFlowsUnique | NAT/NAT_twoTables/main.c:63-132 | live flows at most 65536 allocations old have pairwise different ports |
| FlowSpec.MappingStable | NAT/Nat_with_TIMER/nwt.c:113-136 | a flow keeps its port and private endpoint for as long as it stays live, whatever else happens |
| FlowSpec.RoundTrip | NAT/NAT_twoTables/main.c:108-177 | a reply sent to the endpoint a flow's packet was given returns to the flow's private endpoint after any interleaving that leaves it live |
| FlowSpec.MappingLaws | NAT/Nat_with_TIMER/nwt.c:104-136 | while a flow is live, its packets and only its packets are given its public endpoint, and replies to that endpoint come back to it (section 4.1 of RFC 4787) |
| FlowSpec.DeliveredExactlyToOwner | NAT/NAT_twoTables/main.c:154-174 | with unique ports a packet reaches a private endpoint iff a live flow with that endpoint owns the port, and is left alone iff none does |
| FlowSpec.RecordedStep | NAT/NAT_twoTables/main.c:97-177 | a step keeps what the history says of a key: presence, port, private endpoint, deadline |
| FlowSpec.LiveByLastTouch | NAT/NAT_twoTables/main.c:97-104 | a flow is live iff no expiry since its latest use, in either direction, came as late as that use plus the lifetime (section 4.3 of RFC 4787) |
| FlowSpec.StateIsHistory | NAT/NAT_twoTables/main.c:83-177 | the whole table after any run with unique ports is the one recomputed from the event history alone |
| TwoTableNat.RunSafe | NAT/NAT_twoTables/main.c:83-177 | in every run, with additions failing at will and ports wrapping: armed timers are exactly the live entries, no table leads to a freed entry or one of another key, no callback sees a freed entry, every allocation is live or freed exactly once |
| TwoTableNat.FireCompose | NAT/NAT_twoTables/main.c:83-95 | callbacks of different entries commute, so the order in which due timers fire does not matter |
| TwoTableNat.LinkedStep | NAT/NAT_twoTables/main.c:83-177 | from a state in which both tables reach every live entry a step leads to such a state iff a flow it opens finds room twice and an unused port |
| TwoTableNat.LinkedRun | NAT/NAT_twoTables/main.c:83-177 | both tables reach every live entry throughout a run iff every step of it was so admitted |
| TwoTableNat.LinkedBijection | NAT/NAT_twoTables/main.c:31-61 | such tables are inverse to each other through the shared entries, and tables, heap and timers have one size |
| TwoTableNat.PortFreeByAge | NAT/NAT_twoTables/main.c:132-140 | the next port is not in the reverse table iff no live entry is a multiple of 65536 allocations old |
| TwoTableNat.UniqueByAge | NAT/NAT_twoTables/main.c:132 | in every run live entries at most 65536 allocations old have different ports, whatever additions failed |
| TwoTableNat.RevIsOwner | NAT/NAT_twoTables/main.c:158-164 | the reverse table is the index of the flow map by public endpoint |
| TwoTableNat.RefinesStep | NAT/NAT_twoTables/main.c:83-177 | an admitted step is the step of the flow map, and rewrites the packet alike |
| TwoTableNat.RefinesRun | NAT/NAT_twoTables/main.c:83-177 | after any admitted run the two tables and the timers hold what the flow map holds |
| TwoTableNat.AdmittedIsGuarded | NAT/NAT_twoTables/main.c:120-141 | an admitted run opens no flow on a port in use, so every law of the flow map applies |
| TwoTableNat.TablesAreHistory | NAT/NAT_twoTables/main.c:97-143 | after an admitted run the tables, deadlines and counter are recomputed from the events: a key is present iff used and not expired since its latest use |
| TwoTablePorts.PortKeptIff | NAT/NAT_twoTables/main.c:120-147 | an opened flow's next packet gets the same port iff the forward addition worked, in every safe state |
| TwoTablePorts.PortStable | NAT/NAT_twoTables/main.c:120-147 | on every run, additions failing and ports reused at will, a flow keeps its public endpoint while its key stays in the forward table |
| TwoTablePorts.SameSourceIff | NAT/NAT_twoTables/main.c:132-147 | any two outgoing packets of any run get one source iff their allocations are a multiple of 65536 apart |
| TwoTablePorts.RoundTrip | NAT/NAT_twoTables/main.c:108-177 | while a flow stays in the table: its packets keep their source on every run; packets of other flows do not get it while live entries are fewer than 65536 allocations old; on admitted runs replies to it return to the private endpoint |
| TwoTablePorts.SourceAddress | NAT/NAT_twoTables/main.c:131-147 | every outgoing packet gets address 0x0A000001 and the port of its flow's allocation, or of the next one on a miss |
| TwoTablePorts.RenewsOne | NAT/NAT_twoTables/main.c:143-170 | a packet sets the deadline of the one entry it uses to five seconds from now and no other; without an opening nothing else changes; an unmatched packet changes nothing |
| TwoTablePorts.OpensOne | NAT/NAT_twoTables/main.c:120-141 | an opening adds one entry and, as far as the additions work, its two keys, in any safe state |
| TwoTablePorts.ExpiryExact | NAT/NAT_twoTables/main.c:83-95 | a timer run frees exactly the entries whose deadline has come, each once, and touches no other |
| TwoTablePorts.ExpiryDeletes | NAT/NAT_twoTables/main.c:91-92 | it deletes their keys from both tables, whichever entry these lead to, and no others |
| TwoTablePorts.DeliveredIff | NAT/NAT_twoTables/main.c:154-174 | on every run a packet reaches a private endpoint iff the owner of its destination has it, and is left alone iff there is no owner |
| TwoTablePorts.OwnsFromStartIff | NAT/NAT_twoTables/main.c:134-140 | a new entry owns its endpoint in the reverse table iff the reverse addition worked or overwrote an older one |
| TwoTablePorts.OwnsStep | NAT/NAT_twoTables/main.c:83-140 | an owner keeps its endpoint over a step iff the step opens no flow on that port and expires no entry with it |
| TwoTablePorts.RepliesReturn | NAT/NAT_twoTables/main.c:154-174 | whatever additions fail, an entry that owns its endpoint gets the replies to it while it lives and no entry is older than a turn of the counter |
| TwoTablePorts.InverseStep | NAT/NAT_twoTables/main.c:83-140 | inverse tables stay inverse over a step iff an opening finds its port unused and both additions work or fail together, and an expiry deletes both sides of a pair or neither |
| TwoTablePorts.InverseRun | NAT/NAT_twoTables/main.c:83-177 | the tables are inverse throughout a run iff every step of it is so |
| TwoTablePorts.InverseNotLinked | NAT/NAT_twoTables/main.c:139-140 | inverse tables may miss a live entry: a run in which both additions fail |
| TwoTableProgram.Program.constructor | NAT/NAT_twoTables/main.c:60-64 | the program starts empty, with the counter at 10000 |
| TwoTableProgram.Program.FlowTimeoutCb | NAT/NAT_twoTables/main.c:83-95 | the callback removes the entry from both tables, the heap and the timers and frees it once |
| TwoTableProgram.Program.RefreshTimer | NAT/NAT_twoTables/main.c:97-104 | the entry's deadline becomes five seconds from now and nothing else changes |
| TwoTableProgram.Program.ProcessEgress | NAT/NAT_twoTables/main.c:108-150 | takes the egress transition; the source becomes the flow's public endpoint and the destination stays |
| TwoTableProgram.Program.NewMapping | NAT/NAT_twoTables/main.c:124-140 | the miss branch allocates one entry, advances the counter and adds it to both tables as far as they take it |
| TwoTableProgram.Program.ProcessIngress | NAT/NAT_twoTables/main.c:154-177 | takes the ingress transition; the destination becomes the private endpoint, or stays on a miss, and the source stays |
| TwoTableProgram.Program.TimerManage | NAT/NAT_twoTables/main.c:83-95 | running the due callbacks one by one in any order takes the expiry transition and keeps the state safe |
| TwoTableScenarios.FailedAddRemaps | NAT/NAT_twoTables/main.c:139 | a concrete run of two packets on which the condition of PortKeptIff fails, and the ports they get |
| TwoTableScenarios.WrapStealsPort | NAT/NAT_twoTables/main.c:132-140 | a reachable state, all additions having worked, in which two live flows share a port and replies reach only the newer |
| SingleTableNat.RunSafe | NAT/Nat_with_TIMER/nwt.c:68-192 | within the delay budget every run is free of stale timers: armed timers are the live entries, nothing is freed twice or used after its free |
| SingleTableNat.IdleClearFindsNothing | NAT/Nat_with_TIMER/nwt.c:171-192 | within the budget, whenever the idle clear fires every entry has expired already |
| SingleTableNat.IdleCheckStutters | NAT/Nat_with_TIMER/nwt.c:171-192 | within the budget the idle check changes nothing but its flag |
| SingleTableNat.StaleTimerFaults | NAT/Nat_with_TIMER/nwt.c:183-190 | one cycle over the budget, a concrete possible run in which a callback uses a freed entry |
| SingleTableNat.BudgetIsExact | NAT/Nat_with_TIMER/nwt.c:84-92 | no possible run has a stale timer iff d + g <= 5 hz + 1 |
| SingleTableNat.LinkedStep | NAT/Nat_with_TIMER/nwt.c:104-136 | every live entry stays in the table over a step iff an entry it makes finds room |
| SingleTableNat.ScanIsOwner | NAT/Nat_with_TIMER/nwt.c:146-159 | with unique ports the first match of the scan is the only one, in every iteration order, and is the owner of the port |
| SingleTableNat.RefinesStep | NAT/Nat_with_TIMER/nwt.c:96-192 | a regular step of the scan program is the step of the flow map and rewrites the packet alike |
| SingleTableNat.RefinesRun | NAT/Nat_with_TIMER/nwt.c:96-192 | along a regular run within the budget the table and timers hold what the flow map holds |
| SingleTableNat.TableIsHistory | NAT/Nat_with_TIMER/nwt.c:84-160 | after a regular run within the budget a key is in the table iff no timer run since its latest use came five seconds later; port, deadline and counter come from the history |
| SingleTablePorts.RunSound | NAT/Nat_with_TIMER/nwt.c:96-192 | in every run, over budget or not, the table leads only to entries still allocated, of its own keys, each with the port of its allocation |
| SingleTablePorts.PortKeptIff | NAT/Nat_with_TIMER/nwt.c:113-136 | an opened flow's next packet gets the same port iff the addition worked |
| SingleTablePorts.SameSourceIff | NAT/Nat_with_TIMER/nwt.c:113-136 | any two outgoing packets of any run get one source iff their allocations are a multiple of 65536 apart |
| SingleTablePorts.UniqueByAge | NAT/Nat_with_TIMER/nwt.c:126 | in every run live entries at most 65536 allocations old have different ports, whatever additions failed |
| SingleTablePorts.ReplyReturnsIff | NAT/Nat_with_TIMER/nwt.c:142-159 | a reply to a flow's endpoint reaches its host in every iteration order iff all keys of the table with that port belong to this host |
| SingleTablePorts.MappingLaws | NAT/Nat_with_TIMER/nwt.c:104-160 | while a flow stays in the table its packets keep their source on every run; while live entries are fewer than 65536 allocations old no other flow gets it and replies come back |
| SingleTablePorts.SourceAddress | NAT/Nat_with_TIMER/nwt.c:125-136 | every outgoing packet gets address 0x0A000001 and the port of its flow's allocation, or of the next one on a miss |
| SingleTablePorts.RenewsOne | NAT/Nat_with_TIMER/nwt.c:133-157 | a packet sets the deadline of the entry it uses to five seconds from now and no other, an incoming one that of the first match of the scan; without an opening neither table nor entries change |
| SingleTablePorts.OpensOne | NAT/Nat_with_TIMER/nwt.c:115-131 | an opening adds one entry and, if there is room, its key |
| SingleTablePorts.ExpiryExact | NAT/Nat_with_TIMER/nwt.c:68-80 | a timer run frees exactly the entries whose deadline has come, each once, and touches no other |
| SingleTablePorts.ExpiryDeletes | NAT/Nat_with_TIMER/nwt.c:77 | it deletes their keys from the table, whichever entry these lead to, and no others |
| SingleTablePorts.LeftAloneIff | NAT/Nat_with_TIMER/nwt.c:146-159 | an incoming packet is left alone iff no flow in the table has its destination, in every iteration order |
| IdleClock.CheckFires | NAT/Nat_with_TIMER/nwt.c:173-190 | the check leaves the flag set iff it was set or more than ten seconds have passed since the latest packet, whatever the table holds |
| IdleClock.CheckClears | NAT/Nat_with_TIMER/nwt.c:183-188 | when it newly sets the flag the table is empty, exactly its entries are freed, each once, and all timers are as they were; otherwise nothing has changed |
| IdleClock.PacketRestarts | NAT/Nat_with_TIMER/nwt.c:98-99 | every packet restarts the idle clock and clears the flag, in both directions, matched or not |
| IdleClock.StampIsLatest | NAT/Nat_with_TIMER/nwt.c:98-213 | after any run the stamp is that of the latest packet, or the start |
| IdleClock.FlagIsHistory | NAT/Nat_with_TIMER/nwt.c:96-192 | after any run, over budget or not, the flag is set iff some check came more than ten seconds after the packet before it and no packet has come since |
| SingleTableProgram.Program.FlowTimeoutCb | NAT/Nat_with_TIMER/nwt.c:68-80 | the callback removes the entry from the table, the heap and the timers and frees it once |
| SingleTableProgram.Program.RefreshTimer | NAT/Nat_with_TIMER/nwt.c:84-92 | the entry's deadline becomes five seconds from now |
| SingleTableProgram.Program.TouchFlow | NAT/Nat_with_TIMER/nwt.c:113-133 | looks the flow up, opens it on a miss, resets its timer, and returns its entry |
| SingleTableProgram.Program.ProcessEgress | NAT/Nat_with_TIMER/nwt.c:96-136 | takes the egress transition; the idle clock restarts, the source becomes the flow's public endpoint and the destination stays |
| SingleTableProgram.Program.ScanTable | NAT/Nat_with_TIMER/nwt.c:142-159 | the loop returns the first key of the iteration whose entry has the public endpoint, or none |
| SingleTableProgram.Program.ProcessIngress | NAT/Nat_with_TIMER/nwt.c:96-160 | takes the ingress transition for the iteration order it met; the idle clock restarts even on a miss; only the destination changes, and only on a match |
| SingleTableProgram.Program.TimerManage | NAT/Nat_with_TIMER/nwt.c:234 | running the due callbacks one by one in any order takes the expiry transition |
| SingleTableProgram.Program.CheckGlobalIdle | NAT/Nat_with_TIMER/nwt.c:171-192 | takes the idle-check transition: the flag is newly set iff more than ten seconds have passed, and then the table is emptied and its entries are freed, each once; no timer stops |
| SingleTableProgram.Program.FreeEntries | NAT/Nat_with_TIMER/nwt.c:183-186 | the loop frees exactly the entries of the table, each once |
| SingleTableProgram.Program.ReceiveBurst | NAT/NWT_actualPkts/main.c:171-250 | the burst loop takes the burst's transition and frees every mbuf of the burst exactly once, in order, on both exits of its body |
| BurstNat.FoldNext | NAT/NWT_actualPkts/main.c:178-249 | one more member: an IPv4 frame touches its flow, any other frame changes nothing |
| BurstNat.BurstIsFold | NAT/NWT_actualPkts/main.c:173-250 | a burst leaves what its IPv4 members leave as single packets in order; without any it only restarts the idle clock |
| BurstNat.LoopSafe | NAT/NWT_actualPkts/main.c:169-257 | over every run of the receive loop within the budget no freed entry is used, and the idle clear only finds an empty table |
| BurstNat.ClearFindsNothing | NAT/NWT_actualPkts/main.c:95-116 | in one pass: if the clear fires after the burst and the timer run, table, heap and timers are empty already |
| BurstNat.StalePassesFault | NAT/NWT_actualPkts/main.c:107-112 | one cycle over the budget, two passes of the loop after which a callback has used a freed entry |
| BurstNat.LoopBudgetIsExact | NAT/NWT_actualPkts/main.c:95-116 | the receive loop never meets a stale timer iff d + g <= 5 hz + 1 |
| BurstHistory.PassesTrack | NAT/NWT_actualPkts/main.c:169-257 | after any regular passes within the budget the program holds what the flow map holds after their IPv4 packets and timer runs |
| BurstHistory.TableIsHistory | NAT/NWT_actualPkts/main.c:169-257 | after any such passes a key is in the table iff no timer run since its latest frame came five seconds later; port and deadline come from the history |
| BurstHistory.PortStable | NAT/NWT_actualPkts/main.c:213-240 | over every run within the budget a flow keeps its entry and public port while it stays in the table, whatever additions fail |
| IdleClock.PassMarks | NAT/NWT_actualPkts/main.c:173-256 | any frame of a burst, IPv4 or not, restarts the idle clock, and the check of the pass goes by the latest burst |
| IdleClock.LoopFlagIsHistory | NAT/NWT_actualPkts/main.c:95-256 | after any passes the stamp is that of the latest burst, and the flag is set iff some check came more than ten seconds after the burst before it and no frame has come since |
| Bisimulation.SameAfterEveryPrefix | NAT/NAT_twoTables/main.c:83-177 | fed the same packets and timer runs, two-table and scan program hold the same flows, ports, deadlines and counter after every prefix |
| Bisimulation.SameReplies | NAT/Nat_with_TIMER/nwt.c:96-192 | and they rewrite every packet alike: the reverse table agrees with the scan, the idle clear shows nowhere |
| SweepNat.RunNeat | NAT/main.c:79-192 | in every run no key or entry is in two slots, every slot leads to a live entry of its own flow, nothing is freed twice |
| SweepNat.AddKeeps | NAT/main.c:119 | an addition that finds a place adds its pair and loses no other, however the hash moves its keys |
| SweepNat.SlotCount | NAT/main.c:201-210 | the table has as many slots after any run as it was made with |
| SweepNat.OccupiedIs | NAT/main.c:182 | an iteration visits exactly the occupied slots, each once, in order |
| SweepNat.SweepExact | NAT/main.c:180-191 | the sweep empties exactly the slots idle for longer than the timeout and leaves every other slot and entry as it was |
| SweepNat.SweepTwice | NAT/main.c:174-192 | a sweep followed by a later one is the later one alone; at the same time, sweeping twice is sweeping once |
| SweepNat.LostForever | NAT/main.c:109-119 | an entry that found no place stays in memory, out of reach of lookup and sweep, whatever follows |
| SweepNat.NothingLostStep | NAT/main.c:119 | a step loses an entry iff it makes one for which the table has no place |
| SweepNat.NothingLostRun | NAT/main.c:79-192 | after a run every entry in memory is in the table iff every entry made on the way found a place |
| SweepNat.ScanIsOwner | NAT/main.c:141-157 | with unique ports the reverse scan meets only the flow that owns the port |
| SweepNat.RefinesStep | NAT/main.c:79-192 | a regular step, sweeps included, is the step of the flow map with a lifetime of one cycle more than the timeout, and rewrites alike |
| SweepNat.RefinesRun | NAT/main.c:79-192 | along a regular run the slots hold what the flow map holds, with ports unique throughout |
| SweepNat.SlotsAreHistory | NAT/main.c:79-192 | after a regular run a key is in the table iff no sweep since its latest use came more than the timeout later; port and stamp come from the history |
| SweepPorts.PortKeptIff | NAT/main.c:101-124 | an opened flow's next packet gets the same port iff the table had a place for it, however the hash moves its keys |
| SweepPorts.StoredIff | NAT/main.c:101-120 | a new flow is in the table after its first packet iff the slot it is to take is empty once the hash has moved its keys |
| SweepPorts.SourceAddress | NAT/main.c:113-124 | every outgoing packet gets address 0x0A000001 and the port of its flow's allocation, or of the next one on a miss |
| SweepPorts.StampsOne | NAT/main.c:105-152 | a packet stamps the one entry it uses and no other; without an opening the table stays as it is |
| SweepPorts.DeliveredIff | NAT/main.c:141-162 | an incoming packet goes to the host of the first slot whose flow has its destination, and is left alone iff there is none |
| SweepPorts.SameSourceIff | NAT/main.c:101-124 | any two outgoing packets of a run get one source iff their allocations are a multiple of 65536 apart |
| SweepPorts.UniqueByAge | NAT/main.c:73-75 | entries in memory at most 65536 allocations old have different ports, lost ones included |
| SweepPorts.MappingLaws | NAT/main.c:92-157 | while a flow stays in the table its packets keep their source on every run; while the flows in the table are fewer than 65536 allocations old no other flow gets it and replies come back |
| SweepProgram.Program.constructor | NAT/main.c:201-213 | the table starts with the given number of empty slots, the counter at 10000 |
| SweepProgram.Program.AllocatePort | NAT/main.c:73-75 | returns the counter and advances it, wrapping at 16 bits |
| SweepProgram.Program.HashIterate | NAT/main.c:182 | the next occupied slot from the iterator on, or the end |
| SweepProgram.Program.Egress | NAT/main.c:93-124 | takes the egress transition; the source becomes the flow's public endpoint and the destination stays |
| SweepProgram.Program.Ingress | NAT/main.c:133-162 | takes the ingress transition; stops at the first match, and leaves the packet as it is without one |
| SweepProgram.Program.NatCleanup | NAT/main.c:174-192 | deleting while iterating visits every slot occupied at the start once, in order, and takes the sweep transition |
| SweepProgram.SweepOne | NAT/main.c:184-190 | one round of the sweep removes the entry iff it is stale and affects no other |
| Pipeline.StepInv | ThreadedParsing/parser.c:171-193 | every operation of every handler keeps order, ownership and capacity |
| Pipeline.GreedyIs | ThreadedParsing/parser.c:172-186 | an operation takes all it can iff an enqueue leaves nothing over or fills the ring to 1023, and a dequeue takes 32 or empties it |
| Pipeline.MoveKeepsChain | ThreadedParsing/parser.c:172-186 | enqueue, dequeue and send leave the sequence sent, tx, tx_ring, parser, rx_ring, rx as it is |
| Pipeline.FreeFromChain | ThreadedParsing/rx.c:26-29 | a free takes exactly one mbuf out of that sequence and records it |
| Pipeline.OrderAndOwnership | ThreadedParsing/tx.c:13-30 | in every reachable state that sequence is in order of reception without repetition, received = sent + freed + in flight, no mbuf is freed twice, and an mbuf is freed iff it is not in the sequence |
| Pipeline.InFlightBound | ThreadedParsing/main.c:14-54 | at most 1023 mbufs in a ring, 32 in a handler and 2142 in the application in any reachable state, and with two full NIC queues fewer than the 8192 of the pool are out |
| Pipeline.InFlightBoundReached | ThreadedParsing/main.c:52-54 | the bound cannot be improved: by ring operations that take all they can a state is reached that holds 2142 |
| Pipeline.StepDrains | ThreadedParsing/parser.c:171-193 | every operation but a reception, however partial, lowers the measure |
| Pipeline.DrainEnds | ThreadedParsing/tx.c:13-30 | once reception stops every schedule is finite, no longer than the measure of its first state |
| Pipeline.SomethingCanGoOn | ThreadedParsing/main.c:60-67 | while an mbuf is in flight some handler has a step other than receiving, in which a ring operation takes all it can |
| Pipeline.DrainedIsEmpty | ThreadedParsing/tx.c:13-30 | a schedule without reception that cannot go on has emptied rings and buffers, and every mbuf received was sent or freed |
| PipelineProgram.Ring.EnqueueBurst | ThreadedParsing/parser.c:185-186 | takes a prefix of the burst, the whole of it unless the ring is then full with 1023 |
| PipelineProgram.Ring.DequeueBurst | ThreadedParsing/parser.c:172-173 | hands over the oldest elements in order, fewer than the buffer's size only if the ring is then empty |
| PipelineProgram.Program.FreeSuffix | ThreadedParsing/parser.c:189-191 | the index loop frees exactly the unsent suffix, in order |
| PipelineProgram.Program.RxHandler | ThreadedParsing/rx.c:14-30 | one pass is a schedule of the transition system, whatever the other handlers are in the middle of: the first mbufs received go to the ring in order, and the others are freed only if the ring is then full |
| PipelineProgram.Program.Parser | ThreadedParsing/parser.c:171-193 | one pass is a schedule of the transition system: the oldest mbufs, up to 32, move to the other ring in order, and some are freed only if that ring is then full |
| PipelineProgram.Program.TxHandler | ThreadedParsing/tx.c:13-30 | one pass is a schedule of the transition system: the oldest mbufs, up to 32, are sent in order, and some are freed only if the NIC took all it accepts |
| PipelineProgram.RxPassRuns | ThreadedParsing/rx.c:14-30 | that schedule appends the first k mbufs to the ring and frees the others |
| PipelineProgram.ParserPassRuns | ThreadedParsing/parser.c:171-193 | that schedule moves the first k mbufs to the other ring and frees the others |
| PipelineProgram.TxPassRuns | ThreadedParsing/tx.c:13-30 | that schedule sends the first k mbufs and frees the others |
| L2Switch.TableIsHistory | l2fwd/veth_peer/main.c:100-104 | after any run the table holds the addresses once seen when there was room, each with the port of its latest sighting |
| L2Switch.RouteIsHistory | l2fwd/veth_peer/main.c:104-120 | the output port is the port where the destination was last seen, its own source learned first, otherwise the opposite port |
| L2Switch.ReflectedIff | l2fwd/veth_peer/main.c:110-122 | a frame leaves by the port it came in by iff its destination is known and was last seen there |
| L2Switch.CompleteIff | l2fwd/veth_peer/main.c:104 | no source is ever missing from the table iff every first addition of a source worked |
| L2Switch.LearnedIsReached | l2fwd/veth_peer/main.c:103-115 | a host learned on a port and not seen elsewhere since gets its frames through that port |
| L2Switch.EveryFrameOnce | l2fwd/veth_peer/main.c:93-124 | every frame received is transmitted once, in order and on the port of its moment, or else freed once |
| L2Switch.Program.ForwardBurst | l2fwd/veth_peer/main.c:93-124 | the loop over a burst takes the transitions of its frames in order |
| L2Switch.Program.PollPorts | l2fwd/veth_peer/main.c:86-125 | a round over both ports takes the transitions of both bursts, port 0 first |
| GraphWalk.PartitionRoundTrip | Graphs/rx_packets/rx.c:77-87 | from the three streams and the sequence of kinds the burst comes back: nothing lost, order kept |
| GraphWalk.StreamByEtherType | Graphs/rx_packets/rx.c:81-86 | a frame is in the IPv4 stream iff its EtherType is 0x0800, in the IPv6 stream iff 0x86DD, in the third iff neither |
| GraphWalk.FilterIsPure | Graphs/rx_packets/rx.c:81-86 | each stream holds frames of its own kind only |
| GraphWalk.FilterConserves | Graphs/rx_packets/rx.c:77-87 | the burst is the three streams together |
| GraphWalk.NoOverrunIff | Graphs/rx_packets/rx.c:74-84 | all writes fall within the two 32-slot buffers iff neither kind has more than 32 frames |
| GraphWalk.BurstFits | Graphs/rx_packets/rx.c:34-41 | a burst of at most 32 frames never overruns them |
| GraphWalk.WalksConserve | Graphs/rx_packets/rx.c:20-180 | after any number of walks the frames freed are exactly the frames taken, each once |
| GraphWalk.OneBurstOnly | Graphs/rx_packets/rx.c:31-44 | the application takes exactly the first burst that is not empty, and nothing after it |
| GraphWalk.Program.RxNodeProcess | Graphs/rx_packets/rx.c:20-45 | passes the burst on once, and nothing after its flag is set |
| GraphWalk.Program.ClassifyNodeProcess | Graphs/rx_packets/rx.c:66-96 | appends the frames with EtherType 0x0800 to PRINT_IPV4 and those with 0x86DD to PRINT_IPV6, each in order, frees the others in order, and stays within its buffers |
| GraphWalk.Program.PrintProcess | Graphs/rx_packets/rx.c:127-141 | frees every frame it is given, in order |
| GraphWalk.Program.GraphWalk | Graphs/rx_packets/rx.c:20-180 | a walk leaves no stream pending and takes the walk's transition |

A *regular* (or *admitted*) step is one in which a flow that is opened finds room and an unused port, and the clock and the iteration
behave as assumed above (for the sweep program: a clock below 2^64, since its stamps are compared after wrapping). `LinkedRun`, `UniqueRun` and `NothingLostRun` say for which runs these conditions hold throughout; the laws about
single flows (`PortStable`, `RepliesReturn`, `MappingLaws`) do without them.

## Left out

- The inside of `rte_hash`, `rte_timer`, `rte_ring`, `rte_mempool` and `rte_graph`; only the contracts above are used.
- Set-up of EAL, devices, queues, pools and graphs, all printing, and the fixed demonstration traffic and sleeps of the `main` functions; the lemmas are about all event sequences instead.
- Failure of `rte_malloc`: the programs do not check it, and the model always gets an entry.
- Padding bytes of the key structures: keys are compared by their fields.
- Entries are cells of a map indexed by allocation serial, not Dafny objects; aliasing between the two tables is equality of serials.
- Decoding of addresses and ports from frame bytes in the burst program, its fixed 20-byte IP header included: a frame is given by its key.
- Deadlines near the end of the 64-bit counter, and overflow of `5 * hz` or `10 * hz`; the idle and sweep comparisons do wrap as in C.
- The passes of the pipeline's classes run without interruption; the interleavings are those of the transition system.
- `__parser` only reads and prints, so it is no step of the pipeline. Per-lcore mempool caches are not counted.
- Several lcores running the switch at once, and its termination flag.
- The event-device programs, the plain forwarder (the learning switch without its table), and the demonstrations of single library calls.
- PipelineProgram.Program.TxHandler: the number of mbufs the NIC takes is a parameter; completion of a send by the NIC is not modelled.
- L2Switch.Program.ForwardBurst: a received frame carries its source, destination and what the table and the NIC answer; header bytes are not modelled.
