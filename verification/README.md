# Models of an operating-systems course repository

A Dafny model of four programs of the repository and proofs of what they keep over whole runs.
`dafny verify dfyconfig.toml` checks everything.

**The paging memory manager** (`project-4/main.c`). Four frames, four processes, page tables that are
themselves pageable, twenty swap slots, a round-robin pointer and a recursive `swapPage`.
`PagingModel` gives every procedure as a function on a state value; `PagingMachine` performs the
procedures in place on the byte arrays and is proved equal to those functions. `PagingOwnership` to
`PagingRuns` prove that a run refines a flat memory (process, page) -> (protection, sixteen bytes), so a load
returns the byte last stored, while no data fault is *blocked*: the nested calls that fetch victims' tables
come round to a frame they have just filled when the frames the fault passes over belong to different
processes whose tables are in swap. That an instruction starts no such fault (`Clear`) is a test on the state
before it, and it is exact in two ways. `PagingCollision` and `PagingExactness`: from a valid state an
instruction stays in bounds, keeps one owner for every place and acts like the flat memory, all three
together, if and only if it is clear. `PagingExposure`: after a clear program an instruction is clear if and
only if, whatever clear instructions follow, the run stays in bounds and every load in it returns the byte
last stored; the instruction's own answer may still be right when it is not clear, but then, if it came
back at all, a few clear instructions lead to a load that is wrong. `PagingWitness` runs a program of nine instructions from the
initial state that ends in such a load, answering 0 where 7 was stored, and `PagingPairs` shows that no
program that maps for at most two processes comes to this. `PagingLanding` says, from the bytes of the state
before, which frame an instruction takes, where it leaves the pointer, and that it touches nothing if it
has nothing to fetch.

**The intersection** (`project-3/problem2/main.c`). Any number of cars call `move`; one inductive invariant
gives safety, and a schedule that keeps calling every car comes to a moment at which all are across, however
it orders the calls, unless cars go on being spawned again without end: every respawn may cost four rounds more.
`IntersectionOrder` tells from the events of a run who is listed, when a call advances its car, and that whoever
was spawned first goes first.

**The costume shop** (`project-3/problem1/main.c`). Any number of ninjas and pirates under two locks, with a clock that never
runs backwards. Store, teams, waiting line and statistics are invariants of every run; whether the wake-ups
can die out is decided exactly, and a run in which they do is given for every number of people the program admits.
`ShopAccounts` and `ShopDoor` tell from the events of a run what was charged, who comes back, whom the door lets in
and who is signalled.

**Kernel state machines** (`project-0/sys.c`). Process groups and sessions, credentials, priorities, resource
limits, and the arithmetic of sysinfo. The methods state when a call succeeds, what it then changes and which
error it returns else; the lemmas are about runs of such calls.

Each component has its own modules: a model, the properties, and, for code that works in place, classes
proved against the model.

## Model

| member | source | states |
|---|---|---|
| PagingModel.SwapPage | project-4/main.c:106-200 | the recursion terminates, by the number of tables in swap and then the distance to the next frame without the issuer's table |
| PagingModel.CascadeShrinks | project-4/main.c:174-194 | fetching a victim's table leaves strictly fewer tables in swap, the measure of the recursion |
| PagingModel.FindVictim | project-4/main.c:111-196 | a victim found is a table in that frame or an allocated, valid entry claiming it |
| PagingOwnership.ExchangeKeepsOwned | project-4/main.c:126-147 | exchanging a frame and a slot, with the tables relocated, keeps exactly one owner for every full frame and used slot |
| PagingOwnership.ExchangeKeepsView | project-4/main.c:126-147 | and nobody's pages change as seen through the tables |
| PagingCascade.ScanFindsOwner | project-4/main.c:111-196 | the scan over the processes finds exactly the frame's owner |
| PagingCascade.EvictTable | project-4/main.c:121-131 | evicting another process's table (first case) is an exchange |
| PagingCascade.EvictWithTableAtHand | project-4/main.c:134-168 | evicting a page whose table is resident or is the page coming in is an exchange plus its corrected entry |
| PagingCascade.EvictAwayFromTable | project-4/main.c:174-194 | evicting a page whose table is elsewhere in swap is an exchange, a nested call, and its corrected entry |
| PagingCascade.CascadeSettles | project-4/main.c:106-200 | a call with a frame on its path whose owner's table is at hand succeeds at any depth, keeps ownership and every view, and leaves all entries off the path in place |
| PagingEviction.CascadeEvicts | project-4/main.c:199 | no call of such a cascade, on any level, gets to the line that nothing was swapped |
| PagingEviction.TableCallIsMade | project-4/main.c:203-219 | the call listed for an instruction's table is the one by which its table is created or fetched |
| PagingEviction.MapCallIsMade | project-4/main.c:231-270 | the call listed for a page, appended first if it is new, is the one map makes, and map fails exactly when that call does |
| PagingEviction.TouchCallIsMade | project-4/main.c:299-307 | likewise for load and store |
| PagingEviction.RunEvicts | project-4/main.c:199-343 | along every clear program no call that any instruction makes, on any level, gets to the line that nothing was swapped |
| PagingEviction.TableFaultEvicts | project-4/main.c:199-219 | in particular no call made to fetch the issuer's table |
| PagingEviction.DataFaultEvicts | project-4/main.c:199-255 | nor any call made to fault in a page when the fault is clear |
| PagingEviction.FewStrandedIsClear | project-4/main.c:114-118 | a fault is clear if at most one process has its table in swap and a page in a frame |
| PagingFaults.TableFault | project-4/main.c:106-219 | fetching the issuer's own table always succeeds, preserves what every process sees, and puts the table into the frame nextSwap named on entry |
| PagingFaults.ClearDataFault | project-4/main.c:231-259 | in a clear data fault the page lands in the frame nextSwap named, the issuer's table does not move, so the entry pointer stays good, and no view changes |
| PagingFaults.CollidesIffUnsettled | project-4/main.c:114-118 | the test on the state is true exactly when no frame on the cascade's path stops it |
| PagingAllocation.SwapHasRoom | project-4/main.c:33-83 | once all frames are full at most 16 slots are used, 15 if a table or page is still to be placed, so append never falls off its loop |
| PagingAllocation.AppendUsesNextSlot | project-4/main.c:59-88 | used slots being a prefix, the slot computed as their number minus one is the slot just appended |
| PagingAllocation.NewTable | project-4/main.c:203-229 | a zero page becoming a table leaves ownership and every view intact |
| PagingAllocation.NewPage | project-4/main.c:237-269 | a place becoming a new page leaves ownership and every other page's view intact |
| PagingRefinement.MakeTableRefines | project-4/main.c:203-230 | after the first part of map the issuer's table is resident and no view changed; the free-frame branch never abandons a table in swap |
| PagingRefinement.FaultInRefines | project-4/main.c:299-307 | a clear fault of load or store changes no view |
| PagingRefinement.MapPageRefines | project-4/main.c:237-270 | a clear map gives the page a frame: old contents if it had any, else zeroes, with the new protection |
| PagingRefinement.StoreByte | project-4/main.c:308-310 | writing the byte changes one byte of one virtual page and keeps the invariant |
| PagingRefinement.StepRefines | project-4/main.c:345-356 | a clear instruction keeps the invariant and takes the view, and the answer, where the flat memory goes |
| PagingRuns.InitialValid | project-4/main.c:416-434 | the initial state satisfies the invariant and shows nothing mapped |
| PagingRuns.RunRefines | project-4/main.c:416-458 | every clear program runs to its end in bounds and its final view is the flat memory's |
| PagingRuns.AnswersLikeFlat | project-4/main.c:202-343 | every answer along a clear program is the flat memory's |
| PagingRuns.FlatHistory | project-4/main.c:202-343 | the flat memory holds, for each address, the last byte stored while its page was mapped writable, zero if none |
| PagingRuns.LoadReturnsLastStore | project-4/main.c:316-343 | a load after a clear program returns the byte last stored there modulo 256, zero if none, or that the page was never mapped, and changes no view |
| PagingRuns.AnswerFromProgram | project-4/main.c:202-343 | every answer along a clear program, the three of map and the two refusals included, told from the last map of the page and the last store in the program before it |
| PagingCollision.CollisionGoesWrong | project-4/main.c:106-200 | a blocked data fault ends out of bounds, with two tables in one frame and a page of theirs in swap, or with a table in the frame the page should be in |
| PagingExactness.StepSoundIffClear | project-4/main.c:202-356 | from a valid state an instruction stays in bounds, keeps one owner per place and acts like the flat memory, all together, if and only if it is clear |
| PagingExactness.UnclearDamages | project-4/main.c:202-356 | whatever an unclear instruction answers, unless it goes out of bounds it leaves two tables sharing a frame, or a page's entry naming a frame that holds a table |
| PagingExposure.VictimAtHand | project-4/main.c:106-200 | where no page of a process without a resident table is met, an eviction does not nest, also in a damaged state |
| PagingExposure.CrossingLeads | project-4/main.c:202-314 | when two processes share a table, four clear instructions, one storing 1 and the other then 2 in its own page, leave 2 in the frame both read |
| PagingExposure.BrokenMisleads | project-4/main.c:202-343 | after either kind of damage some clear way of going on ends in a load that is wrong |
| PagingExposure.InstructionTrustedIffClear | project-4/main.c:202-356 | after a clear program an instruction is clear iff, whatever clear instructions follow it, the run stays in bounds and every load returns the byte last stored |
| PagingExposure.RunTrustedIffClear | project-4/main.c:202-458 | a program is clear iff that is so at every moment of it |
| PagingWitness.StoredByteIsLost | project-4/main.c:106-343 | seven named instructions run faithfully from the initial state, an eighth, a load, is not clear, and then a load answers 0 where 7 was the last byte stored |
| PagingPairs.SwapKeepsNoTable | project-4/main.c:106-200 | however deep it goes, swapPage gives no process a table that had none |
| PagingPairs.TwoRunRefines | project-4/main.c:202-343 | a program that maps for at most two processes runs in bounds and ends in the flat memory's view, with no further condition |
| PagingPairs.TwoLoadReturnsLastStore | project-4/main.c:316-343 | after such a program a load by any process returns the byte last stored |
| PagingLanding.FaultedPageLands | project-4/main.c:231-336 | a clear map, store or load that has to bring its page in from swap puts it into the frame nextSwap names, or the next one if that holds the issuer's own table (lines 241, 300, 329), and leaves nextSwap behind that frame unless calls nest |
| PagingLanding.NotStrandedIsClear | project-4/main.c:106-200 | and it is clear if no process whose table is in swap has a page in that frame |
| PagingLanding.NewPageTakesFirstFree | project-4/main.c:237-269 | while a frame is free a new page takes the first one; pointer, tables and swap stay |
| PagingLanding.TableLands | project-4/main.c:203-230 | a table is created in the first free frame, created or fetched into the frame nextSwap named when none is free, and otherwise not moved by the whole instruction |
| PagingLanding.LoadHits | project-4/main.c:316-343 | a load of a page in its frame reads the byte the entry leads to, and it, or a refused one, changes nothing |
| PagingLanding.StoreHits | project-4/main.c:283-314 | a store to a page in its frame changes that one byte of memory; a refused one changes nothing |
| PagingLanding.MapHits | project-4/main.c:271-279 | a map of a page in its frame changes at most the protection bit of its entry |
| PagingLanding.NoTableRefuses | project-4/main.c:283-343 | a load or store by a process without a table is refused and changes nothing |
| PagingLanding.UnclaimedFrameStays | project-4/main.c:111-199 | swapPage called for a frame that is no table and that no entry claims changes nothing |
| PagingLanding.FourthPageSkipsTable | project-4/main.c:202-270 | four maps by process 0 from the initial state: the fourth page is swapped into frame 1, past the table in frame 0, and nextSwap is 2 |
| PagingMachine.Machine.constructor | project-4/main.c:416-434 | the arrays as main fills them are the initial state |
| PagingMachine.Machine.SwapPage | project-4/main.c:106-200 | the in-place recursive procedure computes the model's outcome, reporting an access out of bounds instead of making it |
| PagingMachine.Machine.NumPagesInSwap | project-4/main.c:59-68 | the counting loop returns the number of used slots |
| PagingMachine.Machine.AppendZeroPage | project-4/main.c:74-83 | the first free slot becomes a used page of zeroes, if there is one |
| PagingMachine.Machine.MapInst | project-4/main.c:202-281 | new bytes, pointer, tables, free list and answer are the model's, of which PagingLanding says what frame and what pointer they come to |
| PagingMachine.Machine.StoreInst | project-4/main.c:283-314 | likewise for store, with its three refusals |
| PagingMachine.Machine.LoadInst | project-4/main.c:316-343 | likewise for load, with the byte it reports |
| PagingMachine.Machine.Process | project-4/main.c:345-356 | one instruction of the main loop is one step of the model |
| IntersectionModel.Place | project-3/problem2/main.c:66-69 | the walk of add_car stops before the first car that did not spawn earlier |
| IntersectionSafety.AddedSorted | project-3/problem2/main.c:53-73 | inserting keeps a list sorted by spawn time |
| IntersectionSafety.AddedElements | project-3/problem2/main.c:53-73 | inserting adds exactly that car, once |
| IntersectionSafety.RemovedElements | project-3/problem2/main.c:75-95 | removing removes exactly that car |
| IntersectionSafety.MoveKeepsInv | project-3/problem2/main.c:99-156 | every call keeps: permits plus cars inside are three, a quadrant is taken iff exactly one car is in it, lists sorted, duplicate-free, holding only cars that want the quadrant |
| IntersectionSafety.RespawnKeepsInv | project-3/problem2/main.c:194-198 | rewriting a finished car's spawn time, lane and turn outside the semaphore keeps it too |
| IntersectionSafety.RunKeepsInv | project-3/problem2/main.c:99-204 | so it holds in every reachable state, for any number of cars |
| IntersectionProgress.ExitFixedAtSpawn | project-3/problem2/main.c:126-147 | no call changes the quadrant a car will leave from, and it leaves from that one |
| IntersectionProgress.BoundForExit | project-3/problem2/main.c:126-203 | over every run: from spawning in a lane with a turn on, a car is bound for the quadrant the two determine |
| IntersectionProgress.LeavesAtExit | project-3/problem2/main.c:126-134 | and the call that ends its crossing finds it in that quadrant |
| IntersectionProgress.NoOvertaking | project-3/problem2/main.c:101-113 | a car entering from its lane passes no queued car that spawned strictly earlier |
| IntersectionOrder.SpawnTimeIsLast | project-3/problem2/main.c:194-198 | over every run: a car's spawn time is the time of its last spawning, whatever it and others do after it |
| IntersectionOrder.ListsHoldTheRefused | project-3/problem2/main.c:99-152 | over every run: the list of a quadrant holds exactly the cars that want it, have been refused and are still where they were |
| IntersectionOrder.FirstSpawnedGoesFirst | project-3/problem2/main.c:53-148 | over every run: a car that takes a quadrant from its lane, or while fewer than three are inside, was last spawned no later than anyone refused that quadrant and still waiting |
| IntersectionOrder.NoCrossingAhead | project-3/problem2/main.c:136-152 | a car that crosses while a permit is left passes no listed car that spawned strictly earlier |
| IntersectionOrder.AdvancesIff | project-3/problem2/main.c:99-156 | a call returns 1 iff the car is on its last quadrant, or the next one is free and the car first in its list, with a permit left if it enters; with none left a crossing car need not be first |
| IntersectionOrder.CarAfterMove | project-3/problem2/main.c:99-156 | an advance takes the car into the quadrant of its lane, one quadrant on, or out; nothing else about any car changes |
| IntersectionOrder.ListsAfterMove | project-3/problem2/main.c:99-156 | a refused call lists the car for the quadrant it wants, an advance takes it off every list, and no other car's listing changes |
| IntersectionProgress.SomeCarReady | project-3/problem2/main.c:99-156 | deadlock freedom: while a car has moves left, a single call advances some car |
| IntersectionProgress.ReadyStays | project-3/problem2/main.c:99-156 | a call that advances nobody takes no other car's chance away |
| IntersectionProgress.RespawnKeepsReady | project-3/problem2/main.c:194-198 | nor does a respawn |
| IntersectionProgress.RoundAdvances | project-3/problem2/main.c:194-203 | any sequence of calls and respawns in which every car is called makes progress, the respawns' new work not counted |
| IntersectionProgress.EveryoneCrosses | project-3/problem2/main.c:194-203 | as many such rounds as there is work at the start, plus four for every respawn in them, come to a moment at which every car is across |
| IntersectionProgress.EveryoneStaysAcross | project-3/problem2/main.c:200-203 | and without respawns all are across at the end |
| IntersectionProgress.WorkBound | project-3/problem2/main.c:198-203 | the work at the start is at most four per car |
| IntersectionLists.IntentList.Contains | project-3/problem2/main.c:36-48 | the read-only loop finds a car iff it is in the acyclic list |
| IntersectionLists.IntentList.Add | project-3/problem2/main.c:53-73 | on the heap: the list stays acyclic and becomes the model's sorted insertion |
| IntersectionLists.IntentList.Remove | project-3/problem2/main.c:75-95 | on the heap: the list stays acyclic and loses the first node of the car |
| IntersectionMachine.Crossing.constructor | project-3/problem2/main.c:223-231 | four empty lists, free quadrants, three permits |
| IntersectionMachine.Crossing.Move | project-3/problem2/main.c:99-156 | cars, flags, permits, lists and the return value become the model's |
| IntersectionMachine.Crossing.Respawn | project-3/problem2/main.c:194-198 | the record gets the new time, lane and turn and the location 0, keeps its thread id, and all else stays |
| ShopModel.FreeTeam | project-3/problem1/main.c:295-304 | the first Ready team, all before it Busy |
| ShopSafety.EmptyStoreMeaning | project-3/problem1/main.c:206-227 | in an empty store both races may enter iff nobody is overdue; else exactly the race of whoever is overdue first |
| ShopSafety.BusyStoreMeaning | project-3/problem1/main.c:189-233 | with people inside the door is open to a race iff it is theirs, a team is left, and the store just changed hands or the first overdue person is of that race; never to both |
| ShopSafety.AdmittedFits | project-3/problem1/main.c:348 | whoever the two separate calls admit finds none of the other race inside and fewer people than teams |
| ShopSafety.TeamFree | project-3/problem1/main.c:295-304 | then getCostumingTeam returns an index below the number of teams |
| ShopSafety.StepKeepsStore | project-3/problem1/main.c:344-424 | every step keeps: counters count, races apart, busy teams and people inside one to one |
| ShopSafety.StepKeepsLine | project-3/problem1/main.c:103-161 | every step keeps the line duplicate-free with members whose visit is going on |
| ShopSafety.StepKeepsClock | project-3/problem1/main.c:174-181 | no visit began in the future, so the unsigned elapsed time never wraps |
| ShopBooks.StepKeepsBooks | project-3/problem1/main.c:375-399 | every step keeps: revenue is the sum of what all visits owe, teams were busy as long as all visits lasted, visit counts are lengths of visit lists |
| ShopBooks.StepKeepsRegistry | project-3/problem1/main.c:427-441 | persons is a prefix naming everyone gone exactly once |
| ShopBooks.RoomToRegister | project-3/problem1/main.c:429-433 | whoever still has to register finds a NULL entry inside the array |
| ShopRuns.RunKeepsInv | project-3/problem1/main.c:315-468 | all of these hold at every moment of every run |
| ShopRuns.NeverTogether | project-3/problem1/main.c:189-233 | two people inside at any moment of any run are of one race and hold different teams |
| ShopRuns.AtMostTeams | project-3/problem1/main.c:189-192 | never more people inside than teams |
| ShopRuns.TeamForEveryone | project-3/problem1/main.c:348-357 | whoever is let in gets a team that exists and was Ready |
| ShopRuns.LineIsRefused | project-3/problem1/main.c:345-463 | at every moment the line holds exactly those refused on a visit that is not over |
| ShopRuns.LineIsInOrder | project-3/problem1/main.c:103-141 | in the order of their first refusals |
| ShopRuns.ClosingTime | project-3/problem1/main.c:427-443 | once all are gone: everyone came once or twice, persons is full, the line empty, the revenue what the visits owe |
| ShopAccounts.RevenueIsTakings | project-3/problem1/main.c:349-381 | at every moment of every run the revenue is the sum of the times of all visits paid for on which the person got in less than 30000 ms after arriving |
| ShopAccounts.EveryoneIsCharged | project-3/problem1/main.c:349-399 | likewise each person's gold, and the list of visits holds each one's time and its wait, admission minus arrival |
| ShopAccounts.TimesAreTheEvents | project-3/problem1/main.c:334-349 | the start kept for a person is its last arrival, and inside the store the wait kept is admission minus arrival |
| ShopAccounts.TeamsWorked | project-3/problem1/main.c:376-377 | every team was busy for a million times the seconds of the visits it was given |
| ShopAccounts.ComesBackOnce | project-3/problem1/main.c:427-443 | a person is gone for good iff it left with that intention or for the second time, comes back iff it left once without it, and has paid as often as it left, or once more if about to leave |
| ShopDoor.OverdueIffLate | project-3/problem1/main.c:210-219 | a person in line counts as overdue iff it arrived longer ago than 30000 ms less 1500 times the other race's average |
| ShopDoor.EmptyStoreLetsIn | project-3/problem1/main.c:189-348 | in every run the door of an empty store lets a person in iff nobody in line is late at the second look or the first who is late at the first look is of that race |
| ShopDoor.BusyStoreLetsIn | project-3/problem1/main.c:189-348 | with people inside: iff all are of that race, fewer than the teams, and the store just changed hands or the first who is late, if any, is of that race |
| ShopDoor.JustChangedIff | project-3/problem1/main.c:206-456 | the store counts as just changed iff somebody tried the door while it was empty and the last in line has not been turned away in that try or since |
| ShopDoor.SignalledIff | project-3/problem1/main.c:363-461 | a signal goes exactly to a waiting head of the line after somebody leaves and to whoever waits behind a person trying the door, and lasts until the next try |
| ShopWakeups.StaysLiveIff | project-3/problem1/main.c:363-461 | a wake-up stays under way while the empty store is wanted, iff the step is not a refusal of the last in line with nobody else signalled |
| ShopWakeups.RunIsLiveIff | project-3/problem1/main.c:363-461 | so a run never loses its wake-ups iff no step of it is such a refusal |
| ShopWakeups.StrandedForGood | project-3/problem1/main.c:345-463 | once the store is empty, nobody signalled and everyone who came in line, no step but registering happens and no signal is sent, until somebody new arrives or wakes spuriously |
| ShopWakeups.NobodyNew | project-3/problem1/main.c:427-443 | and nobody new arrives when all others have left for good |
| ShopStranding.WiderStep | project-3/problem1/main.c:189-443 | a step at the door or in the store does not depend on how many others have not come yet |
| ShopStranding.LineCanStrand | project-3/problem1/main.c:445-461 | a concrete run, whoever else is still to come, ends with an empty store, two people in line and nobody signalled |
| ShopStranding.ProgramCanStrand | project-3/problem1/main.c:445-487 | so it does for every number of ninjas and pirates that main admits |
| ShopLine.Line.Add | project-3/problem1/main.c:103-117 | on the heap: the node becomes the last of the acyclic list |
| ShopLine.Line.Delete | project-3/problem1/main.c:122-141 | on the heap: exactly that node goes, nothing happens if it is not there |
| ShopLine.Line.Contains | project-3/problem1/main.c:146-161 | finds the node iff it is in the list |
| ShopMachine.Store.constructor | project-3/problem1/main.c:485-517 | the data main sets up is an initial state |
| ShopMachine.Store.CanEnter | project-3/problem1/main.c:189-233 | the verdict, and the new justChanged, are the model's |
| ShopMachine.Store.GetCostumingTeam | project-3/problem1/main.c:295-304 | the loop returns the first Ready team and marks it, or marks nothing |
| ShopMachine.Store.Place | project-3/problem1/main.c:448-453 | testing a node's next for NULL tells whether its owner stands in line and not last |
| ShopMachine.Store.Attempt | project-3/problem1/main.c:345-463 | a turn of the loop at the door becomes the model's step |
| ShopMachine.Store.Pay | project-3/problem1/main.c:375-399 | likewise the statistics; revenue and gold grow by the time if the wait was below 30000 ms, else not at all |
| ShopMachine.Store.Leave | project-3/problem1/main.c:402-443 | likewise leaving; the person comes back iff it neither meant to go for good nor was there for the second time |
| ShopMachine.Store.Register | project-3/problem1/main.c:428-434 | likewise the entry in persons, the shop staying in order |
| KernelSessions.StepKeeps | project-0/sys.c:922-1100 | setpgid, setsid, fork, clone, exec and exit keep: groups inside sessions, a live process in the session of the group bearing its pid, leaders leading |
| KernelSessions.GroupsInsideSessions | project-0/sys.c:922-1100 | in every reachable state two processes of one group are in one session |
| KernelSessions.AnyMemberWillDo | project-0/sys.c:972-976 | so setpgid's answer does not depend on which member of the group is found |
| KernelSessions.LeaderForLife | project-0/sys.c:964-1090 | a session leader leads the session and group of its own pid as long as it lives |
| KernelSessions.SetsidStartsAlone | project-0/sys.c:1069-1092 | a new session and its group contain nobody else |
| KernelSessions.SetsidMakesALeader | project-0/sys.c:1069-1092 | a process that does not lead, its pid naming no group, becomes leader of the session and group of its pid, all else unchanged; in every other case nothing changes |
| KernelSessions.LeadsIffFounded | project-0/sys.c:1069-1092 | in every run a process leads a session iff it called setsid with success in its life |
| KernelSessions.SetpgidAnswers | project-0/sys.c:922-991 | what is asked of the caller, the process and the group, and which of the four errors each shortfall gives |
| KernelSessions.SetpgidMoves | project-0/sys.c:978-985 | a setpgid that is granted changes the group of that one process and nothing else; any other changes nothing |
| KernelSessions.SinceBirth | project-0/sys.c:951-957 | a process stays in the session it was born in unless it leads its own, and in the group until a call names it, counts as not having called exec exactly while it has not, and keeps its parent until that exits |
| KernelSessions.LivesIffBorn | project-0/sys.c:942-945 | the processes setpgid can find are those born and not exited |
| KernelSessions.RunsIffStarted | project-0/sys.c:947-949 | the ids it refuses as threads are those of threads started and not ended |
| KernelSessions.TaskTable.Setpgid | project-0/sys.c:922-991 | result and table are the model's, whichever member of the group is found; a 0 has moved that process into that group, an error nothing |
| KernelSessions.TaskTable.Setsid | project-0/sys.c:1058-1100 | a leader, or one whose pid names a group, gets EPERM and nothing changes; anybody else becomes leader of its own session and group and is told its pid |
| KernelCredentials.RunOnlyShrinks | project-0/sys.c:332-821 | without the capability the set of real, effective and saved id only shrinks over any run, and the file-system id stays among the first four |
| KernelCredentials.ReachableIff | project-0/sys.c:465-783 | what such a run can reach: nothing new, or exactly the combinations of held ids with a file-system id among them |
| KernelCredentials.PrivilegedReachableIff | project-0/sys.c:465-783 | with the capability and nothing else in the way: exactly the combinations of ids the namespace knows, whatever was held |
| KernelCredentials.RegainIff | project-0/sys.c:583-646 | an effective id can be regained without the capability iff it is held |
| KernelCredentials.DroppedForGood | project-0/sys.c:465-783 | four equal ids never change again without the capability |
| KernelCredentials.DropsForGood | project-0/sys.c:450-576 | a privileged setuid, and a setreuid with one id for both, drop privileges for good |
| KernelCredentials.SetuidCanBeUndone | project-0/sys.c:525-576 | an unprivileged setuid can be undone |
| KernelCredentials.Task.Setreuid | project-0/sys.c:465-523 | when it returns 0, which ids it then leaves, the saved one following the effective iff a real id was given or an effective one other than the real, and which error it returns else; setregid (332-382) is the case without hooks |
| KernelCredentials.Task.Setuid | project-0/sys.c:536-576 | likewise: all four ids with the capability, effective and file-system id to the real or saved one without; setgid is 389-419 |
| KernelCredentials.Task.Setresuid | project-0/sys.c:583-646 | likewise; setresgid is 670-720 |
| KernelCredentials.Task.Setfsuid | project-0/sys.c:749-783 | returns the old id, and the new one is set iff it is mapped, held or permitted, and the hook says 0; setfsgid is 788-821 |
| KernelPriority.FindTask | project-0/sys.c:200-204 | the lookup by pid finds the one task the request selects, if there is one |
| KernelPriority.Setpriority | project-0/sys.c:178-240 | told from each task's fields: it gets the value cut to -20..19 iff it is named by process, group or visible user, its owner may, a smaller value is permitted to it and the hook says 0; nothing else changes, and the error is the one carried through |
| KernelPriority.Getpriority | project-0/sys.c:248-311 | the largest of 20 minus nice over the selected tasks, ESRCH for none |
| KernelPriority.ZeroIff | project-0/sys.c:154-176 | setpriority returns 0 iff the set is not empty and the last refusal, if any, was a hook's ESRCH for a task that is not the last |
| KernelPriority.ZeroMeansAll | project-0/sys.c:154-240 | if no hook answers ESRCH, 0 means that every task was changed |
| KernelPriority.ZeroCanHideARefusal | project-0/sys.c:154-176 | with one that does, three tasks for which 0 hides a refusal, and getpriority shows it |
| KernelPriority.ShownAfterZero | project-0/sys.c:154-311 | when the carried error is 0, the largest value shown is 20 minus the nice value asked for iff no refused task has a smaller one |
| KernelPriority.SetThenGet | project-0/sys.c:178-311 | after a 0, getpriority for the same request answers 20 minus the clamped value iff no selected task was refused while having a smaller nice value |
| KernelLimits.Signal.DoPrlimit | project-0/sys.c:1374-1438 | when it returns 0, what it then stores, with the one case of 0 seconds of CPU time, what it stores otherwise, the previous limit, and which error it returns else |
| KernelLimits.Signal.SetThenGet | project-0/sys.c:1374-1438 | after a success, asking again shows what was requested, no CPU time as one second |
| KernelLimits.LastRequestHolds | project-0/sys.c:1374-1438 | after any run each limit is what the last change of it that was made asked for, or what it was at first |
| KernelLimits.RunStaysOrdered | project-0/sys.c:1374-1438 | soft never exceeds hard over any run, save the CPU limit stored as 1 under 0 |
| KernelLimits.SoftAboveHardIff | project-0/sys.c:1408-1416 | which happens iff the request was for no CPU time under a hard limit of 0 |
| KernelLimits.HardNeverRises | project-0/sys.c:1402-1404 | without the capability no hard limit rises over any run |
| KernelLimits.ConversionsAgree | project-0/sys.c:1340-1371 | to 64 bits and back is the identity and order is kept, at both word sizes |
| KernelLimits.BackIsMonotone | project-0/sys.c:1361-1371 | the way back keeps order, and is exact iff the value is below the word's infinity or is infinite |
| KernelSysinfo.Scaling | project-0/sys.c:2355-2367 | the wraparound tests catch exactly the totals that do not fit a word |
| KernelSysinfo.DoSysinfo | project-0/sys.c:2355-2384 | figures are scaled if the total fits, and all left alone otherwise |
| KernelSysinfo.BytesKeptIff | project-0/sys.c:2369-2384 | a figure bounded by ram plus swap keeps its bytes iff the unit is a power of two or the figure 0 |
| KernelSysinfo.FitsMeans | project-0/sys.c:2355-2384 | for a unit that is a power of two: figures are rewritten iff (ram + swap) times the unit is below the word, and then a figure no larger than ram plus swap becomes its bytes |
| KernelSysinfo.CompatSysinfo | project-0/sys.c:2429-2461 | the unit is doubled up to a page exactly when ram or swap needs more than 32 bits, and each figure, scaled by as much, is cut to 32 bits |
| KernelSysinfo.LosesLessThanAUnit | project-0/sys.c:2437-2444 | scaling down loses less than one new unit of each figure |
| KernelSysinfo.CutIsNearIff | project-0/sys.c:2447-2461 | the 32-bit store keeps a figure near its bytes iff they are less than 2^32 units |
| KernelSysinfo.ShownTo32Bit | project-0/sys.c:2355-2461 | end to end, for a unit that is a power of two: a 32-bit caller is told a unit readable off the input, and a figure stands for its bytes to within one unit iff they are less than 2^32 units |
| KernelSysinfo.SixteenTerabytes | project-0/sys.c:2355-2461 | 2^44 bytes of ram, counted in pages, are shown as none |

## Left out

- Paging: input parsing and printing; a process id is 0..3 and an address 0..63. Any integer may be given as protection or value.
- Paging: for a process without a table the source reads `swap[-5]`, outside the array; the model takes that read as a page without a matching entry.
- Paging: what the C program does after an access out of bounds; the model stops with `Wild`, the class with `ok == false`.
- Paging: a table entry is a flags byte and a slot byte, the stride of the source; its unused padding field is not modelled.
- PagingModel.SwapPage: the unconditional claim that load returns the last store is false of the code, see PagingWitness.StoredByteIsLost; the exact condition is `Clear`, see PagingExposure.InstructionTrustedIffClear and RunTrustedIffClear, which count a run out of bounds as a failure and look at the loads after an instruction as well as at its own answer.
- Intersection: how threads are scheduled; progress is for every schedule in which each car keeps being called, up to a number of rounds that grows with the respawns; cars that respawn for ever can keep a lane car waiting.
- Intersection: `sleep`, random lanes and turns are parameters of the respawn step.
- Shop: `pthread` internals. A wake-up may happen to anyone outside at any time. The read of `n->next` after the door lock is released (lines 363-365) is taken inside the entering step.
- Shop: the claim that nobody waits over thirty minutes, which the code does not decide; the factor is 1.5 in main.c:11 and 1.2 in problem1_explanation.txt:10, and the model follows the code.
- ShopMachine.Store.Register: is for a person who has left for good, which is where the thread takes that step.
- Shop: a person's visits are a sequence, not a linked list, and sums do not wrap at 32 bits.
- ShopWakeups.StaysLiveIff: says that a wake-up is pending, not that the person woken is admitted.
- Sessions: pid namespaces, zombies that still hold their group, and exec by a thread that is not the leader.
- Credentials: user accounting behind `set_user`, and security modules, are arbitrary answers; the capability is one Boolean per call.
- KernelPriority.Setpriority: how an id is read in a user namespace and which users are known are parameters; pids are taken to be unique.
- Limits: `prlimit64` permission checks and the CPU timer update.
- KernelSysinfo.CompatSysinfo: requires a unit above 0, since the doubling loop of the source does not end for 0.
- project-1, project-2, and the rest of project-0/sys.c (uname, prctl, times, rusage, umask): easy members around system calls.
