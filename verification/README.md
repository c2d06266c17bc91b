# Verification of the fleet and robot coordination logic

This project models the logic of an autonomous mobile robot fleet (a fleet manager, a traffic
manager, the robots' own executors and localization monitors, and the operators' dashboard) and
proves what its protocols and algorithms keep. `dafny verify dfyconfig.toml` checks all of it.

What is modelled, in the system's own terms:

- Deadlock detection: the wait-for graph, the iterative search for strongly connected components,
  the cycle extraction and the confirmation over time (`Graphs`, `SccInvariant`, `Deadlock`,
  `CycleSearch`, `WaitFor`, `CycleConfirmer`).
- Task allocation: the optimal assignment solver with potentials and its exhaustive reference, batch
  selection and one allocation round (`Assignment`, `HungarianInvariant`, `Hungarian`, `BruteForce`,
  `Allocation`).
- Zone tokens: the five-phase cycle that releases, registers, queues, grants and counts, who is
  served first and granted because of it, and the chains of zones robots ask for
  (`Tokens`, `TokenPhases`, `GrantOrder`, `TokenSafety`, `TokenRuns`, `Overtaking`,
  `OvertakingWorst`, `ZoneTokenManager`, `RequestChain`).
- Deadlock resolution: the search for a place to give way, the escalation ladder and what it
  chooses, the incident table, and where the traffic manager opens incidents (`YieldPocket`,
  `Ladder`, `LadderChoices`, `Incidents`, `IncidentCycles`, `IncidentManager`, `Openings`,
  `TrafficManager`).
- Giving way at crossings and the wait-for graph built from it (`Crossing`, `TrafficManager`),
  and one whole cycle of the traffic manager (`TrafficCycle`).
- Task dispatch: task records, waiting queue, open calls and robots under late, lost and refused
  calls, rounds of allocation that start over and sweeps over calls that are due (`TaskLife`,
  `Scheduler`, `Restarts`, `Rounds`, `Calls`, `Dispatch`, `FleetManager`).
- Distributed charger claims (`Chargers`) and kidnap recovery: what every run keeps, and why a robot
  counts as lost, suspect or found (`Kidnap`, `KidnapCauses`, `KidnapDetector`).
- Agreement structures: snapshot and event log, emergency stop requests from many threads, fast map
  lookup, delay queue (`EventLog`, `StateStore`, `Estop`, `GridLookup`, `DelayQueue`).

Conventions. Strings that name robots, tasks, zones and chargers are integers, numbered in their
lexicographic order. Floating-point numbers are reals. Geometry, clocks, sensors, service
availability and message arrival are inputs, so every theorem holds for whatever they are. Objects
that change in place are classes whose methods are proved to do to the fields what a specification
function does to their values; the properties are lemmas about that function, over single steps and
over whole runs. Where a function decides something (who goes first, when an incident is over, why a
robot is lost), a lemma says so again in the terms of the fields alone, as an if-and-only-if. Ghost fields record histories: event logs, what was published, what has left.

Three results where the code falls short of what is said of it, or of what one would expect:

- The bound on overtaking that the token protocol documents, max_bypass + (n - 1) grants of other
  robots that go before a waiting one, is wrong for chains of zones: among n robots the least bound on
  the grants of cycles is max_bypass + 2n - 3, or n - 1 if max_bypass is 0, and each immediate
  reservation between the cycles, which looks at no waits, can add one
  (`OvertakingWorst.LeastBound`, reached by a run for every n). The documented one holds exactly
  without reservations and for two robots or max_bypass 0 (`AdvertisedExactly`), and always, counting
  cycles, for a robot that needs a single exclusive zone (`Overtaking.AdvertisedBound`).
- The configuration accepts a reject backoff of 0. A round of the nearest or load-balancing strategy
  then ends exactly if its first pass plans reachable robots only (`Rounds.RoundEndsExactly`; the clock
  stands still during a round, as does what is up and down); `Rounds.NeverEnds` is the instance of one
  idle robot whose service is down. With a positive backoff every round ends.
- The recovery monitor stays live only because a way to turn is reported without an action solely
  while a spin is being started; `Kidnap.NoteSpinAvailableSafe` states exactly when that is safe.

## Model

| member | source | states |
|---|---|---|
| Deadlock.StronglyConnectedComponents | src/amr_fleet/amr_fleet/deadlock.py:94-148 | the iterative search ends on every finite graph (successors that are no keys included) and returns a partition of all nodes; its blocks are exactly the classes of nodes that reach each other, each ascending, the list ordered by first member |
| SccInvariant.Visit | src/amr_fleet/amr_fleet/deadlock.py:115-122 | entering a node keeps the search invariant: index order is stack order, every stacked node reaches every later frame, low links point to stacked nodes it reaches |
| SccInvariant.Scan | src/amr_fleet/amr_fleet/deadlock.py:123-132 | looking at an edge keeps the invariant: a known node only lowers the low link, an unknown one becomes the next frame |
| SccInvariant.Retreat | src/amr_fleet/amr_fleet/deadlock.py:135-146 | leaving a node whose low link is smaller keeps it and its component on the stack and hands the low link to its parent |
| SccInvariant.ClosedClass | src/amr_fleet/amr_fleet/deadlock.py:135-143 | a finished node whose low link is its own index has exactly its mutual-reachability class above it on the stack |
| SccInvariant.RunClose | src/amr_fleet/amr_fleet/deadlock.py:135-146 | popping that class keeps the invariant and adds a complete class to the output |
| CycleSearch.FindCycle | src/amr_fleet/amr_fleet/deadlock.py:151-177 | the non-backtracking search returns a simple cycle from the smallest member inside the component, and the empty list exactly if there are fewer than two members or no cycle through the smallest one |
| CycleSearch.ClassHasCycle | src/amr_fleet/amr_fleet/deadlock.py:151-177 | in a strongly connected component of two or more nodes a cycle through any member exists, so the final empty return is never reached |
| Deadlock.DeadlockCycle | src/amr_fleet/amr_fleet/deadlock.py:151-177 | on every component the detector reports, the cycle found is non-empty, simple and starts at its smallest id |
| Deadlock.DeadlockComponents | src/amr_fleet/amr_fleet/deadlock.py:180-182 | without self edges the result is empty exactly if the wait-for graph has no cycle; every pair of nodes that wait for each other is in a reported component |
| WaitFor.WithEdgeMeaning | src/amr_fleet/amr_fleet/deadlock.py:41-51 | adding an edge adds exactly that pair, drops self edges, keeps the first reason of a pair and creates both nodes |
| WaitFor.WaitForGraph.Add | src/amr_fleet/amr_fleet/deadlock.py:45-51 | the graph after the call is the one with the edge added, well formed |
| WaitFor.WaitForGraph.PredecessorsClosure | src/amr_fleet/amr_fleet/deadlock.py:69-84 | the backward search returns exactly the nodes from which a non-empty walk along edges of the wanted reason leads to a target |
| WaitFor.WaitForGraph.DeadlockComponents | src/amr_fleet/amr_fleet/deadlock.py:180-182 | for the graph of waits no component is reported exactly if nobody waits in a circle |
| CycleConfirming.ConfirmedOnce | src/amr_fleet/amr_fleet/deadlock.py:193-206 | over every run of cycles a candidate is confirmed exactly in the first cycle of an unbroken spell that comes long enough after the spell began: once per spell, never before |
| CycleConfirming.CycleConfirmer.Update | src/amr_fleet/amr_fleet/deadlock.py:193-206 | the object confirms exactly those candidates, for the whole history of its cycles |
| Hungarian.Hungarian | src/amr_fleet/amr_fleet/allocation.py:195-249 | for every rectangular matrix, transposed if it has more rows than columns: min(n, m) pairs, no row or column twice, ascending by row, of least total cost among all assignments |
| Hungarian.Square | src/amr_fleet/amr_fleet/allocation.py:209-248 | inserting the rows one by one leaves all of them matched at least cost |
| Hungarian.FindFree | src/amr_fleet/amr_fleet/allocation.py:215-242 | the search of one row ends at a free column with the alternating tree to it, all potentials still feasible |
| Hungarian.FlipPath | src/amr_fleet/amr_fleet/allocation.py:243-248 | the flip along the stored way matches one more row and keeps every matched edge tight |
| HungarianInvariant.Shift | src/amr_fleet/amr_fleet/allocation.py:234-240 | lowering the potentials by the least slack keeps feasibility, tight matched edges, non-positive column potentials, zero on free columns, and brings a new column into the tree |
| HungarianInvariant.Look | src/amr_fleet/amr_fleet/allocation.py:224-233 | looking at one column keeps the least slack to the tree and where it was found |
| HungarianInvariant.Flip | src/amr_fleet/amr_fleet/allocation.py:243-248 | moving one match along the path moves the hole one step towards the root |
| HungarianInvariant.Certified | src/amr_fleet/amr_fleet/allocation.py:249-249 | after the last row the potentials are a dual certificate of the matching |
| Assignment.CertifiedBelow | src/amr_fleet/amr_fleet/allocation.py:195-249 | a matching with a dual certificate costs no more than any other assignment (linear programming duality for the rectangular problem) |
| Assignment.TransposeOptimal | src/amr_fleet/amr_fleet/allocation.py:205-207 | an optimal assignment of the transposed matrix, swapped back, is optimal |
| BruteForce.BruteForceAssignment | src/amr_fleet/amr_fleet/allocation.py:252-266 | trying all permutations returns an assignment of least total cost |
| BruteForce.AsColumns | src/amr_fleet/amr_fleet/allocation.py:258-261 | every assignment is one of the permutations tried, at the same cost |
| BruteForce.CrossCheck | src/amr_fleet/test/test_allocation.py:112-122 | on every matrix the solver and the exhaustive reference have the same least cost |
| Allocation.SelectBatch | src/amr_fleet/amr_fleet/allocation.py:269-293 | the batch is exactly the tasks, in scheduler order, that are not blocked (pinned to a robot that is not free or that an earlier chosen task has), from the front until the limit is reached |
| Allocation.AssignGreedily | src/amr_fleet/amr_fleet/allocation.py:123-152 | each task in turn gets the nearest (or the least loaded, then nearest) robot no earlier task has; as many tasks as possible are served |
| Allocation.BestFirst | src/amr_fleet/amr_fleet/allocation.py:123-152 | no robot left is less loaded than the one chosen, where load counts, or at the same load nearer, or at the same distance of smaller id |
| Allocation.AssignOptimally | src/amr_fleet/amr_fleet/allocation.py:155-179 | the tasks are paired with robots at the least total travel time |
| Allocation.Allocate | src/amr_fleet/amr_fleet/allocation.py:296-325 | one robot per task and one task per robot, only available robots, pinned tasks only on their robots and first come first served, unpinned ones as the strategy plans until robots run out |
| Allocation.AllServed | src/amr_fleet/amr_fleet/allocation.py:269-325 | if the limit is at most the number of free robots, every task of the batch is given to a robot |
| Allocation.IdleOnlyIfServed | src/amr_fleet/amr_fleet/allocation.py:269-325 | under the default limit a free robot is left idle only if every unpinned task is served and, for each free robot tasks are pinned to, one of them |
| YieldPocket.FindYieldPocket | src/amr_fleet/amr_fleet/traffic_resolution.py:276-366 | nothing is returned exactly if the start is off the grid or no place to stop can be reached; otherwise a reachable place of least route cost, ties by column and row, with a route of exactly that cost and the pocket last listed there |
| YieldPocket.GoalsAre | src/amr_fleet/amr_fleet/traffic_resolution.py:314-321 | the search may end exactly at the usable pockets listed, or, if none of them is usable and that is allowed, at any cell that is not forbidden and, unless as a last resort, outside the zones |
| YieldPocket.Search | src/amr_fleet/amr_fleet/traffic_resolution.py:325-366 | the lazy-deletion search with early exit ends and answers exactly that |
| YieldPocket.Take | src/amr_fleet/amr_fleet/traffic_resolution.py:344-356 | expanding the least queued cell keeps the invariant: its distance is final |
| YieldPocket.Improve | src/amr_fleet/amr_fleet/traffic_resolution.py:356-365 | a cheaper way to a neighbour keeps the invariant; the old queue entry becomes stale |
| YieldPocket.Arrived | src/amr_fleet/amr_fleet/traffic_resolution.py:344-355 | the first goal taken from the heap is a nearest goal |
| YieldPocket.NothingLeft | src/amr_fleet/amr_fleet/traffic_resolution.py:344-366 | an empty heap means that no goal is reachable |
| ZoneTokens.ZoneTokenManager.Update | src/amr_fleet/amr_fleet/traffic_zones.py:548-657 | the five phases in place compute exactly the specified cycle; every requesting robot gets a decision, granted exactly if it now holds all known zones it asked for; of the needing robots one is granted exactly if no robot that precedes it has, against its direction, or keeps as a starved one, a zone it needs; a refusal names exactly who blocks it, how long the robot has waited, and its count with the overtakings of this cycle |
| GrantOrder.KeysPrecede | src/amr_fleet/amr_fleet/traffic_zones.py:605-611 | the sort keys order robots as they precede each other: starved ones first, among them by waiting time, priority, deadline (none last), arrival and id; the others by priority, deadline, waiting time, arrival and id |
| GrantOrder.ServedByClaims | src/amr_fleet/amr_fleet/traffic_zones.py:605-616 | the needing robots are served each once, in the one order in which each precedes the next |
| GrantOrder.OutcomeFair | src/amr_fleet/amr_fleet/traffic_zones.py:613-636 | a robot is granted its zones exactly if every one is passable past those who held it before and the preceding robots granted it, and no preceding starved robot needs it in vain; a refused one is told exactly who blocks it |
| GrantOrder.FairlyOnce | src/amr_fleet/amr_fleet/traffic_zones.py:613-636 | no other set of grants has that property |
| GrantOrder.FirstGetsIt | src/amr_fleet/amr_fleet/traffic_zones.py:605-636 | of robots that each need nothing but one exclusive zone nobody has, the one that precedes all others is granted it, alone |
| GrantOrder.GrantsHeld | src/amr_fleet/amr_fleet/traffic_zones.py:626-630 | afterwards a zone is held, in the direction asked for, by those who held it or were granted it |
| TokenPhases.GivenBack | src/amr_fleet/amr_fleet/traffic_zones.py:560-570 | a slot is given back exactly if its robot is not frozen, is seen outside, and has entered it or no longer comes by |
| TokenPhases.BodiesRegistered | src/amr_fleet/amr_fleet/traffic_zones.py:571-586 | every body in a known zone has its slot afterwards, in the direction seen or asked for, unless somebody there goes another way; nothing else is taken |
| TokenPhases.WaitsExactly | src/amr_fleet/amr_fleet/traffic_zones.py:587-603 | exactly the needing robots wait; who still asks for a zone it waited for keeps its time, number and count, the others begin now with numbers of their own |
| TokenSafety.UpdatedValid | src/amr_fleet/amr_fleet/traffic_zones.py:548-657 | every cycle keeps exclusion (two holders of a zone go the same way through a zone that allows it) and entered slots within held ones |
| TokenRuns.AlwaysValid | src/amr_fleet/amr_fleet/traffic_zones.py:480-657 | so does every run of cycles with reservations, forgotten robots and new zones between them |
| TokenRuns.StepFine | src/amr_fleet/amr_fleet/traffic_zones.py:480-532 | a step between two cycles keeps exclusion exactly if it does not withdraw the sharing of a zone that is shared at that moment |
| TokenSafety.OnlyReleased | src/amr_fleet/amr_fleet/traffic_zones.py:560-570 | a slot is given up only by a robot that is not frozen, is seen outside the zone, and has entered it before or no longer has it on its way |
| TokenSafety.OccupiedStays | src/amr_fleet/amr_fleet/traffic_zones.py:560-570 | a body in a zone it holds, or a frozen robot, keeps the token |
| TokenSafety.AllOrNothing | src/amr_fleet/amr_fleet/traffic_zones.py:605-636 | a robot is granted all the zones it needs or nothing of its changes |
| TokenSafety.ReservedValid | src/amr_fleet/amr_fleet/traffic_zones.py:508-525 | an immediate reservation takes all zones asked for or none, succeeds exactly if all are compatible, and keeps exclusion |
| TokenSafety.ForgottenValid | src/amr_fleet/amr_fleet/traffic_zones.py:527-532 | forgetting a robot drops exactly its slots |
| TokenSafety.RezonedValid | src/amr_fleet/amr_fleet/traffic_zones.py:480-485 | replacing the zones keeps exclusion exactly if every zone shared at that moment may still be shared |
| TokenRuns.PhysicalExclusion | src/amr_fleet/amr_fleet/traffic_zones.py:480-657 | over every such run, if robots enter only zones they hold, two bodies are in one zone only if it may be shared and both hold it in directions at most the allowed angle apart |
| Overtaking.StarvedProtected | src/amr_fleet/amr_fleet/traffic_zones.py:605-636 | no robot that asked strictly later than a starved one left waiting is granted a zone the starved one needs |
| Overtaking.PassingSplit | src/amr_fleet/amr_fleet/traffic_zones.py:605-647 | every grant that passes a waiting robot is an overtaking by a later one, or serves an earlier or simultaneous one, who then stops waiting |
| Overtaking.NextCycle | src/amr_fleet/amr_fleet/traffic_zones.py:587-647 | while a wait goes on, earlier waiters only leave and the count grows by exactly the overtakers, whatever is reserved, forgotten and rezoned between the cycles |
| Overtaking.OvertakenBound | src/amr_fleet/amr_fleet/traffic_zones.py:637-647 | one cycle that leaves a robot waiting keeps its count within max_bypass for one exclusive zone and max_bypass + n - 2 for chains |
| Overtaking.CountsStayBounded | src/amr_fleet/amr_fleet/traffic_zones.py:480-657 | over every run with at most n robots asking in a cycle no count of any waiting robot ever exceeds max_bypass + n - 2 (0 if max_bypass is 0) |
| Overtaking.RefusedBy | src/amr_fleet/amr_fleet/traffic_zones.py:616-636 | every robot refused in a cycle is told at least one robot, and only others that hold or have reserved what it needs |
| Overtaking.WholeWait | src/amr_fleet/amr_fleet/traffic_zones.py:22-30 | over a whole wait at most n - 1 grants of cycles to robots that asked no later, and the overtakings, pass a robot; for one exclusive zone its count stays within max_bypass throughout |
| Overtaking.AdvertisedBound | src/amr_fleet/amr_fleet/traffic_zones.py:22-30 | counting the grants of cycles, the documented bound max_bypass + (n - 1) holds for a single exclusive zone, between two robots, and with max_bypass = 0 |
| OvertakingWorst.Cycle | src/amr_fleet/amr_fleet/traffic_zones.py:548-657 | one whole cycle of the worst run, from the release to the count, for every number of robots |
| OvertakingWorst.JumpSteps | src/amr_fleet/amr_fleet/traffic_zones.py:508-532 | an immediate reservation gives another robot a zone that a waiting robot asked for before, whatever its claim, and leaves all else as it was |
| OvertakingWorst.WorstRunPasses | src/amr_fleet/amr_fleet/traffic_zones.py:22-30 | for every number n of robots from two on, every max_bypass and every number r of reservations a run from an empty table in which one robot that needs a chain is passed as often as the bound on waits allows: max_bypass + 2n - 3 + r times, or n - 1 + r times if max_bypass is 0 |
| OvertakingWorst.LeastBound | src/amr_fleet/amr_fleet/traffic_zones.py:22-30 | so that number is the least bound on grants and reservations that pass a waiting robot, over all runs with at most n robots asking and at most r reservations |
| OvertakingWorst.AdvertisedExactly | src/amr_fleet/amr_fleet/traffic_zones.py:22-30 | for two or more robots the documented bound max_bypass + (n - 1) holds over all these runs exactly if there are no reservations and n is two or max_bypass is 0 |
| RequestChains.RequestChain | src/amr_fleet/amr_fleet/traffic_zones.py:396-426 | nothing is asked for exactly if no visit is ahead, the first is too far, or the robot stands in another zone that is not close enough to it; otherwise the longest run of visits without a wide gap, every zone once |
| RequestChains.Asked | src/amr_fleet/amr_fleet/traffic_zones.py:422-426 | every zone of the run is asked for, none twice, each by its first visit and in the order of the route |
| RequestChains.OnlyChain | src/amr_fleet/amr_fleet/traffic_zones.py:407-426 | there is one such list only, and it holds only visits that have not begun |
| Ladder.StepOneSound | src/amr_fleet/amr_fleet/traffic_resolution.py:702-743 | one cycle of an open incident leaves it open with exactly one of place to give way and mask, as its strategy says, and younger than the limit; or ends its story |
| Ladder.StartYieldSound | src/amr_fleet/amr_fleet/traffic_resolution.py:828-861 | letting the victim give way: the recursion through the ladder ends, tries go through the victims in order, none twice, and the events continue the incident's story |
| Ladder.StartAltSound | src/amr_fleet/amr_fleet/traffic_resolution.py:863-893 | sending the victim around: the same |
| Ladder.NextVictimSound | src/amr_fleet/amr_fleet/traffic_resolution.py:895-926 | taking the next victim, or waiting longer with the only one: the same |
| LadderChoices.StepOneChooses | src/amr_fleet/amr_fleet/traffic_resolution.py:702-743 | what one cycle makes of an open incident, by what is seen: given up exactly if too old; resolved exactly if the others have passed the victim that gives way and it may be released, or the victim's plan is clear and the others are through (the victim itself if there are none); sent on exactly if its measure has failed for long enough; otherwise victim, place and mask stay |
| LadderChoices.StartYieldChooses | src/amr_fleet/amr_fleet/traffic_resolution.py:828-861 | the ladder chooses the first victim that can give way (inside a zone only if nowhere else) or else go around, gives up exactly if there is none, and notes and tells exactly what it tried |
| LadderChoices.StartAltChooses | src/amr_fleet/amr_fleet/traffic_resolution.py:863-893 | sending the victim around succeeds exactly if a mask leaves it a route; otherwise the choice is among the later victims |
| LadderChoices.NextVictimChooses | src/amr_fleet/amr_fleet/traffic_resolution.py:895-926 | the choice among the later victims; the only victim is tried again exactly if its planner still finds new ways and time is left |
| IncidentCycles.ResolvedExactly | src/amr_fleet/amr_fleet/traffic_resolution.py:690-743 | over a cycle of the whole table an incident is reported resolved exactly if it is over by what is seen of it, and given up for age exactly if it is too old; either way it is closed |
| IncidentCycles.StepAllGone | src/amr_fleet/amr_fleet/traffic_resolution.py:690-700 | every open incident goes through its cycle once, choosing among places the others do not use, with the ones before it already stepped |
| IncidentCycles.OpenOneOpens | src/amr_fleet/amr_fleet/traffic_resolution.py:655-687 | opening reports the deadlock under the next id; it is given up at once exactly without a movable robot, after too many tries of one of its robots, or if no victim is of use, otherwise open with the first useful victim from the least important on; each robot has one try more |
| IncidentCycles.TriesExactly | src/amr_fleet/amr_fleet/traffic_resolution.py:633-639 | a robot's tries are forgotten in a cycle exactly if it came clearly nearer to its goal or its incident failed |
| IncidentCycles.CoolsDown | src/amr_fleet/amr_fleet/traffic_resolution.py:940-948 | a failed set of robots cools down for the configured time, and without end if one of them cannot move |
| IncidentCycles.TakenUpAgain | src/amr_fleet/amr_fleet/traffic_resolution.py:693-696 | until one that could not move can, or is gone |
| Incidents.VictimsDescend | src/amr_fleet/amr_fleet/traffic_resolution.py:660-663 | the victims are the movable robots from the least important to the most important, each once |
| Incidents.OpenKeeps | src/amr_fleet/amr_fleet/traffic_resolution.py:655-687 | opening tells the story from the deadlock on, keeps the table valid and the tries of every robot within their limit; no robot is bound twice afterwards exactly if none was before and the new robots are free, or the incident ends at once |
| Incidents.StepAllKeeps | src/amr_fleet/amr_fleet/traffic_resolution.py:690-700 | a cycle over all incidents tells every story on as DEADLOCK ESCALATED* (RESOLVED or UNRESOLVED), with nothing after the end, binds no robot twice and leaves no incident older than the limit |
| Incidents.NoCommandLost | src/amr_fleet/amr_fleet/traffic_resolution.py:641-652 | with no robot bound twice every open incident's command reaches its victim |
| Incidents.CommandsComeFrom | src/amr_fleet/amr_fleet/traffic_resolution.py:641-652 | every command is that of an open incident for its victim |
| IncidentManaging.IncidentManager.Open | src/amr_fleet/amr_fleet/traffic_resolution.py:655-687 | the object opens an incident as specified: reported under the next id, open or its end reported, with its log of events valid |
| IncidentManaging.IncidentManager.Step | src/amr_fleet/amr_fleet/traffic_resolution.py:690-700 | the object takes every open incident through its cycle as what is seen of it says, and keeps them apart |
| IncidentManaging.IncidentManager.Finish | src/amr_fleet/amr_fleet/traffic_resolution.py:929-955 | closing removes the incident, starts the cool-down of its robots (without end if one of them cannot move) and forgets their tries |
| IncidentManaging.IncidentManager.Commands | src/amr_fleet/amr_fleet/traffic_resolution.py:641-652 | the command table, complete if no robot is bound twice |
| TrafficCycle.Cycle | src/amr_fleet/amr_fleet/traffic_manager.py:559-610 | one cycle from stepping the incidents to opening new ones: every incident is stepped, waits are exactly those there should be, exactly the eligible deadlocks that are ripe are opened, each under its own id with its event and its incident open or its end reported, then those for robots held up and for stalled groups; whatever is seen, no robot is bound twice afterwards, nobody gives way in a circle, and every circle of waits contains a wait for a token or a body |
| TrafficCycle.Confirm | src/amr_fleet/amr_fleet/traffic_manager.py:593-597 | a deadlock is confirmed in a cycle exactly if it is a component of free robots that does not cool down and is ripe exactly now; the confirmer remembers exactly the eligible ones |
| TrafficCycle.Waits | src/amr_fleet/amr_fleet/traffic_manager.py:559-592 | the open incidents are stepped, right of way at crossings is settled among robots no incident binds and no token keeps, and the graph has exactly the waits of that picture |
| TrafficCycle.HeldUp | src/amr_fleet/amr_fleet/traffic_manager.py:957-963 | everybody with work that has stood long behind robots that will not make way is listed once, with all of these |
| Openings.OpenedInTurn | src/amr_fleet/amr_fleet/traffic_resolution.py:655-687 | of incidents opened one after the other each has its deadlock event, and is open with exactly its robots in the end or its end is reported |
| TrafficManaging.OpenAll | src/amr_fleet/amr_fleet/traffic_manager.py:597-610 | an incident is opened for each of the sets, in turn; being apart from each other and from open incidents, as confirmed deadlocks and groups are, they bind no robot twice |
| TrafficManaging.OpenBlocked | src/amr_fleet/amr_fleet/traffic_manager.py:956-969 | one is opened for every free robot held up, with the free robots that hold it up, exactly unless there are none or the set cools down |
| TrafficManaging.Gather | src/amr_fleet/amr_fleet/traffic_manager.py:971-980 | stalled robots are gathered into groups, each robot in exactly one: near somebody before it in its group, and near nobody before it in an earlier group |
| TrafficManaging.Eligible | src/amr_fleet/amr_fleet/traffic_manager.py:981-984 | the groups taken up are exactly those of two or more that do not cool down |
| TrafficManaging.OpenIncidents | src/amr_fleet/amr_fleet/traffic_manager.py:597-617 | incidents are opened for every confirmed deadlock, then for the robots held up, then for every stalled group worth it; no robot is bound twice afterwards and every story is told |
| Crossing.LeadsToTarget | src/amr_fleet/amr_fleet/traffic_manager.py:333-342 | following a chain of robots that give way ends on every chain and tells whether the target is reached |
| Crossing.NoCycleCloses | src/amr_fleet/amr_fleet/traffic_manager.py:793-799 | letting one more robot give way closes a circle exactly if the other already gives way to it along the chain |
| Crossing.CrossingKeeper.CrossingHolds | src/amr_fleet/amr_fleet/traffic_manager.py:755-802 | for every list of conflicts and every history nobody gives way in a circle; who gives way is in a conflict that applies, not pinned and within the time limit; every latch in force makes its robot give way, and in a conflict without one neither robot can, unless it already does or a circle would close; a latch stays exactly while its conflict applies and its robot is not pinned; new ones bind the less important robot unless it cannot be stopped |
| TrafficManaging.BuildWaitFor | src/amr_fleet/amr_fleet/traffic_manager.py:826-847 | the wait-for graph has exactly the waits for tokens, crossings and bodies, the latter of robots that nothing else holds; if giving way has no circle, every circle in it contains another wait |
| TrafficManaging.CycleHasOther | src/amr_fleet/amr_fleet/traffic_manager.py:826-847 | as crossing waits are acyclic, a cycle of waits mixes reasons |
| FleetManaging.FleetManager.AllocateRound | src/amr_fleet/amr_fleet/fleet_manager_node.py:641-653 | a round is a sequence of passes of which each but the last asked for another one; it ends if the backoff is positive, latency is simulated or no robot that is free to work is out of reach, and keeps the four tables in agreement; a request during a round only makes it start over |
| FleetManaging.FleetManager.AllocateOnce | src/amr_fleet/amr_fleet/fleet_manager_node.py:655-701 | whatever the backoff, one pass plans and calls as specified, keeps the tables in agreement, and asks for another pass exactly if a robot it called was out of reach |
| FleetManaging.FleetManager.CallAll | src/amr_fleet/amr_fleet/fleet_manager_node.py:676-718 | calling the planned robots changes the tables exactly as specified: who is reached has an open call, who is not is left alone for the backoff |
| Rounds.RoundEndsExactly | src/amr_fleet/amr_fleet/fleet_manager_node.py:641-718 | with a backoff of 0, no latency and the nearest or load-balancing strategy a round ends exactly if its first pass plans reachable robots only; otherwise every pass asks for another one |
| Restarts.MissesAgain | src/amr_fleet/amr_fleet/allocation.py:123-152 | an allocation of these strategies that gives a task to a robot out of reach does so again when it starts over with the tasks and robots left, under pins and any batch limit |
| Rounds.StuckRepeats | src/amr_fleet/amr_fleet/fleet_manager_node.py:641-718 | with a backoff of 0 a pass whose plan has only robots out of reach leaves candidates, queue, calls and possible plans exactly as they are and asks again, with every strategy |
| Rounds.EndsOrSticks | src/amr_fleet/amr_fleet/fleet_manager_node.py:641-718 | with every strategy and backoff a round of more passes than candidates has come to such a pass |
| Rounds.NeverEnds | src/amr_fleet/amr_fleet/fleet_manager_node.py:802-809 | the instance: one idle robot whose service is down and one waiting task; every pass asks for another one |
| Rounds.PassShrinks | src/amr_fleet/amr_fleet/fleet_manager_node.py:641-718 | a pass that asks again leaves fewer candidates if rounds end at all |
| FleetManaging.FleetManager.PlanRound | src/amr_fleet/amr_fleet/fleet_manager_node.py:655-674 | the plan is a batch and an allocation, as the strategy makes it, of waiting tasks that are not called, each for a robot of its own that is free to work, not called and not left alone |
| FleetManaging.FleetManager.Send | src/amr_fleet/amr_fleet/fleet_manager_node.py:707-718 | a call is sent once and noted, or given up if the robot's service is not there |
| FleetManaging.FleetManager.AbortDispatch | src/amr_fleet/amr_fleet/fleet_manager_node.py:802-809 | giving up a call frees the robot's entry, leaves the robot alone for the backoff and allocates again |
| FleetManaging.FleetManager.Admit | src/amr_fleet/amr_fleet/fleet_manager_node.py:410-429 | a task is taken in exactly if its id is new and the robot it names is known |
| FleetManaging.FleetManager.OnRobotStarted | src/amr_fleet/amr_fleet/fleet_manager_node.py:531-567 | a waiting task starts on a robot exactly if it is called for it, or is uncalled, was sent or pinned to it and the robot runs nothing; otherwise nothing changes |
| FleetManaging.FleetManager.OnRobotState | src/amr_fleet/amr_fleet/fleet_manager_node.py:451-489 | a robot's state starts the task it names under the same condition, without the pin |
| FleetManaging.FleetManager.OnTaskStatus | src/amr_fleet/amr_fleet/fleet_manager_node.py:503-529 | only reports of the robot that runs, or is called for, a task complete or fail it |
| FleetManaging.FleetManager.OnAssignResponse | src/amr_fleet/amr_fleet/fleet_manager_node.py:721-763 | the response of the current call starts the task, or gives it up and runs a round; a late one starts it only if the task may still start there |
| FleetManaging.FleetManager.CheckTimeout | src/amr_fleet/amr_fleet/fleet_manager_node.py:777-800 | a call replaced meanwhile, not due, or due but answered or not yet overdue by the robot's state is left alone, an unsent one given up, an unanswered one first held and given up only when the robot's later state does not name the task; giving up runs a round |
| FleetManaging.FleetManager.CheckDispatchTimeouts | src/amr_fleet/amr_fleet/fleet_manager_node.py:777-800 | after the sweep every call open at its start has been decided: no one that is to be given up is still open under its number and its robot is left alone, every newly unanswered one is held as such, all others are as they were; without one to give up nothing else changes |
| FleetManaging.FleetManager.OnAllocationTimer | src/amr_fleet/amr_fleet/fleet_manager_node.py:635-639 | the same, and then a round of allocation unless the batch window is open |
| FleetManaging.StartsExactly | src/amr_fleet/amr_fleet/fleet_manager_node.py:531-567 | a waiting task may start on a robot exactly if it is called for it, or nobody is, the robot was sent it or it is pinned to it, and the robot runs no task |
| FleetManaging.CandidatesExactly | src/amr_fleet/amr_fleet/fleet_manager_node.py:620-634 | the candidates are exactly the robots heard of lately, not lost, idle without a task, placed, not called and not left alone |
| FleetManaging.FleetManager.CheckLiveness | src/amr_fleet/amr_fleet/fleet_manager_node.py:837-853 | exactly the robots silent for too long become lost; each newly lost one has no call left, a task it ran has failed once and waits again if a retry is left, and no other record has changed |
| FleetManaging.FleetManager.OnStatusTimer | src/amr_fleet/amr_fleet/fleet_manager_node.py:874-900 | after the sweep over silent robots exactly the tasks that have run longer than the task timeout, where there is one, fail, and nothing else changes |
| FleetManaging.FleetManager.FailTask | src/amr_fleet/amr_fleet/fleet_manager_node.py:601-617 | failing clears call and queue entry and puts the task back exactly if a retry is left |
| Rounds.TakenInWaits | src/amr_fleet/amr_fleet/fleet_manager_node.py:410-429 | a task taken in waits to be called, for the robot it names if any, and the others wait as before |
| FleetManaging.LeftAloneExactly | src/amr_fleet/amr_fleet/fleet_manager_node.py:620-634 | a robot whose call was given up can be called again exactly when the backoff is over and it is free to work |
| Calls.CallMade | src/amr_fleet/amr_fleet/fleet_manager_node.py:676-718 | a call that was made is due once delay and timeout are over, and is then given up at once exactly if it was delayed or lost and never sent; what is sent is remembered with its time |
| Dispatch.RetriedLikeNew | src/amr_fleet/amr_fleet/task_state.py:248-269 | a failed task with a retry left is as one just taken in, but for the attempts and failures counted |
| Dispatch.FailedForGood | src/amr_fleet/amr_fleet/task_state.py:248-257 | without one it is gone from everything but the records |
| Dispatch.StartRemembers | src/amr_fleet/amr_fleet/task_state.py:219-236 | a start notes the time the task was sent to the robot that starts it, whoever else it was sent to |
| Dispatch.FailedOnceOk | src/amr_fleet/amr_fleet/task_state.py:248-257 | failing a waiting or running task keeps queue = pending tasks, calls only for waiting tasks, calls and robots naming each other |
| Dispatch.StartedOk | src/amr_fleet/amr_fleet/task_state.py:219-236 | so does starting an uncalled waiting task |
| Dispatch.CalledOk | src/amr_fleet/amr_fleet/fleet_manager_node.py:676-701 | so does calling a free robot for an uncalled waiting task |
| Dispatch.RetriedOk | src/amr_fleet/amr_fleet/task_state.py:259-269 | so does a retry |
| FleetManaging.HistoryLegal | src/amr_fleet/amr_fleet/task_state.py:208-279 | in the manager's own events, whatever handlers ran, no task's life is illegal, no task is retried more than max_retries times, between two starts of a task lies a retry, and a running task is ended by the robot that started it last |
| TaskLife.RetriesBounded | src/amr_fleet/amr_fleet/task_state.py:259-279 | in a legal history a task is retried at most max_retries times and fails at most once more |
| TaskLife.OwnerChangesByRetry | src/amr_fleet/amr_fleet/task_state.py:219-269 | in a legal history the owner of a running task changes only through FAILED and back to PENDING |
| TaskLife.EndedByStarter | src/amr_fleet/amr_fleet/task_state.py:219-257 | in a legal history a running task is completed or failed by the robot that started it last |
| TaskLife.ToldOn | src/amr_fleet/amr_fleet/task_state.py:320-331 | a record changed along a legal transition keeps the event history and the records in agreement |
| Scheduler.OrderedRight | src/amr_fleet/amr_fleet/scheduler.py:95-109 | the order lists every waiting task once, by ascending sort key |
| Scheduler.OrderedByFields | src/amr_fleet/amr_fleet/scheduler.py:85-109 | a task comes before another exactly by higher band of its raised priority, then by having a deadline where deadlines count, then by weighted arrival and deadline, which do not depend on the time, then by arrival and id |
| Scheduler.EarliestDeadlineFirst | src/amr_fleet/amr_fleet/scheduler.py:95-105 | inside a band with pure deadline scoring the earlier deadline goes first and any deadline before none |
| Scheduler.AgedCatchesUp | src/amr_fleet/amr_fleet/scheduler.py:85-93 | a fully aged task is not in a lower band than a new one of a priority up to the ageing bound above its own |
| Chargers.ExecutorContext.SetChargers | src/amr_behavior/src/executor_context.cpp:489-500 | the preference is the charger list rotated to the robot's own index, also for negative indices |
| Chargers.ExecutorContext.SelectCharger | src/amr_behavior/src/executor_context.cpp:524-583 | keeps the claim while it is insisted on or has no rival, else takes the first preferred known charger without one, every one before it having a rival; announces exactly a changed claim |
| Chargers.NextMeaning | src/amr_behavior/src/executor_context.cpp:536-573 | in a round a claim stands exactly if it is the earliest of its charger; any other robot takes the first of its chargers nobody claims, or none if all are claimed |
| Chargers.WinnerForever | src/amr_behavior/src/executor_context.cpp:536-560 | through every run of rounds the earliest claimant of a charger (ties by id) keeps it |
| Chargers.LoserAvoidsClaimed | src/amr_behavior/src/executor_context.cpp:560-573 | a robot without a standing claim never moves to a charger it sees claimed |
| Chargers.ConflictCost | src/amr_behavior/src/executor_context.cpp:524-583 | a conflict after k rounds means that at least k chargers are claimed |
| Chargers.Settled | src/amr_behavior/src/task_executor_node.cpp:379-407 | with m chargers, from round m + 1 on no charger is claimed twice, nothing changes any more, and a robot is without one only if all are claimed |
| Kidnap.HandleFair | src/amr_localization/amr_localization/kidnap_detector.py:363-604 | every event keeps: lost exactly in RECOVERING or FAILED, a spin outstanding whenever recovery can go on, re-initializations within budget; the actions published say exactly that |
| Kidnap.Always | src/amr_localization/amr_localization/kidnap_detector.py:225-734 | after every run of events the last published lost flag is the state's, a due spin is outstanding, and the re-initializations since the loss or the last comeback of the backend are at most max(1, reinit_retry) |
| Kidnap.NoteSpinAvailableSafe | src/amr_localization/amr_localization/kidnap_detector.py:435-454 | reporting a way to turn without starting a spin keeps the recovery from going silent exactly if no spin was due |
| Kidnap.SpinDoneCounts | src/amr_localization/amr_localization/kidnap_detector.py:565-587 | every finished spin uses up exactly one of the tries left; with none left the recovery fails |
| Kidnap.TriesAreSpent | src/amr_localization/amr_localization/kidnap_detector.py:565-587 | while it recovers the robot has spun in vain exactly as often as its tries have gone down |
| Kidnap.FailsExactly | src/amr_localization/amr_localization/kidnap_detector.py:565-604 | recovery is given up exactly when a spin ends with no try left or at a tick after the timeout, never while backend or way to turn is missing |
| KidnapCauses.EventTurns | src/amr_localization/amr_localization/kidnap_detector.py:456-646 | a robot becomes lost exactly by an alarm at an evaluation or tick once the suspicion has lasted, or by markers that differ for long enough without the scan matcher contradicting; suspicion begins and ends exactly by its causes; a lost robot is found exactly when enough evaluations in a row agree, all told by the sensor readings |
| KidnapCauses.EventRemembers | src/amr_localization/amr_localization/kidnap_detector.py:330-646 | every event leaves in memory exactly what it reports (last pose and fit, bad fits in a row, newest matcher results, marker differences, cool-down and trust), and a loss, a find or a pose from outside forgets what belongs to the old pose |
| KidnapCauses.EventActs | src/amr_localization/amr_localization/kidnap_detector.py:363-604 | every event leads to exactly the actions its cause calls for, and changes the budget of spins and re-initializations accordingly |
| KidnapCauses.EventWaits | src/amr_localization/amr_localization/kidnap_detector.py:363-454 | time without a way to turn does not count for the recovery; a failed recovery starts again only when the backend comes back |
| KidnapCauses.LossHasCause | src/amr_localization/amr_localization/kidnap_detector.py:456-646 | over every run a lost robot lost its way at one event for one of the two causes and has been lost ever since |
| KidnapCauses.AlarmLasted | src/amr_localization/amr_localization/kidnap_detector.py:592-632 | a robot lost by an alarm came under suspicion at least suspect_time before, and was suspect throughout, without a pose from outside |
| KidnapCauses.FoundExactly | src/amr_localization/amr_localization/kidnap_detector.py:607-646 | over every run a lost robot is found by an event exactly if that is an evaluation and the last converge_count evaluations have agreed |
| KidnapCauses.StepReportsBack | src/amr_localization/amr_localization/kidnap_monitor_node.py:443-465 | starting a spin reports back whether there is anything to turn with, and changes nothing else |
| KidnapDetecting.KidnapDetector.OnSpinEnded | src/amr_localization/amr_localization/kidnap_detector.py:565-587 | the object does what the event does, and so for each of its handlers what its causes call for |
| KidnapDetecting.KidnapDetector.SetBackendReady | src/amr_localization/amr_localization/kidnap_detector.py:363-402 | the same, restarting the recovery on a comeback |
| KidnapDetecting.KidnapDetector.SetSpinReady | src/amr_localization/amr_localization/kidnap_detector.py:404-433 | the same, restarting the spin without spending a try |
| KidnapDetecting.KidnapDetector.OnMarker | src/amr_localization/amr_localization/kidnap_detector.py:456-514 | the same for a pose from a marker |
| KidnapDetecting.KidnapDetector.EvaluateNow | src/amr_localization/amr_localization/kidnap_detector.py:607-632 | a suspicion starts exactly on an alarm or a jump outside the cool-down; once it has lasted it becomes a loss exactly if there is an alarm and ends otherwise; a recovery ends exactly with enough agreement in a row |
| Kidnap.StepKeeps | src/amr_localization/amr_localization/kidnap_monitor_node.py:443-465 | including what the monitor node reports back when it performs the spin |
| EventLog.SnapshotPlusEvents | src/amr_dashboard/amr_dashboard/state_store.py:401-411 | replaying the events numbered S + 1 to T onto the view after S gives the view after T |
| EventLog.HistoriesAreNewest | src/amr_dashboard/amr_dashboard/state_store.py:242-262 | the bounded alert and task histories are exactly the newest entries of the full ones, and the task table the most recently updated tasks with their last event |
| EventLog.LastIsShown | src/amr_dashboard/amr_dashboard/state_store.py:226-326 | status, map, stops and request shown are those of the last event about them, the world that of the last map with a size, and what was shown before if there was none |
| EventLog.RobotsInOrder | src/amr_dashboard/amr_dashboard/state_store.py:226-241 | the robots listed are those known before and all reported with a usable id since, in the order of their first report |
| EventLog.TouchNewest | src/amr_dashboard/amr_dashboard/state_store.py:256-260 | dropping the oldest tasks at every update is the same as dropping them once at the end |
| StateStoring.PushOk | src/amr_dashboard/amr_dashboard/state_store.py:436-459 | publishing keeps every queue a block of events ending at the newest; what was read, lost and waits adds up to all events since the snapshot |
| StateStoring.LostExactly | src/amr_dashboard/amr_dashboard/state_store.py:436-459 | an event is lost exactly if the queue was full and its reader did not empty it meanwhile; the new event always waits |
| StateStoring.GapsShowLosses | src/amr_dashboard/amr_dashboard/state_store.py:436-459 | a reader that has caught up sees a gap in the numbers exactly if events were lost, and every loss is counted |
| StateStoring.ReaderAgrees | src/amr_dashboard/amr_dashboard/state_store.py:401-411 | a reader that lost nothing shows exactly the store's view at the last event it has read |
| StateStoring.StateStore.Publish | src/amr_dashboard/amr_dashboard/state_store.py:436-459 | the event gets the next number and goes to every subscriber, whatever readers take meanwhile |
| StateStoring.StateStore.AddTaskEvent | src/amr_dashboard/amr_dashboard/state_store.py:252-262 | the store's view stays the replay of its events |
| StateStoring.StateStore.SetEstop | src/amr_dashboard/amr_dashboard/state_store.py:284-309 | the same; a release shows free all but what is still latched |
| StateStoring.EstopTableMeans | src/amr_dashboard/amr_dashboard/state_store.py:284-309 | stopping shows the target stopped and nothing else changes; releasing the fleet shows exactly the robots still latched as stopped; releasing a robot shows it stopped exactly if it is still latched |
| StateStoring.StateStore.SubscribeWithSnapshot | src/amr_dashboard/amr_dashboard/state_store.py:401-411 | a new subscriber starts from the view after all events so far and gets exactly the later ones |
| EstopDesk.ShowOk | src/amr_dashboard/amr_dashboard/state_store.py:284-309 | showing the latest release keeps that a once stopped target is shown free only if a later release freed it, false is the last value published to it, and in that release its value was published and its reset neither failed nor went unanswered |
| EstopDesk.LatchedAreHeld | src/amr_dashboard/amr_dashboard/estop.py:76-84 | robots count as latched exactly if their value was not published, their reset failed, timed out or is outstanding, or nobody was there to reset where an acknowledgement is wanted |
| EstopDesk.SendOk | src/amr_dashboard/amr_dashboard/dashboard_node.py:216-254 | publishing a release makes its values the last ones, after every activation so far |
| EstopDesk.Desk.FinishRelease | src/amr_dashboard/amr_dashboard/web_app.py:174-184 | a release that waited is shown exactly if no other operation began meanwhile, so it never clears a later activation; results are shown in the order the operations began |
| EstopDesk.Desk.BeginRelease | src/amr_dashboard/amr_dashboard/web_app.py:164-173 | a robot is not released while the fleet is shown stopped; the result is shown at once exactly if no reset is outstanding |
| EstopDesk.Desk.Activate | src/amr_dashboard/amr_dashboard/web_app.py:164-173 | an activation is shown at once |
| EstopDesk.Desk.EndWait | src/amr_dashboard/amr_dashboard/estop.py:63-84 | resets that are not answered in time count as latched, the others keep their answer |
| GridLookup.FastIsSlow | src/amr_localization/amr_localization/global_seed.py:85-117 | for a robot in the middle of any cell and any beam not longer than the border is made for, the integer-offset lookup stays inside the array and its row and reads what the map lookup reads at the endpoint, on the map or off it |
| GridLookup.EndCell | src/amr_localization/amr_localization/global_seed.py:110-117 | the endpoint's cell is the robot's cell moved by the rounded offsets, for every heading of robot and map |
| GridLookup.SlowReads | src/amr_localization/amr_localization/scan_map_match.py:60-72 | the map lookup reads the cell of the point, and the largest distance off the map |
| GridLookup.Border | src/amr_localization/amr_localization/global_seed.py:94-103 | the flat array holds the field inside a border of the largest distance |
| GridLookup.OffsetBound | src/amr_localization/amr_localization/global_seed.py:94-103 | the border is wide enough for every beam in every direction |
| DelayQueues.DelayQueue.Push | src/amr_fleet/amr_fleet/latency.py:121-128 | a message is held until its delay is over and its link is free; nothing else changes |
| DelayQueues.DelayQueue.PopReady | src/amr_fleet/amr_fleet/latency.py:130-135 | everything due leaves in order and nothing early; every message pushed waits or has left exactly once |
| DelayQueues.PopKeeps | src/amr_fleet/amr_fleet/latency.py:104-144 | for every interleaving messages of one link leave in the order they were pushed |
| DelayQueues.NeverLater | src/amr_fleet/amr_fleet/latency.py:121-128 | for every queue, whatever was pushed and taken out: with push times that do not go back and delays of at most D no message is released before its push or more than D after it |
| DelayQueues.TimedOn | src/amr_fleet/amr_fleet/latency.py:121-128 | each message is released when it or one pushed before it on its link is due, and never before it is due itself |

## Left out

- The scipy branch of the solver, distance transforms, polygon and trajectory geometry: library code; its results are inputs or the pure solver is modelled instead.
- Floating-point rounding: reals are exact, the search tolerance of 1e-12 is zero, and infinite slack is a separate constructor.
- Iteration orders of dictionaries and sets where the result does not depend on them: loops go over ascending ids or any order.
- Duplicate robots or tasks in one list: the callers pass every id once, so lists are sets or lists of different ids.
- Local lists and dictionaries of the algorithms (search stacks, potentials, heaps) are values in local variables of methods, not arrays on the heap.
- Incident objects and signals of the recovery monitor are values replaced in their table, not objects updated field by field.
- Ladder.StepOneSound: what "passed", "can be released" and "plan avoids the mask" mean geometrically, because they are inputs; keepout masks and pockets are opaque values.
- Zone derivation from maps, spacing checks and layout files: geometry and configuration.
- The observe mode, stale-view handling, stall detector, token watch and command composition of the traffic manager.
- FleetManaging.FleetManager.AllocateRound: with a backoff of 0, no latency and a robot free to work out of reach the handlers that allocate are not specified, because their round may not end; `AllocateOnce` and `Rounds` say what each of its passes does.
- Rounds.RoundEndsExactly: for the optimal strategy a restarted round may choose other robots where totals tie; `StuckRepeats` and `EndsOrSticks` hold for it too.
- Chargers.Settled: the claims are delivered in rounds, every robot having heard all current claims; lost heartbeats, expiry of claims between rounds and robots that insist on their claim are in the method contracts only.
- KPI, log files, alerts, distance integration, deadline alerts and parameter changes at run time of the fleet manager; exceptions swallowed by its guards.
- Robot discovery messages and regular-expression or JSON decoding of requests and claims: ids arrive already valid.
- Scheduler: the table of the scheduler is the queue of the fleet manager; overdue listings are left out.
- Kidnap: log texts, counters of gate decisions, odometry interpolation and jump distances are inputs or left out; a registration window checked with no samples, where the code divides by zero, counts as no agreement.
- StateStoring.StateStore.UpdateStatus: message contents other than robot ids are opaque; map images, heartbeats and time stamps are left out.
- EstopDesk.Desk: the stand-alone mode without publishers, where a release for all resets nothing.
- GridLookup: non-finite coordinates, the choice of candidate cells, trimming and averaging of the scores read.
- DelayQueues.DelayQueue: clearing the queue; the heap of the library is an ordered list.
