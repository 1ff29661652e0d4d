# Verification of the MXTCE stitching and computation core

A Dafny model of five parts of the repository, with proofs of what they promise.
`dafny verify dfyconfig.toml` checks everything.

Each part has the same shape. Code that changes things in place is a class whose methods do what the
original does, step by step. Every such method is proved against a function on plain values, and what
the part is for is proved about those functions, for all inputs and over whole runs.

**Reservation time series** (`Segments`, `Bookings`, `Reservation`, `Scheduling`). A series of link deltas
is split, trimmed and filled in place. `Scheduling.AggregateDeltaSeries` is the list of deltas;
`Segments.Overlay` is what adding one delta makes of it, and `Segments.Load` reads it as bandwidth over
time. Adding is the pointwise sum (or maximum); removing never splits and is still right on every run
that removes what is live, in bandwidth and in what is booked at all. The exact condition for one removal to
be right is `RemovedExactlyWhen`.
`Reservation` has the deltas themselves with the assertions of the schedule classes as preconditions, and
their effect on a link.

**Stitching dependencies** (`Graph`, `Workflow`, `Merging`, `Forest`, `Combining`). Hops of a path are
ordered, the orderings are closed inside each aggregate, and the orderings of any number of paths are merged. `Workflow.Sound`
is the invariant: orderings stay inside the workflow, join different aggregates, are kept in both
directions with the same multiplicity, have no cycle, and the import flag tells which hops have lowers.
The recursive loop check ends because of it and decides reachability. `Workflow.DependsOn` says from the links
alone which of two neighbours depends on the other. Two different hops that cannot be
told apart by URN are excluded within one path; the aggregate is a function of the hop URN.

**Actions on the event loop** (`ActionTree`, `ActionLoop`, `Progress`, `Outcomes`, `Actions`). A worker runs a tree of
actions from two queues. `ActionLoop` is the transition system: one step is one pass of the loop, and what
an action's own code does (create children, expect messages, throw) is a choice. `Progress` shows that the
work comes to an end, and `Outcomes` how: an action that is over has failed exactly if it or one under it
threw. `Actions` has the objects, whose methods compute these steps.

**Message ports** (`Wakeup`, `MessagePorts`). The writer of a port puts itself on the write list of the
select loop when a message meets an empty queue. The invariant is that messages wait exactly where the
writer is registered, once. Which sockets are ready is a choice of every select.

**Multipoint hops** (`HopForest`, `Numbering`, `Roots`, `Regions`, `Chains`, `Multipoint`). A depth-first walk with visited flags
numbers the links of a multipoint topology and builds next-hop lists; a second recursion lists them. The
next-hop relation is a forest given by one parent number per hop. `Roots` follows how far the walk spreads
from one link before it comes back, which decides how many roots the forest gets, `Regions` which link
behind artificial nodes is the first, and `Chains` which link may follow which.

**Codec and tag sets** (`Octets`, `Codec`, `Requests`, `Receiving`, `RangeText`, `TagSets`). The request codec
over its growing buffer, with the integer and length forms of sections 8.3.2 and 8.1.3 of ITU-T X.690, and
the tag bitmap with its range text. Machine words are sequences of octets, on which shifts, masks and sign
extension are exact. Tag bytes are bit vectors.

Where the code and its comments differ, the code is followed. These properties turned out not to hold of
all inputs, and are proved with their exact conditions and an input that fails:

- removing a delta without splitting (`Segments.RemovedExactlyWhen`, `Segments.SplitNeeded`);
- the bandwidth of a request, which is cut to 32 bits and read back as signed
  (`Receiving.BandwidthRestoredExactlyWhen`, `Receiving.BandwidthLost`);
- the range text of VLAN sets that hold both 4094 and 4095 (`TagSets.TextRestoresExactlyWhen`,
  `TagSets.LastVlansLost`);
- the length of a request message, which the header holds in 16 bits: the decoder stops at the end of the
  section if and only if the body has fewer than 2^16 octets (`Receiving.StopsExactlyWhen`,
  `Receiving.LongRequestRunsOn`);
- the listing of multipoint hops, which leaves out everything behind a second root. In a topology of paired
  links it is complete if and only if the first real link that the walk finds from the front node leads back
  to every other real link that can be reached through artificial nodes only, by links not visited before
  (`Regions.ListedAll`). With real nodes around the front node this is so if and only if at most one link of
  the front node has a remote link, or the first that has one leads back to the front node without its own
  pair (`Roots.ListedWhole`). See `Multipoint.Traversal.TraverseMPVBGraph` and `Roots.TwoBranchesNotWhole`;
- joining any tag into a set of VLANs, which takes tags out of the bitmap instead of putting all in
  (`TagSets.AnyVlanLoses`).

## Model

| member | source | states |
|---|---|---|
| Segments.OverlayLoad | src/compute/scheduling.cc:115-170 | laying a delta over a sorted series changes the load at every instant by exactly that delta: sum (modulo 2^64) or maximum inside its window, nothing outside |
| Segments.OverlaySortedAll | src/compute/scheduling.cc:115-170 | the result is again sorted, disjoint and without empty segments |
| Segments.OverlayCovered | src/compute/scheduling.cc:115-170 | exactly the instants booked before and those of the delta are booked after |
| Segments.OverlayNoStraddle | src/compute/scheduling.cc:115-170 | an instant no segment straddles stays so unless the delta bridges it across a gap |
| Segments.OverlayCutsAtEnds | src/compute/scheduling.cc:115-170 | both ends of an added delta become instants no segment straddles |
| Segments.OverlayTags | src/compute/scheduling.cc:115-170 | the tags of an added delta are added inside its window, and no tag changes otherwise |
| Segments.OverlayTarget | src/compute/scheduling.cc:115-170 | what was booked keeps its target, and only gaps get the target of the delta |
| Segments.StripLoad | src/compute/scheduling.cc:175-186 | removal lowers the load exactly where a segment met by the window lies, sticking out or not |
| Segments.StripTags | src/compute/scheduling.cc:175-186 | removal takes the tags of the delta off the segments it meets, and all tags with those it drops |
| Segments.StripCovered | src/compute/scheduling.cc:175-186 | exactly the segments met that have no more bandwidth than the delta are dropped; what else was booked stays booked |
| Segments.RemovedExactlyWhen | src/compute/scheduling.cc:175-186 | removal without splitting lowers the load by exactly the delta if and only if the segments met lie inside its window and it is fully booked (or has no bandwidth) |
| Segments.SplitNeeded | src/compute/scheduling.cc:175-186 | a delta over half of a booked segment is not removed exactly |
| Bookings.AddKeepsConsistent | src/compute/scheduling.cc:99-171 | adding keeps load = sum of live deltas, live windows covered, live ends straddled by no segment |
| Bookings.LiveCanBeRemoved | src/compute/scheduling.cc:175-186 | a live delta meets the exact condition for removal without splitting |
| Bookings.RemoveKeepsConsistent | src/compute/scheduling.cc:175-186 | removing a live delta keeps the same invariant of the load, and its windows and ends |
| Bookings.EmptyConsistent | src/compute/scheduling.cc:99-106 | the invariant of these runs holds of an empty series |
| Bookings.RunKeepsConsistent | src/compute/scheduling.cc:99-186 | over any run of additions and removals of live deltas the load at every instant is the sum of the live deltas |
| Bookings.RemoveKeepsBooked | src/compute/scheduling.cc:175-186 | removing a live delta leaves booked exactly what the other live deltas, all with bandwidth, book |
| Bookings.RunKeepsBooked | src/compute/scheduling.cc:99-186 | after any run of additions with bandwidth and removals of live deltas an instant is booked if and only if a live delta is in force |
| Bookings.PeakOfRun | src/compute/scheduling.cc:79-186 | after any such run from nothing the series meets a window if and only if a live delta does, and has its peak there exactly where their sum has |
| Bookings.AddAllLoad | src/compute/scheduling.cc:99-171 | after adding any list of deltas the load is their sum modulo 2^64 at every instant |
| Bookings.PeakOfAdded | src/compute/scheduling.cc:79-171 | the peak of the series over a window is the peak of the summed deltas, and the series meets the window exactly when a delta does |
| Bookings.LargestIsPeak | src/compute/scheduling.cc:79-97 | the largest bandwidth among the segments that meet a window is the largest load in it |
| Bookings.LeastAvailability | src/compute/scheduling.cc:218-244 | the least availability over a window is the capacity less the peak, floored at zero |
| Reservation.CloneableWhen | src/resvManager/reservation.hh:52-71 | a window left by the setters passes the assertion of Clone exactly when its length is positive and no multiple of 2^32 seconds |
| Reservation.TLinkDelta.SetStartTime | src/resvManager/reservation.hh:104-111 | the start moves, the duration is the window length in 32 bits, and the assertion holds |
| Reservation.TLinkDelta.SetEndTime | src/resvManager/reservation.hh:113-120 | the end moves, the duration is the window length in 32 bits, and the assertion holds |
| Reservation.TLinkDelta.Clone | src/resvManager/reservation.cc:135-140 | a fresh delta with the same schedule, bandwidth, tags and target, not applied |
| Reservation.TLinkDelta.Combine | src/resvManager/reservation.cc:174-178 | bandwidths add up in 64 bits (lines 80-83), tags are united |
| Reservation.TLinkDelta.Decombine | src/resvManager/reservation.cc:181-185 | bandwidth is taken off, floored at zero (lines 86-92), and the tags are taken off |
| Reservation.TLinkDelta.Join | src/resvManager/reservation.cc:187-191 | the larger bandwidth (lines 94-98), tags united |
| Reservation.TLinkDelta.Apply | src/resvManager/reservation.cc:143-155 | all eight unreserved values (lines 45-60) and both tag sets of the link change once, however often it is called |
| Reservation.TLinkDelta.Revoke | src/resvManager/reservation.cc:158-170 | all eight values (lines 63-77, capped at the maximum) and both tag sets are given back once |
| Reservation.StepBalanced | src/resvManager/reservation.cc:143-170 | one Apply or Revoke keeps: unreserved = maximum less the applied total, tags moved by exactly the applied tags |
| Reservation.StartBalanced | src/resvManager/reservation.cc:143-170 | a link of which nothing is reserved is balanced with no delta applied |
| Reservation.RunBalanced | src/resvManager/reservation.cc:45-170 | the same after any interleaving of repeated Apply and Revoke calls |
| Reservation.RunInBounds | src/resvManager/reservation.cc:45-77 | in any run of Apply and Revoke calls, whether the deltas fit or not, the unreserved values stay between 0 and the maximum |
| Reservation.OverBooked | src/resvManager/reservation.cc:45-77 | a delta that asks for more than is left takes all of it, and gives back all it asked for |
| Scheduling.AggregateDeltaSeries.GetADSInWindow | src/compute/scheduling.cc:47-60 | the contact list has exactly the deltas that overlap the window, a contiguous stretch of the series in its order |
| Scheduling.AggregateDeltaSeries.Insert | src/compute/scheduling.cc:62-76 | a delta that fits a gap goes into that gap |
| Scheduling.AggregateDeltaSeries.JoinADSInWindow | src/compute/scheduling.cc:79-97 | null exactly when nothing meets the window, else a fresh delta with the peak load of the window, the tags of all that meet it, and the times and target of the first |
| Scheduling.AggregateDeltaSeries.AddDelta | src/compute/scheduling.cc:99-171 | the series becomes the old one overlaid with a copy of the delta, every setter assertion holds, and load and tags change by exactly the delta |
| Scheduling.AggregateDeltaSeries.RemoveDelta | src/compute/scheduling.cc:175-186 | of every segment met the bandwidth falls by that of the delta and its tags are taken off, what has none left is no longer booked, the others stay, nothing is split; the delta may itself be one of the series |
| Scheduling.BandwidthAvailabilityGraph.LoadADS | src/compute/scheduling.cc:218-244 | the steps drawn over whatever steps there were have value capacity less load, floored at zero, at every instant of the window, and end with a step to zero |
| Graph.AddEdgeAcyclic | src/geni/workflow.cc:41-53 | adding an edge keeps a graph acyclic if and only if its end does not lead back to its start |
| Graph.OnLineAcyclic | src/geni/workflow.cc:237-238 | while all edges join neighbours on a line, one way per pair, the graph has no cycle and a neighbour is reached backwards only by a direct edge |
| Graph.RootAbove | src/geni/workflow.cc:417-431 | every node of a finite acyclic graph is a root or is reached from one |
| Workflow.NothingSound | src/geni/workflow.hh:104-104 | a workflow without hops meets the invariant |
| Workflow.Dependency.Clone | src/geni/workflow.hh:79-88 | the copy has no orderings and does not import VLANs |
| Workflow.WorkflowData.CheckDependencyLoop | src/geni/workflow.cc:41-53 | ends, and is true exactly when the first hop can be reached from the second |
| Workflow.WorkflowData.CheckNeighbours | src/geni/workflow.cc:237-238 | during steps 1 to 3 the two loop checks on neighbours are true only if the direct ordering the other way exists |
| Workflow.WorkflowData.LoopFreeMerge | src/geni/workflow.cc:56-80 | keeps the invariant; every upper of the first hop becomes one of the second unless that would close a cycle; nothing else is added |
| Workflow.WorkflowData.LoadPath | src/geni/workflow.cc:82-104 | adds one hop without orderings per link, keeps the invariant and all orderings |
| Workflow.WorkflowData.OrderProducers | src/geni/workflow.cc:108-142 | step 1 orders each pair of neighbours as their capabilities say, consumer over producer |
| Workflow.WorkflowData.SameDomain | src/geni/workflow.cc:162-188 | the number of hops of an aggregate and the intersection of their VLAN ranges, which `PeersAre` reads tag by tag |
| Workflow.PeersAre | src/geni/workflow.cc:162-235 | the count is that of the hops with the aggregate URN, and a tag is in the range if and only if it is in every range of these hops that is not any (in that of the hop itself, if all are) |
| Workflow.OrderingTells | src/geni/workflow.cc:108-288 | the ordering made of two neighbours is the one their links tell: the only consumer of the two depends on the producer; else the only one that translates VLANs on the other; else, if none does, the one with fewer hops in its aggregate, or as many and more tags in common, or all that equal and earlier on the path |
| Workflow.WorkflowData.OrderVlans | src/geni/workflow.cc:144-288 | after steps 2 and 3 a hop is put below another if and only if the links tell so |
| Workflow.WorkflowData.CloseAggregates | src/geni/workflow.cc:304-320 | step 4 keeps the invariant and all orderings, gives every hop the uppers of the others in its aggregate or leaves one out only where it would close a cycle, and gives it no other upper |
| Workflow.WorkflowData.ComputeDependency | src/geni/workflow.cc:106-321 | the orderings are sound; of two neighbours in different aggregates the one that consumes what only the other produces, else the one that translates VLANs when the other does not, else the one whose aggregate has fewer hops or as many and more tags in common, has the other among its lowers, and not the other way; uppers are shared within aggregates, and every ordering is called for by two such neighbours, the lower of them or a hop of its aggregate |
| Workflow.OrdersNeighbours | src/geni/workflow.cc:236-287 | whatever the links tell of two neighbours is an ordering, and closing keeps it |
| Merging.FindOrCopy | src/geni/workflow.cc:329-343 | the hop of that URN, and nothing changes, or if there is none a fresh clone with the link of the added hop, appended to the workflow |
| Merging.AddUpper | src/geni/workflow.cc:345-378 | an upper relation is there afterwards, or the hops are led the other way already |
| Merging.AddLower | src/geni/workflow.cc:379-412 | a lower relation is there afterwards, or the hops are led the other way already |
| Merging.MergeDependencies | src/geni/workflow.cc:323-414 | soundness is kept; all old hops and orderings survive; every ordering is old or comes from the added path; every added hop is there; every added ordering is there or contradicted by a path the other way; every hop is old or a fresh copy with the URN, aggregate and link of an added one |
| Forest.UnfoldsContains | src/geni/workflow.cc:449-470 | the tree unfolded from a hop contains exactly that hop and what it leads to |
| Forest.DumpRecursive | src/geni/workflow.cc:449-470 | the recursion ends and unfolds the hop with its URN, aggregate and URL; a node imports VLANs exactly when it has lowers |
| Forest.GenerateXmlRpcData | src/geni/workflow.cc:417-431 | the trees start at exactly the roots, one tree each in the order of the hops, and every hop of the workflow is in some tree |
| Combining.LoadOrdered | src/geni/rspec.cc:1810-1812 | a path in a workflow of its own: one hop per link, neighbours ordered as the path tells, lowers shared in aggregates, nothing else ordered |
| Combining.ExtractWorkflow | src/geni/rspec.cc:1797-1820 | after any number of paths the orderings are sound and hop URNs unique; every hop of every path is there, every ordering of every path is met or contradicted by a path the other way, and no hop and no ordering is of none; the trees handed out have every hop, and every node of a tree has the aggregate and the URL of the link with its URN on the first path that has one |
| Combining.MergeWorkflows | src/geni/xmlrpc_apiserver.cc:235-245 | the same for the workflows of several requests, the names and URL being those of the first workflow with the hop |
| Combining.HoldsMore | src/geni/workflow.cc:323-414 | one more merge keeps all plans held |
| Combining.TreeGiven | src/geni/workflow.cc:449-470 | every node of a tree has the aggregate and URL of the hop with its URN in the first plan that has one |
| Combining.GivenOnPaths | src/geni/workflow.cc:82-104 | and so those of the link with its URN on the first path that has one |
| Combining.PathKept | src/geni/rspec.cc:1797-1820 | of each path: every link has its hop, and neighbours whose links call for it are ordered so, or led the other way |
| Combining.NothingElse | src/geni/rspec.cc:1797-1820 | every ordering of the result was called for by some path, between hops of the same URNs |
| ActionTree.CleanUpOk | src/compute/action.cc:247-267 | clean-up leaves everything below an action in order: over below what is over, finished below what finished, failures passed up |
| ActionTree.CleanUpKeeps | src/compute/action.cc:247-267 | clean-up changes no outcome below the action, and not its own if it was in order |
| ActionTree.OutcomeBelow | src/compute/action.cc:247-267 | below an action that is over everything is over; below a finished one everything is finished; a failure below makes it failed |
| ActionLoop.WaitSchedules | src/compute/action.cc:172-177 | Wait is one entry in the queue: the request to repeat forever does not survive the removal, so the loop does not schedule again |
| ActionLoop.CleanSound | src/compute/action.cc:247-267 | clean-up by a running action keeps the invariant of the loop |
| ActionLoop.WaitSound | src/compute/action.cc:172-177 | so does going to wait for messages or children |
| ActionLoop.ScheduleKidsRunning | src/compute/action.cc:88-90 | children are scheduled once each, and nothing else changes |
| ActionLoop.RunActionSound | src/compute/action.cc:42-169 | running an action in any state keeps the invariant |
| ActionLoop.LoopStepSound | src/common/event.cc:145-165 | one pass of the loop keeps: each action has at most one entry over both queues, is scheduled at most once, is processed at most once, waits in a queue until it is over, and outcomes are in order |
| ActionLoop.DeliverSound | src/compute/action.cc:240-243 | so does the arrival of an expected message |
| ActionLoop.LoopStepKept | src/compute/action.cc:42-169 | a pass leaves outcomes as they are, and Process runs only for an idle, never processed action under no action that is over |
| ActionLoop.StartSound | src/compute/action.hh:71-74 | a worker starts soundly with idle actions, the roots to be run in the priority queue |
| ActionLoop.RunKeeps | src/common/event.cc:145-165 | over any run outcomes are final and no Process runs twice |
| Outcomes.CleanUpEffects | src/compute/action.cc:247-267 | clean-up makes an action failed only if a child has failed, cancels only what is under the action cleaned up, and takes back no failure |
| Outcomes.TurnOutcome | src/compute/action.cc:42-169 | what a turn comes to: an exception of Process, of the message check or of the children check fails the action and leaves the loop exactly for a root; otherwise an idle action waits for messages if it expects any, else for its children if it has any, and else has finished; a waiting one goes on waiting while messages are missing or children are not over, and then has finished, or failed exactly if a child has |
| Outcomes.StepMoves | src/common/event.cc:145-165 | in one step an action fails only by its own exception or because a child has failed, is cancelled only under an action that threw, and the loop is left exactly for a root that threw |
| Outcomes.RunOutcomes | src/compute/action.cc:42-169 | over any run: an action that is over has failed if and only if it or an action under it threw; what is cancelled is under one that threw; the loop is left if and only if a root threw |
| Outcomes.NothingFails | src/compute/action.cc:42-169 | when nothing throws no action ever fails or is cancelled, and the loop is not left |
| Outcomes.AllFinish | src/common/event.cc:145-165 | and after enough quiet passes every scheduled action has finished |
| Outcomes.StillWaiting | src/compute/action.cc:240-243 | over any run: an action that waits for messages goes on waiting, unless it fails or is cancelled, until as many have arrived as it expects, each counted once |
| Outcomes.TurnOthers | src/compute/action.cc:42-169 | the turn of an action changes no message another one expects, and the state of another only by failure or cancelling |
| Progress.RunTurned | src/compute/action.cc:42-169 | an action that has its messages gets on in its turn unless it is over or its children are not, and then nothing else changes |
| Progress.PassMeasure | src/common/event.cc:145-165 | a pass that gets to the nice queue and creates nothing leaves less to do, or brings the last open action, which can get on, closer to its turn |
| Progress.OtherPassMeasure | src/common/event.cc:145-165 | a pass taken by another event sets nothing back |
| Progress.QuietRuns | src/compute/action.cc:240-243 | from any sound world there are such runs of any length, with every missing message delivered in time |
| Progress.ScheduleKidsInOrder | src/compute/action.cc:88-90 | children join the ends of their queues in the order in which they were added |
| Progress.RunEnds | src/common/event.cc:145-165 | once nothing is created and no turn finds a message missing, all scheduled actions, roots among them, are over after a number of served passes that depends only on how many actions there are, whatever passes come in between, unless a root's exception has left the loop; `Outcomes` says how they end |
| Actions.CleanUpAction | src/compute/action.cc:247-267 | the recursion over the objects computes the clean-up of the tree |
| Actions.EventMaster.Schedule | src/common/event.cc:74-79 | one more entry in the queue of the action's type |
| Actions.EventMaster.Remove | src/common/event.cc:116-142 | no entry is left in the queue of the action's type, and it does not repeat |
| Actions.EventMaster.Wait | src/compute/action.cc:172-177 | computes Wait of the transition system |
| Actions.EventMaster.AddChild | src/compute/action.hh:89-89 | a new idle action, last among the children, that has this action as its parent |
| Actions.EventMaster.ProcessChildren | src/compute/action.cc:221-236 | true exactly when all children are over |
| Actions.EventMaster.RunAction | src/compute/action.cc:42-169 | Run of an action computes the step of the transition system, whatever its state and its code's choices; `Outcomes.TurnOutcome` says what it comes to |
| Actions.EventMaster.Promote | src/common/event.cc:287-298 | the head of the priority queue becomes the last of the nice queue |
| Actions.EventMaster.Pass | src/common/event.cc:145-165 | a pass of the loop computes the step of the transition system and keeps its invariant |
| Wakeup.StartSound | src/common/message.cc:303-317 | before anything is posted the invariant holds |
| Wakeup.PostSound | src/common/message.cc:343-357 | a post keeps: a writer is registered, and once only, exactly when its out queue is not empty |
| Wakeup.SelectSound | src/common/event.cc:230-267 | so does any answer of select |
| Wakeup.PickedInOrder | src/common/event.cc:251-266 | ready writers keep the order in which they were registered, and so do the others |
| Wakeup.TurnSound | src/common/message.cc:228-254 | so does serving the head of the ready list |
| Wakeup.RunDelivers | src/common/message.cc:228-254 | over any run what is written and queued is what was posted, none lost, none twice, ordinary messages in order, and what is written stays written |
| Wakeup.OrdinaryInOrder | src/common/message.cc:343-357 | without urgent messages what is written and queued is what was posted, in order |
| Wakeup.UrgentFirst | src/common/message.cc:347-348 | an urgent message is the next its port writes |
| Wakeup.RoundsWrite | src/common/event.cc:145-165 | k rounds of the loop with all watched sockets ready write the first k queued messages of every port |
| MessagePorts.MessageWriter.Run | src/common/message.cc:228-254 | the first message moves from the queue to what is written, and the writer repeats if more are left |
| MessagePorts.EventMaster.Schedule | src/common/event.cc:95-109 | a socket already watched is not registered again |
| MessagePorts.EventMaster.ModifyFDSets | src/common/event.cc:251-266 | the ready writers leave the write list for the ready list in order and are watched no longer; the invariant is kept |
| MessagePorts.EventMaster.Turn | src/common/event.cc:150-165 | the head of the ready list runs and is scheduled again if it repeats; the invariant is kept |
| MessagePorts.MessagePort.PostMessage | src/common/message.cc:343-357 | the message joins the queue, urgent ones in front, and wakes the writer only from an empty queue; the invariant is kept |
| HopForest.ListingOnce | src/geni/rspec.cc:2033-2061 | the listing from a hop has every hop that follows it exactly once and no other |
| HopForest.ListingEntries | src/geni/rspec.cc:2033-2056 | every listed hop names its own next hops, in the listing from any hop |
| HopForest.ListingTells | src/geni/rspec.cc:2033-2056 | every listed hop stands for the link of its number, and a hop is among its next hops if and only if it follows it next, in ascending order |
| HopForest.ListedBefore | src/geni/rspec.cc:2033-2061 | a hop is listed before every hop that follows it |
| HopForest.NextInOrder | src/geni/rspec.cc:2056-2061 | next hops are listed in the order of their numbers |
| HopForest.ListsAllExactlyWhen | src/geni/rspec.cc:1861-1874 | the listing from hop 1 has every hop if and only if hop 1 is the only root of the forest |
| Numbering.AddHopNumbered | src/geni/rspec.cc:1907-1921 | numbering a link keeps: numbers 1 to the last once each, next hops later than their hop, each hop in at most one list |
| Numbering.OverNumbers | src/geni/rspec.cc:1877-1925 | in a topology of paired links the numbered links are exactly those between real nodes that the front node leads to |
| Numbering.NoHopsExactlyWhen | src/geni/rspec.cc:1863-1874 | there is no hop to start the listing from exactly when there is no such link |
| Roots.ComesBack | src/geni/rspec.cc:1877-1925 | a walk along a link from whose far end the starting node can be reached by other unvisited links finishes with the starting node |
| Roots.RootsFirst | src/geni/rspec.cc:1877-1925 | the first front link with a remote link makes one root; afterwards the front node is done with if the link leads back, and else its other links are untouched |
| Roots.RootsLater | src/geni/rspec.cc:1877-1925 | a later front link makes another root exactly if it has a remote link and has not been reached |
| Roots.OneRootExactlyWhen | src/geni/rspec.cc:1861-1874 | after the walk from the front node hop 1 is the only root if and only if the topology is listed whole |
| Roots.TwoBranchesNotWhole | src/geni/rspec.cc:1843-1875 | a front node with two links to two otherwise unconnected nodes has hops and is not listed whole |
| Regions.FirstHop | src/geni/rspec.cc:1877-1925 | the walk along the first real link found has, when it comes back, passed exactly the real links around the front that it leads to by links not visited before |
| Regions.AfterFirstStays | src/geni/rspec.cc:1877-1925 | from then on no root is added if these are all, and otherwise one has been or is still to be |
| Regions.AroundNext | src/geni/rspec.cc:1877-1925 | link by link the walk finds the first hop where the search does, and nothing before it |
| Regions.OneRootInAll | src/geni/rspec.cc:1861-1874 | after the walk hop 1 is the only root if and only if the topology is listed completely, and there is no hop exactly when the search finds none |
| Chains.PairChained | src/geni/rspec.cc:1907-1923 | one more pair keeps: hops come in pairs, a link and its remote link, the second following the first, and a pair follows nothing around the front, or else a pair at whose end it starts, artificial nodes in between or not |
| Chains.TakeChained | src/geni/rspec.cc:1907-1923 | so does the walk along a pair between real nodes |
| Chains.SkipChained | src/geni/rspec.cc:1900-1906 | and past one with an artificial node |
| Multipoint.Traversal.Nexthop | src/geni/rspec.cc:1877-1925 | the walk ends on any topology, keeps the numbering, deals with every node it comes to, visits only what the node leads to by links not visited before, makes no root once it has a previous hop, and from the front node makes one root exactly if only one link has a remote link or the first of them leads back; in a paired topology every hop follows a link that ends where it starts |
| Multipoint.Traversal.AddHops | src/geni/rspec.cc:1907-1921 | the two links of a pair become the next two hops, the second after the first, the first after the previous hop |
| Multipoint.Traversal.Finalize | src/geni/rspec.cc:1927-2062 | the recursion ends and appends the listing from the hop, which `HopForest.ListingTells` reads entry by entry |
| Multipoint.Traversal.TraverseMPVBGraph | src/geni/rspec.cc:1843-1875 | from any state of the links: the walk covers what the front node leads to; it fails exactly when no link was numbered, and else appends the listing from hop 1; every entry has the number of its link, and exactly the hops that follow it next as its next hops, ascending; in a paired topology hops follow one another as the links do, and the listing has every hop if and only if `ListedAll` of the topology, and with real nodes around the front if and only if `ListedWhole` |
| Octets.IntOctetsStandFor | src/api/encode_pri.cc:102-152 | an integer is sent in the fewest octets, which stand for it in two's complement |
| Octets.ExtendIntOctets | src/api/decode_pri.cc:60-116 | reading the octets into a word restores it |
| Octets.IntOctetsOnly | src/api/encode_pri.cc:102-152 | there is no other shortest form |
| Octets.LenRoundTrip | src/api/encode_pri.cc:56-81 | lengths below 2^24 are read back from their definite form, which tells its own size |
| Codec.Encoder.BuffRemCheck | src/api/encode_pri.cc:9-17 | afterwards there is room for what was asked and eight octets more, and the contents are the same |
| Codec.Encoder.ExpandBuff | src/api/encode_pri.cc:19-35 | the buffer grows by at least what was asked, and the contents are the same |
| Codec.Encoder.GetBuff | src/api/encode_pri.cc:37-44 | the buffer is cut down to exactly what was written |
| Codec.Encoder.EncodeHeader | src/api/encode_pri.cc:51-82 | appends the tag and the definite form of the length, inside the buffer |
| Codec.Encoder.EncodeInteger | src/api/encode_pri.cc:102-126 | appends tag, length and the shortest octets of a 32-bit integer |
| Codec.Encoder.EncodeLong | src/api/encode_pri.cc:128-152 | the same for 64 bits |
| Codec.Encoder.EncodeString | src/api/encode_pri.cc:154-169 | appends tag, length and the characters |
| Codec.GetLen | src/api/decode_pri.cc:6-38 | the length in 32 bits, exactly the length written if that takes at most three octets, the octets it took, and the cursor behind them |
| Codec.DecodeInt | src/api/decode_pri.cc:60-87 | the content octets sign-extended to 32 bits, and the cursor behind them |
| Codec.DecodeLong | src/api/decode_pri.cc:89-116 | the same for 64 bits |
| Codec.DecodeStr | src/api/decode_pri.cc:118-130 | the characters, and the cursor behind them |
| Requests.RequestEncoder.EncodeMsg | src/api/request_encoder.cc:8-172 | a body exactly for layers 2 and 3: the section with the fields that are not empty or zero, in order; and its length in 16 bits, as the header has it (lines 246-250) |
| Requests.EncodeMsgSubStart | src/api/request_encoder.cc:174-235 | the tag and the definite form of the length of the section |
| Requests.EncodeMergeBuff | src/api/request_encoder.cc:237-243 | the two buffers one after the other |
| Requests.Layer2Octets | src/api/request_encoder.cc:65-125 | the octets of a request on layer 2 with every field given, with the tags of src/api/tag_id.hh |
| Requests.Layer3Octets | src/api/request_encoder.cc:126-158 | the octets of the fields of layer 3 |
| Requests.BodyOctets | src/api/request_encoder.cc:160-172 | the octets of a whole body |
| Requests.NumberOctets | src/api/encode_pri.cc:102-126 | a number below 128 takes one octet, one below 2^15 two |
| Requests.TextOctets | src/api/encode_pri.cc:154-169 | tag, length and characters, the length in one octet below 128 and in two or three up to 2^16 |
| Receiving.DecodeUserCons | src/api/request_decoder.cc:75-214 | from any section of known fields, in any order, the last value of each field, kept if it belongs to the layer; the cursor ends where the section does |
| Receiving.ReceivedTells | src/api/request_decoder.cc:75-214 | tag by tag: every value received is that of the last field with its tag, VLANs are dropped unless the layer is 2, ports and classes unless it is 3 |
| Receiving.DecodeMsg | src/api/request_decoder.cc:8-73 | reads a message of one user constraint section to its last octet, and stops there exactly if that is the length passed; nothing is read from a message that starts otherwise |
| Receiving.IntReadAsLong | src/api/request_decoder.cc:121-123 | a number sent as 32 bits and read as 64 is taken to be signed |
| Receiving.LongRoundTrip | src/api/decode_pri.cc:89-116 | a number sent as 64 bits is read back |
| Receiving.RequestRoundTrip | src/api/request_encoder.cc:8-172 | decoding what is encoded for layer 2 or 3 restores every field of that layer |
| Receiving.SendAndReceive | src/api/request_decoder.cc:8-73 | a request through the encoder and the decoder, octet by octet: the decoder stops exactly if the body has fewer than 2^16 octets, and then the request is restored for layer 2 or 3; nothing is sent for another layer |
| Receiving.StopsExactlyWhen | src/api/request_decoder.cc:32-39 | of requests of any size: the decoder is done at the end of the body if and only if the body has fewer than 2^16 octets |
| Receiving.LongRequestRunsOn | src/api/request_encoder.cc:246-250 | a request with a GRI of 65525 octets makes a body of 2^16, for which the header has the length 0 |
| Receiving.BandwidthRestoredExactlyWhen | src/api/request_encoder.cc:80-83 | the bandwidth survives if and only if it is below 2^31 or within 2^31 of 2^64 |
| Receiving.BandwidthLost | src/api/request_encoder.cc:80-83 | a bandwidth of 2^31 comes back as 2^64 - 2^31 |
| Receiving.SentIsKnown | src/api/request_encoder.cc:65-158 | everything sent in a section with a length to write can be read back |
| RangeText.ScanText | src/common/utils.hh:174-186 | a printed tag or range is scanned back as that tag or range |
| RangeText.PiecesAdd | src/common/utils.hh:174-186 | pieces that no set prints: an empty range, a range without end, a zero, and what is no number |
| RangeText.PiecesOf | src/common/utils.hh:171-171 | any commas and blanks separate pieces |
| RangeText.SplitJoin | src/common/utils.hh:171-171 | splitting printed tokens at delimiters gives back their texts |
| RangeText.MeantFrom | src/common/utils.hh:408-470 | the printed runs stand for exactly the tags of the set, except the end of a run that is never closed |
| RangeText.RangeTextOf | src/common/utils.hh:408-470 | the text of the VLANs 1, 2, 3, 5, 6, 9 and untagged is "0,1-3,5,6,9" |
| RangeText.ReadBack | src/common/utils.hh:157-188 | what is read from the text of a set is the set less the tags lost at the end of the VLANs |
| RangeText.RestoresExactlyWhen | src/common/utils.hh:425-426 | the text restores the set if and only if it is not a VLAN set with both 4094 and 4095 |
| TagSets.ConstraintTagSet.constructor | src/common/utils.hh:80-89 | an empty set |
| TagSets.ConstraintTagSet.AddTag | src/common/utils.hh:129-138 | exactly that tag is added |
| TagSets.ConstraintTagSet.DeleteTag | src/common/utils.hh:216-225 | exactly that tag is deleted |
| TagSets.ConstraintTagSet.HasTag | src/common/utils.hh:244-252 | membership; for any tag, whether the set is not empty, and no for tag 0 and tags above the size |
| TagSets.ConstraintTagSet.IsEmpty | src/common/utils.hh:254-264 | true exactly without tags and without any |
| TagSets.ConstraintTagSet.Intersect | src/common/utils.hh:265-279 | the tags in both sets, where any stands for all tags |
| TagSets.ConstraintTagSet.Join | src/common/utils.hh:280-293 | the tags in either set; joining any tag sets the flag and fills the first 255 bytes with the low eight bits of the number of bytes |
| TagSets.AnyVlanLoses | src/common/utils.hh:285-290 | so joining any tag into a set of VLANs takes the tags up to 2040 out of the bitmap |
| TagSets.ConstraintTagSet.Size | src/common/utils.hh:381-405 | the number of tags |
| TagSets.ConstraintTagSet.LoadRangeString | src/common/utils.hh:157-188 | adds exactly the tags the text names |
| TagSets.ConstraintTagSet.GetRangeString | src/common/utils.hh:408-470 | the text of the set by its maximal runs |
| TagSets.TextRestoresExactlyWhen | src/common/utils.hh:157-188 | the text of a set names exactly its tags if and only if it is not a VLAN set with both 4094 and 4095 |
| TagSets.LastVlansLost | src/common/utils.hh:425-426 | the text of the set of 4094 and 4095 does not name exactly its tags |

## Left out

- Bookings.RunKeepsConsistent: runs in which the live deltas come to less than 2^64 at every instant, as `PeakOfAdded` below; speaks of bandwidth only; `Decombine` deletes VLAN tags that another live delta may share, so there is no such law for tags.
- Bookings.RunKeepsBooked: deltas with bandwidth; one without books its window until a removal meets it, live or not.
- Bookings.PeakOfAdded: assumes that the sum stays below 2^64 over the window, as the 64-bit bandwidth of a segment wraps around beyond it.
- Scheduling.AggregateDeltaSeries.AddDelta: the delta's window is shorter than 2^32 seconds; `Reservation.CloneableWhen` shows where a longer one trips the assertion of `Clone`. A schedule is a pair of times inside its delta, so the sharing of schedule objects is not modelled.
- Scheduling.AggregateDeltaSeries.RemoveDelta: the window of the delta given is not empty, as the constructors of schedules assert.
- Scheduling.BandwidthAvailabilityGraph.LoadADS: says nothing of the mixture with older steps beyond which step wins; the availability is that of the steps drawn.
- Reservation.TLinkDelta.Join: the tags of deltas and links are sets of concrete tags, without the flag for any tag; deltas of other switching types than layer 2 are not modelled.
- Reservation.TLinkDelta.Combine: the same holds of its tags.
- Reservation.TLinkDelta.Apply: the same holds of the tags it moves on the link.
- Reservation.TLinkDelta.Revoke: the same holds of the tags it gives back.
- Reservation.RunBalanced: the deltas of one link only; `ApplyDeltas` and `RevokeDeltas` loop over these calls.
- Workflow.WorkflowData.ComputeDependency: every link has a layer-2 descriptor, hop URNs are unique in a path, and the aggregate is a function of the hop URN; without a descriptor the source compares iterators of different lists.
- Forest.DumpRecursive: the tree of values stands for the XML-RPC value; the URL of an aggregate is what is known with the link, not looked up in a table.
- Combining.ExtractWorkflow: how a tree of paths is taken apart is not modelled; hop URNs are unique in each path, and a hop URN has one aggregate over all paths. The exception for a tree without paths is a missing workflow here.
- Combining.MergeWorkflows: in the order given; the source sorts the workflows by size first, on which nothing here depends.
- ActionLoop.LoopStepSound: models the base class of actions; timers, read and write events share the loop but not the queues of actions, and a pass that serves one of them is a pass that does not get to the nice queue.
- Progress.RunEnds: from the point on where actions create no more; that they stop is up to their code, as is that the messages arrive.
- ActionLoop.RunActionSound: children are created under the running action or under idle actions not yet scheduled, and at the end of the list; `AddChildFront` and the overrides of the hooks in subclasses are not modelled.
- Actions.EventMaster.RunAction: the abort when the message port is down, the obsolete and auto-delete flags, the stop flag and error texts are not modelled.
- Actions.EventMaster.Remove: the loop in the source steps past the element after an erased one; every entry is taken out here, which is the same for lists with at most one entry, as all lists of a sound run are.
- Wakeup.RunDelivers: ports stay open and writing does not throw; closing a port, the reading side and the loopback port are not modelled.
- MessagePorts.MessageWriter.Run: the write does not fail.
- MessagePorts.EventMaster.Schedule: writers with open sockets only.
- Multipoint.Traversal.TraverseMPVBGraph: a missing first hop is a failure here; the source would follow a null pointer. Visited flags of nodes, which nothing reads, are left out. When the listing is complete is proved for topologies of paired links; otherwise the condition is on the forest (`HopForest.ListsAllExactlyWhen`).
- Multipoint.Traversal.Finalize: lists the number, the link and the next hops of a hop; the rest of its XML, which is copied from the link, is left out.
- HopForest.ListsAllExactlyWhen: its condition is on the forest; `Regions.OneRootInAll` and `Roots.OneRootExactlyWhen` have those on the topology.
- Receiving.DecodeMsg: one user constraint section with lengths of at most three octets; other sections and lengths beyond the data are not modelled, nor the debug file. What the decoder makes of octets behind the message is not modelled.
- Receiving.DecodeUserCons: known fields with at least one octet in numbers. On an unknown tag the source adds the length of the field before to its offset without having read it, and on an empty number it reads an octet that is not there.
- Requests.RequestEncoder.EncodeMsg: of the message header only the length is modelled. The sender of the message, which cuts it off at that length, is not modelled, nor is the buffer being freed by the caller.
- TagSets.ConstraintTagSet.Join: both sets have the same size, and joining any tag is for sets of more than 2040 tags: the fill of 255 bytes runs past the end of smaller ones.
- TagSets.ConstraintTagSet.Intersect: both sets have the same size, as those of one switching type have.
- TagSets.ConstraintTagSet.AddTag: tags of the set only; others fall outside the bitmap.
- TagSets.ConstraintTagSet.DeleteTag: tags of the set only; others fall outside the bitmap.
- TagSets.ConstraintTagSet.constructor: base 1 and interval 1, and fewer than 65535 tags, since 65535 stands for any.
- TagSets.ConstraintTagSet.LoadRangeString: texts shorter than 256 characters that name tags of the set; longer texts are not terminated and other tags fall outside the bitmap. Sets have fewer than 65535 tags, since 65535 stands for any.
- TagSets.ConstraintTagSet.GetRangeString: base 1 and interval 1 only, and without the bound of 1024 characters of the source's buffer.
- Path computation, topology databases, constraint checks and the multipoint bridging actions are not part of this model, nor are configuration, logging, sockets, threads, XML and the reply codec.
- `AggregateDeltaSeries::Join` and `Duplicate`, the message router, and the wave grid texts of tag sets are not modelled.
