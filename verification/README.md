# Model of the graph provider

The service keeps one energy-flow graph per group: it places the group's metered devices in a
tree by what they read, and afterwards keeps that tree in step with the devices, the groups and
the shares. This project models that behaviour in Dafny and proves properties of the model.

What is modelled, from the core outwards:

- **The placement engine.** `Placement` holds the greedy allocator of one carrier, as the array
  algorithm and as the rule it follows; `Tree`, `Drawing` and `Generator` hold the tree of a whole
  group and the generator that draws it; `Attaching`, `Refinement` and `Detaching` hold the
  incremental form, what it has to do with the generator, and the removal of devices. `Built` and
  `Joined` say what a generated graph and a joined device mean in terms of the devices, the stored
  nodes and edges, and the readings alone.
- **The reconciliation pass.** `Updating` revises one graph, `Sharing` writes one permission,
  `Pass` runs a whole pass over a world of stored graphs with a trace of writes and a plan;
  `Reconciler` is the imperative pass, `Defaults` its look-up of the service's own graphs. On top of
  these stand dry-run fidelity (`DryRun`) and convergence (`Convergence`, `Rest`), and what a whole
  pass leaves behind, plans and writes, without the functions it is made of (`Ledger`, `Aftermath`).
- **The hand-offs between goroutines**, as state machines over atomic steps: `Pending`, `Requests`
  and `Token`. The classes in these modules are the critical sections; their contracts tie each
  section to the step of the state machine.
- **Fast forms and traversals.** `GroupTree` (descent through an untrusted group tree),
  `Consumption` (batched reads), `Cache` (one device re-read against a full sweep), `Resolving`
  (a batch of triggers turned into work), `ReportWalk` and `ReportLayout` (the report over graphs
  that may be cyclic).

`Sorting` and `Model` are what the others share. Readings are `real`; ids are strings in Go's order,
written out as `Before` because Dafny's `<=` on strings means prefix.

Three things the prose of the repository says differently from its code. docs/structure-heuristic.md
lines 104-106 describe a tightest fit, the code prefers the shallowest candidate and then the
roomiest (pkg/structure/structure.go:516-528); the model follows the code. The clamp of a negative
token lifetime is meant to keep the arithmetic in range and does so only down to -9223372006 seconds
(`Token.CachedForIsMeant`). And edge ids are called unique per pair of nodes (pkg/structure/structure.go:58-61),
which they are only among ids without a separator (`Drawing.EdgeIdsCoincide`).

## Model

| member | source | states |
|---|---|---|
| Sorting.SortedUnique | pkg/structure/structure.go:120-124 | whatever a library sort does with positions, its outcome is fixed once the order decides every pair |
| Sorting.SortSorts | pkg/structure/structure.go:408-413 | the sort used for every library sort yields the strictly sorted list of the same elements |
| Sorting.BeforeByFirstDifference | pkg/structure/structure.go:408-413 | the order of ids is that of the first code point that differs, a proper prefix first |
| Model.SetThenGet | pkg/graphs/graphs.go:341-356 | a set attribute reads back, and every other attribute reads as before |
| Model.LargestReadingIsLargest | pkg/structure/structure.go:645-662 | the carrier chosen is one that was read and none was read more; no choice only if none was read |
| Model.PrimaryFromEveryCarrier | pkg/structure/structure.go:640-662 | asking over all carriers, as a stored graph must, finds what asking over the device's own columns finds |
| Placement.ShallowerIsStrictOrder | pkg/structure/structure.go:511-528 | the preference is a strict order, total on distinct ids: no tie is left |
| Placement.PlaceAllIsGreedy | pkg/structure/structure.go:423-478 | every meter hangs under the best of the earlier meters that can take it, or under the root if none can |
| Placement.GreedyUnique | pkg/structure/structure.go:407-478 | only one placing follows that rule |
| Placement.PrefixIsLongestCommon | pkg/structure/structure.go:709-716 | the count is the length of the longest prefix two names share |
| Placement.TakesExactly | pkg/structure/structure.go:427-436 | a meter takes another if and only if its children explain at most (1 - tolerance) of it and leave (1 - tolerance) of the newcomer |
| Placement.ParentIsShallowestRoomiest | pkg/structure/structure.go:481-528 | of those that can take a meter the parent is shallowest, then roomiest, then of the longest common name prefix, then of the lowest id |
| Placement.OnlyLargestAtRoot | pkg/structure/structure.go:423-478 | in a carrier exactly the largest meter hangs at the root, so "nothing fits" never arises in the generator |
| Placement.DepthOnlyWhenForced | pkg/structure/structure.go:506-511 | a meter hangs deeper than some earlier meter's children only if that meter cannot take it |
| Placement.CapacityRespected | pkg/structure/structure.go:419-478 | before any child the others explain at most (1 - tolerance) of the parent; all together exceed it by at most the tolerance share of any child |
| Placement.TrackStep | pkg/structure/structure.go:452-467 | a placement keeps remaining equal to value minus children and depth equal to the edges up to the root |
| Placement.Weigh | pkg/structure/structure.go:424-448 | the inner loop finds the rule's choice and reports every meter it weighed |
| Placement.PlaceOne | pkg/structure/structure.go:423-477 | one turn of the outer loop keeps both running arrays exact and reports the placement |
| Placement.Place | pkg/structure/structure.go:407-479 | in place: sorts, then places every meter as the rule says and records parent and report |
| Tree.ParentOfTheSet | pkg/structure/structure.go:120-124 | a device's parent is a function of the set of devices, not of their order |
| Tree.EdgesLeadUp | pkg/structure/structure.go:177-218 | every edge goes exactly one level up, none leaves the root, both ends belong to the tree |
| Drawing.EdgeIdsCoincide | pkg/structure/structure.go:615-619 | two pairs share an edge id if and only if they are equal or one is the other divided at another separator |
| Drawing.PlainEdgeIdsDiffer | pkg/structure/structure.go:56-62 | pairs whose first ids hold no separator never share an edge id |
| Drawing.UniqueId | pkg/structure/structure.go:621-630 | the search ends, the id is not taken, and the wanted one is kept if it is free |
| Drawing.UniqueEdgeId | pkg/structure/structure.go:623-630 | the loop over fresh ids answers that id and marks it taken |
| Drawing.DrawnIsValid | docs/graph-contract.md:25-29 | a graph that draws a tree is valid: one custom sink, weights 100, no cycle, distinct nodes, resources and edges |
| Drawing.BuildIgnoresOrder | pkg/structure/structure.go:120-124 | any permutation of the devices gives the identical graph and placements, ids included |
| Drawing.BuildDraws | pkg/structure/structure.go:95-232 | the generated graph is the tree its devices call for, and valid; which tree that is says `Built` |
| Generator.Sift | pkg/structure/structure.go:126-179 | the first loop files every device under its carrier or its fallback parent: the collector if it reads no carrier and that has a name, else the root; the collector is asked for exactly if it has a name and somebody reads no carrier |
| Generator.PlaceCarriers | pkg/structure/structure.go:181-185 | carrier by carrier the placing fills one parent table |
| Generator.TableIsTheTree | pkg/structure/structure.go:130-185 | that table sends every device to its parent in the tree |
| Generator.DrawEdges | pkg/structure/structure.go:187-218 | the edges drawn from the table are those of the tree, with ids taken in order |
| Generator.Build | pkg/structure/structure.go:95-232 | the whole generator: its validation error is unreachable and it answers the tree and the placements `Built` is about |
| Generator.PlacementsTellTheTree | pkg/structure/structure.go:160-231 | one placement per device, with the parent the tree gives it, largest reading first; never "nothing fits", "no reading" exactly for want of one |
| Built.PrimaryIsPlacedBy | pkg/structure/structure.go:632-662 | a device is placed by the carrier of its columns it read most, the first in order of those it read as much of, if that is positive |
| Built.UnreadHangAside | pkg/structure/structure.go:145-170 | in the graph a device without a usable reading hangs under the collector if it reads no carrier and the collector has a name, and under the root otherwise |
| Built.CollectorWhenNeeded | pkg/structure/structure.go:190-207 | the collector is a node if and only if it has a name and some device reads no carrier; then it hangs under the root with that name and its translation key |
| Built.MetersHangByCapacity | pkg/structure/structure.go:181-218 | the meters of a carrier hang in the graph as the one placing that follows the rule, with the configured tolerance clamped to a fraction, puts them |
| Built.BuiltFor | pkg/structure/structure.go:95-218 | the graph's owner and provenance, its root, one node per device, the collector at most beside them, and plain edges of full weight |
| Built.EdgeIdsHaveTheirShape | pkg/structure/structure.go:615-630 | as long as no two edges of the graph have one shape of id, every edge's id is its shape and no invented id is used |
| Built.ReportsTell | pkg/structure/structure.go:160-231 | every placement names a device, the one node it hangs under in the graph, its figure, and why: no reading, the largest of its carrier, or capacity |
| Built.MetersAreWeighed | pkg/structure/structure.go:424-448 | the candidates reported for a meter are the larger ones of its carrier, with what each had left, whether it could take the meter, and the one chosen |
| Attaching.BestNodeIsBest | pkg/structure/structure.go:530-613 | the search over stored nodes finds the unique best that can take the reading, in whatever order they are stored |
| Attaching.BestExistingParent | pkg/structure/structure.go:530-613 | the loops compute that node and the candidates with the winner marked |
| Attaching.Index | pkg/structure/structure.go:531-546 | the three tables hold every node's children, resource and parent |
| Attaching.DepthOf | pkg/structure/structure.go:547-558 | the bounded walk counts the edges up, for at most nodes + 1 steps |
| Attaching.GraphCell.Attach | pkg/structure/structure.go:240-322 | works on a copy: refused, the caller's graph is as it was |
| Attaching.LeafKeepsValid | pkg/structure/structure.go:294-319 | a new leaf under any node of a valid graph leaves it valid |
| Attaching.AttachAddsOneLeaf | pkg/structure/structure.go:240-322 | every input: no id, present, a broken graph, a device only a nameless node stands for, or else success, which adds exactly one node and one edge and leaves the rest verbatim |
| Joined.JoinsAsLeaf | pkg/structure/structure.go:294-322 | a device nobody stands for joins a valid graph as one node and one marked edge of full weight with an id of its own, to the parent its placement names |
| Joined.UnreadJoinsAside | pkg/structure/structure.go:267-278 | without a reading it joins the collector if it reads no carrier and the graph has one, and the top node otherwise |
| Joined.ReadJoinsByRoom | pkg/structure/structure.go:280-292 | with a reading it joins, of the device nodes that can hold it, the one with the shortest way up, then the most room, then the lower id; the top node if none can |
| Joined.UnreadIsTold | pkg/structure/structure.go:275-279 | the placement of a device without a reading has no figure and no candidates |
| Joined.ReadIsTold | pkg/structure/structure.go:565-612 | the placement has the figure, says whether anybody could hold it, and lists every device node the carrier weighs with its room and whether the newcomer fits |
| Joined.PresentIsLeftAlone | pkg/structure/structure.go:695-707 | a device is taken for present if and only if some node carries its id, as node or as resource |
| Joined.MostReadIsPrimary | pkg/structure/structure.go:569-576 | a stored node is weighed by the carrier its device read most of all carriers, the first in order of those it read as much of |
| Joined.LeftIsRoom | pkg/structure/structure.go:577-582 | what a node has left is its figure less what the devices of the nodes below it read, edge by edge |
| Joined.DepthIsTheClimb | pkg/structure/structure.go:543-558 | the depth weighed is the length of the way up along each node's last edge, until there is none or the bound is reached |
| Refinement.ChoicesAgree | pkg/structure/structure.go:280-292 | the incremental choice equals the generator's if and only if no name prefix breaks a tie against the lower id |
| Refinement.NamesMayDecide | pkg/structure/structure.go:516-528 | a concrete placing on which the two choices differ |
| Refinement.StoredDepth | pkg/structure/structure.go:540-558 | on a drawn graph the bounded walk is the depth the generator kept |
| Refinement.StoredRemaining | pkg/structure/structure.go:577-582 | on a drawn graph value minus children is what the generator's array held |
| Refinement.StoredChoice | pkg/structure/structure.go:530-613 | the search over the stored graph finds the generator's choice with names left out |
| Refinement.AttachAnswersAsBuild | pkg/structure/structure.go:280-292 | attaching a device that sorts last gives the parent the generator gives over the extended set, if and only if no name decides |
| Refinement.AttachDraws | pkg/structure/structure.go:240-322 | attaching keeps a drawn tree a drawn tree, over one device more |
| Refinement.AttachAllDraws | pkg/structure/structure.go:240-322 | so does attaching a whole queue in placing order |
| Refinement.FoldRebuildsBuild | pkg/structure/structure.go:234-322 | attaching devices in placing order, from the bare root or any generated graph, rebuilds the generator's nodes and parents |
| Detaching.Detach | pkg/structure/structure.go:324-389 | all or nothing: a removal that panics or would leave an invalid graph changes nothing |
| Detaching.DeparturesClose | pkg/structure/structure_test.go:900-938 | after any removals exactly those devices are gone, survivors hang under their nearest surviving ancestor, untouched edges are verbatim |
| Detaching.AboveUnique | pkg/structure/structure_test.go:900-938 | the nearest surviving ancestor is unique |
| Detaching.RemovalOrderIrrelevant | pkg/reconcile/reconcile.go:572-613 | two removal orders end in the same parents, although the comment there says the graph depends on the order |
| Sharing.PermissionStore.SetGroup | pkg/graphs/graphs.go:250-298 | reads, compares and writes one resource only when something has to change and writing is enabled |
| Sharing.PermissionWrite | pkg/graphs/graphs.go:223-298 | one group's entry changes, no group gains administration, the service user administrates, a second call finds nothing to do |
| Sharing.StepKeepsAccess | pkg/reconcile/reconcile.go:672-720 | no single step of a pass, rename or crash takes the last share of a group's paths |
| Sharing.RenameKeepsAccess | pkg/reconcile/reconcile.go:701-720 | over any run: once shared, some path the group has held keeps a share |
| Sharing.SharedFromTheFirstCheck | pkg/reconcile/reconcile.go:701-707 | the first share check makes the graph accessible for good |
| Sharing.OldShareGoesUnlessCrashed | pkg/reconcile/reconcile.go:701-720 | from a pass that has saved the new path, over any later run: the old share goes if and only if no crash falls before the withdrawal |
| Sharing.RenameWithdrawsUnlessCrashed | pkg/reconcile/reconcile.go:672-720 | the same from the pass that finds the rename (`CrashedRenameKeepsTheOldShare` is a run on which it stays) |
| Sharing.ForgottenIsLeftAlone | pkg/reconcile/reconcile.go:557-561 | a path that neither the directory, the graph nor a pass knows keeps or lacks its share for good |
| Updating.DepartedAre | pkg/reconcile/reconcile.go:557-596 | departed is who is in the graph and not in the group, each once, and nobody while the graph records another path than the group has |
| Updating.MissingAre | pkg/reconcile/reconcile.go:615-620 | missing is exactly the group's devices the graph does not hold |
| Updating.RenameKeeps | pkg/reconcile/reconcile.go:731-759 | following a name changes attributes only and keeps the graph valid |
| Updating.RenameSettles | pkg/reconcile/reconcile.go:724-759 | a followed name leaves nothing to follow, also when the user renamed the node |
| Updating.DeparturesRemove | pkg/reconcile/reconcile.go:597-613 | departures, none refused, remove exactly their nodes from any valid graph |
| Updating.ArrivalsAdd | pkg/reconcile/reconcile.go:634-647 | every arrival adds one node and one edge behind what is stored, all of which is unchanged |
| Updating.ArrivalsAreTold | pkg/reconcile/reconcile.go:634-647 | the placements reported for the arrivals are one each, with the parent the graph gives it |
| Updating.InStepStays | pkg/reconcile/reconcile.go:550-670 | a graph in step with its group is not revised |
| Updating.ReviseFollowsTheWorld | pkg/reconcile/reconcile.go:550-670 | a pass with no refusal leaves a valid graph claimed by the group with exactly the group's devices; a pass that finds another path recorded removes nobody |
| Updating.ReviseExtends | pkg/reconcile/reconcile.go:563-648 | extends and never restructures: survivors under their nearest surviving ancestor, untouched edges verbatim, one node and edge per arrival; with another path recorded every edge stays |
| Updating.BuiltInStep | pkg/reconcile/reconcile.go:500-547 | a generated graph is valid and in step from the start |
| Updating.ReviseInPlace | pkg/reconcile/reconcile.go:557-687 | the loops over departed and missing devices compute that revision on a working copy, with the readings, unread devices and placements of the report |
| Ledger.RenamedGroupKeepsAll | pkg/reconcile/reconcile.go:557-587 | a revision of a graph that records another path than the group has keeps every device and every edge of it |
| Ledger.LeavingAre | pkg/reconcile/reconcile.go:588-596 | who leaves otherwise: the devices of the graph that are nobody's in the group, each once, in the order of their ids |
| Ledger.StayingGroupIsFollowed | pkg/reconcile/reconcile.go:550-649 | a revision of a graph that records the group's path, or none, and refuses no removal leaves exactly the group's devices in it |
| Aftermath.ArrivalsLineUp | pkg/reconcile/reconcile.go:622-649 | behind what is stored there is one node and one marked edge of full weight for each arrival, in their order |
| Aftermath.ReviseNames | pkg/reconcile/reconcile.go:651-670 | a revised graph has the nodes of the graph and of the arrivals verbatim, except that the root takes the group's name as long as it has the generated one; name, id and path are recorded, other attributes as they were |
| Aftermath.RevisionIsDescribed | pkg/reconcile/reconcile.go:622-690 | the details reported with it: all the group's devices, the arrivals without a reading, one placement per arrival with its parent in the graph, and readings only if somebody arrived |
| Pass.JobsApart | pkg/reconcile/reconcile.go:335-407 | no two jobs of a pass work on the same graph |
| Pass.FindTells | pkg/reconcile/reconcile.go:425-432 | a group finds a graph by its id, or by its path among graphs without an id |
| Pass.OrphansAreNobodys | pkg/reconcile/reconcile.go:379-405 | a graph treated as orphaned is not the one any existing group finds |
| DryRun.DryRunFaithful | pkg/reconcile/reconcile.go:838-864 | a pass with writing disabled plans what the writing pass plans - graphs, devices, readings, unread devices and placements included - minus shares of new graphs, writes nothing and changes nothing; what that plan holds says `Ledger` |
| Convergence.UpdateLands | pkg/reconcile/reconcile.go:550-722 | one writing pass over a graph succeeds and, if it records the group's path or none, leaves it settled with its share in place |
| Convergence.UpdateWritesInOrder | pkg/reconcile/reconcile.go:672-720 | an update plans and writes the graph, then the share, then the withdrawal, each at most once |
| Convergence.UpdateIsALife | pkg/reconcile/reconcile.go:672-720 | after each of its writes an update has the permissions and the recorded path of the life the sharing results are about |
| Convergence.ShareFollowsTheGroup | pkg/reconcile/reconcile.go:701-720 | after the share checks the group's path is shared, the path it came from is not, every other entry is as before |
| Convergence.OrphanWithdraws | pkg/reconcile/reconcile.go:762-795 | a vanished group's share is gone, and the graph differs in its two group attributes only |
| Convergence.CreateLands | pkg/reconcile/reconcile.go:500-547 | a created graph is valid, stored, shared and settled |
| Convergence.OrphanLands | pkg/reconcile/reconcile.go:762-795 | an orphaned graph ends without id and path |
| Convergence.RunTouches | pkg/reconcile/reconcile.go:335-407 | a pass is each job on its own graph, everything else untouched, created graphs behind |
| Convergence.RunSucceeds | pkg/reconcile/reconcile.go:335-407 | it fails only if one of its jobs does |
| Convergence.AlignedIsSilent | pkg/reconcile/reconcile.go:335-407 | on a world at rest a full pass makes no write and plans no change |
| Rest.PassKeepsReady | pkg/reconcile/reconcile.go:335-407 | a pass keeps the world well-formed, leaves every graph with its group's path, and from a world where all have it leaves one at rest |
| Rest.SecondPassSilent | docs/reconciliation.md:1-96 | after a pass that found no group moved the next makes no write |
| Rest.ThirdPassSilent | docs/reconciliation.md:1-96 | from any well-formed world, renames included, the third pass makes no write |
| Rest.NoGroupsNoPass | pkg/reconcile/reconcile.go:353-370 | a directory that answers with no group at all changes, plans and writes nothing |
| Ledger.UnclaimedIsNotFound | pkg/reconcile/reconcile.go:423-431 | a group finds no graph if and only if none carries its id, and none without an id its path |
| Ledger.RenameLosesNothing | pkg/reconcile/reconcile.go:557-587 | over a whole pass, a graph that carries a group's id and records another path keeps every device and every edge |
| Ledger.PassFollowsTheGroup | pkg/reconcile/reconcile.go:335-407 | over a whole pass with no removal refused, a group's graph that records the group's path or none ends with exactly the group's devices |
| Ledger.CreationsArePlanned | pkg/reconcile/reconcile.go:500-522 | writing or not, the plan names one creation for every group that has devices and no graph, none for any other, with the generated graph, the devices, readings, placements and the devices without a reading |
| Ledger.CreationsAreStored | pkg/reconcile/reconcile.go:500-547 | a writing pass stores exactly one new graph for each of these groups and no other: the generated one, shared with that group alone and administrated by the service user |
| Ledger.ChangesAreAccounted | pkg/reconcile/reconcile.go:651-722 | a stored graph is another after a pass only with its update or detachment in the plan, with that graph, and a graph write; its permissions only with a sharing change and a permission write, path by path |
| Aftermath.PassRevises | pkg/reconcile/reconcile.go:550-722 | over a whole pass a group's graph ends as the revision of it, carrying the group's id and path |
| Aftermath.PassShares | pkg/reconcile/reconcile.go:701-720 | over a whole pass the group ends with read, write and execute, the path it came from with nothing, and every other group with what it had |
| Aftermath.SuccessMeansDone | pkg/reconcile/reconcile.go:550-722 | a writing pass that reports no failure has stored every group's graph as revised and the sharing has followed the group, refused removals or not |
| Aftermath.AbandonedIsForgotten | pkg/reconcile/reconcile.go:379-405 | over a whole pass the graph of a group that is gone keeps its nodes, edges and other attributes, forgets the group, and only that path loses its rights |
| Aftermath.OthersAreLeftAlone | pkg/reconcile/reconcile.go:335-407 | a graph that records neither a group's id nor a path is not touched |
| Defaults.Collect | pkg/graphs/graphs.go:143-183 | page by page the listing goes into the two indexes, the lower graph id winning |
| Defaults.Defaults | pkg/graphs/graphs.go:126-137 | both filtered listings, one after the other |
| Defaults.DefaultsFindLowest | pkg/graphs/graphs.go:114-183 | the indexes name, for every id and path, the lowest-id graph that claims it |
| Reconciler.Repository.Permission | pkg/reconcile/reconcile.go:838-864 | a sharing write is planned exactly when it would change something |
| Reconciler.Repository.Update | pkg/reconcile/reconcile.go:550-722 | the update of one graph, its writes and its plan |
| Reconciler.Repository.Orphan | pkg/reconcile/reconcile.go:762-795 | the orphaning of one graph, its writes and its plan |
| Reconciler.Repository.Create | pkg/reconcile/reconcile.go:500-547 | the creation of one graph, its writes and its plan, about which `Ledger.CreationsArePlanned` and `Ledger.CreationsAreStored` speak |
| Reconciler.Repository.FullPass | pkg/reconcile/reconcile.go:335-407 | the imperative pass ends as the pass on values does, about which the results above and those of `Ledger` and `Aftermath` are proved |
| Reconciler.RunAppend | pkg/reconcile/reconcile.go:335-407 | a pass can be cut anywhere: the first part, then the rest on what it left |
| Pending.Work.Record | pkg/events/dirty.go:49-52 | the locked part of Add is the first step of the state machine |
| Pending.Work.Signal | pkg/events/dirty.go:53-58 | the send is the second, and a second token is dropped |
| Pending.Work.Drain | pkg/events/dirty.go:66-83 | Take hands out every trigger once, sorted, and empties the set |
| Pending.StepKeepsSound | pkg/events/dirty.go:49-93 | no interleaved step loses a wakeup or a trigger |
| Pending.NothingIsLost | pkg/events/dirty.go:49-93 | in every interleaving work with a parked pump has a token or an Add about to send; every trigger is in the set, in hand or handed over after its Add |
| Pending.QuietMeansResolved | pkg/reconcile/reconcile.go:158-176 | a pump at rest has handed over every trigger after its last Add |
| Pending.PumpTakesWhatIsThere | pkg/events/dirty.go:66-93 | from a parked pump with work, its own steps take that work |
| Pending.EveryTriggerIsHandedOver | pkg/events/dirty.go:49-93 | over any run of events: once the pump is at rest, every trigger added at some time was in a batch handed over later |
| Requests.Wishes.RequestGroup | pkg/reconcile/reconcile.go:116-122 | the locked part of a request is a step of the state machine |
| Requests.Wishes.TakeRound | pkg/reconcile/reconcile.go:287-297 | both wishes are taken and cleared together |
| Requests.LoopWakes | pkg/reconcile/reconcile.go:109-131 | whenever work is queued and the loop is parked a wakeup is on its way |
| Requests.EveryRequestServed | pkg/reconcile/reconcile.go:287-332 | at rest a request, also one dropped with a round that ran everything, has been followed by a pass begun after it if and only if no failed round lost it; the same for the request for everything |
| Requests.EveryRequestRuns | pkg/reconcile/reconcile.go:287-332 | over any run of events: once the loop is at rest, a group asked for at some time has been run by a round or a full pass that began later, unless a failed round lost the request |
| Requests.EverythingRuns | pkg/reconcile/reconcile.go:287-332 | the same for the request for everything, by a full pass that began later and succeeded |
| Requests.FailureLosesItsRoundOnly | pkg/reconcile/reconcile.go:287-313 | a failure loses paths of its own round only, and none that was asked for again meanwhile (`FailedListingLosesTheRound` is a run that loses one) |
| Requests.LostUntilAskedAgain | pkg/reconcile/reconcile.go:116-122 | a lost path comes back with the next request for it or with the next full pass that succeeds, and with nothing else |
| Token.LifetimeClamped | pkg/keycloak/token.go:225-244 | no lifetime given is none, an unreadable one an error, and a number is clamped on both sides and loses its fraction toward zero |
| Token.CachedForIsMeant | pkg/keycloak/token.go:156-165 | the 64-bit arithmetic is right if and only if the lifetime is at least -9223372006 seconds |
| Token.NegativeLifetimeIsKept | pkg/keycloak/token.go:240-242 | a lifetime at the lower clamp wraps and the token is kept for centuries: a concrete input |
| Token.Client.AccessToken | pkg/keycloak/token.go:107-128 | a caller is served, refused, or told which grant to wait for |
| Token.Client.FinishGrant | pkg/keycloak/token.go:150-165 | the grant is forgotten and its token cached in one section |
| Token.OneRequestInFlight | pkg/keycloak/token.go:107-170 | in every interleaving at most one token request is in flight |
| Token.NobodyJoinsAFinishedGrant | pkg/keycloak/token.go:151-154 | whoever starts to wait waits for a grant that is still running |
| Token.AnswersAreFinal | pkg/keycloak/token.go:147-170 | over any run, what the endpoint answered for a grant never changes |
| Token.TokensComeFromGrants | pkg/keycloak/token.go:107-170 | in every interleaving a token served to anyone, and the token cached, is one a grant was answered with |
| Token.WaitersReadOneOutcome | pkg/keycloak/token.go:130-138 | over any run, whoever waits for a grant and does not give up reads its answer after it was closed, so all who waited for it read one outcome |
| Token.GivingUpEndsNoGrant | pkg/keycloak/token.go:130-134 | over any run, a caller that gives up leaves the grants, the cache and everyone else where they would have been had it waited on |
| Token.ServedWhileFresh | pkg/keycloak/token.go:107-166 | a cached token is served only before its caching time plus the lifetime less the margin, at least zero |
| Token.CallIsAnswered | pkg/keycloak/token.go:107-128 | after any run a call is served from the cache exactly while that is fresh, and starts nothing then; else a caller that is gone fails and any other waits for the one grant on its way, which it starts if there is none |
| Token.GrantServesTheNext | pkg/keycloak/token.go:147-166 | what a grant brings back serves the calls after it for its lifetime less half a minute |
| GroupTree.ListGroups | pkg/keycloak/keycloak.go:267-287 | the loop over pages answers the listing, or the error of the page that failed |
| GroupTree.ListingIsWhole | pkg/keycloak/keycloak.go:252-287 | a listing is answered if and only if an empty page ends it in time, and then it is every page joined |
| GroupTree.Walk.Collect | pkg/keycloak/keycloak.go:197-233 | the recursion over shared accumulators, as a function of what was seen before and of the children there are by the answers (`GroupTree.ChildrenOfIs`) |
| GroupTree.Walk.Children | pkg/keycloak/keycloak.go:218-250 | inline children count if there are any; otherwise, unless the count is known and at most 0, the pages before the empty one, or none on a 404; a failure or endless pages are an error |
| GroupTree.ChildrenOfIs | pkg/keycloak/keycloak.go:218-250 | the children the descent works with are those the answers give, and it fails exactly where the answers cannot be read |
| GroupTree.CollectsExactlyTheReachable | pkg/keycloak/keycloak.go:191-233 | on success exactly the groups reachable through entries with id and path, each id once; whose child is whose is read off the inline entries, the count and the pages |
| GroupTree.FailsOnlyForCause | pkg/keycloak/keycloak.go:201-227 | it fails only for more than 32 levels of different groups, or for a reachable group whose pages break off with a failure or never end |
| GroupTree.SucceedsExactlyWhenReadable | pkg/keycloak/keycloak.go:197-233 | on a tree it succeeds if and only if no reachable group is unreadable by its answers and nothing is nested too deep |
| GroupTree.Groups | pkg/keycloak/keycloak.go:155-189 | a poll answers every reachable group, each id once, by path; an error has its cause in the realm, and an empty listing is disbelieved exactly if the count contradicts it |
| Consumption.Build | pkg/consumption/consumption.go:288-327 | asks, legs and elements stay aligned: one ask per column path and carrier, both ends of each |
| Consumption.TakeIn | pkg/consumption/consumption.go:223-249 | the first readable answer per index of the batch is kept, other indexes are ignored; what is readable says `Consumption.ReadingIsTheFirst` |
| Consumption.ReadingIsTheFirst | pkg/consumption/consumption.go:376-388 | a response element reads as a number if and only if that is the last cell of the first row, series by series, that ends in a readable one |
| Consumption.ValuesAreWhole | pkg/consumption/consumption.go:201-221 | the elements go out in batches of the size, the last perhaps shorter; there is an answer exactly if every call was answered, and otherwise the failure is that of the first that was not |
| Consumption.ReadEnds | pkg/consumption/consumption.go:201-250 | the batch loop reads what the calls say, element by element, or fails as a whole |
| Consumption.Fetch | pkg/consumption/consumption.go:190-278 | the figures are the sums of the distances of the asks that have both ends; of an honest wrapper, for every device and carrier the sum over the columns that count, and no other entry |
| Consumption.ValuesAreTheMeters | pkg/consumption/consumption.go:201-250 | for any batch size and response order what is read is what the meters say |
| Consumption.BatchingIsInvisible | pkg/consumption/consumption.go:201-250 | any two batch sizes and wrappers answering about the same meters read the same |
| Consumption.EachDeviceOnItsOwn | pkg/consumption/consumption.go:252-265 | a device's figure is the sum over its own distinct columns, wherever it stands in the list |
| Consumption.FetchedIsUsed | pkg/consumption/consumption.go:190-278 | what an honest wrapper's answers amount to, column by column: later end less earlier end over the first column of each path and carrier that has both ends; no entry where none has |
| Cache.ReadableGroups | pkg/cache/cache.go:403-412 | the paths with read access, in order, whatever order the map yields |
| Cache.AffectedGroups | pkg/cache/cache.go:203-214 | the groups before and after, each once, in order |
| Cache.Store.ListDeviceGroups | pkg/cache/cache.go:374-397 | the pages give every device's groups, and fail if and only if a page needed fails |
| Cache.Store.RefreshDevices | pkg/cache/cache.go:148-188 | the sweep replaces the view by what the sources say and drops readings of unknown devices, or leaves everything alone |
| Cache.Store.RefreshDevice | pkg/cache/cache.go:222-271 | one entry is replaced or removed, and the device's readings go exactly if it is gone or known under another type; the permissions are asked only about a device that is there, and a source that fails changes nothing |
| Cache.Store.DevicesOfGroup | pkg/cache/cache.go:290-306 | exactly the group's devices, by id |
| Cache.Store.RefreshGroups | pkg/cache/cache.go:108-140 | the tree is replaced; added is what is new or different, removed what is gone, both by path |
| Cache.RefreshAgreesWithSweep | pkg/cache/cache.go:148-271 | if only one device changed at the sources, re-reading it leaves the view a full sweep would build |
| Cache.SweepSeesWhatIsThere | pkg/cache/cache.go:374-437 | a sweep holds every device the repository ships and no other: its display name or else its name, no columns without a type, and in order the groups that may read it |
| Cache.RefreshReplacesOne | pkg/cache/cache.go:222-271 | re-reading one device puts that in its place, or removes it if the repository does not ship it, and touches nobody else |
| Cache.NoDirtyGroupMissed | pkg/cache/cache.go:198-214 | a group whose list of devices changed is among the affected ones |
| Resolving.Resolve | pkg/reconcile/reconcile.go:213-284 | resolving a batch re-reads what it names and asks for its groups, trigger by trigger |
| Resolving.TriggersCoverTheChange | pkg/reconcile/reconcile.go:208-284 | a batch naming every changed device leaves the view of a full sweep, and every group whose list changed has been asked for |
| Resolving.BatchAsksOnly | pkg/reconcile/reconcile.go:213-284 | a batch asks for everything exactly if a graph it names is gone, and otherwise for the paths of the graphs it names and of the devices it re-read, before and after; nobody else is re-read |
| ReportWalk.Report.Walk | pkg/plan/plan.go:183-196 | the recursion over the shared visited set ends on any graph |
| ReportWalk.Report.RenderTree | pkg/plan/plan.go:130-181 | the lines are those of the walk from the root, siblings by label and id, then the unreached nodes in order |
| ReportWalk.ArrangedInOrder | pkg/plan/plan.go:139-153 | the children walked are the inverted edges, none standing behind one with a later label, or with the same label and a later id |
| ReportWalk.VisitsWhatLeadsToTheRoot | pkg/plan/plan.go:158-170 | visited is exactly what edges lead up to the root from, cycles and several parents included |
| ReportWalk.EveryNodeOnce | pkg/plan/plan.go:130-196 | every node is shown once in the tree or named once as unreachable, never both |
| ReportLayout.ReportIsLaidOut | pkg/plan/plan.go:130-196 | below each line are the node's children, in their order and one step deeper; a node shown before is repeated with nothing below it; what was not reached follows by id |
| ReportWalk.ValidGraphIsShownWhole | pkg/plan/plan.go:130-196 | on a valid graph every node is in the tree |
| ReportWalk.Unexplained | pkg/plan/plan.go:214-226 | the loop subtracts the figures of those children that have one |
| ReportWalk.UnexplainedIsTheRemainder | pkg/plan/plan.go:203-227 | the unexplained part printed for a meter is the capacity the placement had left of it |
| Updating.BestAgreesWithPrimary | pkg/reconcile/reconcile.go:866-887 | the second maximum that starts at zero agrees with the carrier choice of the placement |
| Updating.WithoutReading | pkg/reconcile/reconcile.go:866-887 | the devices listed without a reading are exactly those the placement had no carrier for |

## Left out

- HTTP, Kafka, JSON, logging, configuration, the REST interface and the process start: plumbing, and the systems behind it are parameters of the model.
- pkg/carrier and the naming of a group from its path: short rules that would only add easy members; a device's columns and a group's name are given.
- Floating-point rounding: readings are `real`, so sums do not depend on their order; NaN and infinities count as unreadable cells.
- The platform model's `Valid` and `DeleteNode` are not in the repository. `Valid` is stated from docs/graph-contract.md:25-29 with distinct node and edge ids and edges that connect nodes; `DeleteNode` is an oracle (`Detaching.Platform`) that may refuse, and whose effect is fixed only on trees of weight 100. A panic is a refusal.
- Ids for new nodes and edges are a fixed stream without repetitions; `Attach` inside a pass starts it afresh, which is sound because every id is compared with those taken.
- Refinement.FoldRebuildsBuild: asks for devices that join in placing order and by no name prefix, because otherwise the parents differ (`Refinement.NamesMayDecide`); edge ids and node order are not compared.
- Detaching.DeparturesClose: asks for a tree in which every node has one parent; on graphs a user gave several parents only `Updating.DeparturesRemove` is stated.
- Detaching.RemovalOrderIrrelevant: compares the parents; the ids, order and marks of rerouted edges are the platform model's and are not compared.
- Rest.SecondPassSilent: asks for readings, devices and groups that stay as they are, no failed call, no refused removal, at most one graph claiming a group, and device ids that name no foreign node; a shadowed duplicate is orphaned only in a later pass.
- Ledger.PassFollowsTheGroup: asks, as `Aftermath.PassRevises`, `PassShares` and `AbandonedIsForgotten` do, for the well-formed world of `Rest.Ready`, and the first three for no refused removal on the graph in question.
- GroupTree.CollectsExactlyTheReachable: asks that entries with the same id have the same children; a provider of two minds is walked by the entry that came first.
- Consumption.FetchedIsUsed: asks that readable answers for one index agree with each other; when they do not, `Consumption.TakeIn` still says that the first one wins.
- Token.ServedWhileFresh: leaves out lifetimes below -9223372006 seconds, where it is false (`Token.NegativeLifetimeIsKept`).
- Token.CallIsAnswered: leaves out cached lifetimes below -9223372006 seconds, as `Token.ServedWhileFresh` does.
- Resolving.TriggersCoverTheChange: takes the sources as still while one batch is resolved.
- The cache of readings with its window and time to live, and the choice between cached and fetched readings: a pass is given its readings.
- A pass over one requested group (`drain` beyond its locked section) is the group's part of a full pass and is not modelled apart; its timing is in `Requests`.
- The order in which a pass comes to orphaned graphs follows Go's map iteration; the model takes them by position, and `Pass.JobsApart` is why that does not matter.
- Stored graphs are addressed by position, the id being a value of the graph; a created graph is appended.
- Aliasing: in the pass `next := existing` shares its slices with the graph that was listed, so a followed rename edits both; the model works on values. The marks and attributes of edges that a removal reroutes belong to the platform model.
- Two fetches at once, two refreshes at once, and a sweep during a refresh: `Consumption` and `Cache` run one call at a time.
- Requests.EveryRequestRuns: says no more than `Requests.EveryRequestServed` about how a pass ended.
- Requests.EveryRequestServed: says that a pass over the group began, not that it succeeded, and counts a full pass that reports any error as failed; a context that ends in the middle of a round ends the loop and is not modelled.
- The carrier, note and reading window kept in a placement, and the notes of a planned change.
- Report text, labels and the section of weighed candidates.
- Small look-up loops that change nothing (attributes, first root, find a node) are recursive functions, and the library sort is the function `Sort`.
