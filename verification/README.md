# Verified models of kuill

kuill is a dashboard for Kubernetes: a Go proxy that gathers resources, permissions, watches
and metrics from the cluster and keeps user sessions, and a browser application that draws
and edits what it gets. This project models the parts of both that decide something
intricate, and proves in Dafny what they promise. `dafny verify dfyconfig.toml` checks
everything.

| Files | What is modelled |
|---|---|
| `HexGrid.dfy`, `HexBorder.dfy`, `HexTrail.dfy`, `HexPieces.dfy`, `HexagonChart.dfy`, `HexRing.dfy` | the hexagon chart: placement, neighbors, collecting and tracing group borders, and what an outline misses |
| `ResourcesFanOut.dfy`, `AccessFanOut.dfy`, `WatchAggregator.dfy` | the concurrent parts of the proxy, as step relations over goroutines, counters and channels |
| `Ownership.dfy`, `ResourceUtils.dfy`, `ResourceColumns.dfy`, `RelatedResources.dfy` | queue loops over the graph of owned and related resources |
| `YamlIndex.dfy`, `ManifestPaths.dfy`, `ManifestCompletion.dfy`, `Base64.dfy`, `Filters.dfy`, `FieldOrder.dfy` | text positions, paths into a manifest and completions along them, decoding, filter strings, filtering and the order of filters |
| `Aggregates.dfy`, `Metrics.dfy`, `MetricsSummary.dfy`, `MetricsTotals.dfy`, `MetricsFigures.dfy` | the metrics summaries, what they show of the reports and what they conserve |
| `Sessions.dfy` | session tokens that slide forward while they are used |
| `Counting.dfy`, `Stepping.dfy`, `Strings.dfy`, `Wrappers.dfy` | sums and reorderings, walks of single steps, `split` and `join`, option type |

The concurrent parts are state machines: an action is one step of one goroutine, `Enabled`
and `Apply` give its guard and effect, and `Reaches` holds for the states that some schedule
leads to. What the API server, a backend or the clock answers is an arbitrary parameter.
JavaScript objects used as tables are maps; where the order of their keys could matter it is
an arbitrary sequence.

Some things one would expect of this code do not hold. They are stated with the exact
condition under which they do:

- A request for all resources hangs exactly when the cluster reports no namespace and some
  kind has a non-empty cluster-wide list; it is then never answered in any schedule
  (`ResourcesFanOut.HangsIff`).
- The loops over owned resources end exactly when no ownership cycle can be reached
  (`Ownership.LoopEndsIff`, `Ownership.OwnsItself`); the ownership test also ends when its answer is yes
  (`ResourceUtils.DecidesIff`).
- `resolveRelated` throws exactly when some related key has no resource
  (`RelatedResources.ResolveRelated`, `RelatedResources.UnknownRelated`).
- `decodeBase64` returns the encoded bytes exactly when there is at least one and they do
  not read as an escape of `unescape` (`Base64.DecodeRoundTrip`).
- The path printed for a node leads back to it exactly when every key on the way is a word
  and the first of its name in its map, and every item is an item of a field
  (`ManifestPaths.WalkRoundTrip`); a key with a dash is lost (`ManifestPaths.DashedKey`).
- The completions for several paths do not start over from the root for each. The path of a
  node gets that node's completions exactly when the walk stands by then on a node with a
  kind whose definition leads on along the keys, the path can be told as above, and the walk
  has not left the root or the path repeats itself and ends on no map
  (`ManifestCompletion.OfferedIff`,
  `ManifestCompletion.SecondPathLost`).
- `normalizeFilter` keeps the meaning of a filter exactly when it holds a colon or does not
  begin with an exclamation mark (`Filters.NormalizeKeepsMeaning`,
  `Filters.BangWithoutColon`).
- The order of the filters does not matter exactly when the resource is deleted, or at least
  two fields fail with the mark cleared, or one does and it is the only field or fails with
  the mark set as well, or none does and with the mark set all fields fail or none
  (`Filters.SameInEveryOrderIff`, `Filters.FlagReaderNeedsOrder`); for the division into
  global and dynamic filters as well see `Filters.SameInEveryDivisionIff`.
- The groups read from a session are those of the login exactly when there is one and none
  holds a comma (`Sessions.UserAndGroupsSurvive`, `Sessions.NoGroupsReadAsOne`,
  `Sessions.CommaReadAsTwo`).
- A session whose timeout has passed may still be served within the second in which its
  token expires; at any point of any run, every next request after the timeout is rejected
  exactly when the timeout ends with a second (`Sessions.IdleIsRejectedAtOnce`,
  `Sessions.IdleWithinTheSecondIsServed`).
- The volumes of the nodes add up to those of the cluster with usage and capacity exchanged,
  because `convertPodSummary` exchanges them (`MetricsTotals.ClusterMatchesNodes`); usage
  agrees with usage exactly when, in 64 bits, the pods use as much as they have
  (`MetricsTotals.NodeVolumesAgreeIff`, `MetricsTotals.HalfFilledVolume`).
- A watch never cleans up after itself: of the three errors that the writer and the client
  reader send, one is received and one fits into the channel, so that whenever nothing can
  move exactly one of the two is blocked forever, if there is a backend at all
  (`WatchAggregator.OneStaysBlocked`; either can be the one, `WatchAggregator.WriterStays`
  and `WatchAggregator.ClientReaderStays`).
- A reader of a backend is left behind forever in some schedule over n backends that reads
  at most k messages exactly when n > 50, or n > 0 and k > 32
  (`WatchAggregator.SticksIff`, `WatchAggregator.StuckForever`).
- The outline drawn for a group covers its whole border exactly when the group is connected
  and encloses no hexagon outside of it (`HexagonChart.ComputeBorder`,
  `HexTrail.CycleCoversIff`); for a ring of six items only the rim of the hole is drawn
  (`HexRing.HoleOnly`).

## Model

| member | source | states |
|---|---|---|
| HexGrid.RowsFor | pkg/ui/src/components/dashboard/HexagonChart.js:88-103 | for every number of items there are at least two rows, so that the first and the last row differ |
| HexGrid.RowsFit | pkg/ui/src/components/dashboard/HexagonChart.js:88-103 | the rows are as many as fit at one and a half radii each: 2, 3, 4, 6, 9 and again 4 as the items grow in number |
| HexGrid.DrawnSideIsSide | pkg/ui/src/components/dashboard/HexagonChart.js:129-141 | the placement arithmetic draws the sides of an item around the center (2q + r % 2, -2r) of column q and row r |
| HexGrid.CenterInjective | pkg/ui/src/components/dashboard/HexagonChart.js:129-141 | no two items are drawn in the same place |
| HexGrid.SlotValue | pkg/ui/src/components/dashboard/HexagonChart.js:305-320 | each neighbor slot holds the item number of the cell on the far side of that side, and -1 above the first and below the last row |
| HexGrid.NeighborShares | pkg/ui/src/components/dashboard/HexagonChart.js:305-320 | a slot that names an item names the hexagon whose side (j + 3) % 6 is side j reversed, and that item lists this one in the opposite slot |
| HexGrid.AcrossIsNeighbor | pkg/ui/src/components/dashboard/HexagonChart.js:305-320 | whatever item is drawn on the far side of a side is named by that side's slot |
| HexGrid.SideReversed | pkg/ui/src/components/dashboard/HexagonChart.js:334-345 | two hexagons share a side, in opposite directions, exactly when they face each other across it |
| HexGrid.SideInjective | pkg/ui/src/components/dashboard/HexagonChart.js:334-345 | a directed side belongs to one hexagon only |
| HexGrid.SharedSideListed | pkg/ui/src/components/dashboard/HexagonChart.js:305-320 | any two drawn hexagons that share a side list each other, in opposite slots |
| HexBorder.BorderIsUnsharedSides | pkg/ui/src/components/dashboard/HexagonChart.js:226-234 | the border of a group is exactly the sides that lie on one hexagon of the group and on no second one |
| HexBorder.OneInOneOut | pkg/ui/src/components/dashboard/HexagonChart.js:279-284 | at every corner at most one border segment leaves and at most one enters |
| HexBorder.Continues | pkg/ui/src/components/dashboard/HexagonChart.js:279-284 | where a border segment enters a corner one leaves it, and the other way round |
| HexagonChart.AddFeature | pkg/ui/src/components/dashboard/HexagonChart.js:124-143 | filing a hexagon keeps the groups exactly the items of each name in item order, every group listed once |
| HexagonChart.Layout | pkg/ui/src/components/dashboard/HexagonChart.js:116-145 | every item is laid out at its place, under its group, for at least two rows |
| HexagonChart.GroupsDiffer | pkg/ui/src/components/dashboard/HexagonChart.js:129 | two items share a group exactly if their groups are named alike, a missing name being that of the default group |
| HexagonChart.BorderSideMeaning | pkg/ui/src/components/dashboard/HexagonChart.js:228-232 | the test on the neighbor index holds exactly when no hexagon of the group lies on the far side |
| HexagonChart.NonEmptyGroupHasBorder | pkg/ui/src/components/dashboard/HexagonChart.js:255-258 | a group with an item has a border segment, so that the first segment exists |
| HexagonChart.CollectSegments | pkg/ui/src/components/dashboard/HexagonChart.js:222-253 | the segments in play are exactly those found on some feature, each is filed under its two end points and nothing else is, and the first one is the first in the order of features and sides |
| HexagonChart.AddSegment | pkg/ui/src/components/dashboard/HexagonChart.js:239-247 | filing a segment keeps the index by end points exact |
| HexagonChart.Refile | pkg/ui/src/components/dashboard/HexagonChart.js:267-270 | removing a drawn segment keeps the index by end points exact |
| HexagonChart.TakeSegment | pkg/ui/src/components/dashboard/HexagonChart.js:266-284 | the next segment touches the far end, and is missing only if no segment in play does |
| HexTrail.TrailCloses | pkg/ui/src/components/dashboard/HexagonChart.js:283-289 | a trail whose continuation is already drawn has come back to its first point |
| HexagonChart.NextStep | pkg/ui/src/components/dashboard/HexagonChart.js:279-289 | the segment looked up continues the trail, and if there is none the trail is a cycle |
| HexagonChart.TraceBorder | pkg/ui/src/components/dashboard/HexagonChart.js:255-291 | the walk ends, and after one leading point that repeats the end of the first segment its points are a closed cycle of border segments, each used once |
| HexagonChart.ComputeBorder | pkg/ui/src/components/dashboard/HexagonChart.js:222-292 | for every non-empty group of every laid-out chart the result is such an outline, starting with the first border side found; it covers the whole border of the group if and only if the group is connected and encloses no hexagon outside of it |
| HexagonChart.Borders | pkg/ui/src/components/dashboard/HexagonChart.js:146-168 | exactly the groups that occur are drawn, each with its outline |
| HexTrail.TrailStaysTogether | pkg/ui/src/components/dashboard/HexagonChart.js:266-291 | along a walk the hexagons on its inner side are joined by a way through the group, and those on its outer side both escape to its right or neither does |
| HexPieces.Drop | pkg/ui/src/components/dashboard/HexagonChart.js:279-284 | for a part of the border that goes on wherever it comes to, crossing a side changes the number of its segments crossed on the way to the right by what runs along that side |
| HexPieces.PartIsWhole | pkg/ui/src/components/dashboard/HexagonChart.js:279-284 | in a connected group that encloses nothing, a part of the border that goes on wherever it comes to is all of it |
| HexTrail.CycleCoversIff | pkg/ui/src/components/dashboard/HexagonChart.js:255-291 | a closed outline covers the border if and only if the group is connected and encloses nothing |
| HexRing.HoleOnly | pkg/ui/src/components/dashboard/HexagonChart.js:222-292 | for the ring of items 1, 3, 5, 6, 7 and 8 among twelve, every segment drawn faces the hole and the border is not covered |
| ResourcesFanOut.ReachableInv | pkg/proxy/resources.go:52-121 | in every schedule the wait group counts the unfinished goroutines, and the channel and the result together hold exactly the lists sent so far |
| ResourcesFanOut.KindSendersBound | pkg/proxy/resources.go:93-120 | a kind sends at most one list per namespace, because a cluster-wide list excludes the namespaced ones |
| ResourcesFanOut.SendNeverWaits | pkg/proxy/resources.go:52-62 | with at least one namespace no send blocks in any schedule |
| ResourcesFanOut.NeverStuck | pkg/proxy/resources.go:52-76 | with at least one namespace no schedule deadlocks before the response is encoded |
| ResourcesFanOut.ScheduleBound | pkg/proxy/resources.go:55-122 | no schedule is longer than the work there is at the start |
| ResourcesFanOut.Complete | pkg/proxy/resources.go:55-122 | every schedule can be continued until nothing moves |
| ResourcesFanOut.ResultIsVisible | pkg/proxy/resources.go:55-75 | whatever the schedule, the response holds, as a multiset, each kind's non-empty cluster-wide list when permitted and otherwise, for a namespaced kind refused with 403, its non-empty lists per namespace |
| ResourcesFanOut.ResultIsAnswered | pkg/proxy/resources.go:78-121 | whatever the schedule, a list is in the response exactly if it holds the non-empty answer for its kind, cluster-wide under no namespace, or where that was forbidden for a namespaced kind, for the namespace it is labelled with |
| ResourcesFanOut.NeverEncoded | pkg/proxy/resources.go:52-76 | without a namespace and with some non-empty cluster-wide list no reachable state has the response encoded |
| ResourcesFanOut.HangsIff | pkg/proxy/resources.go:52-62 | some schedule of a request gets stuck if and only if there is no namespace and some kind has a non-empty cluster-wide list; if so no schedule reaches the answer, and if not some schedule does |
| AccessFanOut.ClassifySetsOne | pkg/proxy/access.go:102-114 | a permission sets the flag of the review it answers and no other |
| AccessFanOut.ClassifyMeans | pkg/proxy/access.go:102-114 | for every verb and subresource, which flags a permission sets |
| AccessFanOut.ReachableInv | pkg/proxy/access.go:89-99 | the invariant on goroutines, counter, channel and flags holds in every state of every schedule |
| AccessFanOut.WaitGroupUse | pkg/proxy/access.go:89-99 | the counter is the number of unfinished goroutines, it is raised and lowered only while positive, and once the channel is closed only the range loop can move |
| AccessFanOut.FlagsAreGranted | pkg/proxy/access.go:91-115 | in every schedule that returns, a flag is set if and only if its review at the requested scope was allowed, or that scope was the cluster, the review was cleanly denied, and some review in a namespace was allowed |
| AccessFanOut.AnswerMeans | pkg/proxy/access.go:91-115 | in every schedule that returns, each field of the answer tells whether the review with the verb it is named after was granted, without a subresource for get, put and delete, with log and exec for the other two |
| AccessFanOut.NeverStuck | pkg/proxy/access.go:96-115 | until the answer is returned some goroutine can move |
| AccessFanOut.ScheduleBound | pkg/proxy/access.go:134-193 | no schedule is longer than the work there is at the start |
| WatchAggregator.ReachableInv | pkg/proxy/watch.go:285-309 | in every schedule, what the client has, the writer holds, the channel holds and the reader holds is, in this order, what the reader took from its backend |
| WatchAggregator.ReceivedInOrder | pkg/proxy/watch.go:285-386 | for any number of backends and any schedule, what the client has received from a backend is a prefix of what the backend has sent, and at most 32 messages are queued |
| WatchAggregator.NothingInTransit | pkg/proxy/watch.go:374-386 | with nothing in transit the client has every message that was read |
| WatchAggregator.TransitMoves | pkg/proxy/watch.go:358-386 | while the writer works, a message in transit can always move on |
| WatchAggregator.ScheduleBound | pkg/proxy/watch.go:236-245 | a run that reads k messages takes at most 3k + 3n + 8 other steps for n backends, the sends of the writer and of the client reader included |
| WatchAggregator.Complete | pkg/proxy/watch.go:236-398 | every schedule can be continued until nothing can move |
| WatchAggregator.OneStaysBlocked | pkg/proxy/watch.go:236-245 | whenever nothing can move, the handler has returned, every backend reader has ended or is stuck, and with at least one backend exactly one of the writer and the client reader is blocked on the channel of errors |
| WatchAggregator.WriterStays | pkg/proxy/watch.go:319-323 | for every number of backends but zero some run ends with the writer blocked |
| WatchAggregator.ClientReaderStays | pkg/proxy/watch.go:332-345 | for every number of backends but zero some run ends with the client reader blocked |
| WatchAggregator.StuckForever | pkg/proxy/watch.go:298-308 | a reader stuck on the channel of messages after the writer has left, or on the channel of errors that nobody empties, stays so under every further step, and so do a blocked writer and a blocked client reader |
| WatchAggregator.ReachableCounted | pkg/proxy/watch.go:285-309 | the messages read are those with the client, the writer, the channel and the readers, and the errors in the channel are those of the readers that have ended |
| WatchAggregator.SticksIff | pkg/proxy/watch.go:298-308 | some schedule over n backends with at most k reads leaves a reader stuck if and only if n > 50, or n > 0 and k > 32 |
| Ownership.LoopEndsIff | pkg/ui/src/utils/resource-utils.js:75-87 | a queue loop over owned resources ends if and only if no ownership cycle can be reached, and exactly then the resources below can be ranked |
| Ownership.BelowMeans | pkg/ui/src/utils/resource-utils.js:80-85 | a resource is below another exactly if a chain of stored owned links leads to it |
| Ownership.OwnsItself | pkg/ui/src/utils/resource-utils.js:75-87 | a resource that owns itself keeps the loop going forever |
| Ownership.VisitedIsVisits | pkg/ui/src/utils/resource-utils.js:203-218 | the loop visits each resource once for every chain of ownership that leads to it |
| Ownership.VisitedOnce | pkg/ui/src/utils/resource-utils.js:203-218 | with single owners the recursive count of visits is one for a resource below the root and zero elsewhere |
| Ownership.ForestVisited | pkg/ui/src/utils/resource-utils.js:203-218 | on an ownership forest the loop takes out the root and everything it owns, each exactly once |
| ResourceUtils.IsResourceOwnedBy | pkg/ui/src/utils/resource-utils.js:71-90 | whenever the loop comes to a decision, true if and only if both resources are given and the one is owned by the other, directly or not |
| ResourceUtils.QueueFinds | pkg/ui/src/utils/resource-utils.js:75-87 | a resource on a path of ownership from any place of the queue is found after finitely many turns, cycles or not |
| ResourceUtils.DecidesIff | pkg/ui/src/utils/resource-utils.js:75-87 | the test comes to a decision if and only if the answer is yes or no ownership cycle can be reached |
| ResourceUtils.Sort | pkg/ui/src/utils/resource-utils.js:219-220 | a permutation in descending order of time |
| ResourceUtils.EventsForResource | pkg/ui/src/utils/resource-utils.js:201-222 | newest first by any collation, an event is selected exactly if it is filed under the resource or one below it; on an ownership forest it occurs as often as it is filed under all of those together |
| ResourceUtils.SelectedIff | pkg/ui/src/utils/resource-utils.js:203-218 | an event comes out of the loop exactly if the index holds it under the resource or one below it |
| ResourceUtils.ForestCopies | pkg/ui/src/utils/resource-utils.js:203-218 | on an ownership forest an event comes out as many times as the index holds it under the keys of the subtree |
| ResourceUtils.ForestEvents | pkg/ui/src/utils/resource-utils.js:203-218 | on an ownership forest the visits yield the events of the root and of each resource below it once |
| ResourceColumns.OwnedAverage | pkg/ui/src/utils/resource-column-utils.js:43-63 | the value shown is the usage of the leaves with metrics that are visited over their number, and nothing if there is none; it lies within any bounds of the leaves; on an ownership forest it is the mean over the leaves owned, each once |
| ResourceColumns.SampledOnce | pkg/ui/src/utils/resource-column-utils.js:43-59 | on an ownership forest every descendant, and nothing else, is looked at exactly once |
| ResourceColumns.AverageWithinLeaves | pkg/ui/src/utils/resource-column-utils.js:60-62 | the average shown lies within any bounds of the leaves owned |
| ResourceColumns.ForestAverage | pkg/ui/src/utils/resource-column-utils.js:43-63 | on an ownership forest the average over the visits is that over everything owned, each resource once |
| RelatedResources.ResolveOwned | pkg/ui/src/components/configuration-pane/RelatedResourcesPane.js:386-397 | the table is filled with exactly the proper descendants |
| RelatedResources.InitialKeys | pkg/ui/src/components/configuration-pane/RelatedResourcesPane.js:365 | the queue starts with exactly the keys related to some owned resource |
| RelatedResources.FollowRelated | pkg/ui/src/components/configuration-pane/RelatedResourcesPane.js:366-380 | on any finite graph, cycles included, the loop ends with exactly what related links reach from its start, or throws only if some key reached is unknown |
| RelatedResources.LinkedMeans | pkg/ui/src/components/configuration-pane/RelatedResourcesPane.js:366-380 | a resource is linked to another exactly if a chain of stored related links leads to it |
| RelatedResources.ResolveRelated | pkg/ui/src/components/configuration-pane/RelatedResourcesPane.js:360-384 | the result is exactly the unfiltered ones among the owned descendants and everything that related links reach from them; it throws if and only if one of those keys has no resource |
| RelatedResources.UnknownRelated | pkg/ui/src/components/configuration-pane/RelatedResourcesPane.js:366-380 | a graph whose related key has no resource |
| YamlIndex.Index.constructor | pkg/ui/src/utils/yaml-utils.js:113-132 | the table holds start and length of every line |
| YamlIndex.LocatesAtMostOnce | pkg/ui/src/utils/yaml-utils.js:365-385 | a position has at most one row and column |
| YamlIndex.LocatesSomewhere | pkg/ui/src/utils/yaml-utils.js:365-385 | every position of the text, its end included, has one |
| YamlIndex.LocatedText | pkg/ui/src/utils/yaml-utils.js:125-130 | the character at a row and column is the one at its position; behind a line stands a newline or the end of the text |
| YamlIndex.Search | pkg/ui/src/utils/yaml-utils.js:366-379 | the binary search finds a row that holds the position, or the gap between rows into which it falls |
| YamlIndex.Index.PositionOf | pkg/ui/src/utils/yaml-utils.js:137 | a row and column inside a line yields their position |
| YamlIndex.Index.PositionToRowCol | pkg/ui/src/utils/yaml-utils.js:365-385 | nothing exactly for negative positions, the row and column of a position of the text, and the end of the last row beyond it |
| YamlIndex.RowColRoundTrip | pkg/ui/src/utils/yaml-utils.js:365-385 | the answer for the position of a row and column is that row and column |
| ManifestCompletion.CompletionsForPath | pkg/ui/src/utils/ManifestAutocompleter.js:66-84 | the loop, which moves the place in the document and the definition in turn and may throw at either, ends where the walk in the document and the walk in the schema end, each on its own, and throws exactly if one of them does; both may start anywhere |
| ManifestCompletion.LastPart | pkg/ui/src/utils/ManifestAutocompleter.js:73-83 | behind a definition with properties the next key leads to the definition that the property, or the items of an array property, refers to, to the name of the type given instead, and throws if the property or its type is missing; elsewhere the definition stays, and behind a reference to nothing it throws |
| ManifestCompletion.ReferenceResolved | pkg/ui/src/utils/ManifestAutocompleter.js:77-79 | the reference to a name leads to the definition of that name, or to none |
| ManifestPaths.SubAstReaches | pkg/ui/src/utils/ManifestAutocompleter.js:109-124 | a step from a place that the path notation can tell leads to another one |
| ManifestPaths.SubAstMeans | pkg/ui/src/utils/ManifestAutocompleter.js:109-124 | a step from a map comes to the value of the first mapping with the key, or to the item of it, to nothing if there is none, and throws for an index into anything but items |
| ManifestPaths.WalkReaches | pkg/ui/src/utils/ManifestAutocompleter.js:67-72 | along any text whatever a walk only stands on places that the notation can tell |
| ManifestPaths.MatchPrinted | pkg/ui/src/utils/ManifestAutocompleter.js:71 | the pattern reads back a printed key of word characters and what follows it |
| ManifestPaths.MatchAnywhere | pkg/ui/src/utils/ManifestAutocompleter.js:71 | the first word of any text is read, with what follows it |
| ManifestPaths.IndexMeans | pkg/ui/src/utils/ManifestAutocompleter.js:71 | a number is read behind a word exactly if digits and nothing else stand there in square brackets |
| ManifestPaths.IndexPrinted | pkg/ui/src/utils/yaml-utils.js:392-394 | a printed index is read back as the same number |
| ManifestPaths.WalkableWalks | pkg/ui/src/utils/yaml-utils.js:388-401 | the walk along a tellable node's path ends at that node, and the keys read from the path are those of the fields on the way |
| ManifestPaths.WalkRoundTrip | pkg/ui/src/utils/yaml-utils.js:388-401 | the part of that in the document alone: the printed path leads back if and only if the location is tellable |
| ManifestPaths.WalkFromElsewhere | pkg/ui/src/utils/ManifestAutocompleter.js:109-124 | a walk along the path of a node that starts at another tellable location ends at the node if and only if the node is tellable and its path is that of the start followed by its own beginning, and, unless the start is the root, the node is no map |
| ManifestCompletion.PathRoundTrip | pkg/ui/src/utils/ManifestAutocompleter.js:66-84 | for every node below the root, every schema, every definition and every tellable location to start from, the loop along the printed path of the node ends at that very node if and only if its location is tellable, the path repeats itself behind that of the start, and the schema has a definition for the keys on the way; it then holds that definition |
| ManifestCompletion.CompletionsForPaths | pkg/ui/src/utils/ManifestAutocompleter.js:43-104 | the loop over all paths yields for each path the round that starts where the walk stands after the paths before it, and throws exactly if one of those rounds throws |
| ManifestCompletion.OfferedIff | pkg/ui/src/utils/ManifestAutocompleter.js:43-104 | after any paths, the printed path of a node gets the completions of that very node if and only if the walk stands on a node with a known kind whose definition leads on along the keys, the node is tellable, and either the walk stands on the root or the node is no map and its path is that of the place where the walk stands followed by its own beginning |
| ManifestCompletion.PassedForGood | pkg/ui/src/utils/ManifestAutocompleter.js:65-66 | once the walk stands where no kind is known, every later path is passed over and the walk stays |
| ManifestCompletion.SecondPathLost | pkg/ui/src/utils/ManifestAutocompleter.js:65-72 | of the same path twice the first gets its completions and the second none |
| ManifestPaths.DashedKey | pkg/ui/src/utils/ManifestAutocompleter.js:71 | the path of a field with the key a-b leads to nothing |
| Base64.AlphabetIndex | pkg/ui/src/converters.js:72-76 | the number of each character is its place in the table of section 4 of RFC 4648 |
| Base64.CleanAround | pkg/ui/src/converters.js:85-91 | cleaning keeps exactly the characters of the table and the padding, in order |
| Base64.ManDecodes | pkg/ui/src/converters.js:78-111 | TWFu decodes to the codes of Man |
| Base64.OrIsSum | pkg/ui/src/converters.js:97-99 | filling the low bits that a shift left free is addition |
| Base64.OrBits | pkg/ui/src/converters.js:97-99 | the bits of the result are those set in either number |
| Base64.GroupRoundTrip | pkg/ui/src/converters.js:97-106 | the sextets of three bytes decode to them, and padding drops the missing bytes |
| Base64.DecodeLoop | pkg/ui/src/converters.js:92-109 | the loop appends what the rounds from the start to the end of the input yield |
| Base64.DecodeInvertsEncode | pkg/ui/src/converters.js:92-109 | the loop inverts the encoding of section 4 of RFC 4648 for every non-empty byte sequence |
| Base64.UnescapeChanges | pkg/ui/src/converters.js:110 | the final unescape leaves a text alone if and only if it holds no escape, and shortens it otherwise |
| Base64.ShortEscapeRead | pkg/ui/src/converters.js:110 | a percent sign and two hexadecimal digits, in either case, become the number they write |
| Base64.LongEscapeRead | pkg/ui/src/converters.js:110 | so do a percent sign, the letter u and four digits |
| Base64.DecodeBase64 | pkg/ui/src/converters.js:78-111 | the output is the decoded text of the cleaned input, unescaped; for an input that cleans to an encoding of some bytes it is those bytes if and only if there is one and they hold no escape |
| Base64.DecodeRoundTrip | pkg/ui/src/converters.js:78-111 | whatever foreign characters are strewn through the encoding, the loop rebuilds the bytes if and only if there is one, and the function returns them if and only if, besides, they hold no escape |
| Base64.EscapeIsLost | pkg/ui/src/converters.js:110 | the three bytes of %41 come out as the letter A |
| Filters.SplitAtColon | pkg/ui/src/utils/filter-utils.js:182-191 | key and value are the texts before and after the first colon, with the value's exclamation mark moved to the key |
| Filters.PartsRoundTrip | pkg/ui/src/utils/filter-utils.js:170-191 | printing and reading back gives the same key and value if and only if the key holds no colon and the value's exclamation mark cannot be taken for the key's |
| Filters.NormalizeKeepsMeaning | pkg/ui/src/utils/filter-utils.js:170-191 | a filter and its normal form are read alike if and only if the filter holds a colon or does not begin with an exclamation mark |
| Filters.BangWithoutColon | pkg/ui/src/utils/filter-utils.js:170-191 | the filter !x and its normal form are read differently |
| Filters.NormalizeIdempotent | pkg/ui/src/utils/filter-utils.js:170-180 | normalizing twice is normalizing once, for every string |
| Filters.ApplyFiltersToResource | pkg/ui/src/utils/filter-utils.js:35-168 | the answer and the mark agree, and are what the run over the fields leaves; the rows below tell what each field reads |
| Filters.ApplyFilters | pkg/ui/src/utils/filter-utils.js:18-24 | true exactly if the global filters mark the resource; the mark is set exactly if either set of filters does |
| Filters.NegationComplements | pkg/ui/src/utils/filter-utils.js:45-163 | a field with an exclamation mark fails exactly the resources that the field without it lets pass |
| Filters.AnywhereField | pkg/ui/src/utils/filter-utils.js:52-78 | with the field * alone, a resource that is not deleted keeps its mark cleared exactly if some value occurs inside some metadata value or is the value of some label |
| Filters.StatusField | pkg/ui/src/utils/filter-utils.js:79-82 | with status, exactly if the status summary is a value |
| Filters.ZoneField | pkg/ui/src/utils/filter-utils.js:83-88 | with zone, exactly if the zone label or else the parameter zone is a value |
| Filters.RegionField | pkg/ui/src/utils/filter-utils.js:89-92 | with region, exactly if the region label is a value |
| Filters.InstanceTypeField | pkg/ui/src/utils/filter-utils.js:93-96 | with instanceType, exactly if the instance type label is a value |
| Filters.RoleField | pkg/ui/src/utils/filter-utils.js:97-102 | with role, exactly if the role label or the name of the role reference is a value |
| Filters.HostnameField | pkg/ui/src/utils/filter-utils.js:103-106 | with hostname, exactly if the host name label is a value |
| Filters.NodeField | pkg/ui/src/utils/filter-utils.js:107-110 | with node, exactly for pods whose node is a value |
| Filters.SubjectField | pkg/ui/src/utils/filter-utils.js:111-119 | with subject, exactly if some subject is a value |
| Filters.FreeFields | pkg/ui/src/utils/filter-utils.js:120-142 | with freeMemory or freeCPU, never |
| Filters.DetachedField | pkg/ui/src/utils/filter-utils.js:143-149 | with detached, exactly for pods with the annotation if true is a value, or else as under any other name |
| Filters.NamespaceField | pkg/ui/src/utils/filter-utils.js:150-153 | with namespace, exactly if there is one and it is a value |
| Filters.OtherField | pkg/ui/src/utils/filter-utils.js:154-158 | under any other name, exactly if the metadata, the resource or the labels have a value there |
| Filters.MarkFieldSecond | pkg/ui/src/utils/filter-utils.js:154-158 | behind another field, isFiltered reads the mark cleared |
| Filters.MarkedMeaning | pkg/ui/src/utils/filter-utils.js:35-168 | a resource is marked if and only if it is deleted or some field fails, for fields that do not read the mark |
| Filters.MarkedAnyOrder | pkg/ui/src/utils/filter-utils.js:18-24 | for fields that do not read the mark, neither their order nor whether they are global or dynamic changes it |
| Filters.SameInEveryOrderIff | pkg/ui/src/utils/filter-utils.js:35-168 | for all resources and fields, every reordering of the fields gives the same mark if and only if the resource is deleted, or at least two fields fail with the mark cleared, or exactly one does and it is the only field or fails with the mark set as well, or none does and with the mark set all fields fail or none does |
| Filters.SameInEveryDivisionIff | pkg/ui/src/utils/filter-utils.js:18-24 | every reordering and every division of the fields into global and dynamic ones gives the same mark if and only if the same holds and, when exactly two fields fail with the mark cleared, one of them fails with the mark set as well |
| Filters.FlagReaderNeedsOrder | pkg/ui/src/utils/filter-utils.js:154-156 | two fields, one of which reads the mark, give different marks in their two orders |
| Aggregates.KeysDiffer | pkg/metrics/metrics.go:99-147 | no two sums share a string key, whatever the namespaces are called |
| Aggregates.Post | pkg/metrics/metrics.go:99-147 | adding to one key moves that sum alone, in 64 bits |
| Metrics.AddPod | pkg/metrics/metrics.go:117-148 | a round over a pod adds exactly its pieces to the sums of its namespace and of the cluster, and counts it and its containers for the node |
| Metrics.AddPods | pkg/metrics/metrics.go:117-149 | the loop over the pods of a node does so for all of them and records their namespaces |
| Metrics.ConvertPodVolumes | pkg/metrics/metrics.go:314-317 | the capacities are summed as usage and the used bytes as total |
| Metrics.ConvertPods | pkg/metrics/metrics.go:202-217 | the volume sums of the node and the disk sum of each namespace, in 64 bits |
| MetricsSummary.AddDisks | pkg/metrics/metrics.go:112-115 | each namespace's disk sum is added once, in whatever order the map yields them |
| MetricsSummary.AddNode | pkg/metrics/metrics.go:95-152 | a node adds exactly its own figures, its namespaces' disks and its pods |
| MetricsSummary.MakeSummaryReadsScope | pkg/metrics/metrics.go:333-388 | the summary read from the table is that of the structured sums of its scope |
| MetricsSummary.Summarize | pkg/metrics/metrics.go:80-170 | cluster, nodes and exactly the namespaces that occur are published with their structured sums in 64 bits |
| MetricsFigures.NodeFiguresShown | pkg/metrics/metrics.go:244-279 | with distinct names, every node that answered is published with the cpu, memory, disk, volumes, pods and containers it reports, and with rates that are the bytes received and sent over the seconds, rounded down |
| MetricsFigures.ClusterShown | pkg/metrics/metrics.go:333-388 | the cluster shows the sums in 64 bits of what the nodes report of themselves, the rates included, and for pods, containers and volumes those of all pods |
| MetricsFigures.NamespaceShown | pkg/metrics/metrics.go:155-167 | exactly the namespaces of some pod are published, each with the sums of its own pods, measured against the cluster |
| MetricsFigures.NodesConserved | pkg/metrics/metrics.go:98-109 | with distinct names, memory, disk and available cpu of the cluster are the sums over the nodes, in 64 bits |
| MetricsTotals.ClusterCounts | pkg/metrics/metrics.go:117-155 | the cluster's pods, containers and volumes are the numbers and sums over all pods, in 64 bits |
| MetricsTotals.NamespacesAddUp | pkg/metrics/metrics.go:117-149 | what the pods contribute to the cluster is the sum of what they contribute to the namespaces |
| MetricsTotals.ClusterMatchesNamespaces | pkg/metrics/metrics.go:155-167 | pods, containers and both volume figures of the cluster are the sums over the namespaces, in 64 bits and without any condition |
| MetricsTotals.ClusterMatchesNodes | pkg/metrics/metrics.go:151-155 | with distinct node names, pods and containers of the cluster are the sums over the nodes, and the volume figures are so crosswise |
| MetricsTotals.NodeVolumesAgreeIff | pkg/metrics/metrics.go:314-317 | with distinct node names, the nodes' volume usage adds up to the cluster's usage if and only if the capacities and the used bytes of all pods have the same sum in 64 bits |
| MetricsTotals.HalfFilledVolume | pkg/metrics/metrics.go:314-317 | a single volume of which half is used makes the two differ |
| MetricsTotals.ClusterCpu | pkg/metrics/metrics.go:244-248 | as long as the nanocores fit into 64 bits, the cluster's millicores are at least the sum of the nodes' and exceed it by at most the number of nodes less one |
| Sessions.NewSessionToken | pkg/auth/auth.go:279-297 | the claims issued are the fresh ones with every additional claim but the two times copied over |
| Sessions.FreshMeans | pkg/auth/auth.go:279-289 | a fresh token holds exactly nbf, exp, csrf, uid and grp, with the times in seconds |
| Sessions.ValidMeans | pkg/auth/auth.go:311-320 | a parsed token is accepted up to the second of its exp and from the seconds of its iat and nbf on, where it has them (sections 4.1.4 to 4.1.6 of RFC 7519) |
| Sessions.KeepSessionAlive | pkg/auth/auth.go:204-215 | a cookie is written exactly when the token expires before now plus half the timeout; it is good for the timeout from its issue and carries every claim of the session but the two times |
| Sessions.Client.Request | pkg/auth/auth.go:66-80 | a request is served exactly when the token's times allow it, and the client then holds the kept or the renewed token |
| Sessions.RejectedExactly | pkg/auth/auth.go:311-320 | in every run with a monotone clock a request is rejected if and only if its second lies behind that of the last issue plus the timeout (the expiry of section 4.1.4 of RFC 7519) |
| Sessions.IdleIsRejected | pkg/auth/auth.go:204-215 | a session left alone for the timeout and one more second is always rejected |
| Sessions.IdleIsRejectedAtOnce | pkg/auth/auth.go:282-285 | at any point of any run at which the timeout has not passed, every next request after it is rejected if and only if the timeout ends with a second |
| Sessions.IdleWithinTheSecondIsServed | pkg/auth/auth.go:282-285 | a session of ten seconds served ten seconds and a nanosecond after its login |
| Sessions.RejectedForGood | pkg/auth/auth.go:66-80 | after a rejection every later request is rejected and the token stays as it is |
| Sessions.ActiveIsServed | pkg/auth/auth.go:204-215 | a session whose requests follow each other within half the timeout is never rejected |
| Sessions.FirstHalfKeeps | pkg/auth/auth.go:204-206 | in every run a request in the first half of the life of a token leaves the token alone |
| Sessions.SecondHalfRenews | pkg/auth/auth.go:204-208 | a request that is served two seconds after that half or later gets a token that is good for the timeout from its issue |
| Sessions.ClaimsSurvive | pkg/auth/auth.go:206-208 | over every run all claims but the two times are those of the login |
| Sessions.UserAndGroupsSurvive | pkg/auth/auth.go:252-276 | over every run the user is the one who logged in, and the groups read are those of the login and of every authenticated user if and only if there is one and none holds a comma |
| Sessions.NoGroupsReadAsOne | pkg/auth/auth.go:252-276 | over every run of a session without groups one group with an empty name is read |
| Sessions.CommaReadAsTwo | pkg/auth/auth.go:252-276 | over every run a group named a,b is read as two |
| Strings.JoinSplit | pkg/ui/src/utils/filter-utils.js:182-191 | joining undoes splitting |
| Strings.SplitJoin | pkg/auth/auth.go:274-287 | splitting undoes joining if and only if no part holds the separator |

## Left out

- HTTP, WebSocket framing, token signing, Kubernetes clients, logging and tracing: replies are arbitrary parameters of the models.
- React, d3, SVG and the projection of the chart: integer coordinates only; a group named like a property of `Object.prototype` is not modelled. `NamespaceHeatmap.js` and `UtilizationHeatmap.js` repeat the chart's code.
- The answer to a failed listing of namespaces (`resources.go:47-50`, `access.go:69-71`), a kind that does not exist, and the fatal exit when no client can be made (`resources.go:85-87`).
- The table of kinds is taken as unchanging during a request, and namespace names as non-empty.
- `AggregateWatches` up to the start of the writer (`watch.go:161-231`): the discovery of watch paths depends on timing.
- An end of a watch while its backends go on sending: the bound on its steps is relative to the messages read.
- Owned keys without a resource: the loops follow object references, so every owned key has a resource here.
- The loops over owned resources are methods that are given a number of turns in which they end, since a Dafny method always ends; when there is such a number is proved apart.
- The order of the keys of `resolveRelated`'s result, and resources compared by identity.
- `toFixed`, `convertUnits` and the choice between pods and owners of pods in the resource columns; averages are real numbers. The memory column repeats the loop of the cpu column.
- Collation: `localeCompare` is any total preorder on texts.
- What `completionsForPath` offers once a walk has ended, and what it offers for the paths `.`, `.kind` and `.apiVersion`, which leave the walk where it is; `defForKind` is an arbitrary function. Anchors, keys that are not plain text and properties of `Object.prototype` are not modelled.
- YAML parsing, the swagger validator and interval trees; `getErrorPosition` and `findNextIndent`, which are heuristics.
- An encoder: kuill has none, so the one of section 4 of RFC 4648 stands in.
- Filter values named like properties of `Object.prototype`, which `in` would find in any object; attributes are given as the text they are compared as.
- Ratios, units, `summary.Pod` and the conversion of allocatable amounts from text in the metrics; the network of a pod is taken as given, since `convertPodSummary` reads it unguarded.
- OIDC, SAML and password files; the claims they add are arbitrary but do not include `uid`, `grp` or `iat`.
- Concurrent requests of one session: the client sends the latest token it was given, one request after the other. Half the timeout is exact, not rounded in floating point.
- Reducers, `statusForResource`, templates and command line flags.
