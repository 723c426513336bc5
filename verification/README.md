# isutools verification

isutools cuts a live stream of measurements into runs and reports what belongs to each run. This
project models the parts where that is hard to get right and proves what they promise:

- **Access-log generations.** A boundary fixes a byte offset in a growing file; later drains read
  up to it in chunks while the web server appends, displays peek and further boundaries arrive.
  `LogLines` gives the byte machine and what the log means, `LogGenerations` the protocol as a
  state machine whose steps are the regions that hold a lock, `LogCollector` the two objects.
- **HTTP generations.** Requests are pinned to the generation current at their start; long-lived
  connections leave early; a drain waits until nothing is pinned. `HttpGenerations` is the
  protocol, `HttpWindows` says from the list of events what one window holds, `HttpCollector` is
  the object.
- **Funnels, quantiles and the flow graph.** `Funnels` shows that the expiry a snapshot does early
  agrees with the one a late visit does, `FunnelCounts` what the counters count, `FunnelSamples`
  which requests a step's figures are about, `FunnelHistory` reads every one of these off the list
  of visits, `FunnelAggregator` is the object. `Quantiles` compares histogram percentiles with the
  exact ones. `FlowGraph` and `GraphBuilder` prove the displayed graph's conservation, bounds and
  independence of order, `FlowCaps` which nodes and edges it keeps; `Ranking` is the order it is
  sorted in.
- **Privilege verification.** `Identifiers` and `GrantLines` read the server's text, and
  `GrantReading` shows that they pass nothing over; `Grants` decides whether an account may be
  used, by a bounded closure over the role graph, `GrantVerdicts` says when it gives each verdict,
  and `GrantChain` shows a harmless account that is refused.
- **Multi-host runs.** `PeerRegistry` and `PeerNode` are a peer's run and nonce registries with
  their leases, `PeerRecords` what each step makes of a run's record, `Hub` is the hub's run over
  its peers: barrier, sealing, validity and budgets.
- **Boundary samplers.** `HostCapture` is the read-outside-the-lock protocol of the host sampler,
  `DbPool`, `DbPoolSamples` and `DbPoolCollector` the connection-pool collector with its farewell
  samples,
  `ClientPhase` the timer of overlapping attempts.
- **Bounded tables.** `AccessTable`, `RequestTable` and `RequestShapes`: what does not fit goes to
  an overflow row, and nothing is lost or counted twice.

`Wrappers` and `Counting` hold the option type and the counting of map entries.

Two things are alike everywhere. Where the source changes state under a lock, a `Step` function
gives each locked region, a `Run` is any sequence of them, so any interleaving, and the class's
methods are proved to perform exactly those steps; the theorems about runs are then theorems
about the methods. And a name such as `verb` stands for the source's `method`, which is a word of
the language. What comes from outside (clocks, samplers, the network, the run controller, the
file system's short reads) is a parameter of a step or an arbitrary choice.

Six findings are worth a maintainer's attention. Each has a lemma at a concrete input and one
that says exactly when it happens:

- A release of an undrained access-log generation hands its unread bytes to the next generation,
  which then reports them (`LogGenerations.LeakedLine`); the partition holds exactly when every
  release that cuts finds its bytes read (`LogGenerations.PartitionIff`).
- A pool that replaces an unwatched one under the same ID and is unwatched in the same run
  overwrites the first one's farewell sample, so the reported interval joins two pools
  (`DbPool.SecondUnwatchSplices`, `DbPool.SpliceIff`).
- A phase timer read with an instant that lies before its last event can report too little, even
  less than nothing, or too much (`ClientPhase.ReadTooLow`, `ClientPhase.ReadTooHigh`,
  `ClientPhase.EarlyReadingIff`).
- An account whose roles are nested more than three memberships deep is refused however harmless
  it is (`GrantChain.DeepRoleIsRefused`, `GrantVerdicts.VerdictIff`).
- A node name may hold a NUL, and an edge's key is split at the first one. A displayed edge that
  starts at such a name has ends that are no displayed nodes, and if its target was folded its
  traffic is counted both as displayed and as hidden (`FlowGraph.NulBreaksClosure`,
  `FlowGraph.NulBreaksBalance`, `FlowGraph.GraphIsClosed`, `FlowGraph.GraphConserves`).
- The expiry of a lease does not look at the run again before it commits: a run that is finished
  in between ends up aborted (`PeerNode.FinishedRunIsAborted`, `PeerNode.LateExpiryIff`).

In the table, (link) marks a short statement that Dafny proves without help; it is there because
a result uses it, or because it says in full what one step does.

## Model

| member | source | states |
|---|---|---|
| LogLines.ChunksCompose | accesslog/collector.go:509-547 | consuming two pieces of the log one after the other equals consuming them at once, in state and in events |
| LogLines.AnyChunking | accesslog/collector.go:478-547 | whatever chunks the bytes arrive in, the lines, drops and pending or dropping state are those of one pass |
| LogLines.SplitterMatchesLines | accesslog/collector.go:509-547 | the byte machine computes the line-splitting reference: each complete line within the limit once, each line over the limit dropped once, and the remainder's state depends only on the unterminated tail |
| LogLines.LineStartMeaning | accesslog/collector.go:509-547 | the line containing an offset starts right after the last newline before it |
| LogLines.ReadingWindow | accesslog/collector.go:478-547 | reading from one offset to another, from the state the first one has, yields exactly the lines whose newline lies between them, wherever they began |
| LogLines.WindowConcat | accesslog/generation.go:355-394 | adjacent windows of the log join without loss or repetition |
| LogLines.WindowStable | accesslog/generation.go:431-468 | appending to the log changes nothing that was read, nor the state at any earlier offset |
| LogLines.SummaryConcat | accesslog/collector.go:509-547 | the aggregate of two stretches of lines is the second added to the first |
| LogLines.SummaryTells | accesslog/collector.go:509-547 | the aggregate of any lines holds, in order, the record of exactly the lines that parse, drops exactly the lines that are too long or malformed, and counts the partial records |
| LogGenerations.RunKeepsInv | accesslog/generation.go:154-505 | every state reachable by any interleaving keeps the protocol invariant: points ordered, cuts in order, the reader's state is that of its offset, pending boundaries count the uncut generations |
| LogGenerations.HistoryIsFixed | accesslog/generation.go:398-406 | no step moves a freeze point or rewrites a cut that was made |
| LogGenerations.Conservation | accesslog/generation.go:341-505 | in every reachable state the cuts in order followed by what is live are exactly the lines of the bytes read: none twice, none skipped |
| LogGenerations.PartitionIff | accesslog/generation.go:217-305 | the generations partition the bytes at their freeze points if and only if every release that cuts is for the next generation and finds its bytes read |
| LogGenerations.DrainedIsSafe | accesslog/generation.go:217-305 | if every generation is drained before it is released, that condition holds |
| LogGenerations.Partition | accesslog/generation.go:154-505 | then a drained, unreleased generation holds exactly the records whose newline lies between its predecessor's point and its own, the live part is the rest, and pendingBoundaries is the number of unsealed generations |
| LogGenerations.EarlyReleaseLeaks | accesslog/generation.go:288-305 | a concrete run in which an undrained release breaks the partition |
| LogGenerations.LeakedLine | accesslog/generation.go:288-305 | the same run going on: the next generation, whose own window is empty, is drained and holds the first one's lines |
| LogGenerations.BoundaryReplays | accesslog/generation.go:154-210 | a retried boundary is answered with the first reply and mints no generation |
| LogGenerations.EpochIsLargest | accesslog/generation.go:154-210 | the epoch the collector holds is the largest any boundary was asked for with |
| LogGenerations.BoundaryAnswers | accesslog/generation.go:154-210 | after any run, a boundary is refused as stale exactly if a larger epoch was asked for before, a new freeze exactly if no generation exists; any other new boundary mints one generation at the end of the log and changes no other |
| LogGenerations.InterruptRetains | accesslog/generation.go:355-415 | an interrupted drain leaves its generation open and retains exactly the lines read since the last cut, unless the handle was released |
| LogGenerations.PeekShows | accesslog/collector.go:400-408 | a display read shows the lines from the last cut to where it stops, and reads nothing while a boundary is outstanding |
| LogGenerations.EntersInTurn | accesslog/generation.go:217-265 | (link) a drain takes the semaphore exactly if it is free, its generation is open and the one before it is done |
| LogCollector.Collector.Consume | accesslog/collector.go:509-547 | the byte loop computes the reference state and events for the data, and the aggregate stays the summary of the events |
| LogCollector.Collector.ReadToEOF | accesslog/collector.go:478-507 | reads some number of bytes up to the limit, as one read of that many; at end of file nothing is left, at the limit the limit is used up |
| LogCollector.Collector.CutGeneration | accesslog/generation.go:492-505 | returns exactly the parsed records, drops and partial count of what was live, starts an empty aggregate at the same offset and counts one boundary less |
| LogCollector.GenerationCollector.Boundary | accesslog/generation.go:154-210 | performs the boundary step and gives its reply |
| LogCollector.GenerationCollector.Peek | accesslog/collector.go:400-408 | reads only while no boundary is outstanding and shows exactly the parsed records, drops and partial count of what is live |
| LogCollector.GenerationCollector.Collect | accesslog/generation.go:269-283 | errors exactly for an unknown handle, a released one, and one that was never drained and keeps no partial value; a value holds exactly the parsed records, drops and partial count of the lines retained, and a drained generation's those of its own cut |
| LogCollector.WindowIsTold | accesslog/generation.go:217-283 | so what is collected of a drained generation tells exactly of the lines whose newline lies between its predecessor's point and its own |
| LogCollector.GenerationCollector.CatchUpChunk | accesslog/generation.go:355-394 | one chunk never passes the point, reports done only at it, and otherwise makes progress or was interrupted |
| LogCollector.GenerationCollector.SealDrained | accesslog/generation.go:398-406 | the cut, the publication and the release of the semaphore, in this order |
| LogCollector.GenerationCollector.Drain | accesslog/generation.go:217-265 | performs only drain steps of its own generation, in a trace that is given; a nil result means the generation is sealed |
| LogCollector.GenerationCollector.Release | accesslog/generation.go:288-305 | marks, cuts without reading, publishes |
| HttpGenerations.RunKeepsInv | httpstats/generation.go:72-350 | over all interleavings a generation's in-flight count is the number of requests pinned to it, and done is closed exactly when it is sealed with none left |
| HttpGenerations.ConnectionsBalance | httpstats/httpstats.go:446-566 | active connections are those confirmed and not finished, and finished ones are the live total plus all window totals |
| HttpGenerations.DrainSeesEveryRow | httpstats/generation.go:192-212 | when a drain returns nil every request pinned to the generation has its row there exactly once, or became a long-lived connection and has none |
| HttpGenerations.SettledIsFixed | httpstats/generation.go:72-89 | no step but its own release changes the table or the totals of a settled generation |
| HttpGenerations.DrainedIsFixed | httpstats/generation.go:192-245 | nor does any further run without that release |
| HttpGenerations.LateRequestsStayOut | httpstats/generation.go:132-187 | a request that begins after a boundary is pinned to the generation after the one it closed |
| HttpGenerations.BoundaryReplays | httpstats/generation.go:159-187 | a retried boundary returns the first handle and swaps nothing |
| HttpGenerations.LeavesOnce | httpstats/generation.go:334-350 | a request that left its generation never returns to it |
| HttpWindows.RunHasCuts | httpstats/generation.go:132-187 | the generations are the windows between the events that close one: a reset, or a boundary that repeats no remembered one, is not behind the newest epoch and whose context lives |
| HttpWindows.NewestIsLargest | httpstats/generation.go:159-187 | the newest epoch is the largest |
| HttpWindows.WindowsCount | httpstats/generation.go:132-138 | counted from the events: a closed generation's connection total is the number of connections that finished after the cut that opened it and before its own, and the live total the number since the last cut |
| HttpWindows.PinnedWhereBegun | httpstats/generation.go:325-331 | a request belongs for ever to the window in which it began |
| HttpWindows.BoundaryAnswers | httpstats/generation.go:159-187 | after any events a repeated boundary gets the window its first call closed, one that is behind or whose context ended an error, and any other closes the live window with its total and is answered with it |
| HttpCollector.Collector.Begin | httpstats/generation.go:325-331 | pins the request to the current generation |
| HttpCollector.Collector.Confirm | httpstats/httpstats.go:525-539 | the first confirmation counts one active connection and releases the request; a later one at most marks it hijacked |
| HttpCollector.Collector.HandlerReturned | httpstats/httpstats.go:309-384 | an ordinary request is recorded in its own generation before that may settle; a streaming one has no row and finishes one connection, once; a hijacked one does neither |
| HttpCollector.Collector.HijackedClosed | httpstats/httpstats.go:557-566 | a hijacked connection is finished once |
| HttpCollector.Collector.SwapLocked | httpstats/generation.go:132-138 | installs a fresh generation and seals the previous one with the live connection total, which starts again at zero |
| HttpCollector.Collector.Boundary | httpstats/generation.go:159-187 | performs the boundary step and gives its reply |
| HttpCollector.Collector.Settled | httpstats/generation.go:192-212 | a drain returns at once exactly if the generation is sealed and no request is pinned to it |
| HttpCollector.Collector.Release | httpstats/generation.go:234-245 | marks the generation released and clears its table |
| Quantiles.FlowBucketMonotone | flowviz/aggregate.go:338-353 | a larger latency never falls into a lower bucket |
| Quantiles.FlowUpperBounds | flowviz/aggregate.go:338-366 | a latency is at most its bucket's upper bound, which is at most five quarters of it below 2^62 |
| Quantiles.Log2Bounds | accesslog/aggregate.go:509-515 | for any number of buckets, bucket i holds the durations from 2^(i-1) to 2^i - 1, bucket 0 only zero, and the last one everything from 2^(size-2) on |
| Quantiles.RankFormulasAgree | httpstats/httpstats.go:814-831 | (link) n - n/20 is the nearest rank (95n + 99)/100 for every n |
| Quantiles.NearestRankUnique | flowviz/aggregate.go:368-385 | the exact nearest-rank percentile of a sequence is unique |
| Quantiles.SampleExists | flowviz/aggregate.go:368-385 | and exists for a sequence that is not empty |
| Quantiles.RecordDescribes | flowviz/aggregate.go:206-226 | (link) recording a latency keeps the histogram the bucket counts and maximum of the latencies observed |
| Quantiles.RankBucket | flowviz/aggregate.go:368-385 | the bucket of the exact percentile is the one where the running count reaches its rank |
| Quantiles.ScanBuckets | accesslog/aggregate.go:517-536 | the loop over the buckets finds that bucket |
| Quantiles.StepPercentile | flowviz/aggregate.go:368-385 | the method computes the quarter-octave percentile |
| Quantiles.AccessPercentile95 | accesslog/aggregate.go:517-536 | over 64 buckets and with the rank (95n + 99)/100, the method computes the power-of-two percentile |
| Quantiles.HttpPercentile95 | httpstats/httpstats.go:814-831 | so does the one over 40 buckets with the rank n - n/20 |
| Quantiles.FlowPercentileBounds | flowviz/aggregate.go:338-385 | the reported q bounds the exact nearest-rank x: x <= q <= max, and 4q <= 5x below 2^62 |
| Quantiles.Log2PercentileBounds | httpstats/httpstats.go:806-831 | for any number of buckets: x <= q; q <= 2x below the last bucket; in the last bucket q is the maximum |
| Quantiles.AccessPercentileBounds | accesslog/aggregate.go:509-536 | for the access log: q <= 2x for every x below 2^62, and q is the maximum from there on |
| Quantiles.HttpPercentileBounds | httpstats/httpstats.go:806-831 | for httpstats: q <= 2x for every x below 2^38, and q is the maximum from there on |
| Funnels.SnapshotsOnlyExpire | flowviz/aggregate.go:131-306 | with extra snapshots the state is the one without them in which some sessions have expired already |
| Funnels.SnapshotsAreTransparent | flowviz/aggregate.go:131-306 | taking snapshots at any points changes no later snapshot: the early expiry agrees with the late one |
| FunnelCounts.RunKeepsInv | flowviz/aggregate.go:149-306 | in every reachable state step i's sessions are the sessions with next > i, entered, completed and expired count sessions in those states, and requests are sessions plus retries |
| FunnelCounts.FunnelIsConsistent | flowviz/aggregate.go:228-275 | hence steps only narrow, entered is the first step and completed the last, completed plus expired never exceed entered |
| FunnelAggregator.BasisPointsNearest | flowviz/aggregate.go:328-336 | (link) the basis points are the nearest to the exact ratio |
| FunnelAggregator.Aggregator.ObserveFunnel | flowviz/aggregate.go:149-204 | the in-place update of one funnel is the specified one |
| FunnelAggregator.Aggregator.Observe | flowviz/aggregate.go:131-147 | so is the update of all funnels by one event |
| FunnelAggregator.Aggregator.ExpireSilentSessions | flowviz/aggregate.go:292-306 | expires exactly the sessions that are due, whatever order they are visited in |
| FunnelAggregator.Aggregator.Snapshot | flowviz/aggregate.go:228-275 | the rows show the counters after expiry; no drop-off is negative, so its clamp never fires; every p95 bounds the exact one |
| FunnelSamples.StepsCountAccepted | flowviz/aggregate.go:149-226 | in every reachable state a step's requests, status counts and latency histogram are those of exactly the visits whose verdict landed on it |
| FunnelSamples.StepPercentileBounds | flowviz/aggregate.go:368-385 | so its percentile q bounds the exact one x of the measured latencies of those visits: x <= q <= max and 4q <= 5x below 2^62 |
| FunnelSamples.DisplayedPercentile | flowviz/aggregate.go:228-275 | and so does the figure in the row a snapshot displays |
| FunnelHistory.StretchIsMade | flowviz/aggregate.go:193-204 | the stretch of a history is made by visits to steps 0, 1, ... at increasing places |
| FunnelHistory.StretchIsLongest | flowviz/aggregate.go:193-204 | and no longer one is |
| FunnelHistory.BeganIs | flowviz/aggregate.go:157-171 | a session began at its first visit to the first step |
| FunnelHistory.LifeIs | flowviz/aggregate.go:175-191 | its life ends at the first visit or snapshot that comes more than the window after that, both times known, a snapshot only before all steps are made |
| FunnelHistory.TrackedAreFirst | flowviz/aggregate.go:157-166 | after any run the tracked sessions are the first to visit the first step of a funnel, as many as the limit allows |
| FunnelHistory.SessionFollows | flowviz/aggregate.go:149-306 | after any run, read off the visits: a tracked session's next step is the longest initial stretch of the steps its visits made in order during its life, its start is when it began, it is completed exactly if that is all the steps, and expired exactly if its life has ended |
| FunnelHistory.CountsFollow | flowviz/aggregate.go:149-306 | so entered, completed, expired and each step's sessions are the numbers of tracked sessions with these histories |
| FunnelHistory.RequestsFollow | flowviz/aggregate.go:206-226 | each step's requests, statuses and histogram are those of the visits to it by sessions that were tracked, in time and had made every earlier step; its retries are those requests less its sessions |
| FunnelHistory.VisitEffect | flowviz/aggregate.go:149-204 | (link) case by case, what one visit does to the counters and the session: entering, refused at the limit, out of time, an earlier step once more, the next step, a step too early |
| Ranking.SortedIsUnique | flowviz/graph.go:39-144 | the display order is total: the same items have one sorted form |
| Ranking.Sort | flowviz/graph.go:39-144 | the sort gives that form, whatever order the items came in |
| FlowGraph.KeyRoundTrip | flowviz/graph.go:160-167 | splitting a joined key gives the names back exactly if the first has no NUL, and otherwise cuts it short |
| FlowGraph.KeysDiffer | flowviz/graph.go:97-107 | still no two pairs of names share a key, so no two edges are merged |
| FlowGraph.EdgeNames | flowviz/graph.go:97-107 | an edge carries its shown names, unless its source holds a NUL; then its target end is no node name |
| FlowGraph.NodeMapIs | flowviz/graph.go:39-144 | the node map holds exactly the nodes with traffic, each with its weighted degree capped at the largest int64 |
| FlowGraph.EdgeMapIs | flowviz/graph.go:81-107 | the edge map, keyed as the source joins and splits, holds exactly the edges with traffic, each with its capped total |
| FlowGraph.GraphPermutes | flowviz/graph.go:39-144 | the graph is the same for any permutation of the input |
| FlowGraph.GraphBalance | flowviz/graph.go:39-154 | without saturation, the displayed edges that have no end called "(other)" plus the hidden count add up to the valid input plus what is shown although it is hidden |
| FlowGraph.GraphConserves | flowviz/graph.go:39-154 | so traffic is conserved if and only if no displayed edge runs from a name that holds a NUL to a folded one; it never falls short, and for sources without NULs it is conserved |
| FlowGraph.GraphIsBounded | flowviz/graph.go:39-144 | the node and edge caps hold for every request, clamped as the source does |
| FlowGraph.GraphIsClosed | flowviz/graph.go:39-144 | every node shows its weighted degree over the displayed edges; both ends of every displayed edge are displayed nodes if and only if no displayed edge comes from a name that holds a NUL |
| FlowGraph.ClosedWithinCaps | flowviz/graph.go:39-144 | within the node and edge caps, if and only if no valid transition starts at a name that holds a NUL |
| FlowGraph.NulBreaksClosure | flowviz/graph.go:97-107 | an accepted transition from such a name whose graph is not closed |
| FlowGraph.NulBreaksBalance | flowviz/graph.go:97-118 | two of them whose traffic is counted twice |
| FlowCaps.NodeNameIff | flowviz/graph.go:156-158 | a name is accepted if and only if it is one to sixteen capital letters, a blank and a path of allowed characters, within 512 bytes |
| FlowCaps.LessIff | flowviz/graph.go:73-78 | names are ordered by their first difference |
| FlowCaps.KeptAreBusiest | flowviz/graph.go:65-88 | every name with traffic is kept if the cap allows, otherwise one less than the cap; each kept name is busier than each folded one, or as busy and earlier by name |
| FlowCaps.ShownAreHeaviest | flowviz/graph.go:108-129 | every pair of displayed ends has an edge with all it carries if the cap allows, otherwise as many as the cap; they are in order, and each precedes every pair left out; the invalid input is counted, and the graph says exactly whether anything was folded or left out |
| FlowCaps.NodesAreOrdered | flowviz/graph.go:130-142 | the nodes shown are kept names in the order of their traffic, then "(other)" if some name was folded |
| GraphBuilder.BuildGraph | flowviz/graph.go:39-144 | the loops over maps keyed by joined names, in any order, build exactly that graph |
| GraphBuilder.FoldEdges | flowviz/graph.go:81-103 | the loop's joined keys stand for the split pairs, in the counts and in the marks of hidden edges |
| Identifiers.AccountListRoundTrip | queryplan/identifier.go:42-161 | quoting accounts into a USING list and reading it back gives the same accounts, whatever characters they contain |
| Identifiers.SplitJoins | queryplan/identifier.go:192-217 | the pieces of a top-level split rejoined with the separator are the text |
| Identifiers.SplitAccountList | queryplan/sql.go:96-102 | splitting a written list at top-level commas gives exactly one piece for each account |
| Identifiers.ScanQuotedAt | queryplan/identifier.go:120-138 | the index loop scans what the specification scans and moves forward |
| Identifiers.ParseAccountListLoop | queryplan/identifier.go:81-100 | the index loop reads exactly the specified list or fails exactly when it does |
| Identifiers.SplitTopLevel | queryplan/identifier.go:192-217 | the index loop gives the specified pieces, which rejoin to the input |
| GrantLines.RowRoundTrip | queryplan/grants.go:95-223 | a row as the server writes it is read as exactly the privileges, object, grant option or roles it was written for, even when names contain blanks, commas, quotes, parentheses or the words ON and TO |
| GrantLines.ObjectRoundTrip | queryplan/grants.go:174-204 | a written object reference with its kind is read back, wildcards included |
| GrantLines.PrivilegesRoundTrip | queryplan/grants.go:146-159 | a written privilege list is read back without its column lists |
| GrantLines.GranteeRoundTrip | queryplan/grants.go:209-223 | the grant option is found exactly when it was written |
| GrantReading.QuotedRoundTrip | queryplan/identifier.go:104-138 | a name in any of the three quotes is read as it was written; a backslash escapes in double quotes as in single ones, although the comment there names only single ones |
| GrantReading.BareRoundTrip | queryplan/identifier.go:145-155 | a bare name is read up to the first character that cannot stand in one |
| GrantReading.RowIsWhole | queryplan/grants.go:95-142 | a row that is read is GRANT, its list, ON and the object if it grants privileges, TO and the grantee, with nothing before, between or after them, and each part of its meaning is read from its own piece |
| GrantReading.PrivilegesAre | queryplan/grants.go:146-159 | the names read are one for each piece of the list, and the pieces are the list |
| GrantReading.ObjectIsWhole | queryplan/grants.go:174-204 | an object is its kind, two parts with a dot between them and nothing else; it is a routine exactly if its kind says so |
| GrantReading.GranteeIff | queryplan/grants.go:209-223 | a grantee is an account with only blanks after it, or with WITH GRANT OPTION in any case and spacing; anything else makes the row unreadable |
| GrantReading.OtherRowsAreUnread | queryplan/grants.go:95-102 | (link) a row that does not begin with GRANT is not read |
| GrantLines.OnInPrivileges | queryplan/identifier.go:168-186 | the search for ON outside quotes finds the one that ends the privileges |
| GrantLines.NoOnInMembership | queryplan/identifier.go:168-186 | and finds none in a membership row, whatever the names contain |
| GrantLines.CutOverObject | queryplan/identifier.go:168-186 | the search for TO passes over any object and finds the one before the grantee |
| GrantLines.WrittenAnswersList | queryplan/grants.go:79-92 | an answer of written rows lists for the verification whatever its rows grant |
| GrantLines.IndexTopLevel | queryplan/identifier.go:168-186 | the index loop returns the first occurrence outside quotes, or -1 when there is none |
| GrantLines.ParsePrivilegesLoop | queryplan/grants.go:146-159 | the loop reads the specified names, never an empty list |
| GrantLines.ParseGrantRow | queryplan/grants.go:95-142 | the method reads a row as specified, failing exactly when the specification does |
| Grants.EqualFoldIff | queryplan/grants.go:255-281 | two names match if and only if they have the same length and at each place the same character or the two cases of one ASCII letter |
| Grants.AllowedIff | queryplan/grants.go:226-281 | the check passes a row if and only if the allowlist, spelled out, permits it: USAGE, SELECT in the measured schema or performance_schema, UPDATE on performance_schema.threads, never with grant option or on a routine or wildcard; memberships are judged by what they confer |
| Grants.MergeMembers | queryplan/grants.go:285-298 | de-duplication keeps every account and adds none |
| Grants.MergeNoDuplicates | queryplan/grants.go:285-298 | it repeats none, and the length is unchanged exactly if nothing new was named |
| Grants.ExpandCloses | queryplan/session.go:109-129 | a successful expansion ends with a list of roles closed under membership, all of whose grants were read |
| Grants.VerifiedIsSafe | queryplan/session.go:54-129 | if the answers to the queries made are honest, a passed account holds only what the allowlist permits, directly and through every role reachable from its granted or active roles, although at most four expansion queries are made |
| Grants.HonestServerIsSafe | queryplan/session.go:54-129 | in particular with a server that is honest about every list of roles |
| Grants.ExpandIff | queryplan/session.go:109-129 | with exact answers to its queries, the expansion succeeds if and only if the role graph closes within the rounds left |
| Grants.ExpandReadsHeld | queryplan/session.go:109-129 | everything it reads is held by the account or a reachable role |
| Grants.VerifiedIff | queryplan/session.go:54-159 | with exact answers to the queries it makes, the account is passed if and only if its active roles are legible, no role is more than three memberships away, and everything reachable is permitted by the allowlist |
| GrantVerdicts.ParseGrantsIff | queryplan/grants.go:79-92 | an answer is used, row by row, if and only if it has 1 to 256 rows and each is legible |
| GrantVerdicts.UnverifiableIff | queryplan/session.go:54-159 | whatever the server answers: the roles are active exactly if CURRENT_ROLE() is not legible; otherwise the account is unverifiable exactly if its own rows are not legible, or it has roles and the queries about them, each list the previous one with the newly named roles, end in one not answered legibly or in four that each name a new role |
| GrantVerdicts.ForbiddenRowIsTooBroad | queryplan/session.go:54-86 | any row the allowlist does not permit keeps the account from being passed; without roles it is too broad |
| GrantVerdicts.ForeignSelect | queryplan/grants.go:255-281 | (link) SELECT in a database whose name differs from both schemas is not permitted |
| GrantVerdicts.VerdictIff | queryplan/session.go:54-159 | with exact answers, each of the four verdicts is characterised by the roles' distance and by what is reachable |
| GrantChain.DeepRoleIsRefused | queryplan/session.go:109-129 | an account with nothing but USAGE and a chain of four memberships is refused although the server answers every query exactly |
| Grants.ParseGrantsLoop | queryplan/grants.go:79-92 | the loop fails for an empty answer, one of more than 256 lines, or one unreadable line, and otherwise gives all grants and roles |
| Grants.DedupeInto | queryplan/grants.go:285-298 | the loop with its seen set computes the de-duplication |
| Grants.ExpandRoles | queryplan/session.go:109-129 | the loop computes the expansion with at most four queries |
| Grants.VerifyPrivileges | queryplan/session.go:54-86 | the method gives the specified verdict, every early exit included |
| PeerRegistry.RunKeepsInv | multihost/peer.go:220-701 | in every reachable state: the keys of runs are the duplicate-free order, at most two; the active run is the newest; the nonces are the duplicate-free nonce order, at most 64; a retained run's remembered nonce is bound to it; what a pending operation checked still holds |
| PeerRegistry.RetainedAreNewest | multihost/peer.go:685-701 | the retained runs are exactly the newest two that were started, and the active run is never evicted |
| PeerRegistry.NeverRebound | multihost/peer.go:674-684 | over any run, a nonce that stays remembered stays bound to the same run ID |
| PeerRegistry.RetryIsReplayed | multihost/peer.go:247-264 | a start repeated with the ID and nonce of a retained run is answered from its record, and with another nonce refused, even after that nonce was forgotten |
| PeerRegistry.RecordsStick | multihost/peer.go:302-523 | while a run is retained its local ID, nonce and lease length do not change, and an accepted finish and a recorded abort stay recorded |
| PeerRegistry.AnsweredOnce | multihost/peer.go:302-475 | so a repeated finish or abort never reaches the controller again, whatever happened in between |
| PeerRegistry.RegistriesAreBounded | multihost/peer.go:674-701 | at most two runs and 64 nonces are kept, and no two retained runs share a nonce |
| PeerRegistry.RegisterRuns | multihost/peer.go:278-299 | committing a start evicts nothing while there is room and otherwise exactly the oldest run |
| PeerRegistry.RegisterNonces | multihost/peer.go:674-684 | it binds its nonce, forgets at most the oldest one, and rebinds none |
| PeerRecords.RecordAfter | multihost/peer.go:276-660 | what every step makes of every retained run's record: a granted lease runs out the granted time after the commit, a renewed one that time after the renewal, a built snapshot's after ninety seconds, and finishing, aborted, acknowledged and expired runs have none; likewise its state, identity, accepted finish, abort and snapshot |
| PeerRecords.ActiveAfter | multihost/peer.go:276-660 | (link) the active run changes only when a run starts, and when it is aborted, acknowledged or expired itself |
| PeerRecords.StartAnswer | multihost/peer.go:237-275 | (link) exactly when a start is refused for its nonce, answered from a record, refused for the active run, or goes on, preempting it, with the lease it asked for, 45 seconds if none and at most 90 |
| PeerNode.NoLeaseLeftOver | multihost/peer.go:587-660 | (link) right after a sweep no starting or started run holds a lease that has run out, and a finished one does exactly if the controller refused its acknowledgement; other runs are untouched |
| PeerNode.ExpireOneIsSteps | multihost/peer.go:610-660 | an expiry that nothing interrupts is a check and a commit of the protocol |
| PeerNode.LateExpiryIff | multihost/peer.go:610-660 | (link) a commit does what a second check would have allowed if and only if the run still is due, is not retained any more, or already is as the expiry leaves it |
| PeerNode.FinishedRunIsAborted | multihost/peer.go:610-634 | a run that is finished between the check and the commit ends up aborted |
| PeerNode.SweptOneMore | multihost/peer.go:587-660 | (link) expiring one more of the picked runs extends the swept part by that run |
| PeerNode.Peer.RememberNonceLocked | multihost/peer.go:674-684 | the loop computes the bounded nonce history |
| PeerNode.Peer.PruneLocked | multihost/peer.go:685-701 | the loops evict the oldest inactive runs until two are left |
| PeerRegistry.LeaseLength | multihost/peer.go:237-243 | a start is granted the lease it asked for when that is within the bounds, and otherwise one that is |
| PeerNode.Peer.StartCheck | multihost/peer.go:244-275 | gives the specified decision and makes the start pending exactly if it may proceed |
| PeerNode.Peer.StartCommit | multihost/peer.go:276-300 | registers the run, aborts the preempted one, remembers the nonce and prunes, as one step |
| PeerNode.Peer.FinishCheck | multihost/peer.go:302-325 | goes on exactly for a known run that was neither finished nor aborted |
| PeerNode.Peer.FinishCommit | multihost/peer.go:331-338 | the run is finishing, without a lease |
| PeerNode.Peer.AbortCommit | multihost/peer.go:483-495 | the run is aborted, its snapshot and lease are dropped, and it is no longer active |
| PeerNode.Peer.AckCommit | multihost/peer.go:514-522 | the run is acknowledged, without a lease, and no longer active |
| PeerNode.Peer.Renew | multihost/peer.go:393-410 | only a started run's lease is renewed |
| PeerNode.Peer.SnapshotBuilt | multihost/peer.go:343-368 | the snapshot is kept only for the run it was built for |
| PeerNode.Peer.ExpireStarted | multihost/peer.go:610-634 | aborts the run if it is still started and due, whatever the controller answers |
| PeerNode.Peer.ExpireFinished | multihost/peer.go:635-660 | acknowledges the run if it is still finished and due and the controller accepts |
| PeerNode.Peer.Sweep | multihost/peer.go:587-609 | the whole pass sweeps exactly the runs that are due |
| Hub.JudgeIff | multihost/hub.go:158-166 | validity only worsens; it is invalid exactly if it was or a required peer failed, valid exactly if it was and none failed |
| Hub.BudgetsFit | multihost/hub.go:273-297 | (link) with legal hub bytes and at most eight peers, the requested budgets plus the hub's bytes stay within 32 MiB and no peer is refused for budget |
| Hub.PreflightIff | multihost/hub.go:96-127 | a peer passes preflight exactly if it answered well and no other peer gave the same agent |
| Hub.StartIff | multihost/hub.go:152-218 | a start fails exactly if some required peer does not start well; a peer is started exactly if all required peers are healthy and it starts well; after a failed start each started peer is aborted exactly if it answered the abort, and a failed seal otherwise; nothing else is sealed |
| Hub.FailedStartSeals | multihost/hub.go:207-210 | (link) a failed barrier leaves no started peer unsealed |
| Hub.CallsOnlyWorsen | multihost/hub.go:220-343 | over any sequence of finish and abort calls, cancelled ones included, validity never improves, no failure, start or seal is undone, and one call that reaches its end seals every started peer for good |
| Hub.WholeRun | multihost/hub.go:220-322 | a started and finished run is invalid exactly if the hub bytes are out of range or a required peer answered some request badly, valid exactly if they are legal and every peer answered all of them well; each started peer is acknowledged exactly if it answered the acknowledgement, and a failed seal otherwise; the others are not sealed |
| Hub.CallSeals | multihost/hub.go:220-456 | of any run: a finish that reaches its end acknowledges each started peer that answers, an abort aborts it, a failed seal otherwise; peers that were not started keep what they had |
| Hub.FailureIs | multihost/hub.go:96-385 | the failure a peer ends with names the first request it did not answer well, a failed fetch alone replacing a failed poll |
| Hub.BytesAsked | multihost/hub.go:273-305 | exactly the ready peers are asked for a snapshot, each for an equal share of what the hub leaves or the default if that is less, and all that is asked for fits the cap with the hub's own bytes |
| Hub.PolledIff | multihost/hub.go:345-370 | polling succeeds exactly if the first answer that is not a plain wait says ready and not stopped |
| Hub.RejectDuplicates | multihost/hub.go:112-126 | the scan with its map of first peers fails exactly the peers that share an agent |
| Hub.PollPeer | multihost/hub.go:345-370 | the loop computes the poll |
| Hub.HubRun.JudgePeers | multihost/hub.go:195-206 | the scan computes the validity |
| Hub.HubRun.Ask | multihost/hub.go:167-194 | a phase gives the same results whatever order the peers answer in |
| Hub.HubRun.Start | multihost/hub.go:152-218 | the method performs preflight, barrier and abort as specified |
| Hub.HubRun.Finish | multihost/hub.go:220-322 | the method performs finish, poll, fetch, judgement and ack as specified and returns that validity; one that is cancelled first changes nothing and returns invalid |
| Hub.HubRun.Abort | multihost/hub.go:326-343 | the method seals with aborts and invalidates the run; one that is cancelled first changes nothing; both return invalid |
| HostCapture.RunKeepsInv | hoststats/capture.go:113-202 | the epoch never decreases, every stored key carries the current epoch, results and samples agree |
| HostCapture.OneAnswer | hoststats/capture.go:113-176 | however captures overlap, all committed answers for one boundary are the same sample as long as it is not released |
| HostCapture.FirstCommitWins | hoststats/capture.go:157-202 | a boundary has a sample at the end exactly if some capture came to its commit and no newer epoch arrived, and it is the first one's: a superseded sample is never stored |
| HostCapture.FixedStays | hoststats/capture.go:133-202 | a fixed boundary keeps its sample until a newer epoch prunes it, and one whose epoch is over never gets one |
| HostCapture.CaptureAnswers | hoststats/capture.go:133-176 | after any run a capture is refused exactly if one was begun with a newer epoch, answered at once exactly if its boundary is fixed, with that sample, and its commit otherwise answered with its own |
| HostCapture.Collector.PruneLocked | hoststats/capture.go:195-202 | the loop drops exactly the older epochs from both maps |
| HostCapture.Collector.Begin | hoststats/capture.go:133-147 | fences, prunes and answers as specified |
| HostCapture.Collector.Commit | hoststats/capture.go:157-176 | stores the first sample, hands back the fixed one, refuses a stale one |
| HostCapture.Collector.Release | hoststats/capture.go:181-190 | drops the handle's sample, and nothing for a foreign handle |
| DbPool.RunCloses | dbpool/capture.go:60-139 | at the closing boundary the participants are exactly the pools sampled at the baseline, whatever was watched and unwatched meanwhile |
| DbPool.ClosingSource | dbpool/capture.go:96-139 | a participant's closing sample comes from the pool that last left with a farewell, else from the one watched at the close; it has one exactly in those cases |
| DbPool.SpliceIff | dbpool/collector.go:193-218 | both samples come from one pool if and only if the last unwatch that took a farewell removed the pool watched at the opening, or none did and that pool is watched at the close |
| DbPool.NoSplice | dbpool/capture.go:96-139 | so a participant unwatched at most once, with a farewell that did not panic, is never spliced, even with a replacement under its ID |
| DbPool.SecondUnwatchSplices | dbpool/collector.go:204-214 | a run in which a second unwatch splices two pools |
| DbPoolSamples.OpeningSampleIs | dbpool/capture.go:60-92 | (link) the opening sample holds exactly the watched pools that could be read, each with its reading, time and name of that instant |
| DbPoolSamples.ClosingSampleIs | dbpool/capture.go:96-139 | the closing sample holds each pool of the opening one with its last farewell reading, marked unwatched, or else with its reading at the close if it is watched and can be read; and nothing else |
| DbPoolSamples.CaptureKeeps | dbpool/capture.go:34-56 | (link) a capture that is behind or repeated changes nothing, and one of another run forgets all that was held |
| DbPool.EntryIsSound | dbpool/collect.go:66-104 | (link) no entry shows a negative count; a rewind is reported exactly when some difference would be negative, with the closing counters, and otherwise the differences; an entry is partial exactly when it carries a code; gauges, name and times are those of its samples |
| DbPoolCollector.ReportIs | dbpool/collect.go:20-51 | the report names exactly the baseline's pools that have a closing observation, in the order of their IDs, each computed from its own two samples |
| DbPoolCollector.Collect | dbpool/collect.go:20-51 | the loops build that report |
| DbPoolCollector.Collector.WatchStats | dbpool/collector.go:150-171 | adds the pool unless its ID is watched or the limit is reached |
| DbPoolCollector.Collector.UnwatchStats | dbpool/collector.go:193-218 | removes the pool, with a farewell exactly for a participant of a run in progress |
| DbPoolCollector.Collector.CaptureBaselineLocked | dbpool/capture.go:60-92 | replays, or samples every watched pool and freezes the set |
| DbPoolCollector.Collector.CaptureFinalLocked | dbpool/capture.go:96-139 | replays, or samples every participant, the farewell first |
| DbPoolCollector.Collector.Capture | dbpool/capture.go:34-56 | commits exactly if the epoch is not stale; a new run forgets the farewells |
| DbPoolCollector.Collector.Release | dbpool/capture.go:166-181 | drops only the collector's reference of the named run and phase |
| ClientPhase.ElapsedIsUnion | clientstats/clientstats.go:94-133 | for every sequence of begins and ends on a clock that does not go back, unmatched ends included, the elapsed time is the number of instants with an operation open |
| ClientPhase.ActiveIsSurplus | clientstats/clientstats.go:115-133 | the count of open operations is the largest surplus of begins over any final stretch |
| ClientPhase.ElapsedIsBounded | clientstats/clientstats.go:100-105 | overlapping attempts never report more than the time that passed |
| ClientPhase.EarlyReadingIff | clientstats/clientstats.go:100-105 | a reading older than the last event is right exactly if from then to that event an operation was always open or never, as after it |
| ClientPhase.ReadTooLow | clientstats/clientstats.go:78-82 | a reading taken before a late attempt begins: two less than nothing |
| ClientPhase.ReadTooHigh | clientstats/clientstats.go:135-139 | a reading taken while an attempt runs and worked out after it: the whole attempt |
| ClientPhase.Timer.BeginOp | clientstats/clientstats.go:115-122 | the fields follow the events |
| ClientPhase.Timer.EndOp | clientstats/clientstats.go:123-133 | the fields follow the events, an unmatched end included |
| ClientPhase.Timer.Read | clientstats/clientstats.go:100-105 | a reading at any instant: the number of busy instants if no event is later, and otherwise exactly under that condition |
| AccessTable.RowsLoseNothing | accesslog/aggregate.go:199-290 | row counts add up to the lines; at most maxKeys rows besides the overflow row, each what an unbounded table would show; the overflow row aggregates exactly the rest; a record lacks its row only if the table is full |
| AccessTable.RowKeyIff | accesslog/aggregate.go:239-254 | records share a row if and only if method and address are the same, for methods without a NUL |
| AccessTable.PageIff | accesslog/aggregate.go:214-221 | and a page if and only if they are the same or both too long to name, for methods without a blank |
| AccessTable.FlowKeyIff | accesslog/aggregate.go:222-228 | and transitions are counted together if and only if both pages are the same |
| AccessTable.RowMeans | accesslog/aggregate.go:255-284 | field by field: a row's count, bytes, status counts, timed count and total are those of its records, upgraded connections left out of the timings |
| AccessTable.RowDescribes | accesslog/aggregate.go:274-284 | a row's buckets and maximum are the histogram of its records' latencies |
| AccessTable.RowPercentile | accesslog/aggregate.go:517-536 | so the percentile of a row bounds the exact one of its own records |
| AccessTable.FlowsLoseNothing | accesslog/aggregate.go:214-238 | transition counts add up to the tracked sessions' records less one each; every admitted transition is counted exactly from its first time, and one is missing only if the table is full; the bounds hold; each tracked session is at its last page, and one is untracked only if the table was full |
| AccessTable.SlotWithinLimit | accesslog/aggregate.go:239-254 | (link) putting a key where the table has it keeps the table within its limit |
| AccessTable.Aggregator.ObserveRecord | accesslog/aggregate.go:199-290 | the object is always the specified table of the records observed |
| AccessTable.Aggregator.ObserveSession | accesslog/aggregate.go:214-238 | the session and flow maps are updated as specified |
| AccessTable.Aggregator.ObserveRow | accesslog/aggregate.go:239-284 | so is the row, the status counters and timings included |
| RequestTable.NothingIsLost | httpstats/httpstats.go:617-736 | row counts add up to the observations; at most maxKeys ordinary identities; at most 2048 pairs of identity and shape; every admitted identity shows exactly its own histogram, times, bytes and SQL totals, and the overflow identity exactly the rest; an identity is not admitted only if the budget is spent |
| RequestTable.TotalsDescribe | httpstats/httpstats.go:691-697 | the buckets and maximum of any set of observations are the histogram of their clamped durations |
| RequestTable.RowPercentile | httpstats/httpstats.go:814-831 | so the percentile of an admitted identity bounds the exact one of its own observations |
| RequestTable.RowShapes | httpstats/httpstats.go:662-690 | merging a request's shapes keeps its calls, times and errors and takes from the budget exactly the pairs it adds |
| RequestTable.ResolveKeepsTotal | httpstats/httpstats.go:662-681 | moving shapes to the overflow shape loses no call, time or error |
| RequestTable.ResolveCounts | httpstats/httpstats.go:662-724 | the places taken are counted and fit the budget |
| RequestShapes.ShapesAreExact | httpstats/httpstats.go:617-724 | in every row each shape that has a place shows exactly the calls, times and errors of the row's observations from the first on, and a reported shape lacks one only if all 2048 are taken |
| RequestTable.Requests.ReserveKey | httpstats/httpstats.go:726-736 | a key is granted exactly while the budget lasts |
| RequestTable.Requests.ResolveShapes | httpstats/httpstats.go:662-681 | the loop over the sorted names resolves as specified |
| RequestTable.Requests.ObserveRequest | httpstats/httpstats.go:617-698 | the object is always the specified table of the observations |

## Left out

- Rotation, copytruncate, Close, Reset and I/O errors of the access log: the code is best effort there. The rotation counters are zero throughout the model, because cutting a generation zeroes them while an older freeze point still holds the previous value (accesslog/generation.go:363, accesslog/generation.go:497).
- Log-line formats and path rules: reading one line into a record is a parameter, and so is which sessions are legible.
- LogCollector.GenerationCollector.Drain: a caller that would wait for the predecessor or the semaphore is modelled as giving up and retrying; fairness and termination of the wait are not stated.
- HttpGenerations.ConnectionsBalance: assumes handlers do not use their writer after returning; a use of it after that is not a step of the model.
- HTTP Reset with its drain budget, event timelines, request-work merging, SQL counts per request and the maximum per shape in httpstats.
- The 16 shards of the request table and the concurrency between them: an observation is one step on one map.
- Upstream timings, cache and content-type dimensions, protocols and stories of the access-log aggregate, its dropped-flow counter, and the flow view's own tables.
- Configuration parsing (YAML, windows, routes) and what validates funnel names; that identifiers are distinct and hold no NUL, and that a funnel is listed once, is assumed of a configuration (`FunnelHistory.ProperConfig`).
- GrantLines.RowRoundTrip: letters have ASCII case. The source searches an upper-cased copy with the original's positions (queryplan/identifier.go:168-186), which differ when a character changes length with its case; names that do so are not modelled.
- GrantLines.WrittenAnswersList: rows with ADMIN OPTION, REVOKE rows and other syntax are unreadable to the source and make the verdict unverifiable, which `GrantReading` and `GrantVerdicts` cover; how the server writes them is not modelled.
- Grants.VerifyPrivileges: the connection, timeouts and the statements of the session other than the privilege checks.
- Int64 overflow of 95n + 99 and of sums of nanoseconds; the graph's saturating additions are modelled.
- A character stands for a byte in `Identifiers`, `GrantLines` and `AccessTable`, and for a code point in `FlowGraph`, where lengths in bytes are computed from it; elsewhere only equality of names matters.
- The peer's and the hub's HTTP, JSON, authentication, tickers and sockets, the section dropping of boundSnapshot, and the concurrency of the run controller, whose answers are arbitrary.
- PeerNode.NoLeaseLeftOver: for a sweep that nothing interrupts; an operation between its check and commit can always give a run a new lease or state.
- Hub.BudgetsFit: is about the budgets requested; a response may be up to 1 MiB longer before the hub stops reading it (multihost/hub.go:371-385).
- Health notes, panics in samplers other than as a missing sample, and the reading of /proc in hoststats and dbpool.
- The counters, redisstats, flowstats and sqlrows collectors: simpler copies of the same memo, or, for sqlrows, one that does not re-check before it stores.
- The advisor, database capture and inspection, session labels, CPU and trace bridges and the web pages.
