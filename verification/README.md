# DataFlow: verified models

DataFlow lets tenants draw data pipelines, promote them from an integration to a production
environment, and run them on a Temporal worker. This project models the parts of it where a small
slip would lose data, money or a guarantee, and proves what they promise:

- **Graphs.** The server's and the editor's cycle checks, the unguarded walk along a chain, the
  lineage layout, focus filtering, and the two searches for the contract above a sink. One library
  (`Graphs`, `Kahn`) of paths, ranks and queue invariants serves all of them.
- **Streaming.** Fetch, process and commit of stream executions that fail, retry, continue as new
  and overlap; delivery of stream events to pipelines with done marks and locks.
- **Transactions.** The life of pipeline versions with its promotion gates; quota and payments
  under interleaving.
- **Text.** The Mermaid printer and parser, and the splitter of projection fields.
- **Fast forms of simple things.** Partitioned and paged backfill, dedupe across runs, Iceberg
  paging and idempotent appends, the spilled merge, batched upserts, keyset paging.

Each file is one module and starts by naming the code it models. Loops and updates of the original
are loops, classes and arrays here, each proved against a function or a predicate on values; what
the system promises is then proved about those. Database tables are sequences or maps and every
transaction is one atomic step. Answers of Postgres, Redis, Kafka, Temporal and of the payment
provider are inputs, lost replies among them. Where a promise is false of the code, the module
proves the exact condition under which it holds and shows a case outside it.

`dafny verify dfyconfig.toml` verifies the whole project.

## What the proofs found

- The editor and the server agree on every definition over given node ids exactly when no two
  different pairs of them share a key, which is "source, arrow, target"
  (`CycleChecks.ChecksAgreeExactly`). Ids without the arrow character keep the keys apart; with it
  the editor can drop an edge that closes a cycle (`CycleChecks.ArrowInIdHidesCycle`).
- The lineage search gives up at the first contract whose text does not parse, and among nodes at
  one distance the order of the edges decides (`ContractSearch.SiblingHidesContract`). It finds a
  contract in every order exactly when at some distance there is one and up to there nothing
  unparsable (`ContractSearch.FoundInEveryOrder`). The server ignores contracts given as text.
- The Kafka fetch takes the stored offsets without looking at their topic, so a connection with two
  topics can skip records, and delivery is guaranteed exactly for at most one topic
  (`StreamCursors.DeliveryExact`). Once an offset is stored only stored partitions are read, so a
  partition without records in the first committed pages is never read again
  (`StreamCursors.PartitionReadExact`, `StreamCursors.SecondPartitionUnread`). Above 2^53 two offsets
  can decode to the same float, and then the first commit wins (`StreamCursors.SwapIffDistinguished`).
- Re-activating an old production version can break the contract chain that promotions guard
  (`Lifecycle.ReactivationBreaksContracts`); it keeps it exactly when the old version satisfies the
  live one (`Lifecycle.ActivateGuarantee`).
- If the reply to a successful execution insert is lost, the quota unit is given back although the
  execution exists (`Quota.MisreportedRunIsFree`); the books stay right exactly without such a loss
  (`Quota.BooksExact`).
- A pipeline can be started twice for one event: when the start is reported as failed although the
  workflow runs, when the done mark cannot be written or read, or when a crash comes before marking.
  While marks do not expire, no run starts one twice exactly when none of these can happen
  (`EventDelivery.AtMostOneExact`). An item whose read or acknowledgement is lost while new messages
  are read waits for a restart or the next failure (`EventDelivery.RestartNeededExactly`).
- `planBackfill` says that partitionDays must be an integer, but 1.5 is accepted and cut to 1
  (`Backfill.DaysAccepted`). Range ends are stored in whole microseconds, and the range selects the
  same rows exactly when none is rounded down (`Backfill.StoredRangeExact`,
  `Backfill.RoundedDownAddsARow`). Rows with equal cursor values are lost exactly when they straddle a
  page boundary (`Backfill.PagedIsAll`, `Backfill.TiedRowLost`).
- A run that stores its dedupe keys and then fails makes later runs drop rows that were never put
  out (`Dedupe.FailedRunSwallows`); `Dedupe.ExecuteAll` says exactly when that happens.
  Pipeline-scope dedupe without key fields repeats the last row of the first run and drops all later
  rows (`Dedupe.NoKeyFields`).
- An Iceberg append that lands while a snapshot is half read makes the reader skip the rest of the
  older snapshot (`Iceberg.AppendMidReadSkips`), and only such an append does (`Iceberg.AppendExact`).
  An overwrite stops the reader only until the next append hides it, and then as many new rows are
  skipped as old ones were read (`Iceberg.OverwriteThenAppendSkips`).
- A batch that repeats a conflict key fails although row-by-row upserts would not
  (`BatchedWrites.RepeatedKeyFails`), and nothing else sets the two apart
  (`BatchedWrites.BatchedIsRowByRow`).

## Model

| member | source | states |
|---|---|---|
| Graphs.AcyclicRank | apps/workflow-go/internal/api/pipeline_validation.go:51-78 | a closed definition without a cycle has a rank below its node count that grows along every edge |
| Graphs.AcyclicIffRanked | apps/workflow-go/internal/api/pipeline_validation.go:51-78 | having such a rank and having no directed cycle are the same thing |
| Graphs.StuckHasCycle | apps/workflow-go/internal/api/pipeline_validation.go:76-78 | a set of nodes each of which has a predecessor in the set contains a directed cycle |
| Kahn.KahnResult | apps/workflow-go/internal/api/pipeline_validation.go:58-78 | when the queue has been worked off, all nodes were visited exactly if there is no cycle |
| CycleChecks.ValidatePipeline | apps/workflow-go/internal/api/pipeline_validation.go:12-78 | accepts exactly the closed definitions with distinct non-empty ids and no directed cycle; says "cycle" exactly for the well-formed ones that have one; every other verdict names a real defect |
| CycleChecks.CheckNodes | apps/workflow-go/internal/api/pipeline_validation.go:29-50 | passes exactly distinct non-empty ids, and otherwise reports an id that is empty or occurs twice |
| CycleChecks.LinkEdges | apps/workflow-go/internal/api/pipeline_validation.go:51-57 | passes exactly when every edge joins known nodes; indegrees and successor lists then are those of the edges |
| CycleChecks.SeedQueue | apps/workflow-go/internal/api/pipeline_validation.go:58-63 | the seeds are exactly the nodes of indegree 0, once each, in any order |
| CycleChecks.CountByKahn | apps/workflow-go/internal/api/pipeline_validation.go:58-78 | for any order of the seeds the count reaches the number of nodes exactly when there is no cycle |
| CycleChecks.CycleFinder.Dfs | apps/web/src/utils/validatePipeline.ts:33-44 | the three-colour search from a white node finds only real cycles, and otherwise finishes the node and keeps all that was finished |
| CycleChecks.CycleFinder.FindCycle | apps/web/src/utils/validatePipeline.ts:33-50 | started from every white node, it answers yes exactly when the visible edges have a cycle |
| CycleChecks.ValidateInEditor | apps/web/src/utils/validatePipeline.ts:11-50 | reports self-loops and repeated edges in edge order, then one cycle error exactly when the remaining edges between known nodes have a cycle |
| CycleChecks.KeyInjective | apps/web/src/utils/validatePipeline.ts:23-28 | between ids without the arrow character, equal edge keys mean equal edges |
| CycleChecks.KeptEdges | apps/web/src/utils/validatePipeline.ts:17-31 | while no two different pairs of the ids share a key, the editor drops nothing but self-loops and repetitions |
| CycleChecks.SelfLoopsReported | apps/web/src/utils/validatePipeline.ts:18-22 | a self-loop error is raised exactly for the edges that are one |
| CycleChecks.ChecksAgree | apps/web/src/utils/validatePipeline.ts:17-50 | then the editor rejects exactly when a directed cycle exists, that is, exactly when the server's count rejects |
| CycleChecks.ChecksAgreeExactly | apps/web/src/utils/validatePipeline.ts:17-50 | the two checks agree on all definitions over given ids exactly when no two different pairs of the ids share a key |
| CycleChecks.NoArrowKeepsApart | apps/web/src/utils/validatePipeline.ts:23-28 | ids without the arrow character have no shared keys |
| CycleChecks.SharedKeyHidesCycle | apps/web/src/utils/validatePipeline.ts:23-28 | for any two pairs with one key: a definition over the ids with a cycle that the editor passes |
| CycleChecks.ArrowInIdHidesCycle | apps/web/src/utils/validatePipeline.ts:23-28 | such a definition, well-formed, over four concrete ids |
| CycleChecks.LinkChain | apps/workflow-go/internal/api/routes_pipelines.go:858-868 | indegrees, and for each node the last successor in edge order |
| CycleChecks.ChainWalk | apps/workflow-go/internal/api/routes_pipelines.go:869-943 | on an accepted definition the unguarded walk ends, follows edges, repeats no node, starts without incoming and stops without outgoing edges |
| LineageFlow.LongestPathRanks | apps/web/src/pages/lineageFlow.tsx:128-147 | Kahn's queue leaves every node with a rank that one of its incoming edges justifies and that all of them respect, unless there is a cycle |
| LineageFlow.RanksAreLongest | apps/web/src/pages/lineageFlow.tsx:135-147 | such a rank is the length of the longest path that ends in the node |
| LineageFlow.FillColumns | apps/web/src/pages/lineageFlow.tsx:149-150 | column r holds exactly the nodes of rank r, in node order |
| LineageFlow.BarycenterIsMean | apps/web/src/pages/lineageFlow.tsx:153-156 | times the number of neighbours a barycenter is the sum of their indices, in whatever order they come; alone, a node keeps its index |
| LineageFlow.SortIsStable | apps/web/src/pages/lineageFlow.tsx:161 | sorting keeps the order of elements with equal keys |
| LineageFlow.SortColumn | apps/web/src/pages/lineageFlow.tsx:153-163 | one column is put into the arrangement by barycenter and its positions are recorded; no node is lost or added |
| LineageFlow.ArrangedIsSorted | apps/web/src/pages/lineageFlow.tsx:153-163 | after that step the barycenters taken before it do not decrease along the column, nodes with equal ones stand as before, and the recorded positions are the new ones |
| LineageFlow.SweepStepSorts | apps/web/src/pages/lineageFlow.tsx:157-164 | the first and third sweep go from the left and sort each column by its sources, the others from the right by its targets; each step rearranges one column and touches no other |
| LineageFlow.SweepsFollow | apps/web/src/pages/lineageFlow.tsx:157-164 | the first sweep starts with the columns as they are, each later one where the one before ended |
| LineageFlow.Sweeps | apps/web/src/pages/lineageFlow.tsx:157-164 | four sweeps, alternately from the left against sources and from the right against targets, leave every column a permutation of itself |
| LineageFlow.CardsDisjoint | apps/web/src/pages/lineageFlow.tsx:170-183 | cards of different nodes never overlap, in one column or in two |
| LineageFlow.BuildFlow | apps/web/src/pages/lineageFlow.tsx:127-183 | columns are permutations of the ranks, arranged by the sweeps; no two cards overlap, cyclic or not; without a cycle ranks are longest paths and every edge runs right with at least COL_GAP between the cards |
| LineageFilter.BallIsDistance | packages/shared/src/lineage.ts:132-143 | growing by incident nodes d times reaches exactly the nodes within undirected distance d along allowed nodes |
| LineageFilter.CollectIncident | packages/shared/src/lineage.ts:111-115 | the nested loops over seeds and neighbours collect the seeds and their allowed neighbours |
| LineageFilter.FocusSearch | packages/shared/src/lineage.ts:132-143 | the depth-bounded queue collects exactly that ball |
| LineageFilter.FilterWorkspaceLineage | packages/shared/src/lineage.ts:95-168 | domain, layer, query and focus filters one after the other, then the subgraph they span with its counts; the trimmed, lower-cased query is looked for in the lower-cased JSON text of the nodes |
| LineageFilter.FilteredIsClosed | packages/shared/src/lineage.ts:145-168 | any active filter returns a closed subgraph, spanned by the allowed nodes |
| LineageFilter.KeptExactly | packages/shared/src/lineage.ts:95-146 | a node stays exactly if it is, or is linked to, a pipeline of a chosen domain, then an asset of a chosen layer among what is left, then a node whose text has the query, and lies within the given number of links of the focus, as far as these filters are set |
| LineageFilter.DomainsAlone | packages/shared/src/lineage.ts:117-121 | with domains alone: the pipelines of a chosen domain and the nodes linked to them |
| LineageFilter.LayersAlone | packages/shared/src/lineage.ts:122-126 | with layers alone: the assets of a chosen layer and the nodes linked to them |
| LineageFilter.QueryAlone | packages/shared/src/lineage.ts:127-131 | with a query alone: the nodes whose text has it and the nodes linked to them |
| LineageFilter.StatsCount | packages/shared/src/lineage.ts:149-168 | pipelines, external jobs, links and column links are counted one by one, assets by different location, shared assets by id: those with two different consumers |
| LineageFilter.FocusKeepsDistance | packages/shared/src/lineage.ts:132-146 | around a focus exactly the nodes within the given distance stay |
| LineageFilter.FocusIsIdempotent | packages/shared/src/lineage.ts:95-168 | filtering by focus alone twice is filtering once |
| ContractSearch.ContractFinder.FindContract | apps/workflow-go/internal/api/routes_pipelines.go:324-341 | with the shared visited set: a result is a contract upstream; no result means that every newly visited node has only visited, contract-free sources |
| ContractSearch.ServerSearch | apps/workflow-go/internal/api/routes_pipelines.go:324-351 | finds a contract exactly when some upstream contract node has an object schema |
| ContractSearch.ExtractContracts | apps/workflow-go/internal/api/routes_pipelines.go:307-354 | has an entry exactly for the sinks below such a contract, and the entry is one of them |
| ContractSearch.UpstreamIffWithin | packages/shared/src/lineage.ts:318-343 | lying upstream along a path and being within some reverse distance are the same |
| ContractSearch.OrderIsBreadthFirst | packages/shared/src/lineage.ts:318-343 | the queue brings up exactly the upstream nodes, each once, and none before a nearer one |
| ContractSearch.UpstreamContract | packages/shared/src/lineage.ts:318-343 | the first node of that order that ends the search decides: the fields of its contract if they can be read, nothing if not; nothing as well if no node ends it |
| ContractSearch.FoundInEveryOrder | packages/shared/src/lineage.ts:318-343 | a contract is found for every order of the edges exactly when at some distance there is a readable one and up to there no unparsable one |
| ContractSearch.FoundInSomeOrder | packages/shared/src/lineage.ts:318-343 | for some order exactly when no unparsable one is nearer than a readable one |
| ContractSearch.SiblingHidesContract | packages/shared/src/lineage.ts:318-343 | two sources of one sink: the server finds a contract, the lineage search does not, and with the edges swapped it does |
| ContractSearch.CompareSearches | packages/shared/src/lineage.ts:318-343 | on one definition: the server finds a contract exactly when there is one with an object schema; without unparsable text upstream the lineage search finds one exactly when there is one, so whenever the server does; the server misses only contracts given as text |
| ContractSearch.TextIsFoundOnce | packages/shared/src/lineage.ts:318-343 | a contract given as text is found by the lineage search and not by the server; of two nodes with one id the later counts |
| ContractSearch.OthersArePassed | packages/shared/src/lineage.ts:318-343 | nodes that are no contracts and schemas that are neither objects nor text are passed over |
| StreamCursors.NumberValueExact | apps/workflow-go/internal/activities/activities.go:376-391 | offsets up to 2^53 decode to themselves |
| StreamCursors.MergeInto | apps/workflow-go/internal/activities/activities.go:162-166 | the loop over the incoming partitions, in any order, merges them into the stored ones |
| StreamCursors.MergeIsMaximum | apps/workflow-go/internal/activities/activities.go:154-168 | a merge is the pointwise maximum and keeps every partition of both sides |
| StreamCursors.MergeAllIsMaximum | apps/workflow-go/internal/activities/activities.go:154-168 | any sequence of merges ends in the pointwise maximum of all of them |
| StreamCursors.CommitOrderIrrelevant | apps/workflow-go/internal/activities/activities.go:154-168 | order and repetition of commits do not matter |
| StreamCursors.SwapIffDistinguished | apps/workflow-go/internal/activities/activities.go:162-166 | two commits to a partition commute exactly when they are equal or decode to different numbers; of two that decode to the same the first stays |
| StreamCursors.ConnectorState.CommitSourceCursors | apps/workflow-go/internal/activities/activities.go:141-175 | all cursors of a call are stored, or none if any write is refused |
| StreamCursors.CommitAllSplits | apps/workflow-go/internal/activities/activities.go:145-173 | cursors of one call are stored one after the other, each on what the earlier ones left |
| StreamCursors.CommitOne | apps/workflow-go/internal/activities/activities.go:147-172 | a cursor without offsets replaces the stored one; with offsets it keeps all partitions of both when the topic is the same and replaces it otherwise; no other row changes |
| StreamCursors.RunStreamBatch | apps/workflow-go/ee/workflows/stream_direct.go:94-128 | a batch fails exactly when some node of the plan fails, and a failed batch hands out no checkpoint |
| StreamCursors.RunIteration | apps/workflow-go/ee/workflows/stream_direct.go:50-89 | one turn runs the nodes once; it counts as an error exactly when a node or the commit fails, and else as a batch with the records of the last page |
| StreamCursors.StreamDirectWorkflow | apps/workflow-go/ee/workflows/stream_direct.go:17-92 | cancelled exactly when some iteration gets a cancel signal, at its start or while paused; each iteration before the first such one, or each of the hundred, runs the nodes once; batches, errors and records are the sums of what became of them; the trace is one the protocol allows |
| StreamCursors.StepKeepsInv | apps/workflow-go/ee/workflows/stream_direct.go:50-128 | every step of any execution keeps: issued and stored offsets cover only delivered records |
| StreamCursors.AtLeastOnce | apps/workflow-go/ee/workflows/stream_direct.go:50-128 | in every run of any number of executions on one topic, every record up to a stored offset was in a batch in which no node failed |
| StreamCursors.CountedIsStored | apps/workflow-go/ee/workflows/stream_direct.go:75-83 | a batch with a checkpoint is counted only when the stored offsets have reached it |
| StreamCursors.StoredIsMaximum | apps/workflow-go/internal/activities/activities.go:141-175 | the stored offsets are the pointwise maximum of all commits made |
| StreamCursors.OffsetsNeverDecrease | apps/workflow-go/internal/activities/activities.go:141-175 | no step moves a stored offset back, above 2^53 either |
| StreamCursors.TopicSwitchSkipsRecords | apps/workflow-go/internal/connectors/streams.go:41-117 | for any two topics: a run in which a record of the second is passed over |
| StreamCursors.DeliveryExact | apps/workflow-go/internal/connectors/streams.go:41-117 | in every run over a set of topics the records up to the stored offsets were delivered, exactly when the set has at most one topic |
| StreamCursors.PartitionReadExact | apps/workflow-go/internal/connectors/streams.go:47-63 | a partition can still be read exactly while no offset is stored, its own is, or a batch with its records may still be committed |
| StreamCursors.SecondPartitionUnread | apps/workflow-go/internal/connectors/streams.go:47-63 | a run after which a record of a second partition is never read by a fetch that sees the stored cursor |
| Mermaid.DefinitionToMermaid | packages/shared/src/mermaid.ts:27-40 | the printed text is the header, the node lines and the edge lines joined by newlines |
| MermaidMatches.PrintedForm | packages/shared/src/mermaid.ts:27-40 | the text of one node and one link, with and without a condition, spelled out |
| Mermaid.ParseDeclarations | packages/shared/src/mermaid.ts:57-83 | the repeated match declares the nodes of all bracketed labels of the text, in order |
| Mermaid.ParseLine | packages/shared/src/mermaid.ts:96-108 | every arrow of a line adds an edge and declares unknown ends with a warning |
| Mermaid.ParseEdges | packages/shared/src/mermaid.ts:85-109 | the edge pass does so for all lines in order |
| Mermaid.MermaidToDefinition | packages/shared/src/mermaid.ts:52-112 | the parser is the two passes one after the other |
| MermaidMatches.MatchesDeclarations | packages/shared/src/mermaid.ts:57-62 | a declaration is matched at the start of a text exactly where there is an id, a bracket, a quoted text without quotes and a bracket, with any white space in between |
| MermaidMatches.LeftmostDeclaration | packages/shared/src/mermaid.ts:57-62 | the scan takes the leftmost declaration and goes on behind it |
| MermaidMatches.SuffixIs | packages/shared/src/mermaid.ts:63-65 | the type of a declaration is its last parenthesised text, if only white space follows |
| MermaidMatches.SuffixFound | packages/shared/src/mermaid.ts:63-65 | and whatever is taken for a type is such a text |
| MermaidMatches.DeclarationMeans | packages/shared/src/mermaid.ts:63-83 | a declaration maps to a connector exactly if its type is catalogued or else its label is one; what kind, type and label the node then has, and otherwise |
| MermaidMatches.KindByHead | packages/shared/src/mermaid.ts:44-50 | the kind of an unknown connector by the part of its type before the first dot |
| MermaidMatches.StripsBrackets | packages/shared/src/mermaid.ts:86 | bracketed text is removed before edges are looked for, an open bracket stays |
| MermaidMatches.SegmentsAre | packages/shared/src/mermaid.ts:96-98 | the segments of a line hold no arrow, and joined by arrows they are the line |
| MermaidMatches.LeftEndIs | packages/shared/src/mermaid.ts:99 | the source of an edge is the longest id at the end of its segment |
| MermaidMatches.LeftEndNeedsId | packages/shared/src/mermaid.ts:99-101 | without an id at its end a segment starts no edge |
| MermaidMatches.RightEndIs | packages/shared/src/mermaid.ts:100 | the target is the longest id at the start of the next segment |
| MermaidMatches.ConditionalEndIs | packages/shared/src/mermaid.ts:100 | with the condition between bars before it |
| MermaidMatches.ParsedDefinition | packages/shared/src/mermaid.ts:52-112 | for any text: different node ids, exactly those declared or used by an edge; the last declaration counts; edges in order, numbered from 1, between nodes of the definition; a warning for exactly the unknown connectors and the undeclared ends |
| Mermaid.EscapeIsClean | packages/shared/src/mermaid.ts:21-25 | an escaped label has no quotes, no parentheses and only single inner spaces |
| Mermaid.EscapeFixed | packages/shared/src/mermaid.ts:21-25 | and escaping such a label changes nothing |
| MermaidMatches.EscapeKeepsWords | packages/shared/src/mermaid.ts:21-25 | escaping keeps the words of a label, with quotes made single and parentheses made spaces |
| Mermaid.PrintedDeclarations | packages/shared/src/mermaid.ts:57-62 | in printed text the declaration scan finds exactly the printed nodes |
| Mermaid.PrintedLinks | packages/shared/src/mermaid.ts:85-108 | and the edge pass finds exactly the printed edges, conditions trimmed |
| Mermaid.RoundTrip | packages/shared/src/mermaid.ts:21-112 | parsing printed text gives the same nodes in order with normalised labels, the same edges in order with trimmed conditions, and no warning |
| Mermaid.PrintsAgain | packages/shared/src/mermaid.ts:21-112 | printing the result gives the same text exactly when every node shows a label and no condition has white space at its ends |
| FieldSplitter.SplitProjectionFields | packages/shared/src/safe-expression.ts:3-21 | the loop returns the trimmed non-empty pieces between the cuts, skips after backslashes included |
| FieldSplitter.PiecesAreTheSplitting | packages/shared/src/safe-expression.ts:3-21 | for any text the pieces are the only list whose comma join is the text, with every joining comma at depth 0 outside quotes and no such comma inside a piece |
| FieldSplitter.FieldsAreFields | packages/shared/src/safe-expression.ts:19-20 | every returned field is trimmed, non-empty and free of such commas |
| FieldSplitter.SplitUndoesJoin | packages/shared/src/safe-expression.ts:3-21 | splitting the comma join of a list of fields returns the list |
| FieldSplitter.SplitAgain | packages/shared/src/safe-expression.ts:3-21 | joining the fields of any text and splitting again changes nothing |
| FieldSplitter.BalancedIsWhole | packages/shared/src/safe-expression.ts:6-18 | text with closed quotes, balanced parentheses and no comma outside them leaves the scanner as it found it and holds no cut |
| FieldSplitter.CallIsAField | packages/shared/src/safe-expression.ts:3-21 | a call with several arguments, one of them quoted, is such text |
| FieldSplitter.SplitBalanced | packages/shared/src/safe-expression.ts:3-21 | so splitting undoes joining for every list of such fields |
| Lifecycle.CompareContracts | apps/workflow-go/internal/api/routes_pipelines.go:357-391 | lists exactly the removed contracts, removed fields and changed types, whatever the map order; nothing exactly when the new contracts satisfy the old |
| Lifecycle.NoBreaks | apps/workflow-go/internal/api/routes_pipelines.go:357-398 | no break exists exactly when every sink, field and type (up to one optional marker) is kept |
| Lifecycle.SatisfiesChain | apps/workflow-go/internal/api/routes_pipelines.go:357-398 | satisfying contracts is transitive |
| Lifecycle.PipelineTable.Create | apps/workflow-go/internal/api/routes_pipelines.go:85-92 | appends a draft test version numbered one above the highest of its key |
| Lifecycle.PipelineTable.Activate | apps/workflow-go/internal/api/routes_pipelines.go:113-135 | archives the active version of the row's key and environment and activates the row; an unknown row changes nothing |
| Lifecycle.PipelineTable.Promote | apps/workflow-go/internal/api/routes_pipelines.go:400-448 | refuses in gate order (test version, completed test run, contracts unless overridden) and changes nothing then; else archives the live production version and appends the new one |
| Lifecycle.CreateExactly | apps/workflow-go/internal/api/routes_pipelines.go:85-92 | a created version is a draft for tests, numbered one above the highest of its key; nothing else changes |
| Lifecycle.ActivateExactly | apps/workflow-go/internal/api/routes_pipelines.go:113-135 | the row becomes active, the active row of its key and environment archived, nothing else changes |
| Lifecycle.PromoteExactly | apps/workflow-go/internal/api/routes_pipelines.go:400-448 | the live production version is archived and an active copy of the row appended with the next version; nothing else changes |
| Lifecycle.GateExactly | apps/workflow-go/internal/api/routes_pipelines.go:400-430 | a promotion passes exactly for a test version with a completed test run whose contracts satisfy the live ones, unless breaking them is allowed |
| Lifecycle.TestedOnlyByFinishing | apps/workflow-go/internal/api/routes_pipelines.go:400-410 | only finishing a test execution as completed makes its version a tested one |
| Lifecycle.NextIsSound | apps/workflow-go/internal/api/routes_pipelines.go:85-448 | every step keeps one active version per key and environment and growing versions, and changes no row but in its status |
| Lifecycle.RunsStaySound | apps/workflow-go/internal/api/routes_pipelines.go:85-448 | so does every run |
| Lifecycle.ProductionIsBacked | apps/workflow-go/internal/api/routes_pipelines.go:400-448 | in every run each production version copies a test version of its key that had a completed test run in an earlier state, even if executions are purged later |
| Lifecycle.ActivateGuarantee | apps/workflow-go/internal/api/routes_pipelines.go:113-135 | activating an older production version keeps "the live contracts satisfy all production contracts" exactly when it satisfies the version live before |
| Lifecycle.NextGuarantee | apps/workflow-go/internal/api/routes_pipelines.go:85-448 | the same exact condition for every step |
| Lifecycle.GuaranteeExact | apps/workflow-go/internal/api/routes_pipelines.go:85-448 | along a run the guarantee holds in every state exactly when every step met its condition |
| Lifecycle.ReactivationBreaksContracts | apps/workflow-go/internal/api/routes_pipelines.go:113-135 | a run from empty tables with two guarded promotions whose last step, activating the first production version, breaks the guarantee |
| Lifecycle.PromotionsKeepContracts | apps/workflow-go/internal/api/routes_pipelines.go:411-430 | with promotions without override as the only production changes, the live contract satisfies every production contract there was |
| Quota.BillingTables.ConsumeQuota | apps/workflow-go/internal/api/temporal.go:42-61 | counts a run exactly when there is room, making missing rows, and changes nothing otherwise |
| Quota.BillingTables.ReleaseQuota | apps/workflow-go/internal/api/temporal.go:63-68 | gives one run back, not below zero |
| Quota.BillingTables.PrepareScheduled | apps/workflow-go/internal/activities/activities.go:41-70 | counts when there is room and inserts the execution unless it is there |
| Quota.BillingTables.Capture | apps/workflow-go/internal/api/routes_billing.go:166-179 | credits the order exactly when it is still unpaid under the lock and the payment id is free |
| Quota.NextKeepsBooks | apps/workflow-go/internal/api/temporal.go:42-112 | no step of any handler, whatever its reply, changes the difference between the counter and the runs recorded, in flight or lost, except a misreported insert |
| Quota.NextKeepsGrants | apps/workflow-go/internal/api/routes_billing.go:144-187 | no step changes the bought quota by anything but five runs per unit of an order that becomes paid, and none lowers the limit |
| Quota.RunsAreCovered | apps/workflow-go/internal/api/temporal.go:42-112 | in every interleaving recorded runs plus runs in flight are at most the counter, which is at most the quota |
| Quota.RunsStayWithinLimits | apps/workflow-go/internal/api/routes_billing.go:144-187 | in every interleaving the counter stays within the quota, and the bought quota is its initial value plus five runs per unit of the orders paid since, each counted once |
| Quota.RefusedOnlyWhenFull | apps/workflow-go/internal/api/temporal.go:42-61 | in every interleaving a start that gets an answer leaves the counter as it is exactly when the counter equals the quota |
| Quota.QuotaIsUsedUp | apps/workflow-go/internal/api/temporal.go:42-112 | with c runs counted and a quota of l, however many starts arrive, by hand or on schedule: with working replies exactly the first l - c are recorded and counted, all others refused |
| Quota.NewTenantHasFive | apps/workflow-go/internal/api/temporal.go:42-61 | a tenant without a plan has five runs, none of them bought |
| Quota.CaptureCredits | apps/workflow-go/internal/api/routes_billing.go:144-180 | a captured payment pays an order that is not paid yet and adds five runs per unit; a second one changes nothing, and no other order or plan is touched |
| Quota.CaptureRefusesTaken | apps/workflow-go/internal/api/routes_billing.go:166-179 | a payment that belongs to another order pays nothing |
| Quota.FailureCloses | apps/workflow-go/internal/api/routes_billing.go:181-184 | a failed payment closes an order that is still open and changes nothing else |
| Quota.BooksExact | apps/workflow-go/internal/api/temporal.go:42-112 | in a run the difference between the counter and the runs recorded, in flight or lost stays the same for all tenants exactly when no insert is misreported |
| Quota.MisreportLosesARun | apps/workflow-go/internal/api/temporal.go:94-110 | an insert that succeeds but is reported as failed takes one run out of the books |
| Quota.MisreportedRunIsFree | apps/workflow-go/internal/api/temporal.go:94-110 | from empty tables: a recorded execution with a counter of zero |
| EventDelivery.EventConsumer.HandleRow | apps/workflow-go/internal/api/routes_triggers.go:163-206 | done mark, lock, unreadable definition, firing, quota refusal, marking and unlocking of one matched pipeline, with every answer, lost replies and every crash point |
| EventDelivery.RowExactly | apps/workflow-go/internal/api/routes_triggers.go:163-206 | a row is started or refused only when nothing stands in its way; for an event with an id exactly the reported starts and the refusals are marked; the lock stays only after a crash or when setting or deleting it was not answered |
| EventDelivery.RowEnds | apps/workflow-go/internal/api/routes_triggers.go:163-206 | done mark, lock and unreadable definition are looked at in this order, and what each answers |
| EventDelivery.EventConsumer.DeliverEvent | apps/workflow-go/internal/api/routes_triggers.go:153-208 | answers "delivered" exactly when the query worked and every row was settled |
| EventDelivery.EventConsumer.HandleBatch | apps/workflow-go/internal/api/routes_triggers.go:235-250 | messages in order; acknowledged only if delivered, deleted only if known to be acknowledged |
| EventDelivery.BatchTriesAll | apps/workflow-go/internal/api/routes_triggers.go:235-250 | without a crash every message of a batch is tried, also after one that has to be retried |
| EventDelivery.EventConsumer.Consume | apps/workflow-go/internal/api/routes_triggers.go:216-261 | one turn of the consumer with its switch between the pending list and new messages |
| EventDelivery.DeliverRowsHandle | apps/workflow-go/internal/api/routes_triggers.go:153-208 | a successful delivery has fired every matched pipeline, found it refused by quota, or found its definition unreadable; done marks always stand for one of the first two |
| EventDelivery.NextKeepsAcks | apps/workflow-go/internal/api/routes_triggers.go:210-261 | every step, crashes and expiring keys included, keeps that acknowledged items were handled |
| EventDelivery.AcknowledgedIsHandled | apps/workflow-go/internal/api/routes_triggers.go:153-261 | in every run only handled items are acknowledged and only acknowledged ones deleted; unless a read's answer is lost, new messages are read only while no unhandled one waits |
| EventDelivery.EmptyTurn | apps/workflow-go/internal/api/routes_triggers.go:222-257 | an answer without messages, an empty list or none at all, makes the consumer read new messages and changes nothing else |
| EventDelivery.EverythingIsDelivered | apps/workflow-go/internal/api/routes_triggers.go:153-261 | from every world of a run, once everything works again, all published items are acknowledged, and every readable pipeline matched by an item not acknowledged before has been started or refused by quota |
| EventDelivery.RestartNeededExactly | apps/workflow-go/internal/api/routes_triggers.go:216-261 | healthy turns alone do this exactly when the consumer is at its pending list or has nothing on it |
| EventDelivery.AtMostOneStart | apps/workflow-go/internal/api/routes_triggers.go:163-206 | when every start is reported and marked before a crash and marks can be read, no pipeline is started twice for one event id over any number of redeliveries |
| EventDelivery.AtMostOneExact | apps/workflow-go/internal/api/routes_triggers.go:163-206 | for any set of replies: no run with these replies starts a pipeline twice for one event id exactly when all of them are of that kind |
| EventDelivery.UnmarkedFiresAgain | apps/workflow-go/internal/api/routes_triggers.go:163-206 | a second delivery starts the pipeline again exactly when the first start was reported as failed, its mark was not written, or the mark cannot be read |
| Backfill.PlanBackfill | apps/workflow-go/internal/api/backfills.go:25-52 | refuses bad times, days and concurrency in this order; refuses a valid range exactly when it needs more than 366 partitions; else the partitions tile the range |
| Backfill.DaysAccepted | apps/workflow-go/internal/api/backfills.go:31-35 | days are accepted from 1 to below 32, which fits the demand for an integer exactly but for fractions in between, such as 1.5 |
| Backfill.BoundedPageSize | apps/workflow-go/internal/connectors/databases.go:114-124 | always between 1 and 10000: the first number that is not zero, cut to a whole one, or 1000 without any |
| Backfill.FetchTakes | apps/workflow-go/internal/connectors/databases.go:203-270 | a page is the first rows still to come, more is announced exactly when there is more, and the next cursor stands behind exactly the rows delivered or tied with the last one |
| Backfill.RunSource | apps/workflow-go/internal/workflows/dynamic_dag.go:295-337 | from a stored cursor or the start, the page loop succeeds exactly when what is left has at most 50 pages; without the cursor column among the selected columns exactly when one page is enough |
| Backfill.PagedIsAll | apps/workflow-go/internal/connectors/databases.go:252-269 | paging delivers a whole range exactly when no equal cursor values straddle a page boundary |
| Backfill.TiedRowLost | apps/workflow-go/internal/connectors/databases.go:252-269 | two tied rows in pages of one: the second is never delivered |
| Backfill.PageCountUnique | apps/workflow-go/internal/workflows/dynamic_dag.go:300-335 | with unique values the pages are the rows divided by the page size, rounded up |
| Backfill.ReadPartition | apps/workflow-go/internal/workflows/dynamic_dag.go:295-337 | a partition of unique values is read completely and in order exactly when it has at most 50 full pages |
| Backfill.RangesJoin | apps/workflow-go/internal/api/backfills.go:40-49 | consecutive partitions, read one after the other, are one scan of the range |
| Backfill.RunNode | apps/workflow-go/internal/workflows/dynamic_dag.go:295-369 | a source is read as its node says: from the cursor stored under its name, else from the start of a backfill, up to its end, in pages of its size |
| Backfill.ReadsWholeTable | apps/workflow-go/internal/connectors/databases.go:225-245 | a node without a backfill and without an end is read from the first row to the last |
| Backfill.KeysSeparate | apps/workflow-go/internal/workflows/dynamic_dag.go:360-369 | names with different state keys differ, so no partition finds the cursor of another |
| Backfill.RunPartition | apps/workflow-go/internal/api/backfills.go:97-138 | a dispatched execution reads every source of the definition, and nothing else, over exactly the partition; it completes exactly when no source has more than 500000 rows there, and only then keeps cursors |
| Backfill.RunBackfill | apps/workflow-go/internal/api/backfills.go:25-138 | a planned, stored, dispatched and executed backfill delivers for every source every row of the stored range once, in order, exactly when each partition fits |
| Backfill.StoredRangeExact | apps/workflow-go/internal/api/routes_pipelines.go:561-566 | storing the range changes what it selects exactly when one of its ends is rounded down |
| Backfill.RoundedDownAddsARow | apps/workflow-go/internal/api/routes_pipelines.go:561-566 | with rounding to the nearest microsecond a start 400 nanoseconds late selects a row before it |
| Backfill.PointAtPartition | apps/workflow-go/internal/api/backfills.go:116-130 | every source node, and no other, is pointed at the partition, in place |
| Backfill.PreparedFields | apps/workflow-go/internal/api/backfills.go:116-130 | a source gets the mode, the ends and the key of the partition and a page size of at least 10000, and keeps its id; other nodes stay as they were |
| Backfill.PreparedReads | apps/workflow-go/internal/api/backfills.go:116-130 | a source so pointed starts at the partition's start, ends at its end and keeps its id |
| Backfill.DispatchedPageSize | apps/workflow-go/internal/api/backfills.go:129 | a dispatched source reads pages of 10000, so a partition holds at most 500000 rows |
| Dedupe.DedupeRows | apps/workflow-go/internal/connectors/transforms.go:266-296 | each key once, in order of first occurrence, with its first or last row; no key fields, no change |
| Dedupe.DedupedIsDistinct | apps/workflow-go/internal/connectors/transforms.go:266-296 | its result repeats no key and has all of them; keeping first rows it is keep-first dedupe |
| Dedupe.FilterCrossRun | apps/workflow-go/internal/activities/activities.go:304-351 | fails exactly on rows that are no objects; else passes the rows with unstored keys and lists their keys |
| Dedupe.FilterExact | apps/workflow-go/internal/activities/activities.go:313-346 | that is keep-first dedupe behind the stored keys exactly when no fresh key is repeated |
| Dedupe.DedupeKeys.Commit | apps/workflow-go/internal/activities/activities.go:186-196 | adds the keys to the stored set; storing one again changes nothing |
| Dedupe.DedupeKeys.Execute | apps/workflow-go/internal/activities/activities.go:304-351 | a completed run puts out the filtered rows; it and a run that fails after storing its keys add exactly the keys of their input; any other run changes nothing |
| Dedupe.ExecuteAll | apps/workflow-go/internal/activities/activities.go:186-351 | over any sequence of runs, failed ones included, no key is put out twice and the stored keys are those of all runs that stored theirs; the outputs are keep-first dedupe of the completed inputs exactly when no completed run gets a key stored by failed runs only |
| Dedupe.CleanEndings | apps/workflow-go/internal/activities/activities.go:186-351 | that is so when no run fails after storing its keys |
| Dedupe.FailedRunSwallows | apps/workflow-go/internal/activities/activities.go:186-351 | one such run, and the next one puts nothing out |
| Dedupe.NodeDedupesRawInputs | apps/workflow-go/internal/connectors/transforms.go:266-296 | with the in-run handler in front the same holds of the raw inputs, under the same condition on them |
| Dedupe.NoKeyFields | apps/workflow-go/internal/activities/activities.go:313-346 | without key fields the first run repeats its last row and later runs put out nothing |
| Iceberg.PageSize | apps/workflow-go/internal/connectors/files.go:284-295 | always between 1 and 10000: the ingestion setting, else the configured one, else 1000 |
| Iceberg.IcebergFetch | apps/workflow-go/internal/connectors/files.go:263-330 | the page, the next cursor and the announcement of more, for every snapshot, cursor and batching of the scan |
| Iceberg.FetchAnswers | apps/workflow-go/internal/connectors/files.go:263-330 | nothing new without a snapshot or with the one read last; an error exactly when a reader that has read something meets a snapshot that is no append; else the next rows, and a cursor that stays with the old snapshot exactly while rows are left |
| Iceberg.OverwriteThenAppendSkips | apps/workflow-go/internal/connectors/files.go:276-283 | only the current snapshot is looked at: an append after an overwrite hides the overwrite, and as many of the new rows are skipped as were read of the old ones |
| Iceberg.FetchInStep | apps/workflow-go/internal/connectors/files.go:263-330 | a fetch in step with the table hands out the next rows, at least one if any are left, and says "no more" exactly when all are handed out |
| Iceberg.RowsOnceInOrder | apps/workflow-go/internal/connectors/files.go:263-330 | over any appends between complete reads and any page sizes, what was handed out is the beginning of the table |
| Iceberg.Drain | apps/workflow-go/internal/connectors/files.go:263-330 | fetching until there is no more ends with the whole table handed out, and then hands out nothing |
| Iceberg.AppendExact | apps/workflow-go/internal/connectors/files.go:279-283 | an append keeps the reader in step exactly when no snapshot is half read |
| Iceberg.AppendMidReadSkips | apps/workflow-go/internal/connectors/files.go:279-327 | else the reader goes on behind the older snapshot and never hands out what was left of it |
| Iceberg.IcebergTable.FindCommitted | apps/workflow-go/internal/connectors/files.go:343-351 | the last commit of the execution and node, if there is one |
| Iceberg.IcebergTable.Append | apps/workflow-go/internal/connectors/files.go:405-429 | one attempt: answers with an earlier commit, or fails, commits unheard, or commits |
| Iceberg.RetriesCommitOnce | apps/workflow-go/internal/connectors/files.go:343-429 | any number of attempts one after the other, among appends by others, leaves exactly the one commit of the first attempt that reached it |
| Iceberg.SuccessNamesTheCommit | apps/workflow-go/internal/connectors/files.go:405-429 | every success names that snapshot and its record count |
| SpillMerge.Spill.Write | apps/workflow-go/internal/activities/activities.go:489-496 | bytes that would pass the limit are refused |
| SpillMerge.StreamConcatMerge | apps/workflow-go/internal/activities/activities.go:478-545 | the file is the encoding of all records; it fails for the first bad input unless the limit is passed before it, and otherwise exactly when the encoding is too long |
| SpillMerge.MergeInMemory | apps/workflow-go/internal/activities/activities.go:443-466 | the in-memory path for any strategy: the encoded merge, the first bad input, or the failure of the strategy |
| SpillMerge.FlatJoin | apps/workflow-go/internal/connectors/transforms.go:506-512 | concatenation keeps the records of each input together and in order |
| SpillMerge.UnionOf | apps/workflow-go/internal/connectors/transforms.go:513-527 | a union keeps each record where it occurs first |
| SpillMerge.FirstOnesAreASet | apps/workflow-go/internal/connectors/transforms.go:513-527 | so it has exactly the records of the inputs, each once |
| SpillMerge.MergeRefs | apps/workflow-go/internal/activities/activities.go:402-466 | chooses the path by the declared sizes: in memory below the limit, the spill above it, and a refusal there for other strategies than concatenation |
| SpillMerge.SpillRefinesMemory | apps/workflow-go/internal/activities/activities.go:478-545 | where the spill succeeds it equals the in-memory result, and on arrays it is too long exactly when that result exceeds the limit |
| SpillMerge.SpillSlack | apps/workflow-go/internal/activities/activities.go:413-442 | with exact sizes, k inputs and m of them not empty, an oversized merge succeeds exactly when the declared total exceeds the limit by at most 2k-1-m bytes (2k-2 if all are empty) |
| BatchedWrites.BatchRows | apps/workflow-go/internal/connectors/databases.go:52-64 | the largest batch of at most 500 rows whose parameters fit into 65535 |
| BatchedWrites.KeyValuesAre | apps/workflow-go/internal/connectors/databases.go:315-336 | the key is made of the values of the conflict columns in their order, if none is NULL |
| BatchedWrites.UpsertMeans | apps/workflow-go/internal/connectors/databases.go:315-336 | without a conflict key, or with a NULL in it, a row is added; else the row with the same key takes over its other columns, and if there is none it is new |
| BatchedWrites.AllColumns | apps/workflow-go/internal/connectors/databases.go:362-374 | every column of any row, once |
| BatchedWrites.BuildInsert | apps/workflow-go/internal/connectors/databases.go:344-355 | placeholder i * columns + j + 1 is bound to row i, column j, and missing values to NULL |
| BatchedWrites.StatementSaysRows | apps/workflow-go/internal/connectors/databases.go:344-358 | read through its placeholders a statement says exactly the rows of its batch |
| BatchedWrites.BatchesTile | apps/workflow-go/internal/connectors/databases.go:339-344 | the batches are the rows, in order |
| BatchedWrites.BatchSizes | apps/workflow-go/internal/connectors/databases.go:339-344 | none is empty or too large, and all but the last are full |
| BatchedWrites.StatementIsRowByRow | apps/workflow-go/internal/connectors/databases.go:315-358 | a multi-row upsert against one table state fails exactly when it would update a key twice, and else equals its rows one by one |
| BatchedWrites.RepeatedKeyFails | apps/workflow-go/internal/connectors/databases.go:315-358 | two rows with one key fail together, not one after the other |
| BatchedWrites.BatchedIsRowByRow | apps/workflow-go/internal/connectors/databases.go:288-360 | the same for the whole sequence of statements |
| BatchedWrites.PostgresTable.WriteBatches | apps/workflow-go/internal/connectors/databases.go:337-359 | sends the batches in order, each within the parameter limit, and stops at the first failure |
| BatchedWrites.PostgresTable.Sink | apps/workflow-go/internal/connectors/databases.go:288-361 | nothing for no rows; refuses none or too many columns; otherwise succeeds exactly when no update repeats a key, and leaves the table as row-by-row upserts would |
| KeysetPaging.ServerLimit | apps/workflow-go/internal/api/routes_pipelines.go:186-196 | between 1 and 200 and within the configured maximum: the request itself if it fits, 50 without one |
| KeysetPaging.PrecedesOrders | apps/workflow-go/internal/api/routes_pipelines.go:213-251 | the listing order is a strict total order, newest first |
| KeysetPaging.PageOfBelow | apps/workflow-go/internal/api/routes_pipelines.go:213-251 | a page is the first rows behind the cursor and carries a cursor exactly when there are more |
| KeysetPaging.ListAllPipelines | apps/web/src/api.ts:55-72 | while newer rows arrive between pages, following the cursors ends, sees no cursor twice and returns the rows there at the start, once each and in order, for any page size |
| KeysetPaging.ListingIsComplete | apps/web/src/api.ts:55-72 | wherever rows arrive, a finished listing is strictly descending and has every row that was there at the start |

## Left out

- HTTP handlers, authentication, OAuth, SMTP, SQL text, Kubernetes and the Redis and Temporal clients: only the state change each performs is modelled.
- The validator's rules on names, triggers, engines, node types and layers, and the editor's reachability warnings: branches that reject on one field each.
- Message texts of errors and warnings; verdicts are constructors with the offending value.
- Hashing, signatures and encryption: a stored hash stands for what it hashes, a signature check for its outcome.
- Layout coordinates are reals; the rounding of floating-point coordinates is not modelled. Offsets decode through 64-bit floats as in the code.
- LineageFlow.BuildFlow: rendering fields of nodes and edges (style, health, metrics) are not part of it.
- LineageFilter.FilterWorkspaceLineage: lower-casing and the JSON text of a node are arbitrary functions.
- Mermaid: the node config taken from the catalog is dropped, lower-casing is an arbitrary function, and the regular expressions are written out as the scans they perform.
- `deriveMapFieldLineage` beyond the splitter: two regular expressions over one field.
- StreamCursors.AtLeastOnce: new consumers start at the earliest record and Kafka does not truncate the log; a fetch returns consecutive records from the stored offset. Behaviour of Kafka itself is not part of this model.
- The plan of a stream execution is an input, since n-1 edges do not make a chain; retries inside one activity are repeated steps.
- Quota.RunsAreCovered: one calendar month; a start that consumes in one month and releases in the next is not modelled.
- Lifecycle: feature entitlements, size limits, schedules and audit rows; a row's contracts are what `ContractSearch.ExtractContracts` gives for its definition.
- EventDelivery.AtMostOneExact: one consumer, and marks, which live for 30 days, do not expire; with several consumers the done check precedes the lock, so nothing is claimed. Trimming of the stream by other clients and publish-subscribe delivery without event ids are left out.
- Backfill.RunBackfill: partition keys are new, different and without colons, as the ids the database gives them; cursor values are unique and selected; the executions run one after the other.
- Backfill through MySQL and MongoDB, which ignore the range bounds; time zones with daylight saving, where a day is not 24 hours; the claiming of partitions by the dispatcher.
- A table is given to the backfill in cursor order, so rows with a NULL cursor, which every bound excludes, are absent; ties keep one order between queries.
- Dedupe: runs of one pipeline that overlap in time, where both may pass a key before either stores it.
- Iceberg: scans return rows in an order that appends extend; overlapping attempts of one append and expiring snapshots.
- SpillMerge.MergeRefs: the joins and the tagging with the source are an arbitrary function of the arrays; file-system errors are left out.
- BatchedWrites: identifier quoting, column defaults, unique indexes other than the conflict key, and the sorting of the column names.
- KeysetPaging: search, stage and trigger filters are taken as fixed, so a row neither starts nor stops matching between pages.
- `executionList` in pages, whose inner limit makes further pages unreachable; `orderSteps`, a second Kahn loop; manifest catalogs, configuration, AI prompts and formatting helpers.
