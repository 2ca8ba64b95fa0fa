# Verified model of the dreaming engine

The dreaming engine folds grounded facts into thematic summaries and judgements into insights, retires them when the
evidence turns, and re-points what cited them. This project models its tables, passes, daemon and helpers in Dafny, and
proves what holds of every call, every reachable state and every run.

State that the program changes step by step is a class whose methods do the same statements in the same order
(`DreamStore.Store`, `InsightDaemon.Daemon`, `Outbox.Ledger`, `BackupLock.Holder`, `UnionFind.Forest`,
`LogQueue.AsyncLineWriter`, `Migrations.Runner`, `TokenRegistry.Registry`). Each method is proved equal to a function of
the old state; the laws are proved of those functions, and of runs of them, in terms of the rows, records, nodes and
characters they read.

| modules | what they hold |
|---|---|
| `Tables`, `ByPgId`, `Text`, `Lines`, `Graph` | rows, lists, ascending order, text, paths |
| `Chain`, `Repoint`, `Following`, `Succession` | successor chains, re-pointing and exactly when it happens, the fold transaction and its whole-run invariant |
| `ThematicFold`, `RefoldLedger`, `FactCycle`, `CutCycle`, `Invalidation`, `RefoldClock` | fold text, the refold ledger, one fact cycle whole or cut, what an invalidation retires, what a cycle leaves open |
| `DreamStore` | the fact path and the insight writes as methods on the tables and the outbox, under the backup lock |
| `Partitioner`, `GroupBy`, `Sections` | the (project, section) partitioner as a group-by |
| `UnionFind`, `InsightWalk`, `InsightOrder`, `InsightIdentity`, `FreshClusters` | the walk, its components, their order and identity, and all of it from discovery rows to found components |
| `Readiness`, `Backlog`, `InsightCycle`, `InsightRuns`, `PaidOnce`, `SendGuard`, `CutInsights`, `FoldOutcomes` | the insight cycle, what one cycle keeps, what it sends whole or cut, and every way a fold ends |
| `DreamRuns`, `PaidAgain`, `ClockWitness` | runs over all tables at once, their four invariants, and two runs that show what is not promised |
| `InsightDaemon` | the insight cycle and the guarded sweep as the daemon runs them |
| `Outbox`, `OutboxRuns`, `FoldedRows` | the outbox ledger, its interleavings with the writers of the summary table, and what each fold leaves of it |
| `BackupLock` | the shared and exclusive backup lock around chat calls |
| `Markers`, `MarkerLines`, `SlotProtocol`, `InsightContent`, `InsightText` | the slot protocol and the assembled insight, and both over their characters |
| `EmbedRetry`, `LogQueue`, `Migrations`, `InstallLine`, `TokenRegistry` | the embedding retries, the audit log queue, the migration runner, the token registry |

Conventions. SQL and JSON text are abstracted to typed rows; each commit is one atomic step. The clock counts
transactions, and each transaction reads `technical_docs` as it then stands. A judgement set stands for its sha256 key,
and a token for its digest: both are taken as injective. Replies of the model, the embedder and the databases are
arbitrary inputs. Every row is of domain level with an empty entity, and tables start empty; the kind, level and entity
filters of the queries are then the `kind` field. The gateway's own write to `community_summaries` touches none of the
modelled columns. Digits in protocol markers are the decimal digits of Unicode 14, and case is ignored as the pattern
ignores it: dotless i, long s and the dotted capital I are matched too. A cycle may be cut after any of its statements,
by an exception or by the death of the process.

## Three things the code does not promise

* A complete, paid reply can leave its set unsettled: when one of the judgements is a decision whose content is not empty
  and nothing but white space, the assembly raises, no backlog row is stored and nothing is withheld.
  `PaidOnce.CompleteReplyUnsettledExactly` proves that this is the only way, `PaidAgain.CycleOnlyPays` that the next cycle
  then pays again, and `PaidAgain.OneSetPaidTwice` is a run that does.
* A member of a group folded in a fact cycle can still have an open refold row when the cycle ends: a later fold of the
  same cycle may retire another summary whose members stand for that record. `DreamRuns.ReachableLeftOpenExactly` gives
  the exact condition in every reachable state, `ClockWitness.FoldedMemberLeftOpen` a run from empty tables, through the
  partitioner at the shipped threshold, in which it happens.
* Re-issuing a token without an install path puts the registry and the file out of step, exactly when the agent has a
  registered file: `TokenRegistry.RemintWithoutPath`.

## Model

| member | source | states |
|---|---|---|
| `Chain.WalkToActiveEnd` | shared-memory/scripts/consolidation_loop.py:2046-2082 | the visited-set walk ends on every table, cyclic ones too, and returns exactly the active row the successor chain leads to, if there is one |
| `Chain.ActiveEndUnique` | shared-memory/scripts/consolidation_loop.py:2046-2082 | a chain leads to at most one active row, so the end found is the only one |
| `Repoint.SubstituteIds` | shared-memory/scripts/consolidation_loop.py:1969-1976 | the re-pointed id list is the specified substitution: same set with the old id exchanged, no repeats |
| `Repoint.SubstituteOrder` | shared-memory/scripts/consolidation_loop.py:1969-1976 | ids stay in first-occurrence order |
| `Repoint.RecheckIdsKeepSupport` | shared-memory/scripts/consolidation_loop.py:2084-2161 | a whole recheck of an insight costs it no supported decision |
| `Repoint.RecheckLowersTotal` | shared-memory/scripts/consolidation_loop.py:1999-2161 | a sweep never raises, and any change of an insight strictly lowers, the number of retired citations with an active end |
| `Repoint.SweepsReachFixpoint` | shared-memory/scripts/consolidation_loop.py:1999-2161 | repeated sweeps over unchanged records reach a state that a further sweep leaves as it is |
| `Following.LinkFollowsExactly` | shared-memory/scripts/consolidation_loop.py:1982-1988 | a citing active insight exchanges the old row for its successor iff every decision among its sources that a cited summary backs, by its own grounds or those of a standing retrospective on it, is still backed after the exchange; every other row keeps its citations |
| `Following.RegateLinksLast` | shared-memory/scripts/consolidation_loop.py:3587-3610 | a row inserted by a fold that retires nothing becomes the successor of the last row of its key left behind, by time and then id, and of no other |
| `Following.RecheckTriesEach` | shared-memory/scripts/consolidation_loop.py:2117-2151 | each stale id of a recheck, in its turn, is exchanged for the active end of its chain iff the same condition holds of the citations as they then are |
| `Following.SweepRestsExactly` | shared-memory/scripts/consolidation_loop.py:1999-2161 | a sweep changes nothing iff no citation retired by lineage with an active end could be exchanged without a decision losing its backing |
| `Following.SweepsSettle` | shared-memory/scripts/consolidation_loop.py:1999-2161 | after as many sweeps as there are citations that could move, none is left that could move without a loss |
| `Succession.OneActiveRowPerKey` | shared-memory/scripts/consolidation_loop.py:3535-3617 | under the table invariant a (project, section) key has at most one active row |
| `Succession.ChainEndsAtActiveRow` | shared-memory/scripts/consolidation_loop.py:1876-1886 | every retired row of a key with an active row leads to exactly that row |
| `Succession.NoActiveRowNoEnd` | shared-memory/scripts/consolidation_loop.py:1876-1886 | a retired row of a key without an active row leads to none |
| `Succession.CoverageNeverFires` | shared-memory/scripts/consolidation_loop.py:1554-1615 | the coverage pass of a thematic fold retires nothing in a reachable state |
| `Succession.FoldKeepsLineage` | shared-memory/scripts/consolidation_loop.py:3535-3635 | the fold transaction keeps the invariant: successors are written once, to a larger id of the same key, retirement is final, retired rows are frozen |
| `Succession.FoldWrote` | shared-memory/scripts/consolidation_loop.py:3535-3617 | the fold leaves exactly its row active on its key with its content, sources and entities, and touches no other key's thematic rows |
| `Succession.FoldKeepsSupport` | shared-memory/scripts/consolidation_loop.py:1876-1996 | a fold that inserts moves citations only from the linked row to its successor and costs no insight a supported decision |
| `Succession.RunsKeepLineage` | shared-memory/scripts/consolidation_loop.py:1771-1886 | over any run of folds, retirements, insight writes, appends and rechecks every table is sound and each later one evolves from each earlier one |
| `Succession.ReachableChains` | shared-memory/scripts/consolidation_loop.py:3466-3473 | from empty tables, in every reachable state: one active row per key, and every retired row of the key leads to it |
| `ThematicFold.RenderIgnoresOrder` | shared-memory/scripts/consolidation_loop.py:754-770 | the fold text and ids do not depend on the order of distinct members |
| `ThematicFold.ChangedMemberShows` | shared-memory/scripts/consolidation_loop.py:735-751 | a member whose text is condensed anew, or whose kind, locus or date is set, has another line |
| `ThematicFold.TypeInCapitals` | shared-memory/scripts/consolidation_loop.py:735-751 | a line opens with the type of its record, each small letter as the capital at its place |
| `ThematicFold.RewordedMemberShows` | shared-memory/scripts/consolidation_loop.py:754-770 | a fold of which one member was condensed anew has another text and the same ids |
| `RefoldLedger.StandingExactly` | shared-memory/scripts/consolidation_loop.py:1732-1768 | a record is eligible for a ledger row iff a member's forward chain reaches it unsuperseded within the depth cap; cyclic and over-long chains open nothing |
| `RefoldLedger.OpenedExactly` | shared-memory/scripts/consolidation_loop.py:1784-1805 | a retirement opens exactly one kind of row per trigger and standing record |
| `RefoldLedger.ClosesExactly` | shared-memory/scripts/consolidation_loop.py:2218-2359 | what the closers of a completed fact cycle make of a row of either kind: dropped by the scan, refolded iff an active summary of its kind holds its record and was folded since, dropped iff its record is superseded, else open; no other column changes |
| `RefoldLedger.CutClosesExactly` | shared-memory/scripts/consolidation_loop.py:2218-2359 | the same for a cycle cut between the closers: after any number of them, each row is exactly as those reached leave it |
| `CutCycle.CutFoldsExactly` | shared-memory/scripts/consolidation_loop.py:3394-3662 | in a cycle cut anywhere a planned key has the columns of its fold iff that fold was reached and committed, and exactly its old active row otherwise |
| `CutCycle.CutClosesOnly` | shared-memory/scripts/consolidation_loop.py:3676-3760 | a cut cycle closes no refold row before its folds are done, and then exactly those the closers reached close |
| `Invalidation.RetiresExactly` | shared-memory/scripts/consolidation_loop.py:1647-1727 | for either kind, the rows retired by lineage are exactly the active ones outside the skipped that hold a superseded record; every other row is as it was |
| `Invalidation.OpensExactly` | shared-memory/scripts/consolidation_loop.py:1808-1867 | the ledger keeps its rows and gains, for each row retired, one for every pair of a superseded source and a record its members stand for, and no other |
| `DreamRuns.NoInsightHoldsSuperseded` | shared-memory/scripts/consolidation_loop.py:3101-3104 | after every invalidation pass of a run no active insight holds a record that the pass read as superseded |
| `DreamRuns.RecheckEventRests` | shared-memory/scripts/consolidation_loop.py:1999-2161 | in every run a recheck leaves the table as it is iff no insight cites a row it could follow without a loss |
| `FactCycle.Quiescence` | shared-memory/scripts/consolidation_loop.py:3378-3398 | after a fact cycle whose folds all succeed, the next cycle over the same texts, the same superseded records and a permuted scan plans, updates and retires nothing, whatever the folds read in between |
| `FactCycle.CycleLeavesColumns` | shared-memory/scripts/consolidation_loop.py:3378-3398 | after a fact cycle whose folds all succeed, the active row of every gating group has the text rendered now, exactly the members, and exactly their entities |
| `FactCycle.SkippedExactly` | shared-memory/scripts/consolidation_loop.py:827-856 | a group is left out of the plan iff folding it would change neither the text, nor the set of sources, nor the entities of its active row |
| `FactCycle.SuccessionExactly` | shared-memory/scripts/consolidation_loop.py:3417-3465 | the fold of a group retires its row iff a record the row held has left the group and is superseded, and then links it to the new active row; otherwise the same row stays active |
| `FactCycle.FoldAllKeeps` | shared-memory/scripts/consolidation_loop.py:3500-3665 | the fold loop keeps the lineage under any mix of failed embeds and rolled-back writes |
| `RefoldClock.OpenedRowsStand` | shared-memory/scripts/consolidation_loop.py:1771-1805 | every row a cycle opens names a record that, as its own transaction read the records, is unsuperseded and one that a member of the retired summary leads to |
| `RefoldClock.OpenRowsNameGatedMembers` | shared-memory/scripts/consolidation_loop.py:3671-3684 | after a completed cycle every open thematic row names an unsuperseded member of a gating group |
| `RefoldClock.LeftOpenExactly` | shared-memory/scripts/consolidation_loop.py:2218-2359 | over one cycle from tables whose rows and ledger are all in the past, with the records changing from transaction to transaction: a folded member unsuperseded at the close has an open thematic row left iff a later fold of the cycle retired a row whose members stood for it then |
| `DreamRuns.ReachableLeftOpenExactly` | shared-memory/scripts/consolidation_loop.py:2218-2359 | the same after any completed fact cycle of any run |
| `ClockWitness.MovedIsLeftOpen` | shared-memory/scripts/consolidation_loop.py:3671-3684 | whenever a record moved to a section folded first, while its old section's summary also lost a superseded record, the second cycle leaves an open row for it |
| `ClockWitness.FoldedMemberLeftOpen` | shared-memory/scripts/consolidation_loop.py:3671-3684 | such a run exists, from empty tables and through the partitioner at the shipped threshold |
| `RefoldClock.CycleKeeps` | shared-memory/scripts/consolidation_loop.py:3249-3695 | a fact cycle keeps the lineage and the clock; `DreamRuns.RunsAreSound` has them over the other passes too |
| `DreamStore.Store.RetireSummary` | shared-memory/scripts/consolidation_loop.py:1771-1805 | retires an active row and opens its ledger rows; on a row no longer active nothing happens |
| `DreamStore.Store.RetireInvalidatedSummaries` | shared-memory/scripts/consolidation_loop.py:1808-1867 | one transaction that retires every active row of the kind holding a superseded record, with the ledger rows each opens |
| `DreamStore.Store.LinkThematicSuccessor` | shared-memory/scripts/consolidation_loop.py:1876-1996 | the link and the re-pointing equal their specification; kept insights keep their ids |
| `DreamStore.Store.WriteSummary` | shared-memory/scripts/consolidation_loop.py:3535-3611 | retire, upsert, successor or re-gate link, and the outbox rows of its records, as one specified step that keeps the invariant |
| `DreamStore.Store.SupersedeCovered` | shared-memory/scripts/consolidation_loop.py:1554-1615 | retires by coverage exactly the active rows of the kind, project and section whose sources the new row holds |
| `DreamStore.Store.WriteInsightSummary` | shared-memory/scripts/consolidation_loop.py:1528-1551 | always inserts, consumes exactly the rows of the snapshot that are still consumable, then covers within the project |
| `DreamStore.Store.AppendInsightReferences` | shared-memory/scripts/consolidation_loop.py:1424-1468 | adds the summary id and the domain, each once and at the end of its list, to an active insight only |
| `DreamStore.Store.RecheckKeptThematicIds` | shared-memory/scripts/consolidation_loop.py:1999-2161 | the pass equals one specified sweep over the table as it was read |
| `DreamStore.Store.ConsolidateClusters` | shared-memory/scripts/consolidation_loop.py:3378-3695 | plan, sweep, folds with arbitrary failures and ledger closers equal one cycle of the model, each over the records it reads, cut after any fold or closer; an unreadable backlog skips it; the outbox loses exactly what the committed folds consume and the marked ones close |
| `Partitioner.ProjectDomainMaps` | shared-memory/scripts/nrem_gate.py:42-59 | per-fact project and distinct sections, the registered pairs, and ids in first-seen order |
| `Partitioner.EligibleClusters` | shared-memory/scripts/nrem_gate.py:62-94 | the buckets in creation order, those of at least the threshold, for any inputs |
| `GroupBy.PartitionIsGroupBy` | shared-memory/scripts/nrem_gate.py:42-94 | with one project per fact the two loops are a group-by of the rows on eligible keys, members once and in first-seen order, contents aligned |
| `GroupBy.GroupFacts` | shared-memory/scripts/nrem_gate.py:42-94 | the two loops as one: with one project per fact, a group-by of the rows |
| `GroupBy.GroupsExactly` | shared-memory/scripts/nrem_gate.py:62-94 | a section has a group iff its project is named and not the parking one, the section is named, and the rows list enough facts in it; the group holds exactly those, each once, with its content |
| `GroupBy.EveryQualifyingGroupHoldsTheFact` | shared-memory/scripts/nrem_gate.py:77-94 | a fact of several sections is in each of its qualifying groups |
| `GroupBy.GroupsFitTheCycle` | shared-memory/scripts/consolidation_loop.py:3353-3366 | the partition meets everything the fact cycle assumes of its groups |
| `UnionFind.Forest.Find` | shared-memory/scripts/insight_gate.py:163-168 | path halving ends at the root and changes no node's root; the parent map stays acyclic |
| `UnionFind.Forest.Union` | shared-memory/scripts/insight_gate.py:170-173 | merges exactly the two classes, without ranks, and keeps the parent map acyclic |
| `UnionFind.UnionRepresents` | shared-memory/scripts/insight_gate.py:170-173 | joining two ends of an edge makes the classes those of the graph with that edge |
| `InsightWalk.WalkReachedGraph` | shared-memory/scripts/insight_gate.py:176-233 | ends, asks each seed and found node once, reaches exactly the closure of the seeds, and groups two judgements iff a path, through facts too, joins them |
| `InsightWalk.ReachedExactly` | shared-memory/scripts/insight_gate.py:176-233 | a node is reached iff a trail of edges, in either direction, leads to it from a seed over spine nodes none of which is a reversed decision |
| `InsightOrder.OrderIsCanonical` | shared-memory/scripts/insight_gate.py:273-295 | the ordered list is a canonical form of the components: every reached judgement once, ascending inside |
| `InsightOrder.CanonicalUnique` | shared-memory/scripts/insight_gate.py:201-295 | any two walks of one reach give the same list of lists, whatever the row order, seed order or union direction |
| `InsightOrder.RetrospectivesFirst` | shared-memory/scripts/insight_gate.py:288-295 | components with a retrospective come before those without |
| `InsightOrder.OrderedBySmallest` | shared-memory/scripts/insight_gate.py:273-295 | the smallest retrospective orders the components that have one, the smallest judgement the others |
| `InsightOrder.GroupsAgree` | shared-memory/scripts/consolidation_loop.py:3870-3903 | components walked from two groups of one graph are equal or disjoint |
| `FreshClusters.FindFreshInsightClusters` | shared-memory/scripts/consolidation_loop.py:3844-3905 | partition, walk, gate, order and the skip of components without a decision, composed: exactly the components found of the discovery rows and the graph |
| `FreshClusters.FoundIsWhole` | shared-memory/scripts/consolidation_loop.py:3870-3903 | every component found is under a named, foldable project, ascending, holds a decision, and holds with a judgement exactly what is joined to it |
| `FreshClusters.FoundPassedTheGate` | shared-memory/scripts/insight_gate.py:250-270 | every component found comes from a group whose facts reach a retrospective and a judgement no insight has consumed |
| `FreshClusters.ClosedGateFindsNothing` | shared-memory/scripts/insight_gate.py:250-270 | a group that reaches no retrospective, or nothing unconsumed, contributes no component |
| `FreshClusters.FoundStands` | shared-memory/scripts/insight_gate.py:176-200 | no component found holds a reversed decision |
| `FreshClusters.FoundAreDisjoint` | shared-memory/scripts/consolidation_loop.py:3870-3903 | two components found are the same set or share nothing, whatever groups they were found from |
| `FreshClusters.EveryDecisionIsFound` | shared-memory/scripts/consolidation_loop.py:3870-3903 | a decision that the facts of a passing group reach is in some component found |
| `InsightIdentity.MatchExistingInsight` | shared-memory/scripts/insight_gate.py:330-344 | the smallest equal insight, else the smallest strictly larger one, else none |
| `InsightIdentity.MatchesIffHeld` | shared-memory/scripts/insight_gate.py:298-344 | there is a match iff an active insight already holds every judgement found |
| `InsightIdentity.MatchIgnoresOrder` | shared-memory/scripts/insight_gate.py:330-344 | the match is a function of the set of rows |
| `InsightIdentity.MatchIsSmallest` | shared-memory/scripts/insight_gate.py:330-344 | the match is the smallest insight of this very set, or else the smallest that holds it and more |
| `Readiness.UnprocessedCarried` | shared-memory/scripts/insight_gate.py:111-152 | of any list of ids: both lists ascend and hold exactly the ids without a sole ready node, and those with more than one |
| `Backlog.StoredRowBlocks` | shared-memory/scripts/llm_backlog.py:81-142 | a stored row blocks its key, and only its key, under the identity it was stored with |
| `Backlog.SentExactly` | shared-memory/scripts/llm_backlog.py:37-49 | over any sequence of respawns, a set that keeps failing for a size is sent only at a size never seen before, one that fails for its pool or boot at every change of it, a return included, and any other never |
| `InsightRuns.WriteKeepsAntichain` | shared-memory/scripts/consolidation_loop.py:4481-4490 | an insight write keeps the antichain when no active insight of the project strictly contains the set |
| `InsightRuns.CycleKeepsAntichain` | shared-memory/scripts/consolidation_loop.py:4107-4288 | refolds, identity, partitions and fresh folds keep it under any replies, also when the cycle is cut after any of them |
| `InsightRuns.WriteCoversExactly` | shared-memory/scripts/consolidation_loop.py:1554-1615 | an insight write retires by coverage exactly the active insights of its project all of whose judgements it tells |
| `SendGuard.CycleSendsFinished` | shared-memory/scripts/consolidation_loop.py:4090-4247 | every call a cycle adds, whole or cut, is for a set all of whose judgements and carried retrospectives have exactly one node, processed or superseded, in the readiness read of its half of the cycle |
| `SendGuard.UnfinishedIsNotSent` | shared-memory/scripts/consolidation_loop.py:4119-4123 | a set with a record that neither read shows finished gets no call |
| `SendGuard.DueRefoldsAreSent` | shared-memory/scripts/consolidation_loop.py:4108-4137 | in a cycle that ends by itself every refold that is finished and not withheld is sent |
| `SendGuard.FinishedComponentsAreSent` | shared-memory/scripts/consolidation_loop.py:4165-4290 | and so is every finished fresh component of several judgements that is not withheld and told by no active insight, unless one of its judgements is told again meanwhile |
| `SendGuard.CompletesOnlyWhole` | shared-memory/scripts/consolidation_loop.py:4292-4298 | the refold ledger is closed only by a cycle that was not cut, could read its backlog and both checks, and in which no assembly raised |
| `CutInsights.CutInRefoldsExactly` | shared-memory/scripts/consolidation_loop.py:4105-4158 | an insight cycle cut in its refolds leaves exactly what one with only the refolds reached leaves |
| `CutInsights.CutInAppendsExactly` | shared-memory/scripts/consolidation_loop.py:4165-4203 | cut among the appended references, it has done its refolds and the references reached, and sent nothing more |
| `CutInsights.CutInFreshSends` | shared-memory/scripts/consolidation_loop.py:4261-4298 | cut among the fresh components, each one reached adds one call or none after all those before it; after the last the cycle is a whole one |
| `DreamRuns.InsightEventCloses` | shared-memory/scripts/consolidation_loop.py:4292-4298 | after a cycle that ends by itself no refold row is open that an active summary has answered or whose record is superseded; a cut one leaves the ledger alone |
| `InsightRuns.AppendsCloseNothing` | shared-memory/scripts/consolidation_loop.py:1424-1434 | appending references covers no ledger row: an insight row is refolded only by a real fold |
| `PaidOnce.CycleRemembers` | shared-memory/scripts/consolidation_loop.py:3969-4288 | a cycle, whole or cut, sends no set settled before or during it, and every set it settles will read as withheld |
| `PaidOnce.CompleteReplyUnsettledExactly` | shared-memory/scripts/consolidation_loop.py:4445-4447 | a complete reply leaves its set sendable and untold iff some judgement is a decision of nothing but white space |
| `FoldOutcomes.FoldWithoutAnswer` | shared-memory/scripts/consolidation_loop.py:4347-4354 | no call without two of the judgements; a lost lock withholds the set and ends the cycle |
| `FoldOutcomes.FoldWithoutText` | shared-memory/scripts/consolidation_loop.py:4411-4443 | no text stores exactly its reason, withholds the set if it was paid for and cannot be stored, and leaves nothing when there is no reason |
| `FoldOutcomes.FoldWithoutInsight` | shared-memory/scripts/consolidation_loop.py:4411-4445 | a text that leaves a judgement or the principle out is stored as unparseable; a blank decision makes the assembly raise |
| `FoldOutcomes.FoldWithInsight` | shared-memory/scripts/consolidation_loop.py:4445-4515 | a full text is written with the given project or the fallback, the set, the citations, the domains and the entities, unless the embedding or the write fails, which is stored |
| `FoldOutcomes.TellsExactly` | shared-memory/scripts/consolidation_loop.py:4300-4536 | a fold succeeds iff it found two judgements, kept the lock, got every sentence and the principle, has no blank decision, and could embed and write |
| `FoldOutcomes.RefoldRetells` | shared-memory/scripts/consolidation_loop.py:4129-4135 | a refold has the project, the judgements and the citations of the insight it refolds |
| `FoldOutcomes.FreshTellsItsGroup` | shared-memory/scripts/consolidation_loop.py:4273-4285 | a fresh insight is of its component and project and cites exactly the active row of the group it was walked from |
| `FoldOutcomes.ReferencesExactly` | shared-memory/scripts/consolidation_loop.py:4165-4203 | after the identity pass the smallest active insight of exactly a component cites the active row of the group it was reached from and names its section; nothing else is added or changed |
| `PaidAgain.CycleOnlyPays` | shared-memory/scripts/consolidation_loop.py:4293-4298 | such a cycle records the call and changes nothing else, so the next one sends the set again |
| `PaidAgain.OneSetPaidTwice` | shared-memory/scripts/consolidation_loop.py:4293-4298 | a run of two cycles that pays twice for one set, in one process and under one identity |
| `DreamRuns.InsightsFormAntichain` | shared-memory/scripts/consolidation_loop.py:1554-1615 | over all runs no active insight's set is contained in another's of the same project |
| `DreamRuns.SettledIsNeverSentAgain` | shared-memory/scripts/consolidation_loop.py:4403-4511 | over all runs a set with a stored row is not sent again while the identity stands, nor a withheld one in the same process |
| `DreamRuns.WithheldExactly` | shared-memory/scripts/consolidation_loop.py:4403-4411 | in every state of every run that begins with nothing withheld, a set is withheld iff the present process paid for it and no row could be stored |
| `DreamRuns.RunsAreSound` | shared-memory/scripts/consolidation_loop.py:4638-4664 | lineage, antichain, payments and clock hold together in every state of every run of fact cycles, invalidations, rechecks, insight cycles and restarts, each whole or cut anywhere |
| `DreamRuns.RetiredRowsLeadToTheActiveOne` | shared-memory/scripts/consolidation_loop.py:3466-3473 | in every such state every retired row of a key leads to its one active row |
| `InsightDaemon.Daemon.FoldInsight` | shared-memory/scripts/consolidation_loop.py:4300-4536 | one fold with every way it can end, the two exceptions included, equals its specification; of what others made of the outbox meanwhile it consumes, when it is told, exactly the snapshot taken before the call; it writes only while it holds the lock |
| `InsightDaemon.Daemon.ResolveIdentity` | shared-memory/scripts/consolidation_loop.py:4164-4203 | same appends a reference, covered adds nothing, the rest survive |
| `InsightDaemon.Daemon.PostNrem` | shared-memory/scripts/consolidation_loop.py:667-695 | the lock is given up for the request and taken back; it is lost iff neither session gets it, and the tables of that moment are kept in mind |
| `InsightDaemon.Daemon.CycleBody` | shared-memory/scripts/consolidation_loop.py:3969-4288 | the cycle equals its specification: an unreadable backlog or failed first check folds nothing, a failed second check, a lost lock, an assembly that raises or a cut stop it, and only a completed one closes the refold ledger |
| `InsightDaemon.Daemon.RunInsightCycle` | shared-memory/scripts/consolidation_loop.py:4293-4298 | over the components found in the graph, one event of a run; after a failed reacquire the tables are as they were when it failed |
| `InsightDaemon.Daemon.RunGuardedSweep` | shared-memory/scripts/consolidation_loop.py:4638-4664 | skipped while the gateway dumps; otherwise four events of a run, each over the records it reads, every write of them under the lock, no write after a failed reacquire, and the lock is given back |
| `Outbox.FindAncestors` | shared-memory/scripts/consolidation_loop.py:1301-1311 | the recursive query finds exactly the transitive superseded predecessors, and ends on cyclic chains |
| `Outbox.Ledger.CloseLedgerRows` | shared-memory/scripts/consolidation_loop.py:1278-1331 | deletes exactly the consolidated rows of the records and the fact rows of all their superseded ancestors |
| `Outbox.Ledger.CloseLedgerRowsById` | shared-memory/scripts/consolidation_loop.py:1618-1641 | deletes exactly the consolidated rows among the ids |
| `OutboxRuns.OnlyItsWriteClosesARow` | shared-memory/scripts/consolidation_loop.py:1506-1551 | an open decision or retrospective row leaves the open state only through the insight write whose snapshot held it |
| `OutboxRuns.NothingIsSwallowed` | shared-memory/scripts/consolidation_loop.py:4393-4518 | over every interleaving with the other writers of both tables, a row that is no longer open was taken by a write asked for after it arrived, and the insight row that write inserted stands over its record |
| `OutboxRuns.GoneWasConsolidated` | shared-memory/scripts/consolidation_loop.py:1278-1331 | over every run, a decision or retrospective row that is gone was deleted from 'consolidated' |
| `OutboxRuns.AskTakesExactly` | shared-memory/scripts/consolidation_loop.py:1506-1525 | the snapshot is exactly the waiting decision and retrospective rows of the records |
| `OutboxRuns.EventOnRow` | shared-memory/scripts/consolidation_loop.py:1182-1331 | for every event and row: whether it is deleted, a fact row superseded by a closed record included, whether it is folded, and that it is otherwise unchanged |
| `OutboxRuns.AskedIsFolded` | shared-memory/scripts/consolidation_loop.py:4393-4518 | what waited when the model was asked and still waits when the answer is written is folded by that write |
| `FoldedRows.FactFoldOnRow` | shared-memory/scripts/consolidation_loop.py:3610-3657 | a committed fact fold consolidates exactly the waiting rows of its records; once the graph is marked it deletes the folded ones and the fact rows of whatever those records superseded |
| `FoldedRows.InsightFoldOnRow` | shared-memory/scripts/consolidation_loop.py:4500-4518 | a told insight consolidates exactly the waiting rows of its snapshot, and deletes the consolidated ones of the snapshot once the graph is marked |
| `FoldedRows.CycleOnRow` | shared-memory/scripts/consolidation_loop.py:3394-3662 | after all folds of a cycle a row that is left is consolidated iff it waited and some committed fold held its record, and is otherwise as it was |
| `BackupLock.NoWriteDuringDump` | shared-memory/scripts/consolidation_loop.py:109-214 | no interleaving of dump, chat window, session loss and reconnect reaches a guarded write while the gateway dumps; every statement of `DreamStore.Store` and `Outbox.Ledger` requires that phase |
| `BackupLock.DumpMayBegin` | shared-memory/scripts/consolidation_loop.py:109-214 | in every reachable state the gateway may begin a dump unless one runs or the cycle is at work: the chat window leaves it free |
| `BackupLock.Holder.ChatWindow` | shared-memory/scripts/consolidation_loop.py:109-121 | with any steps of the gateway in between, the lock is back and no dump runs, or nothing is held |
| `BackupLock.Holder.ReacquireLockBlocking` | shared-memory/scripts/consolidation_loop.py:154-185 | fails iff neither the old session nor a new one gets the lock, and then holds nothing; otherwise holds it once, with no dump running |
| `BackupLock.Holder.ReleaseLock` | shared-memory/scripts/consolidation_loop.py:141-152 | after it nobody holds the lock, even when the unlock raises |
| `Markers.NeutralizedIsFree` | shared-memory/scripts/consolidation_loop.py:882-901 | no line of a neutralised text, cut anywhere, is a marker line |
| `MarkerLines.MarkersExactly` | shared-memory/scripts/consolidation_loop.py:878-879 | a line matches the marker pattern iff it is blanks, the word in any spelling that ignoring case allows, a number after blanks for a slot, blanks and a colon |
| `MarkerLines.SlotLineIsMarker` | shared-memory/scripts/consolidation_loop.py:1024-1042 | such a slot line names its number, and what follows the colon is its first text |
| `MarkerLines.CutExactly` | shared-memory/scripts/consolidation_loop.py:897-901 | a body is cut at every line break and nowhere else, a carriage return taking its newline along |
| `MarkerLines.NeutralizeQuotesExactly` | shared-memory/scripts/consolidation_loop.py:897-901 | neutralising quotes the marker lines and leaves every other line as it is |
| `MarkerLines.StripExactly` | shared-memory/scripts/consolidation_loop.py:1031-1034 | trimming takes all white space off both ends and nothing else |
| `SlotProtocol.ParseInsightSlots` | shared-memory/scripts/consolidation_loop.py:1009-1045 | the map and principle are the first non-empty value of each marker |
| `SlotProtocol.RoundTrip` | shared-memory/scripts/consolidation_loop.py:1009-1045 | parsing a printed reply of clean texts gives back exactly what was printed; a text is clean when no later line of it matches the marker pattern in any spelling |
| `SlotProtocol.NeutralizedParsesToNothing` | shared-memory/scripts/consolidation_loop.py:904-932 | a judgement body, neutralised and capped, parses to no slot and no principle |
| `SlotProtocol.EchoCannotOverwrite` | shared-memory/scripts/consolidation_loop.py:1009-1045 | markers echoed after a reply change no slot the reply filled |
| `SlotProtocol.AcceptReply` | shared-memory/scripts/consolidation_loop.py:2955-2979 | a reply is accepted iff it fills every expected slot and the principle |
| `InsightContent.AssembleInsightContent` | shared-memory/scripts/consolidation_loop.py:1048-1094 | the text is the rows' skeleton completed by the slots, or none where a decision has no first line |
| `InsightText.DecisionShows` | shared-memory/scripts/consolidation_loop.py:1086-1088 | a decision is shown by its id and the first line of its trimmed content, word for word |
| `InsightText.EmptyDecisionShows` | shared-memory/scripts/consolidation_loop.py:1086-1088 | an empty one has an empty title |
| `InsightText.RetrospectiveShows` | shared-memory/scripts/consolidation_loop.py:1074-1081 | a retrospective is shown by its id, its decision and its rating, or that they are unknown |
| `InsightText.TextShowsAll` | shared-memory/scripts/consolidation_loop.py:1064-1094 | the text shows every judgement, its head followed by its own sentence, every reversal line and the principle |
| `InsightText.StraysComeLast` | shared-memory/scripts/consolidation_loop.py:1064-1088 | the judgements come by ascending id, and after them the retrospectives whose decision is not in the fold |
| `InsightContent.SkeletonNamesEveryRow` | shared-memory/scripts/consolidation_loop.py:1064-1088 | every judgement of the fold has exactly one place in the text, and nothing else has |
| `InsightContent.SkeletonIgnoresOrder` | shared-memory/scripts/consolidation_loop.py:1064-1066 | ids, titles and order do not depend on the order of the rows |
| `InsightContent.OnlyOwnSlotsReachTheText` | shared-memory/scripts/consolidation_loop.py:1072-1093 | only slots of the fold's own ids can reach the text |
| `EmbedRetry.GetEmbedding` | shared-memory/scripts/consolidation_loop.py:2707-2802 | at most eight requests, each a strictly shorter prefix, none of under two characters after the first, and when the call gives up |
| `EmbedRetry.SnapsAtMostOnce` | shared-memory/scripts/consolidation_loop.py:2759-2773 | at most one step is the snap to the reserved window; every other loses more than a tenth |
| `EmbedRetry.ShareIsTaken` | shared-memory/scripts/consolidation_loop.py:2759-2775 | within the reserved window the next prefix is the share of this one the server says fits, or half of it |
| `LogQueue.AsyncLineWriter.Write` | shared-memory/scripts/log_hygiene.py:127-147 | the queue stays within its bound, submitted = written + failed + in flight + queued + dropped, order is kept, and a line of the second policy displaces nothing |
| `LogQueue.AsyncLineWriter.Finish` | shared-memory/scripts/log_hygiene.py:149-158 | a finished or failed append keeps the order and the count |
| `LogQueue.DropOne` | shared-memory/scripts/log_hygiene.py:141-147 | dropping the oldest queued line leaves the rest a subsequence of what was submitted |
| `Migrations.Runner.Run` | shared-memory/migrations/apply.py:238-410 | one invocation, with any failing migrations, equals its specified outcome |
| `Migrations.LedgerStaysDownwardClosed` | shared-memory/migrations/apply.py:128-147 | over any history of runs and adoptions the ledger is an initial part of the mainline, each migration once and in order |
| `Migrations.ExitMeans` | shared-memory/migrations/apply.py:259-301 | up to date means the ledger equals the checkout; a database ahead of it runs nothing |
| `Migrations.ExitExactly` | shared-memory/migrations/apply.py:238-410 | which exit it is and what is then applied, over the checkout and the ledger alone: a database another tool made runs nothing before it is adopted, an adoption runs nothing, a run applies all up to the first failure |
| `InstallLine.ParseAgentInstalls` | shared-memory/scripts/generate_tokens.py:314-336 | the registry is the entries of the line, a later one of a name replacing an earlier |
| `InstallLine.LastEntryCounts` | shared-memory/scripts/generate_tokens.py:314-336 | the registry has the names of the entries, each with its last entry |
| `InstallLine.SpacedPartParses` | shared-memory/scripts/generate_tokens.py:296-336 | blanks around any field, and the default kind written out, give the same entry |
| `InstallLine.OtherwiseAllIsPath` | shared-memory/scripts/generate_tokens.py:301-311 | what precedes a second colon is part of the path unless it is a known kind with something after it |
| `InstallLine.InstallsRoundTrip` | shared-memory/scripts/generate_tokens.py:296-351 | on validated fields parse and format are inverse: same registry, same text byte for byte |
| `TokenRegistry.MintKeepsSound` | shared-memory/scripts/generate_tokens.py:741-814 | a bulk mint with any failing writes keeps files and registry in step and loses no entry |
| `TokenRegistry.MintServesEach` | shared-memory/scripts/generate_tokens.py:741-814 | every agent of the roster gets a token never used before, in its known file; one whose file cannot be written keeps its old token and is no longer registered with a path; nobody else is left |
| `TokenRegistry.AddTouchesOneAgent` | shared-memory/scripts/generate_tokens.py:947-1056 | a refused request leaves no trace; an accepted one changes no other agent's entry, path or file |
| `TokenRegistry.AddExactly` | shared-memory/scripts/generate_tokens.py:914-1056 | a request changes nothing iff it is refused, for one of the listed reasons, or its file cannot be written; otherwise its agent has a fresh token, in its file, under the kind and path asked for |
| `TokenRegistry.RemintWithoutPath` | shared-memory/scripts/generate_tokens.py:965-1056 | a re-issue without a path keeps them in step iff the agent has no registered file |
| `TokenRegistry.RunsKeepRegistry` | shared-memory/scripts/generate_tokens.py:668-1056 | over any sequence of mints every registered file holds its agent's listed token, files and tokens are distinct, no entry is lost |
| `TokenRegistry.Registry.MintRoster` | shared-memory/scripts/generate_tokens.py:749-814 | the roster loop equals its specification |
| `TokenRegistry.Registry.Add` | shared-memory/scripts/generate_tokens.py:914-1056 | add and re-issue equal their specification, every refusal included |
| `TokenRegistry.Registry.ResolveRoster` | shared-memory/scripts/generate_tokens.py:413-431 | the roster is the default agents followed by every other registered name |

## Left out

- `InsightDaemon.Daemon.RunInsightCycle`: whether a graph mark succeeds is an input; the marks themselves and the reconciliation that re-applies them are not followed.
- `InsightDaemon.Daemon.RunGuardedSweep`: the outbox backfill before the recheck is an event of `OutboxRuns` only; the first sweep of a process runs one more fact cycle.
- `DreamStore.Store.ConsolidateClusters`: the records may change between its transactions, not within one; other writers of the outbox move between its folds in `OutboxRuns` only.
- `FreshClusters.FindFreshInsightClusters`: the walks of one scan read one graph.
- `Succession.FoldKeepsSupport`: says nothing of an in-place update of the active row, whose sources change under the insights that cite it; the code does not check support there.
- `OutboxRuns.NothingIsSwallowed`: the outbox worker and REM are arbitrary moves between the states that are not consolidated; backfill scripts that insert rows in another state are not modelled.
- `BackupLock.NoWriteDuringDump`: other sessions that hold the lock shared, and a session lost outside a chat window, are not modelled.
- `TokenRegistry.Registry.Add`: whether a role is refused is an input, and the roles line is not modelled; path resolution is a fixed function.
- `Migrations.Runner.Run`: named and forced migrations break the prefix ledger by design; `--status` only reports.
- `LogQueue.AsyncLineWriter.Write`: waiting for the queue to empty may not end after a dropped line, and is not modelled.
- `SlotProtocol.ParseInsightSlots`: a marker with more digits than the interpreter converts, which raises and makes the reply unparseable, is not modelled.
- `EmbedRetry.GetEmbedding`: the classification of an overflow body is an arbitrary reply.
- `InsightCycle`: the domains, entities and fallback project that a fold collects from its judgement rows are inputs, the fallback never empty.
- The rows of `consolidation_runs`, the search embedding, timestamps, summary history and telemetry columns.
- Network, drivers, SQL and Cypher text, log text, the gateway, the REM loop and the agent-role tables.
