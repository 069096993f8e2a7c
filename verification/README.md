# Zo-Sentinel: a verified model of its algorithms

Zo-Sentinel scores MCP servers, watches the people and daemons that act on the scores, and gates commits by the
verdicts. Most of it is input and output; this project models the algorithms in between and proves what they keep,
for every input, every run or every schedule.

One `.dfy` file stands for one source file (`Common.dfy` holds sequences and Python's stable sort; `CorpusDocs.dfy`
and `Indexer.dfy` share the corpus indexer; `PathAlgebra.dfy` and `RouteIndex.dfy` the application surface;
`Router.dfy` covers routes and shell). Verify everything with `dafny verify dfyconfig.toml`.

| file | what it models |
|---|---|
| `ZScore.dfy` | statistical outlier detection: mean, sample deviation, z-scores above 2 |
| `Bursts.dfy` | bulk-approval bursts: a sliding hour over one analyst's ALLOW decisions |
| `CorpusDocs.dfy`, `Indexer.dfy` | the Ask corpus: tokenizer, document builder, keyset-paginated upsert with commits |
| `PathAlgebra.dfy`, `RouteIndex.dfy` | URL paths as segments; the route index, its linter, the front-end call report, the context budget |
| `Router.dfy` | longest-prefix routing, prefix stripping, the bus write guard |
| `RefreshLag.dfy` | nearest-rank percentiles of per-axis scoring lag |
| `TierTrends.dfy` | the tier transition log, a run-length encoding per server |
| `AlertHistory.dfy` | alert deduplication over a bounded history |
| `PiConfig.dfy` | generated supervisor blocks and the scan that reads them back |
| `VerdictQueue.dfy`, `DrainQueue.dfy` | two commit queues: one saved to a file, one drained by value |
| `CommitForwarder.dfy` | the idempotent forwarder as concurrent handlers that interleave at their awaits |
| `CommitGate.dfy` | the composite score and the three overlapping commit gates |
| `Weights.dfy` | signal accuracy and the rescaling of suggested weights |

How the source is rendered: timestamps are integers and floats are reals; a query is the sequence of rows it
returns; an HTTP call, a clock or a digest is a parameter; an exception or an early return is a value of the result.
Where the source updates an object, a module-level variable or a table in place there is a class; where a function
loops there is a loop, proved against a function whose properties are then proved separately.

## Where the code does less than it says

Each point is a proved statement: a failing case and the exact condition under which the promise holds.

* `alert_manager.py` trims its history by sorted key, not by age: the history is the 1000 largest keys ever seen, and
  an evicted key that returns is dispatched again (`OnceIffNothingEvictedReturns`, `EvictedKeyReturns`). The key text
  joins its fields with colons and shows a NULL as "None". Among the rows the queries can return, a high risk never
  shares it; a threat does exactly when some field contains a colon or a nullable one is NULL or reads "None"; an audit
  failure exactly when its target or details is NULL or reads "None", or when an outcome other than its own stands
  between colons (`KeyIsUniqueIff`, `TwoDenials`, `NullReadsNone`).
* `add_pi_programs.py` loses the first appended program to its own scan exactly when the old file has an unclosed
  `[program:pi_` header (`AppendedNamesAreFoundIff`, `OpenHeaderLosesAProgram`); a second run repairs it
  (`TwoRunsSuffice`).
* `app_scoring_consumer_risk_tier_trend.py`: the log rebuilds every tier by its time exactly when scores of one instant
  agree (`LogRebuildsTiersIff`, `TieLosesATier`); the order of the tiers is kept in any case (`LogIsTheCollapse`). A
  rerun logs a server from the beginning again (`RerunIsAChainIff`).
* `app_surface_kl.py`: the linter says nothing of existing duplicates exactly when every module that declares a shared
  path by a router decorator is the owner of that path, its last mounted or else its first declarer (`LintAgreesIff`,
  `AppDecoratorsHideDuplicates`). The context budget is kept for every block exactly from 40 on (`BudgetKeptIff`).
* `approval_anomaly_detector.py` groups a decision without a name under "unknown" but filters by the raw name, so a
  group can be missed exactly there (`GroupReportedIff`, `UnnamedBurstIsMissed`).
* `aidr_verdict_enforcer.py` keeps its books exactly while every save holds: one that leaves the old file must follow no
  delivery, one that tears it must have nothing to keep (`QueueConserves`, `BooksAreRightIff`,
  `FailedSaveDeliversTwice`, `TornSaveLosesThePayload`). Its log precedes every forward exactly when recording worked
  at every attempted one (`ForwardsAreLoggedIff`, `UnloggedForward`). A request that counts as failed may have been
  taken: each payload is queued or has reached the gateway once, never both, exactly while no saved file keeps what was
  taken, no untouched one does, and no torn one loses anything else (`PayloadsReachOnceIff`, `TimedOutIsSentAgain`).
* `aidr_commit_gateway_connector.py` forwards each sha at most once while the handlers of that sha run one at a time
  (`SerialForwardsOnce`, `OverlapForwardsTwice`; exactly which overlaps can forward twice is `BothCanForwardIff`). The
  upstream takes each sha at most once if, besides, no handler gives up on a request that it takes, before or after
  (`SerialTakesOnce`). Once all requests for a sha are answered it can be made to take it again exactly when the sha is
  not marked or a request that was given up is still on its way (`TakenAgainIff`, `MarkedIffSomeReplyArrived`,
  `LostReplyIsRepeated`, `TimedOutRequestArrivesLate`).
* `aidr_commit_gateway_wiring_v2.py` evaluates all pending commits exactly when the processing of none raises, on a NULL
  trust score or a NULL injection score; nothing is ever decided exactly when every evaluation raises on the head
  (`AllDecidedIff`, `CaughtUpIff`, `PoisonedHeadBlocks`, `PoisonedCommit`). Its audit log is complete exactly when every
  write worked (`LogIsCompleteIff`).
* `aidr_commit_gateway_integration.py` overwrites signals in descending time order: the newest score of a signal counts
  exactly when it is the oldest one as well (`NewestRowCountsIff`, `FallenIsForwarded`).
* `analyst_feedback_loop.py` rounds decreases to 0 decimals, hence to 0, and divides by their sum (`DivisionByZeroIff`,
  `OneFallingSignal`). The bounds of a weight survive the rescaling exactly when every suggestion has a share between
  0.0495 and 0.3505 of the total (`BoundsSurviveIff`, `RescalingBreaksTheBounds`); for the default weights that is when
  no signal falls and at least four rise, or exactly three do and all from 0.15 (`DefaultsStayInBoundsIff`).
* `ask_corpus_indexer.py` starts its cursor at the empty string, so exactly a server with an empty id is never reached
  (`EveryServerHasATurnIff`, `EmptyIdHasNoTurn`).

## Model

| member | source | states |
|---|---|---|
| Samples.CauchySchwarz | anomaly_detector.py:121-135 | the square of a sum is at most the count times the sum of squares, for every sample |
| Samples.LargestSquare | anomaly_detector.py:128-135 | one deviation from the mean squared is at most (n-1)/n of the sum of all squared deviations |
| Samples.Chebyshev | anomaly_detector.py:188-212 | the number of squares above a bar, times the bar, is at most the sum of squares, strictly unless that number is 0 |
| ZScore.GetAllSignalScores | anomaly_detector.py:138-157 | the dictionary holds for every signal exactly its non-null scores in row order |
| ZScore.GroupByServer | anomaly_detector.py:172-186 | grouping by server files every row under its server, in order, and each server once |
| ZScore.ScanEntries | anomaly_detector.py:195-212 | the inner loop reports exactly the qualifying rows of one server and signal, with the right mean, deviation and z |
| ZScore.DetectStatisticalAnomalies | anomaly_detector.py:160-214 | the three nested loops emit each qualifying row exactly as often as it occurs in the table (a multiset equality), with the figures of its signal |
| ZScore.ReportedIffOutlying | anomaly_detector.py:160-214 | the reports hold each row as often as the table if it has a score of a named signal with three values or more, further than two deviations from their mean, and not at all otherwise |
| ZScore.ValuesAreTheScores | anomaly_detector.py:138-157 | the values of a signal hold each number as often as rows give it as their score of that signal |
| ZScore.Samuelson | anomaly_detector.py:128-212 | no value of a sample of n lies further from the mean than (n-1)/sqrt(n) sample deviations (z² <= (n-1)²/n) |
| ZScore.ReportedZIsBounded | anomaly_detector.py:128-212 | every reported anomaly meets n z² <= (n-1)², n being the size of its signal |
| ZScore.BoundIsAttained | anomaly_detector.py:128-212 | the bound is reached for every n by one outlier among equal values |
| ZScore.FlaggedRowsAreFew | anomaly_detector.py:188-212 | if k rows of a signal with n >= 3 values are flagged then 4k < n-1 |
| ZScore.FlaggingNeedsSixValues | anomaly_detector.py:188-189 | some sample of size n has a value more than 2 deviations out if and only if n >= 6, though the code's guard admits 3 |
| Bursts.ScanAnalyst | approval_anomaly_detector.py:252-281 | the nested scan with its early break reports one burst per start whose run exceeds the limit |
| Bursts.FilterAllows | approval_anomaly_detector.py:251 | the filter keeps the ALLOW decisions of exactly that name, in order |
| Bursts.DetectBulkApprovalBursts | approval_anomaly_detector.py:244-286 | whatever order the analysts are visited in, each named analyst gets exactly their own reports and the empty name none |
| Bursts.EarlyBreakLosesNothing | approval_anomaly_detector.py:260-266 | on ordered decisions, stopping at the first later one counts the same as testing all of them |
| Bursts.ReportedBurstsAreReal | approval_anomaly_detector.py:255-281 | a report names the analyst, its window_start is the time of one of their ALLOWs, and its count is above 5 and reached by their ALLOWs of the hour from there on |
| Bursts.BusyWindowsAreReported | approval_anomaly_detector.py:255-281 | every closed hour with more than 5 ALLOWs, wherever it starts, is covered by a report at least as large |
| Bursts.ReportedIffBusy | approval_anomaly_detector.py:244-286 | an analyst is reported if and only if the name is non-empty and some closed hour holds more than 5 of their ALLOWs |
| Bursts.LargestBurstIsTheMaximum | approval_anomaly_detector.py:255-281 | the largest reported count is the true maximum over all closed hours |
| Bursts.GroupReportedIff | approval_anomaly_detector.py:249-286 | for every group: reported exactly when an hour of its own decisions is busy, if and only if it is not the group "unknown" with a busy hour that the decisions literally named so do not have |
| Bursts.UnnamedBurstIsMissed | approval_anomaly_detector.py:249-251 | six ALLOWs within an hour without a name, or under the empty one, are reported for no name |
| Tokens.TokensOfJoin | ask_corpus_indexer.py:42-46 | the tokens of a space-joined list are the union of the tokens of its parts |
| Tokens.TokensAreFixed | ask_corpus_indexer.py:42-46 | every token has 2 to 40 token characters and tokenizes to itself alone |
| Tokens.TokensAreTheMatches | ask_corpus_indexer.py:42-46 | the tokens of a text are, lower-cased, exactly the stretches of 2 to 40 word characters into which its runs fall when cut at every fortieth |
| CorpusDocs.AxisLabelsFor | ask_corpus_indexer.py:86-98 | the dictionary of a chunk says of its servers exactly what the whole table says, and nothing of any other server |
| CorpusDocs.CveIdsFor | ask_corpus_indexer.py:101-113 | the same for linked advisories, sorted, with dangling links dropped by the join |
| CorpusDocs.LabelOrderIsIrrelevant | ask_corpus_indexer.py:62-73 | neither snippet nor terms depend on the insertion order of the label dictionary |
| CorpusDocs.RowOrderIsIrrelevant | ask_corpus_indexer.py:91-113 | any order in which the two unordered queries return their rows gives the same document |
| CorpusDocs.SnippetShowsTheServer | ask_corpus_indexer.py:61-67 | the snippet begins with the name, or the id where there is none; verdict, tier and source, every axis=label equation and the description head are exact substrings of it |
| CorpusDocs.AxesAreInOrder | ask_corpus_indexer.py:62-67 | the equations stand in the snippet joined in the order of their axes |
| CorpusDocs.TermsOfTheServer | ask_corpus_indexer.py:61-75 | a word is in the name terms exactly when it is a token of the name, in the verdict terms when of verdict, tier or source (NULL reading None), in the desc terms when of the first 400 characters of the description |
| CorpusDocs.TermsOfTheTables | ask_corpus_indexer.py:62-77 | a word is in the axes terms exactly when it is a token of the name or of the last non-empty newest-version label of an axis of the server, in the cve terms when of the id or severity (UNKNOWN if empty) of a linked advisory |
| CorpusDocs.LabelsOfIff | ask_corpus_indexer.py:86-98 | the label dictionary of a server holds, for each axis once, the last non-empty label of the newest version |
| CorpusDocs.FieldsAreKeptApart | ask_corpus_indexer.py:68-75 | another description changes only the desc terms, another name only the name terms |
| CorpusDocs.CveFieldIff | ask_corpus_indexer.py:55-77 | a document has a cve field if and only if some known advisory is linked to its server |
| CorpusDocs.SegmentIsInserted | ask_corpus_indexer.py:63-67 | linked advisories insert one segment before the description head; without them there is none |
| CorpusDocs.LinkedIdIsInTheSnippet | ask_corpus_indexer.py:55-60 | every linked advisory id is an exact substring of the snippet and the document has a cve field |
| CorpusDocs.NewLinksTouchOnlyLinked | ask_corpus_indexer.py:58-60 | adding links leaves the documents of unlinked servers as they were |
| Indexer.PageIsNext | ask_corpus_indexer.py:131-145 | from the cursor left by n servers the keyset query returns exactly the next servers of the whole order, for every page size |
| Indexer.QueueIsTheRegistry | ask_corpus_indexer.py:131-140 | the servers a run can reach are the registry without an empty id |
| Indexer.EveryServerHasATurnIff | ask_corpus_indexer.py:131-145 | an unlimited run reaches every registered server if and only if no id is empty, and reaches no others |
| Indexer.EmptyIdHasNoTurn | ask_corpus_indexer.py:131-140 | a registry whose only server has an empty id: nothing is ever indexed |
| Indexer.ReadPage | ask_corpus_indexer.py:135-145 | the page and the cursor it leaves; it is empty exactly when all that was asked for has been read |
| Indexer.PageItems | ask_corpus_indexer.py:144-155 | documents built from the chunk's dictionaries are those built from the whole tables |
| Indexer.UpsertPage | ask_corpus_indexer.py:148-167 | the chunk loop with its prefetched rows advances the single pass by the length of the page |
| Indexer.Corpus.Reindex | ask_corpus_indexer.py:116-174 | for every limit, chunk size and set of failing chunks the loop terminates; what is committed is the single pass over the first n servers, n fixed by the first failing chunk; statistics are those of that pass; a completed run reads all servers, or as many as a positive limit, or none under a negative one, in the fewest chunks of the size asked for, else of the environment's, else of 2000 |
| Upserts.NextTurn | ask_corpus_indexer.py:148-167 | the row read with the page is still the current one at its server's turn |
| Upserts.RowAfter | ask_corpus_indexer.py:153-167 | after a pass a row is the new one if it was absent or its hash differed, else the old one, indexed_at included |
| Upserts.OthersUntouched | ask_corpus_indexer.py:151-167 | rows of ids outside the pass are untouched |
| Upserts.CountsAddUp | ask_corpus_indexer.py:152-167 | scanned = written + unchanged, and written is the number of servers the original rows were out of date for |
| Upserts.ResumedRunIsTheSame | ask_corpus_indexer.py:132-174 | after any number of runs cut short anywhere, a complete run gives every row the document and hash of one uninterrupted run |
| Upserts.SecondRunWritesNothing | ask_corpus_indexer.py:116-122 | one more run over the same tables writes nothing and changes no indexed_at |
| Upserts.RowIsCurrentIff | ask_corpus_indexer.py:155-159 | a row ends up with its server's document if and only if the old row did not carry that document's hash with another document |
| Upserts.PassKeepsHonest | ask_corpus_indexer.py:163-166 | that every stored hash is the hash of the stored document is kept by every pass |
| Indexer.CorpusMatchesTheTables | ask_corpus_indexer.py:116-174 | with a collision-free hash a complete run leaves for every server the document of the fleet-wide tables and leaves other ids alone |
| Indexer.RowOrderGivesTheSameTurns | ask_corpus_indexer.py:91-113 | reruns that see their rows in another order go through the same documents |
| Indexer.NewLinksRewriteOnlyLinked | ask_corpus_indexer.py:58-60 | after new links the next run leaves the rows of all other servers exactly as they were |
| PathAlgebra.JoinPathSegments | app_surface_kl.py:135-138 | the segments of a joined path are those of the prefix followed by those of the path, for all strings |
| PathAlgebra.JoinPathIgnoresSlashes | app_surface_kl.py:135-138 | one more slash at the seam or at the end of a join changes nothing |
| PathAlgebra.JoinPathPlain | app_surface_kl.py:135-138 | texts without slashes at the seam and the end are joined by one slash; an empty prefix leaves the path alone, an empty path the prefix, and both give / |
| PathAlgebra.ComputeStaticStem | app_surface_kl.py:141-154 | the loop that skips empty pieces and stops at a parameter computes the rooted list of leading static segments |
| PathAlgebra.StemSegments | app_surface_kl.py:141-154 | a stem denotes exactly the leading static segments of its path |
| PathAlgebra.StemIdempotent | app_surface_kl.py:141-154 | taking a stem twice changes nothing |
| PathAlgebra.SameStemIff | app_surface_kl.py:141-154 | two stems are the same string if and only if the leading static segments are the same |
| PathAlgebra.StemOfJoin | app_surface_kl.py:135-154 | the stem of a join is the prefix's stem once it has a parameter, else its segments followed by the static ones of the path |
| RouteIndex.Ingest | app_surface_kl.py:167-187 | the nested ingest updates records and owner lists as one claim after another |
| RouteIndex.BuildRoutes | app_surface_kl.py:160-228 | the loop over modules yields the records, prefix owners, tag counts, duplicates, prefix collisions and totals of all claims; route_total counts the distinct pairs of a verb and a joined path, and a pair is a duplicate exactly when two modules of different name declare it |
| RouteIndex.OwnerIsADeclarer | app_surface_kl.py:167-187 | the recorded owner of a path is one of its declarers, and a mounted one as soon as any declarer is mounted |
| RouteIndex.RecordIsTheOwners | app_surface_kl.py:167-213 | a path has a record exactly when it has an owner, and the record is that module's |
| RouteIndex.OwnerIsTheLastMounted | app_surface_kl.py:180-183 | the owner is the last mounted module that declares the path, else the first that declares it |
| RouteIndex.SomeOwner | app_surface_kl.py:180-183 | conversely whoever owns a path is that module |
| RouteIndex.OwnersAreTheDeclarers | app_surface_kl.py:167-187 | the owner list of a path holds exactly the modules that declare it |
| RouteIndex.DuplicateIff | app_surface_kl.py:215-216 | a path is listed as duplicate exactly when some declarer is not its recorded owner |
| RouteIndex.DuplicatesAreShared | app_surface_kl.py:215-216 | a path is listed as duplicate exactly when two modules of different name declare it |
| RouteIndex.FullPathIff | app_surface_kl.py:177-179 | two declarations are filed under one key if and only if verb and joined path agree |
| RouteIndex.DuplicateEndpointIff | app_surface_kl.py:177-216 | a path is a duplicate if and only if two modules declare it under the same verb |
| RouteIndex.OneRecordPerEndpoint | app_surface_kl.py:177-225 | there are as many records as pairs of a verb and a joined path: a GET and a POST of one path are two |
| RouteIndex.LintSource | app_surface_kl.py:412-458 | the linter's loops produce its violations in order |
| RouteIndex.LintSays | app_surface_kl.py:412-461 | a module is told of exactly the paths of its routers that another module owns, with that owner and whether it is mounted, and of a missing prefix exactly when it has router decorators and none |
| RouteIndex.ToldOfCollisionIff | app_surface_kl.py:440-449 | a module is told of a prefix collision exactly when its prefix has two segments or more and another module claims it |
| RouteIndex.LintSaysOfPrefixes | app_surface_kl.py:440-449 | ... and is named exactly the other modules that claim it |
| RouteIndex.ReportsDuplicateIff | app_surface_kl.py:449-457 | a module is told of a duplicate exactly when one of its router declarations is recorded under another module |
| RouteIndex.LintSilentIff | app_surface_kl.py:412-458 | over any list of modules nobody is told of a duplicate exactly when no router decorator declares a path that another module owns |
| RouteIndex.LintAgreesWithIndex | app_surface_kl.py:412-458 | without app-object decorators nobody is told of a duplicate exactly when the index lists none |
| RouteIndex.LintAgreesIff | app_surface_kl.py:449-457 | linter and index disagree exactly for module lists with shared paths in which every router decorator of a shared path stands in the module that owns it; the linter never exceeds the index |
| RouteIndex.AppDecoratorsHideDuplicates | app_surface_kl.py:173-213 | two modules whose duplicate nobody is told of |
| RouteIndex.CollisionIff | app_surface_kl.py:217-218 | the index lists a prefix collision exactly when two modules claim the prefix |
| RouteIndex.CollisionsAgreeWithIndex | app_surface_kl.py:436-447 | somebody is told of a prefix collision exactly when two modules claim one prefix of at least two segments, which is when the index lists such a one |
| RouteIndex.IndexServes | app_surface_kl.py:326-359 | the index knows a route for a URL exactly when some (mounted) declaration has its leading static segments |
| RouteIndex.CallReports | app_surface_kl.py:339-355 | exact meaning of both reports; every shell call without any route is also listed as hitting no live one |
| RouteIndex.BudgetIsKept | app_surface_kl.py:505-508 | from 40 on the output fits the budget, is whole when it fits and else whole lines with the notice |
| RouteIndex.BudgetKeptIff | app_surface_kl.py:505-508 | the budgets that are kept for every block are exactly those from 40 on |
| Router.PrefixForPath | app_routes.py:74-81 | the loop over the table computes the best match |
| Router.MatchesIff | app_routes.py:74-81 | a prefix matches exactly when the path, split at its slashes, begins with the pieces of the prefix |
| Router.BestIsLongest | app_routes.py:74-81 | the result is the longest prefix that matches on a segment boundary, and None only if none matches |
| Router.LongestIsUnique | app_routes.py:74-81 | at most one route is the longest match, whatever the order of the table |
| Router.TableOrderIrrelevant | app_routes.py:33-81 | tables with the same routes route every path alike |
| Router.RoutesAreATable | app_routes.py:33-55 | the eighteen prefixes of the source are distinct |
| Router.RoutesInAnyOrder | app_routes.py:33-81 | listed in any order they send every path to its one longest match |
| Router.AddingARoute | app_routes.py:33-81 | a new route changes only paths at or below it that had no match as long, wherever it is inserted |
| Router.RestIsTheRemainder | app_shell.py:107-110 | the stripped path is rooted, prefix + rest is the path unless they are equal, and segments are kept |
| Router.Gateway | app_shell.py:153-162 | not found, refused and proxied are decided by the longest match and the write guard |
| Router.EndsWithIsLastSegment | app_shell.py:157-159 | the textual suffix test is a test of the last segment, trailing slashes or not |
| Router.GuardIff | app_shell.py:157-159 | with bus writes off a request is refused exactly when it is under the bus and its last segment names a write |
| RefreshLag.PercentileAtMostIff | app_scoring_consumer_axis_refresh_lag.py:52-61 | the percentile is at most v if and only if at least pct percent of the sample are, so it is the least such value |
| RefreshLag.PercentileSplitsTheSample | app_scoring_consumer_axis_refresh_lag.py:52-61 | at least pct percent of the sample are at most the percentile and fewer than that are below it |
| RefreshLag.PercentileIsAValue | app_scoring_consumer_axis_refresh_lag.py:52-61 | percentiles are values of the sample and grow with the percentage |
| RefreshLag.SameBagSameFigures | app_scoring_consumer_axis_refresh_lag.py:52-61 | percentile and count above a bar do not depend on the order of the sample |
| RefreshLag.GatherLatest | app_scoring_consumer_axis_refresh_lag.py:96-113 | the loop finds all servers, the legal axes present and the true latest time of every pair |
| RefreshLag.ComputeAxisRefreshLag | app_scoring_consumer_axis_refresh_lag.py:64-153 | every axis present gets its figures, and no axis has a larger p95 than the worst one |
| RefreshLag.OneLagPerScoredServer | app_scoring_consumer_axis_refresh_lag.py:121-135 | each scored server contributes one lag |
| RefreshLag.LagsWithin | app_scoring_consumer_axis_refresh_lag.py:121-138 | as many lags are within a bar as servers have their last score within it, future scores counting as no lag |
| RefreshLag.OrderOfServersIrrelevant | app_scoring_consumer_axis_refresh_lag.py:121-135 | the order in which the server set is visited does not matter |
| RefreshLag.FiguresDependOnTheSetOfRows | app_scoring_consumer_axis_refresh_lag.py:96-142 | all per-axis figures are a function of the set of rows: neither order nor repetition shows |
| RefreshLag.AxisFigures | app_scoring_consumer_axis_refresh_lag.py:120-142 | in counts of servers: the p50 and p95 lags are the least that half, and 95 of 100, of the n >= 1 scored servers keep; stale_over_24h counts those last scored more than a day ago; never_scored + n = servers |
| TierTrends.GroupByServer | app_scoring_consumer_risk_tier_trend.py:80-83 | grouping keeps each server's scores in order, keyed by first appearance |
| TierTrends.OfServerConcat | app_scoring_consumer_risk_tier_trend.py:80-83 | a server's scores come in the order of the rows |
| TierTrends.OwnRows | app_scoring_consumer_risk_tier_trend.py:80-83 | ... and are exactly its own rows |
| TierTrends.TrendTable.InsertServer | app_scoring_consumer_risk_tier_trend.py:88-108 | the inner loop appends exactly the transitions of one server |
| TierTrends.TrendTable.ComputeRiskTierTrends | app_scoring_consumer_risk_tier_trend.py:46-110 | a run appends the transitions of all servers to the table |
| TierTrends.EachServerOnItsOwn | app_scoring_consumer_risk_tier_trend.py:80-108 | what a run logs for a server does not depend on how the scores of others interleave |
| TierTrends.TransitionsChain | app_scoring_consumer_risk_tier_trend.py:74-108 | no transition has from = to, each starts where the one before ended, the ends are the first and last tier |
| TierTrends.LogRebuildsTiersIff | app_scoring_consumer_risk_tier_trend.py:74-108 | replaying the log by time from the first tier gives the tier of every score if and only if scores of one instant agree on the tier |
| TierTrends.TieLosesATier | app_scoring_consumer_risk_tier_trend.py:74-108 | two scores of one instant with different tiers, the first of which is not rebuilt |
| TierTrends.LogIsTheCollapse | app_scoring_consumer_risk_tier_trend.py:88-108 | whatever the timestamps, the first tier followed by the logged ones is the tier sequence with every run taken as one |
| TierTrends.WhatIsLogged | app_scoring_consumer_risk_tier_trend.py:29-108 | first tier and log show critical exactly when some score has p_critical >= 0.5, danger when another has p_danger >= 0.5, low when another has neither |
| TierTrends.CollapseHasNoRuns | app_scoring_consumer_risk_tier_trend.py:92 | neighbours differ in that sequence |
| TierTrends.CollapseIsARunLengthCode | app_scoring_consumer_risk_tier_trend.py:88-108 | the tier of every score is found in it again at the number of its run |
| TierTrends.RerunIsAChainIff | app_scoring_consumer_risk_tier_trend.py:46-110 | after another run, over whatever scores there are by then, the log is a chain exactly when one run logged nothing or the second starts at the tier the first ended with |
| LargestKeys.TrimKeepsLargest | alert_manager.py:279-281 | deleting the first sorted keys leaves exactly the n largest |
| LargestKeys.LargestAbsorbs | alert_manager.py:279-281 | what was evicted once can never belong to a later selection |
| AlertHistory.HistoryClosedForm | alert_manager.py:203-281 | over every run, aborted cycles included, the history is the 1000 largest keys of all completed cycles plus those since |
| AlertHistory.HistoryAfterCycle | alert_manager.py:255-281 | after a completed cycle at most 1000 keys are left: the largest ever seen |
| AlertHistory.DispatchedIff | alert_manager.py:203-252 | the exact condition under which an alert is dispatched after any run |
| AlertHistory.KeyIsUniqueIff | alert_manager.py:130-132 | among the rows the three queries can return (lines 171-200), the exact condition, kind by kind, under which an alert shares its key text with no other |
| AlertHistory.HighRiskIsUnique | alert_manager.py:239-242 | a high-risk alert shares its key text with no other possible row, whatever colons its server id contains |
| AlertHistory.TwoDenials | alert_manager.py:220-222 | two possible audit rows, of different target, outcome and details, with one key text |
| AlertHistory.NullReadsNone | alert_manager.py:203-205 | a NULL severity and one that reads "None" give one key text |
| AlertHistory.OnceIffNothingEvictedReturns | alert_manager.py:203-281 | every occurring key is dispatched, and each exactly once if and only if no evicted key comes back |
| AlertHistory.EvictedKeyReturns | alert_manager.py:279-281 | for every n > 1000 a run of n keys after which the smallest returns and is dispatched twice |
| AlertHistory.FewKeysDispatchedOnce | alert_manager.py:203-281 | each occurring key is dispatched exactly once in every run with at most 1000 distinct keys |
| AlertHistory.OncePerCycle | alert_manager.py:255-275 | within a cycle no key is dispatched twice, from whatever history |
| AlertHistory.AlertManager.Dispatch | alert_manager.py:203-252 | one dispatcher call is one step of that run |
| AlertHistory.AlertManager.Trim | alert_manager.py:279-281 | the deletion loop is the trim step of that run |
| AlertHistory.AlertManager.Cycle | alert_manager.py:255-281 | a cycle, with any query raising, is its run of events; a completed one leaves at most 1000 keys |
| AlertHistory.CycleSees | alert_manager.py:255-281 | a cycle sees the keys of each query that is reached and does not raise, and trims exactly if none raises |
| PiConfig.ConfigFile.AddPrograms | add_pi_programs.py:66-93 | one run appends the blocks of the needed programs and writes the file only if there are any |
| PiConfig.NamesConcat | add_pi_programs.py:70-74 | the scan of two texts is the two scans unless a header dangles across |
| PiConfig.NamesSwallowed | add_pi_programs.py:70-74 | a dangling header captures everything up to the next closing bracket as one name |
| PiConfig.NamesHaveForm | add_pi_programs.py:71 | every name found begins with pi_, goes on after it, and has no closing bracket |
| PiConfig.BlocksNames | add_pi_programs.py:51-63 | generated blocks scan back to exactly the names they were generated from |
| PiConfig.BlockRunsTheProgram | add_pi_programs.py:51-63 | read back by key, a generated block runs the program's script and writes to the program's log file |
| PiConfig.InstalledProgramsRun | add_pi_programs.py:11-63 | ... for the six installed ones both files are named after the program |
| PiConfig.ProgramsAreWellFormed | add_pi_programs.py:11-48 | the six programs of the script meet what the round trip needs |
| PiConfig.OldTextKept | add_pi_programs.py:82-93 | the old text is a prefix of the new one |
| PiConfig.AppendedNamesAreFoundIff | add_pi_programs.py:66-93 | scanning the rewritten file gives the old names followed by the needed ones if and only if no header dangles |
| PiConfig.SecondRunWritesNothingIff | add_pi_programs.py:66-93 | a second run writes nothing if and only if nothing was needed or no header dangled |
| PiConfig.TwoRunsSuffice | add_pi_programs.py:66-93 | from any file two runs install everything wanted |
| PiConfig.ClosedHeadersDoNotDangle | add_pi_programs.py:70-74 | headers closed on their own line leave nothing dangling |
| PiConfig.OpenHeaderLosesAProgram | add_pi_programs.py:66-93 | a concrete file from which one run does not install everything |
| VerdictQueue.CheckMeetsPolicy | aidr_verdict_enforcer.py:155-198 | allowed exactly for a registered server that is no known threat and is unrestricted or exempt; each reason is given in exactly its case |
| VerdictQueue.Enforcer.Process | aidr_verdict_enforcer.py:253-293 | what one payload leaves in the queue, on the wire and, if recording works, in the log |
| VerdictQueue.Enforcer.LogDecision | aidr_verdict_enforcer.py:95-123 | a decision is recorded or silently is not; it holds of the log file and of the audit table alike |
| VerdictQueue.Enforcer.ProcessCommitQueue | aidr_verdict_enforcer.py:200-295 | a cycle saves exactly the payloads that stay; a failed save leaves the old file or one that does not parse, a failed read does nothing |
| VerdictQueue.CycleConserves | aidr_verdict_enforcer.py:252-295 | one cycle shares its payloads out between kept and sent: nothing lost, nothing in both, kept ones in order |
| VerdictQueue.ClearCycle | aidr_verdict_enforcer.py:252-295 | when every check allows and every request succeeds, a cycle sends exactly the payloads with a server in one of the two id fields and keeps the others |
| VerdictQueue.WhatStays | aidr_verdict_enforcer.py:252-290 | a payload that is not delivered stays, tagged with the error if it was posted and unchanged otherwise |
| VerdictQueue.StepConservesIff | aidr_verdict_enforcer.py:210-295 | a step keeps the books if and only if its save held: no untouched file after a delivery, no torn file with something to keep |
| VerdictQueue.QueueConserves | aidr_verdict_enforcer.py:247-295 | over every run: throughout it each payload is either still queued, in original order, or was successfully forwarded, never both, if and only if every save held |
| VerdictQueue.BooksAreRightIff | aidr_verdict_enforcer.py:210-295 | for runs that tear no file the books are right in the end if and only if every save held |
| VerdictQueue.FailuresMayCancel | aidr_verdict_enforcer.py:210-215 | with a torn file two failures can cancel: wrong books in between, right ones in the end |
| VerdictQueue.TornSaveLosesThePayload | aidr_verdict_enforcer.py:200-215 | a torn save loses an undelivered payload, and no later cycle finds it |
| VerdictQueue.SentIsAccepted | aidr_verdict_enforcer.py:217-283 | over every run the payloads on the books as sent are exactly those of the successful requests, in order |
| VerdictQueue.PayloadsReachOnceIff | aidr_verdict_enforcer.py:217-295 | over every run: throughout it each payload is either queued or has reached the gateway, once, if and only if no saved file keeps what was taken, no untouched one does, and no torn one loses anything else |
| VerdictQueue.TimedOutIsSentAgain | aidr_verdict_enforcer.py:223-232 | a request that times out after the gateway took it is sent again, though every save works |
| VerdictQueue.ForwardsMeetPolicy | aidr_verdict_enforcer.py:155-295 | over every run, whatever fails, each forward is for a registered server whose verdict allows it, and no known threat is forwarded or approved, exempt or not |
| VerdictQueue.ForwardsAreLoggedIff | aidr_verdict_enforcer.py:95-295 | over every run each forward directly follows a recorded approval for the same server and facts if and only if recording worked at every attempted forward |
| VerdictQueue.UnloggedForward | aidr_verdict_enforcer.py:107-123 | a run with a delivery that no record approves |
| VerdictQueue.FailedSaveDeliversTwice | aidr_verdict_enforcer.py:210-215 | a run in which a failed save makes the next cycle deliver the same payload again |
| DrainQueue.Gateway.AddCommitToQueue | aidr_commit_gateway_wiring_v2.py:269-279 | a commit goes to the end of the queue |
| DrainQueue.Gateway.LogDecision | aidr_commit_gateway_wiring_v2.py:166-204 | a decision is made, and its audit row is written or silently is not |
| DrainQueue.Gateway.EvaluatePendingCommits | aidr_commit_gateway_wiring_v2.py:255-266 | the remove-by-value drain takes exactly the decided commits off the front, with equal entries and arrivals in between; the log gains the decisions whose write worked |
| DrainQueue.DecisionsAreAPrefix | aidr_commit_gateway_wiring_v2.py:255-266 | the decided commits are a prefix of the snapshot that ends before the first that raises on a NULL trust or injection score |
| DrainQueue.AllDecidedIff | aidr_commit_gateway_wiring_v2.py:255-266 | a drain decides the whole queue if and only if the processing of no commit in it raises |
| DrainQueue.CaughtUpIff | aidr_commit_gateway_wiring_v2.py:255-266 | after any run, an evaluation leaves everything enqueued before it decided, in order, if and only if nothing pending raised |
| DrainQueue.DecidedThenPending | aidr_commit_gateway_wiring_v2.py:255-279 | over every run decided followed by pending is enqueued, in order |
| DrainQueue.LogIsCompleteIff | aidr_commit_gateway_wiring_v2.py:98-110 | over every run the audit log holds exactly the decisions made, in order, if and only if every write worked |
| DrainQueue.PoisonedHeadBlocks | aidr_commit_gateway_wiring_v2.py:206-266 | from a non-empty queue nothing is ever decided, and nothing leaves it, if and only if every evaluation raises on the commit at its head |
| DrainQueue.PoisonedCommit | aidr_commit_gateway_wiring_v2.py:218-219 | a commit without trust score in front of a good one: neither is decided in any number of drains |
| DrainQueue.BlockedIff | aidr_commit_gateway_wiring_v2.py:151-223 | a decision is a block exactly for one of the four blocked verdicts without an override accepted for it; a missing row reads UNKNOWN |
| CommitForwarder.InvAlways | aidr_commit_gateway_connector.py:348-423 | the protocol invariant holds after every schedule of handlers at their awaits |
| CommitForwarder.ProcessedOnlyGrows | aidr_commit_gateway_connector.py:71-78 | processed_commits only grows along every schedule |
| CommitForwarder.ProcessedWasForwarded | aidr_commit_gateway_connector.py:390-403 | every sha in it was taken upstream for a handler that learned of it |
| CommitForwarder.PostsAreCleared | aidr_commit_gateway_connector.py:359-390 | over every schedule a request is posted if and only if its handler was given a verdict that is not UNKNOWN and not a restricted one without override |
| CommitForwarder.VerdictDecides | aidr_commit_gateway_connector.py:359-390 | over every schedule the verdict given decides whether the handler posts, is denied (restricted without override) or ends as a bad request (UNKNOWN) |
| CommitForwarder.ConfirmableIff | aidr_commit_gateway_connector.py:359-403 | from any reachable state in which a handler waits for its verdict, a continuation in which it forwards exists if and only if the verdict lets it pass, so an override opens the way for each restricted verdict |
| CommitForwarder.DeniableIff | aidr_commit_gateway_connector.py:364-378 | ... and one in which it is denied if and only if the verdict is restricted and not overridden |
| CommitForwarder.VerdictWasGiven | aidr_commit_gateway_connector.py:354-390 | a handler past its verdict, refused ones included, was given one |
| CommitForwarder.RequestsArrived | aidr_commit_gateway_connector.py:348-350 | each handler serves the request that arrived for it |
| CommitForwarder.LateChecksNeverPost | aidr_commit_gateway_connector.py:354-358 | a request whose duplicate check comes after its sha was added is never posted |
| CommitForwarder.DoubleForwardsOverlap | aidr_commit_gateway_connector.py:354-403 | two handlers confirm one sha only if each made its check before the other added it |
| CommitForwarder.SerialForwardsOnce | aidr_commit_gateway_connector.py:354-403 | when the handlers of each sha run one at a time, whatever other shas do meanwhile, each sha is successfully forwarded at most once |
| CommitForwarder.BothCanForwardIff | aidr_commit_gateway_connector.py:354-403 | from any reachable state, without new requests, two handlers of one sha can both forward it if and only if both are past the duplicate check and neither was refused or has failed |
| CommitForwarder.OverlapForwardsTwice | aidr_commit_gateway_connector.py:354-403 | a schedule of two overlapping handlers that forwards one sha twice |
| CommitForwarder.SerialTakesOnce | aidr_commit_gateway_connector.py:144-184 | when the handlers of each sha run one at a time and none gives up on a request that the upstream takes, before or after, the upstream takes each sha at most once |
| CommitForwarder.TakenAgainIff | aidr_commit_gateway_connector.py:354-403 | once all requests for a sha are answered, a serial continuation in which the upstream takes it once more exists if and only if the sha is not in processed_commits or a request for it that was given up is still on its way |
| CommitForwarder.MarkedIffSomeReplyArrived | aidr_commit_gateway_connector.py:400-403 | an answered sha is in processed_commits exactly when some request for it was answered with success |
| CommitForwarder.LostReplyIsRepeated | aidr_commit_gateway_connector.py:144-184 | a schedule, one handler at a time, in which a lost reply makes the upstream take one commit twice |
| CommitForwarder.TimedOutRequestArrivesLate | aidr_commit_gateway_connector.py:164-178 | a schedule, one handler at a time, in which a timed-out request is taken after another handler has forwarded and marked the sha |
| CommitGate.CheckVerdict | aidr_commit_gateway_integration.py:136-191 | the loops compute the signal map, the weighted score and its verdict, or raise on a NULL score |
| CommitGate.RaisesIff | aidr_commit_gateway_integration.py:155-181 | the check raises exactly when the score it uses is NULL: the composite, else the trust composite, else any of the six components |
| CommitGate.OldestRowWins | aidr_commit_gateway_integration.py:140-150 | on rows ordered newest first the map holds the score of the last row of each signal, which is an oldest one |
| CommitGate.NewestRowCountsIff | aidr_commit_gateway_integration.py:140-150 | for every such table the map holds the newest score of a signal if and only if its first and last rows carry the same score |
| CommitGate.FallenIsTrusted | aidr_commit_gateway_integration.py:140-186 | a table whose newest row says KNOWN_THREAT and whose verdict is TRUSTED_GENERAL |
| CommitGate.FallenIsForwarded | aidr_commit_gateway_integration.py:205-354 | a commit for that server is forwarded without any override |
| CommitGate.CompositeIsAMean | aidr_commit_gateway_integration.py:152-173 | without a composite row the score lies between the smallest and largest of its six components |
| CommitGate.CompositeWeighs | aidr_commit_gateway_integration.py:152-173 | that score is 0.2 of domain trust and of description safety plus 0.15 of each of the other four, never negative |
| CommitGate.VerdictBands | aidr_commit_gateway_integration.py:175-186 | each verdict stands for exactly its band of scores |
| CommitGate.ProcessCommit | aidr_commit_gateway_integration.py:205-354 | the exact outcomes, for override answers that may change between queries, and how many queries are made |
| CommitGate.ProcessWithStableOverride | aidr_commit_gateway_integration.py:205-354 | a forward is attempted iff registered and (score >= 45, or force, a reason and an approved override) |
| CommitGate.AgreesWithCanForward | aidr_commit_gateway_integration.py:399-409 | without an override that condition is can_forward, for every registered server |
| Weights.CalculateSignalAccuracy | analyst_feedback_loop.py:221-265 | the nested loops compute the statistics of every signal over all overrides |
| Weights.RateIsConfidence | analyst_feedback_loop.py:225-256 | accuracy_rate = avg_confidence, within 0 and 1, one half without overrides; correct counts exactly the approvals whose snapshot has the signal at 0.6 or more and the refusals whose snapshot has it below 0.4, total all overrides |
| Weights.RaisingScores | analyst_feedback_loop.py:225-244 | higher scores never lower the correct count over approvals and never raise it over refusals |
| Weights.AlwaysRightIff | analyst_feedback_loop.py:225-248 | over approvals alone the rate is 1 exactly when every snapshot has the signal at 0.6 or more, over refusals alone exactly when every one has it below 0.4 |
| Weights.OthersOnlyAddToTheTotal | analyst_feedback_loop.py:225-244 | an override with another verdict, or without the signal, adds to the total only |
| Weights.CaseIsIrrelevant | analyst_feedback_loop.py:226-228 | a final verdict is read as one of the capital words exactly when it is that word but for the case of its letters |
| Weights.CalculateWeightAdjustments | analyst_feedback_loop.py:268-310 | the loops compute the suggestions, the division by zero included |
| Weights.RescaledWeightsAddUpToOne | analyst_feedback_loop.py:303-308 | n rescaled and rounded weights add up to 1 within 0.0005 n, for every non-zero total |
| Weights.AnswerIsNearlyNormal | analyst_feedback_loop.py:268-310 | every non-empty answer over the six signals adds up to 1 within 0.01, rescaled or not |
| Weights.SuggestedValue | analyst_feedback_loop.py:290-301 | a decrease always suggests 0, an increase always more than 0; a suggestion is made exactly above 0.65 and below 0.35 |
| Weights.IncreaseIsBounded | analyst_feedback_loop.py:290-296 | an increase adds between 0.015 and 0.02 within rounding and never passes the maximum |
| Weights.SuggestionIsNear | analyst_feedback_loop.py:292-303 | from any weight: moved by a tenth of the distance from one half, at most 0.02; an increase stops at 0.35 and is rounded to a thousandth, a decrease at 0.05 and is rounded to a whole number |
| Weights.SpreadIff | analyst_feedback_loop.py:274-286 | best minus worst is at least 0.15 exactly when two accuracies are so far apart; otherwise nothing is suggested |
| Weights.AnswerIsRescaled | analyst_feedback_loop.py:304-310 | suggestions whose sum is within 0.01 of 1 are the answer, others divided by their sum to within 0.0005, and a sum of 0 raises |
| Weights.DivisionByZeroIff | analyst_feedback_loop.py:268-308 | from current weights between 0 and 0.5 the function raises if and only if accuracies spread by 0.15 or more, some is below 0.35 and none above 0.65 |
| Weights.OneFallingSignal | analyst_feedback_loop.py:268-308 | two ratings on which it raises |
| Weights.BoundsSurviveIff | analyst_feedback_loop.py:303-308 | all rescaled weights are within 0.05 and 0.35 if and only if every suggestion has a share between 0.0495 and 0.3505 of the total |
| Weights.RescalingBreaksTheBounds | analyst_feedback_loop.py:303-308 | they never are when a decrease is among the suggestions, or with fewer than three |
| Weights.DefaultsStayInBoundsIff | analyst_feedback_loop.py:268-310 | for the default weights, the weights of a non-empty answer are all within the bounds if and only if no signal falls and at least four rise, or exactly three do and all of them from 0.15 |

## Left out

- Floating point rounding and time zones: floats are reals, timestamps integers; `math.sqrt` is any function that returns the non-negative root.
- Regular expressions and AST parsing: a module of `RouteIndex` is given by what the patterns match in it; the tokenizer's and the config scanner's patterns are written out as scanners.
- Digests: SHA-256 is a parameter; `CorpusMatchesTheTables` assumes it has no collisions, `AlertHistory` treats a key as a number.
- Lower-casing outside ASCII in `tokenize` and upper-casing in `calculate_signal_accuracy`; `TextOrder` compares ids by code point, as a binary collation does.
- `sorted(set(...))` in a document's terms is modelled as the set.
- Indexer.Corpus.Reindex: the tables do not change during a run, and changes other callers have pending in the same session are not part of it.
- ask_corpus_indexer.py retrieval, HTTP route and command line are not modelled; latest_global_model_version is an input.
- anomaly_detector.py lines 217-352: score clustering and temporal change are one-branch thresholds over a query.
- ZScore.DetectStatisticalAnomalies: both queries are assumed to see the same rows; the evidence text is carried, the report is not rendered.
- approval_anomaly_detector.py rubber stamps, speed, overrides, self-approvals and get_analyst_stats: counters and single thresholds.
- Bursts.DetectBulkApprovalBursts: timestamps are integers, so mixed or unparsable decision_time values do not occur.
- RouteIndex.BuildRoutes: sorted report lists are sets, and build_mounts and the mount mechanism are not modelled.
- app_shell.py healthz, observation log, UI files and streaming are not modelled.
- RefreshLag.ComputeAxisRefreshLag: lags are exact integers of microseconds and the rank of the percentile is computed exactly; parsing of timestamps is not modelled.
- PiConfig.ConfigFile.AddPrograms: newline translation and a write that fails midway are not modelled.
- VerdictQueue.Enforcer.ProcessCommitQueue: cycles are atomic with respect to enqueues; the submitter, outside this source, is taken to start over from a file that does not parse.
- DrainQueue.Gateway.EvaluatePendingCommits: one drain runs at a time; what others do meanwhile is only to append.
- CommitForwarder.InvAlways: the set lives in memory and a restart of the process, which empties it, is not modelled; the commit_check and commit_status handlers and the heartbeat thread do not touch the set and are left out.
- CommitGate.ProcessCommit: takes the score of a check that did not raise; audit rows and response texts are not modelled.
- Weights.CalculateSignalAccuracy: a NULL final verdict, on which `upper` raises, does not occur.
- Weights.CalculateWeightAdjustments: a signal absent from the current weights is given its default of 0.15 by the caller; dictionary order is the order of the sequence.
- AlertHistory.AlertManager.Cycle: notification and audit calls are the record `sent`; their failures are logged and ignored by the source.
- Daemon loops, PID files, heartbeats, SQL text, HTML and one-shot patch scripts: plumbing.
