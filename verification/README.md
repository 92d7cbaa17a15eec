# The path of a measurement, from exposition text to an alert

IFA watches inference workloads. Each cycle it scrapes every target, parses the Prometheus text
exposition format, turns counters into rates and histograms into percentiles, keeps a bounded window of
snapshots per workload, evaluates nineteen diagnostic rules over it, and hands the findings to a sender
that alerts a webhook on transitions only. This project models that path and proves what each stage
promises to the next. Verify all of it with `dafny verify dfyconfig.toml`.

| files | what they cover |
|---|---|
| `ScrapeAll`, `Rates`, `Ratios` | bounded fan-out over targets; counter differencing; the shares derived from rates |
| `Text`, `PromText`, `Exposition`, `Registry` | the parser; the printer and the metrics page it must read back |
| `Quantile`, `Buckets`, `Histogram`, `Accuracy`, `Pipeline` | recording, printing, merging and interpolating histograms |
| `Store`, `Window`, `Trends` | retention, and the rule window over what is retained |
| `Rules`, `Engine`, `Catalogue` | trigger conditions, suppression, order and identity of findings; the documented catalogue they have to agree with |
| `Alerting`, `AlertProtocol`, `NotifyCalls`, `AlertRuns`, `Sender`, `Provenance`, `Subscriber` | the alert transition protocol, its object, where its alerts come from and what the webhook receives |
| `Cycle`, `RuleAlerts` | what happens after each collection cycle: store, rules and sender together; the alerts of the shipped rules |
| `DeliveryQueue`, `TimescaleSink` | the bounded queue with one writer, shared by alerts and database rows |
| `DemoEngine` | the simulated engine's request counters |
| `Telemetry`, `KeyOrder`, `Sorting`, `Seqs`, `Reals` | shared values, key order, Go's binary search, sequence facts, products |

Concurrency is modelled by labelled steps: a state, the steps that are possible in it, and what each
makes of it. A sequence of step names is one interleaving, so a lemma about every sequence is a lemma
about every schedule. Objects the program updates in place (`Sender`, `Sink`, `Store`, `RateTracker`,
`Histogram`, `EngineState`) are classes whose methods are proved against those steps or against a
function of the old state. Inside `Sender.Notify` the delivering goroutine runs an arbitrary number of
steps before each decision.

Numbers are exact reals and timestamps are integers. A value field is turned into a number by a
parameter (`ValueParser`), and `ValueParserOf` is the one the program uses over `strconv.ParseFloat`.
Strings are sequences of code points: every character the parser treats specially is ASCII, so reading
valid UTF-8 by code point or by byte gives the same result.

Where the code and its documentation differ, the model follows the code:

- `docs/CONFIGURATION.md:141-143` says that with a 60s interval and a 45s sustain window no sustained
  rule ever fires. The sample before the cutoff is part of the window, so it does:
  `Window.SlowScrapesStillSustain`.
- `test/integration/dynserver/dynserver.go:520-529` says that a histogram with one observation is
  interpolated to the boundary exactly. The rank is q times the count, so the answer is short of it:
  `Accuracy.OneObservationIsInterpolated`.
- `internal/promtext/parse.go:181-191` promises an estimate of the quantile for any histogram. With a
  negative first boundary the first bucket is interpolated from zero towards it: the estimate leaves the
  bucket and falls as the quantile rises. `Quantile.MonotoneExactlyWhen` and
  `Quantile.EstimateIsInItsBucket` say exactly when; `Pipeline.NegativeBoundaryTurnsQuantilesAround` is a
  page of two lines that does it.
- `internal/alerting/sender.go:57` says that a transition is delivered at most once. A payload whose
  answer was lost is posted again: `Subscriber.TransitionCanBePostedTwice`. A payload that was given up
  on is not sent again, so a subscriber can receive a resolution it never saw firing:
  `Subscriber.ResolutionCanArriveAlone`. `Subscriber.DeliveredAlertsFormEpisodes` says exactly when an
  ID's payloads all arrive.
- `internal/recommender/recommender.go:148-151` says that there is no trend when the metric is not
  measured throughout. Only the two outer thirds are looked at: `Trends.TrendIsDefinedExactlyWhen`.
- `docs/CONFIGURATION.md:137-139` and `internal/config/config.go:402-409` say that with retention shorter
  than three sustain windows a trend rule can never fire. A trend has no span test, only a sample count:
  `Trends.ShortHistoryHasTrend`, `Rules.GapsAndShortRetentionDoNotHideGrowth`.

- `docs/RECOMMENDATIONS.md:195-196` says that IFA-EFF-001 needs more than 50 prompt tokens a second; the
  code fires at 50: `Catalogue.PrefixCacheFiresExactlyWhen`.
- `internal/collector/collector.go:424-426` says that ratios are computed from rates over the same
  interval. A counter that one scrape lacks is measured from further back than the others, and the abort
  and cache-hit shares can exceed 100: `Ratios.IntervalsCoincideExactlyWhen` and
  `Ratios.ShareIsPercentageExactlyWhen` say exactly when they do not, `Ratios.GapInflatesAbortShare` is a
  run in which one does.

## Model

| member | source | states |
|---|---|---|
| AlertRuns.AcceptedAlertsFormEpisodes | internal/alerting/sender.go:207-251 | in every interleaving the alerts accepted for an ID are episodes firing, escalated*, resolved with each previous_severity equal to the severity before it and strictly rising severity; the ID is open exactly mid-episode, with its last identity and severity |
| Subscriber.PostedAlertsFormEpisodes | internal/alerting/sender.go:294-345 | what at least one attempt was made on, the payload in flight included, is a prefix of what was accepted, overall and per ID, and so a well-formed word |
| Subscriber.DeliveredAlertsFormEpisodes | internal/alerting/sender.go:313-345 | what arrived for an ID is everything completed for it if and only if no delivery for it failed; it is a well-formed word if and only if every payload that arrived found the subscriber in step, and a well-formed beginning when nothing failed before a success; the sent counter counts what arrived |
| Subscriber.ArrivedIsWellFormedExactlyWhen | internal/alerting/sender.go:328-345 | for any deliveries of a well-formed word, what arrives is well-formed exactly when at each arrival the subscriber had an alert open if and only if the sender had, at the same severity and, for a resolution, under the same identity |
| Subscriber.WholeEpisodesMayBeMissed | internal/alerting/sender.go:333-344 | an outage over a whole episode leaves the subscriber in step for the next |
| Subscriber.DeliveredInFullExactlyWhen | internal/alerting/sender.go:328-345 | for any deliveries, the word that arrived equals the word tried exactly when none of that ID failed |
| Subscriber.ResolutionCanArriveAlone | internal/alerting/sender.go:333-344 | a reachable state in which all that arrived for an ID is a resolution, which is no well-formed word |
| Subscriber.TransitionCanBePostedTwice | internal/alerting/sender.go:316-331 | a reachable state in which one accepted payload was posted twice |
| AlertRuns.AtMostTwoEscalations | internal/alerting/sender.go:227-233 | with a valid min_severity an episode has at most as many escalations as that severity's rank, never more than two, however the finding flaps |
| AlertWords.EscalationsAreBounded | internal/telemetry/types.go:117-128 | n escalations after a firing lower the rank by at least n |
| AlertWords.OneFiringPerEpisode | internal/alerting/payload.go:41-50 | between two firing payloads of an ID there is a resolution |
| AlertWords.WordOfPrefix | internal/alerting/sender.go:299-300 | the word of a prefix of the log is a prefix of the word |
| AlertProtocol.AcceptKeepsWords | internal/alerting/sender.go:222-233 | accepting a payload that links to its ID's word while recording its identity keeps every ID's open state and word in agreement |
| AlertProtocol.TransitionLinks | internal/alerting/payload.go:105-137 | the firing or escalated payload of an outdated finding continues its ID's word |
| AlertProtocol.ResolveLinks | internal/alerting/payload.go:141-156 | the resolved payload of an open alert continues its ID's word, with the identity of the payload before it |
| AlertProtocol.StepKeepsCore | internal/alerting/sender.go:207-267 | every step of Notify and of the goroutine keeps words, counters, severity filter and queue consistent |
| AlertRuns.NotifyAttemptsWhatIsOutstanding | internal/alerting/sender.go:207-251 | one call on findings with distinct IDs offers each outstanding transition exactly once and nothing else, leaves outstanding exactly those dropped, and suppresses every other relevant finding |
| AlertRuns.CallBringsUpToDate | internal/alerting/sender.go:213-250 | what a call makes of every open alert, said of the severities and IDs of its findings |
| NotifyCalls.FindingsAreThoseSevereEnough | internal/alerting/sender.go:214-218 | with distinct IDs the findings a call acts on are those whose severity is at least the configured one, that one included |
| Telemetry.RanksInOrder | internal/telemetry/types.go:117-128 | critical outranks warning, warning outranks info, info outranks every unknown severity |
| Provenance.EveryAlertIsAccounted | internal/alerting/payload.go:101-156 | every accepted alert of a run comes from one of its calls: a firing or escalated one carries a finding of the call that is severe enough, field by field and as of that call; a resolved one is about an ID the call had no such finding for |
| NotifyCalls.StepKeepsCall | internal/alerting/sender.go:214-250 | at every point of a call, whatever the goroutine does meanwhile, the IDs dealt with were tried exactly if outstanding and all others are untouched |
| AlertRuns.SettledMeansSynchronised | internal/alerting/sender.go:237-250 | nothing is outstanding exactly when the open IDs are those of the relevant findings and no finding is more severe than what is open |
| AlertRuns.SettledNotifyOnlySuppresses | internal/alerting/sender.go:229-233 | repeating a settled evaluation offers nothing, changes nothing and counts one suppression per finding |
| AlertRuns.NothingIsLostSilently | internal/alerting/sender.go:254-345 | every relevant finding was accepted, dropped or suppressed; accepted = sent + failed + in flight + queued, in order; each payload was posted once or twice, twice only after a retryable error |
| AlertSender.Sender.Notify | internal/alerting/sender.go:207-251 | performs a run of the protocol that begins with this call and ends as it returns; with distinct IDs every finding at or above the minimum severity ends up open, at its own severity or a higher one sent before, or was lost; every other ID is forgotten or its resolution was lost; what was lost is as it was, and is what was dropped |
| AlertSender.Sender.Enqueue | internal/alerting/sender.go:254-267 | accepts exactly when the channel has room, otherwise counts one drop and changes nothing else |
| AlertSender.Sender.SendTransition | internal/alerting/sender.go:221-233 | sends the transition of an outdated finding and records it only if it was queued |
| AlertSender.Sender.ResolveOne | internal/alerting/sender.go:240-250 | forgets an open alert only if its resolution was queued |
| AlertSender.Sender.PostOnce | internal/alerting/sender.go:314-345 | one attempt: delivered ends it as sent, a retryable error is tried once more, anything else ends it as failed |
| AlertSender.Sender.GoroutineStep | internal/alerting/sender.go:294-311 | one step of the goroutine is one possible step of the queue protocol, and it stands still only when none is possible |
| AlertSender.Sender.Close | internal/alerting/sender.go:282-311 | called at any point, even within a Notify that goes on offering payloads, or again, terminates with the goroutine gone and everything accepted before it returned delivered or given up on, in order; what is queued was accepted since, which is nothing unless it had returned already |
| Cycle.OnCycle | cmd/control-plane/main.go:182-188 | analyzing what the store holds and notifying attempts exactly the outstanding transitions, with no assumption about keys, IDs or the two clock readings; the findings are those of the shipped rules on the retained windows, and on the full histories where the window is long enough; if nothing was dropped the open alerts are the relevant findings |
| Cycle.FiredOverFullHistory | internal/recommender/rules.go:124-883 | every rule decides on the retained window as on everything ever stored, when the window spans more than three sustain windows |
| RuleAlerts.RulesNeverEscalate | docs/adr/0006-alert-deduplication.md:102-106 | in every run whose findings all come from the shipped rules no accepted payload is an escalation |
| DeliveryQueue.RunKeepsInv | internal/alerting/sender.go:294-345 | in every run accepted = completed, in flight, queued as sequences; attempts are bounded and only retried when retryable; counters count them |
| DeliveryQueue.AcceptedExactlyWhen | internal/alerting/sender.go:254-267 | a payload is accepted exactly when fewer than the capacity are queued, and otherwise counted as dropped |
| DeliveryQueue.CloseDrains | internal/alerting/sender.go:282-311 | after stop and with no later offer, the worker takes a bounded number of steps, and when it can go no further it has returned with an empty queue and everything accepted completed in order |
| DeliveryQueue.WorkerCanMove | internal/alerting/sender.go:294-311 | closing never deadlocks |
| DeliveryQueue.OnlyLateArrivalsAreStranded | internal/storage/timescale/sink.go:144-156 | what is still queued after the worker returned is exactly what was accepted since |
| TimescaleSink.EachRowIsInsertedOnce | internal/storage/timescale/sink.go:111-171 | each snapshot offered is dropped, queued, in flight or was inserted with exactly one attempt, in order |
| TimescaleSink.Sink.Write | internal/storage/timescale/sink.go:111-120 | never blocks: accepts if there is room, else counts a drop |
| TimescaleSink.Sink.Insert | internal/storage/timescale/sink.go:159-171 | one attempt, counted as written or failed |
| PromText.ParseLabels | internal/promtext/parse.go:391-454 | on every input stays in bounds, stops, and returns what the label block means and the index just past its own closing brace |
| PromText.ScanValue | internal/promtext/parse.go:418-447 | reads a value up to its unescaped closing quote, or reports it unclosed |
| PromText.SpecialValuesAreRead | internal/promtext/parse.go:456-468 | the spellings of the infinities and of not-a-number |
| PromText.Parse | internal/promtext/parse.go:68-101 | holds, name by name and in order, exactly the samples its lines contribute, and counts exactly the malformed lines |
| PromText.EveryLineCounts | internal/promtext/parse.go:79-96 | every line is exactly one of a sample, a skip, or blank or comment |
| PromText.ParseConcat | internal/promtext/parse.go:62-101 | parsing concatenated payloads concatenates the samples of each name and adds the skip counts |
| PromText.MalformedLinesAreHarmless | internal/promtext/parse.go:64-67 | malformed lines inserted anywhere change the skip count and nothing else |
| Text.LinesConcat | internal/promtext/parse.go:74-79 | a text of whole lines is split into lines independently of what follows |
| Exposition.EscIsUndone | internal/metrics/registry.go:322-325 | the value scanner undoes the escaper for every string and stops at the unescaped quote |
| Exposition.LabelTextIsRead | internal/promtext/parse.go:389-454 | a printed label block is read back as its label map, up to its own closing brace, whatever follows |
| Exposition.LabelledIsRead | internal/promtext/parse.go:332-358 | one printed series, with or without a timestamp, parses back to the same name, label map and value, for any label values; the timestamp is ignored |
| Exposition.PlainIsRead | internal/promtext/parse.go:332-358 | the same for a series without labels |
| Exposition.UnreadableValueIsRejected | internal/promtext/parse.go:353-356 | a value that is no number makes the line malformed, whatever its labels and timestamp |
| Exposition.UnclosedBlockIsRejected | internal/promtext/parse.go:391-454 | a label block without a closing brace makes the line malformed |
| Exposition.BadNameIsRejected | internal/promtext/parse.go:361-388 | what stands before the first brace or space has to be a metric name |
| Exposition.MissingValueIsRejected | internal/promtext/parse.go:344-347 | a name, with or without labels, without a value makes the line malformed |
| Exposition.BadLabelIsRejected | internal/promtext/parse.go:405-417 | a label without a key, an equals sign or an opening quote right after it is malformed |
| Exposition.PaddedKeyIsTrimmed | internal/promtext/parse.go:411-411 | space around a label name is not part of it |
| Exposition.SeparatorIsSkipped | internal/promtext/parse.go:396-399 | commas, spaces and tabs before a label or the closing brace mean nothing |
| Exposition.SpecialCharactersAreEscaped | internal/metrics/registry.go:322-325 | backslash, quote and newline are spelled with a backslash and every other character as itself |
| Exposition.OtherEscapesAreKept | internal/promtext/parse.go:424-435 | a backslash before any character but n stands for that character |
| Exposition.MissingLabelIsEmpty | internal/promtext/parse.go:42-49 | a missing label is wanted exactly when the empty string is |
| Exposition.PageIsRead | internal/promtext/parse.go:68-101 | parsing a page of any printed lines, blank lines, comments and timestamps among them, yields exactly the samples they mean, name by name and in order, and skips no line |
| Registry.RegistryPageIsRead | internal/metrics/registry.go:206-313 | whatever the workloads, runtimes and severities are called, parsing the registry's page skips no line and finds in each family exactly the lines written for it |
| Registry.EachTargetIsFound | internal/metrics/registry.go:213-250 | selecting a target's labels in a per-target family finds one sample and nothing else, and nothing for a target that is not there; its value is the scrapes, errors, duration (to three decimal places), last success or missing metrics recorded for that target, by family |
| Registry.EachTotalIsFound | internal/metrics/registry.go:210-313 | every family with a single series shows the number recorded for it, and none when its source is not configured |
| Registry.ShownExactlyWhen | internal/metrics/registry.go:265-312 | a page leaves out a family only when its source is not configured |
| Registry.RecommendationsAndBuildAreFound | internal/metrics/registry.go:206-263 | recommendations are counted by severity, and the build is named by its labels |
| Registry.SomeNumbersReadBack | internal/metrics/registry.go:206-313 | some notation of integers and decimals is read back as assumed by the value parser over some ParseFloat, so these theorems have instances |
| Sorting.SearchFindsFirst | internal/promtext/parse.go:207-210 | when the condition turns true once and stays true, the binary search splits the indexes at the first one where it is true |
| Quantile.SearchAgreesWithScan | internal/promtext/parse.go:207-237 | on clamped buckets the binary search finds the first bucket reaching the rank, and neither guard after it can trigger |
| Quantile.EstimateIsInItsBucket | internal/promtext/parse.go:215-238 | the answer is the largest finite boundary, or lies between the edges of the bucket the rank falls in if and only if the first boundary is not negative with a count or the rank is past the first bucket; otherwise it lies between that boundary and zero |
| Quantile.EstimateIsPinned | internal/promtext/parse.go:192-239 | there is an answer exactly for q between 0 and 1 on a distribution that counts something and has a finite boundary; q times the total falls as far into the counts of its bucket as the answer falls into the bucket's width, or the answer is the largest boundary when it falls in none |
| Quantile.FullBucketIsItsBoundary | internal/promtext/parse.go:227-238 | a rank equal to a bucket's count is answered with its boundary |
| Quantile.HalfBucketIsItsMiddle | internal/promtext/parse.go:227-238 | a rank halfway through a bucket's own observations is answered with the middle of the bucket |
| Quantile.DefinednessIgnoresQ | internal/promtext/parse.go:189-225 | whether there is an answer depends on the buckets alone |
| Quantile.EstimateIsMonotone | internal/promtext/parse.go:181-239 | a higher quantile never gets a lower estimate, unless the first boundary is negative with a positive count |
| Quantile.MonotoneExactlyWhen | internal/promtext/parse.go:227-238 | the estimate is monotone in q if and only if the first bucket is open-ended, has a non-negative boundary or counts nothing |
| Quantile.NotMonotone | internal/promtext/parse.go:227-238 | otherwise two quantiles are estimated in the wrong order |
| Pipeline.NegativeBoundaryTurnsQuantilesAround | internal/promtext/parse.go:227-238 | from a page with one observation at or below -5 the first quartile is reported as -1.25 and the third as -3.75 |
| Quantile.LargestFiniteIs | internal/promtext/parse.go:216-225 | the boundary reported for the open-ended bucket is a boundary and the largest finite one |
| Buckets.Merge | internal/promtext/parse.go:281-321 | sums counts per boundary, sorts and clamps |
| Buckets.Clamp | internal/promtext/parse.go:315-319 | in place, raises each count to the largest before it |
| Buckets.ClampedIsPrefixMaximum | internal/promtext/parse.go:312-319 | clamping yields prefix maxima and leaves boundaries alone |
| Buckets.MergingIsDeterministic | internal/promtext/parse.go:306-310 | the merged buckets do not depend on the order the map is walked in |
| Buckets.SamplesThatDoNotCount | internal/promtext/parse.go:287-298 | a sample without a boundary that is a number or an infinity, or without a value, changes nothing |
| Buckets.MergedIsCumulative | internal/promtext/parse.go:279-321 | merged buckets have increasing boundaries and non-decreasing counts even for racy samples |
| Buckets.FamilyQuantile | internal/promtext/parse.go:192-239 | over the merged buckets of the selected series, answers exactly when there is something to answer, and divides the bucket that q times the total falls in in proportion |
| Buckets.PercentilesAreOrdered | internal/runtime/vllm/vllm.go:200-208 | p50, p95 and p99 are measured together or not at all, and are in order |
| Histogram.Histogram.Observe | internal/demo/server.go:43-51 | records a non-negative number in the bucket it belongs to and adds it to the sum; ignores NaN and negative values |
| Histogram.Histogram.Render | internal/demo/server.go:54-65 | prints at each boundary the number of observations at or below it, then their number and what they add up to |
| Histogram.RunningTotalIsCountLe | internal/demo/server.go:56-61 | the running total over buckets is the number of observations at or below the boundary |
| Accuracy.FamilyMergesToExactBuckets | internal/promtext/parse.go:279-321 | however observations are spread over series, merging counts all of them |
| Accuracy.EstimateIsAccurate | internal/promtext/parse.go:181-239 | the estimate lies in the same bucket as the ceil(q n)-th smallest observation and divides it as q n divides the observations there, or is the largest boundary when that observation exceeds it |
| Accuracy.KthSmallestExists | internal/promtext/parse.go:181-182 | for every rank from one to the number of observations there is such an observation |
| Accuracy.RankExists | internal/promtext/parse.go:204-204 | q n rounded up is a rank of the observations for every q between 0 and 1 |
| Accuracy.SomeFormatReadsBack | internal/promtext/parse.go:456-468 | for every list of boundaries the value parser, over some ParseFloat, reads some notation of numbers back exactly, so the accuracy theorems have instances |
| Accuracy.OneObservationIsInterpolated | internal/promtext/parse.go:205-238 | one observation is reported a fraction q into its bucket, short of the boundary |
| Pipeline.ScrapedQuantileIsAccurate | internal/runtime/vllm/vllm.go:164-210 | observations recorded in any number of histograms, printed on a page among other families and other series of the same family, parsed, selected by label, merged and interpolated give an answer in the bucket of the exact quantile of the selected series, as far into it as q n goes into the observations there, with no line skipped |
| Pipeline.FamilyPageIsRead | internal/promtext/parse.go:127-140 | on such a page the selector finds the buckets of the matching series and of nothing else |
| Pipeline.CountAndSumAreRead | internal/demo/server.go:62-64 | a printed series also reads back as the number of its observations and the printed sum |
| TelemetryStore.Store.Add | internal/telemetry/store.go:85-109 | appends, then drops what is too old and what exceeds the count |
| TelemetryStore.Store.Prune | internal/telemetry/store.go:192-205 | removes exactly the workloads whose newest sample is too old, and counts them |
| TelemetryStore.Store.Latest | internal/telemetry/store.go:115-131 | in key order the newest snapshot of every workload that has one, each key once |
| TelemetryStore.NewestIsLastAdded | internal/telemetry/store.go:115-131 | in a well-timed run a workload's newest snapshot is the last one ever added for it, and none is later |
| TelemetryStore.PruneLeavesTheFresh | internal/telemetry/store.go:192-205 | pruning leaves exactly the series whose newest sample is no older than the retention period, as they were |
| Telemetry.KeysCollideExactlyWhen | internal/telemetry/types.go:101-110 | two workloads whose namespaces have no slash share a key exactly when they are the same one or the one without namespace is named like the other with its namespace |
| TelemetryStore.RunIsKeyed | internal/telemetry/store.go:85-109 | in every run each series holds snapshots of its own workload only |
| TelemetryStore.StoreHoldsTheWindow | internal/telemetry/store.go:85-109 | after any well-timed run a known workload holds the window of its full history its last Add called for, and an unknown one has nothing recent enough to keep |
| TelemetryStore.WindowIsLongest | internal/telemetry/store.go:11-15 | that window is the longest suffix within both bounds |
| TelemetryStore.PruneIsInvisibleToAdd | internal/telemetry/store.go:189-205 | an Add after a Prune leaves the same series as without it |
| Window.RecentBrackets | internal/recommender/recommender.go:92-119 | the recent tail is the shortest one starting strictly before the cutoff, or the whole window |
| Window.SustainedMeansHeldThroughout | internal/recommender/recommender.go:121-142 | sustained if and only if history spans the window and the predicate held on every sample from the cutoff on and on the last one before it |
| Window.LongerIsHarder | internal/recommender/recommender.go:128-142 | a longer sustain window never makes a condition newly sustained |
| Window.SlowScrapesStillSustain | internal/recommender/recommender.go:100-106 | two scrapes further apart than the sustain window do sustain |
| Window.RecentIgnoresTrimming | internal/recommender/recommender.go:107-119 | a retained suffix spanning strictly more than d has the same recent tail as the full history |
| Window.StoreAnswersLikeFullHistory | internal/telemetry/store.go:89-108 | Sustained and Trend over what the store retains equal those over everything ever added, when it spans enough |
| Window.ComputeMean | internal/recommender/recommender.go:171-186 | the loop computes the mean, and nothing when any sample is unmeasured |
| Trends.ReversalNegates | internal/recommender/recommender.go:156-169 | reversing the window negates the trend |
| Trends.OffsetIsInvisible | internal/recommender/recommender.go:156-169 | a constant offset leaves the trend unchanged |
| Trends.GrowthShows | internal/recommender/recommender.go:156-169 | growth of at least g per sample gives a trend of at least g times the distance between the thirds |
| Trends.TrendIsDefinedExactlyWhen | internal/recommender/recommender.go:156-169 | there is a trend exactly when the window has six samples and its first and last thirds are measured |
| Trends.TrendIsTrendOf | internal/recommender/recommender.go:162-168 | whenever there is a trend it is that of the window's values, whatever the middle third is |
| Trends.ShortHistoryHasTrend | internal/recommender/recommender.go:156-169 | a history that spans less than three sustain windows is used whole, so it has a trend exactly when it has six samples with measured outer thirds |
| Trends.TrendLooksBackThreeWindows | internal/recommender/recommender.go:144-158 | the trend is that of the samples within three sustain windows of the last one, and the one before those |
| Trends.DrainingNeverShowsGrowth | internal/recommender/recommender.go:153-155 | a non-increasing series has no positive trend |
| Rules.DrainingQueueIsNotGrowing | internal/recommender/rules.go:214-225 | IFA-CAP-003 does not fire on a queue whose measured depths never rise |
| Rules.GapsAndShortRetentionDoNotHideGrowth | internal/recommender/rules.go:214-225 | six samples with an unmeasured middle, spanning no more than one sustain window, make IFA-CAP-003 fire |
| Rules.QueueRulesAreExclusive | internal/recommender/thresholds.go:132-137 | under validated thresholds the idle-GPU and saturated-GPU rules never both fire |
| Rules.SlowFirstTokenHasOneCause | internal/recommender/rules.go:364-448 | a slow first token with a known queue share fires exactly one of the two TTFT rules; blaming prefill means queueing is less than the whole |
| Rules.InformationMonotone | internal/recommender/rules.go:124-863 | erasing measurements anywhere in the window never makes any of the nineteen rules fire that did not |
| Rules.UnmeasuredFiresOnlyObservability | internal/telemetry/metric.go:54-64 | a wholly unmeasured workload can fire only the two observability rules |
| Catalogue.SustainedRuleFiresExactlyWhen | docs/RECOMMENDATIONS.md:49-262 | seven rules fire exactly when their documented comparisons held, strictly, in every sample of the sustain window and the history covers it |
| Catalogue.ReplicaCeilingFiresExactlyWhen | docs/RECOMMENDATIONS.md:265-269 | IFA-SCL-001 fires exactly when the replicas are at the ceiling now and the queue was over its limit throughout |
| Catalogue.LatestRuleFiresExactlyWhen | internal/recommender/rules.go:297-302 | IFA-KV-001 and IFA-EFF-002 fire exactly when their documented comparisons hold now |
| Catalogue.GrowingQueueFiresExactlyWhen | docs/RECOMMENDATIONS.md:78-91 | IFA-CAP-003 fires exactly when the queue is over its limit and its trend is more than one request |
| Catalogue.DeferredQueueFiresExactlyWhen | docs/RECOMMENDATIONS.md:92-97 | IFA-CAP-004 fires exactly when more is deferred than waits for capacity and the total is over the limit |
| Catalogue.FirstTokenRulesFireExactlyWhen | docs/RECOMMENDATIONS.md:140-166 | IFA-LAT-001 and IFA-LAT-002 fire exactly when the first token is late and at least, or less than, the configured percentage of it is queueing |
| Catalogue.TailGapFiresExactlyWhen | docs/RECOMMENDATIONS.md:178-182 | IFA-LAT-004 fires exactly when p99 is more than the configured multiple of p95 |
| Catalogue.PrefixCacheFiresExactlyWhen | internal/recommender/rules.go:535-548 | IFA-EFF-001 fires exactly when at least 50 prompt tokens a second are measured and the hit rate is under its limit |
| Catalogue.UnreadyReplicasFireExactlyWhen | docs/RECOMMENDATIONS.md:276-281 | IFA-SCL-002 fires exactly when a replica or more is not ready and the queue is over its limit |
| Catalogue.ObservabilityRulesFireExactlyWhen | docs/RECOMMENDATIONS.md:290-309 | IFA-OBS-001 and IFA-OBS-002 fire exactly when an expected metric is missing and when the last scrape is too long ago |
| Catalogue.RulesReadNothingElse | internal/recommender/rules.go:124-883 | each of the nineteen rules decides by the readings and limits of its catalogue entry alone: changing any others, anywhere in the window, changes nothing |
| Catalogue.ValidExactlyWhen | internal/recommender/thresholds.go:125-171 | what validation accepts: the idle band below the saturated one, and every limit in its range |
| Catalogue.SteadyBreachIsReported | docs/RECOMMENDATIONS.md:24-31 | measured over its limits throughout a history that covers the sustain window, a sustained rule is reported or suppressed by one that fired as well |
| Catalogue.OneQuietSampleSilences | docs/RECOMMENDATIONS.md:19-27 | one recent sample at a limit, on its other side or unmeasured keeps a sustained rule from firing |
| Catalogue.SuppressionIsDocumented | docs/RECOMMENDATIONS.md:36-46 | the rules suppress each other along the documented graph and no further |
| Catalogue.SeverityIsDocumented | docs/RECOMMENDATIONS.md:49-309 | every rule has its documented severity |
| Catalogue.RuntimesAreDocumented | docs/RECOMMENDATIONS.md:92-198 | IFA-CAP-004 and IFA-EFF-001 are evaluated for vLLM only, every other rule for every runtime |
| Engine.EveryRuleIsEvaluated | internal/recommender/rules.go:98-120 | every one of the nineteen rules that applies to the runtime and holds is among the fired ones, and nothing else is |
| Engine.AnalyzeWorkload | internal/recommender/recommender.go:241-293 | reports exactly the fired findings no fired rule supersedes; every rule that fired is reported or superseded; the most severe come first and equals in dictionary order of their codes; each names its rule, the workload and the reading |
| Engine.ReportIsUnique | internal/recommender/recommender.go:279-292 | the report does not depend on the order the map of findings is walked in |
| KeyOrder.StringLessIsDictionaryOrder | internal/recommender/recommender.go:286-291 | strings are compared as in a dictionary: by the first character they differ in, and a beginning comes first |
| Engine.SuppressedIsExplained | internal/recommender/rules.go:98-120 | every suppressed finding has a surviving one that transitively supersedes it |
| Engine.SilentOnlyWhenNothingFired | internal/recommender/recommender.go:274-285 | the report is empty if and only if nothing fired |
| Engine.IdsAreDistinct | internal/recommender/recommender.go:307-312 | an ID determines the rule and the workload |
| Engine.Analyze | internal/recommender/recommender.go:221-239 | concatenates the workloads' reports in key order; when no two workloads share a key no two findings share an ID |
| KeyOrder.KeyOrderIsCanonical | internal/recommender/recommender.go:225-226 | the key order does not depend on the order the workloads came in |
| Rates.RateTracker.Rate | internal/collector/rate.go:39-60 | reports the rate since the last observation of this counter and re-baselines it alone |
| Rates.UnmeasuredExactlyWhen | internal/collector/rate.go:46-59 | an interval is unmeasured exactly on first sight, a reset, or a clock that did not advance, whatever other counters were scraped |
| Rates.OthersDoNotInterfere | internal/collector/rate.go:43-45 | the tracker remembers the last observation of each counter, whatever else was scraped |
| Rates.RatesAreNonNegative | internal/collector/rate.go:55-59 | a measured rate is never negative |
| Rates.RatesCoverMeasuredIncrease | internal/collector/rate.go:43-59 | over any run of the tracker, other counters interleaved, the rates it reports for a counter times the elapsed time add up to the increase over the measured intervals |
| Rates.RatesTelescope | internal/collector/rate.go:49-59 | without resets and with an advancing clock they add up to last minus first |
| Ratios.ApplyRates | internal/collector/collector.go:400-441 | looks each counter the scrape has up once and re-baselines those alone; over every run of scrapes each rate it derives is the growth of its counter per second, each share that of its counters' growths |
| Ratios.TrackedIsLastSeen | internal/collector/collector.go:401-407 | over any run of scrapes of any targets a counter's baseline is its value in the last scrape of its target that had it |
| Ratios.IntervalsCoincideExactlyWhen | internal/collector/collector.go:424-426 | with an advancing clock two counters are measured over the same interval exactly when the last scrape that had either had both |
| Ratios.ShareIsPercentageExactlyWhen | internal/collector/collector.go:432-440 | the abort and cache-hit shares are never negative; each is at most 100 exactly when the part's rate is at most the whole's, over one interval exactly when the part grew by no more than the whole |
| Ratios.GapInflatesAbortShare | internal/collector/collector.go:432-434 | three scrapes of which the second lacks the abort counter report an abort rate of 950 percent |
| Ratios.ErrorRateIsPercentage | internal/collector/collector.go:427-431 | the error rate lies in 0 to 100 in every run, whatever the two intervals are |
| Ratios.ErrorRateIsOfGrowths | internal/collector/collector.go:427-431 | there is an error rate exactly when both counters were measured and one grew; it is 0 exactly when nothing failed and 100 exactly when nothing finished; over one interval it is the percentage failures are of both growths |
| Ratios.ErrorRateRises | internal/collector/collector.go:428-429 | more failures against the same completions are a strictly higher error rate |
| Ratios.DerivedSharesAreOfGrowths | internal/collector/collector.go:432-440 | the abort rate is of aborts over finished requests and the hit rate of hits over queries: 0 exactly when the part did not grow, and over one interval the percentage of the growths |
| Ratios.DerivedRatesAreGrowth | internal/collector/collector.go:409-422 | which counter's growth per second each reported rate is, and that it is absent exactly when that was not measured |
| ScrapeAll.ScrapesAreBounded | internal/collector/collector.go:309-328 | in every interleaving at most Concurrency scrapes are in flight, the started targets are a prefix, and after returning every started scrape has finished, all of them unless cancelled |
| ScrapeAll.NeverStuck | internal/collector/collector.go:309-328 | no reachable state deadlocks, with at least one slot (collector.go:216 ensures it) |
| ScrapeAll.AllSlotsCanBeUsed | internal/collector/collector.go:309-320 | as many scrapes can be in flight at once as there are slots and targets |
| ScrapeAll.ScrapeAllReturns | internal/collector/collector.go:308-328 | every run has at most 5 steps per target and 4 more, and a run that cannot continue has returned |
| DemoEngine.EngineState.CompleteRequests | internal/demo/server.go:121-134 | advances the counters and carries both remainders |
| DemoEngine.RemaindersCarryEverything | internal/demo/server.go:101-134 | counters plus remainders equal the work asked for, and both remainders stay in [0, 1) |
| DemoEngine.TickIntervalDoesNotMatter | internal/demo/server.go:115-134 | at constant rate and share the counters are the floors of the totals, however time is cut into ticks |

## Left out

- HTTP, TLS, JSON, logging and URL redaction: one delivery attempt is delivered, retryable or permanent.
- Wall-clock backoff and timeouts: only the order and number of attempts is kept.
- Rounding of float64: numbers are exact reals.
- Buckets.FamilyQuantile: requires that no selected sample is infinite and that no `le` label is -Inf, because arithmetic on infinities is not modelled; NaN samples and boundaries are skipped as in the program.
- Buckets.Merge: like Buckets.MergingIsDeterministic and Buckets.MergedIsCumulative, requires that no selected sample is infinite, for the same reason.
- Buckets.PercentilesAreOrdered: requires what Buckets.FamilyQuantile requires.
- Histogram.Histogram.Observe: does not take +Inf, for the same reason.
- AlertSender.Sender.Close: what a concurrent Notify does while this object waits is its offers to the queue, of any payloads and any finite number; its changes to the open alerts are the steps of AlertProtocol.
- Registry.RegistryPageIsRead: help texts and number printing are parameters; the page may list targets in any order; the methods that count scrapes are not modelled.
- Exposition.PageIsRead: a label name must be non-empty, trimmed, and free of '=', '}', newline and a leading comma, as every name the program prints is; label values are unrestricted.
- Pipeline.ScrapedQuantileIsAccurate: label values are escaped as in the metrics registry, while the simulated server quotes its model name with Go's %q; number printing is a parameter assumed to be read back exactly for boundaries and counts.
- The 1 MiB line limit of the scanner and reader errors.
- TYPE declarations, SummaryQuantile, Names, and the one-line aggregates Sum and Max, which depend on the parsed samples only.
- The vLLM, Triton and DCGM adapters beyond the percentile calls: they map names to fields.
- TelemetryStore.Store.Add: the compaction of the backing array and the call to the sink are not modelled.
- The store's All, Size and Workloads, which list what the map holds.
- Explanations, actions and evidence of findings; the snapshot fields no rule triggers on.
- ScrapeAll.ScrapesAreBounded: the goroutines are steps of a transition system on values rather than an object, since Dafny has no goroutines to run them.
- rateTracker.forget, which nothing calls.
- Kubernetes, PostgreSQL, YAML, environment, signals, CLI output, packaging.
