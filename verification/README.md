# Stock watch in Dafny

A Dafny model of the stateful guarantees of a stock news pipeline and a quote
watcher, and proofs about it. `dafny verify dfyconfig.toml` checks the whole
project.

The files follow the program's components:

- **Burst** - the per-ticker burst suppressor, against a log of all accepted
  pushes.
- **Hashing**, **Dedup** - title fingerprints stored as signed integers, and
  registration of articles, alone and interleaved across sources.
- **Watchlist**, **Matcher**, **RulesEngine**, **Ordering** - configuration
  checks, compilation to patterns and indexes, and a verdict that means what
  the configuration says.
- **Importance** - scoring on top of a verdict, and links that can never fire.
- **NewsProcessing** - from a pending article to one terminal status, one
  record, and one push or digest entry.
- **Growth** - what growing the configuration does to an article's fate.
- **Digest**, **DigestInterleaving** - the digest buffer and its jobs.
- **CostCeiling**, **LlmRows** - the daily LLM spending ceiling, and what it
  means for the articles of a batch.
- **AlertRules**, **Cooldown**, **AlertEngine**, **CooldownInterleaving** -
  alert rules, the cooldown gate, the engine of one loop, and two loops sharing
  the table while rules are swapped.
- **Rsi**, **Macd**, **Crossings** - technical indicators and the replay.
- **Kline** - the daily bar store.
- **Common** - sequences and options.

Classes hold the state that the program updates in place; their methods are
proved against functions and predicates on plain values, and the theorems are
about those. Four protocols (cooldown, deduplication, digest, and, for
midnight, the cost ceiling) are modelled with a separate step or reading for
every await and clock reading of the program, in any order.

## What is assumed

- Clocks do not go back. Dates, wall-clock seconds and monotonic time are
  separate; each reading may be later than the one before.
- Floats are reals, so the indicator theorems say nothing about rounding.
- Tables are maps or sequences with their unique constraints; one transaction
  is one step, and a row id is a position.
- Expression evaluation is a parameter: a rule is true or false. So are the
  value read for a target, lower-casing, trimming and title fingerprints. Two
  lemmas about titles assume that lower-casing keeps trailing spaces
  (`Importance.KeepsTrailingSpaces`), and the one about title and body that it
  works piece by piece (`RulesEngine.LowersPiecewise`).
- The string-search library reports every occurrence of every stored word once.
- Model answers, the judge, fetches and channel lists are parameters.
- Nothing crashes between a write and its follow-up, and no exception occurs
  outside the LLM calls of a batch, a loop round (which may fail anywhere), or
  a digest run before its dispatch.
- A job does not overlap with itself (one instance per scheduled job).

## Where the code differs from what one might expect

- A unique conflict on insert is reported as a new article
  (`DedupInterleaving.RacesHappen`), exactly if another registration stored the
  URL after the look-up (`NewMeansOwnedOrRaced`); near titles registered at once
  are both stored, and nothing else lets two in (`NearRowsNeedAnOverlap`).
- `trigger_count_today` is never reset: it counts since the row was created
  (`CooldownInterleaving.CountsNeverDrift`), and is today's count exactly as long
  as nothing older is in it (`CountIsTodaysIff`).
- Links reach across markets: a keyword of either market fires a link, although
  validation compares within one market (`Importance.LinkCanFireIff`).
- In rules-only mode, growing the configuration can lose an article's record
  (`Growth.ExtensionCanDrop`): exactly if the gray-zone action is `skip` and the
  larger boost lifts the score from below the gray zone into it
  (`Growth.ExtensionDropsIff`). The verdict itself only grows
  (`Importance.ExtensionOnlyAdds`).
- An urgent article whose calls are all suppressed is not put into the digest
  instead: it reaches nobody (`NewsProcessing.NobodyHearsIff`). So growing the
  configuration can also silence an article that keeps its record
  (`Growth.GrowthCanSilence`): exactly if it is urgent then, and some ticker of
  every call is full (`Growth.GrowthSilencesIff`).
- The drop signal travels as the reason text, so a judge that answers that very
  text drops the article too (`NewsProcessing.JudgeDropsIff`).
- An urgent article for two markets counts twice against its tickers, so with
  a threshold of one and a ticker named, within the window of the first push
  the one to the second market is suppressed
  (`NewsProcessing.SecondMarketNeedsRoom`).
- The digest job consumes rows it does not show beyond the thirtieth
  (`DigestInterleaving.ShownIffLookedUp`), and the article of such a row is in
  no message at all (`DigestInterleaving.ThirtyFirstRowIsLost`).
- An article that meets the cost ceiling is a failed LLM call and becomes
  `dead`, not pending; so does every later one on that day that gets past the
  rules (`LlmRows.ClosedDayMeansDeath`).
- The distance of fingerprints looks at 64 bits only: it is zero exactly between
  numbers that agree modulo 2^64 (`Hashing.DistanceZeroIff`).
- Two cross-above signals need no cross-below between them: exactly if on no day
  between them the slow average was strictly over the fast one
  (`Crossings.AlternationIff`, and `TiesBreakAlternation` for a run).
- The warning of the cost tracker reads the date after the cost. It is right
  exactly if no midnight fell in between (`CostCeiling.WarningIsRightIff`);
  otherwise it can be issued for a day that has spent nothing
  (`WarningCanBeMisplaced`), and that day then gets no other
  (`NoSecondWarning`).
- On the first day with two averages a cross signal compares today's values
  only, so it may fire without a crossing (`Crossings.FirstSignalWithoutCrossing`):
  exactly if one of the averages is new that day (`Crossings.ProperIff`).
- A full K-line cache is never refreshed, and a failed fetch answers nothing
  even when part of the bars are cached (`Kline.DailyKlineCache.LoadOne`).
- The first bar of a fetch takes its own close for the previous one, so a refetch
  can spoil a stored bar (`Kline.RefetchCanBreak`); `Kline.ChainIff` says exactly
  between which dates the chain of closes survives a fetch.

## Model

| member | source | states |
|---|---|---|
| Burst.BurstSuppressor.constructor | src/shared/push/common/burst.py:7-10 | a fresh suppressor has an empty history and agrees with it |
| Burst.BurstSuppressor.ShouldSend | src/shared/push/common/burst.py:12-29 | the answer is what the full log of accepted calls dictates: every listed ticker has fewer than `threshold` logged entries from `now - window` on; the call joins the history either way |
| Burst.BurstSuppressor.ExpireAll | src/shared/push/common/burst.py:15-22 | after expiring, every bucket still counts the log from the cutoff on, and the vote is the log's |
| Burst.BurstSuppressor.Expire | src/shared/push/common/burst.py:17-21 | popping old entries leaves exactly the count of log entries from the cutoff on, and touches no other ticker |
| Burst.BurstSuppressor.Record | src/shared/push/common/burst.py:26-28 | an accepted call leaves one entry per mention, duplicates included, so buckets and extended log agree |
| Burst.AcceptedIs | src/shared/push/common/burst.py:12-29 | a call is answered yes, and logged, iff each ticker it lists has fewer than `threshold` entries from `now - window` on |
| Burst.LoggedIs | src/shared/push/common/burst.py:17-28 | a logged call counts with every mention of the ticker, from its own time on |
| Burst.WindowBound | src/shared/push/common/burst.py:12-29 | in any closed interval of window length at most `threshold` accepted calls name a ticker (none for a threshold of zero or less), whatever duplicates the lists hold |
| Burst.SuppressedCallsLeaveNoTrace | src/shared/push/common/burst.py:23-29 | deleting any of the suppressed calls from a run changes no remaining answer and no accepted call |
| Burst.BoundIsAttained | src/shared/push/common/burst.py:21-28 | the bound is sharp: `threshold` calls at one instant that name one ticker are all accepted |
| Hashing.SignedIsBijection | src/news_pipeline/common/hashing.py:11-24 | reinterpreting unsigned 64-bit values as signed is a bijection, undone by reduction modulo 2^64 |
| Hashing.HashesOfRun | src/news_pipeline/common/hashing.py:11-28 | in numbers: where the signed form wraps, and a distance of three |
| Hashing.SignedKeepsDistance | src/news_pipeline/common/hashing.py:18-28 | the distance of two stored values is the population count of the exclusive or of the unsigned fingerprints |
| Hashing.HammingCountsDifferences | src/news_pipeline/common/hashing.py:27-28 | the distance counts the differing positions among the 64 lowest, for negative values too |
| Hashing.DistanceZeroIff | src/news_pipeline/common/hashing.py:27-28 | for all integers: the distance is zero iff they agree modulo 2^64 |
| Hashing.HammingIsMetric | src/news_pipeline/common/hashing.py:27-28 | on the stored range: zero iff equal, symmetric, at most 64, triangle inequality |
| Hashing.UnmaskedValuesCollide | src/news_pipeline/common/hashing.py:11-28 | every value is at distance zero from its translates by multiples of 2^64, at most one of which lies in the stored range |
| Dedup.RawNewsDAO.FindByUrlHash | src/news_pipeline/storage/dao/raw_news.py:61-64 | finds a row with the hash iff there is one |
| Dedup.RawNewsDAO.Insert | src/news_pipeline/storage/dao/raw_news.py:16-55 | appends the row, or on a unique conflict changes nothing and hands back the stored row's id |
| Dedup.RawNewsDAO.ListRecentSimhashes | src/news_pipeline/storage/dao/raw_news.py:85-96 | exactly the rows fetched at or after the cutoff |
| Dedup.Dedup.CheckAndRegister | src/news_pipeline/dedup/dedup.py:21-40 | run alone, an article is stored iff no row has its URL and none of the last 24 hours has a title within the distance; a refusal names a row that justifies it |
| DedupInterleaving.AnswersAreJustified | src/news_pipeline/dedup/dedup.py:21-40 | with look-up, clock reading, scan, insert and conflict recovery interleaved at will, URL hashes stay unique and every answer names a row with the same URL or a near recent title |
| DedupInterleaving.NearRowsNeedAnOverlap | src/news_pipeline/dedup/dedup.py:25-40 | two near rows within the window only arise if the first was inserted after the second's registration had scanned |
| DedupInterleaving.NewMeansOwnedOrRaced | src/news_pipeline/storage/dao/raw_news.py:44-55 | a registration answered `new` names a row with its URL, and owns a row, that very one, iff no other registration stored the URL after its look-up |
| DedupInterleaving.RacesHappen | src/news_pipeline/storage/dao/raw_news.py:44-55 | the overlap is reachable: one URL reported new twice for one row, and two articles with one title both stored |
| DedupInterleaving.UndisturbedRegistration | src/news_pipeline/dedup/dedup.py:21-40 | the interleaved steps, run without interference from any state, do exactly what the routine does alone |
| Matcher.ReportedOnce | src/news_pipeline/rules/matcher.py:59-62 | the library contract: every occurrence of every stored word is reported once, with its end index |
| Matcher.MatchesExactly | src/news_pipeline/rules/matcher.py:53-75 | the match list holds every place where a pattern stands (alone if ASCII) once per copy of the pattern, and nothing else |
| Matcher.FitsIff | src/news_pipeline/rules/matcher.py:59-72 | a match gives start, last index and text of a place where its pattern stands |
| Matcher.StandsBetween | src/news_pipeline/rules/matcher.py:19-28 | an English pattern stands exactly between two characters, if any, that are no ASCII letters or digits; others stand anywhere |
| Matcher.AhoCorasickMatcher.Rebuild | src/news_pipeline/rules/matcher.py:41-51 | whatever was stored before, the automaton holds the groups of the new patterns' non-empty texts |
| Matcher.AhoCorasickMatcher.FindAll | src/news_pipeline/rules/matcher.py:53-75 | the result is the match list of the latest patterns on the lower-cased text, empty before any rebuild |
| Matcher.AhoCorasickMatcher.Accept | src/news_pipeline/rules/matcher.py:62-74 | of one report's patterns exactly those that pass the word-boundary rule become matches |
| Ordering.SortSet | src/news_pipeline/rules/engine.py:158-165 | the strictly sorted listing of a set |
| Ordering.LessIff | src/news_pipeline/rules/engine.py:158-165 | one string precedes another iff, after a common prefix, it ends or has the smaller code point |
| Ordering.SortedListingUnique | src/news_pipeline/rules/engine.py:158-165 | a set of strings has only one strictly sorted listing, so the verdict's lists are determined |
| Watchlist.AtLeastOneEnabled | src/news_pipeline/config/schema.py:157-164 | accepts iff rules or LLM are enabled |
| Watchlist.TickerUnique | src/news_pipeline/config/schema.py:166-173 | comparing list and set sizes accepts iff tickers are pairwise distinct within each market |
| Watchlist.SectorMacroRefsValid | src/news_pipeline/config/schema.py:189-209 | accepts iff every link of every entry names a keyword of its own market |
| Watchlist.AcceptedIs | src/news_pipeline/config/schema.py:157-209 | the three checks together, on the lists of each market |
| RulesEngine.Compile | src/news_pipeline/rules/engine.py:13-92 | the patterns of the whole configuration in order, and reverse indexes that map each linked keyword to exactly the tickers linking it |
| RulesEngine.CompileMarket | src/news_pipeline/rules/engine.py:25-90 | one market's pass extends patterns and both indexes |
| RulesEngine.AddLinks | src/news_pipeline/rules/engine.py:56-59 | one entry's links extend the index by exactly its ticker |
| RulesEngine.PatternsCompiled | src/news_pipeline/rules/engine.py:27-90 | every compiled pattern stems from a configured ticker, name, alias or keyword, and every one of those is compiled |
| RulesEngine.CollectedMeans | src/news_pipeline/rules/engine.py:144-156 | what the match loop collects equals the tickers, keywords, links and markets read off the configuration alone |
| RulesEngine.RulesEngine.constructor | src/news_pipeline/rules/engine.py:114-122 | an engine is built by its first rebuild |
| RulesEngine.RulesEngine.Rebuild | src/news_pipeline/rules/engine.py:124-128 | after any earlier rebuilds only the new configuration counts |
| RulesEngine.RulesEngine.Match | src/news_pipeline/rules/engine.py:130-167 | the verdict is the one defined on the last configuration, on the text made of title, two spaces and body: direct tickers by ticker, name or alias, related ones by hit links minus direct, all lists strictly sorted, markets and boost |
| RulesEngine.TitleAndBodyAreSearched | src/news_pipeline/rules/engine.py:131 | what stands in the title or in the body is mentioned by the article, and a form without spaces in no other case |
| RulesEngine.MentionedIff | src/news_pipeline/rules/matcher.py:53-75 | a form is mentioned iff the text is a part before, the lower-cased form and a part after, with a word boundary on both sides if it is ASCII |
| RulesEngine.DirectMeans | src/news_pipeline/rules/engine.py:144-158 | a ticker is direct iff an entry of either market has it and the ticker, the name or an alias is mentioned |
| RulesEngine.RelatedMeans | src/news_pipeline/rules/engine.py:149-160 | a ticker is related iff it is not direct and one of its sector or macro links equals, up to case, a mentioned keyword of that kind, of either market |
| RulesEngine.KeywordsMean | src/news_pipeline/rules/engine.py:149-164 | the keyword lists hold exactly the mentioned keywords of their kind, in lower case |
| RulesEngine.MarketsAndBoost | src/news_pipeline/rules/engine.py:95-103 | a market is hit by its own entries and keywords only, cn comes first, and the boost is 50, 20 and 15 for tickers, sectors and macros |
| RulesEngine.RulesEngine.Collect | src/news_pipeline/rules/engine.py:144-156 | the loop's sets and list are the images of the matched patterns |
| RulesEngine.RulesEngine.Assemble | src/news_pipeline/rules/engine.py:158-167 | the verdict lists the collected sets in order |
| Importance.Evaluate | src/news_pipeline/classifier/rules.py:18-41 | exactly the classifier rules that apply become hits, with their weights, each once and in the order of the checks |
| Importance.ScoreNews | src/news_pipeline/classifier/importance.py:28-90 | capped score, exactly the rule names that fire in the source's order and each once, criticality and reason in every zone, with and without the LLM judge |
| Importance.ScoreIs | src/news_pipeline/classifier/rules.py:18-41 | the score in numbers: 30 for the source, 40 for the sentiment, 20 or 25 for the event, plus the boost, capped at 100 |
| Importance.SynthEnriched | src/news_pipeline/scheduler/jobs.py:51-80 | a neutral, low, other record whose related tickers are the sorted union of direct and related, with the trimmed first 200 characters of the body, or else the title, as summary |
| Importance.SectorLinkIsLive | src/news_pipeline/config/schema.py:189-200 | in an accepted configuration a mentioned sector keyword always brings the linking entry's ticker and market into the verdict |
| Importance.MacroLinkIsLive | src/news_pipeline/config/schema.py:189-209 | the same for macro links |
| Importance.LinkCanFireIff | src/news_pipeline/rules/engine.py:56-59 | exactly when some article makes a link fire, in any configuration: it is not empty and equals some keyword of either market up to case |
| Importance.ExtensionOnlyAdds | src/news_pipeline/rules/engine.py:144-167 | growing the configuration loses no ticker, market, sector, macro or generic hit and never lowers the boost |
| Importance.ExtensionKeepsCritical | src/news_pipeline/classifier/importance.py:39-80 | in rules-only mode a grown configuration never lowers the score and never makes a critical article non-critical |
| AlertRules.CheckUniqueIds | src/quote_watcher/alerts/rule.py:61-68 | accepts iff no two rules share an id |
| AlertRules.Probes | src/quote_watcher/alerts/engine.py:58-61 | a section evaluates exactly the rules that select it, for the target their cooldown is kept for |
| AlertRules.TickerProbesAre | src/quote_watcher/alerts/engine.py:57-113 | what the four passes for a ticker evaluate, on the rules' fields: a composite rule names the ticker as its holding, the others as their ticker |
| AlertRules.OtherProbesAre | src/quote_watcher/alerts/engine.py:127-179 | what the passes for portfolio and sectors evaluate, and under which key |
| AlertRules.ProbesConcat | src/quote_watcher/alerts/engine.py:58-61 | a pass goes through the rules in order |
| AlertRules.KeySpacesDisjoint | src/quote_watcher/alerts/engine.py:127-179 | ticker codes, `_portfolio` and `_sector:` keys never meet, and distinct sectors have distinct keys |
| AlertEngine.AlertStateDAO.Fetch | src/quote_watcher/storage/dao/alert_state.py:14-22 | the row of the key, if any |
| AlertEngine.AlertStateDAO.Upsert | src/quote_watcher/storage/dao/alert_state.py:24-52 | creates the row with count one or overwrites time and value and adds one; no other row changes |
| AlertEngine.AlertStateDAO.Bump | src/quote_watcher/storage/dao/alert_state.py:54-66 | adds one to an existing row's count and does nothing else |
| AlertEngine.StateTracker.IsInCooldown | src/quote_watcher/state/tracker.py:20-26 | true iff a row exists and the reading lies less than the cooldown after it |
| AlertEngine.StateTracker.MarkTriggered | src/quote_watcher/state/tracker.py:28-34 | records the firing; the stored rows stay exactly what the history leaves |
| AlertEngine.StateTracker.BumpCount | src/quote_watcher/state/tracker.py:36-37 | records a silenced evaluation on a row that exists |
| AlertEngine.AlertEngine.UpdateRules | src/quote_watcher/alerts/engine.py:224-226 | swaps the rule list |
| AlertEngine.AlertEngine.RunOne | src/quote_watcher/alerts/engine.py:213-221 | a true rule leaves one event: fired with the value, or silenced |
| AlertEngine.AlertEngine.RunRules | src/quote_watcher/alerts/engine.py:203-222 | one event per true rule in order, fired with the value read or silenced, none for a false rule; the verdicts are the firings |
| AlertEngine.AlertEngine.EvaluateForSnapshot | src/quote_watcher/alerts/engine.py:46-125 | the four sections together: exactly the true probes of the snapshot are recorded, with the value read; the verdicts are the firings, for this ticker only, and with unique ids no rule is reported twice |
| AlertEngine.AlertEngine.EvaluatePortfolio | src/quote_watcher/alerts/engine.py:127-154 | portfolio rules, and nothing without a snapshot |
| AlertEngine.AlertEngine.EvaluateSector | src/quote_watcher/alerts/engine.py:156-187 | sector rules whose sector was delivered |
| AlertEngine.AlertEngine.SnapshotProbesOnce | src/quote_watcher/alerts/engine.py:57-125 | with unique ids no rule is evaluated twice for a snapshot |
| AlertEngine.AlertEngine.SnapshotProbesAre | src/quote_watcher/alerts/engine.py:57-125 | a rule is evaluated for a snapshot iff it is a threshold rule, an indicator rule with a cache, a ticker event, or a composite rule of a held ticker, and its ticker, or its holding, is the snapshot's |
| AlertEngine.AlertEngine.EventsOfSnapshot | src/quote_watcher/alerts/engine.py:57-125 | every such rule that is true, holding rules included, leaves an event under its id and cooldown; nothing else leaves one; with unique ids each leaves one only |
| AlertEngine.AlertEngine.VerdictsOfSnapshot | src/quote_watcher/alerts/engine.py:57-125 | whatever events record the true probes of a snapshot, with unique ids no verdict appears twice, and all are for its ticker |
| AlertEngine.Package | src/quote_watcher/scheduler/jobs.py:60-68 | no message without verdicts, a single one for one, a burst for more, carrying exactly them |
| AlertEngine.EvaluateAlerts | src/quote_watcher/scheduler/jobs.py:44-69 | over all snapshots one event per true rule, with the value read; the messages carry exactly the firings, each once and in order, and each message holds the verdicts of one snapshot, in the snapshots' order |
| AlertEngine.EvaluateSectorAlerts | src/quote_watcher/scheduler/jobs.py:101-123 | each sector firing goes out in one message of its own; nothing happens without channels, market hours or data |
| Cooldown.FiringsAreSpaced | src/quote_watcher/state/tracker.py:20-34 | in a history an atomic gate allows, two firings of a key are at least 60 times the later rule's cooldown apart, counting the row found at start |
| Cooldown.SilenceHasCause | src/quote_watcher/state/tracker.py:20-37 | an evaluation is silenced only within the cooldown of a firing |
| Cooldown.CountsAreEvents | src/quote_watcher/storage/dao/alert_state.py:24-66 | a row's count is the number of events of its key since the row was created |
| CooldownInterleaving.InterleavingsAreAtomic | src/quote_watcher/main.py:52-117 | ticker loop, sector loop and rule swaps cut at every await behave like one atomic gate per key: no update is lost |
| CooldownInterleaving.FiringsKeepTheirDistance | src/quote_watcher/main.py:52-117 | in every interleaving two firings of one rule and target keep the later rule's cooldown, across restarts too |
| CooldownInterleaving.SilencesHaveACause | src/quote_watcher/alerts/engine.py:203-222 | in every interleaving a true rule is silenced only within the cooldown of a firing |
| CooldownInterleaving.CountsNeverDrift | src/quote_watcher/storage/dao/alert_state.py:24-66 | in every interleaving each stored count equals the events of its key |
| CooldownInterleaving.CountIsTodaysIff | src/quote_watcher/storage/dao/alert_state.py:24-66 | in every interleaving the stored count is that of the events since a given midnight iff the row counted none at the start and no event of its key is older |
| CooldownInterleaving.WritesTakeEffect | src/quote_watcher/storage/dao/alert_state.py:32-66 | a bump never meets a missing row and an insert never a row that appeared meanwhile |
| CooldownInterleaving.UndisturbedFiring | src/quote_watcher/alerts/engine.py:213-221 | a true rule at least its cooldown after the stored time fires: the row takes time and value and counts one more |
| CooldownInterleaving.UndisturbedSilence | src/quote_watcher/alerts/engine.py:213-218 | a true rule within its cooldown of the stored time is silenced: the row only counts one more |
| CooldownInterleaving.UndisturbedPass | src/quote_watcher/alerts/engine.py:203-222 | a pass of one loop without interference records what the engine records: one event per true rule, in order |
| Rsi.ComputeRsi | src/quote_watcher/alerts/indicator.py:45-65 | the loops compute Wilder's index, undefined without n + 1 closes; index times (gain + loss) is 100 times the gain, and 100 without losses |
| Rsi.Steps | src/quote_watcher/alerts/indicator.py:49-54 | the two lists of positive parts of the differences |
| Rsi.Smooth | src/quote_watcher/alerts/indicator.py:55-61 | mean of the first n, then Wilder smoothing |
| Rsi.StepsAre | src/quote_watcher/alerts/indicator.py:49-54 | the i-th gain and loss are the rise and the fall from close i to the next |
| Rsi.WilderIsMean | src/quote_watcher/alerts/indicator.py:55-57 | n times the first average is the sum of the first n values |
| Rsi.WilderSteps | src/quote_watcher/alerts/indicator.py:58-61 | n times the next average is n - 1 times the one before plus the value |
| Rsi.RsiOfRun | src/quote_watcher/alerts/indicator.py:45-65 | closes 10, 11, 10, 12 with n = 2 give 83 1/3 |
| Rsi.RsiInRange | src/quote_watcher/alerts/indicator.py:45-65 | defined iff 0 < n < number of closes, and always within [0, 100] |
| Rsi.RsiExtremes | src/quote_watcher/alerts/indicator.py:45-65 | for n of 2 or more: 100 iff no close falls, 0 iff none rises and some falls, over the whole history |
| Rsi.RsiOfOne | src/quote_watcher/alerts/indicator.py:55-65 | for n = 1 only the last step counts |
| Rsi.RsiIgnoresPositiveAffine | src/quote_watcher/alerts/indicator.py:45-65 | invariant under closes -> a * close + b with a > 0 |
| Rsi.RsiMirrors | src/quote_watcher/alerts/indicator.py:45-65 | the index and its mirror image add up to 100, or to 200 when the closes are flat: none of them moves, or for n = 1 the last step does not |
| Macd.ComputeEmaSeries | src/quote_watcher/alerts/indicator.py:75-83 | the loop computes the average of every prefix |
| Macd.ComputeMacd | src/quote_watcher/alerts/indicator.py:86-102 | last difference of the two averages, the average of the differences, and twice what lies between; undefined below slow + signal closes |
| Macd.EmaMoves | src/quote_watcher/alerts/indicator.py:79-82 | a further value moves the average by 2 / (n + 1) of its distance from it |
| Macd.DifferencesAre | src/quote_watcher/alerts/indicator.py:96-98 | the i-th difference is that of the two averages of the first i + 1 closes |
| Macd.MacdOfRun | src/quote_watcher/alerts/indicator.py:86-102 | closes 10, 10, 10, 13 with spans 1, 2, 2 give 1, 2/3 and 2/3 |
| Macd.EmaWithinRange | src/quote_watcher/alerts/indicator.py:75-83 | the average stays within the range of the values seen |
| Macd.EmaIsAffine | src/quote_watcher/alerts/indicator.py:75-83 | the average commutes with every affine map |
| Macd.SlowerLags | src/quote_watcher/alerts/indicator.py:75-97 | for rising closes the slower average lies strictly below the faster one from the second close on, and the faster is at most the price |
| Macd.DeaPositive | src/quote_watcher/alerts/indicator.py:97-100 | for rising closes the signal line is positive from the second close on |
| Macd.MacdScales | src/quote_watcher/alerts/indicator.py:86-102 | under closes -> a * close + b all three values scale by a and ignore b, for every real a |
| Macd.MacdFollowsTrend | src/quote_watcher/alerts/indicator.py:86-102 | dif and dea are positive for strictly rising closes and negative for strictly falling ones |
| Crossings.YesterdayIsThePreviousDay | src/quote_watcher/alerts/context.py:123-130 | along a replay each day's yesterday average is the previous day's average |
| Crossings.MaIs | src/quote_watcher/alerts/indicator.py:11-16 | n times the moving average is the sum of the last n closes, and it needs n of them |
| Crossings.SignalsAre | src/quote_watcher/alerts/context.py:143-162 | the signals in terms of the averages of today and yesterday, ties included |
| Crossings.SignalsAreChanges | src/quote_watcher/alerts/context.py:143-162 | a cross signal is a change into `over`; on the first day with both averages any `over` counts |
| Crossings.CrossingExists | src/quote_watcher/alerts/indicator.py:19-30 | a stretch from not over to over contains a cross-above day |
| Crossings.CrossesAlternate | src/quote_watcher/alerts/indicator.py:19-30 | where the averages never tie, between two crosses of one kind lies one of the other |
| Crossings.AlternationIff | src/quote_watcher/alerts/indicator.py:19-30 | between two cross-above signals lies a cross-below signal iff on some day strictly between the second average is strictly over the first |
| Crossings.AlternationBelowIff | src/quote_watcher/alerts/indicator.py:19-30 | the same for two cross-below signals |
| Crossings.TiesBreakAlternation | src/quote_watcher/alerts/indicator.py:19-30 | a run of 13 closes with two proper crossings of the 5-day above the 10-day average, a tie and no signal between |
| Crossings.ProperIff | src/quote_watcher/alerts/context.py:143-162 | a cross signal of either kind is a crossing iff both averages existed the day before, that is, both windows are at most the day's index |
| Crossings.FirstSignalWithoutCrossing | src/quote_watcher/alerts/context.py:143-152 | a run of 10 closes whose first cross-above of the 5-day over the 10-day average is no crossing |
| Crossings.Replay | src/quote_watcher/tools/preview_rules.py:116-133 | each rule is evaluated once on every bar within the dates, on the closes before it and the bar itself; what fires is listed once per rule and day, and the counter is days times rules |
| Crossings.DaysAre | src/quote_watcher/tools/preview_rules.py:116-118 | the days counted are the bars whose date lies within the dates, both ends included |
| Crossings.Preview | src/quote_watcher/tools/preview_rules.py:98-133 | over all tickers: each ticker's own rules on its own bars, every firing listed once, and the number of evaluations |
| NewsProcessing.ListPending | src/news_pipeline/storage/dao/raw_news.py:66-74 | the oldest pending rows, up to the limit, each once and in order of publication |
| NewsProcessing.OldestIs | src/news_pipeline/storage/dao/raw_news.py:66-74 | a listing holds pending rows only, each once, in order of publication, and none later than a pending row it leaves out |
| NewsProcessing.Pipeline.MarkStatus | src/news_pipeline/storage/dao/raw_news.py:76-83 | sets the status of an existing row and ignores an unknown id |
| NewsProcessing.PlansFor | src/news_pipeline/router/routes.py:23-36 | one plan for each target market that has channels |
| NewsProcessing.PlansConcat | src/news_pipeline/router/routes.py:23-36 | the plans come in the order of the targets |
| NewsProcessing.Pipeline.Gate | src/news_pipeline/scheduler/jobs.py:241-247 | the verdict says what the configuration says about match, boost, markets and tickers |
| NewsProcessing.Pipeline.Enrich | src/news_pipeline/scheduler/jobs.py:249-268 | the LLM's record or the synthesised one; a failure marks the row dead, a refusal skipped |
| NewsProcessing.Pipeline.Assess | src/news_pipeline/scheduler/jobs.py:241-280 | a row that leaves no record gets its terminal status; otherwise score, markets and tickers are the configured ones |
| NewsProcessing.Pipeline.AddRecord | src/news_pipeline/scheduler/jobs.py:282-297 | one new record, one status change, and the tables stay consistent |
| NewsProcessing.Pipeline.PushOne | src/news_pipeline/scheduler/jobs.py:312-326 | the push goes out iff the suppressor's log rule accepts it |
| NewsProcessing.Pipeline.PushAll | src/news_pipeline/scheduler/jobs.py:312-326 | every urgent plan asks the suppressor once, in order; the pushes are the accepted plans |
| NewsProcessing.Pipeline.FileDigest | src/news_pipeline/scheduler/jobs.py:327-333 | one digest row for a non-critical record |
| NewsProcessing.Pipeline.Deliver | src/news_pipeline/scheduler/jobs.py:299-333 | urgent: one suppressor call per plan, each decided on the log with the delivery's earlier calls, and pushes for the accepted plans; otherwise, with a channel, one digest row for the home market and its half of the day |
| NewsProcessing.FiledIsTimely | src/news_pipeline/scheduler/jobs.py:90-100 | a digest row is filed iff the item is not urgent and a target market has a channel; it names the home market, the morning before noon there and the evening from then on |
| NewsProcessing.BatchFilesTimely | src/news_pipeline/scheduler/jobs.py:327-333 | the same for every digest row that a batch files |
| NewsProcessing.Pipeline.ProcessOne | src/news_pipeline/scheduler/jobs.py:235-335 | one row: terminal status, record, and a delivery to the markets and with the tickers that the configuration dictates |
| NewsProcessing.StatusIs | src/news_pipeline/scheduler/jobs.py:241-280 | when a row ends with which status, from rules, LLM answer and score |
| NewsProcessing.ScoredFateIs | src/news_pipeline/scheduler/jobs.py:270-297 | the score of a scored row, when the gray zone drops it, and when it is urgent |
| NewsProcessing.TargetsAre | src/news_pipeline/router/routes.py:23-26 | the target markets are the verdict's, or the row's own without the rules |
| NewsProcessing.Pipeline.ProcessPending | src/news_pipeline/scheduler/jobs.py:233-336 | exactly the oldest min(batch, pending) rows get their terminal status, no other row moves, rows arriving meanwhile stay pending, the result is the number of new records, and each of these has been delivered in turn, with nothing else filed, pushed or asked |
| NewsProcessing.AllRefusedIff | src/shared/push/common/burst.py:12-29 | a stretch of calls is refused as a whole iff each of its calls is refused on the log the stretch found |
| NewsProcessing.NobodyHearsIff | src/news_pipeline/scheduler/jobs.py:312-333 | a delivery leaves neither digest row nor push iff no target market has a channel, or the article is urgent and the log is full for a ticker of every call |
| NewsProcessing.RecordIsUnheardIff | src/news_pipeline/scheduler/jobs.py:312-333 | the same for every record of a batch and the tables as they stand after the batch |
| NewsProcessing.JudgeDropsIff | src/news_pipeline/scheduler/jobs.py:270-280 | with the LLM, an article is dropped from the gray zone iff the judge's reason is the signal's text, even if it calls the article critical |
| NewsProcessing.PushedOrDigested | src/news_pipeline/scheduler/jobs.py:312-333 | an article is pushed or put into the digest, never both; once in the digest, once per market as a push; an unprocessed row is in neither |
| NewsProcessing.Pipeline.PushesPerTicker | src/news_pipeline/scheduler/jobs.py:312-317 | at any time, in any window-long interval, at most `threshold` immediate pushes have named a ticker |
| NewsProcessing.TwoAnswers | src/news_pipeline/scheduler/jobs.py:312-316 | of two calls, the second is decided on a log that holds the first if that was accepted |
| NewsProcessing.SecondMarketNeedsRoom | src/news_pipeline/scheduler/jobs.py:312-316 | of the two answers that a delivery to two markets gets, within the window of a first acceptance the second accepts iff every ticker has room for both, so never with a threshold of one |
| Growth.GrowthKeepsMatch | src/news_pipeline/rules/engine.py:144-167 | under a grown configuration an article that matched still matches, and scores no less |
| Growth.ExtensionDropsIff | src/news_pipeline/classifier/importance.py:60-80 | growing the configuration loses a record iff the action is `skip` and the score moves from below the gray zone into it |
| Growth.ExtensionKeepsCriticalRecord | src/news_pipeline/classifier/importance.py:39-80 | growing the configuration never loses a critical record nor lowers its score |
| Growth.GrowthSilencesIff | src/news_pipeline/scheduler/jobs.py:312-333 | delivered from the same log, an article that reached somebody reaches nobody under a grown configuration iff it is urgent then and the log is full for a ticker of every call it makes |
| Growth.ExtensionCanDrop | src/news_pipeline/classifier/importance.py:67-80 | an article titled "x" is recorded under one generic keyword and dropped once a ticker entry is added |
| Growth.GrowthCanSilence | src/news_pipeline/scheduler/jobs.py:312-333 | a digest entry is lost when a ticker entry makes the article urgent and that ticker is full; an urgent push is lost when a second entry adds a full ticker |
| Digest.ChosenKeyIsServed | src/news_pipeline/main.py:303-319 | every key chosen when an item is filed names a registered cron job, and that job serves the item's market |
| Digest.KeyNameSaysWhen | src/news_pipeline/scheduler/jobs.py:90-100 | the name of the chosen key: morning before noon, evening from then on, and the market |
| Digest.DigestBufferDAO.Enqueue | src/news_pipeline/storage/dao/digest_buffer.py:14-26 | appends a pending row |
| Digest.DigestBufferDAO.ListPending | src/news_pipeline/storage/dao/digest_buffer.py:28-38 | exactly the key's pending rows, in order of addition |
| Digest.DigestBufferDAO.MarkConsumed | src/news_pipeline/storage/dao/digest_buffer.py:40-46 | stamps exactly the listed rows that exist |
| Digest.ConsumingAListing | src/news_pipeline/storage/dao/digest_buffer.py:28-46 | consuming a listing leaves nothing pending for its key, nor touches other keys or later rows |
| Digest.ShownOncePerRow | src/news_pipeline/scheduler/jobs.py:352-356 | each listed row with a record is shown once, and nothing else |
| Digest.ShownConcat | src/news_pipeline/scheduler/jobs.py:352-356 | the shown items come in the order of the listing |
| Digest.AllShownIff | src/news_pipeline/scheduler/jobs.py:352-356 | the whole listing is shown iff every row has a record |
| Digest.SendDigest | src/news_pipeline/scheduler/jobs.py:339-364 | sends every listed row that has a record and consumes the listing |
| Digest.RunDigestJob | src/news_pipeline/main.py:427-465 | shows the first thirty of the listing and consumes all of it: with all records present everything is shown iff the listing has at most thirty rows |
| DigestInterleaving.RowsAreUsedOnce | src/news_pipeline/main.py:427-465 | with enqueues and runs interleaved at every await, the finished listings partition the consumed rows and no row is used for two messages |
| DigestInterleaving.ShownIffLookedUp | src/news_pipeline/main.py:427-465 | a consumed row has been shown in a message iff it was among the rows the run looked up: always for `send_digest`, the first thirty for the cron job |
| DigestInterleaving.RunConsumesWhatItListed | src/news_pipeline/scheduler/jobs.py:349-364 | from listing to commit, whatever is interleaved, a run consumes exactly what it listed and a row enqueued meanwhile stays pending |
| DigestInterleaving.NewsAreShownOnce | src/news_pipeline/main.py:427-465 | in every interleaving no news item is shown twice, neither in two messages nor in one |
| DigestInterleaving.ThirtyFirstRowIsLost | src/news_pipeline/main.py:427-465 | a reachable run with thirty-one different news items for one morning consumes the last row, and no message shows its item |
| DigestInterleaving.FiledIsShown | src/news_pipeline/main.py:427-465 | a row filed under any key, left alone, is shown by the run of that key and consumed |
| CostCeiling.CostTracker.Record | src/news_pipeline/llm/cost_tracker.py:41-50 | books the cost on the day read, input and output tokens at their own prices per million; an unpriced model costs nothing |
| CostCeiling.CostIs | src/news_pipeline/llm/cost_tracker.py:45-47 | a million times the cost is input tokens times input price plus output tokens times output price |
| CostCeiling.CostTracker.TodayCost | src/news_pipeline/llm/cost_tracker.py:52-54 | the charges booked on the day read |
| CostCeiling.CostTracker.CheckAsync | src/news_pipeline/llm/cost_tracker.py:63-97 | refuses iff the day read has reached the ceiling; warns at most once per date, and a warning is right iff it names the day whose cost was read |
| CostCeiling.WarningIsRightIff | src/news_pipeline/llm/cost_tracker.py:71-97 | the date a check warns for has spent the warning level iff no midnight fell between the check's two readings |
| CostCeiling.WarnsIff | src/news_pipeline/llm/cost_tracker.py:71-97 | a date is newly warned for iff the cost read lies from the warning level up to the ceiling and the date has no warning yet; which alerts go out |
| CostCeiling.NoSecondWarning | src/news_pipeline/llm/cost_tracker.py:82-97 | whatever charges and checks follow, a date once warned for is never warned for again |
| CostCeiling.WarningCanBeMisplaced | src/news_pipeline/llm/cost_tracker.py:71-97 | a run whose only warning names a day that has spent nothing, and a later due check on that day that stays silent |
| CostCeiling.LLMPipeline.Ask | src/news_pipeline/llm/extractors.py:67-71 | a response is charged whether or not its payload is usable; a failed call is not |
| CostCeiling.LLMPipeline.Process | src/news_pipeline/llm/pipeline.py:41-56 | refused iff the day's earlier calls reached the ceiling, and then without charge; otherwise the outcome and the exact bills of the calls made |
| CostCeiling.DecisionIs | src/news_pipeline/llm/router.py:12-24 | where an article goes: first-party sources to the deep extraction, irrelevant ones nowhere, hits and hints deep, the rest to the summary |
| CostCeiling.AnswerIs | src/news_pipeline/llm/pipeline.py:41-56 | what an article that passed the check comes to, reply by reply |
| CostCeiling.BillIs | src/news_pipeline/llm/pipeline.py:41-56 | it is billed for the replies of priced models among the tiers it went through |
| CostCeiling.LLMPipeline.ProcessWithRules | src/news_pipeline/llm/pipeline.py:58-68 | the same without the first tier |
| CostCeiling.LLMPipeline.Extract | src/news_pipeline/llm/extractors.py:116-120 | the summary or deep extraction, charged once |
| CostCeiling.OvershootIsOneCall | src/news_pipeline/llm/pipeline.py:41-68 | without the last call that charged it, every day's total is below the ceiling |
| CostCeiling.CeilingFreezesTheDay | src/news_pipeline/llm/cost_tracker.py:71-81 | once a day's total has reached the ceiling no later call charges that day |
| CostCeiling.ClosedDayRefuses | src/news_pipeline/llm/cost_tracker.py:71-81 | once a day has reached the ceiling every later check that reads this day refuses |
| CostCeiling.LLMPipeline.CeilingHolds | src/news_pipeline/llm/pipeline.py:41-68 | in every reachable state, for every ceiling and every midnight in between, a day's spend stays below the ceiling but for one call |
| LlmRows.AskFor | src/news_pipeline/scheduler/jobs.py:249-263 | the batch loop's LLM answer: a failure if the check refuses or the call fails, otherwise what the tiers make of the row |
| LlmRows.CallIs | src/news_pipeline/llm/pipeline.py:41-68 | past the rules a directly named ticker or a first-party source takes the deep extraction, anything else the summary |
| LlmRows.OutcomeDecides | src/news_pipeline/scheduler/jobs.py:249-263 | a row is dead iff its call was refused or failed, and skipped iff it was declined |
| LlmRows.ProcessRow | src/news_pipeline/scheduler/jobs.py:235-335 | one row with its call: no call if the rules stop it, `dead` and no trace if the ceiling refuses, otherwise the status its answer dictates |
| LlmRows.ProcessRows | src/news_pipeline/scheduler/jobs.py:235-335 | a batch: every row ends with the status its gate, its check and its answer call for, other rows stay, and every row past the rules whose check reads a closed day is dead |
| LlmRows.ClosedDayMeansDeath | src/news_pipeline/llm/cost_tracker.py:71-81 | once a day's charges have reached the ceiling, every further row past the rules whose check reads this day is dead |
| Kline.QuoteBarsDailyDAO.UpsertMany | src/quote_watcher/storage/dao/quote_bars.py:29-61 | a batch is a right-biased merge into the table keyed by ticker and date; the last row for a date wins |
| Kline.QuoteBarsDailyDAO.ListRecent | src/quote_watcher/storage/dao/quote_bars.py:16-27 | the latest min(days, count) bars, strictly ascending |
| Kline.MergeDetermined | src/quote_watcher/storage/dao/quote_bars.py:37-61 | the table and the batch determine the table after the upsert |
| Kline.MergesCompose | src/quote_watcher/storage/dao/quote_bars.py:37-61 | two batches in a row leave what one batch of both would |
| Kline.MergeIsIdempotent | src/quote_watcher/storage/dao/quote_bars.py:37-61 | upserting a batch again changes nothing |
| Kline.RecentIsUnique | src/quote_watcher/storage/dao/quote_bars.py:16-27 | the table determines the listing |
| Kline.SortByDate | src/quote_watcher/store/kline.py:45 | a permutation of the fetched rows in date order |
| Kline.ClosesChain | src/quote_watcher/store/kline.py:46-59 | along the built bars each previous close is the close of the bar before |
| Kline.AkDfToBars | src/quote_watcher/store/kline.py:35-60 | the loop makes, for the rows in date order, bars with every field of the row and the previous row's close as previous close |
| Kline.ColdLoadReadsBack | src/quote_watcher/store/kline.py:92-95 | a batch loaded into an empty cache reads back as the latest part of the bars it keeps: the last one of each date, so all of them if dates are distinct |
| Kline.ColdChainIff | src/quote_watcher/store/kline.py:92-95 | after a cold load a listed bar takes up the close of the bar listed before it, whatever the prices, iff its date was fetched once |
| Kline.ChainIff | src/quote_watcher/storage/dao/quote_bars.py:37-61 | after any fetch, between neighbouring dates the chain of previous closes holds whatever the prices iff both were fetched and the later one once, or neither was and it held before |
| Kline.ChainInListing | src/quote_watcher/store/kline.py:92-95 | the same for neighbours in the listing that is answered |
| Kline.RefetchCanBreak | src/quote_watcher/store/kline.py:53 | a refetch of one stored bar at the same price breaks the chain |
| Kline.DailyKlineCache.GetCached | src/quote_watcher/store/kline.py:98-100 | the listing of the ticker |
| Kline.DailyKlineCache.LoadOne | src/quote_watcher/store/kline.py:71-95 | a full cache is answered without a fetch; a failed fetch answers nothing and changes nothing; a successful one merges and reads back |
| Kline.DailyKlineCache.LoadFor | src/quote_watcher/store/kline.py:67-96 | every ticker's answer is its cached listing on the final table, except the empty answer after a failed fetch on a short cache; other tickers' rows do not change |

## Left out

- Scrapers, HTTP, LLM and push clients, the API server, charts, bot commands and backups: plumbing over libraries.
- Prompt texts, JSON extraction, message and card rendering, signing: no property of this code.
- Time zones, holiday calendars and market sessions: local hours and open or closed are parameters.
- Context dictionaries for thresholds, holdings and the portfolio: arithmetic on single snapshots whose only reader is the expression evaluator.
- `highest_n_days`, `lowest_n_days`, `TickRing`, market ranking, retries and throttled operator alerts: easier repeats of shapes already covered.
- Scraper watermarks, pausing and metrics: they only add counters around registration.
- Spending by the LLM judge: the program does not record it, so it is outside the ceiling bound.
- A reload of the news rules in the middle of a batch: rebuilds are modelled between articles only through `RulesEngine.RulesEngine.Rebuild`.
- A digest run that fails after its dispatch: its rows would be listed and sent again.
- Importance.ExtensionKeepsCritical: rules-only mode, because with the LLM the enriched record and the judge may answer differently for another configuration.
- Growth.ExtensionDropsIff: rules-only mode, for the same reason.
- Growth.GrowthSilencesIff: rules-only mode, for the same reason.
- CostCeiling.LLMPipeline.Process: calls one after the other, as a batch makes them; concurrent calls could each pass the check.
- AlertEngine.AlertEngine.RunRules: the dump of the evaluation context in a verdict is not modelled; a verdict is its rule and target.
- NewsProcessing.Pipeline.MarkStatus: the error text stored with a status is not modelled.
- NewsProcessing.Pipeline.Deliver: dispatch results and the push log are not modelled, a push counts as sent once the suppressor agrees.
- Kline.QuoteBarsDailyDAO.ListRecent: a negative number of days is not modelled; the program passes constants.
