# Mood-rule recommendations: model and proofs

A Dafny model of the recommendation pipeline of the mood-rule service: rules are matched
against the context of a request through an index by mood, the matched rules give filters
and scores, products are fetched and ranked, and the answer is cached until a rule update
reloads the rules and clears the cache. `dafny verify dfyconfig.toml` checks everything.

| File | What it holds |
|---|---|
| `Rules.dfy` | rules, request contexts, the counting matcher, rule scores |
| `Engine.dfy` | the rule engine: load, reload, index, evaluate |
| `IndexScan.dfy` | the index against a scan of all rules |
| `GoSlices.dfy`, `SharedAppend.dfy` | Go's append over shared arrays; concurrent evaluators |
| `Scoring.dfy` | filters, product scores, the in-place exchange sort |
| `CacheKeys.dfy`, `Cache.dfy` | printed keys; the cache with expiring entries |
| `Events.dfy`, `PublishSync.dfy` | the event bus; one synchronous publish, step by step |
| `Server.dfy` | one Recommend request and one rule update, start to end |
| `KeyCoverage.dfy` | which rule sets the cache key determines |
| `Protocol.dfy` | requests, reloads and cache, interleaved |
| `OneThread.dfy` | the request of `Server` is one uninterrupted thread of `Protocol` |
| `CounterRuns.dfy` | runs that show why the restrictions in `Protocol` are there |

How to read it. Code that changes state is a class or a method with loops, proved against
functions and predicates that do not follow its steps (`Rules.Matching`, `Engine.Bucket`,
`Engine.Evaluation`, `Cache.Recall`, `Scoring.IsFilters`). What happens between locked
sections is a state machine: a step is one locked section, or one memory cell where no
lock protects it, and a run is any sequence of steps. Properties of a run hold for every
run of every length. A run of `Protocol` is disciplined when store versions grow with every
change, no change falls between the two reads of a reload, and no reload starts while
another one has not swapped yet; results that need this say so.

Conventions. Scores and prices are exact reals, integers are unbounded, strings are
sequences of characters. The clock is an integer that does not go back. Cached answers are
stored as values, not as JSON. The unstable sort of matched rules is any ordered
arrangement, and a range over a map visits keys in any order. The auth service and the
product catalogue are functions; the catalogue sees the set of tags, the set of categories
and the price bounds. Parts of a state that only the proofs look at (the rules and the
number of swaps behind an answer, the rule sets the store has published, the list a
snapshot showed) are ordinary fields named in comments.

Where the code is not what one might expect, the model follows the code:

- The mood index does not find what a scan finds for every rule set;
  `IndexScan.IndexRefinesScan` gives the exact shape of rules for which it does, and three
  lemmas give rules that are missed or doubled.
- A request whose mood is the literal `*` scans the wildcard bucket twice
  (`IndexScan.WildcardMoodDoubles`).
- Printed keys of different requests coincide as soon as two fields may contain colons
  (`CacheKeys.TwoColonFieldsCollide`), and a bare mood used as an invalidation pattern also
  selects every mood that begins with it (`CacheKeys.BareMoodSelects`).
- Colons in two fields can give one user another user's cached answer
  (`CounterRuns.ColonsMixUsers`).
- Occasion, preferences and purchase history are not part of the key, so a request can be
  served the answer of another one (`CounterRuns.OccasionIsNotInTheKey`);
  `KeyCoverage.KeyDeterminesEvaluation` says exactly for which rules all requests with one
  key find the same matches, and `CounterRuns.KeyDeterminesRecommendations` that, for rules
  with telling tags, these are exactly the rules for which they are recommended the same.
- The repository's own README describes a Redis cache and a Kafka consumer; the code has
  the in-memory cache and event bus modelled here.

## Model

| member | source | states |
|---|---|---|
| Rules.Matches | internal/model/rule.go:60-123 | the counting matcher decides exactly: an active rule matches iff some present condition holds (OR), or at least one is present and all present ones hold (any other logic) |
| Rules.MatchingWrittenOut | internal/model/rule.go:60-156 | the meaning of a match over the plain fields: OR needs one list or map that is met, any other logic needs one that is not empty and all that are not empty to be met |
| Rules.CountConditions | internal/model/rule.go:66-115 | the two counters are the number of present conditions and of those that hold |
| Rules.CountsAreSizes | internal/model/rule.go:66-115 | the two counts are the sizes of the sets of present and of met dimensions |
| Rules.MatchesPreferences | internal/model/rule.go:134-142 | true iff the rule's preferences are a submap of the user's, in whatever order keys are visited |
| Rules.MatchesTags | internal/model/rule.go:144-156 | true iff rule tags and user tags have a tag in common |
| Rules.MatchesSlice | internal/model/rule.go:125-132 | true iff the value is one of the candidates |
| Rules.AndMatchImpliesOrMatch | internal/model/rule.go:117-122 | what matches under AND, or any unknown logic, matches under OR |
| Rules.MoreContextKeepsMatches | internal/model/rule.go:101-156 | extra history tags and extra preference keys never lose a match |
| Rules.BoostStretches | internal/model/rule.go:158-165 | whatever the signs of priority and weight, a boost raises the score iff it is positive and the plain score is positive, and lowers it iff it is positive and the plain score is negative |
| Rules.ScoreScalesWithWeight | internal/model/rule.go:159-165 | the score is proportional to the weight |
| Rules.PrioritiesAdd | internal/model/rule.go:159-165 | the scores of two priorities add up |
| Rules.UnitScore | internal/model/rule.go:159-165 | priority 1 and weight 1 score 1, or one plus a positive boost; with the two laws above this fixes every score |
| Rules.BoostFactor | internal/model/rule.go:161-163 | a positive boost b multiplies the plain score by exactly one plus b |
| Engine.RuleEngine.Load | internal/engine/rule_engine.go:40-63 | replaces rules and version together and keeps the index right; a failed read changes nothing and names the read |
| Engine.RuleEngine.Reload | internal/engine/rule_engine.go:66-94 | the same for the hot reload |
| Engine.RuleEngine.BuildIndex | internal/engine/rule_engine.go:97-110 | every bucket holds the rules in load order, each once per listing of the mood, rules without moods under the wildcard, and no bucket is empty |
| Engine.BucketsAddUp | internal/engine/rule_engine.go:97-110 | buckets are built in load order |
| Engine.BucketOfOne | internal/engine/rule_engine.go:101-108 | one rule is entered once per listing of the mood, and without moods once under the star |
| Engine.RuleEngine.Evaluate | internal/engine/rule_engine.go:113-157 | returns an ordered arrangement of exactly the matching candidates, with the counts and the version of the same locked section |
| Engine.MoodBeforeWildcard | internal/engine/rule_engine.go:122-125 | the rules that list the mood are looked at first, then those under the star |
| Engine.OrderedByPriorityThenScore | internal/engine/rule_engine.go:134-140 | the result runs from high to low priority, and from high to low score within a priority |
| Engine.IndexSize | internal/engine/rule_engine.go:97-110 | the lengths of all the buckets of an index add up to max(1, number of moods) per rule |
| IndexScan.Multiplicity | internal/engine/rule_engine.go:97-132 | a rule appears in the result of Evaluate once per entry under the mood plus once per entry under the wildcard, for each time it was loaded, if it matches, and never otherwise |
| IndexScan.IndexRefinesScan | internal/engine/rule_engine.go:97-132 | for all contexts whose mood is not the wildcard the index finds what a scan finds, equally often, if and only if every loaded rule has the exact shape |
| IndexScan.WildcardMoodDoubles | internal/engine/rule_engine.go:122-125 | for the wildcard as mood they agree iff nothing matches |
| IndexScan.OrRuleMissed | internal/engine/rule_engine.go:100-104 | an OR rule with moods and another condition that a scan finds and the index does not |
| IndexScan.RepeatedMoodDoubles | internal/engine/rule_engine.go:102-104 | a mood listed twice: the rule is found twice |
| IndexScan.WildcardBesideMoodDoubles | internal/engine/rule_engine.go:102-107 | a literal wildcard beside a mood: the rule is found twice |
| GoSlices.Append | internal/engine/rule_engine.go:125 | append shows the old contents and the new element, in the next cell of the same array while there is room and on a new array otherwise, and changes no other array |
| GoSlices.AppendAtKey | internal/engine/rule_engine.go:103-107 | appending to the slice of one key changes only what that key shows and keeps backing arrays separate |
| SharedAppend.BuildSliceIndex | internal/engine/rule_engine.go:97-110 | building the index by appending gives slices on separate new arrays that show exactly the buckets, whatever spare capacity the allocator leaves |
| SharedAppend.SharesWhenRoom | internal/engine/rule_engine.go:123-125 | an evaluator writes into the array of the stored bucket iff there is room behind the bucket for all rules under the star, from the bucket's end on |
| SharedAppend.CopyCellKeeps | internal/engine/rule_engine.go:123-125 | a cell written past the visible end of a shared bucket already is, or becomes, what every concurrent evaluator wants there |
| SharedAppend.BucketsStayIntact | internal/engine/rule_engine.go:97-132 | in every state of every interleaving of evaluators and rebuilds, each bucket shows exactly its rules |
| SharedAppend.EveryScanIsExact | internal/engine/rule_engine.go:122-132 | every evaluator has scanned its mood's bucket followed by the wildcard bucket when it releases the lock |
| SharedAppend.EvaluatorsNeverStick | internal/engine/rule_engine.go:116-132 | in every reachable state each evaluator can take a step |
| Scoring.AggregateFilters | internal/grpc/server.go:308-342 | tags and categories are duplicate-free unions; a price is in the bounds iff it is acceptable to every rule; without price ranges the bounds are 0 and 1000000 |
| Scoring.AcceptableWrittenOut | internal/grpc/server.go:311-328 | acceptable means from 0 to 1000000, not below any rule's minimum and not above any rule's positive maximum |
| Scoring.FiltersOfOne | internal/grpc/server.go:314-329 | the exact filters of one rule |
| Scoring.FiltersJoin | internal/grpc/server.go:314-329 | the filters of two lists of rules together are the unions, the larger minimum and the smaller maximum |
| Scoring.FiltersIgnoreOrder | internal/grpc/server.go:308-342 | reordering or repeating rules changes no filter |
| Scoring.MoreRulesNarrowPrices | internal/grpc/server.go:314-329 | more rules ask for more tags and categories within narrower prices |
| Scoring.ScoreProducts | internal/grpc/server.go:345-412 | returns every product once with the summed score and names of the rule occurrences that share a tag with it, by descending score |
| Scoring.ScoresAddUp | internal/grpc/server.go:354-377 | scores and rule names add up over the rules, names in their order |
| Scoring.ScoreOfOne | internal/grpc/server.go:358-376 | one rule gives its score and name if it has a tag of the product, else nothing |
| Scoring.SortInPlace | internal/grpc/server.go:386-393 | the exchange sort leaves a descending permutation in the array |
| Scoring.PassMoves | internal/grpc/server.go:386-392 | what one pass of the outer loop does with every element, ties included: the leftmost of the greatest scores comes to the front, each score greater than all before it makes way for the leftmost greatest one before it, the rest stays |
| Scoring.RankingKeepsTies | internal/grpc/server.go:386-393 | products that come in order of their scores stay in that order, also where scores are equal, and the first of the best products is ranked first |
| Scoring.ExchangeSortSorts | internal/grpc/server.go:386-393 | the loops, from any position with a settled front, end sorted and lose nothing |
| Scoring.RankedIsSortedPermutation | internal/grpc/server.go:379-411 | ranking rearranges the scored products by descending score |
| Scoring.ScoreIgnoresOrder | internal/grpc/server.go:354-377 | a product's score and the multiset of its rule names do not depend on the order of the rules |
| Scoring.TieBreaksDoNotMatter | internal/engine/rule_engine.go:134-140 | two orders of the matched rules give the same filters, and the same products in the same order with the same scores; only rule names may be ordered differently |
| Scoring.MoreTagsScoreHigher | internal/grpc/server.go:354-377 | with non-negative rules, a product with all tags of another scores at least as high, and higher with one more positive rule |
| Scoring.MoreTagsRankHigher | internal/grpc/server.go:386-393 | and is then ranked before it |
| CacheKeys.VersionRoundTrip | internal/cache/memory_cache.go:29-32 | the version, negative ones included, can be read back from every printed key |
| CacheKeys.DecimalText | internal/cache/memory_cache.go:29-32 | the version is printed in decimal by the codes of its characters: an optional minus sign and digits without a leading zero |
| CacheKeys.FieldsRoundTrip | internal/cache/memory_cache.go:29-32 | from a key without colons in its fields the fixed prefix, mood, time of day, weather, segment and version can be read back, in this order |
| CacheKeys.PrintAlike | internal/cache/memory_cache.go:29-32 | two keys print alike iff their versions agree and their fields join to the same text |
| CacheKeys.KeysInjective | internal/cache/memory_cache.go:29-32 | printing is injective when one fixed field is free and the other three have no colon |
| CacheKeys.TwoColonFieldsCollide | internal/cache/memory_cache.go:29-32 | for any two fields there are different keys, with colons only in those, that print alike |
| CacheKeys.BareMoodSelects | internal/cache/memory_cache.go:129-137 | a colon-free pattern selects exactly the keys whose mood begins with it |
| CacheKeys.ClosedMoodSelects | internal/cache/memory_cache.go:129-137 | a mood and a colon select exactly that mood, among keys with colon-free moods |
| CacheKeys.MatchesPattern | internal/cache/memory_cache.go:151-159 | true iff the pattern is a prefix of the key |
| Cache.GetRefinesHistory | internal/cache/memory_cache.go:71-104 | over every run with a clock that does not go back, Get returns a value iff the last call that concerned the key was a Set of it no more than ttl ago |
| Cache.SetLastsForTtl | internal/cache/memory_cache.go:71-104 | after a Set the value is found up to and including ttl later and not beyond |
| Cache.LaterCalls | internal/cache/memory_cache.go:89-198 | which later calls leave what is found and which leave nothing, with the prefix spelled out |
| Cache.StoreRemembers | internal/cache/memory_cache.go:71-198 | every entry is the last Set of its key; every missing one was removed last or had expired |
| Cache.CleanupInvisible | internal/cache/memory_cache.go:162-198 | a cleanup inserted anywhere in a run changes no later Get |
| Cache.EmptyPatternClears | internal/cache/memory_cache.go:117-148 | on reachable stores the empty pattern clears as much as the star |
| Cache.MoodInvalidationIsExact | internal/cache/memory_cache.go:129-141 | invalidating a mood and a colon removes that mood's entries and leaves other moods' entries as they were |
| Cache.MemoryCache.constructor | internal/cache/memory_cache.go:50-68 | an empty cache; a ttl that is not positive becomes ten minutes |
| Cache.MemoryCache.Get | internal/cache/memory_cache.go:71-86 | returns what the history of calls says |
| Cache.MemoryCache.Set | internal/cache/memory_cache.go:89-104 | replaces the entry of the printed key, expiring ttl later, and nothing else |
| Cache.MemoryCache.Delete | internal/cache/memory_cache.go:107-113 | removes that entry and nothing else |
| Cache.MemoryCache.InvalidateByPattern | internal/cache/memory_cache.go:117-148 | removes exactly the selected keys and changes no other entry |
| Cache.MemoryCache.RemoveExpired | internal/cache/memory_cache.go:177-198 | removes exactly the expired entries |
| Cache.MemoryCache.ClearAll | internal/cache/memory_cache.go:243-249 | removes all entries |
| Cache.MemoryCache.Close | internal/cache/memory_cache.go:216-227 | closes the stop channel the first time only and keeps the entries |
| Events.EventBus.Subscribe | internal/eventbus/eventbus.go:53-65 | appends the handler to its event type's list and changes no other list |
| Events.EventBus.Unsubscribe | internal/eventbus/eventbus.go:156-164 | empties that event type's list only |
| Events.EventBus.Clear | internal/eventbus/eventbus.go:175-182 | empties all lists |
| PublishSync.NeverBlocksNorPanics | internal/eventbus/eventbus.go:125-140 | in every reachable state the wait count is the number of announced goroutines not yet gone, every failing goroutine finds the channel open with room, and wg.Done never goes below zero |
| PublishSync.DispatchIsIsolated | internal/eventbus/eventbus.go:69-101 | the loop starts exactly the snapshot's handlers in order, whatever subscribers append in place, unsubscribe or clear meanwhile |
| PublishSync.ReturnIsExact | internal/eventbus/eventbus.go:105-153 | on return every snapshotted handler has run once to its end, the collected errors are theirs with multiplicity, and success is reported iff none failed |
| PublishSync.NoDeadlock | internal/eventbus/eventbus.go:128-147 | before the return some step of the call or of a goroutine is always possible |
| PublishSync.EveryStepCounts | internal/eventbus/eventbus.go:128-147 | every such step reduces what remains to be done; changes to the bus do not |
| PublishSync.RunsAreBounded | internal/eventbus/eventbus.go:105-153 | every run takes at most six steps per handler and three more |
| PublishSync.RunShowsTheBus | internal/eventbus/eventbus.go:53-65 | over every run the shared slices show exactly the lists that the calls of Subscribe, Unsubscribe and Clear make of the bus, appending in place or not |
| PublishSync.CallRunsTheListed | internal/eventbus/eventbus.go:105-139 | the call starts exactly the handlers in the list its event type had when it began, in order |
| Server.MoodRuleServer.Recommend | internal/grpc/server.go:71-231 | the exact reply or error on every path: invalid request, missing or failing auth, hit, no match, missing or failing catalogue, ranked answer; only the last is stored, under the key formed before the look-up |
| Server.MoodRuleServer.RecommendFor | internal/grpc/server.go:110-231 | once the mood is known: what the history of cache calls recalls, or the outcome of an evaluation, with the call it adds to the history and the store it leaves |
| OneThread.RecommendIsOneThread | internal/grpc/server.go:110-231 | every answer and store that Recommend may give, hits and failures included, is what the steps of one thread of the interleaved model give when nothing comes between them |
| OneThread.ReplyIsReplied | internal/grpc/server.go:155-213 | a reply after a miss recommends what the interleaved model says the request is answered |
| OneThread.HandlerIsOneReload | cmd/server/main.go:114-123 | the handler's steps without interruption leave the engine with what the store holds and the cache empty |
| Server.MoodRuleServer.Compute | internal/grpc/server.go:131-213 | evaluation, filters, catalogue and ranking composed |
| Server.AfterMissWrittenOut | internal/grpc/server.go:145-213 | after a miss: the empty reply, Unavailable without a catalogue client, Internal when it fails, else the ranked products, with the counts, the version and no cache flag |
| Server.MoodRuleServer.HandleRuleUpdated | cmd/server/main.go:114-123 | reload, then clear, then announce; after success nothing is recalled for any request; a failed read changes and announces nothing |
| Protocol.ConditionsSeeTheRequest | internal/grpc/server.go:132-139 | what each of the six conditions of a rule sees of the request and its user's mood |
| Protocol.KeyOfRequest | internal/grpc/server.go:277-285 | the text a request is cached under: prefix, mood, time of day, weather, user and version |
| Protocol.GenuineKept | internal/grpc/server.go:110-219 | every step keeps: all cached and travelling answers are rankings of an evaluation of the request that formed their key |
| Protocol.RepeatedEvaluationsAgree | internal/grpc/server.go:143-201 | evaluating a request twice on the same rules gives the same recommendations up to the order of rule names |
| Protocol.HitsFitTheirRules | internal/grpc/server.go:110-138 | over every run, disciplined or not, a hit is what the request's own evaluation on the rules behind the entry would give, matches included, up to the order of rule names, if three key fields are colon-free and the two requests agree on what the key omits or every rule is determined by the key |
| Protocol.LabelsKept | internal/engine/rule_engine.go:66-94 | under the discipline every step keeps the engine's rules equal to what the store published under the engine's version, and the version does not go back |
| Protocol.HitsAreFresh | internal/grpc/server.go:110-127 | over every disciplined run, a hit looked up under version v was computed on rules of version v or later but not later than the engine's, exactly those published under that version |
| Protocol.HitsAreTransparent | internal/grpc/server.go:110-219 | over every disciplined run, a hit looked up under the engine's version is what a fresh evaluation on the engine's rules would give at that moment, under the same conditions on keys and requests |
| Protocol.HitsBelongToTheRequest | internal/grpc/server.go:110-127 | over every disciplined run, whatever is reloaded meanwhile, the engine held the rules and the version of the served answer at some moment between the forming of the key and the look-up |
| Protocol.HitsLinearize | internal/grpc/server.go:110-219 | so every hit is what a fresh evaluation at some moment of the request would have given |
| Protocol.EntryHistory | internal/grpc/server.go:216-219 | every entry in every run was stored by a Store step with no clear since |
| Protocol.ComputationHistory | internal/engine/rule_engine.go:113-157 | every computation in flight comes from an Evaluate step of that request, with the rules and version of that moment |
| Protocol.StalenessIsBounded | cmd/server/main.go:114-123 | over every run, a hit computed before a swap whose handler has cleared was stored after the clear by a request that evaluated before the swap, no more than ttl ago |
| Protocol.SettledKept | internal/cache/memory_cache.go:71-104 | every step keeps: no computation from before a swap in flight, and all entries from before it expiring by a deadline |
| Protocol.StalenessEnds | internal/grpc/server.go:143-219 | once the requests that evaluated before a swap are done, nothing computed before it is served more than ttl later, with or without a clear |
| Protocol.ClearEndsStaleness | cmd/server/main.go:114-123 | if they are done when the handler clears, nothing computed before its swap is served again |
| KeyCoverage.KeyDeterminesEvaluation | internal/grpc/server.go:277-285 | all requests that share a key are evaluated alike if and only if every loaded rule is inactive, or ignores occasion, preferences and history, or is an OR rule with moods and no wildcard among them |
| KeyCoverage.UndeterminedRuleDiffers | internal/model/rule.go:60-123 | for any other rule there are two requests with one key of which it matches only one, though the index finds it for both |
| CounterRuns.SecondIsServedFirstsAnswer | internal/grpc/server.go:277-285 | for any rules and any two requests whose keys print alike, some disciplined run serves the second the first one's answer |
| CounterRuns.UndeterminedRuleLeaks | internal/grpc/server.go:277-285 | as soon as one loaded rule is not determined by the key and a tag tells it from other rules of its name: with some catalogue, some disciplined run serves a request recommendations that none of its own evaluations gives, even up to the order of names |
| CounterRuns.KeyDeterminesRecommendations | internal/grpc/server.go:277-285 | for rules with telling tags: all requests that share a key are recommended the same whatever the catalogue if and only if every loaded rule is determined by the key |
| CounterRuns.OccasionIsNotInTheKey | internal/grpc/server.go:277-285 | one rule for an occasion: the user's request without the occasion matches nothing and is served the answer of the one with it |
| CounterRuns.ColonsMixUsers | internal/cache/memory_cache.go:29-32 | colons in two fields: a request of another user in other weather matches nothing and is served the first user's answer, although the only rule is on the weather, which the key contains |
| CounterRuns.ReturningVersionServesOldRules | internal/repository/rule_repository.go:183-193 | the store's version falls back to an earlier one: although reloads do not overlap and read one snapshot, a look-up after the clear and under that version is served an answer computed on the rules of before |
| CounterRuns.ChangeBetweenReadsServesOldRules | internal/engine/rule_engine.go:69-83 | a rule change between the two reads of a reload: some run serves, from the cache, an answer under the new version computed on the old rules |
| CounterRuns.OverlappingReloadsServeOldVersion | internal/engine/rule_engine.go:79-84 | two overlapping reloads: some run serves a request that looked up under the new version an answer of the old one |

## Left out

- Protocol.HitsAreFresh: assumes that store versions grow with every change, that no change falls between the two reads of a reload, and that no reload starts while another one has not swapped yet; the code enforces none of the three (the store's maximum is taken over active rules only, internal/repository/rule_repository.go:185, so deactivating a rule can lower it), and `CounterRuns` has a run for each of them that keeps the other two.
- Protocol.HitsAreTransparent: assumes the same three, and that the engine is still at the version of the key; `Protocol.HitsLinearize` covers a reload in between.
- CounterRuns.UndeterminedRuleLeaks: asks for a telling tag, because a rule that adds no filter, score or name beside others that match does not show in any recommendation.
- Scoring.TieBreaksDoNotMatter: holds for exact reals; floating-point sums depend on the order of the matched rules.
- SharedAppend.EveryScanIsExact: memory cells are read and written one at a time in some global order; Go's memory model promises nothing for the racing writes of equal values.
- PublishSync.RunsAreBounded: a handler's return is one step, so a handler that never returns is not covered.
- Publish: its goroutines log errors instead of sending them; only its dispatch loop is covered, by the loop of PublishSync.
- The limit of 50 products in the catalogue request: a constant of the catalogue function.
- The text that PublishSync returns: only the collected errors and whether there are any.
- Transport (gRPC, HTTP, protobuf), TLS, health checks, logging, metrics, configuration and process lifecycle: no property of interest.
- The auth and product clients with their retries and circuit breakers: replaced by functions.
- SQL and JSON: the rule store appears only through its two reads; a value that cannot be marshalled is not modelled.
- Trace identifiers, durations and the other response metadata besides counts, version and the cache flag.
- NaN, rounding and integer overflow.
- The ticker of the cleanup goroutine: cleanups may happen at any time instead.
