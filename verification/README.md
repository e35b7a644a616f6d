# Superposition: a verified model

Superposition stores configurations whose values depend on the context of a request. A client
sends the values of some *dimensions*; the service completes them with *cohorts*, picks the
stored *contexts* whose conditions match, and cascades their *overrides* over the defaults.
Around that core there are filters that narrow a configuration, caches that serve it, and
experiments that assign variants by hashing an identifier into buckets.

The modules follow that structure.

| part | modules |
|---|---|
| merging JSON documents | `JsonMerge`, `MergeFolding` |
| matching, filtering, resolving | `Matching`, `Configuration`, `Resolution`, `ResolutionLaws` |
| weights, and configurations built from stored contexts | `Weights`, `Cascade`, `StoredWeights` |
| the client and its cache, one call at a time and interleaved | `CacheKey`, `CacheProtocol`, `Client`, `CacheSafety`, `DistinctKeys` |
| the provider's experiments, one call at a time and interleaved | `SnapshotProtocol`, `SnapshotCallers`, `Provider` |
| variants | `Experiments`, `Admissions`, `Toss` |
| the dimensions of a workspace and their cohorts | `Dependencies`, `Lineages`, `Removal`, `Workspaces`, `Acceptance`, `StartingDimensions`, `RemoteCohorts`, `RemoteEvaluation`, `RemoteOrder`, `RemoteValues`, `OrderMatters`, `LocalCohorts`, `Retention`, `CompletedRequests` |
| the TOML variant of the resolver | `TomlExpressions`, `TomlComparisons`, `TomlResolver` |

`JsonValues`, `Wrappers`, `Sequences`, `Strings` and `Arithmetic` hold what the others share. Code that
updates things step by step is a method with its loops; a map is traversed in an arbitrary
order, as a hash map is. Each such method is proved equal to a function or against a direct
statement of its outcome, and the laws are lemmas about those functions. Concurrent code is
also a state machine whose steps run between two suspension points of a task, and the laws
hold in every reachable state.

Main results:

- **Merging.** `merge` is not associative. `MergeAssociativeIff` says for which three documents
  it is, and `GatheringIsFaithfulIff` for which lists of overrides the two phases of resolution
  (gather from `{}`, then merge onto the defaults) mean the same as merging each override onto
  the default; `TwoPhasesAreDirectIff` lifts that to whole configurations.
- **Filters.** Filtering by prefix, or by the dimension values that are resolved afterwards,
  cannot be observed; the two filters commute and are idempotent; a configuration filtered by
  some values answers other requests rightly exactly when the completed requests are
  consistent. For the program's own completion that is a condition on the requests
  (`FilteringPreservesIff`): the values given and kept agree, and every local cohort comes to
  the same whose base does not keep a value in both. Filtering by fewer values than are resolved
  afterwards can therefore drop contexts that apply (`FilteringCanDropContexts`).
- **Cascade.** From positions through sums of powers of two and the order of the rows to the
  value of a key: the winner outranks every other context that sets the key, as long as the
  stored weights order the rows as the positions rank them. Creating and deleting dimensions
  keep that order for stored rows. Every move that changes a position changes the ranks of some
  conditions (`EveryMoveChangesRanks`); of the rows that are stored it keeps the order exactly
  when no two are crossed, that is, when no row has the moved dimension, and another one has not
  but has the highest other dimension in which they differ, which the move passes
  (`MoveKeepsRanksIff`). Rows stored after a creation can win over older ones that outrank them,
  unless nothing stood at or above the new dimension.
- **Caches.** Over every interleaving of lookups, fetches, failed parses, evictions and dropped
  tasks, a lookup outside the locks returns the published configuration's answer to some request
  with the same cache key, every such answer is possible, and no reachable state is stuck. Since
  keys collide, hits can be wrong: they are right for a request on every configuration exactly
  when the request gives no dimension a value and filters by one prefix without peculiarities
  (`HitsAlwaysRightIff`). Among requests that give the same dimensions scalars of the same kinds
  and have no separators in their values and prefixes, keys collide only for equal requests
  (`SameKeyIff`, `SameKindSharesKeyIff`).
- **Snapshots.** A reader of experiments and groups always sees halves of one fetch exactly when
  the callers neither close the configuration nor give up a call that fetches and stores. Either
  of the two is enough to tear a snapshot.
- **Workspaces.** Whatever dimensions are created, deleted, moved and updated, the dependency
  graphs stay one forest on which they all agree and positions stay distinct: the preconditions
  of the cohort traversals and of the weight laws. The checks are exact: a creation, deletion or
  update is let through exactly when the table it leads to is sound (`CreatableIff`,
  `DeletableIff`, `UpdatableIff`). Deletion undoes creation, and moving back undoes moving.
- **Cohorts.** All depth-first traversals end, and give values to exactly the cohorts that they
  should: starts are what is given, or local, with nothing above it that is (`StartIff`), and
  after the remote evaluation exactly those have a value for which, or above which, something
  is given (`RemoteValueIff`). Local cohorts get theirs whatever the order, each being the first
  of its options whose rule holds (`CohortIsFirstHolding`). Every remote cohort is computed once over
  the whole evaluation, by its own function in the context as it then was; since that is the
  whole context so far, the order matters in general. It does not where each function answers by
  what its cohort depends on, and over all workspaces it is irrelevant exactly when functions
  answer by the value of the base dimension alone (`OrderIrrelevantIff`).
- **Experiments.** Who is given which variant is said group by group, by index, traffic, bucket
  and toss (`VariantsAreGiven`); an experiment with full traffic refuses nobody. Ramping up takes
  no variant away; the prefilter is redundant; the shares of tosses partition the range.
- **TOML.** Comparisons mean what their operators say, string by string and number by number,
  and decimal strings count as the numbers they write. Evaluation never short-circuits, so the priority of an entry depends on its
  expression only; the drained heap lets an entry of the highest priority win each key.

Where comments and code disagree, the model follows the code:

- `crates/superposition_types/src/logic.rs:148` says that the values of remote cohorts are
  retained. They are dropped below a gap (`GivenIsKeptIff`, `RemoteCanBeLeftOut`).
- `crates/context_aware_config/src/helpers.rs:341` speaks of local cohorts; the function
  computes remote ones and stops at local ones.

An empty prefix list does not filter in `eval_config`, but keeps nothing in the client; both are
modelled as they are.

## Model

| member | source | states |
|---|---|---|
| JsonMerge.MergeInPlace | crates/superposition_core/src/config.rs:102-116 | The recursive merge, visiting the members of the patch in any order, yields the member-wise merge: a patch that is not an object replaces, an object is merged into what is there, a missing entry counting as null |
| JsonMerge.MergeOntoNonObject | crates/superposition_core/src/config.rs:103-110 | Merging onto anything but an object leaves exactly the patch, at any depth |
| JsonMerge.MergeOntoEmpty | crates/superposition_core/src/config.rs:108-115 | Merging an object onto the empty object leaves exactly the patch |
| JsonMerge.MergeYieldsPatchIff | crates/superposition_core/src/config.rs:102-116 | A patch erases every trace of the document if and only if it overwrites each of its members, all the way down |
| JsonMerge.MergeIdempotent | crates/superposition_core/src/config.rs:102-116 | Merging the same patch twice is merging it once, for all documents |
| JsonMerge.MergeIsMergePatchIff | crates/superposition_core/src/config.rs:102-116 | The merge is MergePatch of section 2 of RFC 7396 if and only if the patch has no null member at any object depth |
| JsonMerge.MergeAssociativeIff | crates/superposition_core/src/config.rs:102-116 | Merging two patches first and then onto a document equals merging them in turn if and only if no object of the second meets a non-object of the first where the document has something it does not cover |
| MergeFolding.MergeAllMember | crates/superposition_core/src/config.rs:153-176 | Merging a list of object patches acts on every key separately: presence and value of a key depend only on what the document and the patches have at it |
| MergeFolding.GatheringIsFaithfulIff | crates/superposition_core/src/config.rs:139-201 | Gathering patches from nothing and merging the outcome onto a document equals merging them onto it one by one if and only if nothing erased on the way is revived |
| MergeFolding.CompatibleRevivesNothing | crates/superposition_core/src/config.rs:102-116 | Nothing is revived, whatever the document, when no later patch has an object at a path where an earlier one has something else |
| Matching.ApplyLogic | crates/superposition_types/src/logic.rs:13-38 | The loop with its early exits decides whether every dimension of the condition matches: variants by membership in an array, others by equality, absent ones only when matching partially |
| Matching.OneDimension | crates/superposition_types/src/logic.rs:13-38 | A condition on one dimension: equality, for variantIds membership in an array; met partially, but not fully, by a request without the dimension |
| Matching.EachDimension | crates/superposition_types/src/logic.rs:13-49 | A condition is met, fully or partially, if and only if it is for each of its dimensions alone |
| Matching.SurvivesIffConsistent | crates/superposition_types/src/logic.rs:40-49 | Every condition that applies to one request survives partial matching against another if and only if the two agree on their common dimensions and on variants |
| Matching.TellingCondition | crates/superposition_types/src/logic.rs:13-38 | Of two requests that are not consistent, some one-dimension condition applies to the one and fails partial matching on the other |
| Configuration.FilterByPrefix | crates/superposition_types/src/config.rs:314-346 | The two loops, over the overrides in map order and over the contexts, compute the filtered configuration that the next three rows describe: it keeps exactly the keys with one of the prefixes, drops emptied overrides, and drops the contexts that point at a dropped override, in order |
| Configuration.PrefixFilterDefaults | crates/superposition_types/src/overridden.rs:7-21 | Every default key that is a prefix with something behind it stays with its value, and every key that stays is one |
| Configuration.PrefixFilterOverrides | crates/superposition_types/src/config.rs:318-330 | An override stays if and only if it sets a key that is a prefix with something behind it, and then sets exactly those, as before |
| Configuration.PrefixFilterContexts | crates/superposition_types/src/config.rs:331-338 | A context stays if and only if its override sets such a key |
| Configuration.DimensionFilterKeeps | crates/superposition_types/src/config.rs:283-305 | The dimension filter keeps exactly the contexts that the completed values do not contradict, exactly the overrides that one of those names, and the defaults and dimensions |
| Configuration.FilterByPrefixIdempotent | crates/superposition_types/src/config.rs:314-346 | Filtering twice by the same prefixes is filtering once |
| Configuration.FilterByDimensionsIdempotent | crates/superposition_types/src/config.rs:283-305 | Filtering twice by the same dimension values is filtering once |
| Configuration.WithOverrideHas | crates/superposition_types/src/config.rs:331-338 | A context survives the prefix filter if and only if it was there and its override still is |
| Configuration.FiltersCommute | crates/cac_client/src/lib.rs:162-174 | The two filters give the same configuration in either order: contexts in order, overrides and defaults |
| Resolution.ReplaceTopLevel | crates/superposition_core/src/config.rs:118-137 | An object patch overwrites its keys and keeps the others; anything else changes nothing and is not reported |
| Resolution.GetOverrides | crates/superposition_core/src/config.rs:139-182 | The loop gathers the overrides of the contexts that apply and name an existing one, in order, reports exactly those contexts, and never fails |
| Resolution.SelectedAreUsed | crates/superposition_core/src/config.rs:153-178 | The reported contexts are those at the places where the condition applies and the override exists, in order |
| Resolution.SelectedHavePatches | crates/superposition_core/src/config.rs:153-178 | What is gathered are their overrides, one by one |
| Resolution.AccumulatedMember | crates/superposition_core/src/config.rs:153-176 | The gathered map has exactly the keys some selected override sets, with the last value under REPLACE and all of them merged in turn under MERGE |
| Resolution.MergeOverridesOnDefaults | crates/superposition_core/src/config.rs:184-201 | The result has exactly the default keys; a gathered key replaces or is merged onto its default, a key without default is ignored |
| Resolution.Evaluate | crates/cac_client/src/eval.rs:103-123 | Expanding, gathering and putting onto the defaults computes, for every default key and strategy, the outcome of the values the applying overrides set |
| Resolution.EvalConfig | crates/superposition_core/src/config.rs:9-49 | The same after narrowing by a prefix list, which an empty or absent list does not do |
| Resolution.EvalConfigWithReasoning | crates/superposition_core/src/config.rs:51-100 | The resolved configuration, with the key "metadata" overwritten by one record, of condition and override id, for each place where a context applies and names an existing override, in order |
| ResolutionLaws.LastSetterWins | crates/superposition_core/src/config.rs:118-201 | Under REPLACE the last context that applies and sets a key decides it; without one the default stands |
| ResolutionLaws.TwoPhasesAreDirectIff | crates/superposition_core/src/config.rs:139-201 | Under MERGE the resolved configuration equals merging each applying override straight onto the defaults if and only if for no key the gathering revives a part of the default that the overrides erase |
| ResolutionLaws.CompatibleOverridesAreDirect | crates/superposition_core/src/config.rs:139-201 | It does whenever no later applying override has an object where an earlier one has something else |
| ResolutionLaws.TwoPhasesCanRevive | crates/superposition_core/src/config.rs:139-201 | A configuration in which a number erases a default and the object after it brings the default back, unlike direct merging |
| ResolutionLaws.PrefixFilterPreservesMeaning | crates/superposition_core/src/config.rs:26-48 | For all prefixes and both strategies, resolving the prefix-filtered configuration gives exactly the part of the resolved configuration with those prefixes |
| ResolutionLaws.NarrowingRestricts | crates/superposition_core/src/config.rs:26-32 | An absent or empty prefix list leaves the configuration as it is; any other leaves of the resolved configuration exactly the keys that are a prefix with something behind it, with their values |
| ResolutionLaws.DimensionFilterPreservesMeaning | crates/superposition_types/src/config.rs:283-305 | Filtering by the very dimension values that are resolved afterwards changes nothing |
| ResolutionLaws.DimensionFilterPreserves | crates/superposition_types/src/config.rs:283-305 | Filtering by some values and resolving for others changes nothing when the completed requests are consistent |
| ResolutionLaws.DimensionFilterPreservesIff | crates/superposition_types/src/config.rs:283-305 | For given dimensions, all configurations may be filtered by one request and resolved for another if and only if the completed requests are consistent |
| Weights.CalculateContextWeight | crates/context_aware_config/src/helpers.rs:109-132 | The loop over the hash set fails if and only if a dimension is unknown, and otherwise sums two to the position of each dimension, a negative position wrapping around to 32 unsigned bits |
| Weights.WeightDigits | crates/context_aware_config/src/helpers.rs:99-132 | The weight is the binary number whose digit at each place says whether the condition mentions a dimension of that position |
| Weights.ExponentWraps | crates/context_aware_config/src/helpers.rs:129 | The exponent is the position modulo two to the 32 |
| Weights.WeightWithout | crates/context_aware_config/src/helpers.rs:118-130 | The sum does not depend on the order of the dimensions: any of them can be taken out first |
| Weights.LowerPositionsWeighLess | crates/context_aware_config/src/helpers.rs:99-132 | With distinct positions, any set of dimensions below a position weighs less than that position alone |
| Weights.WeightOrder | crates/context_aware_config/src/helpers.rs:99-132 | With distinct positions, one set outweighs another if and only if it has the highest dimension in which they differ, and only equal sets weigh the same |
| Cascade.GenerateCac | crates/context_aware_config/src/helpers.rs:133-214 | The rows in delivered order become contexts with their 32-bit index as priority and weight and overrides by id, the last of an id counting; an empty condition or override is an error, and nothing else is |
| Cascade.GeneratedContexts | crates/context_aware_config/src/helpers.rs:138-186 | The context in each place has the id, condition and override id of the row there, and that place, cut down to 32 bits, as priority and weight |
| Cascade.LastOfIdCounts | crates/context_aware_config/src/helpers.rs:185-186 | Under an id stands what the last row with that id overrides, and nothing under other ids |
| Cascade.OverrideOfRow | crates/context_aware_config/src/helpers.rs:160-186 | Where ids determine overrides, every row finds its own override under its id |
| Cascade.WeightsRank | crates/context_aware_config/src/helpers.rs:99-132 | Weights that are those of the conditions order the rows as the positions rank them |
| Cascade.MostSpecificWins | crates/context_aware_config/src/helpers.rs:109-186 | Where the stored weights order the rows as the positions rank them, under REPLACE a key takes the value of an applying row that sets it, and every other such row is outranked on the highest differing dimension or has the same dimensions and is not newer, so never has all of the winner's dimensions and more; without such a row the default stands |
| StoredWeights.CreationKeepsRanks | crates/context_aware_config/src/api/dimension/handlers.rs:147-180 | Creating a dimension keeps the order of the stored rows that of the ranks, although no weight is computed anew |
| StoredWeights.DeletionKeepsRanks | crates/context_aware_config/src/api/dimension/handlers.rs:512-561 | So does deleting a dimension that no stored row mentions |
| StoredWeights.MoveKeepsRanksIff | crates/context_aware_config/src/api/dimension/handlers.rs:340-404 | A move, which computes no weight anew, keeps the order of the stored rows that of the ranks if and only if no two rows are crossed: one has the moved dimension, the other has not, and the highest other dimension in which they differ belongs to the other and is passed |
| StoredWeights.EveryMoveChangesRanks | crates/context_aware_config/src/api/dimension/handlers.rs:340-404 | The ranks of all conditions stay if and only if the position does |
| StoredWeights.CreationKeepsWeightsIff | crates/context_aware_config/src/api/dimension/handlers.rs:147-180 | The stored weights stay those of their conditions if and only if nothing stands at or above the new dimension |
| StoredWeights.LowerRankWins | crates/context_aware_config/src/api/dimension/handlers.rs:147-180 | Otherwise, for whatever values a completed request gives the new dimension and the one that had its position, an older row for the one value and a newer row for the other both apply and tie, and the newer one wins although the older one outranks it |
| CacheKey.SortTexts | crates/cac_client/src/utils.rs:22-27 | The items come out in order and are the same multiset |
| CacheKey.LeqIsLexicographic | crates/cac_client/src/utils.rs:8-25 | The order is equality or being smaller at the first difference, a proper prefix being smaller |
| CacheKey.OrderIsUnique | crates/cac_client/src/utils.rs:25 | There is only one ordered arrangement of a multiset of strings |
| CacheKey.JsonToSortedString | crates/cac_client/src/utils.rs:5-29 | The recursive printer yields the canonical text: items in the order of their texts, members in the order of their keys |
| DistinctKeys.ScalarTexts | crates/cac_client/src/utils.rs:18-21 | Null prints as null, booleans as true and false, numbers and strings as they are |
| DistinctKeys.ObjectText | crates/cac_client/src/utils.rs:7-17 | An object prints as its first key, a colon, the printed member and a dollar sign, and then the rest of it |
| DistinctKeys.ArrayText | crates/cac_client/src/utils.rs:22-27 | An array prints as its printed items in order, joined |
| DistinctKeys.JoinPuts | crates/cac_client/src/utils.rs:26 | Joining puts one comma between two texts |
| DistinctKeys.PlainKey | crates/cac_client/src/lib.rs:189-198 | The key of a request for everything, for each strategy |
| CacheKey.ReorderedSameText | crates/cac_client/src/utils.rs:5-29 | Documents that differ only by reordering array items, at any depth, have the same text |
| CacheKey.HashKey | crates/cac_client/src/lib.rs:189-198 | The key joins the text of the query, the strategy in lower case, and the sorted set of filter keys or "null" |
| CacheKey.EquivalentRequestsShareKey | crates/cac_client/src/lib.rs:189-198 | Requests equal up to the order of array items and the order and multiplicity of filter keys share a key |
| DistinctKeys.SameKeyIff | crates/cac_client/src/lib.rs:184-198 | Requests that give the same dimensions values without a dollar sign, and whose prefixes are not empty, not "null" and without a comma, share a key if and only if every value prints to the same text, and strategy and set of prefixes are the same |
| DistinctKeys.SameKindSharesKeyIff | crates/cac_client/src/lib.rs:184-201 | If moreover each dimension has two numbers, two strings, two booleans or twice null, they share a key if and only if they are the same, up to the order of prefixes, and then have the same answer on every configuration |
| CacheProtocol.StepKeepsInvariant | crates/cac_client/src/lib.rs:114-211 | Every step of every task, eviction and dropping included, keeps: writers exclude, every cached value answers the published configuration, writers know what they have done so far |
| CacheProtocol.RunKeepsInvariant | crates/cac_client/src/lib.rs:114-211 | So does every run |
| CacheProtocol.CacheIsNeverStale | crates/cac_client/src/lib.rs:135-211 | In every reachable state each cached value is the published configuration's answer to some request with its key, also after a failed parse |
| CacheProtocol.ReadersSeePublished | crates/cac_client/src/lib.rs:162-207 | A task that holds the read guard sees the published configuration |
| CacheProtocol.HitValues | crates/cac_client/src/lib.rs:199-210 | A lookup outside the locks can return a value if and only if that is the published configuration's answer to some request with the same key |
| CacheProtocol.NeverStuck | crates/cac_client/src/lib.rs:114-211 | In every reachable state with a task under way, some task needs no guard or one that nobody holds |
| CacheProtocol.ProceedsByStep | crates/cac_client/src/lib.rs:114-211 | Such a task has a step of its own that is neither eviction nor being dropped |
| Client.Client.constructor | crates/cac_client/src/lib.rs:101-111 | A new client caches nothing and starts from the epoch without a modification time |
| Client.Client.Fetch | crates/cac_client/src/lib.rs:114-133 | Only an answer with status 200 succeeds |
| Client.Client.UpdateCac | crates/cac_client/src/lib.rs:135-146 | Succeeds if and only if the fetch does and the body parses; then configuration, cache and modification time are replaced, emptied and stamped, otherwise all stay; and the change is a run of the protocol |
| Client.Client.GetResolvedConfig | crates/cac_client/src/lib.rs:183-211 | A hit returns the cached value and changes nothing, a miss resolves and remembers exactly one entry; either way the value answers some request with the key, and the change is a run of the protocol |
| Client.AnswerRestricts | crates/cac_client/src/lib.rs:202-210 | With a prefix list, even an empty one, the answer is exactly the part of the resolved configuration whose keys are a prefix with something behind it; without one it is all of that |
| Client.Client.GetFullConfigState | crates/cac_client/src/lib.rs:157-177 | A copy of the configuration, filtered by prefix and then by dimension values unless none are given |
| Client.SharedKeyHit | crates/cac_client/src/lib.rs:194-210 | Of two requests that share a key, one can be served the other's answer |
| Client.NullFilterSharesKey | crates/cac_client/src/lib.rs:189-198 | A request that filters by the one prefix "null" shares the key of one that does not filter, and their answers differ |
| Client.ItemOrderSharesKey | crates/cac_client/src/utils.rs:22-27 | Two requests with reordered items share a key, and a context tells them apart |
| CacheSafety.SafeTwins | crates/cac_client/src/lib.rs:189-198 | Whatever request shares the key of a safe one gives no dimension a value either, has the same strategy and filters by the same prefix |
| CacheSafety.QueryBreaksOut | crates/cac_client/src/lib.rs:194-198 | A request with dimensions shares the key of one without only if the latter's prefix contains a colon, then a dollar, then a strategy between question marks |
| CacheSafety.QueryIsWrong | crates/cac_client/src/utils.rs:22-27 | For every request that gives some dimension a value, even the variants, putting that value into an array keeps the key, and some configuration tells the two apart |
| CacheSafety.SeveralAreWrong | crates/cac_client/src/lib.rs:189-193 | Several prefixes share the key of the one prefix that joins them, and some configuration tells them apart |
| CacheSafety.HitsAlwaysRightIff | crates/cac_client/src/lib.rs:183-211 | Hits for a request are right on every configuration if and only if it gives no dimension a value and filters by exactly one prefix, which is neither empty nor "null", cannot be cut at a comma into two in order, and does not contain what would end another request's text |
| Admissions.VariantsAreGiven | crates/superposition_core/src/experiment.rs:89-181 | An identifier gets, in the order of the groups, the variants of exactly those groups whose condition applies, whose traffic is at least its index, whose bucket there is taken, and whose experiment, the last of that id which the context does not contradict, applies and has traffic times variants for the toss; an empty one gets none |
| Admissions.ContributionIsGiven | crates/superposition_core/src/experiment.rs:123-181 | The same for one group; the toss is the index in groups generated by the system and elsewhere the index in percent of the traffic, rounded down, which must not be zero |
| Admissions.FullTrafficRefusesNobody | crates/superposition_core/src/experiment.rs:169-181 | An experiment that applies, and whose traffic times its variants reaches a hundred, refuses nobody whom a group admits to one of its buckets |
| Experiments.TossAtMostHundred | crates/superposition_core/src/experiment.rs:126-159 | The toss of an admitted identifier is at most 100, for both group types, and its bucket is the one its hash points at |
| Experiments.BucketSticks | crates/superposition_core/src/experiment.rs:123-160 | More group traffic keeps an admitted identifier in its bucket, at no higher toss |
| Experiments.RampUpIsSticky | crates/superposition_core/src/experiment.rs:89-181 | Raising the traffic of any groups and experiments keeps every variant of every identifier, in order |
| Experiments.PrefilterLookup | crates/superposition_core/src/experiment.rs:195-199 | With unique ids, the prefilter keeps or drops each experiment whole, and drops none that applies |
| Experiments.PrefilterIsRedundant | crates/superposition_core/src/experiment.rs:97-111 | With unique ids, looking the buckets up in all experiments gives the same variants in the same order |
| Toss.DecideVariant | clients/javascript-browser/src/index.ts:83-105 | Nothing for non-integers, the first experimental variant for a negative toss, and otherwise the variant whose interval of length traffic contains the toss, if there is traffic and the toss is below traffic times count |
| Toss.QuotientIsShare | clients/javascript-browser/src/index.ts:98-104 | The rounded quotient names the interval that contains the toss, and is an index if and only if the toss is in range |
| Toss.ShareIsUnique | clients/javascript-browser/src/index.ts:98-104 | The intervals do not overlap |
| Toss.NegativeTossMisses | clients/javascript-browser/src/index.ts:91-104 | A negative toss that finds no experimental variant never falls on an index afterwards, whatever the sign of traffic |
| SnapshotProtocol.StepKeepsInvariant | crates/superposition_provider/src/client.rs:293-601 | Every step of every task keeps: guards exclude, fetches under way are distinct, writers know what is stored, and without a writer the halves belong together exactly when nothing is torn |
| SnapshotProtocol.RunKeepsInvariant | crates/superposition_provider/src/client.rs:293-601 | So does every run |
| SnapshotProtocol.NotTornWithoutTearing | crates/superposition_provider/src/client.rs:303-307 | A run in which no task is dropped between the two stores ends with nothing torn |
| SnapshotProtocol.SnapshotIsConsistent | crates/superposition_provider/src/client.rs:364-373 | In such runs readers always see one fetch |
| SnapshotCallers.QuietCallersAreSafe | crates/superposition_provider/src/client.rs:293-387 | In every run in which callers neither close nor give up fetching and storing, readers of both halves see one fetch |
| SnapshotCallers.TornByClosing | crates/superposition_provider/src/client.rs:551-560 | Closing can abort the poll between its two stores, and a reader that waits then sees experiments and groups of different fetches, though nobody gives up a call |
| SnapshotCallers.TornByAbandoning | crates/superposition_provider/src/client.rs:301-309 | So can a caller that gives up its call to create the configuration, though nobody closes or polls |
| SnapshotCallers.SnapshotHoldsIff | crates/superposition_provider/src/client.rs:551-601 | Readers of both halves see one fetch in all runs of such callers if and only if the callers neither close nor give up fetching and storing |
| SnapshotProtocol.NeverStuck | crates/superposition_provider/src/client.rs:301-311 | In every reachable state with a task under way, some task needs no guard or one that nobody holds, because handle, experiments, groups and update time are taken in that order |
| SnapshotProtocol.ProceedsByStep | crates/superposition_provider/src/client.rs:293-601 | Such a task has a step of its own that is not being dropped |
| Provider.ExperimentationConfig.constructor | crates/superposition_provider/src/client.rs:278-291 | Nothing is cached at first |
| Provider.ExperimentationConfig.Store | crates/superposition_provider/src/client.rs:303-309 | Both halves and the time are stored, as a run of the protocol |
| Provider.ExperimentationConfig.Poll | crates/superposition_provider/src/client.rs:358-387 | Both halves and the time are stored if both arrived, and nothing is otherwise; the change is a run of the protocol |
| Provider.ExperimentationConfig.CreateConfig | crates/superposition_provider/src/client.rs:293-350 | The same, with an error if a fetch failed or only one half arrived; polling starts only without an error and as the options say; the change is a run of the protocol |
| Provider.ExperimentationConfig.Close | crates/superposition_provider/src/client.rs:551-565 | The polling task is taken and aborted and the experiments are forgotten; the groups stay; the change is a run of the protocol |
| Provider.ExperimentationConfig.GetApplicableVariants | crates/superposition_provider/src/client.rs:567-601 | Succeeds if and only if both halves are cached, with exactly the variants that the groups of the pair stored last give the identifier for the completed context, in order, and none without an identifier |
| TomlExpressions.EvaluateTerm | crates/cac_toml/src/lib.rs:451-476 | The value of a term, a dimension without value being false, and the dimension written down; an integer beyond 64 bits panics |
| TomlExpressions.EvaluateComparison | crates/cac_toml/src/lib.rs:375-450 | Panics if and only if the two values cannot be compared; otherwise yields a boolean and writes down both sides from left to right |
| TomlComparisons.IntegersCompare | crates/cac_toml/src/lib.rs:392-400 | Each of the six operators on two integers |
| TomlComparisons.StringsCompare | crates/cac_toml/src/lib.rs:401-409 | Each on two strings, which are compared at their first difference, a proper prefix being smaller |
| TomlComparisons.FloatsCompare | crates/cac_toml/src/lib.rs:410-418 | Each on two floats, infinities included |
| TomlComparisons.NaNCompares | crates/cac_toml/src/lib.rs:410-418 | With NaN on a side only "!=" is true |
| TomlComparisons.StringAgainstInteger | crates/cac_toml/src/lib.rs:419-430 | A string that writes an integer, with or without a sign and leading zeros, compares as that integer if it fits into 64 bits, and any other as zero |
| TomlComparisons.StringAgainstFloat | crates/cac_toml/src/lib.rs:431-442 | A string compares as the float it reads as, or as 0.0 |
| TomlComparisons.OtherComparisons | crates/cac_toml/src/lib.rs:443-446 | A boolean on the left decides alone, and nothing else but the pairs above can be compared |
| TomlComparisons.DimensionAgainstLiteral | crates/cac_toml/src/lib.rs:375-476 | A given dimension compares with its value; one that is not given makes the comparison false |
| TomlComparisons.LiteralOnTheLeft | crates/cac_toml/src/lib.rs:375-476 | A literal compares with a literal or a dimension on its right, which counts as false if not given |
| TomlComparisons.TwoDimensions | crates/cac_toml/src/lib.rs:375-476 | So does a given dimension with another |
| TomlComparisons.TooLarge | crates/cac_toml/src/lib.rs:475 | An integer literal beyond 64 bits is a panic on either side |
| TomlExpressions.EvaluateAnd | crates/cac_toml/src/lib.rs:348-366 | Panics if and only if some comparison cannot be made; otherwise yields whether all are true and writes down all dimensions |
| TomlExpressions.EvaluateOr | crates/cac_toml/src/lib.rs:330-347 | Panics if and only if some comparison anywhere cannot be made; otherwise the root value is a boolean and exactly the expression's dimensions, from left to right and as often as they occur, have been written down, whatever the request |
| TomlExpressions.ExpressionMeaning | crates/cac_toml/src/lib.rs:330-366 | An expression has a value if and only if all its comparisons can be made, and is true if and only if all comparisons of some conjunction are |
| TomlComparisons.DimensionsAreMentioned | crates/cac_toml/src/lib.rs:451-456 | The dimensions written down are those on the sides of the comparisons |
| TomlResolver.DeclareDimensions | crates/cac_toml/src/lib.rs:140-154 | Dimensions get one, two, three and so on in the order of their declaration |
| TomlResolver.ComputePriority | crates/cac_toml/src/lib.rs:298-309 | The sum over all occurrences; panics if and only if a dimension is undeclared |
| TomlResolver.PrioritiesAdd | crates/cac_toml/src/lib.rs:298-309 | Priorities add up along lists, each occurrence counting |
| TomlResolver.SinglePriority | crates/cac_toml/src/lib.rs:230-309 | The priority of a comparison is that of the dimensions on its sides |
| TomlResolver.AndAddsPriorities | crates/cac_toml/src/lib.rs:230-309 | Joining one more comparison by "and" adds its priority, true or not |
| TomlResolver.OrAddsPriorities | crates/cac_toml/src/lib.rs:230-309 | Joining one more conjunction by "or" adds its priority, true or not |
| TomlResolver.Pop | crates/cac_toml/src/lib.rs:54-58 | The heap yields a greatest item under the comparator, which compares the priorities the other way round |
| TomlResolver.GreatestIsLowest | crates/cac_toml/src/lib.rs:54-58 | An item is greatest under that comparator if and only if its priority is lowest |
| TomlResolver.Choose | crates/cac_toml/src/lib.rs:217-268 | Exactly the entries whose expression holds are pushed, with the priority of their expression |
| TomlResolver.Overwrite | crates/cac_toml/src/lib.rs:278-291 | An item overwrites exactly the default keys it sets |
| TomlResolver.Drain | crates/cac_toml/src/lib.rs:276-294 | Emptying the heap gives each default key the value of an item of highest priority among those that set it, and the default without one |
| TomlResolver.GetResolvedConfig | crates/cac_toml/src/lib.rs:213-295 | The same for the entries of the context table, over exactly the default keys; panics if and only if an expression has no value or one that holds mentions an undeclared dimension |
| TomlResolver.SetsMeaning | crates/cac_toml/src/lib.rs:230-291 | An entry sets a key if and only if its overrides are a table with the key and all comparisons of some conjunction are true |
| TomlResolver.NoPanicMeaning | crates/cac_toml/src/lib.rs:217-309 | There is no panic if and only if every comparison of every entry can be made, and every entry that holds mentions declared dimensions only |
| Dependencies.CreateConnections | crates/context_aware_config/src/api/dimension/utils.rs:52-79 | The loop records a new cohort in exactly the graphs that mention its base, and in that of the base |
| Dependencies.CreationKeepsWellFormed | crates/context_aware_config/src/api/dimension/utils.rs:52-79 | Creating a cohort on a known dimension keeps the graphs one forest of known cohorts on which they all agree |
| Dependencies.RegularKeepsWellFormed | crates/context_aware_config/src/api/dimension/handlers.rs:142-175 | So does creating a regular dimension |
| Dependencies.ClosedHoldsBelow | crates/context_aware_config/src/helpers.rs:350-420 | A set that holds the live cohorts of a dimension and of its own members holds everything below the dimension |
| Dependencies.PopLive | crates/context_aware_config/src/helpers.rs:359-418 | Replacing the top of the stack by its cohorts keeps the traversal invariant: nothing is visited or stacked twice, and nothing is forgotten |
| Dependencies.PopDead | crates/context_aware_config/src/helpers.rs:359-363 | Skipping the top of the stack keeps it too |
| Dependencies.TraversalEnds | crates/context_aware_config/src/helpers.rs:359-420 | With an empty stack exactly the cohorts reached through live ones have been visited |
| Removal.RemoveConnections | crates/context_aware_config/src/api/dimension/utils.rs:83-113 | The loop takes a deleted cohort out of exactly the graphs that mention its base, and drops an emptied own entry |
| Removal.DeletedEntry | crates/context_aware_config/src/api/dimension/utils.rs:96-111 | Entry by entry, deletion takes the name out of all graphs, although it stores only some; only an emptied own entry disappears with it |
| Removal.DeletableIffNoCohorts | crates/context_aware_config/src/api/dimension/handlers.rs:522-524 | A graph is empty, and the dimension may be deleted, if and only if no cohort is based on it |
| Removal.CreationKeepsTidy | crates/context_aware_config/src/api/dimension/utils.rs:52-79 | Creating a cohort also keeps: entries have bases, no own entry is empty, graphs and types agree |
| Removal.DeletionKeepsTidy | crates/context_aware_config/src/api/dimension/utils.rs:83-113 | Deleting a dimension without cohorts keeps all of it |
| Removal.DeletionUndoesCreation | crates/context_aware_config/src/api/dimension/utils.rs:52-113 | Removing the connections of a cohort right after making them restores all graphs |
| Workspaces.CheckNew | crates/context_aware_config/src/api/dimension/handlers.rs:86-132 | A new dimension is accepted if and only if its name is new, its position is allowed, its function fits its type, and the base of a cohort is known, not local, and not lower |
| Workspaces.InsertDimension | crates/context_aware_config/src/api/dimension/handlers.rs:147-180 | Room is made at the position, the cohort is recorded in the graphs, and the row is inserted |
| Workspaces.RemoveDimension | crates/context_aware_config/src/api/dimension/handlers.rs:526-561 | The cohort is taken out of the graphs, the row is deleted, and the gap is closed |
| Workspaces.CheckMove | crates/context_aware_config/src/api/dimension/handlers.rs:311-353 | A move is accepted if and only if the position is allowed, below that of the base, and above those of all cohorts of the dimension |
| Workspaces.CheckUpdate | crates/context_aware_config/src/api/dimension/handlers.rs:292-353 | An update is accepted if and only if its move is, its function fits the type of the dimension, and its schema and functions are valid |
| Workspaces.MoveRow | crates/context_aware_config/src/api/dimension/handlers.rs:356-404 | Parking the row, shifting the rows between and placing the row puts it at the new position and moves each of the others passed by one |
| Workspaces.ApplyUpdate | crates/context_aware_config/src/api/dimension/handlers.rs:341-404 | The row is moved if that is asked for, and given exactly the schema and function that are asked for |
| Workspaces.RequestKeepsSound | crates/context_aware_config/src/api/dimension/handlers.rs:62-611 | Every accepted creation, deletion and update keeps the table sound: tidy graphs, leaves for local cohorts, compact distinct positions, cohorts below their bases, fitting functions, a regular dimension for the variants at position 0 |
| Workspaces.AllServed | crates/context_aware_config/src/api/dimension/handlers.rs:62-611 | So does every sequence of requests, accepted or not |
| Workspaces.EveryWorkspaceIsSound | crates/context_aware_config/src/api/dimension/handlers.rs:62-611 | In every workspace the graphs are a well-formed forest, positions are distinct and count from 0, cohorts stand lower than their bases, remote cohorts have functions, local ones have none and no cohorts of their own, and the dimension of the variants is regular |
| Acceptance.CreatableIff | crates/context_aware_config/src/api/dimension/handlers.rs:86-181 | In a sound table with room, a creation passes the checks if and only if the name is new and the table it leads to is sound |
| Acceptance.DeletableIff | crates/context_aware_config/src/api/dimension/handlers.rs:494-561 | A deletion does if and only if the dimension is known and the table it leads to is sound |
| Acceptance.UpdatableIff | crates/context_aware_config/src/api/dimension/handlers.rs:292-404 | An update does if and only if the dimension is known and the table it leads to is sound |
| Acceptance.CreationWrites | crates/context_aware_config/src/api/dimension/handlers.rs:147-180 | The new row is as asked for; the others move up by one from its position on, and otherwise keep all but their graphs |
| Acceptance.DeletionWrites | crates/context_aware_config/src/api/dimension/handlers.rs:526-561 | The row is gone; the others close the gap, and otherwise keep all but their graphs |
| Acceptance.UpdateWrites | crates/context_aware_config/src/api/dimension/handlers.rs:341-404 | Exactly the asked-for position, schema and function are written, in that row alone; the rows passed move by one |
| Workspaces.DeleteUndoesCreate | crates/context_aware_config/src/api/dimension/handlers.rs:147-561 | Deleting a dimension right after its creation restores the whole table, positions included |
| Workspaces.MoveUndoesMove | crates/context_aware_config/src/api/dimension/handlers.rs:340-404 | Moving a dimension back is always allowed and restores the whole table |
| Workspaces.Workspace.CreateDimension | crates/context_aware_config/src/api/dimension/handlers.rs:62-181 | The stored table after the request is the one the request stands for, and unchanged on an error |
| Workspaces.Workspace.DeleteDimension | crates/context_aware_config/src/api/dimension/handlers.rs:494-611 | The same for deletion, refused for the variants, unknown or used dimensions, and those with cohorts |
| Workspaces.Workspace.UpdateDimension | crates/context_aware_config/src/api/dimension/handlers.rs:261-404 | The same for updates of position, schema and function |
| StartingDimensions.DimensionsToStartFrom | crates/superposition_types/src/logic.rs:198-241 | On every branch of every tree exactly the first dimension with a value or the first local cohort is found, and each is listed once |
| RemoteValues.StartIff | crates/superposition_types/src/logic.rs:195-241 | An evaluation starts exactly at what is given, or a local cohort, with nothing above it that is given or local |
| RemoteValues.WaitingIff | crates/superposition_types/src/logic.rs:210-237 | The walk passes exactly through what is neither given nor local, with nothing above it that is |
| StartingDimensions.WalkFrom | crates/superposition_types/src/logic.rs:216-238 | The walk from one root without a value ends and finds all starts below it, and only starts |
| StartingDimensions.WaitingLiesBelowRoot | crates/superposition_types/src/logic.rs:210-237 | Whatever has no value, nor anything it is based on, is reached from such a root |
| RemoteCohorts.EvaluateDependents | crates/context_aware_config/src/helpers.rs:342-422 | The stack loop ends on every forest; on success it has computed exactly the cohorts reached through known, non-local ones; it fails exactly where a cohort that is due has no function or its function fails |
| RemoteCohorts.BaseHasValue | crates/context_aware_config/src/helpers.rs:397-408 | Each cohort is computed when what it is based on has a value in the context |
| RemoteCohorts.ComputedOnce | crates/context_aware_config/src/helpers.rs:397-408 | No cohort is computed twice, and each keeps the value computed for it |
| RemoteCohorts.LoggedHaveValues | crates/context_aware_config/src/helpers.rs:408 | Exactly the computed cohorts gain values; the others keep theirs |
| RemoteEvaluation.EvaluateStart | crates/context_aware_config/src/helpers.rs:443-458 | One start adds itself with the given value and the remote cohorts below it, each computed by its own function in the context as it then was, and changes nothing else; it fails only at a cohort that is due and has no function or whose function fails |
| RemoteEvaluation.YieldsApart | crates/context_aware_config/src/helpers.rs:442-461 | Two starts account for different dimensions |
| RemoteEvaluation.ComputedOnceOverall | crates/context_aware_config/src/helpers.rs:442-461 | Over the whole evaluation no cohort is computed twice, each keeps the value computed for it, and each start the value given for it |
| RemoteEvaluation.EvaluateRemoteCohorts | crates/context_aware_config/src/helpers.rs:433-473 | On success every start has been evaluated, and the outcome is exactly what the computations came to, with the given local cohorts: a value for exactly the starts, the remote cohorts that follow them, and those local cohorts; given regular and local values are kept. It fails only at a cohort that is due and has no function or whose function fails |
| RemoteValues.RemoteValueIff | crates/context_aware_config/src/helpers.rs:433-461 | After a finished evaluation a regular dimension or remote cohort has a value if and only if one is given for it or for something it depends on |
| RemoteValues.RemoteValueIsComputed | crates/context_aware_config/src/helpers.rs:397-461 | The given value stays where nothing above it is given; otherwise the value is the computed one, whatever was given |
| RemoteOrder.DueSees | crates/context_aware_config/src/helpers.rs:397-408 | When a cohort is due, of what it depends on exactly those dimensions have values that any evaluation gives values to |
| RemoteOrder.OrderDoesNotMatter | crates/context_aware_config/src/helpers.rs:433-473 | Where functions answer by what their cohorts depend on, if one order of the evaluation finishes, no other gets stuck, and all that finish come to the same |
| OrderMatters.OtherDimensionsMatter | crates/context_aware_config/src/helpers.rs:397-408 | For any function that answers differently with other dimensions in the context, there are a workspace and a request for which the order of the starts decides the outcome |
| OrderMatters.OrderIrrelevantIff | crates/context_aware_config/src/helpers.rs:397-461 | The order is irrelevant in all workspaces and for all requests if and only if every function answers by the value of the base dimension alone, in all contexts that a workspace has room for |
| LocalCohorts.CohortIsFirstHolding | crates/superposition_types/src/logic.rs:51-86 | The cohort is the option at the one place, if any, where the rule exists and holds of the value of the base and every option before has a rule that does not hold; it is "otherwise" if and only if there is no such place |
| LocalCohorts.EvaluateBelow | crates/superposition_types/src/logic.rs:89-142 | The stack loop ends, and gives each cohort that follows the start the value it is worth, and no other |
| LocalCohorts.EvaluateFromStarts | crates/superposition_types/src/logic.rs:161-176 | Together the starts give values to exactly the dimensions that are worth one |
| LocalCohorts.FillOtherwise | crates/superposition_types/src/logic.rs:178-190 | Exactly the local cohorts without a value become "otherwise" |
| LocalCohorts.EvaluateLocalCohorts | crates/superposition_types/src/logic.rs:151-193 | The outcome is what each dimension is worth by its base alone, so it depends on no order; without dimensions the request is returned |
| LocalCohorts.WaitingIsStatus | crates/superposition_types/src/logic.rs:195-241 | A dimension is waiting in the evaluation if and only if neither it nor anything it is based on has a value or is local |
| LocalCohorts.ActiveLiesBelowStart | crates/superposition_types/src/logic.rs:161-176 | Whatever is worth a value is a start or lies below one through cohorts that follow |
| Retention.DeadIffGap | crates/superposition_types/src/logic.rs:88-142 | In every workspace, the evaluation does not get to a dimension if and only if something it depends on, or itself, is missing below something given |
| Retention.GivenIsKeptIff | crates/superposition_types/src/logic.rs:148-150 | The value given for a regular dimension is always kept; that given for a remote cohort is kept if and only if there is no such gap above it |
| Retention.RemoteCanBeLeftOut | crates/superposition_types/src/logic.rs:148-150 | A workspace and a request for which a given value of a remote cohort is dropped |
| CompletedRequests.CompletedGiven | crates/superposition_types/src/logic.rs:88-142 | A regular dimension or remote cohort is in the completed request if and only if it is given a value without a gap above it, and then with that value |
| CompletedRequests.CompletedLocal | crates/superposition_types/src/logic.rs:88-193 | A local cohort always is: by its rules where its base keeps a value, as given where nothing above it has one, and otherwise as "otherwise" |
| CompletedRequests.CompletionsConsistentIff | crates/superposition_types/src/logic.rs:151-193 | In every workspace two completed requests are consistent if and only if the values given and kept in both agree, variants by inclusion, and each local cohort comes to the same whose base does not keep a value in both |
| CompletedRequests.FilteringPreservesIff | crates/superposition_types/src/config.rs:283-305 | All configurations over the dimensions of a workspace may be filtered by one request and resolved for another if and only if that holds |
| CompletedRequests.FewerValuesAreInconsistent | crates/superposition_types/src/logic.rs:178-190 | It does not when neither the local cohort nor its regular base is in the first request, and the second gives the base a value that the rules do not make "otherwise" |
| CompletedRequests.FilteringCanDropContexts | crates/superposition_types/src/config.rs:283-305 | A workspace, a configuration and a request for which filtering by no values changes the answer |

## Left out

- Updates in place: `&mut` parameters are passed in and returned; Rust admits no alias of them.
- Numbers are kept by their printed text: `0.0` and `-0.0` differ here and are equal in `serde_json`.
- Configuration.FilterByDimensionsIdempotent: the completion of requests is an arbitrary function here and in the resolution and client laws; `LocalCohorts` shows what the program's own computes, and `CompletedRequests` what that means for filtering.
- JSON logic rules, value compute functions with their database lookups, hashing of identifiers and float parsing are parameters.
- Experiments.RampUpIsSticky: the hash is an arbitrary function into 0..99; nothing is claimed about the share of identifiers that a group admits.
- Cascade.MostSpecificWins: rows are given in the order the query asks for; the request that recomputes all stored weights is not modelled.
- CacheKey.ReorderedSameText: the converse is false, keys collide (`NullFilterSharesKey`, `ItemOrderSharesKey`), so cache laws speak of requests with the same key; `SameKeyIff` says where it is true.
- CacheProtocol.NeverStuck: locks are not queues here; progress is stated for guards that nobody holds, which every queueing discipline admits.
- Time to live, time to idle and capacity of the cache are evictions at any time.
- `run_polling_updates`, `get_default_config`, `get_last_modified` and the timers of both pollers.
- Both `on_demand_config` methods of the provider: they ask for a write guard on the update time while still holding a read guard on it.
- The evaluation cache of the provider, its converters, and `CacConfig`.
- The prefix option of `get_applicable_variants`, and the `experimentation_client` crate, which repeats the bucket code and takes its locks one after the other.
- Toss.DecideVariant: quotients and products are exact; rounding of JavaScript numbers beyond 53 bits is not modelled.
- The browser's configuration reader; its `deepMerge` is not part of this model.
- TomlExpressions.EvaluateOr: starts from the parsed tree; the PEST grammar and the splitting of literals are left out.
- TomlResolver.ComputePriority: the sum is unbounded; overflow of 64 bits is not modelled.
- The sanity checks of TOML files other than the numbering of dimensions.
- Workspaces.CheckNew: the checks of schemas and of published functions are one flag, and so is the use of a dimension by contexts.
- Workspaces.CheckUpdate: the checks of schemas and of published functions are one flag here too; descriptions and validation functions are left out; they touch nothing that the laws speak of.
- RemoteOrder.OrderDoesNotMatter: for one table it gives a sufficient condition; the exact one is over all workspaces.
- Audit columns, configuration versions, Redis, HTTP, authorization and transactions of the handlers.
- The size of the weight column, and the decimal printing of powers of two.
- Log messages; error texts are shortened.
