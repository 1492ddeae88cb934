# Verified model of Elastic Agent's component model, package specifications and supporting loops

A Dafny model of the parts of Elastic Agent where a small mistake is hard to see: turning a policy into
components, caching the expected configurations of units, deep-merging YAML package specifications,
loading runtime specifications, the Fleet check-in loop and its backoffs, the test driver's state machine
and log watcher, the bounded parallel runner of the build, and the language of build platforms.
`dafny verify dfyconfig.toml` checks the whole project.

## The pieces

**Policy to components** (`PolicySpec`, `PolicyParsing`, `PolicyModel`, `Components`, `ComponentModel`,
`ComponentConservation`, `UnitIdentity`). A policy is a graph of Go maps, which are references; the
parsing steps delete and insert keys. `PolicySpec` says on values what a policy parses to. The methods of
`PolicyParsing` and `PolicyModel` work on the maps themselves, clone before they edit, and modify nothing
but the clone or the cache handed to them, so the policy keeps its value. `Snapshot` reads a
value through the references and links the two. `PolicyToComponents` is proved to conserve inputs:
the input units over all components are, with multiplicity, those of the enabled inputs of enabled
outputs, each in the component of its type, output and runtime manager. Component IDs are not unique
(the components of one input type share their ID across runtime managers), and the dynamic flag of a
component is taken over all enabled inputs of its type; nothing here claims otherwise. The cache of unit
configurations is threaded through the generation: without one, or with a tidy one and a canonical
policy, the components are those of the uncached model, and the sources used are those of their units.

**Expected configurations and their cache** (`Words`, `Values`, `ConfigHash`, `ExpectedConfigs`,
`ConfigCache`). Configurations are untyped values, sources are protobuf values. Foreign functions (float
formatting, string hashing, number conversion) are fields of `Env` with the laws they are used by, which
`LawfulWitness` shows can be met. Go's map iteration order is a `Chooser`. Words of 64 bits are natural
numbers below 2^64 with explicit wrap-around. In every run of lookups and sweeps a successful lookup
returns a result with the source of the configuration asked for, up to float64 equality, however hashes
collide; that is up to the sign of zeros. On canonical
configurations (no byte slices, no `json.Number`, integers within 2^53, no NaN or -0, no two keys equal
under case folding) the cached result is the uncached one in every field and every error.

**Deep merge of YAML** (`YamlNodes`, `DeepMerge`, `DeepMergeMeaning`, `DeepMergeSteps`,
`DeepMergeRewrite`, `DeepMergeStable`, `YamlFix`, `DeepMergeReading`, `DeepMergeUnions`, `DeepMergePromise`,
`DeepMergeDocuments`). A document is a store of nodes with identities; aliases are shared identities and
acyclic. `Shallow` is decoding by the rule of the Merge Key Language-Independent Type for YAML 1.1: first
occurrence wins. `Deep` is what the rewriting makes of a document, on trees: a key with a literal mapping
somewhere is united over the node and the mappings it reaches through aliases, unless the node's own value
is of another kind and at least as long as what was collected. For every document the decoder accepts,
`fixDeepMerge` is proved to rewrite it so that `Shallow` of the result is `Deep` of the original. `Promise`
is what the comments say: every mapping value is united over everything merged, at every level, and scalars
and sequences are read as they were. The two agree exactly when nothing is lost at any key, and what is lost
where is known for every key (`PromiseKeptIff`, `AllSourcesIff`, `NativeKeptIff`).

**Runtime specifications** (`RuntimeSpecs`). `LoadRuntimeSpecs` ranges over files in any order and stops at
the first clash; it is proved to succeed exactly when no two supported inputs clash.

**Check-in loop and backoffs** (`CheckinLoop`, `Backoffs`). A run is a sequence of ticks with the attempts
made in them. Durations are 64-bit integers that wrap around; a random draw from an empty range panics.

**Test driver** (`TestMachine`, `StateMachine`, `LogWatcher`). Callbacks and Reached functions are
parameters. A run of the machine is compared with the script of its states; the log watcher with the
lines of the whole stream.

**Build** (`ParallelRunner`, `Platforms`, `PlatformExpressions`, `PlatformLists`). The parallel runner is a
transition system over all interleavings. Platform expressions are given as words; the table of all
platforms is a parameter.

`Listing` holds sorted listings, partitions and sums over keys, used throughout.

## Where the code and its description differ

- The check-in loop is described as extending the interval after six consecutive 401s; it does so on the
  seventh, and transient failures between them do not reset the count (`CheckinLoop.HourExactlyOnSevenths`,
  `CheckinLoop.SixthDoesNotExtend`).
- Scalar and sequence values are said to be left to the decoder's first-wins rule. One that the decoder
  reads from the original document is read from the fixed one exactly when no mapping on the way to it
  unites the key (`DeepMergeReading.NativeKeptIff`). For a scalar of the mapping itself that is when no
  mapping reached through aliases has a literal mapping for the key (`ScalarKeptIff`), for a sequence when
  there is none or it has at least two items for every sub-key collected (`SequenceKeptIff`), and for a value
  read through sources, where all merge items are aliases, when there is none (`InheritedKeptIff`).
  `DeepMergeDocuments.LoseScalar` and `LoseScalarOnTheWay` are documents that lose a scalar.
- Sub-keys are said to be united over all merge sources, explicit keys always winning. Not collected are
  mappings merged in place, values that are aliases of mappings, even a mapping's own, and what a value
  reads through a merge key, except the first one. A key reads the union over all that is merged exactly
  when every sub-key decided by such a part has the same value in what is read
  (`DeepMergeUnions.AllSourcesIff`); it does when there is no such part (`ReadsAllSources`). Documents that
  lose a sub-key for each of these causes are `DeepMergeDocuments.LoseInline`, `LoseAliasValue`,
  `LoseOwnAlias` and `LoseInherited`.
- The log watcher reads the first byte of a line after trimming it, so a line of white space only stops it.
  It survives a stream exactly when there is no such line (`LogWatcher.ReadIsLines`,
  `LogWatcher.SpaceLinePanics`).
- The equal-jitter backoff panics after some number of waits unless 0 < init < 2^61 and 0 < max < 2^62, and
  never then (`Backoffs.NeverPanicsIff`). Its waits stay below max/2 + max for all draws exactly when
  2 init <= max (`Backoffs.JitterCapIff`).
- `NewPlatformList` is described as starting from the default platforms unless others are added, with
  "defaults" and "xbuild" as selections. It starts from the whole table when nothing is added or removed,
  takes "defaults" for the name of a system, and lets "xbuild" narrow down the other selections. The list
  is the documented one exactly under the condition of `PlatformLists.ListedAsDocumentedIff`.
  `SelectSolaris`, `SelectDefaults` and `CrossBuildsNarrow` are expressions that give another list.

## Model

| member | source | states |
|---|---|---|
| `PolicyModel.ToComponents` | pkg/component/component.go:745-803 | The modified components of the policy followed by those of the monitoring configuration, or the first error. On success with a tidy cache and canonical policies, the swept cache holds exactly the sources of the units made and those left by failed calls, each once |
| `PolicyModel.ApplyModifiers` | pkg/component/component.go:768-773 | The modifiers applied in turn, up to the first error |
| `PolicyModel.PolicyToComponents` | pkg/component/component.go:1034-1097 | The policy keeps its value. Errors of feature flags, parsing and limits are returned in that order and leave the cache alone; otherwise the components are those of the enabled outputs in name order with the policy's feature flags and limits, they hold exactly the enabled inputs of the policy, every component has input units and one output unit, last, with the component's ID, and unit IDs are distinct. For a tidy cache and a canonical policy the units are those made without a cache and exactly their sources become used; for any other cache the same holds up to the contents of unit configurations |
| `PolicyModel.AgentSectionOf` | pkg/component/component.go:1023-1031 | A new map with exactly the "agent" section and the flattened "agent." keys of the policy, in any order of ranging over it |
| `PolicyModel.EqualPoliciesEqualModels` | pkg/component/component.go:1034-1097 | Two results for policies of equal value are both errors or the same bag of components, whatever the iteration orders; with caches that can be noticed, the same bag up to unit configurations |
| `PolicyModel.ToIntermediate` | pkg/component/component.go:1132-1284 | The outputs and inputs a policy's value parses to, or the error of a bad output or of the first bad input; the policy is only read |
| `PolicyModel.ParsesDeterministic` | pkg/component/component.go:1132-1284 | The parse is determined by the policy's value, except which of several bad outputs is reported |
| `PolicyModel.ParseInputs` | pkg/component/component.go:1188-1279 | The inputs loop stops at the first bad input, and otherwise adds every input to its output in order and changes nothing else of the outputs |
| `PolicyModel.ParseInput` | pkg/component/component.go:1189-1279 | One input, parsed from a clone: type alias, ID and duplicate check, output, flags, level, runtime manager, revision, in the order of the checks |
| `PolicyModel.Take` | pkg/component/component.go:1221-1263 | The four consumed keys are read as if none had been removed, and exactly they are removed |
| `PolicyModel.TypeAndId` | pkg/component/component.go:1196-1217 | An aliased type is replaced in the clone, and the ID falls back to the canonical type |
| `PolicyModel.FindDuplicate` | pkg/component/component.go:1434-1445 | Found exactly when some output holds an input with the ID |
| `PolicyModel.ParsedPlanDistinct` | pkg/component/component.go:1209-1220 | The inputs of a successful parse have distinct IDs and are those the outputs hold |
| `PolicyModel.GeneratedFaithful` | pkg/component/component.go:1087-1096 | Generated components conserve the inputs, are well shaped and have distinct unit IDs |
| `PolicyModel.GeneratedSame` | pkg/component/component.go:998-1018 | Two generations for the same outputs give the same bag of components |
| `PolicyParsing.ParseOutput` | pkg/component/component.go:1287-1343 | The parsed output of the map's value before the edits, its configuration without the enabled flag and the level and with the enrolment headers |
| `PolicyParsing.ParseOutputs` | pkg/component/component.go:1162-1176 | Every output parsed from a clone of its map, or the error of a bad one |
| `PolicyParsing.InjectHeaders` | pkg/component/component.go:1310-1333 | Headers go to elasticsearch outputs only, existing ones win and keep their map untouched, a header section that is no map is an error |
| `PolicyParsing.AddHeaders` | pkg/component/component.go:1324-1329 | The agent's headers overridden by those the map had |
| `PolicyParsing.InjectInputPolicyId` | pkg/component/component.go:1100-1128 | The revision is set in a clone of the policy section, or in a new one, and a section of another type is left alone |
| `PolicyParsing.GetLogLevel` | pkg/component/component.go:1447-1467 | The agent's level unless the map sets one, which is removed |
| `PolicySpec.PlanFacts` | pkg/component/component.go:1188-1279 | One parsed input per input of the policy, in order, directed at a known output; IDs are pairwise distinct |
| `PolicySpec.ParsedInputReads` | pkg/component/component.go:1196-1278 | Key by key, what a parsed input reads from its map (type, ID, output, flags, level, manager), how the revision is set in its policy section, and that its configuration keeps all other keys and none of the consumed ones |
| `PolicySpec.ParsedOutputReads` | pkg/component/component.go:1287-1343 | Key by key, what a parsed output reads, its level included, and keeps; of headers set by both, its own stay |
| `PolicySpec.DuplicateIsUsed` | pkg/component/component.go:1434-1445 | The duplicate search is exactly membership among the IDs parsed so far |
| `PolicySpec.AddConsistent` | pkg/component/component.go:1269-1278 | Appending an input keeps the outputs and the parsed inputs in correspondence |
| `ComponentConservation.Conservation` | pkg/component/component.go:870-1018 | As bags, the input units of all components with their component, output, type and manager are those expected for the enabled inputs of enabled outputs |
| `ComponentConservation.TypeConservation` | pkg/component/component.go:870-996 | The same for one input type of one output |
| `ComponentModel.ComponentsForOutput` | pkg/component/component.go:998-1018 | The components of an output's types in some order that lists each type once |
| `ComponentModel.GenerateComponents` | pkg/component/component.go:1063-1096 | The components of the enabled outputs, outputs sorted by name |
| `ComponentModel.EveryComponentWellShaped` | pkg/component/component.go:870-996 | At least one input unit, then one output unit whose ID is the component's; the component belongs to an enabled output |
| `ComponentModel.ModelOrderIndependent` | pkg/component/component.go:1004-1016 | The bag of components is the same for any two orders of ranging over the types |
| `Components.ComponentsForInputType` | pkg/component/component.go:870-996 | One component per enabled input when units are isolated; otherwise one per runtime manager, managers sorted, with the inputs of that manager in order. With a tidy cache and canonical configurations, exactly those without a cache, and the sources used grow by those of the units |
| `Components.Render` | pkg/component/component.go:845-866 | Without a cache the uncached result; with a tidy one and a canonical configuration the same, its source becoming used |
| `Components.GroupByManager` | pkg/component/component.go:900-914 | The groups are those of the managers of enabled inputs, each with its inputs in order |
| `UnitIdentity.UnitIdsDistinct` | pkg/component/component.go:902-996 | Distinct input IDs give distinct unit IDs within a component, the output unit's included |
| `UnitIdentity.ModelUnitIdsDistinct` | pkg/component/component.go:870-1018 | The same for every component generated from a parsed policy |
| `UnitIdentity.BeatInputIdRoundTrip` | pkg/component/component.go:601-625 | For a beat without isolated units, the beat input ID of an input's unit is the input's ID |
| `UnitIdentity.NoBeatInput` | pkg/component/component.go:601-625 | Output units, unknown units and other components have none |
| `ConfigCache.ExpectedConfigCache.ExpectedConfig` | pkg/component/expected_config_cache.go:47-67 | The new entries and the result are those of the lookup on values |
| `ConfigCache.ExpectedConfigCache.Sweep` | pkg/component/expected_config_cache.go:70-88 | Every bucket is compacted to its used entries with flags cleared, empty buckets are dropped |
| `ConfigCache.ExpectedConfigCache.Len` | pkg/component/expected_config_cache.go:91-100 | The number of entries over all buckets |
| `ConfigCache.Compact` | pkg/component/expected_config_cache.go:72-86 | In place, the first k slots become the used entries of the old contents, in order, flags cleared |
| `ConfigCache.MatchIsConversion` | pkg/component/expected_config_cache.go:162-223 | A stored entry matches a configuration exactly when that converts to the stored source, numbers compared as float64 |
| `ConfigCache.LookupSound` | pkg/component/expected_config_cache.go:47-67 | For any configuration and any colliding hashes, a successful lookup returns a result with the configuration's source up to float64 equality, and exactly it when no number is a zero; a failing one fails like the uncached generation and changes nothing |
| `ConfigCache.LookupRefines` | pkg/component/expected_config_cache.go:47-67 | On canonical configurations the result is the uncached one and exactly its source becomes used |
| `ConfigCache.SourcesUnique` | pkg/component/expected_config_cache.go:47-67 | No two entries share a source, even in different buckets |
| `ConfigCache.SweepKeepsUsed` | pkg/component/expected_config_cache.go:70-88 | After a sweep the sources are exactly those used before it, and no flag is set |
| `ConfigCache.EveryLookupReturnsItsSource` | pkg/component/expected_config_cache.go:47-100 | The same after every run of lookups and sweeps |
| `ConfigCache.CanonicalRun` | pkg/component/expected_config_cache.go:47-100 | Every canonical run keeps entries distinct and stored under their hash, with exactly the live sources marked |
| `ConfigCache.CachedIsUncached` | pkg/component/expected_config_cache.go:47-67 | After every canonical run a lookup is the uncached generation, every field and every error |
| `ConfigCache.SweptCacheIsLiveSet` | pkg/component/expected_config_cache.go:70-88 | Right after a sweep the cache holds each source looked up since the previous sweep once, and nothing else |
| `ConfigHash.HashConfigValue` | pkg/component/expected_config_cache.go:104-145 | The hash is independent of the order in which maps are iterated |
| `ConfigHash.HashBySource` | pkg/component/expected_config_cache.go:104-145 | Values with the same source hash equally, whatever their numeric types |
| `ConfigHash.HashSensitive` | pkg/component/expected_config_cache.go:104-159 | Replacing one value at any depth by one with a different hash changes the whole hash |
| `Words.Mix64Bijective` | pkg/component/expected_config_cache.go:148-155 | mix64 has a two-sided inverse on 64-bit words |
| `Words.RotlBijective` | pkg/component/expected_config_cache.go:157-159 | rotl64 by any amount is undone, from both sides, by rotating by the rest |
| `Values.ValueEqualsIsConversion` | pkg/component/expected_config_cache.go:162-223 | Comparing a source with a configuration, without converting it, is converting it and comparing the sources |
| `Values.SameSourceIsEquality` | pkg/component/expected_config_cache.go:180-223 | Without NaN and -0 that comparison is equality |
| `Values.SameSourceExact` | pkg/component/expected_config_cache.go:180-223 | What agrees with a value without zeros is that value |
| `ExpectedConfigs.FieldsRead` | pkg/component/config.go:77-157 | On success, every typed field is the text or number of a value whose key is its name exactly or up to case, or empty; flattened and nested data_stream fields do not contradict each other; one stream per map, in order |
| `ExpectedConfigs.SourceDeterminesFields` | pkg/component/config.go:77-157 | Canonical configurations with one source have equal typed fields and equal errors, in any iteration order |
| `ExpectedConfigs.NestedSourcesAreConversions` | pkg/component/config.go:77-157 | The nested sources are the conversions of the maps their messages were read from, although only the whole is converted |
| `YamlFix.YamlDocument.FixDeepMerge` | dev-tools/mage/pkgspecs.go:101-156 | Called on any node, finished nodes keep decoding to their deep meaning, the node becomes finished, and every node is finished at most once, after its children |
| `YamlFix.YamlDocument.FixDocument` | dev-tools/mage/pkgspecs.go:48-94 | Shallow decoding of the fixed document is the deep meaning of the original one, for every document the decoder accepts; the document is left alone exactly when no reachable mapping has anything to collect, which is so for the result of a flat one |
| `YamlFix.FixAgain` | dev-tools/mage/pkgspecs.go:101-156 | A second application with a fresh visited set changes nothing exactly when no reachable new mapping, carrying a merge key, has anything to collect, as is always so for a flat document |
| `YamlFix.FixedIsStable` | dev-tools/mage/pkgspecs.go:101-156 | In a fixed document no reachable original mapping has anything to collect, and no reachable one at all when no new one merges |
| `YamlFix.SourcesFirst` | dev-tools/mage/pkgspecs.go:101-156 | Every merge source is finished before the mapping that merges it |
| `YamlFix.RewriteNode` | dev-tools/mage/pkgspecs.go:121-155 | Rewriting a mapping whose children are finished finishes it and leaves the finished ones alone |
| `DeepMerge.CollectMergedMappingKeys` | dev-tools/mage/pkgspecs.go:167-329 | Collected are exactly the keys whose merged content is longer than the node's own value, with that content |
| `DeepMerge.Visit` | dev-tools/mage/pkgspecs.go:213-285 | For every key, the sub-keys of the mapping and then of its sources are appended unless seen |
| `DeepMerge.RewriteMapping` | dev-tools/mage/pkgspecs.go:135-154 | The collected keys get new nodes, replaced in place or prepended, whatever the order; nothing else changes |
| `DeepMergeRewrite.FinishMerging` | dev-tools/mage/pkgspecs.go:101-156 | Every finished node still decodes to its deep meaning after a mapping was rewritten |
| `DeepMergeMeaning.GatherIsUnion` | dev-tools/mage/pkgspecs.go:167-329 | What is collected from already rewritten sources is the union over the original ones |
| `DeepMergeStable.AllStable` | dev-tools/mage/pkgspecs.go:101-156 | For finished original mappings nothing more would be collected |
| `DeepMergeSteps.MergeCarried` | dev-tools/mage/pkgspecs.go:193-207 | The merge key that ends up in a collected value is that of the first value in order that has one |
| `DeepMergeSteps.MergedCount` | dev-tools/mage/pkgspecs.go:308-326 | What is collected has one entry per sub-key of the original document and one for a carried merge key |
| `DeepMergePromise.PromiseKeptIff` | dev-tools/mage/pkgspecs.go:62-69 | In a fixed document every node reads what is promised, at every level, exactly when nothing is lost at any key |
| `DeepMergePromise.DictIsPromiseIff` | dev-tools/mage/pkgspecs.go:158-162 | Where the values below do, a mapping has its promised meaning exactly when nothing is lost at its keys |
| `DeepMergeReading.NativeKeptIff` | dev-tools/mage/pkgspecs.go:158-162 | A scalar or sequence that the decoder reads from the original document is read from the fixed one exactly when no mapping on the way to it, those merged in place included, unites the key |
| `DeepMergeReading.ScalarKeptIff` | dev-tools/mage/pkgspecs.go:158-162 | An own scalar is read exactly when no participating mapping has a literal mapping for the key |
| `DeepMergeReading.SequenceKeptIff` | dev-tools/mage/pkgspecs.go:300-326 | An own sequence is read exactly when there is none, or the sequence has two items for every sub-key collected |
| `DeepMergeReading.InheritedKeptIff` | dev-tools/mage/pkgspecs.go:158-162 | Where all merge items are aliases: a scalar read from the original document, or a sequence read through sources, is kept exactly when no mapping reached has a literal mapping for the key |
| `DeepMergeUnions.PartsAre` | dev-tools/mage/pkgspecs.go:167-307 | In depth-first order, the first part to have a sub-key winning, the parts of a key's values make up the union over all that is merged, and the collected ones what is collected |
| `DeepMergeUnions.ReadsAllSources` | dev-tools/mage/pkgspecs.go:158-162 | A united key reads the union over all that is merged when every merge item is an alias, no value is an alias of a mapping, and no value reads further keys through a merge key |
| `DeepMergeUnions.AllSourcesIff` | dev-tools/mage/pkgspecs.go:158-307 | In general, any key that the decoder finds a mapping for does exactly when each sub-key decided by a part that is not collected has the same value in the first collected part that has it, or in what is read through the carried merge key |
| `DeepMergeDocuments.LoseScalar` | dev-tools/mage/pkgspecs.go:101-156 | A document whose scalar is read as the mapping of a merge source after fixing |
| `DeepMergeDocuments.LoseScalarOnTheWay` | dev-tools/mage/pkgspecs.go:101-156 | The same for a scalar read through a mapping merged in place |
| `DeepMergeDocuments.LoseInline` | dev-tools/mage/pkgspecs.go:293-307 | A document whose mapping merged in place loses its sub-key, which the union has |
| `DeepMergeDocuments.LoseAliasValue` | dev-tools/mage/pkgspecs.go:231-245 | The same for a source whose value is an alias |
| `DeepMergeDocuments.LoseOwnAlias` | dev-tools/mage/pkgspecs.go:180-192 | A mapping whose own value is an alias loses it to that of its source |
| `DeepMergeDocuments.LoseInherited` | dev-tools/mage/pkgspecs.go:193-207 | The sub-key that the value of a source reads through its merge key is lost |
| `RuntimeSpecs.LoadRuntimeSpecs` | pkg/component/load.go:132-199 | For every order of files, loading succeeds exactly when no two distinct supported inputs clash in names or aliases, and the tables are then determined by the files |
| `RuntimeSpecs.LoadFile` | pkg/component/load.go:160-191 | One file extends the tables by its supported inputs, or there is a clash |
| `RuntimeSpecs.CollidesIsClash` | pkg/component/load.go:168-181 | The lookups in the tables find a clash exactly when there is one with an input loaded before |
| `RuntimeSpecs.ResolveIdempotent` | pkg/component/load.go:276-289 | Resolving an alias lands on a loaded input, and a second resolution changes nothing |
| `RuntimeSpecs.Validate` | pkg/component/spec.go:20-43 | Accepted exactly for version 2 when no later definition of an input name lists a platform already listed for that name; a repeat within the first definition is tolerated |
| `RuntimeSpecs.AcceptedFileHasNoNameClash` | pkg/component/spec.go:20-43 | Two supported inputs of an accepted file have different names |
| `RuntimeSpecs.GetInputTells` | pkg/component/load.go:276-289 | The errors tell unknown inputs from inputs of other platforms |
| `CheckinLoop.Run` | pkg/fleetgateway/checkin_loop.go:57-92 | In every run the events are those of its ticks (n transient failures with n waits, then the end), the counter is at most 6, and 401s since the last success are seven per escalation plus the counter |
| `CheckinLoop.OnTick` | pkg/fleetgateway/checkin_loop.go:67-90 | One tick accounts for the attempts made in it, waits numbered from the reset; it is stopped exactly when a wait after transient failures only is interrupted |
| `CheckinLoop.CounterStep` | pkg/fleetgateway/checkin_loop.go:78-85 | The counter passes its maximum exactly on a seventh 401 since the last success |
| `CheckinLoop.HourExactlyOnSevenths` | pkg/fleetgateway/checkin_loop.go:57-92 | In every trace a 401 is followed by the one-hour duration exactly when it is a seventh one since the last success |
| `CheckinLoop.SixthDoesNotExtend` | pkg/fleetgateway/checkin_loop.go:78-85 | Six ticks ended by a 401 do not extend the interval, a seventh does |
| `Backoffs.JitterDoubles` | pkg/backoff/equal_jitter.go:47-67 | After k waits the duration is 2 init doubled k times, capped, without overflow |
| `Backoffs.NeverPanicsIff` | pkg/backoff/equal_jitter.go:47-67 | No number of waits panics exactly when 0 < init < 2^61 and 0 < max < 2^62 |
| `Backoffs.JitterWaitBounds` | pkg/backoff/equal_jitter.go:53-67 | A wait is at least half the duration and below that plus the range of its draw, without overflow |
| `Backoffs.JitterCapIff` | pkg/backoff/equal_jitter.go:53-67 | All waits are below max/2 + max exactly when 2 init <= max |
| `Backoffs.EqualJitterBackoff.Wait` | pkg/backoff/equal_jitter.go:60-76 | Panics exactly on an empty range; otherwise waits the announced time and moves to the next duration |
| `Backoffs.ExpExactIff` | pkg/backoff/exponential.go:35-53 | The k-th wait is init doubled k times, capped, for every k exactly when init and max are below 2^62 |
| `Backoffs.ExpBackoff.Wait` | pkg/backoff/exponential.go:52-62 | Waits what NextWait announced |
| `TestMachine.StrictIsExact` | pkg/testing/machine.go:284-314 | Strict matching holds exactly when the observed keys are distinct, are the expected ones, and each is as expected; it implies the loose one |
| `TestMachine.StateComponentsReached` | pkg/testing/machine.go:284-314 | The loop with its found map decides the matching of components |
| `TestMachine.StateComponentUnitsReached` | pkg/testing/machine.go:337-368 | The same for units |
| `TestMachine.StateReached` | pkg/testing/machine.go:255-282 | A state is reached by its own function or by all its conditions; never before the first report |
| `StateMachine.NewStateMachine` | pkg/testing/machine.go:192-212 | Accepted exactly when all states are valid and some state configures |
| `StateMachine.Machine.Next` | pkg/testing/machine.go:214-253 | The machine stops where the report leaves it, the trace stays an initial part of the script, and it asks to continue exactly while states remain |
| `StateMachine.StopUnique` | pkg/testing/machine.go:214-253 | A report determines the state at which a step stops |
| `StateMachine.ScriptOnce` | pkg/testing/machine.go:214-253 | The script has every callback and configuration once |
| `StateMachine.Drive` | pkg/testing/machine.go:214-253 | Over every sequence of reports up to the first error: nothing happens twice, the current state never goes back, each state passed was reached in turn, and cont is false exactly from the end on |
| `LogWatcher.Watcher.Write` | pkg/testing/log.go:46-88 | A write reads the remainder and the chunk as one text: events, panic and new remainder |
| `LogWatcher.WriteAll` | pkg/testing/log.go:46-88 | Every splitting of a stream into writes has the events, panic and remainder of the whole stream |
| `LogWatcher.ReadChunks` | pkg/testing/log.go:46-88 | Reading in two parts is reading at once |
| `LogWatcher.ReadIsLines` | pkg/testing/log.go:46-88 | A text is survived exactly when no line is blank; its lines are then dispatched in order, without a trailing carriage return and without empty ones, and what follows the last newline remains |
| `LogWatcher.LinesUnique` | pkg/testing/log.go:46-88 | The lines and the rest are the only splitting of a text at newlines |
| `LogWatcher.JoinLines` | pkg/testing/log.go:46-88 | They join to the text |
| `LogWatcher.SpaceLinePanics` | pkg/testing/log.go:76-78 | A line of one space stops the watcher |
| `LogWatcher.HandleLine` | pkg/testing/log.go:69-87 | What one line dispatches, and when it panics |
| `ParallelRunner.StepInv` | dev-tools/mage/common.go:530-616 | Every step keeps: the channel holds one element per goroutine between acquire and release, the wait group counts the unfinished, functions start once, failures are collected once, and calls return last |
| `ParallelRunner.AtMostCapacityRun` | dev-tools/mage/common.go:530-616 | In every interleaving at most capacity functions run at once |
| `ParallelRunner.ReturnedCallIsComplete` | dev-tools/mage/common.go:530-616 | When a call returns each of its functions has run once and finished, its errors are exactly its failures, and it panics exactly when there are any |
| `ParallelRunner.Progress` | dev-tools/mage/common.go:530-616 | Some step is enabled until all goroutines have released and all calls returned |
| `ParallelRunner.RunsAreBounded` | dev-tools/mage/common.go:530-616 | Every run is bounded by the steps left |
| `ParallelRunner.CanComplete` | dev-tools/mage/common.go:530-616 | From every reachable state all calls can complete |
| `Platforms.NameRoundTrip` | dev-tools/mage/platforms.go:110-182 | The attributes of a name have that name, exactly unless the architecture is a bare "armv" or a slash ends the name |
| `Platforms.NamedExactly` | dev-tools/mage/platforms.go:254-266 | A full name selects the platform of that name and no other |
| `Platforms.Select` | dev-tools/mage/platforms.go:254-266 | The platforms of the system, or of the system and architecture, in order |
| `Platforms.Remove` | dev-tools/mage/platforms.go:237-251 | The others, in order |
| `Platforms.Deduplicate` | dev-tools/mage/platforms.go:455-470 | The names of the list, sorted, each with the last platform of that name |
| `PlatformExpressions.ParseExpression` | dev-tools/mage/platforms.go:275-321 | The terms by kind, or an error exactly when some term names nothing |
| `PlatformExpressions.Filter` | dev-tools/mage/platforms.go:403-444 | Name-sorted, one per name, exactly the members selected and not removed; invalid terms and additions are refused, a blank expression changes nothing |
| `PlatformExpressions.KeptExactly` | dev-tools/mage/platforms.go:403-444 | Where names identify platforms, the members are exactly those kept |
| `PlatformExpressions.FilterIdempotent` | dev-tools/mage/platforms.go:403-444 | Filtering twice is filtering once |
| `PlatformExpressions.FiltersCommute` | dev-tools/mage/platforms.go:403-444 | Two filters can be applied in either order |
| `PlatformLists.NewPlatformList` | dev-tools/mage/platforms.go:341-391 | Exactly the platforms of the initial set that are chosen, not removed and, with xbuild, can be cross-built |
| `PlatformLists.ListedAsDocumentedIff` | dev-tools/mage/platforms.go:322-391 | For any table and expression, the list is the documented one exactly when something is added or removed or only defaults are selected, and every platform of the documented initial set that is not removed is selected alike: with "xbuild" beside other selections, named if it can be cross-built and not selected otherwise; with "defaults", named by another term or a default just if its system has that name |
| `PlatformLists.DefaultsNeedAnotherTerm` | dev-tools/mage/platforms.go:322-391 | Without "xbuild" and a system called "defaults": exactly when the start is the documented one and, if "defaults" is selected, another term names every default not removed |
| `PlatformLists.SelectDefaults` | dev-tools/mage/platforms.go:370-376 | Selecting "defaults" alone gives the empty list, the documented one being all defaults |
| `PlatformLists.SelectSolaris` | dev-tools/mage/platforms.go:350-376 | Selecting a system without defaults gives its platforms, the documented list being empty |
| `PlatformLists.CrossBuildsNarrow` | dev-tools/mage/platforms.go:387-390 | Beside a selection, "xbuild" lists what is in both, the documented list having the defaults in either |
| `PlatformLists.RemovesOnly` | dev-tools/mage/platforms.go:237-251 | Removing a full name removes that platform and nothing else |
| `PlatformLists.GetPlatforms` | dev-tools/mage/settings.go:1979-2002 | Never linux/386 or windows/386; exactly the requested platforms of the table that pass every filter; an error exactly when an expression is bad |

## Left out

- Feature flags, limits and component modifiers are foreign: functions of the values they are given. The monitoring configuration, or the error of making it, is a parameter. The signed section and times of configuration are left out of components.
- The configurations of parsed inputs and outputs are values read off the clones; the sharing of nested maps between the clones and the policy is modelled while parsing, and not afterwards.
- Nil Go maps as values of a policy, and policies with cycles.
- Cache entries are values in a sequence per hash; the slices' shared backing arrays appear only in `Compact`.
- ConfigCache.CachedIsUncached: only on canonical configurations; outside them a hit may return the typed fields of another configuration with the same source.
- ConfigHash.HashBySource: not for byte slices, which hash unlike the strings they convert to.
- YAML keys are strings: keys that are themselves mappings, and a quoted "<<" that is no merge key, are left out, and so are comments, tags and styles of nodes.
- Documents with cyclic aliases, and those the decoder refuses: mappings with repeated keys and merge values that are no mappings.
- Reading and decoding of specification files, binary checks, and the evaluation of runtime preventions: foreign.
- Validity of component IDs as directory names is a parameter.
- CheckinLoop.Run: finite runs only, the scheduler and the backoff being events; the time of ticks is left out.
- Times of schedulers and backoffs other than the computed durations.
- Reached functions are pure; callbacks are represented by whether they fail.
- Trimming of white space and decoding of JSON lines are parameters of the log watcher; the alert channel is a log of messages, so that sending on it blocks is left out.
- Functions given to the parallel runner return or panic, and do not call the runner; its mutexes are atomic steps, and the panic on an argument that is no function, before anything is spawned, is left out.
- The table of build platforms, the tokenizing of expressions into words, and Merge, which is deduplication of a concatenation.
- The rest of the repository: process supervision, upgrades, packaging, file systems, network, Docker and cloud tooling.
