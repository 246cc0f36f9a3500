# Project MAYA: a model in Dafny

This project models the parts of Project MAYA that compute rather than plumb, and proves what they promise.
`dafny verify dfyconfig.toml` checks everything.

| file | component |
|---|---|
| `ConflictResolution.dfy` | one winner per entity among memory hits (`plugins/memory/governance.py`) |
| `ContextBuilder.dfy`, `Retrievals.dfy` | packing of retrievals into a token budget |
| `VectorStore.dfy` | cosine similarity and the k nearest entries |
| `RetrieverService.dfy` | normalisation, provider fallback, publication of the operational context |
| `GovernanceValidator.dfy` | reasons, severities, enforcement hints and counters of the passive validator |
| `Migration.dfy` | the transactional merge of a legacy key-value table |
| `Base64.dfy`, `BrokerRequests.dfy`, `TokenLifecycle.dfy` | encoding, request verification and token lifecycle of the broker |
| `ConfigProfiles.dfy` | placeholder substitution in configuration profiles |
| `FileTree.dfy`, `Wheelhouse.dfy`, `Repair.dfy` | a directory tree; unpacking of wheels; repair of the local state |
| `Backup.dfy`, `BackupRoundTrip.dfy` | backup archives; what a restored backup contains |
| `Sequences.dfy`, `StableSort.dfy`, `Text.dfy` | filters, a verified stable sort, string operations |

Code that changes state is modelled by classes and methods; each is proved equal to a specification function,
and the theorems are about those functions. Floats are reals, SQL tables are maps by their unique column (the
vector table: rows in insertion order), directories and zip archives are maps or sequences of named byte
strings, and JSON is a datatype. Clocks, nonces, generated tokens, provider answers, the square root and the
parsers of numbers, dates and JSON are parameters. Signatures and hashes are ideal: a signature verifies only
for the key and payload it was made with, and only equal inputs have equal digests.

## What is worth knowing

Several properties one would expect hold only under a condition, which is proved to be exact or, where the
code and its description differ, follows the code:

- `normalize_confidence` is idempotent on exactly the values up to 100: the cap turns larger ones into 10,
  which a second call reads as ten per cent.
- A conflict's winner is independent of the order of the hits exactly when only one hit has the least key.
  Resolving a resolved list changes nothing but the decisions, always.
- The reason code names a component that is strictly in the winner's favour exactly when some hit has a key before
  that of every other. Otherwise, say for two equal hits without a record id, the input order decides and the code
  still says the record id did.
- A context can be rebuilt from its own blocks exactly when no block is named by the empty string; such a name
  comes back as no name at all.
- Two retrievals without any name count as duplicates of each other. Annotations are found by name: a block gets
  the verdict on the last result with its name, and none without a name. That is the verdict on the result it was
  made from exactly when the result has a name and the last result of the name has the same verdict; always when
  names are present and distinct. Of two results of one chunk, a distrusted one can so be shown as kept.
- A context keeps to its token budget exactly when the budget is not negative.
- `get` publishes an empty context when the provider finds nothing, but leaves the previous context in place
  when the provider is unknown or fails.
- Scopes are stored joined by blanks and split again, which gives them back exactly when each is one word. The
  scopes in the contracts of the connectors all are, so token status always reports precisely the scopes of the
  provider's connector.
- Replacing the two placeholders one after the other is simultaneous substitution exactly when the data
  directory, put behind a `$`, neither contains the second placeholder nor ends in a non-empty beginning of it.
  A directory without `$` is fine unless it is empty or begins with a brace. Over any other directory some profile
  loads and comes out different.
- Wheels merge exactly when equal targets have equal contents and no target lies below another.
- A backup can be restored into an empty directory exactly when no archived file lies above or below
  `config/maya-config.json`; an archived file in that very place wins over the normalised configuration.

## Model

| member | source | states |
|---|---|---|
| ConflictResolution.NormalizeConfidenceTwice | plugins/memory/governance.py:20-39 | confidences land in [0, 10], and normalising twice equals normalising once exactly up to 100 |
| ConflictResolution.ConfidenceRanges | plugins/memory/governance.py:20-39 | 10 to 100 is read as a percentage, less stands for itself, more for the cap of 10, negative for 0, none for the default |
| ConflictResolution.KeyOrder | plugins/memory/governance.py:133-143 | the five-part key is a total order without ties between different keys |
| Text.StrLeIff | plugins/memory/governance.py:133-143 | record ids are ordered character by character |
| ConflictResolution.WinnerIsLeast | plugins/memory/governance.py:145-147 | the winner is one of the hits and no hit of the entity has a smaller key |
| ConflictResolution.WinnerByFields | plugins/memory/governance.py:133-147 | over the records: no hit of the entity has more authority than the winner; among equals none more confidence, then a newer time stamp, then an earlier source, then a smaller id, each missing field by its default |
| ConflictResolution.TimestampForms | plugins/memory/governance.py:42-59 | an instant written with `Z`, with a zero offset or without an offset is the same |
| ConflictResolution.OtherTimestamps | plugins/memory/governance.py:42-59 | missing, empty and unreadable time stamps are the epoch; one with an offset is read as it is |
| ConflictResolution.ReasonNamesFirstDifference | plugins/memory/governance.py:153-186 | the reason is the first key component in which winner and runner-up differ, or the record id when they differ in none; the runner-up is least among the others; no conflict means a single hit |
| ConflictResolution.ReasonByFields | plugins/memory/governance.py:153-186 | each reason is given if and only if winner and runner-up differ in just that field of their records and agree in those before |
| ConflictResolution.ReasonIsStrictIff | plugins/memory/governance.py:153-186 | the winner is strictly better than the runner-up, and in the named component, if and only if some hit of the input has a key before that of every other; otherwise the record id is the reason given |
| ConflictResolution.SameRecordTie | plugins/memory/governance.py:145-186 | two hits of one record are decided by their order, and the reason names the record id although nothing differs |
| ConflictResolution.WinnerIgnoresOrderIff | plugins/memory/governance.py:145-147 | the winner survives every permutation of the hits if and only if different hits never share the least key |
| ConflictResolution.DecisionIgnoresInputOrder | plugins/memory/governance.py:188-192 | with a unique least key, permuting all results changes neither winner nor the text hashed into the decision id |
| ConflictResolution.DecisionByFields | plugins/memory/governance.py:148-202 | a decision lists the ids of the group in input order, the winner, and a digest text of entity, winner and sorted ids |
| ConflictResolution.EntitiesExact | plugins/memory/governance.py:120-130 | the groups are exactly the entities that occur, each once |
| ConflictResolution.GroupByField | plugins/memory/governance.py:120-128 | a hit is grouped under the entity its record names, unless that is missing or empty |
| ConflictResolution.ResolvedGroup | plugins/memory/governance.py:120-222 | of each entity exactly its winner remains |
| ConflictResolution.ResolvedKinds | plugins/memory/governance.py:218-222 | hits without entity all remain, in stable score order; so do the winners |
| ConflictResolution.ResolvedShape | plugins/memory/governance.py:218-222 | the result is sorted by score, descending, and has one hit per entity plus the hits without entity |
| ConflictResolution.ResolvedFalls | plugins/memory/governance.py:218-222 | the scores of the result never rise, a missing score being zero |
| ConflictResolution.ResolveIsIdempotent | plugins/memory/governance.py:105-222 | resolving the result again returns the same sequence, and every decision is then "no conflict" |
| ConflictResolution.ResolveTwice | plugins/memory/governance.py:105-222 | calling it twice returns the same hits in the same order and leaves a decision without conflict on each winner, and on every other hit what it had |
| ConflictResolution.GroupByEntity | plugins/memory/governance.py:120-128 | the grouping loop yields the entities in order of first appearance, each with all its hits in order, and the rest |
| ConflictResolution.AttachDecision | plugins/memory/governance.py:145-203 | the decision is attached to the winner and nothing else |
| ConflictResolution.ResolveConflicts | plugins/memory/governance.py:105-222 | the loop returns the specified sequence; each winner carries its decision, every other hit is unchanged |
| ContextBuilder.Deduplicate | plugins/memory/context_builder.py:57-65 | the loop with the seen-set computes the specified duplicates-free list |
| ContextBuilder.PackBlocks | plugins/memory/context_builder.py:67-90 | the loop packs the specified prefix, its sum, and reports truncation exactly when something is dropped |
| ContextBuilder.BuildContext | plugins/memory/context_builder.py:44-112 | the whole method computes the specified context |
| ContextBuilder.EstimateCountsWords | plugins/memory/context_builder.py:19-26 | words joined by white space are estimated at their number |
| ContextBuilder.EstimateAtLeastOne | plugins/memory/context_builder.py:19-26 | only the empty text is estimated at 0, and white space alone at 1 |
| ContextBuilder.EstimateIgnoresPadding | plugins/memory/context_builder.py:19-26 | white space around a text changes nothing |
| ContextBuilder.EstimateAdds | plugins/memory/context_builder.py:19-26 | two texts with a blank between are estimated at the sum of the two |
| ContextBuilder.TotalCountsWords | plugins/memory/context_builder.py:67-92 | the total of a context is the estimate of all its contents put together |
| ContextBuilder.BlockByFields | plugins/memory/context_builder.py:76-88 | every block shows the fields of one retrieval with content, under its chunk id or else its id |
| ContextBuilder.BlocksByRank | plugins/memory/context_builder.py:48-56 | blocks come in falling order of score, trust and similarity, a missing number being zero |
| ContextBuilder.BlockBestOfChunk | plugins/memory/context_builder.py:48-65 | no retrieval of the same chunk with content ranks above the one that became the block |
| ContextBuilder.NothingMissing | plugins/memory/context_builder.py:44-65 | in a context that is not truncated every retrieval with content has a block of its chunk |
| ContextBuilder.ContextCarries | plugins/memory/context_builder.py:92-110 | the context names its budget and carries the summary it was given |
| ContextBuilder.ContextFits | plugins/memory/context_builder.py:67-92 | the blocks are the longest prefix of the ranked, duplicate-free list that fits the budget; total and truncation are exact, and the total keeps to the budget if and only if that is not negative |
| ContextBuilder.LargerBudgetExtends | plugins/memory/context_builder.py:67-90 | a larger budget only appends blocks |
| ContextBuilder.BestOfItsChunk | plugins/memory/context_builder.py:44-65 | of each chunk exactly the best-ranked retrieval is kept |
| ContextBuilder.RebuildFromBlocks | plugins/memory/context_builder.py:44-92 | building from the returned blocks gives the same blocks untruncated if and only if no block is named by the empty string |
| ContextBuilder.RebuiltNamesAreNotEmptyText | plugins/memory/context_builder.py:76-78 | a context built from blocks never has a block named by the empty string, so rebuilding it is always stable |
| ContextBuilder.EmptyIdIsLost | plugins/memory/context_builder.py:76-78 | a lone retrieval with an empty id gives a block whose rebuild differs |
| VectorStore.AccumulatorStep | plugins/memory/indexer.py:195-201 | the bound dot² ≤ na·nb is kept by one round of the accumulator loop |
| VectorStore.CauchySchwarz | plugins/memory/indexer.py:195-201 | dot² ≤ na·nb for all vectors of equal length |
| VectorStore.CosineRange | plugins/memory/indexer.py:187-204 | the cosine lies in [-1, 1], is symmetric, and is 1 for a non-zero vector and itself |
| VectorStore.DotAppend | plugins/memory/indexer.py:195-201 | the dot product of joined vectors is the sum of the parts |
| VectorStore.DotOne | plugins/memory/indexer.py:195-201 | the dot product of single numbers is their product |
| VectorStore.CosineTimesLengths | plugins/memory/indexer.py:187-204 | the cosine times the two lengths is the dot product |
| VectorStore.CosineOfScaled | plugins/memory/indexer.py:187-204 | stretching a vector keeps the cosine, turning it round negates it |
| VectorStore.CosineSimilarity | plugins/memory/indexer.py:187-204 | the loop computes the cosine, 0 for empty, unequal or zero vectors |
| VectorStore.LocalVectorStore.AddEntry | plugins/memory/indexer.py:124-169 | an entry with a new id is appended with its dimension, its normalised columns as given and the clock for a missing creation time; a known id changes nothing |
| VectorStore.LocalVectorStore.QueryByVector | plugins/memory/indexer.py:206-241 | the query returns the specified ranking cut at k, with Python's slice for negative k |
| VectorStore.TopKIsBest | plugins/memory/indexer.py:238-241 | min(k, n) entries in descending similarity, and no omitted entry is better than a returned one |
| VectorStore.TiesInRowOrder | plugins/memory/indexer.py:238-240 | entries of equal similarity keep their row order |
| VectorStore.SmallerKIsPrefix | plugins/memory/indexer.py:240-241 | the results for a smaller k are a prefix of those for a larger one |
| VectorStore.NegativeKDrops | plugins/memory/indexer.py:240-241 | a negative k drops so many matches from the end |
| VectorStore.StoredVectorIsFound | plugins/memory/indexer.py:206-241 | querying with a stored non-zero vector returns a match of similarity 1 first |
| RetrieverService.AcceptedAreNormal | plugins/memory/retriever_service.py:236-286 | every returned result has the provider's name, enough trust, and score and similarity in [0, 1] |
| RetrieverService.AcceptedIff | plugins/memory/retriever_service.py:135-136 | accepted are the normalised results with enough trust, and no others |
| RetrieverService.NormalizedByFields | plugins/memory/retriever_service.py:236-257 | normalisation sets provider, trust, similarity and score and keeps all else |
| RetrieverService.BaseByFields | plugins/memory/retriever_service.py:258-268 | the score starts from the given one, else the normalised similarity, else zero |
| RetrieverService.DecayByFields | plugins/memory/retriever_service.py:270-281 | a result decays with a half-life and a time stamp in the past, the update before the creation |
| RetrieverService.ScoreIsProduct | plugins/memory/retriever_service.py:258-286 | the score is that start times the decay times the trust, brought into [0, 1] |
| RetrieverService.SimilarityKeepsOrder | plugins/memory/retriever_service.py:245-257 | normalising similarities is monotone, strictly so on [-1, 1], where the clamp never acts |
| RetrieverService.StoreRankingSurvives | plugins/memory/retriever_service.py:245-257 | the ranking of the vector store stays in order under normalisation and its clamp never fires |
| RetrieverService.RouteTakesFirst | plugins/memory/retriever_service.py:128-162 | the outcome is that of the first question that was neither answered by a RetrieverError nor filtered to empty, each question having its own answer; the fallbacks are the failures before it |
| RetrieverService.RouteFrom | plugins/memory/retriever_service.py:128-162 | the same from any question on, with the failures so far |
| RetrieverService.AskedIff | plugins/memory/retriever_service.py:127-134 | asked are the listed providers that are registered, for a query under a name |
| RetrieverService.PrimaryFirst | plugins/memory/retriever_service.py:127-134 | a usable primary is asked before its fallbacks |
| RetrieverService.RetrieverService.RegisterProvider | plugins/memory/retriever_service.py:57-59 | a provider is added under its name |
| RetrieverService.RetrieverService.QueryVector | plugins/memory/retriever_service.py:124-178 | the method takes that route over the usable providers, counts query and fallbacks, and publishes the context of just what it returns |
| RetrieverService.RetrieverService.Search | plugins/memory/retriever_service.py:180-221 | the same over the registered providers, without counting a query |
| RetrieverService.RetrieverService.Get | plugins/memory/retriever_service.py:89-122 | the outcome by case, and which cases publish a context and which leave the old one |
| RetrieverService.LastAnnotationFound | plugins/memory/context_builder.py:100-110 | looking up by name finds the annotation of the last result with that name |
| RetrieverService.AnnotationOfName | plugins/memory/context_builder.py:100-110 | looking up any name finds the annotation of its last result, and no name finds nothing |
| RetrieverService.FoundByName | plugins/memory/context_builder.py:100-110 | looking up the name of a result finds the annotation of the last result of that name |
| RetrieverService.OwnAnnotation | plugins/memory/context_builder.py:94-110 | with distinct names every block carries the annotation of its own result, whatever annotates the results |
| RetrieverService.OwnAnnotationIff | plugins/memory/context_builder.py:94-110 | a block of a context carries the verdict on the result it was made from if and only if that result has a name and the last result of the name has the same verdict |
| RetrieverService.DistinctNamesSuffice | plugins/memory/context_builder.py:94-110 | when all results have distinct names every block carries its own verdict |
| RetrieverService.WrongVerdictShown | plugins/memory/context_builder.py:94-110 | of two results of one chunk the block of the distrusted, better-ranked one is annotated as kept |
| GovernanceValidator.LowTrustIff | plugins/memory/governance_validator.py:245-252 | low trust is given if and only if trust times the override, brought into [0, 1], is below the threshold |
| GovernanceValidator.AgeIff | plugins/memory/governance_validator.py:254-266 | too old and unreadable time stamps are named exactly when they are |
| GovernanceValidator.ProviderIff | plugins/memory/governance_validator.py:268-272 | a provider is named as not allowed or denied exactly when the lists say so |
| GovernanceValidator.ContentIff | plugins/memory/governance_validator.py:274-300 | missing provenance, private content and a blocked category are named exactly when a required field is missing, a pattern matches, the category is listed |
| GovernanceValidator.OneReasonPerPattern | plugins/memory/governance_validator.py:284-289 | there is one privacy reason for each matching pattern |
| GovernanceValidator.MissingInOrder | plugins/memory/governance_validator.py:274-282 | the missing fields are named in the order of the policy |
| GovernanceValidator.VerdictByFields | plugins/memory/governance_validator.py:227-326 | a verdict carries name, provider, reasons and derived trust of its retrieval and is info exactly when it is kept |
| GovernanceValidator.ErrorIff | plugins/memory/governance_validator.py:311-323 | a verdict is an error exactly for a refused provider or private content |
| GovernanceValidator.MaxSeverityBounds | plugins/memory/governance_validator.py:311-323 | the severity bounds that of every reason and is reached by one of them unless it is info |
| GovernanceValidator.DeriveSeverity | plugins/memory/governance_validator.py:311-323 | the loop finds that maximum despite leaving early |
| GovernanceValidator.RulesCombine | plugins/memory/governance_validator.py:156-183 | the score adjustment is the least of all rules that match, the block flag their disjunction |
| GovernanceValidator.RulesSetSomething | plugins/memory/governance_validator.py:160-186 | the rules give a hint exactly when a matching rule does something |
| GovernanceValidator.RulesRedact | plugins/memory/governance_validator.py:175-178 | the redactions of the matching rules are gathered in the order of the reasons |
| GovernanceValidator.RulesNote | plugins/memory/governance_validator.py:179-182 | their notes are put one after the other with blanks between |
| GovernanceValidator.FallbackByKinds | plugins/memory/governance_validator.py:188-221 | without a rule that acts, which reasons block, redact or adjust the score, and to what |
| GovernanceValidator.HintIgnoresReasonOrder | plugins/memory/governance_validator.py:156-221 | whether there is a hint, its adjustment and its block flag depend only on the set of reasons |
| GovernanceValidator.BuildEnforcementHints | plugins/memory/governance_validator.py:156-221 | the loop over rules and the fallback cascade compute the specified hint |
| GovernanceValidator.CountReasons | plugins/memory/governance_validator.py:305-307 | each counter grows by how often its reason occurs |
| GovernanceValidator.CountsStep | plugins/memory/governance_validator.py:295-309 | after one more block the counters are the multiplicities over all annotations so far |
| GovernanceValidator.Validator.Validate | plugins/memory/governance_validator.py:223-335 | total, warnings, annotations and counters of both reports, and that they are remembered |
| GovernanceValidator.KeptAndWarned | plugins/memory/governance_validator.py:295-309 | kept blocks and warnings add up to all blocks; the kept counter is the number of kept blocks |
| GovernanceValidator.ReportAddsUp | plugins/memory/governance_validator.py:223-335 | for every input: kept + warnings = total, and severity is info exactly for kept blocks |
| Migration.MergeIsMapMerge | src/project_maya/migration.py:103-181 | per key: without overwrite existing rows stay and the first source row wins, with overwrite the last one does; other keys are untouched |
| Migration.ExistingRowsStay | src/project_maya/migration.py:103-116 | without overwrite nothing that was there changes |
| Migration.MigratedEntry | src/project_maya/migration.py:87-165 | a migrated row has a vector if and only if its text parses to a list of finite numbers, and then element by element that list, its length and its key; otherwise the value is kept as parsed or decoded |
| Migration.MigratedDigest | src/project_maya/migration.py:74-84 | its digest is that of the raw column |
| Migration.MigratedEmbedding | src/project_maya/migration.py:156-174 | the embeddings row of a migrated vector has the same digest, its origin and the time |
| Migration.MigratedMemoryEntry | src/project_maya/migration.py:184-205 | in the plain table the value is stored as it was |
| Migration.MigratedKeysIff | src/project_maya/migration.py:316-338 | a key is reported as migrated exactly when it occurs and was free or may be overwritten |
| Migration.MergeConserves | src/project_maya/migration.py:316-338 | migrated and skipped rows add up to the source rows, and nothing is skipped when overwriting |
| Migration.MergeKeepsReferences | src/project_maya/migration.py:150-174 | if every chunk id had its embeddings row before, it has it after |
| Migration.EmbeddingOfMigrated | src/project_maya/migration.py:156-174 | which embeddings row a migrated vector ends up with, in both modes |
| Migration.OtherEmbeddingsStay | src/project_maya/migration.py:156-174 | no embeddings row is lost, and those of other keys are unchanged |
| Migration.MigratedKeysAreSound | src/project_maya/migration.py:208-239 | every migrated key passes each check of the validator at the end of the loop |
| Migration.SoundIff | src/project_maya/migration.py:208-239 | the validator is satisfied with a key exactly when entry, provenance and length of the vector are right |
| Migration.SampledKeysSoundIff | src/project_maya/migration.py:208-239 | it looks at the first five migrated keys |
| Migration.ValidatorNeverFires | src/project_maya/migration.py:340-348 | the post-migration validation never reports an error |
| Migration.SecondRunChangesNothing | src/project_maya/migration.py:316-338 | a second run without overwrite migrates nothing, skips every row and changes nothing |
| Migration.Database.InsertRegistryRow | src/project_maya/migration.py:103-181 | inserts exactly when the key is free or overwriting, and writes just the specified rows, with the digest of the raw column value |
| Migration.Database.InsertMemoryEntry | src/project_maya/migration.py:184-205 | the same for the plain table |
| Migration.Database.ValidateRegistry | src/project_maya/migration.py:208-239 | reports exactly the errors of the first five migrated keys |
| Migration.Database.MigrateRows | src/project_maya/migration.py:316-338 | the loop computes the merge, or fails where an exception occurs |
| Migration.Database.Migrate | src/project_maya/migration.py:263-371 | when it succeeds, the merged tables and a summary that adds up; a dry run, a refusal or an exception leaves the tables as they were; the validation failure never happens |
| Base64.PaddingIsDetermined | src/project_maya/broker.py:1008-1014 | the stripped length is never 1 mod 4, minus the length mod 4 restores just the removed padding, and only URL-safe ASCII remains |
| Base64.ScanOfEncode | src/project_maya/broker.py:1012-1014 | decoding a padded encoding gives the bytes back |
| Base64.OthersAreIgnored | src/project_maya/broker.py:1012-1014 | characters outside the alphabets make no difference to the decoder |
| Base64.RoundTrip | src/project_maya/broker.py:1008-1014 | `_unb64(_b64(b)) == b` for every byte string |
| Base64.EncodingIsInjective | src/project_maya/broker.py:1008-1009 | different byte strings have different encodings |
| Base64.SymbolsOfAlphabet | src/project_maya/broker.py:1008-1009 | the symbols are those of the URL-safe alphabet |
| Base64.GroupIsNumber | src/project_maya/broker.py:1008-1009 | three bytes and their four symbols are the same number |
| Base64.EncodedLength | src/project_maya/broker.py:1008-1009 | the padded text has four symbols for every three bytes begun |
| BrokerRequests.ReplayCache.Remember | src/project_maya/broker.py:290-299 | accepts exactly the unseen nonces and adds just this one |
| BrokerRequests.VerifyRequest | src/project_maya/broker.py:354-373 | the checks in their order give the specified verdict, with or without a cache, and only acceptance changes the cache |
| BrokerRequests.SignedRequestVerifiesIff | src/project_maya/broker.py:325-373 | a signed request is accepted if and only if issued at most a minute ahead, not expired, body and key match, and its nonce is unseen |
| BrokerRequests.AcceptedIff | src/project_maya/broker.py:354-373 | any request is accepted exactly with the right version, body, times, signature and an unseen nonce |
| BrokerRequests.VerdictByFields | src/project_maya/broker.py:354-373 | the verdict names the first check that fails |
| BrokerRequests.SignatureBindsAll | src/project_maya/broker.py:325-351 | two requests are signed alike exactly when all their parts agree, the verb up to case |
| BrokerRequests.UpperIff | src/project_maya/broker.py:325-351 | verbs agree up to case when they differ in the case of letters only |
| BrokerRequests.AlteredRequestFails | src/project_maya/broker.py:354-373 | a request whose payload was changed after signing is rejected and leaves no trace |
| BrokerRequests.CacheHoldsAcceptedNonces | src/project_maya/broker.py:290-299 | after any sequence of attempts the cache is what it was plus exactly the accepted nonces |
| BrokerRequests.EachNonceAcceptedOnce | src/project_maya/broker.py:290-299 | no two accepted attempts share a nonce |
| BrokerRequests.ReplayedIff | src/project_maya/broker.py:354-373 | an attempt counts as replay exactly when it is otherwise valid and its nonce was accepted before |
| TokenLifecycle.Broker.StartSession | src/project_maya/broker.py:482-508 | result and session store after opening a session, which carries the scopes of the connector; without apply nothing is stored |
| TokenLifecycle.Broker.CompleteSession | src/project_maya/broker.py:511-558 | result and both stores after a completion, failing cases included |
| TokenLifecycle.Broker.RefreshToken | src/project_maya/broker.py:593-625 | result and both stores after a refresh |
| TokenLifecycle.Broker.RevokeToken | src/project_maya/broker.py:628-662 | result and both stores after a revocation |
| TokenLifecycle.GuardIff | src/project_maya/broker.py:858-885 | what every operation requires of broker, provider and flag |
| TokenLifecycle.StartSucceedsIff | src/project_maya/broker.py:482-508 | a session is opened exactly for a usable connector while the broker runs |
| TokenLifecycle.CompletionSucceedsIff | src/project_maya/broker.py:511-533 | a completion succeeds if and only if it is allowed, names a stored, fresh session of its provider, and brings that session's state and a code |
| TokenLifecycle.RevocationSucceedsIff | src/project_maya/broker.py:628-640 | a revocation succeeds exactly when it is allowed |
| TokenLifecycle.CompletedToken | src/project_maya/broker.py:534-547 | the envelope and status after a completion, field by field |
| TokenLifecycle.RefreshedToken | src/project_maya/broker.py:604-616 | the envelope and status after a refresh, field by field |
| TokenLifecycle.RevokedToken | src/project_maya/broker.py:640-653 | the status after a revocation, field by field |
| TokenLifecycle.StepAt | src/project_maya/broker.py:511-662 | one operation changes only the provider it names, and how |
| TokenLifecycle.StoresAgree | src/project_maya/broker.py:944-960 | after every run the metadata is the projection of the stored envelope, or of a revocation when there is none |
| TokenLifecycle.HeldGoesBack | src/project_maya/broker.py:482-547 | every held token goes back to a successful start of its provider whose id and state a later completion presented before expiry, and was not revoked since |
| TokenLifecycle.SessionFromStart | src/project_maya/broker.py:888-913 | a stored session is that of a successful start under its id |
| TokenLifecycle.NeverTouched | src/project_maya/broker.py:561-577 | a provider no operation succeeded for is not configured |
| TokenLifecycle.SecretTracksHistory | src/project_maya/broker.py:511-662 | after every run an envelope is held exactly when the last effective operation was no revocation, and its rotation count is the number of refreshes since the completion |
| TokenLifecycle.StatusAfterRun | src/project_maya/broker.py:561-590 | status reads active exactly when an envelope is held, and reads back what was written |
| TokenLifecycle.ScopesSurvive | src/project_maya/broker.py:944-960 | whatever sessions carry, the reported scopes are the granted ones if and only if each scope is a single word |
| TokenLifecycle.ConnectorScopesAre | src/project_maya/connectors.py:179-230 | the scopes of each connector: those of its capabilities, each once, in order |
| TokenLifecycle.ConnectorScopesAreWords | src/project_maya/broker.py:842-855 | no connector asks for an empty scope or one with white space |
| TokenLifecycle.CatalogueScopesReported | src/project_maya/broker.py:511-590 | in every run whose sessions were opened by the code, the status of a held token reports exactly the scopes of its connector |
| TokenLifecycle.RefreshNeedsCompletion | src/project_maya/broker.py:593-625 | a refresh succeeds exactly when a completion was not revoked since |
| TokenLifecycle.RefreshKeepsGrant | src/project_maya/broker.py:593-625 | a refresh keeps scopes and owner, leaves other providers alone, and keeps a Google refresh token |
| ConfigProfiles.FindPlaceholders | src/project_maya/config_profiles.py:70-81 | the scan terminates and finds exactly the tokens of the text |
| ConfigProfiles.PiecesLoseNothing | src/project_maya/config_profiles.py:70-81 | tokens and plain characters put together again are the text |
| ConfigProfiles.OccurrenceIsToken | src/project_maya/config_profiles.py:46-58 | every occurrence of a supported placeholder in accepted text is a scanned token |
| ConfigProfiles.FirstReplacement | src/project_maya/config_profiles.py:56-57 | the first replace substitutes exactly the tokens of the first placeholder |
| ConfigProfiles.SecondReplacement | src/project_maya/config_profiles.py:56-57 | over a safe data directory the second replace substitutes exactly the tokens of the second |
| ConfigProfiles.UnsafeCounterexample | src/project_maya/config_profiles.py:56-57 | for every other data directory an accepted text on which sequential and simultaneous substitution differ |
| ConfigProfiles.SequentialIsSimultaneousIff | src/project_maya/config_profiles.py:46-58 | sequential replacement is simultaneous substitution on all accepted text and for every instance id, the empty one included, if and only if the data directory is safe: behind a `$` it neither contains the second placeholder nor ends in a beginning of it |
| ConfigProfiles.NoDollarIsSafe | src/project_maya/config_profiles.py:56-57 | a data directory without `$` is safe unless it is empty or begins with a brace |
| ConfigProfiles.SafeIsClean | src/project_maya/config_profiles.py:56-57 | for a directory that is not empty and begins with no brace the `$` in front makes no difference |
| ConfigProfiles.ResolveSucceedsIff | src/project_maya/config_profiles.py:46-67 | a whole JSON value resolves exactly when all its texts are accepted, whatever the replacements |
| ConfigProfiles.ResolveIsSubstitution | src/project_maya/config_profiles.py:46-67 | over a safe data directory what resolves is the value with every token of every text substituted at once |
| ConfigProfiles.ResolvedShape | src/project_maya/config_profiles.py:59-67 | lists resolve item by item, objects value by value under their own keys |
| ConfigProfiles.PlainProfileStays | src/project_maya/config_profiles.py:46-67 | a profile without `$` resolves to itself |
| ConfigProfiles.ResolveOneText | src/project_maya/config_profiles.py:47-58 | unknown placeholders are reported, otherwise the replace loop runs |
| ConfigProfiles.LoadSubstitutes | src/project_maya/config_profiles.py:24-43 | loading succeeds exactly for an absolute directory and an accepted object, and over a safe directory substitutes both placeholders at once |
| ConfigProfiles.UnsafeProfile | src/project_maya/config_profiles.py:24-67 | over every other absolute directory some profile loads and differs from its substitution |
| FileTree.PlaceFileIff | scripts/build_phase6_release.py:1199-1201 | making parents and writing fails exactly for a file above or a directory in the place, and otherwise adds just the file and its ancestors |
| FileTree.PlaceItem | src/project_maya/backup.py:244-247 | writing a file is possible exactly when the files are then consistent, and the tree then holds them |
| FileTree.HoldsUnique | scripts/build_phase6_release.py:1167-1208 | a set of files determines its tree |
| FileTree.PosixRoundTrip | src/project_maya/backup.py:282-283 | a relative path written with slashes reads back as itself |
| FileTree.PartsOfJoined | src/project_maya/backup.py:347-364 | a name with a slash has the parts of what stands before it and of what stands behind |
| FileTree.PartsOfOne | src/project_maya/backup.py:347-364 | what has no slash is one part, except a single dot and nothing, which are none |
| Wheelhouse.InstalledPathsAreProper | scripts/build_phase6_release.py:1211-1235 | an installed path is a tail of the member's path, has no `..` and is not forbidden |
| Wheelhouse.DataMember | scripts/build_phase6_release.py:1211-1226 | below a `.data` directory `purelib` and `platlib` install the rest of the path, anything else is passed over |
| Wheelhouse.OrdinaryMember | scripts/build_phase6_release.py:1211-1226 | any other member is installed as it is unless forbidden |
| Wheelhouse.UnsafeIff | scripts/build_phase6_release.py:1211-1214 | refused are exactly absolute names and names that climb |
| Wheelhouse.ForbiddenIff | scripts/build_phase6_release.py:1229-1235 | forbidden are files below cache and test directories and compiled files |
| Wheelhouse.LowerIff | scripts/build_phase6_release.py:1229-1235 | the case of letters does not matter for that |
| Wheelhouse.InstallStep | scripts/build_phase6_release.py:1188-1201 | a member installs exactly when it is consistent with what is there |
| Wheelhouse.InstallSucceedsIff | scripts/build_phase6_release.py:1167-1208 | installing into an empty tree succeeds exactly when every name is safe and the targets are consistent, and gives their union |
| Wheelhouse.InstallOrderIrrelevant | scripts/build_phase6_release.py:1167-1208 | members in any order and multiplicity succeed alike and give the same tree |
| Wheelhouse.WheelOrderIrrelevant | scripts/build_phase6_release.py:1175-1201 | the order of wheels matters neither for success nor for the tree |
| Wheelhouse.CountIgnoresOrder | scripts/build_phase6_release.py:1175-1208 | the count reported for a wheel is its number of installable members |
| Wheelhouse.ReportsByName | scripts/build_phase6_release.py:1175-1208 | wheels are taken by name and reported with name, digest and count |
| Wheelhouse.WheelhouseMergesIff | scripts/build_phase6_release.py:1167-1208 | a wheelhouse materialises if and only if its wheels are mergeable, and then to the union of all installable members |
| Wheelhouse.FileBelowFile | scripts/build_phase6_release.py:1199-1201 | a file `a` and a file `a/b` are both installable, but not together |
| Wheelhouse.SitePackages.InstallMember | scripts/build_phase6_release.py:1179-1201 | one round of the inner loop, with its failures |
| Wheelhouse.SitePackages.InstallWheel | scripts/build_phase6_release.py:1175-1201 | one wheel, and the number of files it installs |
| Wheelhouse.SitePackages.MaterializeWheelhouse | scripts/build_phase6_release.py:1167-1208 | tree, status and counts for all wheels in order of name |
| Repair.RequiredDirectoriesListed | src/project_maya/repair.py:31-57 | the areas give exactly the 25 listed directories, in order |
| Repair.RequiredAreasWellFormed | src/project_maya/repair.py:31-57 | no required area is listed twice, and nothing twice in an area |
| Repair.PathsHaveParents | src/project_maya/repair.py:31-57 | in a list grouped by areas every directory comes after the one it is in |
| Repair.TargetsAreParentsFirst | src/project_maya/repair.py:67-68 | the targets of a repair do not repeat and come parents first |
| Repair.DryRunPredicts | src/project_maya/repair.py:68-101 | for every parents-first list, dry run and apply visit alike and fail alike |
| Repair.DryRunReport | src/project_maya/repair.py:68-101 | a dry run reports for each target whether it is there or would be created, up to the first that is a file |
| Repair.NothingToDo | src/project_maya/repair.py:68-82 | when all targets are directories every action is "none" |
| Repair.RepairStartsIff | src/project_maya/repair.py:104-109 | a repair stops at once where the data directory is a file or its parent is missing |
| Repair.RequiredCategory | src/project_maya/repair.py:112-132 | whatever is in a required area has the category of the area |
| Repair.CategoriesDiffer | src/project_maya/repair.py:112-132 | the areas have different categories |
| Repair.RepairDryRunPredicts | src/project_maya/repair.py:60-109 | a repair dry run predicts the apply on every tree; afterwards the required directories exist and a rerun finds nothing to do |
| Repair.LocalState.RepairLocalState | src/project_maya/repair.py:60-101 | the loop visits as specified, creating directories only when applying |
| Backup.CreateLocalBackup | src/project_maya/backup.py:132-189 | the archive, count and manifest, and the cases without one |
| Backup.AddFiles | src/project_maya/backup.py:158-171 | configuration first, then every file, the database by its snapshot; fails exactly when a needed snapshot is bad |
| Backup.Destination.RestoreLocalBackup | src/project_maya/backup.py:207-258 | refuses exactly what the plan refuses or reports as conflicting, then writes every planned file; refusal and dry run write nothing; without permission to overwrite no file is lost or changed |
| Backup.PlanReport | src/project_maya/backup.py:93-129 | a plan reports conflicts if and only if some planned path exists and overwriting is not allowed, and counts them |
| Backup.FilesSurvive | src/project_maya/backup.py:230-247 | a restore without permission to overwrite keeps every file with its content |
| Backup.InspectIff | src/project_maya/backup.py:192-204 | inspection accepts an archive exactly when all members are understood and configuration and a readable manifest are there |
| Backup.PlanIff | src/project_maya/backup.py:93-129 | a plan is accepted exactly when inspection accepts and no absolute name leads elsewhere |
| Backup.RestoreTargetIff | src/project_maya/backup.py:347-358 | where each name is restored |
| Backup.TargetsAt | src/project_maya/backup.py:225-229 | the planned paths are those of the restored names, one for each, in order |
| Backup.LastContent | src/project_maya/backup.py:244-247 | of several members with one name the last is read |
| Backup.PlanStaysInside | src/project_maya/backup.py:324-364 | whatever an archive holds, every path of an accepted plan leads below the destination: no part is `..` or contains a slash |
| Backup.PlaceAllIff | src/project_maya/backup.py:244-247 | writing items into an empty directory succeeds exactly when those that remain are consistent, and leaves just those |
| BackupRoundTrip.NameOfFile | src/project_maya/backup.py:282-283 | an archive name is recognised, safe, and reads back as the file's path |
| BackupRoundTrip.CreatedIsAccepted | src/project_maya/backup.py:324-364 | every archive that is written passes inspection and planning; its manifest counts one more than the inspected members |
| BackupRoundTrip.CreatedPlan | src/project_maya/backup.py:207-247 | its restore writes the configuration and then each file with its own bytes at its own path |
| BackupRoundTrip.ExcludedIff | src/project_maya/backup.py:267-321 | what is left out of a backup, by the parts of its path |
| BackupRoundTrip.ArchivedByFields | src/project_maya/backup.py:158-171 | files are archived with their own bytes, the database with those of its snapshot |
| BackupRoundTrip.ManifestByFields | src/project_maya/backup.py:367-388 | the manifest counts all members and names the first parts of the archived paths |
| BackupRoundTrip.ArchivedExact | src/project_maya/backup.py:267-321 | exactly the files not excluded are archived |
| BackupRoundTrip.ListingOrderIrrelevant | src/project_maya/backup.py:267-279 | the archive does not depend on the order in which files are listed |
| BackupRoundTrip.RestoreOfCreated | src/project_maya/backup.py:207-258 | a restore into an empty directory plans without conflict, and succeeds if and only if no archived file lies above or below the configuration |
| BackupRoundTrip.BackupThenRestore | src/project_maya/backup.py:132-258 | backup and restore of any data directory yield exactly its non-excluded files, the snapshot of the database, and the configuration where no file takes its place |
| BackupRoundTrip.FileNamedConfigBlocksRestore | src/project_maya/backup.py:347-358 | a data directory whose only file is `config` is backed up but cannot be restored |

## Left out

- Rounding and non-finite values of floats; the exponent of the temporal decay, which is any factor in (0, 1].
- Values of unexpected type in dictionaries (a trust or authority that is no number), and the `TypeError` they raise.
- Results that share one dictionary: normalisation writes into the provider's result, the model returns a new value.
- Case folding beyond ASCII, and the normalisation of provider names.
- `upsert`, `bulk_upsert` and `stats` of the retriever service, `explain` of the validator, persistence of audit reports, and the decision collector and logger, all best-effort or one-branch.
- The text of enforcement notes and report time stamps; reason codes are a datatype instead of strings with a prefix.
- The backup copy and the report file of a migration, and the status texts of its samples; an exception during the row loop is a parameter.
- The authorization URL, the verifier and the other drawn parts of an OAuth session; whether a connector may be used is one flag per provider. The mock conformance run.
- Signed responses, instance registration and model proxy readiness of the broker, which repeat or only report.
- What the base64 decoder makes of padding that no encoding has, beyond the model of its loop.
- Text that UTF-8 cannot encode, which would stop a migration with an exception.
- A crash between writing the secret and writing its metadata.
- Conversion of a loaded profile into a typed configuration; only the resolved JSON is modelled.
- Symbolic links, permissions and file systems that ignore case; a data directory lists its regular files only, with names free of slashes.
- A backup archive whose destination lies inside the data directory outside `backups`, whose unfinished file the listing would find; and a restore destination that does not exist yet, which is modelled as an empty directory.
- Excluded roots, versions and the order of the roots in a backup manifest; its JSON text is an arbitrary encoding that reads back as what was written.
- The release builder apart from the wheelhouse, and the installers, launchers, probes and command line, which are I/O and templates.
