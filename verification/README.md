# Sheeld: a verified model

Sheeld is an LLM proxy. A control plane holds organizations, sources, guardrails and transformers; a
data plane polls it for its configuration, and for every chat completion rewrites the messages
(transformers), judges them (guards), calls the LLM, rewrites and judges the answer, and records what
happened. This project models seven parts of it in Dafny and proves what they are for.

| part | files | what is proved |
|---|---|---|
| Reversible anonymization | Placeholder, State, Replacer, Presidio, RoundTrip, SpanCondition, Stray, Transformers | analyzer spans cut out of a conversation come back, with the exact condition |
| Configuration protocol | WorkspaceConfig, BuildVersion, Store, ConfigRefinement, ConfigFailure, SnapshotFile, Poller, ConfigProtocol | Build and Apply refine the relational reading of the tables; publish / poll / crash / fallback keeps ETag, store and disk consistent in every reachable state |
| Streaming | Utf8, Stream, Sse | content is cut into few valid pieces, and a client rebuilds the completion from the event stream |
| Audit store | AuditWriter, Ordered, AuditPages | conservation from the queue to the table, exact paging beside inserts and prunes |
| Guards and processor | Guards, Pipeline, Processor, EndToEnd | every interleaving is sequential, the verdict's laws, the effects of one request on every path, anonymization across a whole request |
| Rate limiter | RateLimit | eviction is unobservable, with the exact condition |
| Two refinements | Chain, Llm, ResponseCodec | position columns as a sequence; the pass-through JSON codec |

Code that changes state is modelled by classes and loops (`State`, `PresidioTransformer`, `Store`,
`Poller`, `Writer`, `RateLimiter`, `ChainStore`, `Processor`, ...), each proved equal to a function of
the old state; the theorems are about those functions. Iteration over Go maps and the order in which
guard goroutines run are arbitrary choices, and the results hold for all of them.

## What turned out false, and when it holds

- Overlapping spans break the anonymization round trip. On text without `<` a call comes back exactly
  when no applied span reaches past the start of the span applied before it
  (`RoundTrip.RoundTripIffClean`). On the spans alone: it comes back from every table and under every
  order of equal starts exactly when no two well-shaped spans meet that start at or before some span
  that fits the text (`SpanCondition.AnswerComesBackIff`); disjoint spans always do.
- A text that contains a placeholder of the request by itself comes back changed. With disjoint spans
  and originals free of `<` a message comes back exactly when no placeholder of the final table stands
  in it clear of the spans (`StrayCondition.DisjointComesBackIffNoStray`).
- The iteration order of the mapping table can become visible in the decoded text. For a set of keys
  it is invisible exactly when no key is a proper prefix of another (`Replacer.OrderUnobservableIff`);
  for placeholders, when no recorded entity type starts with the inside of another placeholder, up to
  its `>` (`Transformers.TypesDecideOrder`). Types without `>` are always safe; a `<` does no harm to
  this.
- The comment on `Build` promises identical versions for identical config. The queries for keys,
  webhooks and guardrail attachments leave ties unordered, and a build with the ties the other way
  round gets another version (`BuildVersion.TiesChangeTheVersion`); `BuildVersion.SameVersionIff` says
  exactly when it does not.
- A chain can hold another organization's transformer: attaching checks the owner of the transformer
  and not that of the source. `TransformerChain.ChainsStayOwnedIff` names exactly the calls that do it.
- `splitContent` keeps UTF-8 exactly from size 4 on (`Stream.ValidPiecesIff`). The gateway uses 48.
- Eviction of idle limiters is observable for exactly the keys whose burst is not refilled within the
  idle time (`RateLimit.KeyEvictionUnobservableIff`). The sweep compares with "before", so in the
  real-valued model the idle time that counts is the TTL plus one nanosecond.
- A response's `usage` object survives only if it holds the three token counts and nothing else,
  although the comment on the types promises that unmodelled fields are emitted unchanged
  (`ResponseCodec.ResponseIdentity`, with an input in `ResponseCodec.UsageDetailsAreLost`).

## Model

| member | source | states |
|---|---|---|
| `Placeholders.PlaceholderInjective` | internal/shared/transform/state.go:50 | `<T_n>` and `<T'_n'>` are the same string only if T = T' and n = n', for all types, also with digits and underscores |
| `Decimal.RenderValue` | internal/shared/transform/state.go:50 | the digits of a placeholder stand for its number, with no leading zero |
| `Placeholders.PlaceholderDelimited` | internal/shared/transform/state.go:50 | a bracket-free type gives a placeholder with brackets at its two ends only |
| `Placeholders.PrefixFree` | internal/shared/transform/state.go:50 | of two strings that end with their only `>` neither is a proper prefix of the other |
| `Placeholders.PlaceholderPrefixIff` | internal/shared/transform/state.go:50 | one placeholder starts a different one exactly if its inside, up to and including `>`, starts the other's entity type |
| `TransformState.State.constructor` | internal/shared/transform/state.go:25-30 | a fresh state is empty and consistent |
| `TransformState.State.AllocatePlaceholder` | internal/shared/transform/state.go:41-53 | the scan-then-number loop over the map in arbitrary order computes `Allocate`, keeps the table consistent, rebinds nothing, and the answer maps to the original |
| `TransformState.State.Mappings` | internal/shared/transform/state.go:56-62 | returns the whole table |
| `TransformState.State.Len` | internal/shared/transform/state.go:65-69 | returns the number of mappings |
| `TransformState.AllocateStep` | internal/shared/transform/state.go:41-53 | one allocation keeps the table injective and its keys exactly the numbered placeholders; a new original gets an unused placeholder |
| `TransformState.AllocationRun` | internal/shared/transform/state.go:38-53 | over any run of calls nothing is rebound and the i-th answer stays bound to the i-th original |
| `TransformState.SamePlaceholderIffSameOriginal` | internal/shared/transform/state.go:38-53 | two calls of a run get the same placeholder exactly when they carry the same original |
| `TransformState.CountersCountNew` | internal/shared/transform/state.go:41-52 | from a fresh state: the recorded originals are exactly those of the calls, and each counter counts the calls of its type that were the first with their original |
| `TransformState.NumberedInOrder` | internal/shared/transform/state.go:49-52 | from a fresh state: the first call with an original gets its own type and the number of such calls of that type so far, counting from one |
| `TransformState.CountersSumToMappings` | internal/shared/transform/state.go:49-51 | in every run the counters sum to the number of mappings |
| `Replacer.ReplaceAnyOrder` | internal/shared/transform/deanonymize.go:33-37 | two listings of one table whose keys are prefix-free, in whatever orders, give replacers with the same output on every text |
| `Replacer.OrderUnobservableIff` | internal/shared/transform/deanonymize.go:33-37 | for tables with a given set of keys no listing order can be told from another on any text if and only if no key is a proper prefix of another |
| `Transformers.TypesDecideOrder` | internal/shared/transform/deanonymize.go:33-37 | for the placeholders of a request: the map order is unobservable, for every table a request can have with them, if and only if no recorded entity type starts with the inside of a recorded placeholder |
| `Transformers.OrderMattersTableIsConsistent` | internal/shared/transform/state.go:49-51 | the table of the counterexample is one a request can have |
| `Transformers.NoClosingBracketIsEnough` | internal/shared/transform/deanonymize.go:33-37 | in particular if no entity type contains `>` |
| `Replacer.OrderMattersWithBrackets` | internal/shared/transform/deanonymize.go:33-37 | a concrete table of two placeholders, one starting the other, with two listings whose outputs differ |
| `Replacer.ReplaceLiteral` | internal/shared/transform/deanonymize.go:37-42 | text in which no placeholder occurs is copied, up to the next `<` |
| `Replacer.ReplacePlaceholder` | internal/shared/transform/deanonymize.go:37-42 | a placeholder becomes its original, which is not scanned again |
| `Presidio.CleanIsSubstitution` | internal/shared/transform/presidio.go:170-178 | the back-to-front loop equals simultaneous substitution at the original coordinates whenever no applied span reaches past the start of the one applied before |
| `Presidio.DisjointIsClean` | internal/shared/transform/presidio.go:170-178 | disjoint spans in any input order always run that way, and exactly the in-range ones are applied |
| `Presidio.CutAllTable` | internal/shared/transform/presidio.go:173-178 | the loop keeps the table consistent and only adds to it |
| `Presidio.SubstituteStable` | internal/shared/transform/presidio.go:153-156 | later allocations do not change a substitution already made |
| `RoundTrip.DecodeInterleaving` | internal/shared/transform/deanonymize.go:32-43 | any response that interleaves literals with allocated placeholders comes back with the originals in place, under any listing and with any further mappings in the table; originals may contain anything |
| `RoundTrip.CleanRoundTrip` | internal/shared/transform/deanonymize.go:10-14 | decoding under any later table undoes a clean run |
| `RoundTrip.DisjointRoundTrip` | internal/shared/transform/presidio.go:157-180 | one message with disjoint in-range spans comes back exactly |
| `RoundTrip.NoStrayIfNoBracketOutside` | internal/shared/transform/presidio.go:173-178 | `<`-free text between the spans is enough for the side condition of the round trip |
| `RoundTrip.RoundTripIffClean` | internal/shared/transform/presidio.go:170-178 | on `<`-free text the round trip holds if and only if the run is clean: no applied span reaches past the start of the one applied before it |
| `RoundTrip.OverlapBreaksRoundTrip` | internal/shared/transform/presidio.go:173-178 | two overlapping spans on "abcdef" for which the decoded text differs from the input |
| `SpanCondition.ComesBackIffChained` | internal/shared/transform/presidio.go:173-178 | for a sorted span list: `<`-free text comes back from every starting table if and only if, from the first span that fits on, every well-shaped span ends before the previous one starts - a condition on the spans and the length alone |
| `SpanCondition.AnswerComesBackIff` | internal/shared/transform/presidio.go:170-178 | for an analyzer's answer: it comes back from every table and under every order of equal starts if and only if no two well-shaped spans meet that start at or before some span that fits |
| `SpanCondition.DisjointIsApart` | internal/shared/transform/presidio.go:170-178 | disjointness implies that condition |
| `SpanCondition.ApartIsNotDisjoint` | internal/shared/transform/presidio.go:173-178 | and is stronger: two spans that meet and still come back |
| `StrayCondition.DisjointComesBackIffNoStray` | internal/shared/transform/deanonymize.go:37-43 | for disjoint spans and originals free of `<`: a text that may itself contain placeholders comes back if and only if none of the final table's stands in it clear of the spans |
| `StrayCondition.CleanComesBackIffNoStray` | internal/shared/transform/deanonymize.go:37-43 | the same after any clean run |
| `StrayCondition.ConversationComesBackIffNoStray` | internal/shared/transform/presidio.go:91-111 | the same for all messages of a request at once |
| `RoundTrip.ConversationRoundTrip` | internal/shared/transform/presidio.go:91-111 | every message of a request comes back under the table at the end of the request, also those encoded before later placeholders existed |
| `RoundTrip.ConversationRoundTripIffClean` | internal/shared/transform/presidio.go:91-111 | for `<`-free conversations: all messages come back if and only if every message's run was clean |
| `Transformers.PresidioTransformer.CutSpans` | internal/shared/transform/presidio.go:172-178 | the in-place span loop with its bounds check computes `CutAll` |
| `Transformers.PresidioTransformer.AnonymizeReversibly` | internal/shared/transform/presidio.go:157-180 | result and table of one message for any sorting function: analyzer errors, nothing found, missing state, or the loop over the sorted answer |
| `Transformers.PresidioTransformer.Redact` | internal/shared/transform/presidio.go:131-151 | nothing found leaves the text, else the anonymizer service decides; both services' errors are passed on |
| `Transformers.PresidioTransformer.Transform` | internal/shared/transform/presidio.go:91-111 | result, error and table of a whole call in either mode, with or without a state, are those of rewriting message by message up to the first error |
| `Transformers.RewriteIsRun` | internal/shared/transform/presidio.go:91-111 | a successful reversible call is a run the conversation theorems speak of |
| `Transformers.RewriteKeepsTable` | internal/shared/transform/presidio.go:91-111 | a call keeps the table consistent, only adds to it and keeps it bracketed for bracket-free types, also when it fails |
| `Transformers.RedactedTexts` | internal/shared/transform/presidio.go:131-151 | in redact mode a non-empty text becomes what the anonymizer service answers if the analyzer found something and stays as it is if not; nothing else of a message changes, and the table is left alone |
| `Transformers.NothingFound` | internal/shared/transform/presidio.go:157-168 | in reversible mode messages in which nothing is found come through unchanged, with or without a state |
| `Transformers.FailsIff` | internal/shared/transform/presidio.go:98-107 | a call fails if and only if some non-empty message does - the analyzer errs, or it finds something and the anonymizer service errs (redact mode) or there is no state (reversible mode) - and with the error of the first one |
| `Transformers.DeanonymizeTransformer.Transform` | internal/shared/transform/deanonymize.go:27-45 | decodes every message with one replacer that lists the whole table in arbitrary order; without a state nothing changes |
| `Transformers.NothingToReplace` | internal/shared/transform/deanonymize.go:29-31 | the early return on an empty table agrees with replacing from an empty list |
| `WorkspaceConfig.GroupAttachments` | internal/controlplane/workspaceconfig/builder.go:69-77 | appending row by row gives each source its attachments in row order |
| `WorkspaceConfig.GroupKeys` | internal/controlplane/workspaceconfig/builder.go:92-105 | every known organization gets exactly its live keys, in row order |
| `WorkspaceConfig.GroupAlerts` | internal/controlplane/workspaceconfig/builder.go:107-115 | the same for alert webhooks |
| `WorkspaceConfig.GroupSources` | internal/controlplane/workspaceconfig/builder.go:117-153 | the same for sources, with their attachments; fails exactly if the key of a known organization's source does not decrypt |
| `WorkspaceConfig.GroupGuardrails` | internal/controlplane/workspaceconfig/builder.go:155-165 | the same for enabled guardrails |
| `WorkspaceConfig.GroupTransformers` | internal/controlplane/workspaceconfig/builder.go:167-177 | the same for enabled transformers |
| `WorkspaceConfig.GroupRows` | internal/controlplane/workspaceconfig/builder.go:69-177 | all grouping loops in their order give every organization its own rows |
| `WorkspaceConfig.Build` | internal/controlplane/workspaceconfig/builder.go:33-193 | the payload lists all organizations in order, versioned by the hash of exactly this content |
| `BuildVersion.SameVersionIff` | internal/controlplane/workspaceconfig/builder.go:29-32 | two builds get the same version if and only if, within every known organization, live keys, webhooks and the guardrails of each source are listed in the same order; rows of different organizations may be interleaved in any way |
| `BuildVersion.TiesChangeTheVersion` | internal/controlplane/db/generated/workspace_config.sql.go:16-18 | the same two keys listed the other way round give another version |
| `ConfigStore.BuildGuards` | internal/dataplane/backendconfig/store.go:168-196 | the guard lists of a source by phase; fails if some factory on the list fails |
| `ConfigStore.BuildTransformers` | internal/dataplane/backendconfig/store.go:197-218 | the transformer lists by phase, unknown phases skipped; fails if some factory on the list fails |
| `ConfigStore.BuildSources` | internal/dataplane/backendconfig/store.go:144-221 | all sources of one organization are added, or the first failing factory stops it |
| `ConfigStore.BuildKeys` | internal/dataplane/backendconfig/store.go:133-142 | all keys of one organization with 0 for missing limits |
| `ConfigStore.Store.Apply` | internal/dataplane/backendconfig/store.go:121-226 | swaps in the whole compiled snapshot, or leaves the previous one untouched if any factory anywhere fails |
| `ConfigStore.Store.Loaded` | internal/dataplane/backendconfig/store.go:75-77 | true exactly once a configuration has been applied |
| `ConfigStore.Store.LookupSource` | internal/dataplane/backendconfig/store.go:100-107 | reads the current snapshot, nothing before the first |
| `ConfigStore.Store.LookupAPIKey` | internal/dataplane/backendconfig/store.go:89-97 | reads the current snapshot under the hash of the raw key |
| `ConfigStore.Store.AlertWebhooks` | internal/dataplane/backendconfig/store.go:110-116 | reads the current snapshot, empty for unknown organizations |
| `ConfigRefinement.LookupRefinesTables` | internal/dataplane/backendconfig/store.go:129-222 | after Build and Apply a lookup succeeds exactly for the routes of known organizations, and finds the fields of the source row with its key decrypted, one compiled guard for each attached, enabled, same-organization guardrail row of the phase or of both phases, and one transformer for each such row of the phase, in attachment order; each is what its factory built, inside exactly the decorators its config asks for |
| `ConfigRefinement.GuardsAreJoined` | internal/dataplane/backendconfig/store.go:166-196 | the compiled guards of a phase are those of the joined guardrail rows of that phase or of both, one for one: base guard, scope, fail-open and shadow marker as the row says |
| `ConfigRefinement.TransformersAreJoined` | internal/dataplane/backendconfig/store.go:197-218 | the compiled transformers of a phase are those of the joined rows of exactly that phase in position order, fail-open exactly if configured |
| `ConfigRefinement.WrappersAsConfigured` | internal/dataplane/backendconfig/store.go:178-189 | a compiled guard wraps the built guard and carries the scope, fail-open and shadow markers iff its config is an object with scope "all_messages", on_error "fail_open" and mode "shadow" |
| `ConfigRefinement.AuthenticationRefinesTables` | internal/dataplane/backendconfig/store.go:133-142 | a key authenticates exactly if its hash is that of a live key row of a known organization, as that organization with that row's limits |
| `ConfigRefinement.AlertsRefineTables` | internal/dataplane/backendconfig/store.go:129-132 | an organization has webhooks exactly if it is known and has live rows, and they are these rows in row order |
| `ConfigFailure.ApplyFailsIff` | internal/dataplane/backendconfig/store.go:168-206 | what was built cannot be applied if and only if some source of a known organization, enabled or not, has an enabled guardrail or transformer of that organization attached which its factory refuses |
| `SnapshotFile.Snapshotter.Save` | internal/dataplane/backendconfig/snapshot.go:33-62 | for a failure at any step the snapshot file is the old one and the temporary file is gone; after every single step the file is the old one or the whole new one, and leftovers of earlier crashes stay as they are |
| `SnapshotFile.Snapshotter.Load` | internal/dataplane/backendconfig/snapshot.go:66-80 | fails on a missing file, one that does not decrypt and one that does not decode; else returns what was saved |
| `ConfigPoller.Poller.FetchOnce` | internal/dataplane/backendconfig/poller.go:58-100 | asks with the last ETag and implements the protocol's fetch on store, ETag and disk; fails on everything but 304 and an applied 200 |
| `ConfigPoller.Poller.Fallback` | internal/dataplane/backendconfig/poller.go:115-126 | serves the snapshot file if it can be read and applied; the ETag stays |
| `ConfigPoller.Poller.WaitForInitial` | internal/dataplane/backendconfig/poller.go:105-138 | fetches until the first success, falls back to the file past the deadline, doubling waits from one second up to eight |
| `ConfigPoller.Poller.Run` | internal/dataplane/backendconfig/poller.go:142-161 | a poll loop is the sequence of its fetches; waits go back to the interval after a success and double up to six intervals after a failure |
| `ConfigPoller.FetchSucceedsIff` | internal/dataplane/backendconfig/poller.go:74-99 | a fetch succeeds if and only if the answer is a 304, or a 200 whose body decodes and compiles; a 200 is then served, its ETag kept and its body saved unless saving fails, and nothing changes otherwise |
| `ConfigPoller.WaitsFollowAnswers` | internal/dataplane/backendconfig/poller.go:142-161 | each fetch starts from what the earlier ones left; after a good answer the next wait is the interval, after any other twice the last one up to six intervals |
| `ConfigPoller.HealthyWaits` | internal/dataplane/backendconfig/poller.go:144-160 | while all answers are good, 304s included, every wait is the interval |
| `ConfigPoller.StartupOutcome` | internal/dataplane/backendconfig/poller.go:105-138 | starting up: after failures before the deadline a good answer is served; a failure past the deadline serves the snapshot file if it is there and compiles, and nothing otherwise |
| `ConfigPoller.BackoffValues` | internal/dataplane/backendconfig/poller.go:107-136 | the pauses of the startup loop are 1, 2, 4 and from then on 8 seconds |
| `ConfigProtocol.FetchIsAskThenReceive` | internal/dataplane/backendconfig/poller.go:58-99 | a fetch of the poller against an answering control plane is two steps of the protocol |
| `ConfigProtocol.NotModifiedMeansCurrent` | internal/controlplane/workspaceconfig/handler.go:31-36 | when a 304 is answered, what the data plane serves is what the control plane has at that moment |
| `ConfigProtocol.AnswerIs304Iff` | internal/controlplane/workspaceconfig/handler.go:31-39 | a successful answer is a 304 exactly if the poller already serves the current content under an ETag |
| `ConfigProtocol.StepKeepsInv` | internal/dataplane/backendconfig/poller.go:58-138 | every step - publish, ask, answer applied, refused, unsaved or lost, fallback, crash, lost file - keeps the invariant, for a hash that tells apart what was published |
| `ConfigProtocol.ReachableStates` | internal/dataplane/backendconfig/poller.go:58-138 | in every reachable state a non-empty ETag names exactly the served content, and what is served or on disk was published |
| `ConfigProtocol.NeverGoesBack` | internal/dataplane/backendconfig/poller.go:140-161 | within one life of the process the store never unloads and never moves back in publication order |
| `ConfigProtocol.FetchOutcome` | internal/dataplane/backendconfig/poller.go:74-99 | a successful fetch serves what was current when it was answered; a failed one changes neither store nor ETag |
| `Utf8.CutAtRuneStart` | internal/dataplane/gateway/stream.go:96-100 | valid UTF-8 may be cut at its end and before a rune start, and nowhere else (RFC 3629) |
| `Utf8.RuneStartNearby` | internal/dataplane/gateway/stream.go:98-100 | in valid UTF-8 a rune starts at most three bytes before any position |
| `Stream.FindCut` | internal/dataplane/gateway/stream.go:95-107 | the backing-up loop and the space rule compute the cut point |
| `Stream.SplitContent` | internal/dataplane/gateway/stream.go:89-112 | the shrinking loop computes `Split` |
| `Stream.CutIsWhere` | internal/dataplane/gateway/stream.go:94-108 | a piece ends behind the last space before the last character start of its window, a space at the very front aside; else at that character start; else, if no character starts in the window, at its end |
| `Stream.PiecesAddUp` | internal/dataplane/gateway/stream.go:87-89 | for all byte strings and sizes from 1: pieces are non-empty, at most size bytes, and concatenate to the input |
| `Stream.PiecesStayValid` | internal/dataplane/gateway/stream.go:96-100 | for valid UTF-8 and size from 4 every piece is valid UTF-8 |
| `Stream.ValidPiecesIff` | internal/dataplane/gateway/stream.go:96-107 | all pieces of all valid texts are valid if and only if the size is at least 4 |
| `Stream.SmallSizesTearRunes` | internal/dataplane/gateway/stream.go:105-107 | sizes 1, 2 and 3 tear a four-byte character |
| `Stream.NeighboursAreLong` | internal/dataplane/gateway/stream.go:94-110 | two consecutive pieces before the last hold at least size - 2 bytes |
| `Stream.NumberOfPieces` | internal/dataplane/gateway/stream.go:94-111 | hence at most 2 * (len / (size - 2)) + 2 pieces |
| `Sse.Emit` | internal/dataplane/gateway/stream.go:47-58 | one event is the data prefix, the payload and a blank line |
| `Sse.EmitChoice` | internal/dataplane/gateway/stream.go:70-78 | one choice is a role delta, its content deltas and a finish event |
| `Sse.WriteSSEResponse` | internal/dataplane/gateway/stream.go:40-85 | the body is the events of all choices in order, then the end marker |
| `Sse.ParseEvent` | internal/dataplane/gateway/stream.go:52-54 | an event-stream parser reads an emitted event back as its payload, whatever follows |
| `Sse.StreamRebuildsCompletion` | internal/dataplane/gateway/stream.go:38-85 | parsing the whole stream and folding the deltas by index rebuilds role, content and finish reason of every choice, and nothing else, with the end marker last |
| `Sse.ChunksCarryCompletion` | internal/dataplane/gateway/stream.go:44-85 | every payload before the end marker decodes to a chunk with the id, time and model of the completion and one choice |
| `AuditWriter.Writer.constructor` | internal/dataplane/auditstore/writer.go:57-66 | an empty writer satisfies the invariant |
| `AuditWriter.Writer.Record` | internal/dataplane/auditstore/writer.go:106-111 | never blocks: enqueues if fewer than 1024 entries wait, else counts exactly one drop; keeps enqueued = flushed ++ batch ++ channel |
| `AuditWriter.Writer.InsertBatch` | internal/dataplane/auditstore/writer.go:163-196 | two attempts at most, then the batch is lost |
| `AuditWriter.Writer.InsertAll` | internal/dataplane/auditstore/writer.go:167-189 | inserts in order up to the first failure |
| `AuditWriter.Writer.FlushBatch` | internal/dataplane/auditstore/writer.go:156-197 | a flush appends the batch to the flushed history and counts it if lost; empty batches do nothing |
| `AuditWriter.Writer.Receive` | internal/dataplane/auditstore/writer.go:136-145 | moves the oldest entry into the batch and flushes it at 100 |
| `AuditWriter.Writer.Tick` | internal/dataplane/auditstore/writer.go:146-150 | flushes a non-empty batch |
| `AuditWriter.Writer.Close` | internal/dataplane/auditstore/writer.go:116-140 | drains: everything enqueued has been flushed in order; no accepted entry has more than two rows; every entry of a batch that was not given up has one, whatever became of other batches |
| `AuditWriter.Writer.Drain` | internal/dataplane/auditstore/writer.go:134-145 | the consumer empties a closed channel, ticks in between or not |
| `AuditWriter.InsertedOnceOrTwice` | internal/dataplane/auditstore/writer.go:163-192 | an entry of a kept batch is inserted once or twice, of a lost batch at most twice |
| `AuditWriter.AttemptGoesThrough` | internal/dataplane/auditstore/writer.go:163-192 | an attempt goes through exactly if no insert fails, and then inserts the whole batch |
| `AuditWriter.AttemptStops` | internal/dataplane/auditstore/writer.go:163-192 | else it leaves the rows before its first failing insert, and that one if it was committed |
| `AuditWriter.LostIff` | internal/dataplane/auditstore/writer.go:163-192 | a batch is given up if and only if an insert fails in both attempts; without a failure its rows are the batch |
| `AuditWriter.FlushedHasShape` | internal/dataplane/auditstore/writer.go:163-192 | rows of a kept batch: at most one broken-off prefix, then the whole batch; of a lost one: two prefixes |
| `AuditWriter.RowsCoverBatches` | internal/dataplane/auditstore/writer.go:127-197 | over any history of flushes: at most two rows per entry, and no entry of a kept batch missing |
| `AuditPages.PageFacts` | internal/dataplane/db/generated/audit_logs.sql.go:280-293 | a page is the strictly descending top of the matching rows older than the cursor |
| `AuditPages.PagesDescend` | internal/dataplane/db/generated/audit_logs.sql.go:280-293 | all pages together are strictly descending, so no row comes twice, whatever happens to the table between pages |
| `AuditPages.NothingMissed` | web/src/components/audit-log-table.tsx:96-101 | with the last row as cursor every matching row that stays is on some page by the first short one |
| `AuditPages.PagingIsExact` | internal/dataplane/db/generated/audit_logs.sql.go:280-293 | under any inserts and prunes between the pages: all pages together are in descending order of time and id, every row is of this organization, source, status and time range and from a table that was queried, and every such row that exists for the whole run is listed exactly once |
| `AuditPages.AuditTable.DeleteBefore` | internal/dataplane/db/generated/audit_logs.sql.go:256-263 | deletes up to limit rows, all older than the cutoff, and as many as there are below the limit |
| `AuditPages.AuditTable.PruneOnce` | internal/dataplane/auditstore/pruner.go:59-82 | a finished prune leaves no old row, an interrupted one deletes only old rows; rows inside the window survive; the total is what was deleted |
| `Guards.GuardAs` | internal/shared/guard/guard.go:57-69 | the unwrapping loop finds a marker exactly if some layer carries it |
| `Guards.ValidateByMarkers` | internal/shared/guard/scope.go:23-28 | the outcome of a wrapped guard depends only on its base guard and which markers it carries |
| `Guards.NestingOrderIrrelevant` | internal/shared/guard/guard.go:90-118 | any two nestings of the same markers give the same outcome on every input |
| `Guards.EveryInterleavingIsSequential` | internal/shared/guard/engine.go:45-82 | every complete interleaving of the goroutines' steps leaves index-wise sequential results |
| `Guards.CompleteIff` | internal/shared/guard/engine.go:50-82 | a schedule lets all goroutines finish if and only if it names each of them at least three times and nobody else |
| `Guards.InTurnIsComplete` | internal/shared/guard/engine.go:50-82 | there is such a schedule for any guards |
| `Guards.Run` | internal/shared/guard/engine.go:34-128 | for every complete schedule: the results, counts and verdict of the sequential reading |
| `Guards.VerdictByCriteria` | internal/shared/guard/engine.go:93-143 | "any": some enforcing guard passed, or none is enforcing; "n_of_m": at least threshold enforcing guards passed, or none is enforcing; "all" and every unknown criteria: no enforcing guard failed; the counts are those of the enforcing results |
| `Guards.ResultsAreGuards` | internal/shared/guard/engine.go:47-84 | the i-th result is what the i-th guard's implementation answers to the text its scope asks for, or a result in its name that passes exactly if it is fail-open when it errs; marked shadow exactly if the guard or its answer is |
| `Guards.CountsAddUp` | internal/shared/guard/engine.go:94-107 | passes, failures and shadow results add up to the number of guards |
| `Guards.ShadowVerdictsDoNotCount` | internal/shared/guard/engine.go:92-112 | flipping any shadow verdict leaves the decision |
| `Guards.DecisionIsMonotone` | internal/shared/guard/engine.go:131-143 | turning enforcing failures into passes never makes an accepted request rejected, for all four criteria |
| `Guards.GuardOrderIrrelevant` | internal/shared/guard/engine.go:94-112 | permuting the guards leaves the decision |
| `Guards.DecoratorOrderIrrelevant` | internal/shared/guard/engine.go:62-77 | renesting the wrappers of each guard leaves results and decision |
| `Pipeline.MessagesEqual` | internal/shared/transform/transform.go:107-119 | true exactly for the same number of messages with the same roles and texts |
| `Pipeline.ApplyAll` | internal/shared/transform/transform.go:70-105 | the chain loop is the left fold of the transformers that do not fail, up to the first fail-closed error, and reports one step per transformer it ran |
| `Pipeline.UnchangedMeansSameText` | internal/shared/transform/transform.go:95-98 | a successful chain that reports no change returns the same roles and texts it was given |
| `Pipeline.StepsTellFailure` | internal/shared/transform/transform.go:83-94 | the request failed exactly if the last reported step is errored and not skipped, and then no earlier one is |
| `Pipeline.StepAt` | internal/shared/transform/transform.go:70-104 | the i-th step names the i-th transformer and says whether it changed what the steps before it left, failed, and was passed over; the chain goes on with its messages or those before it, and with its table in either case |
| `Processor.Processor.Alert` | internal/dataplane/processor/processor.go:79-97 | one alert with exactly the failing enforcing guards in order, if alerting is on |
| `Processor.Processor.Record` | internal/dataplane/processor/processor.go:294-298 | one audit record if auditing is on |
| `Processor.Processor.TransformInput` | internal/dataplane/processor/processor.go:147-164 | the input chain on the request's messages |
| `Processor.Processor.Admit` | internal/dataplane/processor/processor.go:168-203 | the input verdict on the last user text; a rejection records and alerts once |
| `Processor.Processor.Forward` | internal/dataplane/processor/processor.go:205-217 | calls the LLM once, with the source's model, address and key |
| `Processor.Processor.TransformOutput` | internal/dataplane/processor/processor.go:222-245 | the output chain on all choices, refused if it changes their number |
| `Processor.Processor.Respond` | internal/dataplane/processor/processor.go:247-292 | the output verdict decides between a recorded, alerted rejection and a recorded pass |
| `Processor.Processor.Execute` | internal/dataplane/processor/processor.go:108-292 | result and effects of a request, for every guard schedule, are those of the functional reading |
| `Processor.FairSchedulerExists` | internal/shared/guard/engine.go:50-82 | there is a scheduler that lets the guards of every run finish |
| `Processor.OneCallOneAuditOneAlert` | internal/dataplane/processor/processor.go:108-292 | on every path: at most one LLM call, one audit record exactly if there is no error, one alert exactly if rejected |
| `Processor.EffectsInOrder` | internal/dataplane/processor/processor.go:213-291 | on every path the call comes before everything else and the alert after everything else |
| `Processor.CallsAreApproved` | internal/dataplane/processor/processor.go:116-216 | the LLM is called if and only if the source exists and is enabled, the input chain succeeds and the input guards pass the last user text (with phase, route and whole conversation as call data, under the source's own input criteria); the call goes to the source's address with its key, its model and the folded messages, other fields as received |
| `Processor.ResponsesAreApproved` | internal/dataplane/processor/processor.go:213-291 | a response is returned if and only if it is the answer of that call with its choices' messages replaced one for one by the output chain, and the output guards pass the text of its first choice, "" without one, under the source's own output criteria |
| `Processor.RejectionsNameTheirPhase` | internal/dataplane/processor/processor.go:189-283 | a request is rejected at input exactly if its input guards reject, at output exactly if the output guards reject the transformed answer; it carries no response and a failed verdict of the phase it names; everything else is a pass or an error |
| `Processor.OutcomeTells` | internal/dataplane/processor/processor.go:159-291 | a result holds exactly the verdicts and transformer steps of the stages the request went through |
| `Processor.RecordsTellTheOutcome` | internal/dataplane/processor/processor.go:76-100 | the audit record carries the result's verdicts and steps, "pass" exactly for a pass, the last user text, and after a call its usage and model; an alert names the failed enforcing guards of the rejecting phase in order |
| `Processor.SerializedLines` | internal/shared/llm/types.go:285-296 | the text of a conversation is one line "role: content" a message, in order |
| `Processor.FailedIsChosen` | internal/dataplane/processor/processor.go:83-88 | an alert lists the failed results that are not shadow results, in order |
| `EndToEnd.ReturnedIsDecoded` | internal/dataplane/processor/processor.go:134-245 | with a deanonymizer as output chain the client gets every choice of the LLM's answer decoded under the table the input chain left, whichever fail-open steps were skipped |
| `EndToEnd.AnswerIsRestored` | internal/dataplane/processor/processor.go:134-245 | an answer that interleaves literals with this request's placeholders reaches the client with the originals in place, in every choice |
| `EndToEnd.EchoIsRestored` | internal/dataplane/processor/processor.go:134-245 | an LLM that repeats a message as it received it makes the proxy return that message as it was before anonymization |
| `EndToEnd.AnonymizerCoreWorks` | internal/shared/transform/presidio.go:91-111 | the reversible mode, as a step of a chain, is such an anonymizer |
| `EndToEnd.DeanonymizerCoreWorks` | internal/shared/transform/deanonymize.go:27-45 | the deanonymizer, as a step of a chain, is such a deanonymizer |
| `EndToEnd.FoldKeepsTable` | internal/shared/transform/transform.go:75-101 | a chain of any length keeps the request's table consistent and only adds to it, skipped steps included |
| `RateLimit.RateLimiter.GetLimiter` | internal/shared/middleware/ratelimit.go:56-73 | creates a full bucket for a new key, sets changed limits in place, and marks the access |
| `RateLimit.TouchKeepsTokens` | internal/shared/middleware/ratelimit.go:56-73 | an access with changed limits costs no tokens: from then on the key holds what it held, at most the new burst, plus what the new rate adds; a new key is full and other keys are left alone |
| `RateLimit.RateLimiter.EvictIdle` | internal/shared/middleware/ratelimit.go:86-98 | deletes exactly the idle keys and counts them |
| `RateLimit.RateLimiter.Handle` | internal/shared/middleware/ratelimit.go:113-135 | one request against its key's bucket with overrides or defaults |
| `RateLimit.EvictionUnobservable` | internal/shared/middleware/ratelimit.go:84-98 | for a key whose burst is refilled within the idle time no sweeps change any answer, whatever limits the other keys have |
| `RateLimit.KeyEvictionUnobservableIff` | internal/shared/middleware/ratelimit.go:84-98 | key by key: no run shows the sweeps if and only if burst <= 0 or burst <= rate * (idle time + 1 ns) |
| `RateLimit.ProbeShows` | internal/shared/middleware/ratelimit.go:14-18 | for a key whose burst is not refilled, a run on which a sweep changes an answer |
| `RateLimit.EvictionUnobservableIff` | internal/shared/middleware/ratelimit.go:84-98 | over all keys at once: no run shows the sweeps if and only if every key meets that condition |
| `RateLimit.WindowBound` | internal/shared/middleware/ratelimit.go:125-130 | in any window, sweeps included, a key is admitted at most burst + rate * length times |
| `RateLimit.WindowBoundWithEvictions` | internal/shared/middleware/ratelimit.go:84-98 | for every key: in any window at most one burst for each time the key is evicted in it, plus one burst, plus rate * length |
| `RateLimit.KeysAreIndependent` | internal/shared/middleware/ratelimit.go:59-62 | what one key is answered does not depend on other keys' requests |
| `TransformerChain.ListingIs` | internal/controlplane/db/generated/transformers.sql.go:317-322 | a source's rows have one listing by (position, transformer id) |
| `TransformerChain.ChainIsDistinct` | internal/controlplane/db/generated/transformers.sql.go:16-21 | no transformer is twice in a chain |
| `TransformerChain.AttachAppends` | internal/controlplane/db/generated/transformers.sql.go:16-21 | inserting at the next position appends to the chain and leaves other sources |
| `TransformerChain.DetachRemoves` | internal/controlplane/db/generated/transformers.sql.go:112-114 | deleting the link removes the transformer from the chain, keeps the order of the rest and other sources |
| `TransformerChain.ReorderReplaces` | internal/controlplane/db/generated/transformers.sql.go:152-155 | positions 0..n-1 after a clear make the chain exactly the given list |
| `TransformerChain.CountingFindsStrangers` | internal/controlplane/service/transformer.go:175-187 | without duplicates the organization-scoped count equals the length exactly if every id belongs to the organization |
| `TransformerChain.UniqueUuids` | internal/controlplane/service/transformer.go:214-224 | keeps first occurrences; shorter than the input exactly if there are duplicates |
| `TransformerChain.FirstsGrow` | internal/controlplane/service/transformer.go:214-224 | first occurrences in order: what comes later only adds to the list |
| `TransformerChain.ChainStore.NextPosition` | internal/controlplane/db/generated/transformers.sql.go:18-19 | one more than the largest position of the source, 0 if it has none |
| `TransformerChain.NextAfterReorder` | internal/controlplane/db/generated/transformers.sql.go:18-19 | behind a chain of n transformers placed at 0..n-1 the next position is n |
| `TransformerChain.ChainStore.AttachToSource` | internal/controlplane/service/transformer.go:131-139 | appends if absent, for a transformer of the organization; else the chain is as it was |
| `TransformerChain.ChainStore.DetachFromSource` | internal/controlplane/service/transformer.go:143-151 | removes the transformer if it is the organization's; else nothing |
| `TransformerChain.ChainStore.SetSourceTransformers` | internal/controlplane/service/transformer.go:174-212 | replaces the chain by the list exactly if it has no duplicates, all are the organization's and so is the source; else nothing |
| `TransformerChain.ChainStore.InsertAll` | internal/controlplane/service/transformer.go:202-210 | the insert loop places the list at positions 0..n-1 |
| `TransformerChain.StepOwnedIff` | internal/controlplane/service/transformer.go:131-139 | a call keeps all chains within their organization if and only if it does not attach an organization's transformer to another organization's source |
| `TransformerChain.ChainsStayOwnedIff` | internal/controlplane/service/transformer.go:129-212 | over every run of attach, detach and reorder calls: chains stay within their organization throughout if and only if no call of the run attaches across organizations |
| `Llm.RequestIdentity` | internal/shared/llm/types.go:35-68 | decode then encode is the identity exactly for requests whose modelled fields are present and well typed |
| `Llm.RequestNormal` | internal/shared/llm/types.go:35-68 | for every decodable request a second round trip changes nothing more |
| `Llm.ForwardingPatchesOnlyTexts` | internal/shared/llm/types.go:9-15 | for every decodable request, after replacing the model and any texts, every other key of the request and its messages is as received, and a content whose text was not changed is kept as it was |
| `Llm.MessageIdentity` | internal/shared/llm/types.go:93-140 | the same for single messages, null and multimodal contents included |
| `Llm.DecodedText` | internal/shared/llm/types.go:93-140 | what guards and transformers see of a message: its role and, of its content, the string or the non-empty text parts on lines of their own; "" for anything else |
| `Llm.RequestReadableIff` | internal/shared/llm/types.go:35-59 | a request is taken exactly if it is null or an object whose modelled keys are absent, null or of their types down to the roles, and each field is taken from its own key |
| `Llm.ExtractInputText` | internal/shared/llm/types.go:273-280 | the content of the last user message |
| `ResponseCodec.ResponseIdentity` | internal/shared/llm/types.go:154-181 | decode then encode is the identity exactly for canonical responses, whose usage holds the three counts and nothing else |
| `ResponseCodec.ResponseNormal` | internal/shared/llm/types.go:154-218 | for every decodable response a second round trip changes nothing more |
| `ResponseCodec.ChoiceIdentity` | internal/shared/llm/types.go:192-213 | the same law for one choice |
| `ResponseCodec.ResponseFields` | internal/shared/llm/types.go:154-181 | each field of a response and of its usage is taken from its own key |
| `ResponseCodec.ChoiceFields` | internal/shared/llm/types.go:192-213 | the same for choices; the element the array decoder stops at keeps zero values |
| `ResponseCodec.ReturningPatchesOnlyTexts` | internal/shared/llm/types.go:9-15 | returning any decodable response with rewritten texts keeps every unmodelled key of the response, its choices and their messages, and every modelled one that is well typed |
| `ResponseCodec.UsageDetailsAreLost` | internal/shared/llm/types.go:154-181 | a response that comes through unchanged, and the same one with token details inside usage, which does not |

## Left out

- The analyzer, the anonymizer service, guards, the LLM and the sinks are arbitrary functions or parameters; HTTP, timeouts and context cancellation are not modelled beyond "the call failed".
- sha256 of the canonical payload is any function that tells apart the contents that were published; AES decryption of LLM keys is a parameter that may fail; JSON text syntax is not modelled, only syntax trees with distinct keys.
- Integers are unbounded: counters, positions (int32 in the tables), thresholds, the truncation of latencies and token counts to int32 in audit rows and of limits are not modelled.
- Span offsets index the same sequence the code slices; that the analyzer counts runes and Go slices bytes is not part of this model.
- Struct decoding in encoding/json matches keys without regard to case; parts of message contents, usage and guard configurations are matched exactly here.
- Logging, metrics, wall-clock latencies and durations in results are left out.
- Database errors of the single queries, transactions that roll back, and two clients attaching at the same time are left out; so are DeleteTransformer and its cascade.
- The rest of the dashboard, the management handlers, authentication of users, migrations and analytics would add only easy members.
- One data plane with one poller is modelled; the control plane answers from one database state per request.
- Replacer.Replace: defined for non-empty search strings, which placeholders always are.
- Pipeline.ApplyAll: transformers are functions on tables and messages, so that the chain threads the table as a value instead of sharing the State object; error texts are not modelled.
- Processor.Processor.Execute: the request's State is a table value; one store snapshot is read, and the caller's request object is not changed in place. Error messages carry no causes.
- EndToEnd.EchoIsRestored: the chain's steps are functions that compute what the two transformer classes' contracts state; the classes' objects are not placed in the chain. The anonymizer is the last input step and the deanonymizer the only output step.
- Guards.Run: a goroutine is three atomic steps (the call of the guard, noting an error, writing the slot); aliasing of a result pointer that a guard keeps is not modelled.
- Sse.StreamRebuildsCompletion: the payload codec is any injective one-line encoding that keeps valid UTF-8, which stands for json.Marshal; marshalling errors are left out.
- RateLimit.KeyEvictionUnobservableIff: tokens are reals, not float64, and a request needs a whole token; the rate library, which is not part of this model, truncates waiting times to nanoseconds and so admits a deficit worth less than one. Each key keeps its limits; runs with changing limits are left out beyond RateLimit.TouchKeepsTokens. getLimiter and Allow are one step here.
- AuditWriter.Writer.Record: entries are an arbitrary type; hashing and marshalling, whose failure drops an entry silently, come before the modelled step. Record after Close panics in Go and is excluded.
- AuditWriter.Writer.Close: the five-second deadline of the drain is left out, and with it a Close that returns early.
- AuditPages.AuditTable.PruneOnce: stops at an arbitrary point for errors and cancellation; rows that arrive meanwhile are inside the retention window.
- ConfigStore.Store.Apply: guard and transformer factories are functions of type, name and configuration; lookups load the pointer one at a time, so one request may see two snapshots, as in the original.
- ConfigRefinement.LookupRefinesTables: needs the uniqueness the tables enforce (organization ids, guardrail and transformer ids, key hashes, routes within an organization).
- SnapshotFile.Snapshotter.Save: a rename is one atomic step; permissions and syncing to disk are not modelled.
