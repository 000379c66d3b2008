# Nala: verified models of the stateful cores

Nala is an agent runtime. Most of it moves data between language models, a database and a desktop
front end; a few self-contained components keep state or compute something whose guarantees cannot be
read off one function body. This project models those components in Dafny and proves what they
guarantee, for every input, every run and every interleaving.

`dafny verify dfyconfig.toml` checks everything.

| file | component |
|---|---|
| `TopologicalSort.dfy` | Kahn's algorithm over Go maps, exact and independent of how the maps are iterated |
| `Template.dfy` | placeholder substitution by repeated `ReplaceAll` |
| `PipelineEngine.dfy` | `Execute`: the run object, its methods, and the run as a function on values |
| `RunInvariants.dfy` | what every state of a pipeline run keeps; what the retry loop decides |
| `Provenance.dfy` | which logged executor call each output comes from |
| `Reasons.dfy` | a finished run read off its steps and attempts: output keys, the text handed on, and why each step ended as it did |
| `Confluence.dfy` | the statuses of a run do not depend on the order of the sort (executors fixed per step, no step reached fails under "stop") |
| `OrderMatters.dfy` | exactly when the statuses depend on the order: for two given orders, for the orders the sort can return, and for all orders with dependencies first |
| `DataConfluence.dfy` | nor do its outputs, when executors react to the text the templates hand them |
| `Text.dfy`, `Chunker.dfy` | runes, bytes and trimming; the three document chunkers |
| `Cosine.dfy`, `VectorStore.dfy` | cosine score; upsert/delete collections and top-k search |
| `SlidingWindow.dfy`, `FixedWindow.dfy` | the two rate limiters |
| `EmbeddingCache.dfy` | batching by ten, and the content-addressed cache under concurrent callers |
| `TokenTracker.dfy` | prices, per-session and global usage |
| `SlugAllocator.dfy` | unique agent slugs |
| `Scheduler.dfy` | entries and jobs against the live cron table |
| `Streams.dfy` | interleaved stream consumers and cancellations |
| `Collections.dfy` | sequences and sets shared by the others |

## How the source appears here

Code that works by updating fields is a class whose methods are proved against a function on values
(`RunStep`, `Apply`, `Step`, `Fill`, ...); the theorems are about that function, over whole runs.
Where the source leaves something open, the model keeps it open: the iteration order of a Go map is
an arbitrary enumeration of its keys (`Template.Enumerates`, `TopologicalSort.IsSeeding`), what an
executor answers at each attempt (a result, an error, an unregistered agent, a cancelled context) is
an oracle (`World`), a clock is a non-decreasing sequence of instants read under the lock, and
concurrent callers are interleaved one critical section at a time. Sorting by score is taken by its
contract, and ties may fall either way.

## What the code does where one would expect otherwise

Each of these is kept as the code has it. Behind each stand the members it names, with the exact condition
where there is one; the bullet on parallel steps only records a difference from the design document.

- A step blocked by an unfinished dependency is left "running" unless its own strategy is "stop" and
  the dependency has an error text; only then is it "skipped" (internal/pipeline/pipeline.go:117-132; `WaitForDependencies`).
- A run can depend on the iteration order of the map that seeds the sort: `StopMakesOrderMatter` gives two
  independent steps, the two seedings, the order the sort returns for each, and the different final statuses.
  `SeedingsAgreeIff` is the exact condition: the statuses are the same for all seedings if and only if no step
  that is reached fails under "stop", or from all seedings the run ends at the same step with the same steps
  before it (`PairAgreeIff` says this for two given orders). A pipeline with one step to start from has one
  outcome (`OneRootOneOutcome`). `StatusesAgreeIff` is a different statement, about all orders with
  dependencies first, most of which the sort never returns: it is what a pipeline must meet to be independent
  of how ties are broken at all. `RunCompletesIff` says exactly when a run gets through.
- A negative `MaxRetries` skips the attempt loop, and the step is marked completed with an empty
  result (internal/pipeline/pipeline.go:140). The model keeps this: a completed step was executed if and only
  if its `MaxRetries` is not negative (`CompletedIsExecutedIff`).
- The design document (section 9.2, variable substitution) and the comment at
  internal/pipeline/pipeline.go:250 announce `{{steps.step_id.key}}`; the code replaces `{{steps.<key of the outputs map>}}`, that is the step's
  output key, or its id if it has none. The announced form is looked up as one key, dot included
  (`StepKeyPlaceholder`).
- The design document (section 9.2) announces parallel independent steps; `Execute` runs steps one after the
  other, as the model does.
- Sequential replacement rescans what it has put in: `BracedValueIsOrderDependent` exhibits a template and an
  input whose result depends on the iteration order. For one loop `LoopOrderIff` is the exact condition: no
  value can start the placeholder of another key. For both loops together the condition (`Tame`) goes one way:
  it is enough for simultaneous substitution, but a later key can undo what an earlier one did, so it is not
  claimed to be needed.
- `NewChunker` replaces a bad overlap by 200, which is below the size only for sizes above 200. For a size of
  200 the fixed-size loop then never ends, and for a smaller one its second slice starts below zero and
  panics (`NewChunkerProgressIff`, `FixedTerminatesIff`).
- The section chunker does not count the last separator it adds, so packed sections can exceed the size by
  up to two bytes, exactly when they only fitted without it (`SeparatorIsUncounted`, `TwoSectionsTogether`).
  The size bounds all chunks of sections that fit alone only where it is below two (`SizeKeptIff`).
- The design document (tool handlers) asks for 10 requests a minute per domain; the fixed window admits up to 19 in a
  closed minute, and attains that (`SpanBound`, `SpanBoundAttained`). The limit itself is kept over all spans only
  by a limiter of one (`LimitKeptIff`).
- The sliding window is exact if and only if no call has pruned an instant that a later one asks for again
  (`DecisionExactIff`); an agent whose window is made longer between calls is judged by a list that was pruned
  for the shorter one (`GrowingWindowForgets`, with an input in `GrowingWindowExample`). The one caller,
  internal/agent/loop.go:66, passes a constant window, for which the limiter is exact.
- The design document (agent table, edge cases) asks for a number to be appended on a slug collision. A taken
  slug of 99 or 100 characters has no valid suffixed form, and creating the agent is rejected (`LongSlugCannotBeRenamed`).
- Scheduling a task that is out of runs returns before the old entry is removed, so an entry the task
  already has goes on firing (`ExhaustedScheduleKeepsOldEntry`; `ApplyWired` says for every operation which
  tasks are live after it, both ways).
- The clean-up of a replaced stream drops its successor's registration, after which `CancelStream` does
  not reach the running consumer (`ReplacedStreamEscapesCancel`). `RegisteredIff` and `CancelReachesIff` say
  for all runs when it does: exactly as long as no successor, no `CancelAll` and no late clean-up of an ended
  consumer of the session has come in between.
- The embedding cache agrees with the embedder under every interleaving if and only if texts with the
  same hash have the same embedding (`CacheRefinesIff`).

## Model

| member | source | states |
|---|---|---|
| TopologicalSort.TopologicalSort | internal/pipeline/pipeline.go:200-239 | terminates, accepts a pipeline if and only if its ids are distinct, every dependency names a step and no cycle exists; then returns a permutation of the ids with every dependency ahead of its dependents, and it is the first-in-first-out order from some seeding, with repeated dependencies allowed |
| TopologicalSort.EmitAll | internal/pipeline/pipeline.go:221-232 | from a given seeding the loop emits KahnOrder |
| TopologicalSort.EverySeedingSorts | internal/pipeline/pipeline.go:214-238 | from every seeding the first-in-first-out order holds all steps exactly for well-formed pipelines, and is then topological |
| TopologicalSort.BuildGraph | internal/pipeline/pipeline.go:201-212 | the two maps encode exactly the edge list of the steps, repeated edges counted each time |
| TopologicalSort.SeedQueue | internal/pipeline/pipeline.go:214-219 | in any iteration order: exactly the nodes without incoming edges, each once |
| TopologicalSort.Discharge | internal/pipeline/pipeline.go:226-231 | every edge out of the emitted node is taken off its target once, and exactly the nodes whose last edge goes are queued, in that order |
| TopologicalSort.AcceptedIsWellFormed | internal/pipeline/pipeline.go:234-238 | an order as long as the step list proves ids distinct, dependencies known and no cycle |
| TopologicalSort.RejectedIsIllFormed | internal/pipeline/pipeline.go:234-236 | an order that came out short proves a repeated id, an unknown dependency or a cycle |
| TopologicalSort.StuckWalkCloses | internal/pipeline/pipeline.go:234-236 | steps that all wait for one another contain a cycle (pigeonhole on an ever longer walk) |
| TopologicalSort.OrderedHasNoCycle | internal/pipeline/pipeline.go:221-238 | no cycle can be laid out with dependencies first |
| TopologicalSort.PendingDrops | internal/pipeline/pipeline.go:226-228 | emitting a node lowers each target's open in-degree by the number of edges between them |
| Template.ResolveTemplate | internal/pipeline/pipeline.go:241-257 | the two loops compute the sequential substitution, for the iteration orders given |
| Template.ReplaceIsSubstitution | internal/pipeline/pipeline.go:247-247 | one ReplaceAll of a placeholder fills that placeholder everywhere and touches nothing else, among texts it cannot start in |
| Template.LoopIsSubstitution | internal/pipeline/pipeline.go:245-248 | one loop over a map whose values cannot start another key's placeholder is one simultaneous substitution, whatever the order of its keys |
| Template.LoopOrderIff | internal/pipeline/pipeline.go:245-248 | one loop gives the same text for all clean templates in all iteration orders if and only if no value can start another key's placeholder |
| Template.ResolveIsSimultaneous | internal/pipeline/pipeline.go:241-257 | both loops together are one simultaneous substitution, hence independent of both iteration orders; single braces in the text are allowed |
| Template.PlaceholderAlone | internal/pipeline/pipeline.go:241-257 | {{steps.k}} alone becomes the output under k and {{input.k}} the input k, in any iteration order, and stays as it is where there is none |
| Template.StepKeyPlaceholder | internal/pipeline/pipeline.go:250-254 | the announced form {{steps.id.key}} is filled with the output under the key id.key if there is one, and stays as it is otherwise |
| Template.UnknownPlaceholdersSurvive | internal/pipeline/pipeline.go:241-257 | placeholders that neither map answers come out as they went in |
| Template.BracedValueIsOrderDependent | internal/pipeline/pipeline.go:245-248 | with braces in a value the outcome can depend on the iteration order |
| PipelineEngine.Execute | internal/pipeline/pipeline.go:73-198 | an ill-formed pipeline ends in "error" with every step pending; any other run ends as the run along the topological order from some seeding; an error is returned exactly when the run's status is "error", and is then the error of a failed step; statuses only ever moved legally (what such a run holds in the end: FinishedOutputKeys, FinishedOutputsTraced and EveryStepExplained) |
| PipelineEngine.ProcessStep | internal/pipeline/pipeline.go:102-190 | the loop body turns the run into RunStep of the old run and records only legal status changes |
| PipelineEngine.WaitForDependencies | internal/pipeline/pipeline.go:109-132 | stops at the first dependency not completed; the step is skipped, with "dependency ... failed: ..." and the dependency's own error, only if it is under "stop" and there is an error text, and is left "running" otherwise |
| PipelineEngine.TryStep | internal/pipeline/pipeline.go:137-169 | the attempt loop ends with the outcome, and after the number of executor calls, that TryFrom gives |
| PipelineEngine.ConcludeStep | internal/pipeline/pipeline.go:171-189 | success writes the result under the output key, or under the id where there is none, and nothing else; failure and cancellation write their status and error and no output; when Execute returns |
| PipelineEngine.RunOrder | internal/pipeline/pipeline.go:102-197 | the whole loop over the order is Run |
| PipelineEngine.TerminalForever | internal/pipeline/pipeline.go:102-190 | through all the values the status map takes, a terminal status is never left and a started step is never pending again |
| PipelineEngine.RunStepFrame | internal/pipeline/pipeline.go:102-190 | processing a step touches no other step's status or error |
| PipelineEngine.FirstUnmet | internal/pipeline/pipeline.go:111-129 | none if and only if all dependencies are completed |
| RunInvariants.RetryLoopDecides | internal/pipeline/pipeline.go:140-169 | the outcome and the number of calls, read off the first attempt that is not a failure to be repeated, or off the exhausted retries |
| RunInvariants.EveryStateSound | internal/pipeline/pipeline.go:102-190 | in every state: completed steps are closed under dependencies; executors were called only for steps with all dependencies completed; attempts are 0, 1, 2, ... and at most MaxRetries+1 under "retry", one otherwise; later steps untouched |
| RunInvariants.FinishedRunIsSound | internal/pipeline/pipeline.go:102-197 | the same for the finished run along any order |
| RunInvariants.EarlyEndLeavesRestPending | internal/pipeline/pipeline.go:142-147 | a run that ends early ends at one step, in error under "stop" or cancelled, and every later step of the order is pending |
| RunInvariants.EveryStateOutputs | internal/pipeline/pipeline.go:181-187 | in every state the outputs hold exactly the keys of the completed steps |
| Provenance.EveryOutputTraced | internal/pipeline/pipeline.go:134-187 | in every state each completed step's last logged call succeeded, on the text of its own turn, and every output is what the last call of its last writer returned (with a negative MaxRetries: no call and the empty text) |
| Provenance.FinishedOutputsTraced | internal/pipeline/pipeline.go:134-197 | the same for the finished run along any order |
| Provenance.CompletedIsExecutedIff | internal/pipeline/pipeline.go:140-181 | a completed step was executed if and only if its MaxRetries is not negative |
| Reasons.FinishedOutputKeys | internal/pipeline/pipeline.go:181-187 | a finished run along any order holds outputs under exactly the output keys of its completed steps, and the ids of those without one |
| Reasons.DependencyIsHandedOn | internal/pipeline/pipeline.go:134-187 | a step whose template is the placeholder of a completed earlier step's key, which no other step writes to, is handed what that step's last logged call returned |
| Reasons.InputIsHandedOver | internal/pipeline/pipeline.go:134-135 | a step whose template is the placeholder of an input is handed that input |
| Reasons.SameForGood | internal/pipeline/pipeline.go:102-190 | once its turn is over, a step's status, error and logged attempts never change |
| Reasons.EveryStepExplained | internal/pipeline/pipeline.go:102-197 | in every finished run each status and error text has its reason: an errored step's last logged attempt failed with that text and for good, or its agent was not registered; a skipped one names its first dependency that is not completed and that one's error; a step left "running" waits for one without an error text or is not under "stop"; cancelled, interrupted; pending, the run had ended |
| Confluence.RunCompletesIff | internal/pipeline/pipeline.go:102-197 | with executors fixed and no cancellation, a run along any order gets through if and only if no step with only successful steps below it fails under "stop" |
| Confluence.CompletedSetIsExact | internal/pipeline/pipeline.go:102-197 | then exactly the steps with no failing step among themselves and their transitive dependencies are completed |
| Confluence.RunsAgree | internal/pipeline/pipeline.go:102-239 | then any two orders and any two ways of iterating the maps give the same statuses and errors |
| Confluence.ExecuteIsConfluent | internal/pipeline/pipeline.go:73-239 | the same for whatever Execute returns |
| Confluence.SettledUnique | internal/pipeline/pipeline.go:102-190 | the equations between a step's status and its dependencies' have one solution |
| Confluence.AllGoodUnfolds | internal/pipeline/pipeline.go:111-132 | a step is good if and only if it succeeds and its dependencies are good (paths against one step of recursion) |
| OrderMatters.SeedingsAgreeIff | internal/pipeline/pipeline.go:102-239 | with executors fixed and no cancellation, all results of Execute have the same statuses if and only if no reached step fails under "stop", or from every seeding of the sort the run ends at the same step with the same steps before it |
| OrderMatters.PairAgreeIff | internal/pipeline/pipeline.go:102-197 | the same for two given topological orders |
| OrderMatters.OneRootOneOutcome | internal/pipeline/pipeline.go:214-232 | a pipeline with a single step to start from has one result, whatever its executors do |
| OrderMatters.StatusesAgreeIff | internal/pipeline/pipeline.go:102-197 | with executors fixed and no cancellation, all topological orders leave the same statuses if and only if no reached step fails under "stop", or one does that every other step needs or is needed by |
| OrderMatters.OrdersDiffer | internal/pipeline/pipeline.go:175-179 | a reached "stop" failure that is not such a bottleneck comes with two topological orders, not necessarily ones the sort returns, whose runs leave different statuses |
| OrderMatters.BottleneckIsOnlyBlocker | internal/pipeline/pipeline.go:175-179 | such a step is then the only one that can end the run |
| OrderMatters.BottleneckRunsAgree | internal/pipeline/pipeline.go:175-179 | with a bottleneck failing, any two orders leave the same statuses |
| OrderMatters.StatusesAtEnd | internal/pipeline/pipeline.go:102-179 | a run ends at the first such failure of its order: errored there, pending after it, processed before it, and completed exactly if good |
| OrderMatters.PartFirstIsOrder | internal/pipeline/pipeline.go:221-232 | steps that need nothing from outside can be taken first |
| OrderMatters.StopMakesOrderMatter | internal/pipeline/pipeline.go:175-179 | two independent steps, one failing under "stop": the sort returns each of the two seedings as it is, and the final statuses differ |
| DataConfluence.RunsAgreeOnData | internal/pipeline/pipeline.go:102-239 | executors may react to their task text: if the run along one order gets through, so does the run along any other, with equal statuses, errors and outputs |
| DataConfluence.ExecuteIsDeterministic | internal/pipeline/pipeline.go:73-257 | for templates that name inputs and outputs of transitive dependencies only (distinct output keys, data that brings no opening of a placeholder, no cancellation), all results of Execute agree on getting through, and on statuses, errors and outputs if they do |
| DataConfluence.TemplatesAreLocal | internal/pipeline/pipeline.go:135-135 | such templates make a step's task text a function of its dependencies' outputs, in any iteration order |
| DataConfluence.TaskIsSubstitution | internal/pipeline/pipeline.go:134-135 | every step's task text is its template with all placeholders filled at once from the input and the outputs of its turn |
| DataConfluence.EveryStateAccounted | internal/pipeline/pipeline.go:102-190 | as long as a run goes on, every processed step's status, error and output follow from those of its dependencies |
| DataConfluence.CannotHalt | internal/pipeline/pipeline.go:172-179 | a step that one run got through cannot end the other one |
| Chunker.FixedSize | internal/memory/document.go:186-212 | chunk i is the window of at most Size runes that starts at i*(Size-Overlap), up to the first start past the end |
| Chunker.FixedCount | internal/memory/document.go:194-210 | the number of chunks is the length over Size-Overlap, rounded up |
| Chunker.FixedBounds | internal/memory/document.go:195-205 | indices count from 0, every chunk has between 1 and Size runes, and its token count is a quarter of them |
| Chunker.FixedRoundTrip | internal/memory/document.go:186-212 | dropping the overlap from every chunk but the first and concatenating gives the content back |
| Chunker.FixedTerminatesIff | internal/memory/document.go:194-210 | the cursor passes the end if and only if the overlap is below the size, gets below zero (a panic) if and only if it is above, and stays inside for ever if and only if they are equal |
| Chunker.NewChunkerProgressIff | internal/memory/document.go:154-166 | a good size or overlap is kept; the constructor's settings allow progress if and only if the overlap was fine or the size exceeds 200; a bad overlap leads to the endless loop at size 200 and to the panic below |
| Chunker.Recursive | internal/memory/document.go:214-263 | a greedy packing of the paragraphs: each chunk is what was carried over plus its block, and no block could have taken the next paragraph too; hence the partition of the next row |
| Chunker.RecursiveChunksPartition | internal/memory/document.go:214-263 | no paragraph is lost, split or moved: the blocks partition the paragraph list; where the chunk before is front + t with t of Overlap runes, the chunk is the left-trimmed t, a blank line and its block, and its block alone otherwise; the next block's first paragraph would not have fitted; token counts |
| Chunker.ChunkBytesBounded | internal/memory/document.go:225-252 | a chunk's bytes are within Size, or within those of the last Overlap runes of the chunk before, plus 2, plus the longest paragraph |
| Chunker.Semantic | internal/memory/document.go:265-312 | a greedy packing of the trimmed non-empty sections; hence the partition of the next row |
| Chunker.SemanticChunksPartition | internal/memory/document.go:265-312 | the chunks are the blocks of a partition of the kept sections; a block of several sections fitted without its last separator, and the next block's first section did not fit |
| Chunker.KeptOfSection | internal/memory/document.go:276-280 | of each section exactly what stands between the white space at its ends is kept, if anything |
| Text.TrimSpaceIs | internal/memory/document.go:227-232 | trimming takes off the white space at both ends and nothing else |
| Text.ByteLenIsEncoded | internal/memory/document.go:224-225 | what len counts are the bytes of the UTF-8 encoding (section 3 of RFC 3629) |
| Text.WidthIsEncoded | internal/memory/document.go:224-225 | the width of a rune is the number of its encoded bytes, from which it reads back |
| Chunker.SeparatorIsUncounted | internal/memory/document.go:284-288 | any chunk of several sections exceeds the size exactly when they only fitted without their last separator, and then by at most two bytes |
| Chunker.SizeKeptIff | internal/memory/document.go:284-288 | the size bounds all chunks of section lists that fit alone if and only if it is below two |
| Chunker.TwoSectionsTogether | internal/memory/document.go:284-288 | two sections whose bytes just fit are packed into a chunk over the size |
| Chunker.ChunkContent | internal/memory/document.go:168-184 | rejects exactly content over 10 MB; otherwise the strategy's chunking, with recursive as the default |
| Cosine.CosineSimilarity | internal/memory/vector.go:134-148 | the loop computes the dot product over the two lengths; 0 for different sizes or a zero vector |
| Cosine.DotOfParts | internal/memory/vector.go:138-143 | the dot product is additive over parts and a plain product on single coordinates |
| Cosine.CauchySchwarz | internal/memory/vector.go:138-143 | the squared dot product is at most the product of the squared lengths, for vectors of any size |
| Cosine.ScoreBounded | internal/memory/vector.go:134-148 | scores lie in [-1, 1] |
| Cosine.ScoreSymmetric | internal/memory/vector.go:134-148 | the score of a and b is that of b and a |
| Cosine.ScoreOneIffParallel | internal/memory/vector.go:134-148 | non-zero vectors score 1 if and only if one is a positive multiple of the other |
| Cosine.ScoreOfSelf | internal/memory/vector.go:134-148 | a non-zero vector scores 1 against itself |
| VectorStore.VectorDB.Insert | internal/memory/vector.go:44-57 | an upsert: the collection, as a map from distinct ids, gains or replaces one entry; other collections stay |
| VectorStore.VectorDB.Delete | internal/memory/vector.go:108-120 | the id is gone, everything else stays |
| VectorStore.VectorDB.Clear | internal/memory/vector.go:128-132 | the collection is gone, the others stay |
| VectorStore.VectorDB.Search | internal/memory/vector.go:59-92 | the front of some descending ranking of all entries, of length min(topK, entries); each hit carries the id and metadata of an entry whose dot product with the query is the score times the two lengths (score 0 for other sizes or zero vectors), and an entry that is missing was cut behind topK hits no worse |
| VectorStore.VectorDB.SearchWithMinScore | internal/memory/vector.go:94-106 | the same among the entries scoring at least minScore, although the filter comes after the cut |
| VectorStore.ParallelRanksFirst | internal/memory/vector.go:74-92 | with topK of at least 1, an entry that is a positive multiple of a non-zero query makes the first hit score 1, also under a minimum score of up to 1 |
| VectorStore.MeasuresIsScore | internal/memory/vector.go:74-76 | the equation between score, lengths and dot product determines the hit of an entry |
| VectorStore.FilterAfterCut | internal/memory/vector.go:95-104 | filtering after the top-k cut equals cutting after the filter |
| VectorStore.OmittedRankLower | internal/memory/vector.go:79-85 | nothing left out ranks above anything returned |
| VectorStore.TopHasDistinctIds | internal/memory/vector.go:87-90 | no entry is returned twice |
| SlidingWindow.RateLimiter.Allow | internal/agent/session.go:276-298 | prunes, decides and records for the key as Step does; other keys stay |
| SlidingWindow.SessionManager.RateLimitAllow | internal/agent/session.go:300-309 | each agent is decided by its own calls alone, through one limiter object per agent |
| SlidingWindow.DecisionExactIff | internal/agent/session.go:284-297 | for given instants and windows, the pruned list decides exactly as the full history would under all limits if and only if no call pruned an instant that lies in the window asked about |
| SlidingWindow.DecisionIsExact | internal/agent/session.go:284-297 | in particular as long as cutoffs do not move back |
| SlidingWindow.AdmittedIffRoom | internal/agent/session.go:284-297 | a call is then let through exactly if fewer than limit admissions lie in (now-window, now] |
| SlidingWindow.WindowNeverOverfull | internal/agent/session.go:276-298 | over every run with one limit and window, at most limit admissions lie in (t-window, t], for every instant t |
| SlidingWindow.GrowingWindowForgets | internal/agent/session.go:286-292 | an admission pruned by one call and asked for again by the next, longer window is not counted |
| FixedWindow.RateLimiter.Allow | internal/tool/handlers.go:103-117 | each key is decided by its own calls alone |
| FixedWindow.SpanBound | internal/tool/handlers.go:103-117 | at most 2*max-1 admissions of a key in any closed span of length interval, over every run |
| FixedWindow.SpanBoundAttained | internal/tool/handlers.go:103-117 | some run attains the bound |
| FixedWindow.LimitKeptIff | internal/tool/handlers.go:103-117 | every run keeps to max admissions in every closed span of length interval if and only if max is 1 |
| FixedWindow.RefusalIsEarned | internal/tool/handlers.go:112-114 | a call is refused only if max admissions lie within the last interval |
| EmbeddingCache.EmbedInBatches | internal/memory/embedding.go:53-72 | the loop of ten-text batches, in order, up to the first error (the OpenAI loop is the same code) |
| EmbeddingCache.BatchedSucceedsIff | internal/memory/embedding.go:127-145 | succeeds if and only if every batch does |
| EmbeddingCache.FirstFailureReported | internal/memory/embedding.go:66-69 | otherwise returns the error of the first failing batch |
| EmbeddingCache.BatchedIsUnbatched | internal/memory/embedding.go:53-72 | returns the list one unbatched call would |
| EmbeddingCache.CachedEmbedder.ReadCache | internal/memory/embedding.go:203-217 | the read-locked section: cached vectors in place, and exactly the positions of the other texts listed, in order |
| EmbeddingCache.CachedEmbedder.WriteCache | internal/memory/embedding.go:225-230 | the write-locked section: every answer stored in its position and under its hash |
| EmbeddingCache.CachedEmbedder.Embed | internal/memory/embedding.go:198-235 | with anything faithful happening between the two sections, success returns f of every text in order with all of them cached, and the cache stays faithful; fails only with the inner embedder's error |
| EmbeddingCache.CacheRefinesIff | internal/memory/embedding.go:198-240 | every interleaving of concurrent calls answers like the plain embedder if and only if colliding texts embed alike |
| EmbeddingCache.RunCorrect | internal/memory/embedding.go:198-235 | the invariant over all interleavings: faithful cache, correct or pending answers |
| EmbeddingCache.AnsweredStaysCached | internal/memory/embedding.go:225-230 | a cached text stays cached through every further event |
| EmbeddingCache.ReturnedIsCached | internal/memory/embedding.go:203-230 | in every interleaving, every text of a call that returned is cached from then on |
| EmbeddingCache.CachedTextsNeedNoCall | internal/memory/embedding.go:208-234 | a call whose texts are all cached returns at once, correctly |
| TokenTracker.AlwaysBalanced | internal/model/token.go:105-164 | after any sequence of events each global field is the sum of that field over the sessions |
| TokenTracker.SessionNearlyExact | internal/model/token.go:105-126 | a session counts exactly its messages since its last reset: the sums of their input, output and total tokens, and a cost off by at most 0.000005 per message from price.input * input + price.output * output at the price last set |
| TokenTracker.GlobalNearlyExact | internal/model/token.go:105-164 | the same bound for the global cost over the messages it still counts, whatever was reset |
| TokenTracker.SumAfterUpdate | internal/model/token.go:113-125 | changing one session moves the sum by the difference |
| TokenTracker.CostIsPriced | internal/model/token.go:56-76 | input tokens at the input price plus output tokens at the output price of the price that applies, to the nearest fifth decimal (ties away from zero); 0 where none applies |
| TokenTracker.SetPriceIsCharged | internal/model/token.go:47-76 | after a price is set, the model costs that for all token counts, and so does every model of the provider that falls back on the wildcard |
| TokenTracker.PriceInForce | internal/model/token.go:47-76 | after any events, the price that applies is the one last set for the model, else the one last set for the wildcard, else the default |
| TokenTracker.SetPriceFrame | internal/model/token.go:47-76 | setting a price changes that model's price, for a wildcard also those that fall back on it, and no other |
| TokenTracker.CostTable.SetCost | internal/model/token.go:47-54 | stores that price under that provider and model, and nothing else |
| TokenTracker.CostTable.CostFor | internal/model/token.go:56-76 | input tokens times the input price plus output tokens times the output price, of the exact model, else of the wildcard, to five decimals; else 0 |
| TokenTracker.CostTable.constructor | internal/model/token.go:26-45 | the default prices |
| TokenTracker.Tracker.TrackMessage | internal/model/token.go:105-126 | the counters stay those of the event log, which gains one Track event |
| TokenTracker.Tracker.ResetSession | internal/model/token.go:145-157 | the counters stay those of the event log, which gains one ResetSession event |
| TokenTracker.Tracker.ResetAll | internal/model/token.go:159-164 | the counters stay those of the event log, which gains one ResetAll event |
| TokenTracker.Tracker.SessionUsage | internal/model/token.go:128-137 | counts the session's messages since its last reset, with a cost off by at most 0.000005 per message |
| TokenTracker.Tracker.GlobalUsage | internal/model/token.go:139-143 | the sum over all sessions, with the same bound |
| SlugAllocator.NextSlug | internal/agent/manager.go:21-34 | terminates within one probe more than there are slugs, with the first free candidate (the base, or the base, a dash and the number of the probe in decimal), or at the first failing query |
| SlugAllocator.TakenCandidates | internal/agent/manager.go:23-33 | pigeonhole: no more candidates are taken than there are slugs |
| SlugAllocator.CandidatesDistinct | internal/agent/manager.go:32-32 | base, base-1, base-2, ... are pairwise distinct |
| SlugAllocator.DecimalRoundTrip | internal/agent/manager.go:32-32 | decimal formatting can be read back, hence is injective |
| SlugAllocator.CandidateValidIff | internal/agent/types.go:44-52 | a suffixed candidate matches the slug pattern if and only if it has at most 100 characters |
| SlugAllocator.LongSlugCannotBeRenamed | internal/agent/manager.go:40-50 | a taken slug of 99 or 100 characters gets no valid candidate |
| SlugAllocator.AgentTable.Create | internal/agent/manager.go:36-102 | a valid free slug is kept; a stored slug is new and valid, a stored setting is the given one or its default; without query errors the agent gets the first free candidate of the given, else the derived, else the fresh slug, is rejected if and only if that exceeds 100 characters or the name or a setting, defaults filled in, is out of range, and is stored otherwise unless the insert fails |
| SlugAllocator.FilledInRangeIff | internal/agent/manager.go:54-68 | after the defaults are filled in, a setting is out of range only if the caller set it so |
| Scheduler.TaskScheduler.ScheduleTask | internal/scheduler/scheduler.go:91-116 | an accepted task that has runs left replaces the record under its id, otherwise the records stay; one Schedule event on the state, with its error result; stays wired |
| Scheduler.TaskScheduler.UnscheduleTask | internal/scheduler/scheduler.go:118-127 | the record goes exactly if the task has an entry; one Unschedule event on the state; stays wired |
| Scheduler.TaskScheduler.ToggleTask | internal/scheduler/scheduler.go:140-172 | on success the record differs in `enabled` alone, otherwise nothing is recorded; one Toggle event on the state, with its error result, including a failed re-add; stays wired |
| Scheduler.TaskScheduler.FinishRun | internal/scheduler/scheduler.go:209-223 | the snapshot is recorded with one more run; one Executed event on the state; stays wired |
| Scheduler.ApplyWired | internal/scheduler/scheduler.go:91-223 | each operation keeps every live entry recorded for the one task it runs, and decides every task's liveness as LiveAfter says, both ways |
| Scheduler.EveryStateWired | internal/scheduler/scheduler.go:91-223 | the same for every reachable state |
| Scheduler.OneEntryPerTask | internal/scheduler/scheduler.go:98-113 | no task ever has two live entries |
| Scheduler.RecordIsLast | internal/scheduler/scheduler.go:91-223 | over every event sequence, a task's record is the task of its last accepted Schedule or finished run, with `enabled` as its last successful Toggle since left it |
| Scheduler.RecordedIff | internal/scheduler/scheduler.go:91-223 | a task is recorded exactly if it once was and no Unschedule has found an entry of it since |
| Scheduler.HasEntryIff | internal/scheduler/scheduler.go:91-223 | a task has an entry exactly if it was once scheduled or enabled with success and not unscheduled, disabled or out of runs since |
| Scheduler.FiresLastArmed | internal/scheduler/scheduler.go:98-170 | until it is switched on anew or off, cron fires the task as it was when it was last scheduled or enabled, on the expression it had then |
| Scheduler.EnableRestoresSchedule | internal/scheduler/scheduler.go:149-170 | enabling makes cron fire the task as last scheduled, on the expression last scheduled, whatever was toggled in between |
| Scheduler.StaysOff | internal/scheduler/scheduler.go:91-223 | disabled, unscheduled, out of runs or not re-added, a task has no live entry until it is scheduled or enabled again |
| Scheduler.OthersUntouched | internal/scheduler/scheduler.go:91-223 | no operation touches the entry, the job or the liveness of another task |
| Scheduler.DisableThenEnable | internal/scheduler/scheduler.go:149-170 | disabling and enabling restores the task under a fresh entry and changes nothing else |
| Scheduler.ExhaustedScheduleKeepsOldEntry | internal/scheduler/scheduler.go:91-95 | scheduling a task that is out of runs leaves its old entry firing |
| Streams.ConsumeLoop | internal/model/stream.go:92-141 | one consumer's events are the image of a prefix of its deltas, ended by a final delta, the close or the cancellation, each only for its own reason |
| Streams.EveryStateFaithful | internal/model/stream.go:64-162 | in every interleaving of consumers, producers and cancellations, each consumer's events are those of a prefix of its own deltas |
| Streams.EventSequenceWellFormed | internal/model/stream.go:64-162 | per consumer: one event per delta taken, of the kind, content, tool calls, usage and error text the delta calls for, and one plain "done" for a close; at most one done or error event, nothing after it, its own session |
| Streams.FinalEventIsLast | internal/model/stream.go:94-119 | the final event is the last, and there is one exactly when the loop ended by a delta or the close |
| Streams.ContentPreserved | internal/model/stream.go:121-136 | no content is lost, repeated or reordered between deltas and events |
| Streams.EndedIsSilent | internal/model/stream.go:100-139 | a consumer that ended emits nothing more, whatever happens next |
| Streams.RegisteredIff | internal/model/stream.go:78-90 | over all runs, a consumer stays registered for its session exactly as long as no successor, CancelAll or late clean-up of an ended consumer of that session takes it away |
| Streams.CancelReachesIff | internal/model/stream.go:145-152 | CancelStream leaves a consumer cancelled exactly if it was already or is still registered |
| Streams.ReplacedStreamEscapesCancel | internal/model/stream.go:78-90 | a replaced stream's clean-up hides its successor from CancelStream |

## Left out

- `ExecuteSwarm` (internal/pipeline/pipeline.go:268-344): its drain takes tokens from the semaphore the workers release into, so it promises no completion to prove.
- Timing: the sleeps between retries, timeouts, time stamps and ids of runs.
- `Execute` reading `run.Outputs` and `stepMap` without the lock: a run is modelled as one thread, which is how it is called.
- Values of type `any` in inputs and outputs: they are modelled by their formatted text.
- PipelineEngine.TryStep: the agent name in the "not registered" text is quoted, but the escapes of Go's `%q` are not modelled.
- Template.ResolveIsSimultaneous: literal text with a pair of opening braces outside a placeholder, or ending in an opening brace, is excluded, because a placeholder could then start in it.
- Confluence.RunsAgree: cancellation is excluded, because when a cancellation is seen is up to timing.
- DataConfluence.ExecuteIsDeterministic: output keys are distinct, because with a shared key the step that comes later in the order overwrites the other; values bring no opening of a placeholder, as for the templates themselves.
- Reasons.DependencyIsHandedOn: a template that is one placeholder, for a key with one writer and data that brings no placeholder; longer templates are TaskIsSubstitution's, and under a shared key the last writer's result stands (FinishedOutputsTraced).
- OrderMatters.StatusesAgreeIff: ranges over all topological orders, of which the sort returns few; SeedingsAgreeIff is the statement about those it returns, in terms of where their runs end.
- Regular-expression splitting: paragraphs arrive trimmed and non-empty, sections arrive as any list of texts.
- Invalid UTF-8: content is a sequence of runes, and lengths of builders are its encoded bytes.
- Chunker.FixedSize: an overlap of the size or more is excluded, because the loop then does not end or panics (FixedTerminatesIff), and so is a negative one, which NewChunker never yields.
- Machine widths: Go's `int` and durations are unbounded here, and float32/float64 are exact reals; square roots are taken by contract.
- VectorStore.VectorDB.Search: a negative topK on an existing collection panics in the source and is excluded.
- VectorStore.SortByScore: sorting is known only by its contract, a descending permutation; the insertion sort in its place stands for `sort.Slice`.
- Shared backing arrays: inserting and deleting reassign a collection's sequence, so aliasing between slices is not captured.
- SlidingWindow.RateLimiter.Allow and FixedWindow.RateLimiter.Allow: the window objects are values in a map instead of pointers, which nothing else holds.
- EmbeddingCache.CachedEmbedder.Embed: an embedder that returns fewer vectors than texts makes the source index out of range; the model asks for one vector per text.
- SHA-256 itself: the hash is any function, and CacheRefinesIff states what is needed of it.
- SlugAllocator.AgentTable.Create: lower-casing the name and drawing the UUID are parameters, fields that Validate does not look at are left out, and a concurrent insert between the probe and the insert is one of the reasons for a failing insert.
- Scheduler run counts, cron parsing, `catchUp` and persistence: `executeTask` increments the snapshot a job was created with, so no lifetime bound on runs exists to prove; parsing is an arbitrary predicate.
- Streams.CancelReachesIff: looking up the cancel function and calling it are one action; a call that comes later is a cancelled context.
- `AddEmitter`: the emitters are one log; events of different consumers are ordered only as they were emitted.
- `lruCache` (internal/tool/handlers.go:38-77): expired keys stay in its order list, so its entry count is not bounded by its capacity.
- The memory manager's consolidation and confidence merging: the former takes its own lock twice, the latter updates a loop copy.
- Tool handlers, providers, database access, configuration, migrations, session status, model fallback and the front end: I/O, or shallow beside the above.
