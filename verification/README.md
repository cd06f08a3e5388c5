# zeromem, modelled and proved

A Dafny model of the parts of the zeromem memory engine where being wrong is quiet: several
processes that embed, switch and clear over one shared file; the entity tables and the graph
read from them; the cutting of sessions into windows and episodes; the calendar arithmetic; the
ranking metrics and the seeded generator of the harness; the extraction of mentions from text
and the splitting of text at them; and the rolling counters of the server.

`dafny verify dfyconfig.toml` checks everything.

## How it is laid out

The shared-store protocol comes in two forms over one set of definitions.

- `Store.dfy` is the file: its tables, and each of its transactions and reads as one function.
  `StoreProofs.dfy` says what every transaction keeps and how the store can move between two
  readings of it.
- `Protocol.dfy` is any number of processes over that file as a step machine. A step makes at
  most one access to the store; a model call is a step of its own and touches none, so anything
  another process does can fall between reading the generation, reading the backlog, the model
  call and the guarded write. `ProtocolProofs.dfy` carries the invariant, `CurrentVectors.dfy`
  says which runs keep the vectors current and `ProtocolTheorems.dfy` what else holds in them;
  `Races.dfy` has the runs of two processes that open a fresh file at once, `Strangers.dfy` the
  process that embeds under another name than the store's.
- `Engine.dfy` is one process as it is written, a class that updates its index, cursor, embedder
  and cache in place, over `Database.dfy`, whose `Others` stands for whatever the other
  processes commit between two accesses. `VectorIndex.dfy` is the index over its flat buffer.
  The methods are proved against the very functions the step machine is made of, and every call
  is shown to be a path of it: the process's own steps, with moves of the store by the others in
  between (`Paths.dfy`). What a path lets the others do is what their steps in the machine do,
  and an undisturbed call is a run.

An embedder is a parameter: a function from a name and a text to a vector, whose length the name
fixes. Scores, discounts and means are exact reals, and the logarithm and the square root are
parameters with the properties used. The Unicode character classes, lower-casing and the
stop-word list are parameters too.

`Aggregates.dfy` is the store's entity tables, `Graph.dfy` and `GraphSnapshots.dfy` the capped
snapshot of them, `Timeline.dfy` the windows and episodes, `Dates.dfy` the calendar,
`Eval.dfy`, `Abstention.dfy`, `Compare.dfy` and `Rng.dfy` the harness, `Words.dfy`,
`TokenShapes.dfy`, `TokenForms.dfy`, `WordShapes.dfy`, `Entities.dfy`, `LetterlessTokens.dfy`,
`Extraction.dfy` and `DateAcrossToken.dfy` the reading of text, `MentionSpans.dfy` its
splitting, `Metrics.dfy` the counters. `Sorting.dfy`, `Ranks.dfy`, `Lists.dfy`, `Overlap.dfy`,
`Shares.dfy` and `Optional.dfy` are shared.

## Where the code and its documentation part

- `seed_embedder` does not look before it writes (`crates/zeromem-core/src/store.rs:385-393`).
  Two processes that open a fresh file at once can both seed it, and the store can then record
  one embedder while it holds the other's vectors under the same generation
  (`Races.RacingSeedMixesModels`). It happens in exactly the runs in which a seed
  lands on another embedder's vectors (`CurrentVectors.RunIsCurrentExactlyWhen`); a second seed
  before there is any vector does no harm to them (`Races.HarmlessRace`). Everything about runs
  is stated for all the others, and each vector is its own model's in every run
  (`ProtocolProofs.EveryVectorIsItsTurns`). The process that lost a harmless race still holds
  the old name, and its load can find nothing of what the store holds
  (`Races.LoserFindsNothing`): holding the recorded name is part of the exact condition in
  `ProtocolTheorems.LoadCompletesTheIndex`. Its next refresh repairs it, since its batch is
  refused, once there is a turn and its model answers (`Engine.ZeroMem.Refresh`).
- `same_model` ignores the dimension (`crates/zeromem-core/src/dense.rs:124-135`), so opening a
  store with another dimension for its remote model leaves a process whose index fits none of
  the stored vectors and whose embedder the store does not know by name
  (`ProtocolTheorems.SameModelAnotherLength`). Its projections can be served stale
  (`ProtocolTheorems.StaleHitExactlyWhen`), and nothing it embeds is ever stored
  (`Strangers.StrangerNeverAdds`). The remote client refuses an answer of another length than the
  one asked for (`crates/zeromem-core/src/dense/remote.rs:268-275`), so a drain fails unless the
  endpoint answers in that length; where it does, and while anything waits, draining until none
  is left, as `crates/zeromem-core/src/lib.rs:427` suggests, does not end
  (`Engine.ZeroMem.EmbedBacklog`, `Strangers.DrainsForNothing`).
- The incremental entity tables are said to agree exactly with a recomputation
  (`crates/zeromem-core/src/store.rs:1313-1315`). They do in counts, times and edges. An
  entity's kind is the first one seen in one case and the least in the other, and
  `Aggregates.AddKeepsKindsExactlyWhen` says when the two agree.
- A word is said to open a sentence when it follows `.`, `!` or `?`
  (`crates/zeromem-core/src/text.rs:12`). A free-standing `...` is a run of trimmed punctuation
  and changes nothing (`Words.SkipRun`).
- `quantity` lists `€1,200` among its shapes (`crates/zeromem-core/src/entities.rs:161`), but
  neither the sign nor the comma is a word character, so no word looks like that
  (`WordShapes.NoCommaInWords`).
- A name or date is not to run across a technical token
  (`crates/zeromem-core/src/entities.rs:340-341`). One does in `March _::_ 14`
  (`DateAcrossToken.ExtractedOverlap`): a symbol without a letter or a digit touches no word and
  breaks no run (`LetterlessTokens.TouchesWordExactlyWhen`). That is the only way
  (`Extraction.Extract`).
- Overlapping mentions are said to be resolved first-wins
  (`app/src/lib/mentions.ts:15-16`); a mention that starts before the text is dropped even when
  it overlaps nothing (`MentionSpans.KeptExactlyWhen`).

## Model

| member | source | states |
|---|---|---|
| CurrentVectors.RunIsCurrentExactlyWhen | crates/zeromem-core/src/lib.rs:129-188 | In every run of any number of processes over one file: each stored vector is at every point the store's current embedder applied to the text of the turn that now holds its id, exactly when no seed of the run lands on another embedder's vectors. |
| CurrentVectors.StoredVectorsAreCurrent | crates/zeromem-core/src/lib.rs:444-470 | So in every configuration such a run leads to. |
| Races.HarmlessRace | crates/zeromem-core/src/lib.rs:129-188 | Two processes that both seed a fresh file, the second before there is any vector, are such a run: no vector is mixed, but the first is left with a name that is no longer on record, under the generation it has seen. |
| Races.LoserFindsNothing | crates/zeromem-core/src/lib.rs:472-482 | Once the second has ingested a turn, a load of the first under that generation, into an index of its embedder's length, finds nothing of what the store holds. |
| ProtocolProofs.EveryVectorIsItsTurns | crates/zeromem-core/src/lib.rs:444-470 | In every run whatsoever, racing seeds included, each stored vector is the embedding, by the model stamped on it, of the text of the turn that now holds its id. |
| ProtocolTheorems.IndexIsCoherent | crates/zeromem-core/src/lib.rs:231-266 | In a run in which no seed lands on another embedder's vectors, whenever a process has seen the store's generation, its index holds only stored vectors with the stored values, all of them up to its cursor, and each is the store's embedder's vector of the turn's text. |
| ProtocolTheorems.LoadCompletesTheIndex | crates/zeromem-core/src/lib.rs:472-482 | In such a run, whatever other processes did in between, a load under the store's generation leaves the index equal to the store's vectors exactly when there are none, or the process holds the embedder on record and an index of its vectors' length. |
| ProtocolTheorems.CacheHitIsFresh | crates/zeromem-core/src/lib.rs:852-873 | In such a run, a projection served from the cache of a process whose index has its embedder's length is the one a fresh computation gave at the moment this call had loaded its vectors. |
| ProtocolTheorems.StaleHitExactlyWhen | crates/zeromem-core/src/viz.rs:333-345 | When a turn that waited gets its vector from another process, the projection changes, and a process that had cached the old one is served it again exactly when its index has another length than the vectors. |
| ProtocolTheorems.InvStep | crates/zeromem-core/src/lib.rs:129-188 | The invariant behind these theorems is kept by every step of every process that is not a seed over another embedder's vectors: opening, refreshing, draining, ingesting, switching, clearing, deleting, rebuilding, curating, projecting. |
| Races.RacingSeedMixesModels | crates/zeromem-core/src/store.rs:385-393 | A concrete run: two processes open a fresh file at once, the second seeds after the first has ingested, and the store then records one embedder and holds another's vector under an unmoved generation. |
| StoreProofs.SeedKeepsUniformExactlyWhen | crates/zeromem-core/src/store.rs:385-393 | Seeding leaves every vector the recorded embedder's exactly when the store has no vectors or already records that embedder's name. |
| StoreProofs.CommitKeepsUniformExactlyWhen | crates/zeromem-core/src/store.rs:385-583 | Any transaction of an honest writer leaves every vector the recorded embedder's exactly when it is not a seed over another embedder's vectors. |
| ProtocolTheorems.SameModelAnotherLength | crates/zeromem-core/src/dense.rs:124-135 | Asking for the stored remote model under another dimension passes for the same model, and leaves the process an index that no stored vector fits and an embedder under a name the store does not record: a stranger. |
| Strangers.StrangerNeverAdds | crates/zeromem-core/src/lib.rs:444-470 | Whatever other processes do, while the recorded name stands and it is not told to change it, no batch and no ingest of a stranger ever stores a vector, and it stays one. |
| Strangers.DrainsForNothing | crates/zeromem-core/src/lib.rs:425-442 | Left alone, a stranger that refreshes and drains, however often and whether its model answers or not, leaves the store exactly as it was. |
| Paths.RunIsPath | crates/zeromem-core/src/lib.rs:129-188 | Every run in which no seed mixes, seen from any one of its processes, is its own steps among moves of the store as the class lets other processes make them. |
| Paths.QuietPathIsRun | crates/zeromem-core/src/lib.rs:692-723 | Undisturbed, such a path is a run of the step machine; every call of the class is such a path. |
| StoreProofs.CommitKeepsSound | crates/zeromem-core/src/store.rs:451-583 | Whatever transaction is committed by a writer that is honest about its batch, each vector stays its own model's embedding of its turn's text, and readers see turns and vectors only arrive while the generation stands. |
| StoreProofs.CommitKeepsUniform | crates/zeromem-core/src/store.rs:395-417 | Barring a seed over another embedder's vectors, no transaction mixes two models' vectors, and while the generation stands the embedder of the vectors there are stays on record. |
| StoreProofs.NothingNewMeansNothingChanged | crates/zeromem-core/src/store.rs:1041-1060 | Within a generation, a reader that has seen every sequence number sees exactly the vectors of its earlier reading: what the projection cache rests on. |
| ProtocolProofs.OwnStepKeeps | crates/zeromem-core/src/lib.rs:509-542 | A process's own step keeps what it remembers true of the store, and |
| ProtocolProofs.Settle | crates/zeromem-core/src/lib.rs:243-266 | so does any move of the store by other processes, at any point of any call. |
| ProtocolProofs.PendingStable | crates/zeromem-core/src/error.rs:26-35 | A batch under way still fits the turns, or the generation it was read under has moved and the write will be refused. |
| EngineProofs.AdoptKnows | crates/zeromem-core/src/lib.rs:231-239 | Holding an embedder, with the transaction that records it, leaves what the process remembers true of the store. |
| Engine.ZeroMem.FollowStoreIfChanged | crates/zeromem-core/src/lib.rs:241-266 | The process ends holding the store's embedder, by name, and keeps its index when the name had not changed. |
| Engine.ZeroMem.OpenDense | crates/zeromem-core/src/lib.rs:149-187 | Over a file that has an embedder, opening succeeds exactly when no embedder is asked for, or the one asked for can be built and passes for the store's or, with leave to switch, answers its probe; undisturbed, the process embeds under another name than the store's exactly when it asked for the same model in another length. |
| Engine.ZeroMem.LoadNewVectors | crates/zeromem-core/src/lib.rs:472-482 | After a load under the store's generation the index holds every vector of the embedder held, if it has their length; it is all the store's vectors exactly when there are none or that embedder is the one on record. |
| Engine.ZeroMem.EmbedOneBatch | crates/zeromem-core/src/lib.rs:444-470 | Undisturbed, a batch embeds exactly the limit or all that wait, and the backlog shrinks by as many; when the embedder has another name than the store records nothing is written, and a refused batch leaves the process following the store; disturbed at any point, nothing false is stored or remembered. |
| Engine.ZeroMem.EmbedBacklog | crates/zeromem-core/src/lib.rs:425-442 | Undisturbed and while the model answers, draining leaves exactly what the limit does not cover; it leaves the backlog as it was exactly when the names differ, the limit is none or nothing waits. With differing names it changes nothing, and fails exactly when its model does not answer in the length asked for and there is something to send. |
| Engine.ZeroMem.Refresh | crates/zeromem-core/src/lib.rs:692-723 | After a refresh, however disturbed, the index is complete for the generation seen, or the generation has moved again; undisturbed, it counts exactly the turns past the last one seen, and the process ends with the store's embedder exactly when it had it, the generation had moved or a batch of its own is refused: how the loser of a harmless race is repaired. |
| Engine.ZeroMem.IngestBatch | crates/zeromem-core/src/lib.rs:505-542 | Whatever else is committed during the call, the batch is one transaction, and each input is reported as new, duplicate or invalid as it was stored there; a new turn has its vector exactly when the embedder answered and is the store's at that point; every turn there before is untouched. |
| Engine.ZeroMem.PrepareVectors | crates/zeromem-core/src/lib.rs:510-534 | Non-blank inputs are embedded 64 at a time; a failing call leaves the whole batch without vectors and without a model. |
| Engine.ZeroMem.SetEmbedder | crates/zeromem-core/src/lib.rs:329-358 | Done exactly when the probe succeeds and an update meets the name it was made for; then, while the generation stands, every earlier vector is kept under its name, or none from before the change is there; undisturbed, the store records the embedder and has its vectors only. |
| Engine.ZeroMem.Reembed | crates/zeromem-core/src/lib.rs:373-395 | Done exactly when the store it finds has an embedder and its probe succeeds; then no vector from before is left while the new generation stands; undisturbed, the embedder on record is the same. |
| Engine.ZeroMem.DeleteSession | crates/zeromem-core/src/lib.rs:665-669 | The deletion takes exactly the session's turns and vectors, counts them as it takes them, and moves the generation when there were any; none of them is searched afterwards. |
| Engine.ZeroMem.ClearMemory | crates/zeromem-core/src/lib.rs:411-417 | No turn, vector or index entry is left; the embedder stays and the generation moves by one; whatever else is committed, no vector from before is there while that generation stands. |
| Engine.ZeroMem.CommitAndRefresh | crates/zeromem-core/src/lib.rs:397-417 | A clear, delete or rebuild is one transaction among the others', and the refresh after it has seen its generation. |
| EngineProofs.AdoptReplaces | crates/zeromem-core/src/store.rs:395-417 | What an embedder change leaves while its generation stands, whatever follows it: all of the old vectors under their name, or none. |
| Engine.ZeroMem.Project | crates/zeromem-core/src/lib.rs:849-873 | Undisturbed, the projection answered is what a computation over the store gives now, cached or not, when the index has its embedder's length. |
| EngineProofs.BatchReports | crates/zeromem-core/src/store.rs:451-489 | What a batch insert reports is what it stored: fresh ids in order, duplicates naming the turn with their uuid, blank turns refused, vectors only with their own new turns and an accepted model. |
| Databases.BatchShrinks | crates/zeromem-core/src/store.rs:1062-1082 | A backlog answer holds the limit or all that wait, and writing it takes exactly as many turns off the backlog. |
| Databases.Database.ReadBacklog | crates/zeromem-core/src/store.rs:1073-1082 | The oldest turns without a vector from the model, in order, up to the limit. |
| Databases.Database.ReadEmbeddings | crates/zeromem-core/src/store.rs:1041-1060 | The rows past the cursor, each once, in the order they were written. |
| Databases.ListedIsLoad | crates/zeromem-core/src/lib.rs:472-482 | Pushing the rows one by one, and moving the cursor with each, is the load of the protocol. |
| VectorIndexes.VectorIndex.Push | crates/zeromem-core/src/dense.rs:386-397 | Over the flat buffer, pushing an id sets its vector, new or not, and touches no other: the index is a map from id to the last vector pushed. |
| VectorIndexes.VectorIndex.Clear | crates/zeromem-core/src/dense.rs:381-385 | Clearing leaves an empty map of the same dimension. |
| VectorIndexes.VectorIndex.VectorFor | crates/zeromem-core/src/dense.rs:403-406 | The slice read back is the vector last pushed for the id. |
| VectorIndexes.VectorIndex.Search | crates/zeromem-core/src/dense.rs:408-424 | The answer is the first k of the accepted entries by score, ties by higher id; nothing for a query of another length. |
| VectorIndexes.RankingUnique | crates/zeromem-core/src/dense.rs:408-424 | There is one such ranking, so push order does not matter. |
| VectorIndexes.TopGrows | crates/zeromem-core/src/dense.rs:408-424 | Asking for one more only extends the answer. |
| VectorIndexes.TopIsBest | crates/zeromem-core/src/dense.rs:408-424 | What the cut leaves out scores no better than anything it keeps. |
| Aggregates.Tables.Add | crates/zeromem-core/src/store.rs:1289-1311 | Counting a turn adds one to each of its entities and to each unordered pair of them, once, under the smaller key. |
| Aggregates.AddKeepsCounts | crates/zeromem-core/src/store.rs:1313-1332 | Counting one turn onto right tables leaves them what a recomputation over all turns gives: turns, first and last time, and every edge. |
| Aggregates.RecomputedIsRight | crates/zeromem-core/src/store.rs:1313-1332 | Grouping the mention rows gives, for each entity, its least kind, its distinct turns, its first and last time, and for each pair the turns that mention both. |
| Aggregates.CountsAlwaysRight | crates/zeromem-core/src/store.rs:1313-1332 | After any history of inserts, deletes and recomputations the counts, times and edges are those of the turns there are. |
| Aggregates.RecomputingAgrees | crates/zeromem-core/src/store.rs:1313-1332 | A recomputation changes nothing but kinds, and nothing at all exactly when each kind is the least. |
| Aggregates.AddKeepsKindsExactlyWhen | crates/zeromem-core/src/store.rs:1313-1332 | The kinds too stay what a recomputation gives exactly when no mention of the new turn has a kind before the one recorded for its entity. |
| Aggregates.KindsCanDiffer | crates/zeromem-core/src/store.rs:1289-1302 | One key mentioned first as a symbol and then as an environment variable: the two ways record different kinds. |
| Aggregates.EdgesWellFormed | crates/zeromem-core/src/store.rs:1324-1329 | Edges are kept once, under the lexically smaller end. |
| EntityGraphs.Explore | crates/zeromem-core/src/viz.rs:79-103 | Breadth first under a node cap and capped neighbour lists: `truncated` exactly when more than `limit` entities lie within `hops`; otherwise exactly those; when cut, nothing left out is closer than anything kept; a missing focus gives nothing. |
| EntityGraphs.CutHidesNothing | crates/zeromem-core/src/viz.rs:92-101 | Cutting a neighbour list at the cap hides no neighbour from a walk that is not full. |
| EntityGraphs.LayersKept | crates/zeromem-core/src/viz.rs:88-101 | Every layer up to the one being expanded has been kept whole. |
| Ranks.Strongest | crates/zeromem-core/src/store.rs:799-810 | The first `limit` by count, ties alphabetical, each once. |
| Ranks.StrongestIsOne | crates/zeromem-core/src/store.rs:799-810 | There is one such list. |
| GraphSnapshots.Select | crates/zeromem-core/src/viz.rs:74-124 | With a focus its neighbourhood, thinned by kind after the cut; without one the most mentioned of the kind; the flag exact in both cases. |
| GraphSnapshots.TakeSnapshot | crates/zeromem-core/src/viz.rs:126-154 | One node for every kept entity on record, in the order of the selection; exactly the edges between kept entities that are among the 2000 heaviest of their smaller end, each once, heaviest first; and the totals of entities and edges. |
| GraphSnapshots.ShownUnlessCrowded | crates/zeromem-core/src/viz.rs:138-143 | An edge of the weight between kept entities is shown, unless its smaller end has more than 2000 edges. |
| Timelines.SplitWindows | crates/zeromem-core/src/timeline.rs:72-81 | The greedy loop cuts the session into contiguous non-empty windows that start exactly at a silence or a full window. |
| Timelines.WindowsAreGreedy | crates/zeromem-core/src/timeline.rs:72-81 | Each window has at most 50 turns and no gap over 30 minutes, and one ends only at such a gap or at 50 turns. |
| Timelines.FewestWindows | crates/zeromem-core/src/timeline.rs:72-81 | No contiguous cutting that meets both limits has fewer windows. |
| Timelines.LaterTurnKeepsSegments | crates/zeromem-core/src/timeline.rs:68-103 | A turn that comes later adds at most one window and changes no window's segment but the last's. |
| Timelines.SplitEpisodes | crates/zeromem-core/src/timeline.rs:85-95 | The windows are cut into episodes exactly where the overlap of two neighbours' entities is below the threshold. |
| Timelines.OverlapIsExact | crates/zeromem-core/src/timeline.rs:125-137 | The overlap is the one of the two sets; with eight names a side it never sits on 0.15, so the comparison does not depend on rounding. |
| Timelines.Build | crates/zeromem-core/src/timeline.rs:105-123 | A segment's times, ids and count are its turns', and its entities the eight most mentioned, ties alphabetical. |
| Timelines.SegmentSession | crates/zeromem-core/src/timeline.rs:68-103 | Windows, then episodes over the turns they span, each built from exactly its turns. |
| Timelines.TurnsAddUp | crates/zeromem-core/src/timeline.rs:68-103 | The windows' turn counts sum to the session's, and so do the episodes'. |
| Timelines.SegmentedIsOne | crates/zeromem-core/src/timeline.rs:1-7 | The answer is a function of the turns in order, |
| Timelines.ArrivedSegmentsAreOne | crates/zeromem-core/src/store.rs:1334-1351 | and, read back by time and id, of the set of turns: arrival order does not matter. |
| Dates.DayOfDate | crates/zeromem-core/src/dates.rs:18-28 | Every integer day is a date of the calendar, and that date's day. |
| Dates.DateOfDay | crates/zeromem-core/src/dates.rs:6-28 | Every date of the proleptic Gregorian calendar, before and after the epoch, comes back from its day. |
| Dates.NextDayNextDate | crates/zeromem-core/src/dates.rs:18-28 | The day after day z has the date after z's date, under the 4/100/400 leap rule. |
| Dates.DaysOrderDates | crates/zeromem-core/src/dates.rs:6-16 | Days order dates as years, months and days do. |
| Dates.EraIsFloor | crates/zeromem-core/src/dates.rs:9-10 | The truncating division acts as the floor, for negative years too. |
| Dates.Epoch | crates/zeromem-core/src/dates.rs:6-28 | Day 0 is 1 January 1970; year 0 is a leap year. |
| Evaluation.Score | crates/zeromem-harness/src/eval.rs:34-56 | Recall, reciprocal rank and nDCG of a ranking; all in [0, 1] when no labelled turn repeats in the cut. |
| Evaluation.DcgAtMostIdeal | crates/zeromem-harness/src/eval.rs:48-53 | No ranking without repeats among the labelled turns has more discounted gain than the ideal one, for any positive falling discount. |
| Evaluation.SwapGains | crates/zeromem-harness/src/eval.rs:48-49 | Swapping two neighbours into order never loses, and gains unless they tie. |
| Evaluation.RecallIsAShare | crates/zeromem-harness/src/eval.rs:39-44 | Recall is whole exactly when every labelled turn is shown or the cut shows nothing but labelled turns. |
| Evaluation.RepeatsBeatTheIdeal | crates/zeromem-harness/src/eval.rs:48-53 | Showing the one labelled turn twice scores above the ideal, and a recall of 2. |
| Abstentions.Measure | crates/zeromem-harness/src/eval.rs:125-146 | The shares answered and withheld, each in [0, 1] and whole exactly when all are, and the share of pairs won. |
| Abstentions.AreaSeparates | crates/zeromem-harness/src/eval.rs:105-109 | The area is a probability, 1 exactly when every answerable question's best score beats every unanswerable one's, and mirrored around one half when the sides are traded. |
| Abstentions.Summarise | crates/zeromem-harness/src/eval.rs:71-88 | The means of the three scores, 0 for no query. |
| Abstentions.FamiliesAddUp | crates/zeromem-harness/src/eval.rs:71-72 | Splitting a run by family, the totals add up. |
| Abstentions.MeansAreShares | crates/zeromem-harness/src/eval.rs:71-88 | Means of shares are shares. |
| Comparisons.OverlapIsAShare | crates/zeromem-harness/src/compare.rs:42-54 | The overlap is a share, the same from either side, and 1 exactly when the two cuts show the same items, however short they are. |
| Comparisons.Spearman | crates/zeromem-harness/src/compare.rs:56-82 | The coefficient of the shared items' ranks, none for fewer than two. |
| Comparisons.ProductsBounded | crates/zeromem-harness/src/compare.rs:70-74 | The square of the mixed sum is at most the product of the two sums of squares. |
| Comparisons.RhoBounded | crates/zeromem-harness/src/compare.rs:70-81 | A coefficient never leaves [-1, 1], for any two lists. |
| Comparisons.BothVary | crates/zeromem-harness/src/compare.rs:75-79 | Once two items are shared by lists without repeats both sides vary: the branch for no variance is never taken. |
| Comparisons.SelfAgrees | crates/zeromem-harness/src/compare.rs:56-82 | A list against itself gives 1, |
| Comparisons.ReversalDisagrees | crates/zeromem-harness/src/compare.rs:56-82 | and against its reversal, when the cut covers it, -1. |
| Generators.MixKeepsAll | crates/zeromem-harness/src/rng.rs:14-20 | The output function loses nothing: |
| Generators.MixReachesAll | crates/zeromem-harness/src/rng.rs:14-20 | it is a permutation of the 64-bit words. |
| Generators.EachValueOnce | crates/zeromem-harness/src/rng.rs:14-20 | Of 2^64 draws in a row from any seed, each 64-bit value is exactly one, and this says which. |
| Generators.DrawsDiffer | crates/zeromem-harness/src/rng.rs:14-20 | Those draws are pairwise different. |
| Generators.StateSteps | crates/zeromem-harness/src/rng.rs:14-15 | The n-th state follows from the one before by one addition. |
| Generators.Rng.Shuffle | crates/zeromem-harness/src/rng.rs:44-50 | The array ends as the swaps of the drawn choices leave it, a permutation of what it was; the choice at each position is the draw whose turn it is, modulo the positions left, and the state ends as many draws on. |
| Generators.EveryOrderOnce | crates/zeromem-harness/src/rng.rs:44-50 | Every order of distinct items comes from exactly one choice sequence. |
| Generators.Rng.Below | crates/zeromem-harness/src/rng.rs:22-28 | A draw below the bound: the mixed state modulo it. |
| Words.Tokenise | crates/zeromem-core/src/text.rs:16-56 | The words are exactly the maximal runs of word characters without their trailing punctuation, in order; one opens a sentence exactly when it is the first, a dot was trimmed off the one before, or `!`, `?` or a line break lies between. |
| Words.WordsLieApart | crates/zeromem-core/src/text.rs:16-56 | Words lie in the text, apart and in order, and none is empty. |
| Words.InExactlyOneWord | crates/zeromem-core/src/text.rs:16-56 | A word character that is not trimmed punctuation, such as every alphanumeric one, is in one word and in no other. |
| Words.WordIsItsOwnToken | crates/zeromem-core/src/text.rs:1-4 | Tokenizing a word gives that word and nothing else. |
| Words.SkipRun | crates/zeromem-core/src/text.rs:36-46 | A run of nothing but trimmed punctuation is no word and moves no sentence flag. |
| TokenForms.EnvVarExactlyWhen | crates/zeromem-core/src/entities.rs:221-230 | An environment variable is two or more parts of capitals and digits joined by underscores, beginning with a capital: the whole token or what stands before an equals sign. |
| TokenForms.PathExactlyWhen | crates/zeromem-core/src/entities.rs:248-290 | A path is segments of path characters joined by slashes, with slashes before and behind, one of them with a letter, and rooted, of two slashes or of a known extension; a bare name needs the extension, a stem and no product's shape; no address. |
| TokenForms.SymbolExactlyWhen | crates/zeromem-core/src/entities.rs:232-246 | A symbol is identifiers joined by `::`, or one with an underscore inside and a small letter, or identifiers joined by dots and called. |
| TokenForms.SplitJoin | crates/zeromem-core/src/entities.rs:221-246 | Splitting undoes joining when no part holds the separator's first character, |
| TokenForms.JoinSplit | crates/zeromem-core/src/entities.rs:221-246 | and joining always undoes splitting. |
| TokenShapes.LetterlessSymbols | crates/zeromem-core/src/entities.rs:232-246 | A symbol holds no letter or digit exactly when it is made of underscores, colons and dots. |
| LetterlessTokens.TouchesWordExactlyWhen | crates/zeromem-core/src/entities.rs:340-350 | A technical token holds part of some word exactly when it holds a letter or a digit. |
| DateAcrossToken.DateSwallowsSymbol | crates/zeromem-core/src/entities.rs:340-350 | In `March _::_ 14` the date runs across the symbol, whatever else the character classes say. |
| DateAcrossToken.ExtractedOverlap | crates/zeromem-core/src/entities.rs:337-355 | So extracting from that text gives mentions that overlap. |
| WordShapes.DateOrdersAgree | crates/zeromem-core/src/entities.rs:130-132 | Month first or day first, spelled out or shortened: one date, one key, |
| WordShapes.IsoAgrees | crates/zeromem-core/src/entities.rs:130-132 | and the same key as its year, month and day with dashes. |
| WordShapes.NoCommaInWords | crates/zeromem-core/src/entities.rs:161-170 | No word holds a comma or a euro sign. |
| Entities.Technical | crates/zeromem-core/src/entities.rs:292-335 | Exactly the mentions of the white-space separated tokens, in order and apart, each quoting the text. |
| Extraction.Extract | crates/zeromem-core/src/entities.rs:337-355 | Every mention lies in the text and quotes it, they come by start, and no two overlap exactly when no date, quantity or name has a technical token without a letter or a digit inside it; when every such token holds one, none does. |
| Extraction.ReachesOverExactlyWhen | crates/zeromem-core/src/entities.rs:340-350 | A stretch of a run reaches over a technical token exactly when the token holds no letter and no digit and lies between the stretch's first and last word. |
| Extraction.ShapesRanged | crates/zeromem-core/src/entities.rs:357-412 | What is found in a run spans stretches of its words, one after another and each of one word or more, |
| Extraction.ShapesQuote | crates/zeromem-core/src/entities.rs:357-412 | and quotes the text. |
| Extraction.NameReaches | crates/zeromem-core/src/entities.rs:388-403 | A name goes on over capitals and over one connector at a time with a capital behind it, stops where neither follows, and ends on a capital. |
| Extraction.RunsBounded | crates/zeromem-core/src/entities.rs:340-350 | The runs are stretches of the words, in order, that touch no technical token. |
| MentionSpans.SplitMentions | app/src/lib/mentions.ts:17-41 | The pieces join to exactly the text's bytes for any mention list; each mentioned piece lies where its clamped mention says; the mentions shown are those the first-wins rule keeps. |
| MentionSpans.KeptExactlyWhen | app/src/lib/mentions.ts:11-16 | A mention is kept exactly when it is not empty after clamping, does not start before the text and overlaps no mention kept before it. |
| MentionSpans.GoodMentionsAreKept | app/src/lib/mentions.ts:17-41 | Mentions within the text, none empty and no two overlapping, are all kept. |
| RollingMetrics.Metrics.Snapshot | server/src/metrics.ts:104-139 | Under a clock that only goes forward, each of the 60 minutes shows exactly what the full event log has for it; the headline counts and maximum are the log's, and p50 <= p95 <= max. |
| RollingMetrics.CountKeepsExact | server/src/metrics.ts:141-159 | Counting an event, with the pruning a new bucket brings, keeps the buckets exact for the hour. |
| RollingMetrics.PruneKeepsExact | server/src/metrics.ts:152-159 | Pruning keeps the hour exact. |
| RollingMetrics.AtMostAnHour | server/src/metrics.ts:4-8 | The bucket map never holds more than 60 entries. |
| RollingMetrics.RankIsNearest | server/src/metrics.ts:41-47 | The percentile is the nearest rank: at least p in a hundred values lie at or before it, fewer before it. |
| RollingMetrics.PercentilesRise | server/src/metrics.ts:41-47 | A higher percentile is no smaller, and none exceeds a bound on the values. |
| RollingMetrics.Metrics.RecordRecall | server/src/metrics.ts:81-96 | A recall joins its minute, the maximum and the reservoir, which never holds a value that was not recorded. |
| RollingMetrics.Metrics.RecordIngest | server/src/metrics.ts:98-102 | Ingested turns join their minute and the totals. |

## Left out

- Floating-point rounding, NaN and infinities: scores, means and overlaps are exact reals.
- Storage failures: a transaction commits or is refused as the code refuses it, and a read answers.
- Opening a file that has no embedder yet, which seeds it, is part of the step machine only; `ZeroMem` opens without a dense view or over a file that has an embedder.
- Engine.ZeroMem.Refresh: says nothing of recall, retrieval, the warnings logged or the text of errors.
- Engine.ZeroMem.IngestBatch: scopes, kinds of turns, timestamps and the identifier derived from the content are not modelled; an input carries its uuid.
- Engine.ZeroMem.SetEmbedder: API keys, timeouts and the report are not modelled; a probe is its vector's length and whether it answered.
- EngineProofs.AdoptReplaces: after a change that drops the vectors the new name is promised at the commit and undisturbed only, because a process that had found a fresh file may still seed its own name before there is a vector.
- Engine.ZeroMem.Project: the axes and points, a function of the vectors and turns, are not computed, nor is a query placed among them.
- Databases.Database.Others: the body changes nothing; its contract is what the other processes may do, none of them seeding over another embedder's vectors meanwhile.
- Curation: notes and undo appear in the step machine as the transactions they commit, not their rules or refusals.
- Session windows, hierarchy, growth and full-text search over the store.
- `to_blob` and `from_blob`, `normalise`, `hash_embed`, the ONNX model and the remote client.
- `pca2` and `power_iteration`, and the random sample behind a projection.
- Legacy embedder names and the migration of older files.
- `GROUP_CONCAT` in the reading of a session's turns splits an entity key that holds a comma; the segmenter takes the entities as given.
- Aggregates.Tables.Add: aliases and the blocklist are applied before, to the mentions a turn comes with.
- Dates: machine overflow for years beyond what 64 bits hold; `parse_rfc3339_ms`.
- Words.Tokenise: positions count characters where the code counts bytes; the bytes are an increasing image of them.
- Extraction.Extract: the same; and the tables of stop words are a parameter.
- MentionSpans.SplitMentions: decoding a piece back to text, with what a decoder does to a byte-order mark or a broken sequence.
- Abstentions.Measure: `estimate_tokens` and the comparison report around these figures.
- Generators.Rng.Below: that a modulus favours small values; `pick` and `chance`.
- RollingMetrics.Metrics.RecordRecall: the random index that overwrites a full reservoir is a parameter.
- All HTTP, MCP, authentication, configuration and interface code.
