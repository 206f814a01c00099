# Verified models of the metadata server's core

Three parts of the server carry state that has to stay consistent while many goroutines work
on it. This project models each of them in Dafny and proves what it is meant to guarantee.

**The denormalization pipeline** (`internal/buffer.go`, `internal/controller.go`). Works embed
copies of editions, and authors embed copies of works. Edges that say "this child belongs to
this parent" are collected in a merging buffer, `edgebuf`, and one consumer applies them.

- `SortedList` is about the sorted lists of editions, works and series, and what upserting does to them.
- `Resources`, `AuthorPass` describe the resources and what is recomputed whenever an author changes. `Outcomes` and `Averages` say what an author is like afterwards in terms of its works, series and ratings alone. `Absorption` says when denormalizing an author twice is denormalizing it once.
- `Edges` says what a queue of merged edges stands for; `EdgeBuffer` is the buffer itself, with its pointer indexes, and the accumulator in front of the consumer.
- `Pipeline` is a state machine over atomic steps: an edge is sent, received by the buffer or applied, or a work is loaded. `Editing` is about the works that work edges make, and `Editions` about which editions a work comes to have, in terms of the lookups alone.
- `Freshness` has what every step keeps. `Histories` has what a whole run leaves behind, whatever state it starts from, and `Rest` derives when copies are fresh at rest.
- `Serializability` proves that runs which push the same relationships come to the same rest, `Runs` that they come to rest at all. `Confluence` says exactly when runs of author edges agree, and `Stages` and `Agreement` exactly when all runs do, those that edit works included. `StaleCopies` and `ShortTitles` hold the runs on which these properties fail.
- `Denormalize` and `Controller` are the loops and the object; `Send`, `Receive`, `Dispatch` and `LoadWork` of `Controller` are each proved to perform one step of `Pipeline`.
- `Collections` has equalities of sets, sequences and maps that the other modules share.

**The batching GraphQL client** (`internal/graphql.go`). `GraphQL` gives selection sets, variables
and fragments a meaning after the GraphQL specification of October 2021: fragments and variables
are resolved by an elaboration, and the result is executed as in section 6.3. `QueryMerging`
proves when merging queries keeps their meaning; `MergedDocuments` lists what a merged document consists of. `Batching` has the query builder, the queue of
batches as a value, and the routing of replies; `Client` is the client object, and `Sessions` plays
whole scripts of enqueues and flushes on it.

**The layered cache** (`internal/cache.go`, `internal/memory.go`, `internal/postgres.go`).
`Layers` describes the layers and proves that together they are one expiring map;
`LayeredCaching` has the stores and the cache as objects.

## Conditions that the theorems bring to light

- A load announces the work only to the author it was told of (internal/controller.go:635-643), and it is told of
  none when the getter answers from an edition that is still cached (internal/gr.go:221-224,
  internal/hardcover.go:180-183). Editions are cached longer than works (internal/controller.go:34-39), so a lapsed work
  may be reloaded with other editions while its authors keep the old copy for good
  (`StaleCopies.SilentLoadBreaksFreshness`). `Freshness.LoadingAloneIsCoveredIff` says exactly when a load keeps
  copies fresh or about to be refreshed, and `Rest.LoadedAtRestIff` when the loaded work is fresh at rest.
- A work may be cached under several ids, while an author embeds one copy of it. From a state in
  which copies are fresh or about to be, they are fresh at rest if and only if the cached copies
  of each work come to agree (`Rest.FreshStateAtRestIff`). An edition added under one id only is enough to break it
  (`StaleCopies.AliasesCanBreakFreshness`). `Rest.FreshAtRestIff` has the exact condition for every state,
  and so for every run from its last load on (`Rest.FreshAfterLoadsIff`).
- Serializability needs agreeing copies, too: runs that push the same author edges disagree as soon as a work of an
  author is cached with contents that differ in more than titles (`Confluence.AgreeingRunsNeedAgreeingCopies`).
- A work without a short title is counted under the title it displays, which denormalization
  changes. A title pass before a further batch is absorbed if and only if no work is deserted by its
  namesakes, joined by a work that took its title, or came too late to be counted with them
  (`Absorption.EarlierPassIsAbsorbedIff`); with short titles this cannot happen
  (`Absorption.ShortTitlesAbsorb`). It does make runs disagree: two edges merged into one, and the same two
  processed one after the other (`ShortTitles.MergingNeedsShortTitles`).
- From a state at rest, all runs that push the same author edges agree if and only if any two batches of an
  author's works commute (`Confluence.RunsAgreeIff`), which, with equal copies and coherent series, they do if and
  only if they neither clash in titles nor lose a rating (`Confluence.RunsAgreeIffHarmless`). Where editions are pushed,
  too, an author is given copies of works at different stages. Take any set of relationships that contains, with an
  edition of a work, the work for its authors (the set of all relationships is one). All runs that push the same of them
  agree, whatever they push of them, if and only if any two batches commute, the second one taken at a later stage of the
  works, and a request for works has one outcome (`Agreement.AllRunsAgreeIff`). With one id per work and coherent series
  that is so if and only if no two such batches clash in titles or lose a rating (`Agreement.AllRunsAgreeIffHarmless`);
  the stages are those that editions of the set can bring about. A second title pass over the same works changes
  nothing exactly if no title clashes (`AuthorPass.TitlePassSettlesIff`).
- The order in which a child set is walked is irrelevant if and only if fetched resources with
  equal ids are equal (`SortedList.OrderIsIrrelevantIffIdsAreUnique`).
- Variables are renamed in operations and not in fragments, which are kept as they were first printed. So what is asked
  under the alias of a query is what the query asks alone if and only if no fragment it uses mentions a variable
  (`QueryMerging.MergedFieldIsAloneIff`). But if any query of a batch has such a fragment, the merged operation leaves
  the variable undefined, against section 5.8.3 of the GraphQL specification (`QueryMerging.VariablesDefinedIff`), and
  by section 6.1 the request is not executed. Merging a batch preserves meaning if and only if no query of the whole
  batch has a fragment that mentions a variable (`QueryMerging.MergingPreservesMeaningIff`). The error of such a request
  has no path, so `flush` passes it on to nobody, and every caller of the batch receives null
  (`Batching.BatchingIsTransparentIff`, internal/graphql.go:121-161).
- The size of the buffer is a 32-bit counter. It is the number of waiting children, and
  non-negative, if and only if fewer than 2^31 are waiting (`EdgeBuffer.SizeIsExactIff`).
- `Delete` of the layered cache works from the bottom up, and whole reads in between do no harm.
  `Expire` works from the top down: a read in between leaves the entry unexpired in memory unless
  memory drops it or it had lapsed (`Layers.ExpiryWithReadBetweenIff`).

The comment on `denormalizeWorks` (internal/controller.go:1052-1054) says that it does nothing for a work the
author already has. The code replaces the author's copy, and so does the model.

## What is supposed of the surroundings

- Calls that load editions, works and series are a fixed function of the id, which may fail.
  A failed or malformed reply is a failed call.
- ETags are equal exactly if the encoded resources are, so they are compared as values. The
  encodings (JSON, gzip) and the hash are not part of this model.
- The consumer's one-minute timeout does not fire, and cached works and authors do not lapse except by
  the step that loads a work again.
- The cached works and authors of the model stand for all that can be loaded. A work edge for a work that is not
  among them does nothing, and neither does an author edge for an author that is not.
- While an author is being refreshed, a snapshot from before the refresh is what is loaded
  (internal/controller.go:761-767). The model is about the time when no refresh is under way.
- Author edges pushed from outside are for authors of the work.
- Ids drawn for queries are distinct, eight characters long, and prefix no declared variable.
- Store operations succeed. What memory keeps and evicts is arbitrary. The memory layer's library
  is described by its documented behaviour: an entry without expiry reads back with a TTL of zero,
  an entry past its expiry is missing.
- A clock tick happens between two operations, not during one.

## Model

| member | source | states |
|---|---|---|
| SortedList.BinarySearch | internal/controller.go:1009-1011 | finds the first place whose id is not below the target, and reports presence exactly if some element has the id |
| SortedList.Upsert | internal/controller.go:1009-1017 | replace or insert keeps the list strictly sorted and changes exactly the entry of the element's id |
| SortedList.SortedListsAreEqual | internal/controller.go:1009-1017 | a strictly sorted list is determined by its elements |
| SortedList.PutAllMergesASelection | internal/controller.go:986-1018 | a loop of upserts in any order amounts to merging one fetched element per id |
| SortedList.OrderIsIrrelevantIffIdsAreUnique | internal/controller.go:986-1018 | all orders of a child set give the same list if and only if fetched elements with equal ids are equal |
| SortedList.MergeTwice | internal/controller.go:1005-1017 | upserting one batch and then another is upserting their union, the later winning |
| SortedList.MergeAbsorbs | internal/controller.go:1013-1033 | upserting what the list holds changes nothing |
| SortedList.MergeAbsorbsOnly | internal/controller.go:1013-1033 | an upsert that changes nothing upserts only what the list holds |
| AuthorPass.CountTellsSharing | internal/controller.go:1119-1129 | a title count exceeds one exactly if another work is counted under the same title |
| AuthorPass.TitlesAfterPass | internal/controller.go:1167-1189 | exactly the works in a series or sharing their title, if they have a full title, get it, as do their editions; all others are kept |
| AuthorPass.TitlePassKeepsTheRest | internal/controller.go:1167-1189 | nothing but titles changes, and the order of works is kept |
| AuthorPass.TitlePassSettlesIff | internal/controller.go:1167-1189 | a second pass changes nothing if and only if no work is given the title under which another, unambiguous work is counted |
| AuthorPass.ShortTitlesSettle | internal/controller.go:1119-1189 | with short titles everywhere a second pass changes nothing |
| AuthorPass.TitlePassNeedsShortTitles | internal/controller.go:1119-1189 | without short titles it may change something |
| AuthorPass.DenormalizedIsUnique | internal/controller.go:1082-1193 | the denormalized author is determined by the author and the upserted works, whatever order the series goroutines finish in |
| Absorption.PassForgetsIff | internal/controller.go:1119-1189 | a pass over works of which some have their full titles already gives what it gives without if and only if no work is deserted, joined or missed |
| Absorption.EarlierPassIsAbsorbedIff | internal/controller.go:1107-1189 | a title pass before a further upsert leaves no trace after the pass that follows if and only if no work of the merged list is deserted, joined or missed |
| Absorption.ShortTitlesAbsorb | internal/controller.go:1119-1189 | with short titles it never leaves a trace |
| Absorption.DenormalizingTwiceIff | internal/controller.go:1055-1193 | denormalizing two batches one after the other is denormalizing their union if and only if the first title pass is absorbed and the rating survives |
| Denormalize.UpsertEditions | internal/controller.go:986-1018 | for any order of the ids the loop merges the fetched editions into the sorted list, skipping failed and malformed lookups: each edition that a lookup yields is listed under its own id, and every other entry was there |
| Denormalize.UpsertWorks | internal/controller.go:1082-1112 | the same for works; works without editions are skipped |
| Denormalize.AddBookRatings | internal/controller.go:1133-1137 | the rating counts of all editions are added up, and so are their rating sums |
| Denormalize.Survey | internal/controller.go:1119-1165 | one pass computes the title counts, the ratings of works or else of their editions, and the series to fetch |
| Denormalize.CollectSeries | internal/controller.go:1139-1164 | in whatever order fetches finish, the list is sorted and holds one fetched series per id |
| Denormalize.Disambiguate | internal/controller.go:1167-1189 | the in-place pass computes `TitlePass` |
| Denormalize.DenormalizeAuthor | internal/controller.go:1082-1193 | the whole of `denormalizeWorks` after loading: upserts, titles and series, and a rating that is the average of the ratings of the embedded works, or is kept if there are none |
| Outcomes.SharedTitlesAre | internal/controller.go:1122-1126 | works share a title if their short titles, or the titles of works without one, are equal in upper case |
| Outcomes.TitlesAre | internal/controller.go:1167-1189 | the full titles are displayed of a work that has one and is in a series or shares its title, and of its editions that have one; all else is as it was |
| Outcomes.RequestedWorksAreEmbedded | internal/controller.go:1082-1112 | every requested work that is cached and has editions is embedded, under its own id |
| Outcomes.EmbeddedWorksAre | internal/controller.go:1082-1112 | whatever is embedded is, but for titles, such a work, or, if there is none with its id, what was embedded before |
| Outcomes.EmbeddedWorksStay | internal/controller.go:1105-1111 | no work is dropped |
| Outcomes.SeriesIsListed | internal/controller.go:1139-1164 | every series of an embedded work that can be fetched is listed, under the id it was fetched with |
| Outcomes.ListedSeriesIs | internal/controller.go:1139-1164 | no other series is listed, and the list is sorted |
| Outcomes.AuthorIsDenormalizedIff | internal/controller.go:918-922 | works requested for an author denormalize it, unless it is one of seven placeholders |
| Outcomes.SameUpToTitlesIff | internal/controller.go:1167-1189 | what it means that two works differ in displayed titles at most, spelled out |
| Averages.RatingIsTheAverage | internal/controller.go:1128-1138 | the ratings of the works, or of the editions of works without any, add up to the author's count, and their sum divided by it is its average; without ratings the author keeps what it had |
| Averages.EditionRatingCounts | internal/controller.go:1132-1137 | in a work without ratings of its own, a change of an edition's rating changes the author's count and sum by as much |
| Averages.WorkRatingCounts | internal/controller.go:1130-1131 | so does a change of a work's own rating |
| Averages.EditionsOfRatedWorkDoNotCount | internal/controller.go:1132-1137 | in a work with ratings of its own, those of its editions change nothing |
| Averages.RunKeepsAverages | internal/controller.go:909-1193 | at all times in every run, loads included, an author is what it was at the start or shows the ratings of the works it embeds |
| Edges.PushRefinesAppend | internal/buffer.go:97-142 | pushing onto the merged queue is appending to the log of undelivered edges, grouped at first occurrence |
| Edges.PopRefinesRemoval | internal/buffer.go:155-186 | popping delivers a child if and only if an undelivered edge of the head's group was pushed with it, and leaves every edge outside that group undelivered, as often as it was pushed |
| Edges.GroupsAreDistinct | internal/buffer.go:97-142 | no two queued edges have the same kind and parent, except end-of-refresh markers |
| Edges.GroupedTriples | internal/buffer.go:97-142 | the merged queue stands for exactly the relationships of the log |
| Edges.EnqueuedTriples | internal/buffer.go:133-140 | merging loses and invents no relationship |
| Edges.NextDoes | internal/buffer.go:97-186 | the log and the delivered edges after each push and pop of a run |
| Edges.RunDelivers | internal/buffer.go:97-186 | after every run, pushes no longer waiting had all their children delivered, nothing was delivered that was not pushed, and every push before a delivered end-of-refresh marker was delivered |
| EdgeBuffer.NewSet | internal/set.go:7-13 | a fresh set with exactly the given elements |
| EdgeBuffer.Union | internal/set.go:15-19 | a fresh set with the elements of both; neither argument changes |
| EdgeBuffer.WrappedSum | internal/buffer.go:135-138 | wrapping at every update is wrapping the exact sum once |
| EdgeBuffer.SizeIsExactIff | internal/buffer.go:188-194 | the reported size is the number of waiting children if and only if it is below 2^31 |
| EdgeBuffer.EdgeBuf.IndexesAreExact | internal/buffer.go:116-132 | the two indexes point at exactly the queued author and work edges, at most one per parent |
| EdgeBuffer.EdgeBuf.WaitingRelationships | internal/buffer.go:133-138 | the children counted are the distinct relationships pushed and not delivered yet |
| EdgeBuffer.EdgeBuf.Push | internal/buffer.go:99-142 | appends to the log; the queue of pointers merges or appends accordingly and the indexes stay exact |
| EdgeBuffer.EdgeBuf.Enqueue | internal/buffer.go:116-140 | merge into the queued edge of the group, or append |
| EdgeBuffer.EdgeBuf.MergeInto | internal/buffer.go:133-136 | the queued edge gets a new child set; size and indexes stay right |
| EdgeBuffer.EdgeBuf.Append | internal/buffer.go:137-140 | a new cell at the end; size and indexes stay right |
| EdgeBuffer.EdgeBuf.Peek | internal/buffer.go:144-153 | the first queued edge, if there is one |
| EdgeBuffer.EdgeBuf.Pop | internal/buffer.go:155-186 | hands over the first edge and removes exactly its group from the log |
| EdgeBuffer.EdgeBuf.Unlink | internal/buffer.go:169-181 | the index forgets exactly the edge that is about to be popped |
| EdgeBuffer.EdgeBuf.Len | internal/buffer.go:188-194 | the number of distinct relationships pushed and not delivered yet, wrapped to 32 bits |
| EdgeBuffer.Round | internal/buffer.go:26-48 | one round of the select loop: buffer the received edge, or hand over what was peeked and pop it |
| EdgeBuffer.Accumulate | internal/buffer.go:22-52 | what was handed over is exactly what the run of pushes and pops delivers, and later merges do not alter it |
| EdgeBuffer.AccumulatePlain | internal/buffer.go:22-82 | over a plain buffer, consumed followed by buffered equals produced |
| Pipeline.DeliverKeepsPending | internal/buffer.go:39-44 | receiving an edge changes no pending relationship |
| Pipeline.EditedKeeps | internal/controller.go:986-1018 | an edited work is sorted, keeps all but its editions, and has the ids it had plus those the fetches returned |
| Pipeline.DenormalizedKeeps | internal/controller.go:1082-1112 | a denormalized author's works are sorted and have the ids they had plus those of the upserted works |
| Pipeline.StepKeepsSorted | internal/controller.go:909-1112 | every step keeps every cached list strictly sorted |
| Pipeline.RunKeepsSorted | internal/controller.go:909-1112 | every state of a run that starts sorted is sorted |
| Pipeline.StepUsesBound | internal/controller.go:909-1047 | receiving and processing use up a bound: author edges emit nothing, work edges only author edges |
| Pipeline.PipelineTerminates | internal/controller.go:909-1047 | without outside input every run takes at most as many steps as the bound of its first state |
| Pipeline.StuckIsQuiescent | internal/controller.go:909-935 | a state allows no further step if and only if nothing is queued or being sent |
| Freshness.StepKeepsFreshness | internal/controller.go:909-1112 | after every step an author embeds, or has an edge pending for, one of the cached copies of each of its works; after a load exactly if the works it disturbs are covered |
| Freshness.LoadingIsCoveredIff | internal/controller.go:589-646 | a load keeps all works covered if and only if it leaves the loaded work and the other copies of the replaced one covered |
| Freshness.LoadingAloneIsCoveredIff | internal/controller.go:612-643 | for a work under one id: if and only if each of its authors is the one announced, has an edge pending, or embeds the loaded content already |
| Freshness.RunKeepsFreshness | internal/controller.go:909-1112 | the same for every run |
| Freshness.CoveredAtRestIff | internal/controller.go:1096-1108 | at rest, copies are fresh if and only if cached copies of one work agree with each other |
| Freshness.CopiesAgreeAtRestIff | internal/controller.go:909-1112 | the same at the end of every such run |
| Freshness.CanonicalIsFreshIff | internal/controller.go:1096-1108 | where every work has one id, being covered is being fresh, in any state |
| Editing.EditedIsUnique | internal/controller.go:986-1018 | the edited work does not depend on the order of the child set |
| Editing.EditingTwice | internal/controller.go:986-1018 | two batches of editions one after the other are their union at once |
| Editing.EditingAgain | internal/controller.go:1029-1033 | repeating an upsert changes nothing, so the write is skipped |
| Editing.ChangePersists | internal/controller.go:1029-1047 | a changed work never returns to what it was, so its authors are announced in every order of events or in none |
| Editing.EditedSupersedes | internal/controller.go:1013-1017 | an edited work differs from the one before in its editions only, is never emptied, and never loses its rating |
| Editions.RequestedEditionIsListed | internal/controller.go:987-1017 | each edition that a requested id yields is listed, under the edition's own id |
| Editions.RequestedEditionIsTheEntry | internal/controller.go:1005-1017 | it is itself the entry, unless another requested id yields a different edition with its id |
| Editions.EntriesAre | internal/controller.go:987-1017 | every other entry was there before |
| Editions.EntriesStay | internal/controller.go:1009-1017 | no entry is lost but to an edition with its id |
| Editions.ChangeIsAnnounced | internal/controller.go:1029-1047 | a work that changes is announced to each of its authors and to no one else; one that does not is not |
| Editions.EditionsArrive | internal/controller.go:909-1050 | in every run, loads of other works included, each edition asked for is on its way until it has arrived, and then stays |
| Editions.EditionsAtRest | internal/controller.go:962-1050 | at rest a work lists each edition that an id pushed for it yields and an entry under each id it had, and every entry was there or is such an edition |
| Editions.EditionsSurviveLoad | internal/controller.go:619-633 | in every run from a load to rest, each edition cached before that can still be loaded is among those of the work at the end, and each of those was loaded, pushed or pending, or is such an edition |
| Histories.StepHolds | internal/controller.go:909-1112 | every step that is not a load keeps track: works are edited by what was pushed, authors hold versions of works in play for them, and nothing in play is forgotten |
| Histories.RunHolds | internal/controller.go:909-1112 | every run without loads does, from any state |
| Rest.WorksAtRest | internal/controller.go:962-1050 | at rest, every cached work has its own editions and exactly those pushed for it, whatever the order of events |
| Rest.FreshAtRestIff | internal/controller.go:909-1112 | from any state, copies are fresh at rest if and only if each work reaches its author under some id and its copies come to agree, or it was embedded and stays as it was |
| Rest.FreshStateAtRestIff | internal/controller.go:1082-1112 | from a state that is fresh or about to be, if and only if the cached copies of each work come to agree |
| Rest.AloneAtRestIff | internal/controller.go:1039-1108 | a work under one id is fresh if and only if an edge for it is pending or pushed, it changes, or it is embedded already |
| Rest.FreshAfterLoadsIff | internal/controller.go:589-646 | in every run, the state after the last load and what is pushed later decide |
| Rest.LoadedAtRestIff | internal/controller.go:612-643 | a loaded work is fresh at rest if and only if the load names the author, an edge for it is pending or pushed, further editions change it, or it is embedded already |
| Serializability.DenormalizationIsSerializable | internal/buffer.go:86-186 | two runs from one state that push the same set of relationships, in any order, merged and interleaved in any way, come to the same rest |
| Serializability.RestIsDetermined | internal/buffer.go:86-142 | works and authors at rest are functions of the first state and the relationships |
| Serializability.RunIsExact | internal/controller.go:1055-1193 | after every run an author is what it was, with the copies that went into it denormalized at once |
| Serializability.RestIsCoherent | internal/controller.go:909-1112 | what serializability supposes of a state holds again at rest, so runs can follow each other |
| Serializability.ShortTitlesCommute | internal/controller.go:1119-1189 | with short titles, no titles clash |
| Runs.EveryPushComesToRest | internal/controller.go:909-935 | whatever edges are pushed, in that order, some run pushes them all and comes to rest |
| Runs.OneStateOfRest | internal/buffer.go:86-186 | they lead to one state of rest, the same for all runs that push the same relationships |
| Confluence.RunsAgreeIff | internal/controller.go:909-922 | from any state at rest, all runs that push the same author edges agree, whatever the edges, if and only if any two batches one after the other come to what they come to at once |
| Confluence.RunsAgreeIffHarmless | internal/controller.go:1082-1193 | with equal copies and coherent series, if and only if no two batches of an author's works clash in titles or lose a rating |
| Stages.CommutingStagesAgree | internal/buffer.go:86-186 | from any state, with edges pending or not: if stages commute and choices agree, runs that push the same relationships come to the same rest |
| Stages.RunStaysExact | internal/controller.go:909-1112 | then after every run an author is what the copies it was given make of it at once, at whatever stages they were taken |
| Agreement.StagedRuns | internal/controller.go:962-1112 | two batches at two stages one after the other, and at once, are runs that push the same relationships and come to rest |
| Agreement.AllRunsAgreeIff | internal/controller.go:909-1112 | from any state at rest, all runs that push the same relationships agree, work edges included, if and only if any two batches at two stages come to what they come to at once and requests have one outcome |
| Agreement.AllRunsAgreeIffHarmless | internal/controller.go:909-1193 | with one id per work and coherent series, if and only if no two batches at two stages clash in titles or lose a rating |
| Confluence.AgreeingRunsNeedAgreeingCopies | internal/controller.go:1096-1108 | runs that agree need cached copies of one work that agree up to titles |
| Confluence.TwoRuns | internal/buffer.go:133-140 | two batches merged into one edge, and the same two apart, are runs that push the same relationships and come to rest |
| ShortTitles.MergingNeedsShortTitles | internal/controller.go:1119-1189 | two runs over works without short titles that push the same relationships and come to different rests |
| StaleCopies.SilentLoadBreaksFreshness | internal/controller.go:623-643 | a run from a fresh state to a stale rest: a load that names no author brings other editions, and putting back what was cached changes nothing |
| StaleCopies.SilentLoadLeavesStale | internal/controller.go:635-643 | however that run goes on, the author keeps the stale copy |
| StaleCopies.AliasesCanBreakFreshness | internal/controller.go:1039-1108 | a run from a fresh state to a stale rest, in which a work under two ids gets an edition under one of them |
| StaleCopies.AliasesBreakSerializability | internal/controller.go:1096-1108 | once the copies differ, runs that push the same author edges no longer agree |
| Controller.CollectKeys | internal/controller.go:920-924 | the keys of a child set in some order, all of them and no others |
| Controller.Controller.constructor | internal/controller.go:173-190 | nothing queued, nothing being sent |
| Controller.Controller.Send | internal/controller.go:1043-1047 | performs the step in which an edge from outside is being sent |
| Controller.Controller.Receive | internal/buffer.go:39-44 | performs the step in which the buffer receives one of the edges being sent |
| Controller.Controller.Dispatch | internal/controller.go:909-935 | performs the processing step: pop, then dispatch on the kind |
| Controller.Controller.DenormalizeEditions | internal/controller.go:962-1050 | the editions that the lookups yield are listed, each under its own id, and a changed work is written back and announced to each of its authors |
| Controller.Controller.StoreEdited | internal/controller.go:1029-1047 | an unchanged work is neither written nor announced |
| Controller.Controller.Announce | internal/controller.go:1041-1047 | one author edge for each author of the work, in order |
| Controller.Controller.DenormalizeWorks | internal/controller.go:1055-1067 | the guards: no ids, or an author that cannot be loaded, change nothing |
| Controller.Controller.DenormalizeLoaded | internal/controller.go:1082-1193 | the author is replaced by its denormalized self |
| Controller.Controller.LoadWork | internal/controller.go:589-646 | performs the loading step: the fetched work is cached, then a work edge with exactly the cached editions that can still be loaded is sent, and an author edge if an author is known |
| Controller.Controller.Reloadable | internal/controller.go:624-633 | an id is kept if and only if the cached work lists it and its lookup succeeds |
| GraphQL.EvalRenamed | internal/graphql.go:319-342 | a renamed argument evaluates to the same value if and only if each variable in it, renamed, has the value it had |
| GraphQL.ElabRenamed | internal/graphql.go:319-342 | a renamed selection set, with other variables and more fragments, asks the same if and only if every variable it reaches, renamed in the operation and unrenamed in fragments, keeps its value |
| GraphQL.DistinctFieldsAreIndependent | internal/graphql.go:333-337 | fields with distinct response keys are executed as if each were alone |
| GraphQL.ResponseHasTheKeys | internal/graphql.go:333-337 | the response has exactly the keys asked for |
| QueryMerging.BuiltSelections | internal/graphql.go:344-349 | the merged operation selects the aliased fields of the queries, in the order in which they were added |
| QueryMerging.BuiltVars | internal/graphql.go:323-328 | a variable has, under its prefixed name, the value it was supplied with |
| QueryMerging.UnprefixedIsAbsent | internal/graphql.go:323-328 | under its own name it has none |
| MergedDocuments.FragmentsAreThose | internal/graphql.go:355-367 | the merged document carries a fragment if and only if one of its queries defines it, whatever else was printed before |
| MergedDocuments.FirstPrintedIsSent | internal/graphql.go:298-306 | a body once printed is the one that is sent from then on |
| MergedDocuments.ValuesAreThose | internal/graphql.go:323-328 | the values sent are those supplied for the queries' variables, or null, each under the id, an underscore and the name, and no others |
| MergedDocuments.DeclarationsAreThose | internal/graphql.go:323-349 | the variables declared are those of the queries, prefixed, each with its own type, and no others |
| MergedDocuments.NameIsTheFirst | internal/graphql.go:315-317 | the merged operation goes by the name of the first query |
| MergedDocuments.FieldsAreThose | internal/graphql.go:333-348 | it selects the field of each query under the query's id as alias, in order |
| QueryMerging.MergedVariablesAreUnique | internal/graphql.go:323-349 | the merged operation declares every variable once |
| QueryMerging.AllTextsExtend | internal/graphql.go:298-308 | the kept fragments include those of every query, with the body they have there |
| QueryMerging.RenamedAgrees | internal/graphql.go:319-342 | the variables of a query keep their values exactly if no fragment mentions one |
| QueryMerging.MergedKeysAreTheIds | internal/graphql.go:333-337 | the response keys of the merged operation are the ids, all distinct |
| QueryMerging.MergedFieldIsAloneIff | internal/graphql.go:282-367 | what the merged document asks under the alias of a query, resolved without regard to its validity, is what the query asks alone, if and only if no fragment it uses mentions a variable |
| QueryMerging.VariablesDefinedIff | internal/graphql.go:282-367 | the merged operation defines every variable that is used if and only if no query of the batch has a fragment that mentions a variable |
| QueryMerging.MergingPreservesMeaningIff | internal/graphql.go:282-367 | for any batch and any server: every query of the batch is answered under its id as it is answered alone if and only if no query of the batch has a fragment that mentions a variable; otherwise none is answered |
| QueryMerging.MergedResponseHasTheIds | internal/graphql.go:333-337 | the merged response has the ids as its keys and nothing else |
| QueryMerging.FragmentVariablesAreLost | internal/graphql.go:298-308 | a query whose fragment mentions a variable asks something else once merged |
| QueryMerging.LostVariablesChangeTheAnswer | internal/graphql.go:298-308 | that query is answered alone and rejected once merged, and a server that executed it nevertheless would answer something else |
| Batching.QueryBuilder.AddVariables | internal/graphql.go:323-332 | definitions are renamed, values taken over, and a renamed definition is not renamed twice |
| Batching.QueryBuilder.AddOperation | internal/graphql.go:310-349 | the operation is renamed and aliased, then becomes or extends the merged one |
| Batching.QueryBuilder.Add | internal/graphql.go:282-353 | all definitions of a document are taken over; fragments keep their first printed body; the field's name is returned |
| Batching.QueryBuilder.Build | internal/graphql.go:355-367 | the merged operation with the bodies of exactly its fragments |
| Batching.TrafficIsFifo | internal/graphql.go:86-101 | every query is sent in the order in which it came, exactly once or not yet |
| Batching.BatchesArePacked | internal/graphql.go:184-191 | in every run all batches but the youngest are full |
| Batching.PlaceOfEnqueued | internal/graphql.go:184-191 | a query that finds n waiting goes to batch n / batchSize |
| Batching.SentByTheBoundedFlush | internal/graphql.go:86-191 | it is sent by exactly the (n / batchSize + 1)-th later flush, whatever else is enqueued |
| Batching.Route | internal/graphql.go:121-161 | every subscriber gets exactly one message: the first error at its alias if there is one, the failure if the request failed without field errors, and otherwise its own data under its own field, or null |
| Batching.OldestIsReady | internal/graphql.go:294-307 | in every run, the next batch to be flushed is mergeable, and all its fragments are known |
| Batching.BatchingIsTransparentIff | internal/graphql.go:86-218 | in every run, if no query of the batch that is flushed next has a fragment that mentions a variable, each caller receives what the server would answer to its query alone; if one has, every caller of the batch receives null |
| Batching.FailuresReachTheirCallers | internal/graphql.go:121-161 | in every run, if the request of the batch that is flushed next fails as a whole, every caller of it receives the failure; if errors stand at some aliases, the callers at those receive the first of theirs and the others their own data |
| Client.BatchedClient.Enqueue | internal/graphql.go:176-218 | the query joins the youngest batch, or a new one if that is full; its builder and its subscribers stay in step |
| Client.BatchedClient.Flush | internal/graphql.go:86-119 | the oldest batch leaves the queue, and what is sent is the document merged from its queries |
| Client.Deliver | internal/graphql.go:113-161 | with the server's response to the request of a flush, every caller of the batch gets one message: the answer to its query alone, or null if the request was rejected |
| Client.DeliverOutcome | internal/graphql.go:113-161 | the same for the request of a flush, whatever comes back for it |
| Sessions.PlaySession | internal/graphql.go:86-218 | any script of enqueues and flushes, played on the client: the requests sent are, in order, those for the batches that the queue as a value sends, and the cache knows the fragments of all queries |
| Sessions.SessionIsReady | internal/graphql.go:86-218 | each of those requests is ready to be answered, so that its callers receive what `Client.Deliver` gives them |
| Layers.FoundIsAnswer | internal/cache.go:39-63 | whichever layer answers, a read finds the value and the remaining time of the expiring map |
| Layers.StepAgrees | internal/cache.go:39-111 | every operation, eviction and clock tick keeps the layers in agreement with the map |
| Layers.ReadAgrees | internal/cache.go:45-55 | writing a found value into the layers above keeps the agreement, whatever memory drops |
| Layers.CacheIsAnExpiringMap | internal/cache.go:39-111 | after any sequence of operations, evictions and ticks, a read finds what one expiring map holds |
| Layers.WrittenIsFound | internal/cache.go:39-111 | a value that is not empty, written for some time, is found by every later read, whatever memory drops, with the time that is left of it, until the key is written, expired or deleted |
| Layers.EmptyIsNotWritten | internal/cache.go:94-103 | an empty value, or one for no time, is not written |
| Layers.DeletedIsMissing | internal/cache.go:81-92 | a deleted key is not found until it is written again |
| Layers.WriteReachesEveryLayer | internal/cache.go:105-109 | after a write every layer that does not drop it answers for itself |
| Layers.ReadWarmsMemory | internal/cache.go:45-58 | what a read finds below, memory answers by itself from then on, unless it drops it |
| Layers.ReadStopsAtTheHit | internal/cache.go:45-62 | the layer that answered and those below are left alone |
| Layers.ExpiryInEachLayer | internal/cache.go:71-79 | expiring empties memory, and keeps the persistent row with no time left |
| Layers.ExpiryIsSticky | internal/cache.go:71-79 | after `Expire`, every read returns the same data with a TTL of zero until the next accepted write or deletion |
| Layers.DeleteIsFinal | internal/cache.go:81-92 | for any layers and any whole reads between the deletions, no layer answers once `Delete` has finished |
| Layers.DeleteUndisturbed | internal/cache.go:81-92 | undisturbed, the key is gone from every layer and nothing else changed |
| Layers.DeletingDownwardsIff | internal/cache.go:85-90 | from the top down, the key would survive in memory exactly if memory keeps what the read in between wrote |
| Layers.ExpiryWithReadBetweenIff | internal/cache.go:73-79 | with a read between the two layers, the entry is expired exactly if memory dropped the write, the value was empty or it had lapsed |
| LayeredCaching.Store.GetWithTTL | internal/postgres.go:86-121 | the stored value with the time that is left of it; lapsed rows are returned with a TTL of zero by the persistent store and missing from memory |
| LayeredCaching.Store.Set | internal/memory.go:41-44 | memory keeps the entry or leaves the key absent; the persistent store overwrites the row |
| LayeredCaching.Store.Expire | internal/postgres.go:148-151 | the row is dated to the epoch and its data kept; memory forgets the entry |
| LayeredCaching.Store.Delete | internal/postgres.go:154-157 | the row is gone, and no other |
| LayeredCaching.LayeredCache.constructor | internal/cache.go:114-131 | memory over the persistent store over the purging layer, in agreement with the empty map |
| LayeredCaching.LayeredCache.GetWithTTL | internal/cache.go:39-63 | the first answer is returned and written into exactly the layers that missed, unless it is empty |
| LayeredCaching.LayeredCache.Set | internal/cache.go:94-111 | an empty value or a TTL of zero changes nothing; anything else is written to every layer |
| LayeredCaching.LayeredCache.Expire | internal/cache.go:71-79 | every layer expires the key |
| LayeredCaching.LayeredCache.Delete | internal/cache.go:81-92 | every layer deletes the key |

## Left out

- Everything outside these parts: HTTP handlers, transports, metrics, logging, the command line, the generated clients, and the field mappings of the two upstreams.
- `Search`, `SearchBatch`, `GetAuthorBatch`, `Recommendations`, `saveEditions`, `getBook`, `getSeries`, and the loop of `refreshAuthor` that collects an author's works: they send edges, which the model allows to be any edges at any time.
- The write with which a getter seeds the cache with a work it has just looked up (internal/gr.go:245-250): it stores a work and announces nothing, so the freshness that steps keep depends on leaving it out. `Rest.FreshAtRestIff` holds from the state after such a write as from any other.
- The persisted list of author refreshes.
- Mutexes, condition variables and channels: a body that holds a lock, and a channel transfer, is one atomic step.
- Elements still buffered when a producer closes its channel; the accumulator drops them, and the model only covers the time while the producer is open.
- Unrecognised edge kinds, for which the buffer panics.
- JSON, gzip, ETags, and the GraphQL parser and printer are functions whose results are compared as values.
- Rounding of `AverageRating`, which is a 32-bit float in the program and a real number here; rating counts are unbounded and non-negative.
- The AST is rewritten in place by the program and copied here; directives, null propagation, several or aliased top-level fields, queries that do not parse, colliding random ids and changes of the batch size while running are not modelled.
- Negative TTLs, for which memory keeps an old entry; store failures and the errors of `Expire` and `Delete`, of which only the last layer's survives.
- Reads that overlap a deletion of one layer, rather than running between two.
- Purging of Cloudflare's own cache: that layer never answers and has nothing to lose.
- EdgeBuffer.EdgeBuf.Pop: does not wait for an edge; it is called when there is one.
- EdgeBuffer.EdgeBuf.Len: does not promise the exact number of waiting children, because the counter has 32 bits; `EdgeBuffer.SizeIsExactIff` says when it is exact.
- Serializability.DenormalizationIsSerializable: supposes that editions and series with equal ids are equal, that titles do not clash, that the copies of a work which reach an author come to be equal, and that no work is loaded during the run. `Agreement.AllRunsAgreeIff` supposes only that editions with equal ids are equal and that no work is loaded, and is exact, for runs that start at rest.
- Agreement.AllRunsAgreeIff: is about states at rest. From a state with edges pending the condition is sufficient (`Stages.CommutingStagesAgree`); that it is necessary is not claimed there, since what is pending may leave a run no way to process the batches of its choice.
- Serializability.RestIsCoherent: supposes that cached copies of one work are all rated or all unrated.
- Freshness.StepKeepsFreshness: supposes that author edges are for authors of the work, also after a load.
- Rest.LoadedAtRestIff: is about works that are cached under one id; `Rest.FreshAfterLoadsIff` covers the others.
- Controller.Controller.DenormalizeEditions: does not load a work that is not cached, because the cached works stand for all that can be loaded.
- Controller.Controller.DenormalizeWorks: does not load an author that is not cached, and does not retry a load that was refused for the moment.
- Controller.Controller.LoadWork: is the branch in which a work is fetched; what is returned to the caller, and the marker cached for a missing work, are not modelled.
- EdgeBuffer.Accumulate: covers the time while the producer is open, as does `EdgeBuffer.AccumulatePlain`.
- Batching.QueryBuilder.Add: is about documents with one operation that has one unaliased top-level field.
- Client.BatchedClient.Enqueue: is given queries that parse.
- QueryMerging.MergingPreservesMeaningIff: of the validation that a server performs, only sections 5.3.2, 5.8.1 and 5.8.3 of the GraphQL specification are considered for the merged document, and a server rejects it for the last one only. Fragments do not refer to themselves, which is witnessed by a rank for each name.
- Batching.BatchingIsTransparentIff: is about replies that are whole or rejected; `Batching.FailuresReachTheirCallers` covers failures and errors for some of the fields.
- Batching.Route: does not model `gqlStatusErr`, which rewrites an error's status; errors are carried along as they are.
- LayeredCaching.LayeredCache.Delete: is one undisturbed call; deletions with reads in between are `Layers.DeleteIsFinal`.
