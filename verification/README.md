# Verified models of the hub's and the collector's algorithms

The hub keeps an archive of coding-agent sessions on Cloudflare Workers, D1 and R2; collectors on the users' machines
feed it. Several of its parts are self-contained algorithms or small protocols that must be right over every input, every
page split and every interleaving. This project models eight of them in Dafny and proves what the code promises:

| part | modules | what is proved |
|---|---|---|
| paged session rollup | `Rollup*` | the buckets published for a session equal one pass over its blocks, for all page sizes, workers, crashes and generation changes |
| sharded search | `Search*`, `CompareTexts` | the heap merge over lazily read pages returns a slice of the sorted whole; cursors enumerate every hit once |
| catalog replication | `Catalog*` | a session without outbox entries shows on every shard what main shows; nothing old overwrites or returns; calls stay within the allowance |
| heartbeat queue | `Event*`, `Heartbeat*`, `Json*` | per-key counts are conserved through compaction, packing, failures and crashes, down to the text posted; bodies are bounded; good passes empty the queue |
| OTLP encoder and chunker | `Otlp*`, `Utf8Text`, `GreedyPartition` | a reference decoder reads the encoding back; chunks lose nothing, are minimal in number and bounded in size |
| pricing | `Pricing*`, `TopMerge` | grouped prices equal the sum of row prices; price epochs refine timestamps; the merge tree is a global top-k; the compare-and-set keeps prices honest |
| range reindex | `Reindex*` | job and target states tell the truth and never go back; files and sessions are invalidated only under a live lease |
| session paging | `Keyset*`, `CursorText` | every session with a fixed key is served exactly once while the table changes; cursors round-trip |

## How the model is built

- Entities that are values are datatypes. What a component updates in place is a class (`RollupStore`, `Hub`, `State`,
  `Out`, `UsageTable`, `ReindexDb`, `SessionsApi`) whose methods have the source's loops, and each method is proved
  against a specification function whose own properties are proved as lemmas.
- What the specification functions mean is stated a second time, on the stored columns and without them:
  `RollupFigures` and `RollupCommit`, `HeartbeatText`, `OtlpBatch`, `PricingCharge`, `ReindexOutcomes`, `KeysetFilters`.
- A D1 batch is one atomic step. Between two calls of a worker everybody else may run: a method named `Interleave` changes
  the object and promises only an invariant and a relation between old and new state (`Later`, `Stable`, `OthersStep`,
  `TokenKept`). Lemmas show that every step of every participant keeps that invariant and stays within that relation, and
  that the relation is transitive, so any number of foreign steps is covered.
- A storage or queue call may fail, before or after it took effect. Queues, clocks, random tokens and the network are
  parameters or unconstrained results. Tokens and generations are assumed unique, as UUIDs are.
- Timestamps are texts or points of a total order. Money is a real number. JavaScript arrays are shorter than 2^32.
- Session blocks change only between an invalidation and the next publication of the session; the consumer's write fence,
  which guarantees this, is not part of this model.

## Where the code and its documentation differ

- `hub/src/session-catalog.ts:18` says every call spends at most its allowance. `drainIndexCatalog` spends one call even
  when the allowance is below one; otherwise the promise holds (`CatalogSync.Hub.DrainIndexCatalog` states this as an
  equivalence).
- `hub/src/pricing-pass.ts:151-162` says a re-parse that lands between read and write is never overwritten with a stale
  cost. The compared columns do not include the timestamp, so a re-parse that only moves a row's timestamp across a price
  change is overwritten: `PricingPass.TimestampOnlyReparseGoesStale` gives the row. The stored cost is the right one exactly
  when the model is a sentinel or its rates at the two timestamps agree in every class the row has tokens in
  (`PricingPass.StoredIsRightIffSameRates`). Equal epochs are sufficient and not necessary, because another model's price
  date also separates epochs (`PricingPass.OtherModelsDateIsHarmless`); they are what the epoch column needs
  (`PricingPass.CasIsHonestIffSameEpoch`).
- `hub/gateway/otlp-protobuf.ts:443-448` describes truncation as a cut on a code point boundary. The decoder also drops a
  leading byte order mark, so a text that starts with one and is cut after it loses it:
  `Utf8Text.TruncatedIsLongestPrefix` and `Utf8Text.CutLosesTheMark`.
- `hub/src/api/sessions.ts:312-318` promises the trailer of an NDJSON stream when more rows match than the cap. The code
  writes it from exactly the cap on: `KeysetList.TrailerAtTheCap`. With exactly 300 rows the trailer leads to an empty page:
  `KeysetList.TrailerToNothing`.
- The outer length prefixes of a chunk may exceed the accounted size by up to 8 bytes, by up to 4 at the gateway's budget
  of 900000 bytes (`OtlpChunks.ChunkBound`); the code relies on slack below the service's limit.

## Model

| member | source | states |
|---|---|---|
| RollupReference.PageExtendsRollup | hub/src/session-rollup.ts:236-244 | Adding the buckets of a page to those of everything before it gives the buckets of everything up to its end, for any split. |
| RollupReference.SameTurnSameKey | hub/src/session-rollup.ts:81-86 | All blocks of a turn count in one bucket: the day and model of the turn's first block. |
| RollupReference.TurnsCountOnce | hub/src/session-rollup.ts:204-209 | A bucket's assistant and rewound figures are the numbers of distinct turns with such a block. |
| RollupReference.RepeatedCallsAreDuplicates | hub/src/session-rollup.ts:216-219 | Over a session, repeated calls are comparable calls less distinct (tool, text) keys. |
| RollupFigures.BucketsSayWhatTheyCount | hub/src/session-rollup.ts:190-220 | There is a bucket for a day and model exactly when some block counts for them: the day of its turn's first block, the model its turn's usage row has, "(unknown)" without one. Its six figures are the numbers of those blocks' turns, rewound turns, tool calls, known calls and repeats of earlier calls, and the bytes of their results. |
| RollupFigures.ToolCallsByModel | hub/src/session-rollup.ts:194-211 | Over all days, a model's tool calls are the assistant tool_use blocks of the turns with that model. |
| RollupFigures.ResultBytesAreAll | hub/src/session-rollup.ts:213-216 | Over all buckets, the result bytes are those of all tool results, negative and missing lengths counting as none. |
| RollupBuckets.UpsertIsGroup | hub/src/session-rollup.ts:238-244 | Accumulating grouped counters by upsert equals grouping all entries at once. |
| RollupBuckets.SumOfGroup | hub/src/session-rollup.ts:67-70 | Every one of the six counters summed over the buckets is its sum over all entries. |
| RollupPage.FoldBlocks | hub/src/session-rollup.ts:190-220 | The page loop with its carried turn state and mutable buckets computes the page's fold. |
| RollupPage.CountTurn | hub/src/session-rollup.ts:204-211 | The assistant branch raises each flag of a turn once and counts tool calls. |
| RollupPage.CountCalls | hub/src/session-rollup.ts:212-219 | Result bytes, comparable calls and repeated calls are counted as the block contributes them. |
| RollupPage.PageIsWindow | hub/src/session-rollup.ts:144-164 | The page query after the cursor of block n returns exactly the next blocks in (turn, block, id) order. |
| RollupPage.RepeatedIsReference | hub/src/session-rollup.ts:216-219 | A call counts as repeated in its page if and only if an equal call occurs earlier anywhere in the session. |
| RollupPage.StepIsReference | hub/src/session-rollup.ts:192-220 | One row moves the carried turn state and one bucket exactly as the unpaged pass does at that block. |
| RollupPage.PageFoldIsReference | hub/src/session-rollup.ts:133-220 | Folding a page from the carried state gives what the unpaged pass adds over the same blocks. |
| RollupPage.CallKeysOfWindow | hub/src/session-rollup.ts:245-247 | Storing a page's representative calls makes the seen-call table hold exactly the calls behind the new cursor. |
| RollupPage.SeenIdsAreHonest | hub/src/session-rollup.ts:175-188 | The looked-up ids are those whose call the table holds. |
| RollupProtocol.HonestPage | hub/src/session-rollup.ts:133-220 | A worker whose checkpoint still matches has folded exactly the window after the cursor, whatever ran since it read it. |
| RollupProtocol.CommitAccounts | hub/src/session-rollup.ts:222-247 | A winning page takes the tables from accounting for n blocks to accounting for the end of its window. |
| RollupProtocol.ActionKeepsInv | hub/src/session-rollup.ts:133-263 | Every read, commit, deferral, crash, invalidation and publication keeps the invariant of session and workers. |
| RollupProtocol.RunKeepsInv | hub/src/session-rollup.ts:87-263 | The invariant holds in every state of every run. |
| RollupProtocol.EveryBlockCountsOnce | hub/src/session-rollup.ts:222-262 | In every run an eligible session's buckets are the rollup of exactly the blocks behind its cursor, and a ready session publishes the rollup of all its blocks with no seen calls left. |
| RollupProtocol.PublishedBuckets | hub/src/session-rollup.ts:222-262 | In every run a ready session publishes a bucket exactly for the days and models its blocks count for, with the figures of those blocks. |
| RollupProtocol.WinningPageMakesProgress | hub/src/session-rollup.ts:222-262 | A winning page makes the session ready, or leaves it eligible with strictly less left: twice the unread blocks plus seen calls plus one while not finishing. |
| RollupProtocol.ReadyAfterFinitelyManyWins | hub/src/session-rollup.ts:222-262 | Over any stretch of any run that keeps the generation, the winning commits are at most what was left at its start, until the session is ready; it is ready after one more win than that, and stays ready. |
| RollupProtocol.RunIsStable | hub/src/session-rollup.ts:222-262 | Between any two states of a run a session whose token was already issued in the first is untouched, and issued tokens and generations stay issued. |
| RollupPass.Transact | hub/src/session-rollup.ts:225-262 | The batch is all or nothing: its guarded statements change the tables as one commit if and only if the compare-and-set matched, and cleanup is bounded by the page size. |
| RollupPass.RollupStore.ReadSeenCalls | hub/src/session-rollup.ts:175-188 | Lookups in slices of 90 give an answer that is right for the checkpoint read, with other workers between the slices. |
| RollupPass.RollupStore.CommitPage | hub/src/session-rollup.ts:225-262 | The page's transaction on the stored session; the outcome says whether it lost, won or published. |
| RollupPass.RollupStore.AtIsStored | hub/src/session-rollup.ts:87-131 | A stored session is found as it is stored; any other has no rows anywhere. |
| RollupPass.RollupStore.RollupPage | hub/src/session-rollup.ts:133-263 | One page among concurrent workers: if it wins, the session goes from accounting for the blocks before its cursor to accounting for exactly the next ones examined, at most its limit; if it loses, nothing changes. |
| RollupPass.PageMoves | hub/src/session-rollup.ts:222-262 | A commit moves the tables over exactly the page's window or not at all. |
| RollupCommit.CommitWrites | hub/src/session-rollup.ts:225-262 | Column by column: a page that finds its row moves cursor, attempt time and turn state, installs its token, stores its calls and deletes those picked; the row is ready exactly when the page is short and no seen call is left. Any other page writes nothing. |
| RollupCommit.InvalidationWrites | hub/migrations/0025_session_rollup.sql:2-15 | An invalidated session starts over with nothing counted, seen or read, and takes part again only when the indexer has published it. |
| RollupCommit.DeferralWrites | hub/src/session-rollup.ts:111-118 | A deferral moves the attempt time of a row it finds past the checkpoint's, never back, and nothing else. |
| RollupCommit.Slices | hub/src/session-rollup.ts:175-188 | Calls are looked up 90 at a time, and a cleanup deletes a page's worth of seen calls or all there are. |
| RollupCommit.SomeRunPublishes | hub/src/session-rollup.ts:87-262 | Sessions can be published: some run leads from before anything happened to a ready session. |
| RollupPass.RollupStore.DeferPage | hub/src/session-rollup.ts:111-122 | A failed page moves the attempt time of a checkpoint that still matches and changes nothing else. |
| RollupPass.RollupStore.Select | hub/src/session-rollup.ts:100-106 | The least recently attempted eligible session that did not fail in this pass, ties by id; none only if there is none. |
| RollupPass.RollupStore.RunSessionRollup | hub/src/session-rollup.ts:87-131 | A pass never exceeds its block and page budgets and keeps every session accounted for; its counters are the numbers of pages that ended published, failed and superseded and the sum of the blocks examined, and `pending` counts the eligible sessions. With budget to spare it stopped because every session still eligible had failed in it. |
| SearchOrder.ComparatorIsSqlOrder | hub/src/api/search.ts:35-49 | The comparator orders hits as each shard's ORDER BY does for every sort, NULLs included. |
| SearchOrder.OrderIsStrict | hub/src/api/search.ts:42-49 | The comparator is a strict order. |
| SearchOrder.PrecedesIsTotal | hub/src/index-shards.ts:140-165 | With globally unique block ids any two hits are ordered. |
| CompareTexts.CompareText | hub/src/api/search.ts:51-60 | The loop over UTF-16 units compares code point by code point, a proper prefix first. |
| CompareTexts.CompareTextIsBinaryOrder | hub/src/api/search.ts:50-60 | The comparison's sign is the byte order of the UTF-8 encodings, and zero exactly for equal texts. |
| CompareTexts.TextOrderIsByteOrder | hub/src/api/search.ts:50-60 | Code point order and UTF-8 byte order agree on all texts. |
| SearchMerge.Advance | hub/src/api/search.ts:273-281 | Moving past a head, with a refill when the page is used up, keeps the stream at the rest of its shard: no hit skipped or repeated. |
| SearchMerge.SiftDown | hub/src/api/search.ts:287-295 | Sifting restores the heap when only its root may be wrong, and keeps its members. |
| SearchMerge.OpenStreams | hub/src/api/search.ts:248-264 | The shards with hits, sorted by their heads, form a heap over streams that start their shards. |
| SearchMerge.TakeHead | hub/src/api/search.ts:268-296 | Taking the root's head keeps the merge invariant with that hit taken, or some page was unreadable. |
| SearchMerge.TakeLeast | hub/src/api/search.ts:267-296 | Taking a least head of all shards keeps what was taken before everything left. |
| SearchMerge.TakenIsPrefix | hub/src/api/search.ts:245-298 | At every moment the hits taken start the sorted list of all hits. |
| SearchMerge.MergeTurn | hub/src/api/search.ts:267-296 | One turn collects past the offset, stops with the wanted slice, or goes on with strictly fewer hits left. |
| SearchMerge.Run | hub/src/api/search.ts:245-298 | The merge returns positions offset to offset+limit of all hits sorted, for every shard count, page size and sort; null only if a page could not be read. |
| SearchMerge.RunSearch | hub/src/api/search.ts:300-404 | The response has the page and, exactly when more hits follow, the next offset. |
| SearchMerge.CursorsEnumerateAll | hub/src/api/search.ts:300-404 | Following the cursors from the start gives every hit of every shard once, in order. |
| SearchMerge.PlacesAreUnique | hub/src/api/search.ts:245-264 | Shards whose blocks all differ have unique ids over all of them, which is what a search requires. |
| SearchMerge.ShardsCanBeSorted | hub/src/index-shards.ts:140-165 | Any hits with unique ids are sorted by the shard's own order. |
| CatalogShard.ApplyPayload | hub/src/index-layout.mjs:117-163 | The five statements of a payload apply every entry whose version is not older than the shard's and leave all other sessions alone. |
| CatalogShard.StampedThen | hub/src/index-layout.mjs:113-136 | After stamping, recording an entry's version means the shard held nothing newer. |
| CatalogShard.ApplySingle | hub/src/index-layout.mjs:165-207 | An entry bound by itself has the same effect as a payload of it. |
| CatalogShard.PackBatches | hub/src/index-layout.mjs:219-253 | Every entry is in exactly one batch, payloads stay within the cap, and only an oversized entry is alone for its size. |
| CatalogShard.OneEntryOneBatch | hub/src/session-catalog.ts:188-192 | A single entry yields exactly one batch. |
| CatalogProtocol.StepKeepsInv | hub/src/session-catalog.ts:4-18 | A trigger, a late or repeated delivery, and a retirement each keep the replication invariant and never go back. |
| CatalogProtocol.RunKeepsInv | hub/src/session-catalog.ts:4-18 | So does every run of them, from every state on. |
| CatalogProtocol.QuietMeansReplicated | hub/src/session-catalog.ts:140-148 | In every reachable state a session without outbox entries shows on every shard main's row and stars, or a tombstone. |
| CatalogProtocol.EmptyOutboxMeansMirrored | hub/src/session-catalog.ts:25-27 | An empty outbox means every shard mirrors main. |
| CatalogProtocol.NothingOldReturns | hub/src/session-catalog.ts:8-14 | While main has no newer version, a shard that shows a version keeps showing it: no older sync overwrites it, no deleted session returns. |
| CatalogProtocol.SeedIsGood | hub/migrations/0036_session_catalog_outbox.sql:18-40 | The state the migration starts from satisfies the invariant. |
| CatalogRead.GroupStars | hub/src/session-catalog.ts:87-93 | The map built star by star gives each session its stars in order. |
| CatalogRead.CatalogEntries | hub/src/session-catalog.ts:79-110 | One entry for each id with a version, with its row or none and all its stars; it throws exactly for rows without a version. |
| CatalogRead.SnapshotIsHonest | hub/src/session-catalog.ts:112-143 | On a main kept by the triggers the read never throws and gives every known session's state at its version. |
| CatalogSync.Hub.ChangeSession | hub/migrations/0036_session_catalog_outbox.sql:42-148 | A change appends to the outbox and stamps the version with the new sequence number. |
| CatalogSync.Hub.ReadBulk | hub/src/session-catalog.ts:112-130 | One snapshot of the small sessions, and the names of the large ones. |
| CatalogSync.Hub.ReadOne | hub/src/session-catalog.ts:132-143 | One snapshot of a session, absent only when main never stamped it. |
| CatalogSync.Hub.ApplyBatch | hub/src/session-catalog.ts:160-163 | When every shard's call succeeded, every shard holds each entry at its version or newer. |
| CatalogSync.Hub.RetireCovered | hub/src/session-catalog.ts:194-199 | Retirement removes only what every shard has accepted. |
| CatalogSync.Hub.SyncRound | hub/src/session-catalog.ts:164-201 | A round makes exactly the calls it reports, within the allowance even when one fails; it stops early only when the allowance cannot pay for another step; otherwise all its sessions reached every shard as of its start. |
| CatalogSync.Hub.SyncSessionCatalog | hub/src/session-catalog.ts:149-203 | The calls made are those reported and never exceed the allowance, even when one fails; `current` means every requested session reached every shard and was retired; `pending` means the rest of the allowance cannot pay for another round; `synced` counts the sessions that did. |
| CatalogSync.Hub.PushBatches | hub/src/session-catalog.ts:171-178 | Whatever is reported as covered was accepted by every shard, and the batches stop only when the allowance cannot pay for the next one and the retirement. |
| CatalogSync.Hub.PushLarge | hub/src/session-catalog.ts:179-193 | The same for the large sessions, each read and pushed alone. |
| CatalogSync.Hub.OldestEntries | hub/src/session-catalog.ts:224-226 | The captured sessions are those of the oldest entries, in sequence order. |
| CatalogSync.Hub.DrainIndexCatalog | hub/src/session-catalog.ts:217-240 | The captured entries are retired when the sync is complete, `current` means the outbox is empty, the calls made are those reported, and they keep the allowance if and only if it is at least one. |
| CatalogSync.CapturedAreRetired | hub/src/session-catalog.ts:210-216 | The version a sync reads is at or above every captured entry of its session, so all captured entries go. |
| EventRows.CompactionConserves | collector/src/agent_collector/state.py:373-388 | Compaction keeps each (level, code, message, store) sum, leaves one row for each key of the window and no other key. |
| EventRows.CompactionShrinksTotal | collector/src/agent_collector/state.py:373-388 | The absolute total a page reserves for can only shrink. |
| EventQueue.CompactTable | collector/src/agent_collector/state.py:358-390 | The statements compact exactly the window after the cursor: rows outside are untouched, earliest ids stay. |
| EventQueue.CompactionBalances | collector/src/agent_collector/state.py:348-355 | Every key's sum over the whole table is unchanged by a compaction. |
| EventQueue.LedgerAfterDelete | collector/src/agent_collector/state.py:432-438 | Deleting what an acknowledged body carried keeps pending plus removed equal to buffered for each key. |
| EventQueue.LedgerAfterCompaction | collector/src/agent_collector/state.py:348-390 | Compaction keeps that balance. |
| EventQueue.State.BufferEvents | collector/src/agent_collector/state.py:336-346 | The run's events are appended in order with their counts, one by default. |
| EventQueue.State.CompactEvents | collector/src/agent_collector/state.py:348-390 | A non-positive limit is refused; otherwise one window after the cursor is compacted, and none is reported only if nothing is pending there. |
| EventQueue.State.DrainEvents | collector/src/agent_collector/state.py:392-417 | The page is the longest front of the pending rows within row and character limits, never empty when something is pending. |
| EventQueue.PageCharsGrow | collector/src/agent_collector/state.py:404-413 | A page's size is the length of its texts, row by row; a missing store takes nothing. |
| EventQueue.PendingAre | collector/src/agent_collector/state.py:392-403 | A page query returns exactly the rows after the cursor, up to the window's end if there is one. |
| EventQueue.PendingAscends | collector/src/agent_collector/state.py:392-403 | They come in id order. |
| EventQueue.State.DeleteEvents | collector/src/agent_collector/state.py:432-438 | Exactly the acknowledged ids go. |
| HeartbeatBody.ReservedCovers | collector/src/agent_collector/run.py:608-621 | Room reserved for the page's largest possible counts covers the encoding of the summed groups. |
| HeartbeatBody.GroupsBounded | collector/src/agent_collector/run.py:599-609 | No group's count exceeds the page's absolute total. |
| HeartbeatBody.PackRow | collector/src/agent_collector/run.py:600-622 | One row is joined to its group, passed over as oversized, added, or left for the next body, never the first of a body. |
| HeartbeatBody.PackPage | collector/src/agent_collector/run.py:596-623 | A nonempty prefix is decided: oversized rows are not acknowledged, the others are grouped with exact sums, and the body is bounded. |
| HeartbeatBody.BodyIsBounded | collector/src/agent_collector/run.py:556-563 | With an ASCII envelope the whole body is ASCII, so a body within the limit in characters is within it in UTF-8 bytes. |
| HeartbeatText.BodyReadsBack | collector/src/agent_collector/run.py:622-624 | A reference JSON reader finds in a body, after the envelope, exactly the groups in order: level, code, message, count, and the store, an absent one and an empty one apart. |
| HeartbeatText.BodyCounts | collector/src/agent_collector/run.py:622-624 | For every key, the counts such a reader finds sum to what the groups carry. |
| HeartbeatText.ShortEscapes | collector/src/agent_collector/run.py:556-559 | By example, what json.dumps writes: short escapes where JSON has them. |
| HeartbeatText.LongEscapes | collector/src/agent_collector/run.py:556-559 | Other characters outside printable ASCII in lower-case hexadecimal. |
| HeartbeatText.SignsAre | collector/src/agent_collector/run.py:608-609 | Numbers without a sign for zero, and with one below it. |
| JsonText.ReservedDecimal | collector/src/agent_collector/run.py:608-609 | The digits of the negated bound leave room for every number within it. |
| JsonText.EscapeIsAscii | collector/src/agent_collector/run.py:556-559 | Escaped text is ASCII. |
| Heartbeat.StartOver | collector/src/agent_collector/run.py:586-595 | A saved cursor above all pending ids starts over from zero in the first turn only, and then finds whatever is pending. |
| Heartbeat.Settle | collector/src/agent_collector/run.py:630-632 | After a 200 the rows go and then the cursor is saved; a crash in between leaves only acknowledged work undone. |
| Heartbeat.Deliver | collector/src/agent_collector/run.py:596-632 | The body is bounded, a page moves the cursor strictly, a refused post changes nothing durable, and on a 200 the counts a reader finds in the posted text are, for every key, those of the rows removed. |
| Heartbeat.Turn | collector/src/agent_collector/run.py:576-635 | One turn removes only encodable, delivered rows, and when the post succeeds and the page has nothing oversized the first turn removes some. |
| Heartbeat.SendQueue | collector/src/agent_collector/run.py:565-640 | A pass keeps the ledger, posts at most 64 bounded bodies, and ends; the bodies answered with a 200 are the first ones, and for every key the counts read from them are those of the rows removed; an oversized envelope posts nothing and keeps everything; a pass that succeeds on a nonempty queue shortens it. |
| Heartbeat.SendHeartbeat | collector/src/agent_collector/run.py:565-640 | The run's events are durable before anything is sent, whatever fails afterwards only delivered rows are gone, and success shortens a nonempty queue. |
| Heartbeat.SendableWhen | collector/src/agent_collector/run.py:599-612 | A queue can be sent exactly when the envelope leaves room for each of its events with the digits of the negated total of all counts. |
| Heartbeat.EmptyQueue | collector/src/agent_collector/run.py:565-640 | If no pass reports a refusal or an oversized row, repeated passes empty the queue from any cursor, and for each key the counts read from the bodies taken are those that were pending; so it is when posts are accepted and every row fits. |
| OtlpWire.Out.PushVarint | hub/gateway/otlp-protobuf.ts:30-38 | Appends the base-128 form of the value reduced to 32 bits. |
| OtlpWire.Out.PushVarintBig | hub/gateway/otlp-protobuf.ts:40-47 | Appends the base-128 form of the value, a negative one first raised by 2^64; a value below -2^64 goes out as the one byte its number is stored as. |
| OtlpWire.Out.PushFixed64 | hub/gateway/otlp-protobuf.ts:49-55 | Appends the eight little-endian bytes of the low 64 bits of any integer. |
| OtlpWire.Out.PushLenField | hub/gateway/otlp-protobuf.ts:71-75 | Appends tag, length and content. |
| OtlpWire.VarintRoundTrip | hub/gateway/otlp-protobuf.ts:30-47 | A reference reader gets the value back and finds the end of its bytes, within the wire format's length. |
| OtlpWire.SignedOfUnsigned | hub/gateway/otlp-protobuf.ts:40-47 | The two's complement names the number back if and only if it is an int64. |
| OtlpWire.WireFormat | hub/gateway/otlp-protobuf.ts:30-75 | The wire format by example: tag bytes of each wire type, a two-byte varint, and little-endian order. |
| OtlpValue.EncodeAnyValue | hub/gateway/otlp-protobuf.ts:145-163 | The recursive encoder pushes the encoding of the whole tree. |
| OtlpValue.EncodeArrayValue | hub/gateway/otlp-protobuf.ts:165-169 | An array's members, in order. |
| OtlpValue.EncodeKvList | hub/gateway/otlp-protobuf.ts:171-175 | A list's pairs, in order. |
| OtlpValue.EncodeKeyValue | hub/gateway/otlp-protobuf.ts:177-182 | A pair's key and value. |
| OtlpValue.DecodeEncodedValue | hub/gateway/otlp-protobuf.ts:145-182 | A reference decoder of AnyValue returns every finite tree of strings, bools, integers, doubles, bytes, arrays and lists, integers reduced to int64. |
| OtlpValue.RoundTrip | hub/gateway/otlp-protobuf.ts:145-182 | The round trip is exact if and only if all integers are int64 values. |
| OtlpChunks.VarintSize | hub/gateway/otlp-protobuf.ts:339-347 | The loop computes the length of the varint without writing it. |
| OtlpChunks.RecordFieldSize | hub/gateway/otlp-protobuf.ts:351-353 | The accounted size is exactly what the record's field takes. |
| OtlpChunks.BuildRequest | hub/gateway/otlp-protobuf.ts:357-377 | The request is one resource with one scope and the given records, with the schema fields that are there. |
| OtlpChunks.RequestSize | hub/gateway/otlp-protobuf.ts:402-409 | A request's length is base plus field sizes plus the growth of the two outer length prefixes. |
| OtlpChunks.ChunkBound | hub/gateway/otlp-protobuf.ts:402-415 | A group that fits its accounted size exceeds the budget by at most 8 bytes, by at most 4 below 2 MiB. |
| OtlpChunks.DecodesBack | hub/gateway/otlp-protobuf.ts:357-377 | Decoding a chunk gives back its resource, scope, records in order, and schemas. |
| OtlpChunks.ChunkScope | hub/gateway/otlp-protobuf.ts:400-437 | The loop divides the sendable records in order into groups that fit, each closed only when the next record would overflow it, and counts the others as dropped. |
| OtlpChunks.ChunkSignal | hub/gateway/otlp-protobuf.ts:392-441 | Every scope of every resource is chunked once, in order, and nothing else is emitted. |
| OtlpChunks.ChunksAreBounded | hub/gateway/otlp-protobuf.ts:392-441 | Each chunk is within the bound (900004 bytes for 900000) and reads back as its group. |
| OtlpChunks.ScopeIsOptimal | hub/gateway/otlp-protobuf.ts:417-436 | Records sent plus dropped are the scope's records, and no in-order division into fitting groups has fewer chunks. |
| OtlpBatch.SentWhen | hub/gateway/otlp-protobuf.ts:417-430 | A record that fits alone is sent as encoded, one that does not is sent shrunk to the room less 64 bytes, and one is dropped exactly when neither fits. |
| OtlpBatch.SentInOrder | hub/gateway/otlp-protobuf.ts:417-434 | The records that are not dropped are sent in order, each once. |
| OtlpBatch.PartReadsBack | hub/gateway/otlp-protobuf.ts:392-441 | The parts are the scopes of the batch in order; each chunk of a part reads as that resource and scope: resource and its schema URL at resource level, scope, records of the group in order and the scope's schema URL at scope level, an absent or empty URL not at all. |
| OtlpBatch.EveryChunkReadsBack | hub/gateway/otlp-protobuf.ts:392-441 | Every chunk of a batch reads as one resource and one of its scopes with a group of that scope's records. |
| OtlpBatch.NothingLostInBatch | hub/gateway/otlp-protobuf.ts:392-441 | Over the whole batch every record is sent or counted as dropped. |
| GreedyPartition.GreedyIsMinimal | hub/gateway/otlp-protobuf.ts:417-436 | A greedy in-order partition has the fewest groups of all that fit. |
| Utf8Text.TruncateUtf8 | hub/gateway/otlp-protobuf.ts:449-456 | Backing off continuation bytes and decoding gives the specified truncation. |
| Utf8Text.TruncatedIsLongestPrefix | hub/gateway/otlp-protobuf.ts:443-456 | The result is within the limit, and is the longest whole-character prefix that fits if and only if no leading byte order mark is cut off. |
| Utf8Text.CutLosesTheMark | hub/gateway/otlp-protobuf.ts:449-456 | A text with a byte order mark whose truncation is no prefix of it. |
| PricingCost.AmountIs | hub/src/pricing.ts:129-299 | A priced row's amount in each class is its billable tokens at the class's rate, batch rates and the cache fallback included. |
| PricingCost.PricedWhen | hub/src/pricing.ts:129-299 | A row is unpriced if and only if its basis is unknown or a class with billable tokens has no rate. |
| PricingCost.SubsetSplitsInput | hub/src/pricing.ts:130-163 | Under subset accounting fresh plus billable cached tokens are the clamped input. |
| PricingCost.SameSignatureSameCost | hub/src/pricing.ts:281-298 | Two rate snapshots with the same signature for a row charge it the same in every class. |
| PricingCharge.ChargedByColumn | hub/src/pricing.ts:129-299 | Class by class, on the columns: a priced row's amount times a million is its tokens times the first rate there is, batch before standard for input and output, the standard input rate for a missing cache read rate, none for cache writes; cached tokens are split off under subset accounting and corrupt counts cost nothing. |
| PricingCharge.UnpricedByColumn | hub/src/pricing.ts:129-239 | With a snapshot a row is unpriced exactly when its basis is unknown or a class with tokens has none of those rates. |
| PricingCharge.FreeByColumn | hub/src/pricing.ts:186-205 | A row costs nothing exactly when its basis is known and it has no tokens; any other row without a snapshot is unpriced. |
| PricingCharge.SignatureByColumn | hub/src/pricing.ts:281-297 | The signature records the rate of each class the row has, and the basis. |
| PricingCharge.RateSetByColumn | hub/src/pricing.ts:249-271 | The reported rate set is what was applied to the classes the row has; cache classes are always standard. |
| PricingGroups.GroupAgrees | hub/src/usage-agg.ts:56-109 | The totals of rows of one shape are unpriced if and only if every row is, with the same rate set and signature. |
| PricingGroups.GroupAmountIsSum | hub/src/usage-agg.ts:56-109 | A group's amount in each class is the exact sum of its rows' amounts, clamps included. |
| PricingGroups.GroupTotalIsSum | hub/src/usage-agg.ts:56-109 | And so is its total. |
| PricingGroups.EpochRefinesTimestamp | hub/src/usage-agg.ts:130-179 | For date-shaped snapshots and canonical timestamps, the pooled epoch finds the snapshot the timestamp finds. |
| PricingGroups.UnknownTimeIsUnambiguous | hub/src/usage-agg.ts:181-217 | Without a timestamp a rate is returned if and only if there is a snapshot and all of them charge the group alike. |
| PricingCharge.SnapshotAtTime | hub/src/pricing.ts:302-309 | At a time, the first snapshot not after it, and the last one when all are after it. |
| PricingCharge.SnapshotWithoutTime | hub/src/pricing.ts:302-305 | No snapshot, no rate; without a timestamp the newest one. |
| PricingCharge.EpochIsLatest | hub/src/usage-agg.ts:130-179 | The epoch of a canonical timestamp is the latest date-shaped snapshot date of any model not after it, or the one before them all; any other timestamp has the unknown epoch. |
| PricingCharge.WhatIsCanonical | hub/src/usage-agg.ts:156-176 | Canonical is UTC with a date and an hour below 24; an offset, an hour of 24 and a bare date are not. |
| TopMerge.TopOfTops | hub/src/pricing-pass.ts:323-346 | The bounded merge of two bounded parts is the bounded whole. |
| PricingSelect.MergeLevel | hub/src/pricing-pass.ts:327-345 | A level of pairwise merges keeps each node the bounded prefix of its part, carries an odd node, and shrinks the level. |
| PricingSelect.MergeTree | hub/src/pricing-pass.ts:323-346 | The root is the bounded prefix of all parts. |
| PricingSelect.RangesAreDue | hub/src/pricing-pass.ts:299-322 | The NULL and timestamp ranges of all versions are the due rows, each once. |
| PricingSelect.SelectCandidates | hub/src/pricing-pass.ts:276-347 | The candidates are the first `limit` due rows by (priced_at, NULL first, id). |
| PricingPass.PriceIgnoresTheRest | hub/src/pricing-pass.ts:163-176 | The compared columns and the epoch determine the price. |
| PricingPass.StoredIsRightIffSameRates | hub/src/pricing-pass.ts:151-201 | The cost a matching write stores is that of the row's present inputs if and only if the model is a sentinel, or the snapshots at the read and the present timestamp have the same rate in every class with billable tokens. |
| PricingPass.OtherModelsDateIsHarmless | hub/src/usage-agg.ts:130-136 | A re-parse across another model's price date changes the epoch and leaves the stored cost right. |
| PricingPass.CasIsHonestIffSameEpoch | hub/src/pricing-pass.ts:151-201 | A matching write leaves both the price and the recorded epoch those of the row's present inputs if and only if its timestamp still selects the epoch that was read. |
| PricingPass.TimestampOnlyReparseGoesStale | hub/src/pricing-pass.ts:151-176 | A row whose re-parse moved only its timestamp is stamped as priced with the old rate's cost. |
| PricingCharge.StoredByColumn | hub/src/pricing-pass.ts:239-257 | A row without a known basis or model has no cost; a sentinel costs nothing; any other has one exactly when the snapshot of its timestamp prices every class it has, and then each class of its own columns at that snapshot's standard rates. |
| PricingCharge.WriteStamps | hub/src/pricing-pass.ts:163-201 | A write stamps the rows whose id, model, basis and counters are those read, at version 3 with a cost and 0 without; their inputs and all other rows stay. |
| PricingCharge.PricedRowsAreCharged | hub/src/pricing-pass.ts:151-201 | In a table kept honest, a row stamped as priced holds what its own columns cost at the snapshot of its timestamp, and that timestamp's epoch. |
| PricingPass.CasKeepsHonest | hub/src/pricing-pass.ts:151-201 | With timestamps fixed every write keeps every stamped price that of the row's present inputs. |
| PricingPass.CountAll | hub/src/pricing-pass.ts:143-150 | The optimistic counts of a read. |
| PricingPass.Settle | hub/src/pricing-pass.ts:226-231 | A lost write moves its own row's count to superseded, and no other row's. |
| PricingPass.QuietWrite | hub/src/pricing-pass.ts:151-176 | Undisturbed, a write matches, and its row is not due again in this pass. |
| PricingPass.SelectUnpriced | hub/src/pricing-pass.ts:276-364 | The rows read are the first due ones, each once; a short read is all of them. |
| PricingPass.UsageTable.Write | hub/src/pricing-pass.ts:163-201 | The compare-and-set of one row, and whether it changed anything. |
| PricingPass.PassRound | hub/src/pricing-pass.ts:130-233 | One read and its writes keep stored prices honest and counts balanced; undisturbed, the rows read are stamped with their own price, each once, and counted. |
| PricingPass.PriceUsage | hub/src/pricing-pass.ts:109-237 | Priced plus unpriceable plus superseded is examined, within the budget, among concurrent re-parses; `more` means the budget was used up. Undisturbed, exactly the examined rows change, each once, to the price of what they held, `priced` is how many have one, and `more` false means nothing due is left. |
| ReindexJobs.CreatedIsGood | hub/src/reindex-range.ts:96-123 | A new job's status says what its preflight found. |
| ReindexJobs.FinalStatusIsHonest | hub/src/reindex-range.ts:63-69 | Complete exactly when all are ready, partial exactly with both kinds, failed exactly with errors and none ready. |
| ReindexJobs.ReconcileKeeps | hub/src/reindex-range.ts:51-71 | Reconciling settles targets only on what was observed and closes the job only when all are settled. |
| ReindexJobs.StepKeeps | hub/src/reindex-range.ts:51-258 | Every step of creation, reconciliation, lease, dispatch and acceptance keeps the job invariant; settled targets and finished jobs do not change, and first dispatch times stay. |
| ReindexJobs.RunKeeps | hub/src/reindex-range.ts:51-258 | So over every run, between any two of its states. |
| ReindexJobs.InvalidationNeedsLease | hub/src/reindex-range.ts:204-256 | A file or session is invalidated only by the step that moves its target to sending under the caller's live lease. |
| ReindexJobs.LiveLeaseExcludes | hub/src/reindex-range.ts:167-205 | While a lease is live no other caller claims, renews, ends it, or dispatches from the job. |
| ReindexOutcomes.UnsentStays | hub/src/reindex-range.ts:13-23 | A target that was never sent stays open whatever the parse and index states say. |
| ReindexOutcomes.SentSettles | hub/src/reindex-range.ts:13-25 | A sent target errs parse_failed exactly when its file or session is in error, parse_not_indexed exactly when its file was otherwise skipped or superseded, turns ready exactly when both were renewed since, and otherwise stays. |
| ReindexOutcomes.OtherFailures | hub/src/reindex-range.ts:13-23 | Each other error code has its own condition on session, file, canonical file, hash, archive and sharing. |
| ReindexOutcomes.SettledStays | hub/src/reindex-range.ts:51-60 | Settled targets and the targets of a finished job stay as they are. |
| ReindexOutcomes.JobCloses | hub/src/reindex-range.ts:61-70 | Reconciling closes a job exactly when it leaves no target open: complete without errors, failed without a ready target, partial with both. |
| ReindexOutcomes.SendsWhen | hub/src/reindex-range.ts:199-220 | A message is sent exactly under a live lease, for a target that may be tried, whose session and file are intact, undecided and not held. |
| ReindexOutcomes.SendingLeaves | hub/src/reindex-range.ts:204-230 | A dispatch that sends marks its target, its file and its session, column by column, and nothing else; the first dispatch time stays and a reason still owed is kept. |
| ReindexOutcomes.NotSendingLeaves | hub/src/reindex-range.ts:204-212 | One that does not send notes the attempt, which a held file blocks, and does nothing without the lease. |
| ReindexOutcomes.AcceptingLeaves | hub/src/reindex-range.ts:245-256 | An acceptance marks the attempt that was sent, clears its reason from a file that still waits with that content, and changes nothing else. |
| ReindexOutcomes.ClaimHolds | hub/src/reindex-range.ts:167-172 | A claim succeeds exactly for a dispatching job without a lease or with an expired one, and holds for five minutes. |
| ReindexOutcomes.RenewalHolds | hub/src/reindex-range.ts:199-203 | A renewal extends a lease still held by five minutes from now and revives none. |
| ReindexOutcomes.ReleaseFrees | hub/src/reindex-range.ts:191-195 | Giving the lease back frees the job at once; another caller's lease stays. |
| ReindexOutcomes.NewJob | hub/src/reindex-range.ts:96-123 | A new job has one target for each selected session with its file and hash, and fails, with all targets erred, exactly when a selected session's file is an archive or shared. |
| ReindexOutcomes.RangeSelects | hub/src/reindex-range.ts:106-107 | A range selects exactly the sessions active at some moment of it. |
| ReindexOutcomes.EligibleAreOpen | hub/src/reindex-range.ts:178-180 | A page is chosen from exactly the targets not in the queue that reconciling leaves open. |
| ReindexOutcomes.PageOrder | hub/src/reindex-range.ts:180-181 | Targets whose file is held come last, then the attempt times decide, then the ids. |
| ReindexRange.SelectPage | hub/src/reindex-range.ts:178-181 | At most ten eligible targets, unblocked and least recently tried first; a short page is all of them. |
| ReindexRange.CreateJob | hub/src/reindex-range.ts:96-123 | The creation batch statement by statement gives the new job. |
| ReindexRange.ReconcileJob | hub/src/reindex-range.ts:51-71 | Both reconciliation statements give the reconciled job, and report whether it finished. |
| ReindexRange.StatementsAreDispatch | hub/src/reindex-range.ts:204-234 | With a token new to the target, the four statements are one dispatch step: all of them take effect or only the note of the attempt. |
| ReindexRange.ReindexDb.CreateReindexRange | hub/src/reindex-range.ts:86-132 | A bad range creates nothing; 422 exactly for a failed preflight. |
| ReindexRange.ReindexDb.Reconcile | hub/src/reindex-range.ts:51-71 | The batch on the stored job. |
| ReindexRange.ReindexDb.Prepare | hub/src/reindex-range.ts:204-236 | There is a message if and only if the target was stamped in this batch; it names the target's file, content and reason. |
| ReindexRange.ReindexDb.Accept | hub/src/reindex-range.ts:245-256 | Only the attempt that is still stamped, under its live lease, is marked as taken by the queue. |
| ReindexRange.ReindexDb.DispatchTarget | hub/src/reindex-range.ts:199-258 | A target is skipped only when the batch would not dispatch it, the lease counts as lost only when it could not be renewed and then nothing changes, enqueued means the acceptance batch ran, and a target that was sent, even rejected, keeps its dispatch time and content. |
| ReindexRange.ReindexDb.ContinueReindexRange | hub/src/reindex-range.ts:167-197 | The call claims the job exactly when it is claimable, tries the selected page in order, each target once with one outcome counted under its name, all of it unless the lease is lost or storage fails, and gives the lease back whenever the database answers. |
| CursorText.CursorRoundTrip | hub/src/api/sessions.ts:257-291 | Decoding an encoded cursor gives the key back for every pair of texts. |
| CursorText.AtobOfBtoa | hub/src/api/sessions.ts:263-273 | Base64 gives every byte sequence back. |
| CursorText.BtoaIsPadded | hub/src/api/sessions.ts:263-267 | Base64 is padded to whole groups of four letters, one for every three bytes. |
| CursorText.ReadEscaped | hub/src/api/sessions.ts:275-284 | A JSON string reads back as the text it was written from, and ends at its own quote. |
| CursorText.JsEscapes | hub/src/api/sessions.ts:257-263 | By example, what JSON.stringify escapes: quotes, backslashes and what is below the blank. |
| CursorText.SpacesIgnored | hub/src/api/sessions.ts:275-284 | Blanks and line breaks anywhere in a cursor's letters are ignored. |
| KeysetWalk.KeyOrderIsTotal | hub/src/api/sessions.ts:334-344 | Start time descending, undated last, and session id order any two keys. |
| KeysetWalk.FetchIsStep | hub/src/api/sessions.ts:293-302 | The first rows of a fetch serve, in order, every eligible row up to the cursor they lead to. |
| KeysetWalk.WalkIsSorted | hub/src/api/sessions.ts:241-256 | Over any changes of the table, the pages of a walk are strictly ordered throughout: no row twice, none out of order. |
| KeysetWalk.SteadyShowsOnce | hub/src/api/sessions.ts:241-256 | A session present throughout with an unchanged key is served once if its key lies between the walk's cursors, and not at all otherwise. |
| KeysetWalk.SteadyAtRest | hub/src/api/sessions.ts:241-256 | In a table at rest every matching session is steady. |
| KeysetWalk.WalksJoin | hub/src/api/sessions.ts:312-318 | Resuming at a cursor continues the walk, whichever form produced it. |
| KeysetWalk.FinishedWalkShowsAll | hub/src/api/sessions.ts:241-256 | A walk that ran out of rows has served every such session exactly once. |
| KeysetWalk.WalkOfListed | hub/src/api/sessions.ts:359-418 | On a table at rest all walks serve the start of one ordered list. |
| KeysetWalk.FinishedWalkIsListed | hub/src/api/sessions.ts:359-418 | Pages and streams of any sizes, followed to the end, serve the same sequence: the ordered list. |
| KeysetList.ClampLimit | hub/src/api/sessions.ts:440-447 | A missing or non-positive limit becomes the default, a fraction below one becomes one, a limit in range is rounded down, and a larger one becomes the maximum. |
| KeysetList.PageQuery | hub/src/api/sessions.ts:344-357 | The first `n` matching rows past the cursor, in order. |
| KeysetFilters.DatedIsListed | hub/src/api/sessions.ts:327-331 | For a range that is not reversed, a dated session is listed exactly when it was active at some moment of it and its columns are the ones asked for; an absent or empty parameter asks for nothing. |
| KeysetFilters.UndatedIsListed | hub/src/api/sessions.ts:327-331 | A session without a start is listed only without an upper bound, and behind a lower bound only for its end. |
| KeysetFilters.ListOrder | hub/src/api/sessions.ts:334-344 | Later starts come first, sessions without a start last, and equal starts go by session id. |
| KeysetFilters.FetchedAreAsked | hub/src/api/sessions.ts:344-357 | A page query serves matching rows past the cursor, in order and at most n; what it leaves out comes after all of them, and only a full page leaves a row out. |
| KeysetFilters.PastIsAfter | hub/src/api/sessions.ts:293-302 | The keyset filter continues exactly behind the row the cursor was made from. |
| KeysetList.SessionsApi.ListJson | hub/src/api/sessions.ts:359-372 | There is a next cursor if and only if a matching row is left, and it decodes to the key of the page's last row. |
| KeysetList.SessionsApi.ListNdjson | hub/src/api/sessions.ts:374-418 | The stream is a walk of at most 300 rows; without a trailer nothing was left at its last query, and a trailer resumes where it stopped. |
| KeysetList.TrailerAtTheCap | hub/src/api/sessions.ts:312-318 | At rest the trailer is there if and only if at least 300 rows match, which differs from the documented condition exactly at 300. |
| KeysetList.TrailerToNothing | hub/src/api/sessions.ts:312-318 | On a table of exactly 300 matching rows the stream serves all of them and still ends with a trailer, after which nothing is left. |

## Left out

- Fleet-wide search: full-text matching, ranking and facets; a rank is an opaque number and each shard's query the sorted hits it denotes.
- SQL query plans and index use: a query is the set or sequence it denotes.
- The calendar: `utcDay`, and that a date exists and a time is well formed; a block carries its day, timestamps are compared as texts or as points of an order.
- Hashes, request bodies, authentication and logging.
- Lone surrogates: text is a sequence of Unicode scalar values, except in `CompareTexts`.
- CursorText.DecodeCursor: cursors whose bytes are not UTF-8 start at the first page in the model; the code substitutes replacement characters and may read a key.
- Floating-point rounding and overflow in costs, and doubles in OTLP beyond their eight bytes.
- OtlpValue.EncodeAnyValue: integers lie strictly below 2^64 and not below -2^64; JSON numbers outside are not modelled.
- The encoders of log records, spans and resources, and the rule that shrinks an oversized record: parameters of `ChunkSignal` with the promises the chunker uses.
- PricingPass.PriceUsage: assumes that timestamps do not change while it runs, because the compare-and-set does not protect against that; see the section on differences.
- The refresh of per-session costs inside the pricing batch, and the counting of rows read.
- PricingCost.AmountIs: rates are non-negative exact numbers.
- RollupPass.RollupStore.RollupPage: the model value of a turn comes from the usage table, held fixed for a generation.
- RollupProtocol.ReadyAfterFinitelyManyWins: counts winning pages; that some worker eventually wins is left to the scheduler.
- Heartbeat.SendQueue: a crash is modelled by a budget of durable calls the process survives; time and process identity are not modelled.
- The status view of a reindex job (`getReindexRange`): sums over the classification.
- ReindexRange.ReindexDb.ContinueReindexRange: leases are compared with clock readings that are unconstrained, and a queue rejection is taken as final although the message may have arrived.
- The base64 text of search's offset cursor.
- The day range of a session list: `normalizeToBound` and the freshness figure `indexed_through`.
- Loading the transcript of each NDJSON row, whose failure is written as a null session.
- KeysetWalk.SteadyShowsOnce: says nothing of a session whose start time changes during the walk; it may be served twice or not at all.
