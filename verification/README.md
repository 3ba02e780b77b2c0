# Verification of the MapReduce engine and three companion algorithms

This project is a Dafny model of the vendored App Engine MapReduce engine under `server/mapreduce`, together with three
self-contained algorithms of the same repository, and a proof of what they promise. Every object the Python code updates in
place (readers, quota consumers, counters, the controller's job state) is a class with the same fields; every loop is a loop;
each method is proved against a specification function, and the promises are theorems about those functions. The job
protocol is a transition system in which every datastore call is a step of its own.

| file | models |
|---|---|
| `Foundations.dfy` | results and errors, the order of byte strings, sorting |
| `RecordMerge.dfy`, `MergingReader.dfy`, `ReducerReader.dfy`, `Shuffle.dfy` | the shuffle: hash, batched sort, heap merge with limits and checkpoints, regrouping |
| `NamespaceOrdinals.dfy`, `NamespaceRanges.dfy`, `NamespaceSplit.dfy` | numbering of namespaces, ranges, the worklist splitter |
| `LineReader.dfy`, `ZipLineReader.dfy` | line input from blobs and from archives: sharding and checkpoints |
| `DatastoreSharding.dfy`, `KeyRangeReader.dfy`, `NamespaceReader.dfy`, `NamespaceShards.dfy` | datastore input: split points, key ranges, namespace iteration, sharding by namespace |
| `Quota.dfy` | the shared quota counter under interleaving, and one worker slice among other clients |
| `Counters.dfy`, `JobProtocol.dfy`, `JobHandlers.dfy`, `JobProgress.dfy` | counters; worker, controller and kickoff as a transition system; the handlers' own statements; what a job reaches without faults |
| `Flags.dfy` | unique-prefix abbreviation of boolean flags |
| `Patch.dfy` | JSON patches and MergePatch of section 2 of RFC 7396 |
| `SliverTools.dfy` | one host per site; agreement of memcache and datastore |

`dafny verify dfyconfig.toml` checks everything.

## Main results

- **Shuffle.** At every yield the merge's offsets stand exactly behind the records already emitted, so any chain of
  checkpoints and restores yields the uninterrupted sequence of groups. The whole pipeline reduces every key once, in the
  shard of its hash, with its exact multiset of values, and the reader's assertion never fires.
- **Namespaces.** The numbering is an order-preserving bijection for every alphabet and length. `split` gives as many ranges
  as asked for while there are namespaces enough, tiles the name space when asked for contiguous ranges, and never raises
  the start > end error.
- **Input.** Splitting an input and running every reader in slices of its own yields every line, entity and namespace once.
  Where the code falls short the exact condition is proved: a blob is sharded correctly if and only if it is empty, has one
  shard or is at least as long as its shard count; a line checkpoint restores if and only if it was not taken at position 1;
  an archive is read correctly if and only if each entry has the lines of the last entry of its name, because entries are
  listed one by one but read by name; a reduce-side checkpoint restores if and only if no key was pending.
- **Job protocol.** In every run, with crashes, retries and overlapping executions of every handler, a queued slice starts
  behind durable items only, and a successful shard or job has had every item of its readers handled. A successful job has
  handled the whole input if and only if the readers that won slice 0 of their shards cover it; a run in which a retried
  kickoff splits differently and an item is lost is given. Without faults every job ends in success. A stopped shard is revived exactly by a kickoff that creates
  shards from a stale list; again with a run.
- **Quota.** The balance of the bucket holds in every interleaving if and only if clients times batch do not exceed the
  offset. Among any other clients a slice uses exactly one unit for each entity it processes.
- **Flags, patches, hosts.** Abbreviations are the shortest unambiguous ones and the expanded arguments are independent of
  dictionary order if and only if no two boolean flags are called x and nox. A patch turns original into modified for
  exactly the pairs described by `Good`. Each host of a round-robin site has chance 1/n, and the choice of hosts depends on
  the tools alone if and only if no two different hosts of one site take turns or share the least name.

## Where code and comments disagree

- `server/mapreduce/mapreduce_pipeline.py:106-107` clears the pending key that `from_json` has just restored; the model
  follows the code (`ReducerReader.ResumeExactlyWhenNothingPending`).
- `server/mapreduce/input_readers.py:276` reverses the key ranges so that they are processed in order. That holds for a
  reader just built; each checkpoint stores the stack as it is, so every restore reverses the order of what is left. The
  entities are the same (`KeyRangeReader.KeyRangeInputReader.ToJson`).
- `server/mapreduce/namespace_range.py:373-376` guards against an empty list of ranges in the contiguous branch. The
  worklist never becomes empty (`NamespaceSplit.SplitWorklist` returns at least one range), so that branch is dead.
- `server/mapreduce/namespace_range.py:244-258` answers a start after the very last namespace with the index error of the
  character table, not with the documented `ValueError` (`NamespaceRanges.WithStartAfter`).
- `ShardState.RESULT_FAILED` is read by the controller but assigned nowhere in `server/mapreduce/handlers.py`; a job fails
  only when shards are missing or were aborted without an abort command being read (`JobProtocol.StoredResults`,
  `JobProtocol.FailedWrite`).
- `server/mapreduce/handlers.py:706-708` calls it safe to run a kickoff again. It is if all kickoffs split the input alike
  (`JobProtocol.OneSplitIsHandled`), not otherwise (`JobProtocol.DifferentSplitsLoseItems`), and a retry that looked for
  existing shards too early revives a stopped one (`JobProtocol.StaleKickoffRevives`).

## Model

| member | source | states |
|---|---|---|
| RecordMerge.MergedConserves | server/mapreduce/shuffler.py:266-328 | the merged stream is, as a multiset, exactly what lies behind the offsets of all files |
| RecordMerge.MergedSorted | server/mapreduce/shuffler.py:266-328 | key-sorted files merge into a stream with non-decreasing keys |
| RecordMerge.ReleasesLeast | server/mapreduce/shuffler.py:273-274 | the next record is one at the offset of some file, and none at an offset has a smaller key, or for that key a smaller value |
| RecordMerge.GroupsLaws | server/mapreduce/shuffler.py:276-303 | grouping loses and reorders nothing; a group is partial exactly when the next one has its key, is not closed before a limit is hit and not filled past one |
| RecordMerge.GreedyIsUnique | server/mapreduce/shuffler.py:276-303 | those laws determine the grouping: any two groupings that obey them are equal |
| RecordMerge.GroupBounds | server/mapreduce/shuffler.py:276-303 | with positive limits a group has at most max_values_count values, and all but its first value stay below max_values_size; a limit of 0 makes every group single |
| RecordMerge.CutOnlyAtALimit | server/mapreduce/shuffler.py:285-294 | a partial group has at least max_values_count values, that limit not being -1, or with the next value at least max_values_size, that limit not being -1 |
| RecordMerge.UnlimitedGroups | server/mapreduce/shuffler.py:285-294 | with both limits -1 no group is partial and neighbouring groups have different keys |
| MergingReader.MergingReader.constructor | server/mapreduce/shuffler.py:226-240 | a reader holds the offsets and limits it is given or restored with |
| MergingReader.MergingReader.ToJson | server/mapreduce/shuffler.py:331-341 | the checkpoint is the offsets and limits |
| MergingReader.MergingReader.Iter | server/mapreduce/shuffler.py:248-262 | fails exactly when the numbers of offsets and files differ; otherwise the heap fits files and offsets |
| MergingReader.MergingReader.ReadNext | server/mapreduce/shuffler.py:305-324 | the top file's offset moves behind the record on top and the heap again holds one entry for every file with records left |
| MergingReader.MergingReader.Next | server/mapreduce/shuffler.py:242-328 | a yield is the first remaining group, the records before the offsets are exactly those emitted, and what remains is the rest |
| MergingReader.RunSlice | server/mapreduce/shuffler.py:242-341 | a fresh reader stopped after any number of yields leaves a checkpoint from which the rest of the groups follows |
| MergingReader.RunSlices | server/mapreduce/shuffler.py:245-246 | any chain of slices emits the first groups of the uninterrupted sequence, as many as the slices had time for unless all records are through, and the last checkpoint stands for exactly the remainder |
| ReducerReader.ReduceLaws | server/mapreduce/mapreduce_pipeline.py:97-149 | over well-formed groups the assertion never fires, keys change from pair to pair, and the pairs flatten to the records |
| ReducerReader.EventPerGroup | server/mapreduce/mapreduce_pipeline.py:141-149 | one yield for each group read: a checkpoint for a partial one, else the finished key |
| ReducerReader.ResumeExactlyWhenNothingPending | server/mapreduce/mapreduce_pipeline.py:106-107 | resuming behind a group gives the remaining pairs if and only if no key was pending there |
| ReducerReader.ResumeMidKeyLosesValues | server/mapreduce/mapreduce_pipeline.py:106-107 | a concrete resume in the middle of a key that loses values |
| ReducerReader.ReduceFiles | server/mapreduce/mapreduce_pipeline.py:113-149 | reducing one file after another carries only the pending key across the border |
| ReducerReader.ReducerReader.ReadRecord | server/mapreduce/input_readers.py:1624-1647 | the next record of the unfinished files, none skipped or repeated |
| ReducerReader.ReducerReader.Next | server/mapreduce/mapreduce_pipeline.py:97-149 | each step yields the next event of the reduction of what is unread |
| Shuffle.HashStage | server/mapreduce/shuffler.py:467-495 | each record lands in the file of its key's hash, as often as it occurs in the input |
| Shuffle.FileIndexIs | server/mapreduce/shuffler.py:485 | the number of the file differs from the key's hash by a multiple of the number of files |
| Shuffle.Batches | server/mapreduce/shuffler.py:83-97 | the batches concatenate to the file; each passes the batch size with its last record only, and only the last may stay below |
| Shuffle.SortChunks | server/mapreduce/shuffler.py:100-139 | the sorted chunks hold exactly the records of the file and each is in key order |
| Shuffle.MergeStage | server/mapreduce/shuffler.py:527-559 | running the merging reader to its end yields all remaining groups from offset zero |
| Shuffle.ReduceStage | server/mapreduce/mapreduce_pipeline.py:97-149 | running the reduce-side reader to its end yields the whole reduction |
| Shuffle.ShardResult | server/mapreduce/shuffler.py:670-684 | the merged and reduced chunks of a shard give ascending keys with the shard's exact multiset of records |
| Shuffle.ShuffleCorrect | server/mapreduce/shuffler.py:670-684 | over all shards every input key appears once, in the shard of its hash, with exactly its multiset of values, and nothing else appears |
| Shuffle.ShuffleAndReduce | server/mapreduce/shuffler.py:670-684 | the stages run one after the other reach that result for every hash, batch size and limits |
| NamespaceOrdinals.SetupConstants | server/mapreduce/namespace_range.py:36-73 | the loop's table holds, for each length, the number of strings up to it |
| NamespaceOrdinals.NamespaceToOrd | server/mapreduce/namespace_range.py:109-130 | the accumulating loop computes the recursive numbering |
| NamespaceOrdinals.NamespaceRoundTrip | server/mapreduce/namespace_range.py:77-130 | turning a namespace into its number and back gives the namespace |
| NamespaceOrdinals.OrdinalRoundTrip | server/mapreduce/namespace_range.py:77-130 | turning a number below the count into a namespace and back gives the number |
| NamespaceOrdinals.OrdinalOrder | server/mapreduce/namespace_range.py:77-130 | numbers compare as the namespaces do lexicographically, in both directions |
| NamespaceOrdinals.OrdinalsAreABijection | server/mapreduce/namespace_range.py:77-130 | the numbers below the count and the strings up to the maximum length correspond one to one |
| NamespaceOrdinals.MaxNamespaceIsLast | server/mapreduce/namespace_range.py:45-47 | MAX_NAMESPACE is the last namespace in that order |
| NamespaceRanges.SplitRangePartitions | server/mapreduce/namespace_range.py:207-227 | the two halves together contain each namespace of the range exactly once |
| NamespaceRanges.WithStartAfter | server/mapreduce/namespace_range.py:244-258 | succeeds exactly when a namespace of the range follows, then starts right behind it; the index error comes exactly for the last namespace |
| NamespaceRanges.NormalizedStart | server/mapreduce/namespace_range.py:278-295 | the range cut at its first existing namespace, none exactly when it holds none |
| NamespaceSplit.SplitWorklist | server/mapreduce/namespace_range.py:347-370 | terminates, returns between 1 and n sorted disjoint ranges, exactly n unless all are single namespaces, loses no namespace the datastore keeps reporting, and without queries makes no range larger than twice another plus two |
| NamespaceSplit.Stitch | server/mapreduce/namespace_range.py:371-394 | ascending ranges are extended to adjacent ones from the first to the last namespace, without raising |
| NamespaceSplit.TilingPartitions | server/mapreduce/namespace_range.py:371-394 | in such a result every namespace lies in exactly one range |
| NamespaceSplit.Split | server/mapreduce/namespace_range.py:316-394 | raises exactly for n below 1; at most n ascending ranges; contiguous ones tile the name space whatever is answered; over an unchanging datastore with all queries answered there are n ranges, or one for each existing namespace if those are fewer, and each holds an existing namespace; without queries there are n, or one for each namespace there can be |
| LineReader.SplitBlob | server/mapreduce/input_readers.py:897-914 | the chunks of a blob are the byte ranges between the chunk boundaries, the last one ending at the blob's size |
| LineReader.SplitInput | server/mapreduce/input_readers.py:890-914 | the readers of every blob in turn, with shard_count divided by the number of keys given (at most 256, at least one each) |
| LineReader.ShardsPerBlobIs | server/mapreduce/input_readers.py:897-900 | the shards of a blob times the number of keys stay within the shard count and 256, with no room for one more each, unless there is one shard only |
| LineReader.ShardsYieldEachLineOnce | server/mapreduce/input_readers.py:783-821 | the readers of the shards together yield every line once and in order if and only if the blob is empty, has one shard or is at least as long as its shard count |
| LineReader.LinesRejoin | server/mapreduce/input_readers.py:804-821 | the lines joined with newlines give the blob back, up to a newline at its very end |
| LineReader.LinesStand | server/mapreduce/input_readers.py:804-821 | every line stands in the blob at the offset it is yielded with, behind a newline, and contains none |
| LineReader.LineInputReader.Next | server/mapreduce/input_readers.py:804-821 | each call yields the next offset and line of the range, the first partial line skipped |
| LineReader.CheckpointRestores | server/mapreduce/input_readers.py:823-842 | a checkpoint at a line boundary stands for exactly the remaining lines if and only if it was not taken at position 1 |
| LineReader.FirstLineTwice | server/mapreduce/input_readers.py:823-830 | a blob whose first line is read twice after a checkpoint at position 1 |
| LineReader.RunSlice | server/mapreduce/input_readers.py:804-842 | one slice yields the first lines of what is stored, as many as it had time for unless the input ran out, and stores exactly the rest |
| LineReader.RunSlices | server/mapreduce/input_readers.py:804-842 | any sequence of slices yields the first lines of the uninterrupted output, as many as the slices had time for unless the input ran out, and the stored state stands for the rest |
| LineReader.RunInput | server/mapreduce/input_readers.py:804-914 | for blobs that do not begin with a line of one byte, splitting them all and running every reader in slices of its own: a reader given time for more than it has runs out, and when all have, the output is every line of every blob once and in order if and only if each blob is empty, unsharded or at least as long as its shard count |
| ZipLineReader.SplitArchive | server/mapreduce/input_readers.py:1194-1220 | consecutive entry ranges that cover every entry with content of its own; each ends with the entry that takes it to the size per shard, only the last may stay below |
| ZipLineReader.LastNamesake | server/mapreduce/input_readers.py:1240-1241 | what is read for an entry is the content of the last entry of its name |
| ZipLineReader.SplitYieldsEachLineOnce | server/mapreduce/input_readers.py:1166-1259 | the readers of an archive together yield every line of every entry once and in order if and only if each entry has the lines of its last namesake |
| ZipLineReader.DistinctNamesAreRead | server/mapreduce/input_readers.py:1166-1259 | with distinct names the readers yield every line of every entry once and in order |
| ZipLineReader.FirstNamesakeNeverRead | server/mapreduce/input_readers.py:1240-1241 | with two entries of one name the second is read twice and the first never, however the archive is split |
| ZipLineReader.ZipLineInputReader.Next | server/mapreduce/input_readers.py:1222-1259 | each call yields the next line of what is read for the entries, moving to the next entry at the end of one |
| ZipLineReader.CheckpointRestores | server/mapreduce/input_readers.py:1261-1299 | a checkpoint inside a member restores the remaining lines exactly when its position is not 1 |
| ZipLineReader.RunSlices | server/mapreduce/input_readers.py:1222-1299 | any sequence of slices yields the first lines of the uninterrupted output, as many as the slices had time for unless the input ran out, and the stored state stands for the rest |
| ZipLineReader.RunArchive | server/mapreduce/input_readers.py:1166-1299 | for entries that do not begin with a line of one byte, splitting an archive and running every reader in slices of its own: when all have run out, the output is every line of every entry once and in order if and only if each entry has the lines of its last namesake |
| DatastoreSharding.SplitIndicesAscend | server/mapreduce/input_readers.py:384-390 | with at least as many keys as shards the chosen indices are strictly increasing and in bounds |
| DatastoreSharding.SplitIndexIsNearest | server/mapreduce/input_readers.py:388-390 | the i-th index is the one nearest to i times the length over the shard count, halves up |
| DatastoreSharding.ChooseSplitPoints | server/mapreduce/input_readers.py:384-390 | one key fewer than shards, ascending, each taken at its index |
| DatastoreSharding.BetweenPartitions | server/mapreduce/input_readers.py:432-465 | the ranges between ascending split points hold each key in exactly one of them |
| DatastoreSharding.SplitFromNamespace | server/mapreduce/input_readers.py:395-465 | exactly shard_count entries that partition the keys, Nones only at the end; one whole range for one shard or no sampled key, else ranges that meet at the sampled keys, or at shard_count - 1 of them at the nearest indices |
| DatastoreSharding.RoundRobin | server/mapreduce/input_readers.py:468-491 | shard j gets every n-th entry from j on, in order, and no range is lost or doubled |
| KeyRangeReader.AdvanceDropsFirst | server/mapreduce/input_readers.py:363-375 | advancing a range past its first entity leaves exactly the others |
| KeyRangeReader.StackPermutes | server/mapreduce/input_readers.py:593-663 | the entities of a stack of ranges do not depend on the order of the ranges |
| KeyRangeReader.KeyRangeInputReader.constructor | server/mapreduce/input_readers.py:249-281 | the reader reverses the stored list into a stack, stands for the same entities and reads the ranges in the order in which they were given |
| KeyRangeReader.KeyRangeInputReader.ToJson | server/mapreduce/input_readers.py:593-625 | the serialised state stands for exactly the entities still to come, although the next restore reverses it |
| KeyRangeReader.KeyRangeInputReader.Next | server/mapreduce/input_readers.py:315-333 | each step yields the first remaining entity and leaves the others |
| KeyRangeReader.RunSlices | server/mapreduce/input_readers.py:593-663 | over any sequence of slices what was yielded plus what is stored is what was there at the start, and as many entities are yielded as the slices had time for unless none are left |
| KeyRangeReader.PartitionYields | server/mapreduce/input_readers.py:432-465 | ranges that partition a namespace's keys yield each of its entities once |
| KeyRangeReader.SplitFromParams | server/mapreduce/input_readers.py:468-491 | one reader per shard, none without namespaces; together they yield every entity of the given namespaces once |
| KeyRangeReader.AllItemsOnce | server/mapreduce/input_readers.py:468-491 | for distinct namespaces that is every entity of theirs exactly once and nothing else |
| KeyRangeReader.RunShards | server/mapreduce/input_readers.py:468-491 | splitting and then running every shard in slices of its own: when all have run out, every entity of the given namespaces was yielded exactly once |
| NamespaceReader.ExistingLists | server/mapreduce/namespace_range.py:278-295 | repeated first-existing queries list precisely the existing namespaces of a range, ascending |
| NamespaceReader.VisitYields | server/mapreduce/input_readers.py:335-361 | a visit yields every entity of every namespace of its list exactly once and one checkpoint for each namespace |
| NamespaceReader.NamespaceRangeReader.Next | server/mapreduce/input_readers.py:335-361 | each step yields the next entity in namespace order and terminates by the distance to the end; with_start_after is never asked past the end of the range |
| NamespaceReader.RunSlices | server/mapreduce/input_readers.py:335-361 | any sequence of slices yields the first steps of one visit of every existing namespace of the range, as many as the slices had time for unless the generator ended, and the stored state stands for the rest |
| NamespaceShards.ShardsVisitEachOnce | server/mapreduce/input_readers.py:335-361 | the readers of contiguous ranges together visit every existing namespace exactly once, in lexicographic order |
| NamespaceShards.RunNamespaces | server/mapreduce/input_readers.py:570-578 | splitting all namespaces into contiguous ranges and running every reader in slices of its own: when all have run out, every existing namespace was visited exactly once, in order, whatever the datastore answered while splitting |
| Quota.StepKeepsBalance | server/mapreduce/quota.py:50-85 | every atomic step of every client keeps bucket plus owed equal to refilled minus taken, never negative, while clients times batch stay below the offset |
| Quota.RunKeepsBalance | server/mapreduce/quota.py:50-85 | so does every interleaving |
| Quota.BalancedExactly | server/mapreduce/quota.py:50-85 | the balance holds at every point of every run of n clients if and only if n times batch does not exceed the offset; past it n first attempts on an untouched bucket break it |
| Quota.TakeIsExactWithoutClamp | server/mapreduce/quota.py:73-85 | a decrement keeps the balance if and only if it does not reach below zero |
| Quota.RunKeepsAccounts | server/mapreduce/handlers.py:158-195 | in every interleaving each client has used one unit per entity processed plus those in hand, and after dispose holds and owes nothing |
| Quota.DisposedBucket | server/mapreduce/quota.py:180-185 | when all clients have disposed, the bucket is down by exactly the entities processed, plus one for each slice an exception stopped with a unit in hand |
| Quota.QuotaManager.Consume | server/mapreduce/quota.py:60-85 | the client ends up holding exactly the grant decided by the counter behind its own decr, whatever others do in between; undisturbed it gets all, or if asked for what there is |
| Quota.QuotaConsumer.Consume | server/mapreduce/quota.py:135-153 | on success exactly the amount comes into hand, on failure nothing, among any other clients; undisturbed it succeeds exactly when enough is available |
| Quota.QuotaConsumer.Check | server/mapreduce/quota.py:163-178 | changes nothing of the client; undisturbed it tells exactly whether enough is available |
| Quota.QuotaConsumer.Dispose | server/mapreduce/quota.py:180-185 | everything held goes back and nothing is owed; undisturbed the bucket has all that was available |
| Quota.ScanSlice | server/mapreduce/handlers.py:158-195 | among any other clients and refills, one slice ends with as many units used as entities processed and nothing held, owed or in hand; undisturbed the bucket is down by just that, and the slice finishes exactly when there is a unit more than entities and time was never up |
| Counters.CountersMap.IncrementBy | server/mapreduce/model.py:256-269 | one counter changes by delta, its new value is returned |
| Counters.CountersMap.AddMap | server/mapreduce/model.py:271-281 | pointwise sum, in whatever order the dictionary has |
| Counters.CountersMap.SubMap | server/mapreduce/model.py:283-293 | pointwise difference |
| Counters.AggregateState | server/mapreduce/handlers.py:449-464 | whatever the job's counters were, they become the pointwise sum over the shards |
| JobProtocol.StepIsSafe | server/mapreduce/handlers.py:109-239 | every step of every handler keeps the safety invariant, whatever the others are doing |
| JobProtocol.SuccessMeansHandled | server/mapreduce/handlers.py:296-353 | in every run, with kickoffs that may split differently, every queued slice has the reader that won its shard and durable items before its position, and a successful shard or job has every item of the winning readers handled |
| JobProtocol.SuccessCoversExactly | server/mapreduce/handlers.py:706-743 | a successful job has handled the whole input if and only if the readers that won slice 0 of their shards cover it |
| JobProtocol.OneSplitIsHandled | server/mapreduce/handlers.py:706-743 | if all kickoffs split alike, a successful job has handled exactly the items of their split |
| JobProtocol.DifferentSplitsLoseItems | server/mapreduce/handlers.py:706-743 | a run in which a kickoff stops, its retry splits the other way round, the job succeeds and an item both splits cover is never handled |
| JobProtocol.EnqueueOk | server/mapreduce/handlers.py:307-353 | adding a slice under its unique name keeps positions growing with slice numbers and durable behind |
| JobProtocol.ControllerDecides | server/mapreduce/handlers.py:389-427 | what the controller makes of its reads: active, aborted, success exactly if every shard was present, stopped and successful, else failure; it sends abort exactly on a loss |
| JobProtocol.ControllerCounters | server/mapreduce/handlers.py:449-464 | the counters written are the pointwise sum over the shards seen |
| JobProtocol.StoredResults | server/mapreduce/handlers.py:130-239 | in every run a stored inactive shard has succeeded or was aborted, and an active one has no result |
| JobProtocol.FailedWrite | server/mapreduce/handlers.py:389-427 | in every run a controller ends an active job in failure exactly if it read no abort command and saw a shard missing, or all stopped and some aborted |
| JobProtocol.StoppedStayExactly | server/mapreduce/handlers.py:218-229 | until cleanup, a step revives a stopped shard exactly if it creates shards from a list that misses a stopped one |
| JobProtocol.StoppedForever | server/mapreduce/handlers.py:705-723 | in a run with atomic kickoffs a stored inactive shard never becomes active again before cleanup |
| JobProtocol.SuccessfulWrite | server/mapreduce/handlers.py:380-464 | when a controller ends a job in success it read no abort, every shard was and still is stopped and present, and every item was handled |
| JobProtocol.StaleKickoffRevives | server/mapreduce/handlers.py:714-723 | a run in which a retried kickoff makes a successful shard active again |
| JobProgress.RescheduleQueues | server/mapreduce/handlers.py:235-239 | in every safe state an active worker's last step leaves its next slice on the queue, with its reader and, if the name is new, its position |
| JobProgress.AbortStops | server/mapreduce/handlers.py:136-146 | a worker that saw the abort command stores its shard as stopped and aborted and repeats the command |
| JobProgress.AbortedStartHandlesNothing | server/mapreduce/handlers.py:136-146 | in every run an execution that starts after an abort command was stored handles no item and commits nothing |
| JobProgress.StartReads | server/mapreduce/handlers.py:111-133 | an execution for a missing or stopped shard ends at once; any other works on the stored state and the queued reader and position, and notes the abort command exactly if it is stored |
| JobProgress.StopsWhenStopped | server/mapreduce/handlers.py:218-239 | a worker that finds its shard stopped writes nothing and queues no further slice; nor does one whose scan has ended |
| JobProgress.AbortedOnlyOnCommand | server/mapreduce/handlers.py:136-146 | in every run a shard is stored as aborted only after an abort command was stored |
| JobProgress.ControllerReadsStored | server/mapreduce/handlers.py:378-389 | the controller decides on the job, command and shards that are stored when it reads them |
| JobProgress.CleanedUpOnlyWhenEnded | server/mapreduce/handlers.py:437-441 | in every run the job is cleaned up only after a controller has ended it |
| JobProgress.KickoffResets | server/mapreduce/handlers.py:628-633 | a kickoff overwrites the job's state with a new active one, whatever it was |
| JobProgress.ControllerSends | server/mapreduce/handlers.py:390-441 | the abort command is stored exactly if it was or a shard of an active job is missing; a job that ended is cleaned up |
| JobProgress.ShardSucceeds | server/mapreduce/handlers.py:109-239 | for every reader and all slice lengths that add up to it, the fault-free slices end with the shard stored as successful, every item durable and counted, and nothing else touched |
| JobProgress.JobSucceeds | server/mapreduce/handlers.py:621-671 | for every split and all such slice lengths, the fault-free job ends in success with every shard successful, every item durable and as many handler calls counted as items |
| JobHandlers.MapreduceState.Supervise | server/mapreduce/handlers.py:389-431 | the controller's statements on its job entity compute the protocol's decision |
| JobHandlers.Slice.Scan | server/mapreduce/handlers.py:165-195 | the scan handles the items from its position on, one after the other, none after quota or time ran out, and marks success exactly when both lasted up to and behind the last item |
| JobHandlers.AfterItemsIs | server/mapreduce/handlers.py:241-279 | after k items the position has grown by k, the pending items by exactly the next k of the reader, and the call counter by k |
| JobHandlers.ItemsAreSteps | server/mapreduce/handlers.py:165-195 | such a scan is that many steps of the protocol |
| Flags.ShortestUniquePrefixes | server/gflags.py:1487-1521 | each name of the table and each no-name gets its shortest prefix that begins no other entry, or itself |
| Flags.ShortestIsUnique | server/gflags.py:1487-1521 | that description determines the prefix |
| Flags.PrefixOfAnotherStaysWhole | server/gflags.py:1517-1520 | a name that begins another entry keeps its full length |
| Flags.CutIsShortest | server/gflags.py:1506-1521 | in sorted order the common prefixes with the two neighbours decide against all entries |
| Flags.StartsWithinAbbreviates | server/gflags.py:1238-1242 | the test against the shortest prefix accepts exactly the unambiguous prefixes and the whole name |
| Flags.NoArgumentAbbreviatesTwo | server/gflags.py:1238-1242 | no argument matches two different entries |
| Flags.ExpandBooleans | server/gflags.py:1223-1242 | every argument but the first is rewritten in place as its abbreviation demands, the others stay; in a dictionary without collisions an abbreviation of x becomes --x=true, one of nox --x=false, and anything else is unchanged |
| Flags.OutcomeIsTheOneHit | server/gflags.py:1223-1242 | without a collision an abbreviation of a flag x becomes --x=true and one of its no-name --x=false |
| Flags.OrderFreeExactly | server/gflags.py:1223-1242 | the expanded arguments are independent of dictionary order if and only if no two boolean flags are called x and nox (without an equals sign in the name) |
| Patch.MakePatch | server/apiclient/model.py:325-366 | the two loops compute the patch, and fail exactly when a differing object member is no object in modified, save an empty one replaced by an empty string or list |
| Patch.PyEqExactly | server/apiclient/model.py:352 | the comparison holds exactly for trees that differ in nothing but booleans standing for 1 and 0, so without booleans it is equality |
| Patch.KeptObjectsDoNotRaise | server/apiclient/model.py:349-358 | it does not fail while objects stay objects or vanish |
| Patch.ReplacedObjectRaises | server/apiclient/model.py:349-358 | an object with members that turns into a text, a number or a list makes it fail |
| Patch.PatchCorrectExactly | server/apiclient/model.py:325-366 | makepatch succeeds with a patch that MergePatch applies to original to give modified if and only if no visited member is null, no object is replaced by something else and no copied value has null members |
| Patch.PlainPatchCorrectExactly | server/apiclient/model.py:325-366 | for trees without booleans the patch gives back modified itself for exactly those pairs, and is empty exactly if the two are equal and have no null member |
| Patch.PlainTreesAreGood | server/apiclient/model.py:325-366 | that covers all trees without null members in which objects stay objects |
| Patch.EmptyPatchExactly | server/apiclient/model.py:349-366 | the patch is empty if and only if the two are equal and have no null member |
| SliverTools.FilterByStatus | server/mlabns/db/sliver_tool_fetcher.py:13-44 | exactly the tools whose IPv4, IPv6 or either status field has the value asked for, as often as given, in order |
| SliverTools.ChooseOneHostPerSite | server/mlabns/db/sliver_tool_fetcher.py:52-95 | one tool for each site, the one the replacement rule leads to under the given draws |
| SliverTools.EqualChances | server/mlabns/db/sliver_tool_fetcher.py:58-90 | each of the n hosts of a round-robin site is chosen with probability 1/n, wherever other sites stand in between |
| SliverTools.ListedAreMinima | server/mlabns/db/sliver_tool_fetcher.py:91-94 | without turns the choice of a site is its host of least name |
| SliverTools.DeterminedExactly | server/mlabns/db/sliver_tool_fetcher.py:52-95 | the choice is independent of order and draws if and only if no two different hosts of a site take turns or share the least name |
| SliverTools.FetchFromMemcache | server/mlabns/db/sliver_tool_fetcher.py:173-214 | nothing for a metro query or an empty cache, else cached tools of the country and status asked for: all of them, or one of each site that has any |
| SliverTools.FetchFromDatastore | server/mlabns/db/sliver_tool_fetcher.py:220-260 | stored tools of the name, metro, country and status asked for: all of them, or one of each site that has any |
| SliverTools.CacheAgrees | server/mlabns/db/sliver_tool_fetcher.py:147-260 | an answer from memcache holds the hosts an answer from the datastore would hold |
| SliverTools.Fetch | server/mlabns/db/sliver_tool_fetcher.py:147-167 | memcache answers whenever it holds a fitting tool and there is no metro, else the datastore; with the same tools on both sides and settled sites every query gets the datastore's hosts, up to their order |

## Left out

- App Engine services: the datastore, memcache, the queues, the blobstore and the Files API appear only as atomic
  operations, uniquely named queue entries and sequences of records or bytes. Memcache calls that answer None are not modelled.
- heapq is taken by contract: the heap is a list in sorted order, and replace and pop take its first element.
- Records carry no framing: a record file is a sequence and an offset counts records; encoded sizes are a parameter.
- Combiners, hooks, charts, HugeTask compression, NDB variants, LogInputReader, ConsistentKeyReader, BlobstoreZipInputReader
  and NamespaceInputReader: configuration or external services without a claim of their own.
- Shuffle.ShuffleAndReduce: one execution of each stage; records that a retried hash slice appends twice are not modelled, and
  the Python string hash is an arbitrary function.
- Keys of one datastore namespace are integers in key order, and `advance` of the key_range library drops the keys up to and
  including its argument.
- DatastoreSharding.ChooseSplitPoints: rounds exact rationals, halves up; floating-point error is not modelled.
- SliverTools.EqualChances: thresholds are exact rationals and draws uniform real numbers.
- Quota.RunKeepsBalance: a crashed client's units count as still held; the 64-bit wrap of the memcache counter is not modelled.
- Quota.ScanSlice: when the slice finishes is stated for an undisturbed bucket only, since others may take or refill between
  any two of its operations; what it has used is stated for every interleaving.
- ZipLineReader.ZipLineInputReader.Next: the source calls itself once for each empty entry, so a long row of empty entries
  exceeds Python's recursion limit; the model has no such limit.
- JobProtocol.SuccessMeansHandled: all kickoffs of a job give the same number of readers, and a kickoff that finds no input
  at all is not modelled. The slice deadline and the quota are a scan that may stop anywhere; the two entities of one batch
  read are read together.
- JobProtocol.StoppedForever: cleanup of the job, which deletes the shard states, is outside; a duplicate controller after
  cleanup may still rewrite the job's statistics.
- NamespaceSplit.Split: the queries see the datastore of their moment, given as a function of time; the application id is dropped.
- Patch.MakePatch: numbers are reals, so 1 and 1.0 are one value; an empty object replaced by a non-empty list counts as
  failed although Python may then return a dictionary with integer keys. Which of several failures is raised is open.
- Flags.ExpandBooleans: flag files, short options and the getopt call behind the loop; names are not empty, as the flag table
  demands (`server/gflags.py:1027`).
- SliverTools.FetchFromDatastore: GQL limits on long site lists; MAX_FETCHED_RESULTS is None, so nothing is cut off.
