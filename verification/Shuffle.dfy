/**
 The whole shuffle (server/mapreduce/shuffler.py, ShufflePipeline.run without the shuffle service) followed by
 the reduce-side reader: hash, batched sort, merge, regroup.
 */
module Shuffle {
  import opened Wrappers
  import opened StringOrder
  import opened Sorting
  import opened Streams
  import opened RecordMerge
  import opened MergingReader
  import opened ReducerReader

  // ----- hash stage -----

  /** _HashingBlobstoreOutputWriter.write: Python's modulus of the key's hash; the hash itself is arbitrary. */
  function FileIndex(hash: string -> int, key: string, n: nat): (i: nat)
    requires n > 0
    ensures i < n
  {
    hash(key) % n
  }

  /** It differs from the hash by a multiple of the number of files. */
  lemma FileIndexIs(hash: string -> int, key: string, n: nat)
    requires n > 0
    ensures exists q: int :: hash(key) == q * n + FileIndex(hash, key, n)
  {
    assert hash(key) == (hash(key) / n) * n + FileIndex(hash, key, n);
  }

  // Every record went to the file of its key. In which order the mappers appended does not matter.
  ghost predicate Hashed(input: multiset<Record>, files: seq<File>, hash: string -> int) {
    && |files| > 0
    && forall i, r :: 0 <= i < |files| ==> multiset(files[i])[r] == if FileIndex(hash, r.key, |files|) == i then input[r] else 0
  }

  method HashStage(records: seq<Record>, hash: string -> int, shards: nat) returns (files: seq<File>)
    requires shards > 0
    ensures |files| == shards && Hashed(multiset(records), files, hash)
  {
    files := seq(shards, _ => []);
    for k := 0 to |records|
      invariant |files| == shards && Hashed(multiset(records[..k]), files, hash)
    {
      hide FileIndex;
      var i := FileIndex(hash, records[k].key, shards);
      assert records[..k + 1] == records[..k] + [records[k]];
      files := files[i := files[i] + [records[k]]];
    }
    assert records[..|records|] == records;
  }

  // ----- sort stage -----

  predicate KeyLeq(x: Record, y: Record) { StrLeq(x.key, y.key) }

  function SizeOf(records: seq<Record>, encodedSize: Record -> nat): nat {
    if records == [] then 0 else SizeOf(records[..|records| - 1], encodedSize) + encodedSize(records[|records| - 1])
  }

  function ConcatRecords(parts: seq<seq<Record>>): seq<Record> {
    if parts == [] then [] else ConcatRecords(parts[..|parts| - 1]) + parts[|parts| - 1]
  }

  // A batch ends with the record that takes it past the batch size.
  ghost predicate IsBatch(batch: seq<Record>, encodedSize: Record -> nat, batchSize: nat) {
    batch != [] && SizeOf(batch[..|batch| - 1], encodedSize) <= batchSize
  }

  /** _BatchRecordsReader.__iter__: the file cut into batches; only the last one may stay at or below the batch size. */
  method Batches(file: File, encodedSize: Record -> nat, batchSize: nat) returns (batches: seq<seq<Record>>)
    ensures ConcatRecords(batches) == file
    ensures forall b :: 0 <= b < |batches| ==> IsBatch(batches[b], encodedSize, batchSize)
    ensures forall b :: 0 <= b < |batches| - 1 ==> SizeOf(batches[b], encodedSize) > batchSize
  {
    hide ConcatRecords;
    ConcatNothing();
    batches := [];
    var records, size := [], 0;
    for k := 0 to |file|
      invariant ConcatRecords(batches) + records == file[..k]
      invariant size == SizeOf(records, encodedSize) <= batchSize
      invariant forall b :: 0 <= b < |batches| ==> IsBatch(batches[b], encodedSize, batchSize) && SizeOf(batches[b], encodedSize) > batchSize
    {
      var longer := records + [file[k]];
      assert longer[..|longer| - 1] == records;
      assert file[..k + 1] == file[..k] + [file[k]];
      records, size := longer, size + encodedSize(file[k]);
      if size > batchSize {
        ConcatAppend(batches, records);
        batches := batches + [records];
        records, size := [], 0;
      }
    }
    assert file[..|file|] == file;
    if records != [] {
      ConcatAppend(batches, records);
      assert SizeOf(records[..|records| - 1], encodedSize) <= SizeOf(records, encodedSize);
      batches := batches + [records];
    }
  }

  lemma ConcatNothing()
    ensures ConcatRecords([]) == []
  {}

  lemma ConcatAppend(parts: seq<seq<Record>>, part: seq<Record>)
    ensures ConcatRecords(parts + [part]) == ConcatRecords(parts) + part
  {
    assert (parts + [part])[..|parts|] == parts;
  }

  function Zeros(n: nat): seq<nat> { seq(n, _ => 0) }

  // Sorted chunks that together hold the file's records. Being a sum, the second part does not depend on their order.
  ghost predicate SortedChunks(file: File, chunks: seq<File>) {
    && (forall i :: 0 <= i < |chunks| ==> KeySorted(chunks[i]))
    && Unread(chunks, Zeros(|chunks|), |chunks|) == multiset(file)
  }

  /** _sort_records_map: one batch, sorted by key. */
  function SortRecords(batch: seq<Record>): (chunk: File)
    ensures KeySorted(chunk) && multiset(chunk) == multiset(batch)
  {
    KeyLeqIsTotalPreorder();
    SortBySorts(batch, KeyLeq);
    SortedByKey(SortBy(batch, KeyLeq));
    SortBy(batch, KeyLeq)
  }

  lemma SortedByKey(s: seq<Record>)
    requires SortedBy(s, KeyLeq)
    ensures KeySorted(s)
  {
    forall i, j | 0 <= i < j < |s| ensures StrLeq(s[i].key, s[j].key) { assert KeyLeq(s[i], s[j]); }
  }

  lemma KeyLeqIsTotalPreorder()
    ensures TotalPreorder(KeyLeq)
  {
    forall x: Record, y: Record ensures KeyLeq(x, y) || KeyLeq(y, x) { StrLeqTotal(x.key, y.key); }
    forall x: Record, y: Record, z: Record | KeyLeq(x, y) && KeyLeq(y, z) ensures KeyLeq(x, z) {
      StrLeqTransitive(x.key, y.key, z.key);
    }
  }

  lemma ZeroOffsets(files: seq<File>)
    ensures ValidOffsets(files, Zeros(|files|))
  {}

  lemma {:induction false} UnreadAppend(chunks: seq<File>, chunk: File, n: nat)
    requires n <= |chunks|
    ensures Unread(chunks + [chunk], Zeros(|chunks| + 1), n) == Unread(chunks, Zeros(|chunks|), n)
    ensures n == |chunks| ==>
              Unread(chunks + [chunk], Zeros(|chunks| + 1), |chunks| + 1) == Unread(chunks, Zeros(|chunks|), n) + multiset(chunk)
  {
    if n > 0 {
      UnreadAppend(chunks, chunk, n - 1);
    }
    assert chunk[0..] == chunk;
  }

  /** _SortChunksPipeline for one hashed file. */
  method SortChunks(file: File, encodedSize: Record -> nat, batchSize: nat) returns (chunks: seq<File>)
    ensures SortedChunks(file, chunks)
  {
    hide IsBatch, SizeOf, SortBy, Unread, KeySorted;
    var batches := Batches(file, encodedSize, batchSize);
    chunks := [];
    NoChunks();
    for b := 0 to |batches|
      invariant |chunks| == b && SortedChunks(ConcatRecords(batches[..b]), chunks)
    {
      UnreadAppend(chunks, SortRecords(batches[b]), b);
      chunks := chunks + [SortRecords(batches[b])];
      ConcatAppend(batches[..b], batches[b]);
      assert batches[..b + 1] == batches[..b] + [batches[b]];
    }
    assert batches[..|batches|] == batches;
  }

  lemma NoChunks()
    ensures SortedChunks([], [])
  {}

  // ----- merge and reduce stages -----

  /** _MergePipeline for one shard: the reader run to its end. */
  method MergeStage(chunks: seq<File>, limits: Limits) returns (groups: seq<Group>)
    ensures groups == (ZeroOffsets(chunks); Remaining(chunks, Zeros(|chunks|), limits))
  {
    hide Remaining, Merged, HeapFits, IsHeap, Ungroup, RecordsOf;
    ZeroOffsets(chunks);
    var reader := new MergingReader(Checkpoint(Zeros(|chunks|), limits));
    var started := reader.Iter(chunks);
    groups := [];
    ghost var all := Remaining(chunks, Zeros(|chunks|), limits);
    ghost var todo := all;
    while true
      invariant fresh(reader) && reader.Valid() && reader.files == chunks && reader.limits == limits
      invariant todo == Remaining(chunks, reader.offsets, limits) && groups + todo == all
      decreases |todo|
    {
      var out := reader.Next();
      if out.None? {
        return;
      }
      MoveOne(groups, todo, all);
      groups, todo := groups + [out.value], todo[1..];
    }
  }

  /** The reduce-side reader run to its end over one merged file. */
  method ReduceStage(groups: seq<Group>) returns (events: seq<Event>)
    ensures events == Reduce(None, groups)
  {
    hide Reduce, Concat;
    var reader := new ReducerReader(ReducerCheckpoint([groups], 0, None));
    reader.Iter();
    OneFile(groups);
    events := [];
    ghost var all := Reduce(None, groups);
    ghost var todo := all;
    while !reader.failed
      invariant fresh(reader) && reader.Valid() && todo == reader.Todo() && events + todo == all
      decreases |todo|
    {
      var e := reader.Next();
      if e.None? {
        return;
      }
      MoveOne(events, todo, all);
      events, todo := events + [e.value], todo[1..];
    }
  }

  lemma OneFile(groups: seq<Group>)
    ensures [groups][0][0..] + Concat([groups][1..]) == groups
  {}

  // ----- the result -----

  ghost predicate KeysAscend(pairs: seq<Event>) {
    && (forall i :: 0 <= i < |pairs| ==> pairs[i].Pair?)
    && (forall i, j :: 0 <= i < j < |pairs| ==> StrLess(pairs[i].key, pairs[j].key))
  }

  lemma {:induction false} SortedPairsAscend(pairs: seq<Event>)
    requires KeysChange(pairs) && KeySorted(Flatten(pairs))
    ensures KeysAscend(pairs)
    ensures forall j :: 0 < j < |pairs| ==> StrLeq(pairs[0].key, pairs[j].key)
  {
    if pairs != [] {
      var p, rest, all := pairs[0], pairs[1..], Flatten(pairs);
      assert all == PairRecords(p) + Flatten(rest);
      forall i, j | 0 <= i < j < |Flatten(rest)|
        ensures StrLeq(Flatten(rest)[i].key, Flatten(rest)[j].key)
      {
        assert all[|p.values| + i] == Flatten(rest)[i] && all[|p.values| + j] == Flatten(rest)[j];
      }
      assert forall i :: 0 <= i < |rest| ==> rest[i] == pairs[i + 1];
      SortedPairsAscend(rest);
      if rest != [] {
        assert PairRecords(p)[0].key == p.key && Flatten(rest)[0] == PairRecords(rest[0])[0];
        assert all[0].key == p.key && all[|p.values|].key == rest[0].key;
        forall j | 0 < j < |pairs|
          ensures StrLess(p.key, pairs[j].key)
        {
          assert StrLess(p.key, rest[0].key);
          if j > 1 {
            assert StrLess(rest[0].key, rest[j - 1].key);
            StringsCompose(p.key, rest[0].key, rest[j - 1].key);
          }
        }
      }
    }
  }

  lemma {:induction false} FlattenCounts(pairs: seq<Event>, key: string, v: string)
    requires KeysAscend(pairs)
    ensures (forall i :: 0 <= i < |pairs| ==> pairs[i].key != key) ==> multiset(Flatten(pairs))[Record(key, v)] == 0
    ensures forall i :: 0 <= i < |pairs| && pairs[i].key == key ==>
              multiset(Flatten(pairs))[Record(key, v)] == multiset(pairs[i].values)[v]
  {
    if pairs != [] {
      FlattenCounts(pairs[1..], key, v);
      assert forall i :: 0 < i < |pairs| ==> pairs[1..][i - 1] == pairs[i];
      PairCounts(pairs[0].key, pairs[0].values, key, v);
      assert PairRecords(pairs[0]) == RecordsOf(Group(pairs[0].key, pairs[0].values, false));
    }
  }

  lemma {:induction false} PairCounts(k: string, values: seq<string>, key: string, v: string)
    ensures multiset(RecordsOf(Group(k, values, false)))[Record(key, v)] == if k == key then multiset(values)[v] else 0
  {
    if values != [] {
      var n := |values| - 1;
      PairCounts(k, values[..n], key, v);
      assert values == values[..n] + [values[n]];
      assert RecordsOf(Group(k, values, false)) == RecordsOf(Group(k, values[..n], false)) + [Record(k, values[n])];
    }
  }

  /** One shard: its reducer sees ascending keys, each with exactly the shard's values, and no assertion. */
  lemma ShardResult(file: File, chunks: seq<File>, limits: Limits)
    requires SortedChunks(file, chunks)
    ensures var events := Reduce(None, (ZeroOffsets(chunks); Remaining(chunks, Zeros(|chunks|), limits)));
            && Inconsistent !in events && KeysAscend(Pairs(events))
            && (forall i :: 0 <= i < |Pairs(events)| ==> Pairs(events)[i].values != [])
            && multiset(Flatten(Pairs(events))) == multiset(file)
  {
    hide Groups, Reduce, Pairs, Unread, KeySorted, Flatten, StrLeq, Greedy;
    ZeroOffsets(chunks);
    var stream := Merged(chunks, Zeros(|chunks|));
    var groups := Groups(stream, limits);
    GroupsLaws(stream, limits);
    GreedyChains(groups, limits);
    ReduceLaws(None, groups);
    NoPendingRecords();
    EmptyIsLeast();
    MergedSorted(chunks, Zeros(|chunks|), "");
    MergedConserves(chunks, Zeros(|chunks|));
    SortedPairsAscend(Pairs(Reduce(None, groups)));
  }

  lemma EmptyIsLeast()
    ensures forall s :: StrLeq("", s)
  {}

  /** What the reducers of all shards see, given the job's input. */
  ghost predicate EachKeyOnce(input: multiset<Record>, results: seq<seq<Event>>, hash: string -> int) {
    && |results| > 0
    && (forall s :: 0 <= s < |results| ==> Inconsistent !in results[s] && KeysAscend(Pairs(results[s])))
    && (forall s, i :: 0 <= s < |results| && 0 <= i < |Pairs(results[s])| ==>
          var p := Pairs(results[s])[i];
          && p.Pair? && p.values != [] && s == FileIndex(hash, p.key, |results|)
          && forall v :: multiset(p.values)[v] == input[Record(p.key, v)])
    && (forall r :: r in input ==>
          exists i :: 0 <= i < |Pairs(results[FileIndex(hash, r.key, |results|)])|
                      && Pairs(results[FileIndex(hash, r.key, |results|)])[i].Pair?
                      && Pairs(results[FileIndex(hash, r.key, |results|)])[i].key == r.key)
  }

  ghost predicate ShardsReduced(files: seq<File>, results: seq<seq<Event>>) {
    && |results| == |files|
    && forall s :: 0 <= s < |files| ==>
         && Inconsistent !in results[s] && KeysAscend(Pairs(results[s]))
         && (forall i :: 0 <= i < |Pairs(results[s])| ==> Pairs(results[s])[i].values != [])
         && multiset(Flatten(Pairs(results[s]))) == multiset(files[s])
  }

  lemma ShufflePairs(input: multiset<Record>, files: seq<File>, results: seq<seq<Event>>, hash: string -> int, s: nat, i: nat)
    requires Hashed(input, files, hash) && ShardsReduced(files, results)
    requires s < |results| && i < |Pairs(results[s])|
    ensures var p := Pairs(results[s])[i];
            && p.Pair? && p.values != [] && s == FileIndex(hash, p.key, |results|)
            && forall v :: multiset(p.values)[v] == input[Record(p.key, v)]
  {
    hide FileIndex, Flatten, Pairs;
    var p := Pairs(results[s])[i];
    forall v
      ensures multiset(p.values)[v] == multiset(files[s])[Record(p.key, v)]
    {
      FlattenCounts(Pairs(results[s]), p.key, v);
    }
    var v := p.values[0];
    assert v in multiset(p.values);
    assert multiset(files[s])[Record(p.key, v)] > 0;
  }

  lemma ShuffleKeys(input: multiset<Record>, files: seq<File>, results: seq<seq<Event>>, hash: string -> int, r: Record)
    requires Hashed(input, files, hash) && ShardsReduced(files, results) && r in input
    ensures var s := FileIndex(hash, r.key, |results|);
            exists i :: 0 <= i < |Pairs(results[s])| && Pairs(results[s])[i].Pair? && Pairs(results[s])[i].key == r.key
  {
    hide FileIndex, Flatten, Pairs;
    var s := FileIndex(hash, r.key, |results|);
    assert multiset(files[s])[r] == input[r];
    FlattenCounts(Pairs(results[s]), r.key, r.value);
  }

  /**
   End to end: over all shards every input key is reduced exactly once, in the shard of its hash, in ascending
   order within a shard, with exactly its multiset of input values; no other key appears and the reader's
   assertion never fires. This holds for every hash, batch size, limit setting and order of files.
   */
  lemma ShuffleCorrect(input: multiset<Record>, files: seq<File>, chunks: seq<seq<File>>, limits: Limits,
                       results: seq<seq<Event>>, hash: string -> int)
    requires Hashed(input, files, hash) && |chunks| == |results| == |files|
    requires forall s :: 0 <= s < |files| ==> SortedChunks(files[s], chunks[s])
    requires forall s :: 0 <= s < |files| ==>
               results[s] == Reduce(None, (ZeroOffsets(chunks[s]); Remaining(chunks[s], Zeros(|chunks[s]|), limits)))
    ensures EachKeyOnce(input, results, hash)
  {
    hide Groups, Merged, Reduce, Pairs, Flatten, SortedChunks, FileIndex, Hashed, Remaining, KeysAscend;
    assert |files| > 0 by { HashedSomewhere(input, files, hash); }
    forall s | 0 <= s < |files|
      ensures Inconsistent !in results[s] && KeysAscend(Pairs(results[s]))
      ensures forall i :: 0 <= i < |Pairs(results[s])| ==> Pairs(results[s])[i].Pair? && Pairs(results[s])[i].values != []
      ensures multiset((PairsArePairs(results[s]); Flatten(Pairs(results[s])))) == multiset(files[s])
    {
      PairsArePairs(results[s]);
      ShardResult(files[s], chunks[s], limits);
    }
    assert ShardsReduced(files, results);
    forall s, i | 0 <= s < |results| && 0 <= i < |Pairs(results[s])|
      ensures var p := Pairs(results[s])[i];
              && p.Pair? && p.values != [] && s == FileIndex(hash, p.key, |results|)
              && forall v :: multiset(p.values)[v] == input[Record(p.key, v)]
    {
      ShufflePairs(input, files, results, hash, s, i);
    }
    forall r | r in input
      ensures var s := FileIndex(hash, r.key, |results|);
              exists i :: 0 <= i < |Pairs(results[s])| && Pairs(results[s])[i].Pair? && Pairs(results[s])[i].key == r.key
    {
      ShuffleKeys(input, files, results, hash, r);
    }
  }

  lemma HashedSomewhere(input: multiset<Record>, files: seq<File>, hash: string -> int)
    requires Hashed(input, files, hash)
    ensures |files| > 0
  {}

  /** ShufflePipeline.run and the reducers' readers, stage after stage. */
  method ShuffleAndReduce(records: seq<Record>, hash: string -> int, shards: nat, encodedSize: Record -> nat, batchSize: nat,
                          limits: Limits)
    returns (results: seq<seq<Event>>)
    requires shards > 0
    ensures |results| == shards && EachKeyOnce(multiset(records), results, hash)
  {
    hide Hashed, SortedChunks, Reduce, Remaining, EachKeyOnce;
    var files := HashStage(records, hash, shards);
    results := [];
    ghost var chunks: seq<seq<File>> := [];
    for s := 0 to shards
      invariant |results| == |chunks| == s
      invariant forall k :: 0 <= k < s ==> SortedChunks(files[k], chunks[k])
      invariant forall k :: 0 <= k < s ==>
                  results[k] == Reduce(None, (ZeroOffsets(chunks[k]); Remaining(chunks[k], Zeros(|chunks[k]|), limits)))
    {
      var sorted := SortChunks(files[s], encodedSize, batchSize);
      var merged := MergeStage(sorted, limits);
      var events := ReduceStage(merged);
      results, chunks := results + [events], chunks + [sorted];
    }
    ShuffleCorrect(multiset(records), files, chunks, limits, results, hash);
  }
}
