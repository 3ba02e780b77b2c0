/**
 BlobstoreLineInputReader (server/mapreduce/input_readers.py): byte ranges that ignore line boundaries,
 and checkpoints taken one byte before the next line.
 */
module LineReader {
  import opened Wrappers
  import opened Streams

  // The blob's bytes.
  type Blob = string

  /** Where readline() leaves the stream: behind the next newline, or at the end. */
  function LineEnd(blob: Blob, p: nat): (q: nat)
    requires p <= |blob|
    ensures p <= q <= |blob| && (p < |blob| ==> p < q)
    ensures q == |blob| || (p < q && blob[q - 1] == '\n')
    decreases |blob| - p
  {
    if p == |blob| then p else if blob[p] == '\n' then p + 1 else LineEnd(blob, p + 1)
  }

  /** str.rstrip("\n") */
  function RStrip(s: string): string {
    if s != "" && s[|s| - 1] == '\n' then RStrip(s[..|s| - 1]) else s
  }

  // An (offset, line) pair.
  type Line = (nat, string)

  /** The lines beginning at p and later, up to and including one beginning at end. */
  function LinesFrom(blob: Blob, p: nat, end: nat): seq<Line>
    requires p <= |blob|
    decreases |blob| - p
  {
    if p > end || p == |blob| then [] else
      [(p, RStrip(blob[p..LineEnd(blob, p)]))] + LinesFrom(blob, LineEnd(blob, p), end)
  }

  function AllLines(blob: Blob): seq<Line> {
    LinesFrom(blob, 0, |blob|)
  }

  /** Where a reader with this start position begins: at 0, or behind the line the position lies in. */
  function FirstLine(blob: Blob, start: nat): (p: nat)
    requires start <= |blob|
    ensures start <= p <= |blob|
  {
    if start == 0 then 0 else LineEnd(blob, start)
  }

  ghost predicate LineBoundary(blob: Blob, p: nat) {
    p == 0 || p == |blob| || (p < |blob| && blob[p - 1] == '\n')
  }

  lemma {:induction false} LineEndInside(blob: Blob, p: nat, q: nat)
    requires p <= q <= |blob|
    ensures q < LineEnd(blob, p) ==> LineEnd(blob, q) == LineEnd(blob, p)
    ensures LineEnd(blob, p) <= LineEnd(blob, q)
    decreases |blob| - p
  {
    if p < q {
      if blob[p] != '\n' {
        LineEndInside(blob, p + 1, q);
      }
    }
  }

  // Two adjoining byte ranges read one after the other.
  lemma {:induction false} RangesAdjoin(blob: Blob, p: nat, mid: nat, end: nat)
    requires 0 < mid <= end && mid <= |blob|
    requires p <= LineEnd(blob, mid) && (p > mid ==> p == LineEnd(blob, mid))
    ensures LinesFrom(blob, p, mid) + LinesFrom(blob, LineEnd(blob, mid), end) == LinesFrom(blob, p, end)
    decreases |blob| - p
  {
    if p <= mid && p < |blob| {
      LineEndInside(blob, p, mid);
      RangesAdjoin(blob, LineEnd(blob, p), mid, end);
    }
  }

  // ----- what lines are -----

  lemma {:induction false} NoEarlierNewline(blob: Blob, p: nat)
    requires p < |blob|
    ensures forall k :: p <= k < LineEnd(blob, p) - 1 ==> blob[k] != '\n'
    decreases |blob| - p
  {
    if blob[p] != '\n' && p + 1 < |blob| {
      NoEarlierNewline(blob, p + 1);
    }
  }

  lemma StripOne(w: string)
    requires '\n' !in w
    ensures RStrip(w) == w && RStrip(w + "\n") == w
  {
    assert (w + "\n")[..|w|] == w;
  }

  /** A line is the text up to its newline, or to the end of the blob, and holds no newline itself. */
  lemma LineIs(blob: Blob, p: nat)
    requires p < |blob|
    ensures var q, line := LineEnd(blob, p), RStrip(blob[p..LineEnd(blob, p)]);
            && '\n' !in line && blob[p..q] == line + (if blob[q - 1] == '\n' then "\n" else "")
            && (blob[q - 1] != '\n' ==> q == |blob|)
  {
    var q := LineEnd(blob, p);
    NoEarlierNewline(blob, p);
    if blob[q - 1] == '\n' {
      assert blob[p..q] == blob[p..q - 1] + "\n";
      StripOne(blob[p..q - 1]);
    } else {
      StripOne(blob[p..q]);
    }
  }

  /** The lines with a newline behind each. */
  function Rejoined(lines: seq<Line>): string {
    if lines == [] then "" else lines[0].1 + "\n" + Rejoined(lines[1..])
  }

  // What is missing at the end of the blob for its last line to end in a newline.
  function Missing(blob: Blob, p: nat): string
    requires p <= |blob|
  {
    if p == |blob| || blob[|blob| - 1] == '\n' then "" else "\n"
  }

  lemma OneMoreLine(blob: Blob, p: nat, rest: string)
    requires p < |blob| && rest == blob[LineEnd(blob, p)..] + Missing(blob, LineEnd(blob, p))
    ensures RStrip(blob[p..LineEnd(blob, p)]) + "\n" + rest == blob[p..] + Missing(blob, p)
  {
    hide RStrip, LineEnd;
    var q := LineEnd(blob, p);
    LineIs(blob, p);
    assert blob[p..] == blob[p..q] + blob[q..];
    if blob[q - 1] != '\n' {
      assert blob[q..] == "";
    }
  }

  /** The lines give the blob back, up to a newline at its very end. */
  lemma {:induction false} LinesRejoin(blob: Blob, p: nat)
    requires p <= |blob|
    ensures Rejoined(LinesFrom(blob, p, |blob|)) == blob[p..] + (if p == |blob| || blob[|blob| - 1] == '\n' then "" else "\n")
    decreases |blob| - p
  {
    if p < |blob| {
      var line, rest := RStrip(blob[p..LineEnd(blob, p)]), LinesFrom(blob, LineEnd(blob, p), |blob|);
      assert LinesFrom(blob, p, |blob|) == [(p, line)] + rest;
      hide RStrip, LineEnd, LinesFrom;
      LinesRejoin(blob, LineEnd(blob, p));
      RejoinedCons((p, line), rest);
      OneMoreLine(blob, p, Rejoined(rest));
    }
  }

  lemma RejoinedCons(line: Line, rest: seq<Line>)
    ensures Rejoined([line] + rest) == line.1 + "\n" + Rejoined(rest)
  {
    assert ([line] + rest)[1..] == rest;
  }

  // A line stands at its offset, which is that of the first line or behind a newline, and holds no newline.
  ghost predicate StandsAt(blob: Blob, p: nat, line: Line) {
    && p <= line.0 < |blob| && '\n' !in line.1 && line.1 <= blob[line.0..]
    && (p < line.0 ==> blob[line.0 - 1] == '\n')
  }

  /** Every line stands at the offset it is yielded with. */
  lemma {:induction false} LinesStand(blob: Blob, p: nat, end: nat)
    requires p <= |blob|
    ensures forall line :: line in LinesFrom(blob, p, end) ==> StandsAt(blob, p, line)
    decreases |blob| - p
  {
    if p <= end && p < |blob| {
      var q := LineEnd(blob, p);
      var line, rest := (p, RStrip(blob[p..q])), LinesFrom(blob, q, end);
      assert LinesFrom(blob, p, end) == [line] + rest;
      hide RStrip, LineEnd, LinesFrom;
      LineIs(blob, p);
      LinesStand(blob, q, end);
      assert StandsAt(blob, p, line);
      forall other | other in rest ensures StandsAt(blob, p, other) {
        assert StandsAt(blob, q, other);
      }
    }
  }

  // ----- sharding -----

  // The byte range given to the constructor.
  datatype ByteRange = ByteRange(start: nat, end: nat)

  /** shards_per_blob in split_input. */
  function ShardsPerBlob(shardCount: nat, blobs: nat): (k: nat)
    requires blobs > 0
    ensures k > 0
  {
    var k := (if shardCount < 256 then shardCount else 256) / blobs;
    if k == 0 then 1 else k
  }

  /** As many as the shard count, at most 256, gives to each key; but at least one. */
  lemma ShardsPerBlobIs(shardCount: nat, keys: nat)
    requires keys > 0
    ensures var k := ShardsPerBlob(shardCount, keys);
            && (k > 1 ==> k * keys <= shardCount && k * keys <= 256)
            && (shardCount < (k + 1) * keys || 256 < (k + 1) * keys)
  {
    var limit := if shardCount < 256 then shardCount else 256;
    Quotient(limit, keys);
  }

  lemma Quotient(x: nat, d: nat)
    requires d > 0
    ensures (x / d) * d <= x < (x / d + 1) * d
  {}

  function Boundary(size: nat, k: nat, i: nat): nat
    requires 0 < k && i <= k
  {
    if i == k then size else (size / k) * i
  }

  lemma BoundariesAscend(size: nat, k: nat, i: nat, j: nat)
    requires 0 < k && i <= j <= k
    ensures Boundary(size, k, i) <= Boundary(size, k, j) <= size
    ensures size >= k && i > 0 ==> Boundary(size, k, i) > 0
    ensures size < k && i < k ==> Boundary(size, k, i) == 0
    ensures Boundary(size, k, 0) == 0
  {
    var c := size / k;
    DivideFacts(size, k);
    ProductsAscend(c, i, j);
    ProductsAscend(c, j, k);
    ProductsAscend(c, 1, i);
    if size < k { assert c == 0; }
  }

  lemma DivideFacts(size: nat, k: nat)
    requires k > 0
    ensures (size / k) * k <= size && (size >= k ==> size / k >= 1) && (size < k ==> size / k == 0)
  {}

  lemma ProductsAscend(c: nat, i: nat, j: nat)
    ensures i <= j ==> c * i <= c * j
  {}

  /** The chunks of one blob. */
  method SplitBlob(size: nat, k: nat) returns (chunks: seq<ByteRange>)
    requires k > 0
    ensures |chunks| == k
    ensures forall i :: 0 <= i < k ==> chunks[i] == ByteRange(Boundary(size, k, i), Boundary(size, k, i + 1))
  {
    var chunk := size / k;
    chunks := [];
    for i := 0 to k - 1
      invariant |chunks| == i
      invariant forall j :: 0 <= j < i ==> chunks[j] == ByteRange(Boundary(size, k, j), Boundary(size, k, j + 1))
    {
      assert Boundary(size, k, i) == chunk * i && Boundary(size, k, i + 1) == chunk * (i + 1);
      chunks := chunks + [ByteRange(chunk * i, chunk * (i + 1))];
    }
    chunks := chunks + [ByteRange(chunk * (k - 1), size)];
  }

  function ShardLines(blob: Blob, k: nat, i: nat): seq<Line>
    requires i < k
  {
    BoundariesAscend(|blob|, k, i, k);
    LinesFrom(blob, FirstLine(blob, Boundary(|blob|, k, i)), Boundary(|blob|, k, i + 1))
  }

  /** The output of the first n shards in order. */
  function FirstShards(blob: Blob, k: nat, n: nat): seq<Line>
    requires n <= k
  {
    if n == 0 then [] else FirstShards(blob, k, n - 1) + ShardLines(blob, k, n - 1)
  }

  lemma {:induction false} LongBlobShards(blob: Blob, k: nat, n: nat)
    requires 0 < n <= k && (|blob| >= k || k == 1)
    ensures FirstShards(blob, k, n) == LinesFrom(blob, 0, Boundary(|blob|, k, n))
  {
    hide LinesFrom, Boundary, LineEnd;
    BoundariesAscend(|blob|, k, 0, n);
    BoundariesAscend(|blob|, k, n - 1, n);
    if n == 1 {
      assert FirstShards(blob, k, 0) == [];
    } else {
      LongBlobShards(blob, k, n - 1);
      var mid := Boundary(|blob|, k, n - 1);
      LineEndInside(blob, 0, mid);
      RangesAdjoin(blob, 0, mid, Boundary(|blob|, k, n));
    }
  }

  lemma ShortBlobShard(blob: Blob, k: nat, i: nat)
    requires i < k && 0 < |blob| < k
    ensures if i == k - 1 then ShardLines(blob, k, i) == AllLines(blob) else |ShardLines(blob, k, i)| >= 1
  {
    BoundariesAscend(|blob|, k, i, k);
    BoundariesAscend(|blob|, k, i + 1, k);
  }

  lemma {:induction false} ShortBlobShards(blob: Blob, k: nat, n: nat)
    requires n <= k && 0 < |blob| < k
    ensures |FirstShards(blob, k, n)| >= if n == k then k - 1 + |AllLines(blob)| else n
  {
    hide ShardLines, AllLines, LinesFrom;
    if n > 0 {
      ShortBlobShards(blob, k, n - 1);
      ShortBlobShard(blob, k, n - 1);
    }
  }

  lemma EmptyBlobShards(k: nat, n: nat)
    requires n <= k
    ensures FirstShards("", k, n) == []
  {}

  /**
   The shards of a blob together yield every line exactly once, in order, exactly when the blob is at least
   as long as its number of shards (or is empty, or has one shard). Otherwise the chunk size is 0 and the
   first line is read again by every shard.
   */
  lemma ShardsYieldEachLineOnce(blob: Blob, k: nat)
    requires k > 0
    ensures FirstShards(blob, k, k) == AllLines(blob) <==> k == 1 || |blob| == 0 || |blob| >= k
  {
    if |blob| == 0 {
      EmptyBlobShards(k, k);
    } else if k == 1 || |blob| >= k {
      LongBlobShards(blob, k, k);
    } else {
      ShortBlobShards(blob, k, k);
    }
  }

  // ----- the reader object -----

  // new_pos goes to -1 for an empty blob.
  datatype LineCheckpoint = LineCheckpoint(initial: int, end: nat)

  class LineInputReader {
    const blob: Blob
    const end: nat
    var position: nat
    var hasIterated: bool
    var readBeforeStart: bool

    ghost predicate Valid()
      reads this
    {
      && position <= |blob|
      && (hasIterated ==> !readBeforeStart && LineBoundary(blob, position))
      && (!hasIterated ==> (readBeforeStart <==> position != 0))
    }

    ghost function Todo(): seq<Line>
      requires Valid()
      reads this
    {
      LinesFrom(blob, if readBeforeStart then LineEnd(blob, position) else position, end)
    }

    constructor (blob: Blob, json: LineCheckpoint)
      requires 0 <= json.initial <= |blob|
      ensures Valid() && this.blob == blob && end == json.end && !hasIterated && position == json.initial
      ensures Todo() == LinesFrom(blob, FirstLine(blob, json.initial), json.end)
    {
      this.blob, end := blob, json.end;
      position, hasIterated, readBeforeStart := json.initial, false, json.initial != 0;
    }

    /** next(): None stands for StopIteration. */
    method Next() returns (out: Option<Line>)
      requires Valid()
      modifies this
      ensures Valid() && hasIterated
      ensures old(Todo()) == [] ==> out.None? && Todo() == []
      ensures old(Todo()) != [] ==> out == Some(old(Todo())[0]) && Todo() == old(Todo())[1..]
      ensures out.Some? ==> out.value.0 < |blob| && position == LineEnd(blob, out.value.0)
      ensures out.Some? && out.value.0 == 0 ==> old(position) == 0
    {
      hasIterated := true;
      if readBeforeStart {
        position := LineEnd(blob, position);
        readBeforeStart := false;
      }
      var start := position;
      if start > end {
        return None;
      }
      var line := blob[start..LineEnd(blob, start)];
      position := LineEnd(blob, start);
      if line == "" {
        return None;
      }
      return Some((start, RStrip(line)));
    }

    method ToJson() returns (json: LineCheckpoint)
      requires Valid()
      ensures json == LineCheckpoint(if hasIterated then position - 1 else position, end)
    {
      json := LineCheckpoint(if hasIterated then position - 1 else position, end);
    }
  }

  // ----- checkpoints -----

  lemma {:induction false} LineEndOfPrevious(blob: Blob, p: nat)
    requires 0 < p <= |blob| && LineBoundary(blob, p)
    ensures LineEnd(blob, p - 1) == p
  {}

  /**
   A reader that has iterated is stored one byte back. Restored, it yields exactly what it still had to yield
   if and only if it did not stand at position 1, which is restored as the start of the blob.
   */
  lemma CheckpointRestores(blob: Blob, position: nat, end: nat)
    requires 0 < position <= |blob| && LineBoundary(blob, position)
    ensures LinesFrom(blob, FirstLine(blob, position - 1), end) == LinesFrom(blob, position, end) <==> position != 1
  {
    LineEndOfPrevious(blob, position);
    if position == 1 {
      assert LinesFrom(blob, 0, end) == [(0, RStrip(blob[0..1]))] + LinesFrom(blob, 1, end);
    }
  }

  /** Position 1 is reached only behind a first line of one byte. */
  lemma PositionOne(blob: Blob, p: nat)
    requires p < |blob|
    ensures LineEnd(blob, p) == 1 <==> p == 0 && LineEnd(blob, 0) == 1
  {}

  /** Such a blob does lose exactness: the first line is yielded by two successive slices. */
  lemma FirstLineTwice(blob: Blob, end: nat)
    requires LineEnd(blob, 0) == 1
    ensures LinesFrom(blob, 0, end)[..1] + LinesFrom(blob, FirstLine(blob, 1 - 1), end) != LinesFrom(blob, 0, end)
  {}

  // What the stored state still stands for; nothing is stored once the reader has run out.
  function Stored(blob: Blob, json: Option<LineCheckpoint>): seq<Line>
    requires json.Some? ==> 0 <= json.value.initial <= |blob|
  {
    if json.None? then [] else LinesFrom(blob, FirstLine(blob, json.value.initial), json.value.end)
  }

  // A shard that starts at the first line can only be stored exactly if that line is longer than one byte.
  predicate Resumable(blob: Blob, start: nat) {
    start == 0 ==> LineEnd(blob, 0) != 1
  }

  /**
   One slice: restore, take up to n lines, and store again unless the input ran out. Nothing is lost or repeated.
   */
  method RunSlice(blob: Blob, json: LineCheckpoint, n: nat) returns (lines: seq<Line>, next: Option<LineCheckpoint>)
    requires 0 <= json.initial <= |blob| && Resumable(blob, json.initial)
    ensures next.Some? ==> 0 <= next.value.initial <= |blob| && next.value.end == json.end && Resumable(blob, next.value.initial)
    ensures lines + Stored(blob, next) == Stored(blob, Some(json))
    ensures |lines| == n || (|lines| < n && next.None?)
  {
    hide LinesFrom, LineEnd, RStrip;
    var reader := new LineInputReader(blob, json);
    lines := [];
    ghost var all := reader.Todo();
    ghost var todo := all;
    while |lines| < n
      invariant |lines| <= n
      invariant fresh(reader) && reader.Valid() && reader.blob == blob && reader.end == json.end
      invariant todo == reader.Todo() && lines + todo == all
      invariant if lines == [] then !reader.hasIterated && reader.position == json.initial else
                  && reader.hasIterated && lines[|lines| - 1].0 < |blob| && reader.position == LineEnd(blob, lines[|lines| - 1].0)
                  && (lines[|lines| - 1].0 == 0 ==> json.initial == 0)
    {
      var line := reader.Next();
      if line.None? {
        return lines, None;
      }
      MoveOne(lines, todo, all);
      lines, todo := lines + [line.value], todo[1..];
    }
    var stored := reader.ToJson();
    if lines != [] {
      PositionOne(blob, lines[|lines| - 1].0);
      CheckpointRestores(blob, reader.position, json.end);
    }
    return lines, Some(stored);
  }

  /** Any sequence of slices yields the first lines of the uninterrupted output, as many as were asked for. */
  method RunSlices(blob: Blob, start: LineCheckpoint, slices: seq<nat>) returns (lines: seq<Line>, json: Option<LineCheckpoint>)
    requires 0 <= start.initial <= |blob| && Resumable(blob, start.initial)
    ensures json.Some? ==> 0 <= json.value.initial <= |blob|
    ensures lines + Stored(blob, json) == Stored(blob, Some(start))
    ensures |lines| == Sum(slices) || (|lines| < Sum(slices) && json.None?)
  {
    hide Stored, LineEnd, Resumable;
    lines, json := [], Some(start);
    for s := 0 to |slices|
      invariant json.Some? ==> 0 <= json.value.initial <= |blob| && json.value.end == start.end && Resumable(blob, json.value.initial)
      invariant lines + Stored(blob, json) == Stored(blob, Some(start))
      invariant |lines| == Sum(slices[..s]) || (|lines| < Sum(slices[..s]) && json.None?)
    {
      SumNext(slices, s);
      if json.Some? {
        var more, next := RunSlice(blob, json.value, slices[s]);
        assert (lines + more) + Stored(blob, next) == lines + (more + Stored(blob, next));
        lines, json := lines + more, next;
      }
    }
    assert slices[..|slices|] == slices;
  }

  // ----- all blobs, all shards, any slices -----

  // A reader of split_input: which blob, and its byte range.
  datatype Shard = Shard(blob: nat, range: ByteRange)

  datatype BlobLine = BlobLine(blob: nat, line: Line)

  function ShardsOf(blob: nat, size: nat, k: nat): seq<Shard>
    requires k > 0
  {
    seq(k, i requires 0 <= i < k => Shard(blob, ByteRange(Boundary(size, k, i), Boundary(size, k, i + 1))))
  }

  /** The readers of the first m blobs. */
  function ShardsUpTo(blobs: seq<Blob>, k: nat, m: nat): seq<Shard>
    requires k > 0 && m <= |blobs|
  {
    if m == 0 then [] else ShardsUpTo(blobs, k, m - 1) + ShardsOf(m - 1, |blobs[m - 1]|, k)
  }

  /** split_input: the blobs in whatever order the dictionary has; keys counts the keys given, repeated ones too. */
  method SplitInput(blobs: seq<Blob>, keys: nat, shardCount: nat) returns (shards: seq<Shard>)
    requires 0 < keys && |blobs| <= keys
    ensures shards == ShardsUpTo(blobs, ShardsPerBlob(shardCount, keys), |blobs|)
  {
    var k := ShardsPerBlob(shardCount, keys);
    shards := [];
    for m := 0 to |blobs|
      invariant shards == ShardsUpTo(blobs, k, m)
    {
      var chunks := SplitBlob(|blobs[m]|, k);
      var own := seq(k, i requires 0 <= i < k => Shard(m, chunks[i]));
      assert own == ShardsOf(m, |blobs[m]|, k);
      shards := shards + own;
    }
  }

  function Tagged(blob: nat, lines: seq<Line>): seq<BlobLine> {
    seq(|lines|, i requires 0 <= i < |lines| => BlobLine(blob, lines[i]))
  }

  ghost predicate ShardFits(blobs: seq<Blob>, shard: Shard) {
    shard.blob < |blobs| && shard.range.start <= |blobs[shard.blob]|
  }

  ghost predicate AllFit(blobs: seq<Blob>, shards: seq<Shard>) {
    forall i :: 0 <= i < |shards| ==> ShardFits(blobs, shards[i])
  }

  /** What the reader of one shard yields. */
  function LinesOf(blobs: seq<Blob>, shard: Shard): seq<Line>
    requires ShardFits(blobs, shard)
  {
    Stored(blobs[shard.blob], Some(LineCheckpoint(shard.range.start, shard.range.end)))
  }

  function ShardOutput(blobs: seq<Blob>, shards: seq<Shard>): seq<BlobLine>
    requires AllFit(blobs, shards)
  {
    if shards == [] then [] else
      var last := shards[|shards| - 1];
      ShardOutput(blobs, shards[..|shards| - 1]) + Tagged(last.blob, LinesOf(blobs, last))
  }

  /** Every line of the first m blobs. */
  function EveryLine(blobs: seq<Blob>, m: nat): seq<BlobLine>
    requires m <= |blobs|
  {
    if m == 0 then [] else EveryLine(blobs, m - 1) + Tagged(m - 1, AllLines(blobs[m - 1]))
  }

  predicate Divisible(blob: Blob, k: nat) {
    k == 1 || |blob| == 0 || |blob| >= k
  }

  lemma {:induction false} ShardsFit(blobs: seq<Blob>, k: nat, m: nat)
    requires k > 0 && m <= |blobs|
    ensures AllFit(blobs, ShardsUpTo(blobs, k, m))
  {
    if m > 0 {
      ShardsFit(blobs, k, m - 1);
      var own := ShardsOf(m - 1, |blobs[m - 1]|, k);
      forall i | 0 <= i < |own|
        ensures ShardFits(blobs, own[i])
      {
        BoundariesAscend(|blobs[m - 1]|, k, i, k);
      }
    }
  }

  lemma OutputAppend(blobs: seq<Blob>, shards: seq<Shard>, shard: Shard)
    requires AllFit(blobs, shards) && ShardFits(blobs, shard)
    ensures AllFit(blobs, shards + [shard])
    ensures ShardOutput(blobs, shards + [shard]) == ShardOutput(blobs, shards) + Tagged(shard.blob, LinesOf(blobs, shard))
  {
    hide LinesOf, ShardFits;
    assert (shards + [shard])[..|shards|] == shards;
  }

  lemma ShardIs(blobs: seq<Blob>, b: nat, k: nat, i: nat)
    requires b < |blobs| && i < k
    ensures ShardFits(blobs, ShardsOf(b, |blobs[b]|, k)[i])
    ensures LinesOf(blobs, ShardsOf(b, |blobs[b]|, k)[i]) == ShardLines(blobs[b], k, i)
  {
    hide Boundary, LinesFrom;
    BoundariesAscend(|blobs[b]|, k, i, k);
  }

  lemma {:induction false} OutputOfOneBlob(blobs: seq<Blob>, before: seq<Shard>, b: nat, k: nat, n: nat)
    requires b < |blobs| && n <= k && k > 0 && AllFit(blobs, before)
    ensures AllFit(blobs, before + ShardsOf(b, |blobs[b]|, k)[..n])
    ensures ShardOutput(blobs, before + ShardsOf(b, |blobs[b]|, k)[..n]) == ShardOutput(blobs, before) + Tagged(b, FirstShards(blobs[b], k, n))
  {
    hide ShardOutput, LinesOf, ShardFits, ShardLines, AllFit;
    var own := ShardsOf(b, |blobs[b]|, k);
    if n == 0 {
      assert before + own[..0] == before;
    } else {
      ShardIs(blobs, b, k, n - 1);
      OutputOfOneBlob(blobs, before, b, k, n - 1);
      assert (before + own[..n - 1]) + [own[n - 1]] == before + own[..n];
      OutputAppend(blobs, before + own[..n - 1], own[n - 1]);
      TaggedAppend(b, FirstShards(blobs[b], k, n - 1), ShardLines(blobs[b], k, n - 1));
    }
  }

  lemma TaggedAppend(blob: nat, xs: seq<Line>, ys: seq<Line>)
    ensures Tagged(blob, xs + ys) == Tagged(blob, xs) + Tagged(blob, ys)
  {}

  lemma {:induction false} OutputUpTo(blobs: seq<Blob>, k: nat, m: nat)
    requires k > 0 && m < |blobs|
    ensures AllFit(blobs, ShardsUpTo(blobs, k, m + 1))
    ensures AllFit(blobs, ShardsUpTo(blobs, k, m))
    ensures ShardOutput(blobs, ShardsUpTo(blobs, k, m + 1)) ==
            ShardOutput(blobs, ShardsUpTo(blobs, k, m)) + Tagged(m, FirstShards(blobs[m], k, k))
  {
    ShardsFit(blobs, k, m);
    ShardsFit(blobs, k, m + 1);
    OutputOfOneBlob(blobs, ShardsUpTo(blobs, k, m), m, k, k);
    var own := ShardsOf(m, |blobs[m]|, k);
    assert own[..k] == own;
  }

  // No blob's shards yield less than its lines.
  lemma ShardsCoverBlob(blob: Blob, k: nat)
    requires k > 0
    ensures |FirstShards(blob, k, k)| >= |AllLines(blob)|
    ensures FirstShards(blob, k, k) == AllLines(blob) <==> Divisible(blob, k)
    ensures !Divisible(blob, k) ==> |FirstShards(blob, k, k)| > |AllLines(blob)|
  {
    hide FirstShards, AllLines;
    ShardsYieldEachLineOnce(blob, k);
    if !Divisible(blob, k) {
      ShortBlobShards(blob, k, k);
    }
  }

  ghost predicate AllDivisible(blobs: seq<Blob>, k: nat, m: nat)
    requires m <= |blobs|
  {
    forall b :: 0 <= b < m ==> Divisible(blobs[b], k)
  }

  lemma AllButLast(blobs: seq<Blob>, k: nat, m: nat)
    requires 0 < m <= |blobs|
    ensures AllDivisible(blobs, k, m) <==> AllDivisible(blobs, k, m - 1) && Divisible(blobs[m - 1], k)
  {}

  // Two parts, neither too short: they make up the whole exactly if neither is too long.
  lemma PartsExactly<T>(a: seq<T>, b: seq<T>, c: seq<T>, d: seq<T>)
    requires |a| >= |c| && |b| >= |d|
    ensures |a + b| >= |c + d| && (a + b == c + d <==> a == c && b == d)
  {
    if a + b == c + d {
      assert |a| == |c|;
      assert a == (a + b)[..|a|] && c == (c + d)[..|a|] && b == (a + b)[|a|..] && d == (c + d)[|a|..];
    }
  }

  ghost predicate OutputExactly(blobs: seq<Blob>, k: nat, m: nat)
    requires k > 0 && m <= |blobs| && AllFit(blobs, ShardsUpTo(blobs, k, m))
  {
    var output, every := ShardOutput(blobs, ShardsUpTo(blobs, k, m)), EveryLine(blobs, m);
    |output| >= |every| && (output == every <==> AllDivisible(blobs, k, m))
  }

  lemma OneMoreBlob(blobs: seq<Blob>, k: nat, m: nat)
    requires k > 0 && m < |blobs| && AllFit(blobs, ShardsUpTo(blobs, k, m)) && OutputExactly(blobs, k, m)
    ensures AllFit(blobs, ShardsUpTo(blobs, k, m + 1)) && OutputExactly(blobs, k, m + 1)
  {
    var own, all := Tagged(m, FirstShards(blobs[m], k, k)), Tagged(m, AllLines(blobs[m]));
    assert EveryLine(blobs, m + 1) == EveryLine(blobs, m) + all;
    hide ShardsUpTo, ShardOutput, Divisible, AllFit, AllDivisible, EveryLine, Tagged, FirstShards, AllLines;
    OutputUpTo(blobs, k, m);
    TaggedExactly(blobs[m], k, m);
    AllButLast(blobs, k, m + 1);
    PartsExactly(ShardOutput(blobs, ShardsUpTo(blobs, k, m)), own, EveryLine(blobs, m), all);
  }

  lemma TaggedExactly(blob: Blob, k: nat, b: nat)
    requires k > 0
    ensures var own, all := Tagged(b, FirstShards(blob, k, k)), Tagged(b, AllLines(blob));
            |own| >= |all| && (own == all <==> Divisible(blob, k))
  {
    hide FirstShards, AllLines, Divisible, Tagged;
    ShardsCoverBlob(blob, k);
    SameTagged(b, FirstShards(blob, k, k), AllLines(blob));
  }

  lemma {:induction false} InputExactly(blobs: seq<Blob>, k: nat, m: nat)
    requires k > 0 && m <= |blobs|
    ensures AllFit(blobs, ShardsUpTo(blobs, k, m)) && OutputExactly(blobs, k, m)
  {
    hide OutputExactly, AllFit, ShardsUpTo;
    if m > 0 {
      InputExactly(blobs, k, m - 1);
      OneMoreBlob(blobs, k, m - 1);
    } else {
      NoBlobs(blobs, k);
    }
  }

  lemma NoBlobs(blobs: seq<Blob>, k: nat)
    requires k > 0
    ensures AllFit(blobs, ShardsUpTo(blobs, k, 0)) && OutputExactly(blobs, k, 0)
  {}

  lemma SameTagged(blob: nat, xs: seq<Line>, ys: seq<Line>)
    ensures |Tagged(blob, xs)| == |xs| && |Tagged(blob, ys)| == |ys| && (Tagged(blob, xs) == Tagged(blob, ys) <==> xs == ys)
  {
    if Tagged(blob, xs) == Tagged(blob, ys) {
      assert |Tagged(blob, xs)| == |Tagged(blob, ys)|;
      forall i | 0 <= i < |xs| ensures xs[i] == ys[i] {
        assert Tagged(blob, xs)[i] == Tagged(blob, ys)[i];
      }
    }
  }

  // The first lines of these shards were yielded; lost to no slice.
  ghost predicate Yielded(blobs: seq<Blob>, shards: seq<Shard>, lines: seq<seq<Line>>)
    requires AllFit(blobs, shards)
  {
    |lines| == |shards| && forall i :: 0 <= i < |shards| ==> lines[i] <= LinesOf(blobs, shards[i])
  }

  function Flat(shards: seq<Shard>, lines: seq<seq<Line>>): seq<BlobLine>
    requires |lines| == |shards|
  {
    if shards == [] then [] else
      Flat(shards[..|shards| - 1], lines[..|shards| - 1]) + Tagged(shards[|shards| - 1].blob, lines[|shards| - 1])
  }

  lemma {:induction false} FlatIsOutput(blobs: seq<Blob>, shards: seq<Shard>, lines: seq<seq<Line>>)
    requires AllFit(blobs, shards)
    requires |lines| == |shards| && forall i :: 0 <= i < |shards| ==> lines[i] == LinesOf(blobs, shards[i])
    ensures Flat(shards, lines) == ShardOutput(blobs, shards)
  {
    hide LinesOf, ShardFits;
    if shards != [] {
      FlatIsOutput(blobs, shards[..|shards| - 1], lines[..|shards| - 1]);
    }
  }

  /**
   The whole input: split_input, then every reader in slices of its own. No blob begins with a line of one byte.
   A reader asked for more lines than it has runs out; when all have run out, their output is every line of every blob
   exactly once, in order, if and only if each blob is empty or at least as long as its number of shards (or unsharded).
   */
  method RunInput(blobs: seq<Blob>, keys: nat, shardCount: nat, slices: nat -> seq<nat>)
    returns (shards: seq<Shard>, lines: seq<seq<Line>>, finished: bool)
    requires 0 < keys && |blobs| <= keys && forall b :: 0 <= b < |blobs| ==> Resumable(blobs[b], 0)
    ensures shards == ShardsUpTo(blobs, ShardsPerBlob(shardCount, keys), |blobs|)
    ensures AllFit(blobs, shards) && Yielded(blobs, shards, lines)
    ensures (forall i :: 0 <= i < |shards| ==> Sum(slices(i)) > |LinesOf(blobs, shards[i])|) ==> finished
    ensures finished ==> (Flat(shards, lines) == EveryLine(blobs, |blobs|) <==>
                            AllDivisible(blobs, ShardsPerBlob(shardCount, keys), |blobs|))
  {
    hide ShardsPerBlob, ShardsUpTo, AllDivisible, Stored, LineEnd, Flat, ShardOutput, EveryLine;
    shards := SplitInput(blobs, keys, shardCount);
    var k := ShardsPerBlob(shardCount, keys);
    InputExactly(blobs, k, |blobs|);
    lines, finished := [], true;
    for s := 0 to |shards|
      invariant |lines| == s
      invariant forall i :: 0 <= i < s ==> lines[i] <= LinesOf(blobs, shards[i])
      invariant finished ==> forall i :: 0 <= i < s ==> lines[i] == LinesOf(blobs, shards[i])
      invariant (forall i :: 0 <= i < s ==> Sum(slices(i)) > |LinesOf(blobs, shards[i])|) ==> finished
    {
      var blob, range := blobs[shards[s].blob], shards[s].range;
      assert ShardFits(blobs, shards[s]);
      var own, rest := RunSlices(blob, LineCheckpoint(range.start, range.end), slices(s));
      assert rest.None? ==> Stored(blob, rest) == [] by { NothingStored(blob); }
      assert own <= LinesOf(blobs, shards[s]);
      finished := finished && rest.None?;
      lines := lines + [own];
    }
    if finished {
      FlatIsOutput(blobs, shards, lines);
    }
  }

  lemma NothingStored(blob: Blob)
    ensures Stored(blob, None) == []
  {}
}
