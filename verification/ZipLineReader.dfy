/**
 BlobstoreZipLineInputReader (server/mapreduce/input_readers.py): the lines of the members of an archive,
 sharded between members and stored in the middle of one. The archive's entries are listed in order but read by name.
 */
module ZipLineReader {
  import opened Wrappers
  import opened Streams
  import opened LineReader

  datatype Member = Member(name: string, content: Blob)

  // ZipFile.infolist().
  type Archive = seq<Member>

  // One text for each entry of an archive.
  type Contents = seq<Blob>

  /** What the entries hold. */
  function Own(archive: Archive): (contents: Contents)
    ensures |contents| == |archive|
  {
    seq(|archive|, i requires 0 <= i < |archive| => archive[i].content)
  }

  /** ZipFile.read(name): a later entry hides every earlier one of its name. */
  function ReadByName(archive: Archive, name: string): Blob {
    if archive == [] then ""
    else if archive[|archive| - 1].name == name then archive[|archive| - 1].content
    else ReadByName(archive[..|archive| - 1], name)
  }

  /** What the reader gets for the entries. */
  function Read(archive: Archive): (contents: Contents)
    ensures |contents| == |archive|
  {
    seq(|archive|, i requires 0 <= i < |archive| => ReadByName(archive, archive[i].name))
  }

  /** It is the content of the entry's last namesake. */
  lemma {:induction false} LastNamesake(archive: Archive, i: nat) returns (last: nat)
    requires i < |archive|
    ensures i <= last < |archive| && archive[last].name == archive[i].name && Read(archive)[i] == archive[last].content
    ensures forall k :: last < k < |archive| ==> archive[k].name != archive[i].name
  {
    last := LastOf(archive, archive[i].name, i);
  }

  lemma {:induction false} LastOf(archive: Archive, name: string, i: nat) returns (last: nat)
    requires i < |archive| && archive[i].name == name
    ensures i <= last < |archive| && archive[last].name == name && ReadByName(archive, name) == archive[last].content
    ensures forall k :: last < k < |archive| ==> archive[k].name != name
  {
    last := |archive| - 1;
    if archive[last].name != name {
      last := LastOf(archive[..last], name, i);
    }
  }

  // ((file number, byte offset), line)
  datatype ZipLine = ZipLine(file: nat, offset: nat, line: string)

  function Tag(file: nat, lines: seq<Line>): seq<ZipLine> {
    seq(|lines|, i requires 0 <= i < |lines| => ZipLine(file, lines[i].0, lines[i].1))
  }

  function MemberFrom(contents: Contents, file: nat, p: nat): seq<ZipLine>
    requires file < |contents| && p <= |contents[file]|
  {
    Tag(file, LinesFrom(contents[file], p, |contents[file]|))
  }

  /** All lines of the members start .. end - 1. */
  function Members(contents: Contents, start: nat, end: nat): seq<ZipLine>
    requires end <= |contents|
    decreases end - start
  {
    if start >= end then [] else MemberFrom(contents, start, 0) + Members(contents, start + 1, end)
  }

  // ----- splitting -----

  datatype FileRange = FileRange(start: nat, end: nat)

  // Consecutive ranges from member 0 up to member end - 1.
  ghost predicate Consecutive(ranges: seq<FileRange>, end: nat) {
    && (forall i :: 0 <= i < |ranges| ==> ranges[i].start < ranges[i].end <= end)
    && (ranges != [] ==> ranges[0].start == 0)
    && (forall i :: 0 <= i < |ranges| - 1 ==> ranges[i + 1].start == ranges[i].end)
    && end == if ranges == [] then 0 else ranges[|ranges| - 1].end
  }

  ghost predicate AllEmpty(contents: Contents, a: nat, b: nat)
    requires b <= |contents|
  {
    forall f :: a <= f < b ==> contents[f] == ""
  }

  // What lies behind the last range is empty.
  ghost predicate CoversArchive(contents: Contents, ranges: seq<FileRange>) {
    var end := if ranges == [] then 0 else ranges[|ranges| - 1].end;
    Consecutive(ranges, end) && end <= |contents| && AllEmpty(contents, end, |contents|)
  }

  lemma ConsecutiveAppend(ranges: seq<FileRange>, start: nat, end: nat)
    requires Consecutive(ranges, start) && start < end
    ensures Consecutive(ranges + [FileRange(start, end)], end)
  {}

  /** The size of the entries start .. end - 1. */
  function OwnSize(archive: Archive, start: nat, end: nat): nat
    requires end <= |archive|
    decreases end
  {
    if start >= end then 0 else OwnSize(archive, start, end - 1) + |archive[end - 1].content|
  }

  // A reader ends with the entry that takes it to size_per_shard; only the last may stay below.
  ghost predicate FullShard(archive: Archive, r: FileRange, sizePerShard: nat) {
    && r.start < r.end <= |archive| && OwnSize(archive, r.start, r.end) >= sizePerShard
    && (r.start < r.end - 1 ==> OwnSize(archive, r.start, r.end - 1) < sizePerShard)
  }

  /** split_input for one archive. */
  method SplitArchive(archive: Archive, sizePerShard: nat) returns (ranges: seq<FileRange>)
    ensures CoversArchive(Own(archive), ranges)
    ensures forall i :: 0 <= i < |ranges| - 1 ==> FullShard(archive, ranges[i], sizePerShard)
    ensures ranges != [] ==>
              var last := ranges[|ranges| - 1];
              FullShard(archive, last, sizePerShard) || (last.end == |archive| && OwnSize(archive, last.start, last.end) < sizePerShard)
  {
    hide Consecutive;
    ranges := [];
    var size: nat, start: nat := 0, 0;
    ConsecutiveNone();
    for next := 0 to |archive|
      invariant start <= next && Consecutive(ranges, start)
      invariant start == next ==> size == 0
      invariant size == 0 ==> AllEmpty(Own(archive), start, next)
      invariant size == OwnSize(archive, start, next) && (start < next ==> size < sizePerShard)
      invariant forall i :: 0 <= i < |ranges| ==> FullShard(archive, ranges[i], sizePerShard)
    {
      size := size + |archive[next].content|;
      assert size == 0 ==> Own(archive)[next] == "";
      if size >= sizePerShard {
        ConsecutiveAppend(ranges, start, next + 1);
        ranges := ranges + [FileRange(start, next + 1)];
        size, start := 0, next + 1;
      }
    }
    if size != 0 {
      ConsecutiveAppend(ranges, start, |archive|);
      ranges := ranges + [FileRange(start, |archive|)];
      start := |archive|;
    }
    ConsecutiveEnd(ranges, start);
  }

  lemma ConsecutiveNone()
    ensures Consecutive([], 0)
  {}

  lemma ConsecutiveEnd(ranges: seq<FileRange>, end: nat)
    requires Consecutive(ranges, end)
    ensures end == if ranges == [] then 0 else ranges[|ranges| - 1].end
  {}

  function RangesLines(contents: Contents, ranges: seq<FileRange>): seq<ZipLine>
    requires forall i :: 0 <= i < |ranges| ==> ranges[i].end <= |contents|
  {
    if ranges == [] then []
    else RangesLines(contents, ranges[..|ranges| - 1]) + Members(contents, ranges[|ranges| - 1].start, ranges[|ranges| - 1].end)
  }

  lemma {:induction false} MembersAdjoin(contents: Contents, a: nat, b: nat, c: nat)
    requires a <= b <= c <= |contents|
    ensures Members(contents, a, b) + Members(contents, b, c) == Members(contents, a, c)
    decreases b - a
  {
    hide MemberFrom;
    if a < b {
      MembersAdjoin(contents, a + 1, b, c);
      assert (MemberFrom(contents, a, 0) + Members(contents, a + 1, b)) + Members(contents, b, c) ==
             MemberFrom(contents, a, 0) + (Members(contents, a + 1, b) + Members(contents, b, c));
    }
  }

  lemma {:induction false} EmptyMembers(contents: Contents, a: nat, b: nat)
    requires a <= b <= |contents| && AllEmpty(contents, a, b)
    ensures Members(contents, a, b) == []
    decreases b - a
  {
    if a < b {
      EmptyMembers(contents, a + 1, b);
    }
  }

  lemma {:induction false} EndsAscend(ranges: seq<FileRange>)
    requires ranges != [] && Consecutive(ranges, ranges[|ranges| - 1].end)
    ensures forall i :: 0 <= i < |ranges| - 1 ==> ranges[i].end <= ranges[|ranges| - 1].start
  {
    forall i | 0 <= i < |ranges| - 1
      ensures ranges[i].end <= ranges[|ranges| - 1].start
    {
      var k := i;
      while k < |ranges| - 2
        invariant i <= k <= |ranges| - 2 && ranges[i].end <= ranges[k].end
      {
        assert ranges[k + 1].start == ranges[k].end;
        k := k + 1;
      }
    }
  }

  lemma {:induction false} RangesReach(contents: Contents, ranges: seq<FileRange>)
    requires ranges != [] && Consecutive(ranges, ranges[|ranges| - 1].end) && ranges[|ranges| - 1].end <= |contents|
    ensures RangesLines(contents, ranges) == Members(contents, 0, ranges[|ranges| - 1].end)
  {
    var last := ranges[|ranges| - 1];
    if |ranges| > 1 {
      var before := ranges[..|ranges| - 1];
      assert forall i :: 0 <= i < |before| ==> before[i] == ranges[i];
      EndsAscend(ranges);
      assert before[|before| - 1].end == last.start;
      RangesReach(contents, before);
      MembersAdjoin(contents, 0, last.start, last.end);
    } else {
      assert ranges[..0] == [];
      assert RangesLines(contents, ranges[..0]) == [];
    }
  }

  lemma RangesReachEnd(contents: Contents, ranges: seq<FileRange>)
    requires CoversArchive(contents, ranges)
    ensures RangesLines(contents, ranges) == Members(contents, 0, |contents|)
  {
    if ranges == [] {
      EmptyMembers(contents, 0, |contents|);
    } else {
      var last := ranges[|ranges| - 1].end;
      RangesReach(contents, ranges);
      EmptyMembers(contents, last, |contents|);
      MembersAdjoin(contents, 0, last, |contents|);
    }
  }

  // Entries behind the last range are empty, and so are their last namesakes.
  lemma CoversWhatIsRead(archive: Archive, ranges: seq<FileRange>)
    requires CoversArchive(Own(archive), ranges)
    ensures CoversArchive(Read(archive), ranges)
  {
    var end := if ranges == [] then 0 else ranges[|ranges| - 1].end;
    forall f | end <= f < |archive|
      ensures Read(archive)[f] == ""
    {
      var last := LastNamesake(archive, f);
      assert Own(archive)[last] == "";
    }
  }

  // Reading by name gives each entry its own lines.
  ghost predicate NamesakesAgree(archive: Archive) {
    forall f :: 0 <= f < |archive| ==> LinesAgree(Read(archive)[f], archive[f].content)
  }

  ghost predicate LinesAgree(a: Blob, b: Blob) {
    LineReader.AllLines(a) == LineReader.AllLines(b)
  }

  lemma {:induction false} FilesOf(contents: Contents, a: nat)
    requires a <= |contents|
    ensures forall i :: 0 <= i < |Members(contents, a, |contents|)| ==> Members(contents, a, |contents|)[i].file >= a
    decreases |contents| - a
  {
    if a < |contents| {
      FilesOf(contents, a + 1);
    }
  }

  lemma TagInjective(file: nat, xs: seq<Line>, ys: seq<Line>)
    requires Tag(file, xs) == Tag(file, ys)
    ensures xs == ys
  {
    assert |Tag(file, xs)| == |Tag(file, ys)|;
    forall i | 0 <= i < |xs| ensures xs[i] == ys[i] {
      assert Tag(file, xs)[i] == Tag(file, ys)[i];
    }
  }

  // The lines of one file in front of lines of later files: no other way to cut.
  lemma SameCut(file: nat, a: seq<ZipLine>, x: seq<ZipLine>, b: seq<ZipLine>, y: seq<ZipLine>)
    requires a + x == b + y && |a| <= |b|
    requires forall i :: 0 <= i < |b| ==> b[i].file == file
    requires forall i :: 0 <= i < |x| ==> x[i].file > file
    ensures a == b && x == y
  {
    assert forall i :: 0 <= i < |b| ==> (b + y)[i] == b[i];
    if x != [] {
      assert (a + x)[|a|] == x[0];
    }
    assert a == (a + x)[..|a|] && b == (b + y)[..|b|] && x == (a + x)[|a|..] && y == (b + y)[|b|..];
  }

  lemma {:induction false} SameMembersExactly(xs: Contents, ys: Contents, a: nat)
    requires |xs| == |ys| && a <= |xs|
    ensures Members(xs, a, |xs|) == Members(ys, a, |ys|) <==> forall f :: a <= f < |xs| ==> LinesAgree(xs[f], ys[f])
    decreases |xs| - a
  {
    hide LinesFrom;
    if a < |xs| {
      SameMembersExactly(xs, ys, a + 1);
      FilesOf(xs, a + 1);
      FilesOf(ys, a + 1);
      var p, q := MemberFrom(xs, a, 0), MemberFrom(ys, a, 0);
      var x, y := Members(xs, a + 1, |xs|), Members(ys, a + 1, |ys|);
      if p + x == q + y {
        if |p| <= |q| { SameCut(a, p, x, q, y); } else { SameCut(a, q, y, p, x); }
        TagInjective(a, LineReader.AllLines(xs[a]), LineReader.AllLines(ys[a]));
      }
    }
  }

  /**
   The readers of one archive together yield every line of every entry exactly once and in order, if and only if each
   entry has the lines of its last namesake.
   */
  lemma SplitYieldsEachLineOnce(archive: Archive, ranges: seq<FileRange>)
    requires CoversArchive(Own(archive), ranges)
    ensures CoversArchive(Read(archive), ranges)
    ensures RangesLines(Read(archive), ranges) == Members(Own(archive), 0, |archive|) <==> NamesakesAgree(archive)
  {
    hide Read, Own, Members, RangesLines, LinesAgree;
    CoversWhatIsRead(archive, ranges);
    RangesReachEnd(Read(archive), ranges);
    SameMembersExactly(Read(archive), Own(archive), 0);
    assert forall f :: 0 <= f < |archive| ==> Own(archive)[f] == archive[f].content by { OwnContents(archive); }
  }

  lemma OwnContents(archive: Archive)
    ensures forall f :: 0 <= f < |archive| ==> Own(archive)[f] == archive[f].content
  {}

  ghost predicate DistinctNames(archive: Archive) {
    forall i, j :: 0 <= i < j < |archive| ==> archive[i].name != archive[j].name
  }

  /** With distinct names the readers yield every line of every entry. */
  lemma DistinctNamesAreRead(archive: Archive, ranges: seq<FileRange>)
    requires CoversArchive(Own(archive), ranges) && DistinctNames(archive)
    ensures CoversArchive(Read(archive), ranges) && RangesLines(Read(archive), ranges) == Members(Own(archive), 0, |archive|)
  {
    forall f | 0 <= f < |archive|
      ensures LinesAgree(Read(archive)[f], archive[f].content)
    {
      var last := LastNamesake(archive, f);
    }
    SplitYieldsEachLineOnce(archive, ranges);
  }

  /** Two entries of one name: the second is read twice and the first never, however the archive is split. */
  lemma FirstNamesakeNeverRead(name: string, first: string, second: string, ranges: seq<FileRange>)
    requires '\n' !in first && '\n' !in second
    requires CoversArchive(Own([Member(name, first + "\n"), Member(name, second + "\n")]), ranges)
    ensures var archive := [Member(name, first + "\n"), Member(name, second + "\n")];
            && CoversArchive(Read(archive), ranges)
            && RangesLines(Read(archive), ranges) == [ZipLine(0, 0, second), ZipLine(1, 0, second)]
            && Members(Own(archive), 0, 2) == [ZipLine(0, 0, first), ZipLine(1, 0, second)]
  {
    hide CoversArchive, LinesFrom;
    var archive := [Member(name, first + "\n"), Member(name, second + "\n")];
    CoversWhatIsRead(archive, ranges);
    RangesReachEnd(Read(archive), ranges);
    OneLine(first);
    OneLine(second);
    assert Read(archive) == [second + "\n", second + "\n"] && Own(archive) == [first + "\n", second + "\n"];
    TwoMembers([second + "\n", second + "\n"]);
    TwoMembers([first + "\n", second + "\n"]);
  }

  lemma {:induction false} EndOfWord(word: string, p: nat)
    requires '\n' !in word && p <= |word|
    ensures LineEnd(word + "\n", p) == |word| + 1
    decreases |word| - p
  {
    if p < |word| {
      EndOfWord(word, p + 1);
      assert (word + "\n")[p] == word[p];
    }
  }

  lemma OneLine(word: string)
    requires '\n' !in word
    ensures LineReader.AllLines(word + "\n") == [(0, word)]
  {
    var s := word + "\n";
    EndOfWord(word, 0);
    assert s[0..|s|] == s && s[..|s| - 1] == word && RStrip(word) == word;
    assert LinesFrom(s, |s|, |s|) == [];
  }

  lemma TwoMembers(contents: Contents)
    requires |contents| == 2
    ensures Members(contents, 0, 2) == MemberFrom(contents, 0, 0) + MemberFrom(contents, 1, 0)
  {
    assert Members(contents, 2, 2) == [] && Members(contents, 1, 2) == MemberFrom(contents, 1, 0);
  }

  // ----- the reader object -----

  datatype ZipCheckpoint = ZipCheckpoint(startFile: nat, endFile: nat, offset: nat)

  ghost predicate ValidCheckpoint(contents: Contents, json: ZipCheckpoint) {
    && json.startFile <= json.endFile <= |contents|
    && (if json.startFile < json.endFile then json.offset <= |contents[json.startFile]| else json.offset == 0)
  }

  /** What a reader restored from this state yields. */
  function RestoredLines(contents: Contents, json: ZipCheckpoint): seq<ZipLine>
    requires ValidCheckpoint(contents, json)
  {
    if json.startFile == json.endFile then [] else
      MemberFrom(contents, json.startFile, FirstLine(contents[json.startFile], json.offset)) + Members(contents, json.startFile + 1, json.endFile)
  }

  // _filestream: text and position.
  type Stream = Option<(Blob, nat)>

  ghost predicate Fits(contents: Contents, startFile: nat, endFile: nat, initialOffset: nat, stream: Stream) {
    && startFile <= endFile <= |contents|
    && (stream.None? ==> ValidCheckpoint(contents, ZipCheckpoint(startFile, endFile, initialOffset)))
    && (stream.Some? ==>
          && startFile < endFile
          && stream.value.0 == contents[startFile] && stream.value.1 <= |stream.value.0| && LineBoundary(stream.value.0, stream.value.1))
  }

  // _entries, once read, is a stack whose top is the next entry.
  ghost predicate EntriesFit(archive: Archive, next: nat, endFile: nat, entries: Option<seq<Member>>) {
    && endFile <= |archive|
    && (entries.Some? ==>
          && next <= endFile && |entries.value| == endFile - next
          && forall i :: 0 <= i < |entries.value| ==> entries.value[i] == archive[endFile - 1 - i])
  }

  ghost function Left(contents: Contents, startFile: nat, endFile: nat, initialOffset: nat, stream: Stream): seq<ZipLine>
    requires Fits(contents, startFile, endFile, initialOffset, stream)
  {
    if stream.None? then RestoredLines(contents, ZipCheckpoint(startFile, endFile, initialOffset))
    else MemberFrom(contents, startFile, stream.value.1) + Members(contents, startFile + 1, endFile)
  }

  class ZipLineInputReader {
    const archive: Archive
    const endFile: nat
    var startFile: nat
    var initialOffset: nat
    var entries: Option<seq<Member>>
    var stream: Stream

    ghost predicate Valid()
      reads this
    {
      && Fits(Read(archive), startFile, endFile, initialOffset, stream)
      && EntriesFit(archive, if stream.Some? then startFile + 1 else startFile, endFile, entries)
      && (stream.Some? ==> entries.Some?)
    }

    ghost function Todo(): seq<ZipLine>
      requires Valid()
      reads this
    {
      Left(Read(archive), startFile, endFile, initialOffset, stream)
    }

    constructor (archive: Archive, json: ZipCheckpoint)
      requires ValidCheckpoint(Read(archive), json)
      ensures Valid() && this.archive == archive && endFile == json.endFile && stream.None?
      ensures ZipCheckpoint(startFile, endFile, initialOffset) == json
      ensures Todo() == RestoredLines(Read(archive), json)
    {
      this.archive, endFile := archive, json.endFile;
      startFile, initialOffset, entries, stream := json.startFile, json.offset, None, None;
    }

    /** The opening part of next(): an entry is popped and read by its name; the line the offset lies in is skipped. */
    method Open() returns (found: bool)
      requires Valid() && stream.None?
      modifies this
      ensures Valid() && Todo() == old(Todo())
      ensures startFile == old(startFile)
      ensures found <==> stream.Some?
      ensures !found ==> Todo() == []
    {
      hide Members, MemberFrom, LinesFrom, ReadByName;
      if entries.None? {
        var first := startFile;
        entries := Some(seq(endFile - first, (i: nat) requires i < endFile - first => archive[endFile - 1 - i]));
      }
      if entries.value == [] {
        return false;
      }
      var last := |entries.value| - 1;
      var entry := entries.value[last];
      entries := Some(entries.value[..last]);
      var value := ReadByName(archive, entry.name);
      stream := Some((value, if initialOffset != 0 then LineEnd(value, initialOffset) else 0));
      return true;
    }

    /** next(): the recursive call at the end of a member is a call here too. */
    method Next() returns (out: Option<ZipLine>)
      requires Valid()
      modifies this
      ensures Valid()
      ensures old(Todo()) == [] ==> out.None? && Todo() == []
      ensures old(Todo()) != [] ==> out == Some(old(Todo())[0]) && Todo() == old(Todo())[1..]
      ensures old(startFile) <= startFile
      decreases endFile - startFile
    {
      hide Fits, Left, LineEnd, Read;
      if stream.None? {
        var found := Open();
        if !found {
          return None;
        }
      }
      var (value, start) := stream.value;
      ReadOne(Read(archive), startFile, endFile, initialOffset, value, start);
      if start == |value| {
        stream := None;
        startFile, initialOffset := startFile + 1, 0;
        out := Next();
        return;
      }
      stream := Some((value, LineEnd(value, start)));
      return Some(ZipLine(startFile, start, RStrip(value[start..LineEnd(value, start)])));
    }

    method ToJson() returns (json: ZipCheckpoint)
      requires Valid()
      ensures json == ZipCheckpoint(startFile, endFile,
                        if stream.None? then initialOffset else if stream.value.1 == 0 then 0 else stream.value.1 - 1)
    {
      var offset := initialOffset;
      if stream.Some? {
        offset := stream.value.1;
        if offset != 0 {
          offset := offset - 1;
        }
      }
      json := ZipCheckpoint(startFile, endFile, offset);
    }
  }

  // Reading on in an open member: one more line, or over to the next member.
  lemma ReadOne(contents: Contents, startFile: nat, endFile: nat, initialOffset: nat, value: Blob, start: nat)
    requires Fits(contents, startFile, endFile, initialOffset, Some((value, start)))
    ensures startFile < endFile && start <= |value|
    ensures start == |value| ==>
              && Fits(contents, startFile + 1, endFile, 0, None)
              && Left(contents, startFile + 1, endFile, 0, None) ==
                 Left(contents, startFile, endFile, initialOffset, Some((value, start)))
    ensures start < |value| ==>
              var next := Some((value, LineEnd(value, start)));
              && Fits(contents, startFile, endFile, initialOffset, next)
              && Left(contents, startFile, endFile, initialOffset, Some((value, start))) ==
                 [ZipLine(startFile, start, RStrip(value[start..LineEnd(value, start)]))] +
                 Left(contents, startFile, endFile, initialOffset, next)
  {
    hide MemberFrom, LinesFrom, RStrip, Members, LineEnd, RestoredLines;
    MemberStep(contents, startFile, start);
    NextMember(contents, startFile + 1, endFile);
  }

  lemma MemberStep(contents: Contents, file: nat, p: nat)
    requires file < |contents| && p <= |contents[file]|
    ensures p == |contents[file]| ==> MemberFrom(contents, file, p) == []
    ensures p < |contents[file]| ==>
              MemberFrom(contents, file, p) ==
              [ZipLine(file, p, RStrip(contents[file][p..LineEnd(contents[file], p)]))] + MemberFrom(contents, file, LineEnd(contents[file], p))
  {
    if p < |contents[file]| {
      var rest := LinesFrom(contents[file], LineEnd(contents[file], p), |contents[file]|);
      assert LinesFrom(contents[file], p, |contents[file]|) == [(p, RStrip(contents[file][p..LineEnd(contents[file], p)]))] + rest;
    }
  }

  lemma NextMember(contents: Contents, start: nat, end: nat)
    requires start <= end <= |contents|
    ensures ValidCheckpoint(contents, ZipCheckpoint(start, end, 0))
    ensures Members(contents, start, end) == RestoredLines(contents, ZipCheckpoint(start, end, 0))
  {}

  // ----- checkpoints -----

  /**
   Stored in the middle of a member, the reader yields after restoring exactly what it still had to yield if and
   only if it did not stand at position 1 of that member; there the member's first line comes again.
   */
  lemma CheckpointRestores(contents: Contents, file: nat, endFile: nat, position: nat)
    requires file < endFile <= |contents| && position <= |contents[file]| && LineBoundary(contents[file], position)
    ensures var stored := RestoredLines(contents, ZipCheckpoint(file, endFile, if position == 0 then 0 else position - 1));
            stored == MemberFrom(contents, file, position) + Members(contents, file + 1, endFile) <==> position != 1
  {
    hide Members, LinesFrom, RStrip;
    if position == 1 {
      MemberStep(contents, file, 0);
      assert LineEnd(contents[file], 0) == 1 by { LineReader.LineEndOfPrevious(contents[file], 1); }
    } else if position > 1 {
      LineReader.LineEndOfPrevious(contents[file], position);
    }
  }

  // None of the reader's members has a first line of one byte.
  predicate Resumable(contents: Contents, start: nat, end: nat)
    requires end <= |contents|
  {
    forall f :: start <= f < end ==> LineEnd(contents[f], 0) != 1
  }

  /** One slice of up to n lines, for readers none of whose members starts with a one-byte line. */
  method RunSlice(archive: Archive, json: ZipCheckpoint, n: nat) returns (lines: seq<ZipLine>, next: ZipCheckpoint)
    requires ValidCheckpoint(Read(archive), json) && Resumable(Read(archive), json.startFile, json.endFile)
    ensures ValidCheckpoint(Read(archive), next) && next.endFile == json.endFile && json.startFile <= next.startFile
    ensures lines + RestoredLines(Read(archive), next) == RestoredLines(Read(archive), json)
    ensures |lines| == n || (|lines| < n && RestoredLines(Read(archive), next) == [])
  {
    hide RestoredLines, Resumable, Fits, Left, Read;
    var reader := new ZipLineInputReader(archive, json);
    lines := [];
    ghost var all := reader.Todo();
    ghost var todo := all;
    while |lines| < n
      invariant |lines| <= n
      invariant fresh(reader) && reader.Valid() && reader.archive == archive && reader.endFile == json.endFile
      invariant json.startFile <= reader.startFile
      invariant todo == reader.Todo() && lines + todo == all
    {
      var line := reader.Next();
      if line.None? {
        break;
      }
      MoveOne(lines, todo, all);
      lines, todo := lines + [line.value], todo[1..];
    }
    next := reader.ToJson();
    ResumableSuffix(Read(archive), json, reader.startFile);
    StoresExactly(Read(archive), reader.startFile, reader.endFile, reader.initialOffset, reader.stream);
  }

  lemma ResumableSuffix(contents: Contents, json: ZipCheckpoint, start: nat)
    requires ValidCheckpoint(contents, json) && Resumable(contents, json.startFile, json.endFile) && json.startFile <= start
    ensures Resumable(contents, start, json.endFile)
  {}

  lemma StoresExactly(contents: Contents, startFile: nat, endFile: nat, initialOffset: nat, stream: Stream)
    requires Fits(contents, startFile, endFile, initialOffset, stream) && Resumable(contents, startFile, endFile)
    ensures var next := ZipCheckpoint(startFile, endFile, if stream.None? then initialOffset else if stream.value.1 == 0 then 0 else stream.value.1 - 1);
            && ValidCheckpoint(contents, next)
            && RestoredLines(contents, next) == Left(contents, startFile, endFile, initialOffset, stream)
  {
    if stream.Some? {
      NotPositionOne(contents, startFile, endFile, stream.value.1);
      CheckpointRestores(contents, startFile, endFile, stream.value.1);
    }
  }

  lemma NotPositionOne(contents: Contents, file: nat, endFile: nat, position: nat)
    requires file < endFile <= |contents| && Resumable(contents, file, endFile) && position <= |contents[file]| && LineBoundary(contents[file], position)
    ensures position != 1
  {
    if 0 < position <= |contents[file]| {
      LineReader.LineEndOfPrevious(contents[file], position);
    }
  }

  /** Any sequence of slices yields the first lines of the uninterrupted output, as many as were asked for. */
  method RunSlices(archive: Archive, start: ZipCheckpoint, slices: seq<nat>) returns (lines: seq<ZipLine>, json: ZipCheckpoint)
    requires ValidCheckpoint(Read(archive), start) && Resumable(Read(archive), start.startFile, start.endFile)
    ensures ValidCheckpoint(Read(archive), json)
    ensures lines + RestoredLines(Read(archive), json) == RestoredLines(Read(archive), start)
    ensures |lines| == Sum(slices) || (|lines| < Sum(slices) && RestoredLines(Read(archive), json) == [])
  {
    hide RestoredLines, Resumable, Read;
    lines, json := [], start;
    for s := 0 to |slices|
      invariant ValidCheckpoint(Read(archive), json) && json.endFile == start.endFile && start.startFile <= json.startFile
      invariant lines + RestoredLines(Read(archive), json) == RestoredLines(Read(archive), start)
      invariant |lines| == Sum(slices[..s]) || (|lines| < Sum(slices[..s]) && RestoredLines(Read(archive), json) == [])
    {
      SumNext(slices, s);
      ResumableSuffix(Read(archive), start, json.startFile);
      var more, next := RunSlice(archive, json, slices[s]);
      assert (lines + more) + RestoredLines(Read(archive), next) == lines + (more + RestoredLines(Read(archive), next));
      lines, json := lines + more, next;
    }
    assert slices[..|slices|] == slices;
  }

  // ----- one archive, all its readers, any slices -----

  function Joined(lines: seq<seq<ZipLine>>): seq<ZipLine> {
    if lines == [] then [] else Joined(lines[..|lines| - 1]) + lines[|lines| - 1]
  }

  ghost predicate InArchive(contents: Contents, ranges: seq<FileRange>) {
    forall i :: 0 <= i < |ranges| ==> ranges[i].start <= ranges[i].end <= |contents|
  }

  function LinesIn(contents: Contents, range: FileRange): seq<ZipLine>
    requires range.start <= range.end <= |contents|
  {
    Members(contents, range.start, range.end)
  }

  lemma {:induction false} JoinedIsOutput(contents: Contents, ranges: seq<FileRange>, lines: seq<seq<ZipLine>>)
    requires InArchive(contents, ranges) && |lines| == |ranges|
    requires forall i :: 0 <= i < |ranges| ==> lines[i] == LinesIn(contents, ranges[i])
    ensures Joined(lines) == RangesLines(contents, ranges)
  {
    hide Members;
    if ranges != [] {
      JoinedIsOutput(contents, ranges[..|ranges| - 1], lines[..|lines| - 1]);
    }
  }

  method RunRange(archive: Archive, range: FileRange, slices: seq<nat>) returns (lines: seq<ZipLine>, ended: bool)
    requires Resumable(Read(archive), 0, |archive|) && range.start <= range.end <= |archive|
    ensures lines <= LinesIn(Read(archive), range) && (ended ==> lines == LinesIn(Read(archive), range))
    ensures Sum(slices) > |LinesIn(Read(archive), range)| ==> ended
  {
    hide Read, Members, Resumable, RestoredLines;
    NextMember(Read(archive), range.start, range.end);
    ResumablePart(Read(archive), range.start, range.end);
    var own, rest := RunSlices(archive, ZipCheckpoint(range.start, range.end, 0), slices);
    lines, ended := own, |own| < Sum(slices);
  }

  /**
   split_input for one archive, then every reader in slices of its own; no entry begins with a line of one byte. A
   reader asked for more lines than it has runs out; when all have, their output is every line of every entry exactly
   once, in order, if and only if each entry has the lines of its last namesake.
   */
  method RunArchive(archive: Archive, sizePerShard: nat, slices: nat -> seq<nat>)
    returns (ranges: seq<FileRange>, lines: seq<seq<ZipLine>>, finished: bool)
    requires Resumable(Read(archive), 0, |archive|)
    ensures CoversArchive(Own(archive), ranges) && InArchive(Read(archive), ranges) && |lines| == |ranges|
    ensures forall i :: 0 <= i < |ranges| ==> lines[i] <= LinesIn(Read(archive), ranges[i])
    ensures (forall i :: 0 <= i < |ranges| ==> Sum(slices(i)) > |LinesIn(Read(archive), ranges[i])|) ==> finished
    ensures finished ==> (Joined(lines) == Members(Own(archive), 0, |archive|) <==> NamesakesAgree(archive))
  {
    hide Read, Own, Members, Resumable, LinesIn, CoversArchive, NamesakesAgree, RangesLines, Joined;
    ranges := SplitArchive(archive, sizePerShard);
    ghost var contents := Read(archive);
    SplitYieldsEachLineOnce(archive, ranges);
    CoveredRanges(contents, ranges);
    lines, finished := [], true;
    for s := 0 to |ranges|
      invariant |lines| == s
      invariant forall i :: 0 <= i < s ==> lines[i] <= LinesIn(contents, ranges[i])
      invariant finished ==> forall i :: 0 <= i < s ==> lines[i] == LinesIn(contents, ranges[i])
      invariant (forall i :: 0 <= i < s ==> Sum(slices(i)) > |LinesIn(contents, ranges[i])|) ==> finished
    {
      var own, ended := RunRange(archive, ranges[s], slices(s));
      finished := finished && ended;
      lines := lines + [own];
    }
    if finished {
      JoinedIsOutput(contents, ranges, lines);
    }
  }

  lemma CoveredRanges(contents: Contents, ranges: seq<FileRange>)
    requires CoversArchive(contents, ranges)
    ensures InArchive(contents, ranges)
  {}

  lemma ResumablePart(contents: Contents, start: nat, end: nat)
    requires Resumable(contents, 0, |contents|) && end <= |contents|
    ensures Resumable(contents, start, end)
  {}
}
