/** Unique-prefix abbreviation of boolean flags (server/gflags.py). */
module Flags {
  import opened Wrappers
  import opened StringOrder
  import opened Sorting

  datatype Flag = Flag(name: string, boolean: bool)

  // ----- what an abbreviation is -----

  /** q also begins another entry than x: one that differs from x, or a second x. */
  ghost predicate Shared(entries: multiset<string>, x: string, q: string) {
    exists y :: Another(entries, x, y) && q <= y
  }

  ghost predicate Another(entries: multiset<string>, x: string, y: string) {
    y in entries && (y != x || entries[x] >= 2)
  }

  /** The shortest prefix of x that begins no other entry; x itself if there is none. */
  ghost predicate IsShortest(entries: multiset<string>, x: string, p: string) {
    && p != "" && p <= x
    && (p == x || !Shared(entries, x, p))
    && forall k :: 0 < k < |p| ==> Shared(entries, x, x[..k])
  }

  lemma ShortestIsUnique(entries: multiset<string>, x: string, p: string, q: string)
    requires IsShortest(entries, x, p) && IsShortest(entries, x, q)
    ensures p == q
  {
    assert p == x[..|p|] && q == x[..|q|];
  }

  /** A name that begins another entry keeps its full length. */
  lemma PrefixOfAnotherStaysWhole(entries: multiset<string>, x: string, p: string)
    requires IsShortest(entries, x, p) && Shared(entries, x, x)
    ensures p == x
  {}

  // ----- sorted neighbours -----

  function Lcp(a: string, b: string): (n: nat)
    ensures n <= |a| && n <= |b| && a[..n] == b[..n]
    ensures n < |a| && n < |b| ==> a[n] != b[n]
  {
    if a != "" && b != "" && a[0] == b[0] then
      var n := Lcp(a[1..], b[1..]);
      assert a[..n + 1] == [a[0]] + a[1..][..n] && b[..n + 1] == [b[0]] + b[1..][..n];
      n + 1
    else 0
  }

  lemma PrefixByLcp(a: string, b: string, k: nat)
    requires k <= |a|
    ensures a[..k] <= b <==> k <= Lcp(a, b)
  {
    var n := Lcp(a, b);
    if k <= n {
      assert a[..k] == a[..n][..k] == b[..n][..k] == b[..k];
    } else {
      assert a[..k][n] == a[n];
    }
  }

  lemma LcpIs(a: string, b: string, n: nat)
    requires n <= |a| && n <= |b| && a[..n] == b[..n] && (n < |a| && n < |b| ==> a[n] != b[n])
    ensures Lcp(a, b) == n
  {
    PrefixByLcp(a, b, n);
    if n < |a| {
      PrefixByLcp(a, b, n + 1);
      assert a[..n + 1][n] == a[n];
    }
  }

  lemma {:induction false} BetweenSharesMore(a: string, b: string, c: string)
    requires StrLeq(a, b) && StrLeq(b, c)
    ensures Lcp(a, c) <= Lcp(a, b) && Lcp(a, c) <= Lcp(b, c)
  {
    if a != "" && c != "" && a[0] == c[0] {
      BetweenSharesMore(a[1..], b[1..], c[1..]);
    }
  }

  lemma {:induction false} LcpSymmetric(a: string, b: string)
    ensures Lcp(a, b) == Lcp(b, a)
  {
    LcpIs(b, a, Lcp(a, b));
  }

  ghost predicate Ascending(names: seq<string>) {
    forall i, j :: 0 <= i < j < |names| ==> StrLeq(names[i], names[j])
  }

  function WithPrevious(names: seq<string>, i: nat): nat
    requires i < |names|
  {
    if i == 0 then 0 else Lcp(names[i], names[i - 1])
  }

  function WithNext(names: seq<string>, i: nat): nat
    requires i < |names|
  {
    if i + 1 == |names| then 0 else Lcp(names[i], names[i + 1])
  }

  lemma NeighboursShareMost(names: seq<string>, i: nat, j: nat)
    requires Ascending(names) && i < |names| && j < |names| && i != j
    ensures Lcp(names[i], names[j]) <= if j < i then WithPrevious(names, i) else WithNext(names, i)
  {
    LcpSymmetric(names[i], names[j]);
    if j < i - 1 {
      BetweenSharesMore(names[j], names[i - 1], names[i]);
      LcpSymmetric(names[i], names[i - 1]);
    } else if i + 1 < j {
      BetweenSharesMore(names[i], names[i + 1], names[j]);
    }
  }

  lemma SplitAt(names: seq<string>, i: nat)
    requires i < |names|
    ensures multiset(names) == multiset(names[..i]) + multiset{names[i]} + multiset(names[i + 1..])
  {
    assert names == names[..i] + [names[i]] + names[i + 1..];
  }

  lemma AnotherHasIndex(names: seq<string>, i: nat, y: string) returns (j: nat)
    requires i < |names| && Another(multiset(names), names[i], y)
    ensures j < |names| && j != i && names[j] == y
  {
    SplitAt(names, i);
    if y in multiset(names[..i]) {
      j :| 0 <= j < i && names[..i][j] == y;
    } else {
      assert y in names[i + 1..];
      var k :| 0 <= k < |names[i + 1..]| && names[i + 1..][k] == y;
      j := k + i + 1;
    }
  }

  lemma IndexIsAnother(names: seq<string>, i: nat, j: nat)
    requires i < |names| && j < |names| && i != j
    ensures Another(multiset(names), names[i], names[j])
  {
    SplitAt(names, i);
    if j < i {
      assert names[..i][j] == names[j];
    } else {
      assert names[i + 1..][j - i - 1] == names[j];
    }
  }

  /** What the loop cuts off the i-th sorted name, from its common prefixes with its two neighbours. */
  function Cut(names: seq<string>, i: nat): string
    requires i < |names|
  {
    var longer := if WithPrevious(names, i) < WithNext(names, i) then WithNext(names, i) else WithPrevious(names, i);
    if longer < |names[i]| then names[i][..longer + 1] else names[i]
  }

  lemma CutIsUnshared(names: seq<string>, i: nat)
    requires Ascending(names) && i < |names|
    ensures Cut(names, i) == names[i] || !Shared(multiset(names), names[i], Cut(names, i))
  {
    hide Ascending, Another;
    var x, p, all := names[i], Cut(names, i), multiset(names);
    if p != x && Shared(all, x, p) {
      var y :| Another(all, x, y) && p <= y;
      var j := AnotherHasIndex(names, i, y);
      NeighboursShareMost(names, i, j);
      PrefixByLcp(x, y, |p|);
      assert false;
    }
  }

  lemma SharedWith(names: seq<string>, i: nat, j: nat, k: nat)
    requires i < |names| && j < |names| && i != j && k <= Lcp(names[i], names[j])
    ensures Shared(multiset(names), names[i], names[i][..k])
  {
    hide Another, Lcp;
    IndexIsAnother(names, i, j);
    PrefixByLcp(names[i], names[j], k);
  }

  lemma CutIsShortest(names: seq<string>, i: nat)
    requires Ascending(names) && i < |names| && names[i] != ""
    ensures IsShortest(multiset(names), names[i], Cut(names, i))
  {
    hide Lcp, Ascending, Shared;
    CutIsUnshared(names, i);
    forall k | 0 < k < |Cut(names, i)|
      ensures Shared(multiset(names), names[i], names[i][..k])
    {
      if k <= WithPrevious(names, i) {
        SharedWith(names, i, i - 1, k);
      } else {
        SharedWith(names, i, i + 1, k);
      }
    }
  }

  // ----- FlagValues.ShortestUniquePrefixes -----

  function Names(fl: seq<Flag>): seq<string> {
    if fl == [] then []
    else
      var f := fl[|fl| - 1];
      Names(fl[..|fl| - 1]) + OwnNames(f)
  }

  function OwnNames(f: Flag): seq<string> {
    if f.boolean then [f.name, "no" + f.name] else [f.name]
  }

  function Entries(fl: seq<Flag>): multiset<string> {
    multiset(Names(fl))
  }

  lemma {:induction false} NamesNotEmpty(fl: seq<Flag>)
    requires forall f :: f in fl ==> f.name != ""
    ensures forall x :: x in Entries(fl) ==> x != ""
  {
    if fl != [] {
      var init := fl[..|fl| - 1];
      NamesNotEmpty(init);
      assert Entries(fl) == Entries(init) + multiset(OwnNames(fl[|fl| - 1]));
    }
  }

  lemma StrLeqIsTotal()
    ensures TotalPreorder(StrLeq)
  {
    forall x, y ensures StrLeq(x, y) || StrLeq(y, x) { StrLeqTotal(x, y); }
    forall x, y, z | StrLeq(x, y) && StrLeq(y, z) ensures StrLeq(x, z) { StrLeqTransitive(x, y, z); }
  }

  lemma SortedNames(names: seq<string>)
    ensures Ascending(SortBy(names, StrLeq)) && multiset(SortBy(names, StrLeq)) == multiset(names)
  {
    StrLeqIsTotal();
    SortBySorts(names, StrLeq);
  }

  lemma NamesNext(fl: seq<Flag>, k: nat)
    requires k < |fl|
    ensures Names(fl[..k + 1]) == Names(fl[..k]) + OwnNames(fl[k])
  {
    assert fl[..k + 1][..k] == fl[..k];
  }

  method SortedEntries(fl: seq<Flag>) returns (names: seq<string>)
    ensures Ascending(names) && multiset(names) == Entries(fl)
  {
    hide Names, Ascending, SortBy;
    names := [];
    assert Names(fl[..0]) == [] by { NamesOfNone(); }
    for k := 0 to |fl|
      invariant names == Names(fl[..k])
    {
      NamesNext(fl, k);
      ghost var before := names;
      names := names + [fl[k].name];
      if fl[k].boolean {
        names := names + ["no" + fl[k].name];
      }
      assert names == before + OwnNames(fl[k]);
    }
    assert fl[..|fl|] == fl;
    SortedNames(names);
    names := SortBy(names, StrLeq);
  }

  lemma NamesOfNone()
    ensures Names([]) == []
  {}

  // The inner loop: how many letters curr shares with the next name.
  method LettersShared(curr: string, next: Option<string>) returns (at: nat)
    ensures at == if next.None? then 0 else Lcp(curr, next.value)
  {
    at := 0;
    while at < |curr| && next.Some? && at < |next.value| && curr[at] == next.value[at]
      invariant at <= |curr| && (next.Some? ==> at <= |next.value| && curr[..at] == next.value[..at])
      invariant next.None? ==> at == 0
    {
      at := at + 1;
    }
    if next.Some? {
      LcpIs(curr, next.value, at);
    }
  }

  ghost predicate AllShortest(entries: multiset<string>, shortest: map<string, string>) {
    forall x :: x in shortest ==> IsShortest(entries, x, shortest[x])
  }

  method ShortestUniquePrefixes(fl: seq<Flag>) returns (shortest: map<string, string>)
    requires forall f :: f in fl ==> f.name != ""
    ensures forall x :: x in shortest <==> x in Entries(fl)
    ensures AllShortest(Entries(fl), shortest)
  {
    hide Lcp, IsShortest, Ascending, Shared, Entries;
    var names := SortedEntries(fl);
    NamesNotEmpty(fl);
    shortest := map[];
    var previous := 0;
    for i := 0 to |names|
      invariant i < |names| ==> previous == WithPrevious(names, i)
      invariant forall x :: x in shortest <==> x in names[..i]
      invariant AllShortest(multiset(names), shortest)
    {
      var curr := names[i];
      var at := LettersShared(curr, if i == |names| - 1 then None else Some(names[i + 1]));
      assert curr in multiset(names);
      CutIsShortest(names, i);
      var kept := curr;
      if at < |curr| {
        var stop := (if previous < at then at else previous) + 1;
        kept := if stop < |curr| then curr[..stop] else curr;
      }
      assert kept == Cut(names, i);
      shortest := shortest[curr := kept];
      previous := at;
      if i + 1 < |names| {
        LcpSymmetric(curr, names[i + 1]);
      }
      assert names[..i + 1] == names[..i] + [curr];
    }
    assert names[..|names|] == names;
    assert forall x :: x in names <==> x in multiset(names);
  }

  // ----- FlagValues.__call__: the boolean arguments -----

  /** arg is "--" and a prefix of x that begins no other entry, or all of x. */
  ghost predicate Abbreviates(entries: multiset<string>, x: string, arg: string) {
    && |arg| > 2 && arg[..2] == "--" && arg[2..] <= x
    && (arg[2..] == x || !Shared(entries, x, arg[2..]))
  }

  // The test the source makes, with the shortest prefix p of x.
  predicate StartsWithin(p: string, x: string, arg: string) {
    "--" + p <= arg && arg <= "--" + x
  }

  lemma StartsWithinAbbreviates(entries: multiset<string>, x: string, p: string, arg: string)
    requires IsShortest(entries, x, p)
    ensures StartsWithin(p, x, arg) <==> Abbreviates(entries, x, arg)
  {
    if StartsWithin(p, x, arg) {
      WithinAbbreviates(entries, x, p, arg);
    }
    if Abbreviates(entries, x, arg) {
      AbbreviatesWithin(entries, x, p, arg);
    }
  }

  lemma DashesOff(q: string, arg: string)
    requires |arg| >= 2 && arg[..2] == "--"
    ensures "--" + q <= arg <==> q <= arg[2..]
    ensures arg <= "--" + q <==> arg[2..] <= q
  {
    assert arg == "--" + arg[2..];
  }

  lemma WithinAbbreviates(entries: multiset<string>, x: string, p: string, arg: string)
    requires IsShortest(entries, x, p) && StartsWithin(p, x, arg)
    ensures Abbreviates(entries, x, arg)
  {
    assert ("--" + p)[..2] == "--";
    DashesOff(p, arg);
    DashesOff(x, arg);
    if arg[2..] != x && Shared(entries, x, arg[2..]) {
      assert Shared(entries, x, p);
    }
  }

  lemma AbbreviatesWithin(entries: multiset<string>, x: string, p: string, arg: string)
    requires IsShortest(entries, x, p) && Abbreviates(entries, x, arg)
    ensures StartsWithin(p, x, arg)
  {
    var q := arg[2..];
    assert q == x[..|q|] && p == x[..|p|];
    DashesOff(p, arg);
    DashesOff(x, arg);
  }

  /** No argument abbreviates two different entries. */
  lemma NoArgumentAbbreviatesTwo(entries: multiset<string>, x: string, y: string, arg: string)
    requires x in entries && y in entries && Abbreviates(entries, x, arg) && Abbreviates(entries, y, arg)
    ensures x == y
  {
    assert x != y ==> Another(entries, x, y) && Another(entries, y, x);
  }

  /** An entry that occurs twice has no abbreviation but itself. */
  lemma TwiceMeansWhole(entries: multiset<string>, x: string, arg: string)
    requires entries[x] >= 2 && Abbreviates(entries, x, arg)
    ensures arg == "--" + x
  {
    assert Another(entries, x, x);
    assert arg == arg[..2] + arg[2..];
  }

  function OnText(name: string): string {
    "--" + name + "=true"
  }

  function OffText(name: string): string {
    "--" + name + "=false"
  }

  /** One argument as the flag f leaves it. */
  ghost function AfterFlag(entries: multiset<string>, f: Flag, arg: string): string {
    if !f.boolean || '=' in arg then arg
    else if Abbreviates(entries, f.name, arg) then OnText(f.name)
    else if Abbreviates(entries, "no" + f.name, arg) then OffText(f.name)
    else arg
  }

  /** One argument after the flags fl, in the order the dictionary gives them. */
  ghost function AfterFlags(entries: multiset<string>, fl: seq<Flag>, arg: string): string {
    if fl == [] then arg else AfterFlag(entries, fl[|fl| - 1], AfterFlags(entries, fl[..|fl| - 1], arg))
  }

  lemma OwnNamesAreEntries(fl: seq<Flag>, f: Flag)
    requires f in fl
    ensures f.name in Entries(fl) && (f.boolean ==> "no" + f.name in Entries(fl))
  {
    var last := fl[|fl| - 1];
    assert Entries(fl) == Entries(fl[..|fl| - 1]) + multiset(OwnNames(last));
    assert f.name in OwnNames(f) && (f.boolean ==> "no" + f.name in OwnNames(f));
    if f != last {
      assert f in fl[..|fl| - 1];
      OwnNamesAreEntries(fl[..|fl| - 1], f);
    }
  }

  method ReplaceOccurrences(argv: array<string>, f: Flag, prefix: string, noPrefix: string, ghost entries: multiset<string>)
    requires f.boolean && IsShortest(entries, f.name, prefix) && IsShortest(entries, "no" + f.name, noPrefix)
    modifies argv
    ensures forall k :: 0 <= k < argv.Length ==>
              argv[k] == if k == 0 then old(argv[k]) else AfterFlag(entries, f, old(argv[k]))
  {
    hide IsShortest, Abbreviates;
    for i := 1 to if argv.Length < 1 then 1 else argv.Length
      invariant forall k :: 0 <= k < argv.Length ==>
                  argv[k] == if 1 <= k < i then AfterFlag(entries, f, old(argv[k])) else old(argv[k])
    {
      var arg := argv[i];
      StartsWithinAbbreviates(entries, f.name, prefix, arg);
      StartsWithinAbbreviates(entries, "no" + f.name, noPrefix, arg);
      if '=' in arg {
        continue;
      }
      if StartsWithin(prefix, f.name, arg) {
        argv[i] := OnText(f.name);
      } else if StartsWithin(noPrefix, "no" + f.name, arg) {
        argv[i] := OffText(f.name);
      }
    }
  }

  /** The loop over all flags; the first entry of argv, the program, is left alone. */
  method ExpandBooleans(fl: seq<Flag>, argv: array<string>)
    requires forall f :: f in fl ==> f.name != ""
    modifies argv
    ensures forall k :: 0 <= k < argv.Length ==>
              argv[k] == if k == 0 then old(argv[k]) else AfterFlags(Entries(fl), fl, old(argv[k]))
    ensures IsDictionary(fl) && !HasCollision(fl) ==> forall k :: 1 <= k < argv.Length ==> Expanded(fl, old(argv[k]), argv[k])
  {
    hide IsShortest, Abbreviates, AfterFlag, Expanded, IsDictionary, HasCollision;
    var shortest: Option<map<string, string>> := None;
    for i := 0 to |fl|
      invariant forall k :: 0 <= k < argv.Length ==>
                  argv[k] == if k == 0 then old(argv[k]) else AfterFlags(Entries(fl), fl[..i], old(argv[k]))
      invariant shortest.Some? ==>
                  (forall x :: x in shortest.value <==> x in Entries(fl)) && AllShortest(Entries(fl), shortest.value)
    {
      var f := fl[i];
      assert fl[..i + 1][..i] == fl[..i];
      if !f.boolean {
        assert forall arg :: AfterFlag(Entries(fl), f, arg) == arg by { NotBoolean(Entries(fl), f); }
        continue;
      }
      if shortest.None? {
        var computed := ShortestUniquePrefixes(fl);
        shortest := Some(computed);
      }
      OwnNamesAreEntries(fl, f);
      ReplaceOccurrences(argv, f, shortest.value[f.name], shortest.value["no" + f.name], Entries(fl));
    }
    assert fl[..|fl|] == fl;
    if IsDictionary(fl) && !HasCollision(fl) {
      forall k | 1 <= k < argv.Length
        ensures Expanded(fl, old(argv[k]), argv[k])
      {
        FlagsExpand(fl, old(argv[k]));
      }
    }
  }

  lemma NotBoolean(entries: multiset<string>, f: Flag)
    requires !f.boolean
    ensures forall arg :: AfterFlag(entries, f, arg) == arg
  {}

  // ----- the order of the dictionary -----

  ghost predicate Hits(entries: multiset<string>, f: Flag, arg: string) {
    && f.boolean && '=' !in arg
    && (Abbreviates(entries, f.name, arg) || Abbreviates(entries, "no" + f.name, arg))
  }

  lemma HitHasEquals(entries: multiset<string>, f: Flag, arg: string)
    ensures Hits(entries, f, arg) ==> '=' in AfterFlag(entries, f, arg)
    ensures !Hits(entries, f, arg) ==> AfterFlag(entries, f, arg) == arg
  {
    hide Abbreviates;
    assert OnText(f.name)[2 + |f.name|] == '=' && OffText(f.name)[2 + |f.name|] == '=';
  }

  lemma {:induction false} FirstHitDecides(entries: multiset<string>, fl: seq<Flag>, arg: string, k: nat)
    requires k < |fl| && Hits(entries, fl[k], arg) && forall j :: 0 <= j < k ==> !Hits(entries, fl[j], arg)
    ensures AfterFlags(entries, fl, arg) == AfterFlag(entries, fl[k], arg) && '=' in AfterFlags(entries, fl, arg)
  {
    hide Hits, Abbreviates;
    HitHasEquals(entries, fl[k], arg);
    if k < |fl| - 1 {
      FirstHitDecides(entries, fl[..|fl| - 1], arg, k);
    } else {
      NoHitKeeps(entries, fl[..k], arg);
    }
  }

  lemma {:induction false} NoHitKeeps(entries: multiset<string>, fl: seq<Flag>, arg: string)
    requires forall j :: 0 <= j < |fl| ==> !Hits(entries, fl[j], arg)
    ensures AfterFlags(entries, fl, arg) == arg
  {
    hide Hits, Abbreviates;
    if fl != [] {
      HitHasEquals(entries, fl[|fl| - 1], arg);
      NoHitKeeps(entries, fl[..|fl| - 1], arg);
    }
  }

  /** The keys of a dictionary. */
  ghost predicate IsDictionary(fl: seq<Flag>) {
    && (forall i :: 0 <= i < |fl| ==> fl[i].name != "")
    && forall i, j :: 0 <= i < j < |fl| ==> fl[i].name != fl[j].name
  }

  ghost predicate Collide(f: Flag, g: Flag) {
    f.boolean && g.boolean && g.name == "no" + f.name && '=' !in g.name
  }

  lemma TwiceIfNegated(fl: seq<Flag>, i: nat, j: nat)
    requires IsDictionary(fl) && i < |fl| && j < |fl| && fl[i].boolean && fl[j].name == "no" + fl[i].name
    ensures Entries(fl)[fl[j].name] >= 2
    decreases |fl|
  {
    var last, init := fl[|fl| - 1], fl[..|fl| - 1];
    var y := fl[j].name;
    assert fl[i].name != y by { assert |y| == |fl[i].name| + 2; }
    assert Entries(fl) == Entries(init) + multiset(OwnNames(last));
    if i < |fl| - 1 && j < |fl| - 1 {
      TwiceIfNegated(init, i, j);
    } else if i == |fl| - 1 {
      assert fl[j] in init;
      OwnNamesAreEntries(init, fl[j]);
      assert OwnNames(last)[1] == y;
    } else {
      assert fl[i] in init;
      OwnNamesAreEntries(init, fl[i]);
      assert OwnNames(last)[0] == y;
    }
  }

  lemma TwoHitsCollide(fl: seq<Flag>, i: nat, j: nat, arg: string)
    requires IsDictionary(fl) && i < |fl| && j < |fl| && i != j
    requires Hits(Entries(fl), fl[i], arg) && Hits(Entries(fl), fl[j], arg)
    ensures Collide(fl[i], fl[j]) || Collide(fl[j], fl[i])
  {
    hide Abbreviates, Entries;
    var entries, f, g := Entries(fl), fl[i], fl[j];
    OwnNamesAreEntries(fl, f);
    OwnNamesAreEntries(fl, g);
    assert f.name != g.name;
    var x := if Abbreviates(entries, f.name, arg) then f.name else "no" + f.name;
    var y := if Abbreviates(entries, g.name, arg) then g.name else "no" + g.name;
    NoArgumentAbbreviatesTwo(entries, x, y, arg);
    assert ("no" + f.name)[2..] == f.name && ("no" + g.name)[2..] == g.name;
    if x == f.name {
      TwiceIfNegated(fl, j, i);
    } else {
      TwiceIfNegated(fl, i, j);
    }
    TwiceMeansWhole(entries, x, arg);
    assert arg[2..] == x;
  }

  lemma EntriesWithout(fl: seq<Flag>, k: nat)
    requires k < |fl|
    ensures multiset(fl) == multiset(fl[..k] + fl[k + 1..]) + multiset{fl[k]}
    ensures Entries(fl) == Entries(fl[..k] + fl[k + 1..]) + multiset(OwnNames(fl[k]))
  {
    hide Entries;
    assert fl == fl[..k] + ([fl[k]] + fl[k + 1..]);
    EntriesOfParts(fl[..k], [fl[k]] + fl[k + 1..]);
    EntriesOfParts([fl[k]], fl[k + 1..]);
    EntriesOfParts(fl[..k], fl[k + 1..]);
    EntriesOfOne(fl[k]);
  }

  lemma EntriesOfOne(f: Flag)
    ensures Entries([f]) == multiset(OwnNames(f))
  {
    assert Names([f][..0]) == [];
    assert Names([f]) == OwnNames(f);
  }

  lemma {:induction false} EntriesOfPermutation(fl: seq<Flag>, gl: seq<Flag>)
    requires multiset(fl) == multiset(gl)
    ensures Entries(fl) == Entries(gl)
    decreases |fl|
  {
    hide Entries, OwnNames;
    if fl == [] {
      assert |gl| == |multiset(gl)|;
    } else {
      var last := |fl| - 1;
      assert fl[last] in multiset(gl);
      var k :| 0 <= k < |gl| && gl[k] == fl[last];
      EntriesWithout(fl, last);
      EntriesWithout(gl, k);
      SameRest(multiset(fl[..last] + fl[last + 1..]), multiset(gl[..k] + gl[k + 1..]), fl[last]);
      EntriesOfPermutation(fl[..last] + fl[last + 1..], gl[..k] + gl[k + 1..]);
    }
  }

  lemma SameRest(a: multiset<Flag>, b: multiset<Flag>, f: Flag)
    requires a + multiset{f} == b + multiset{f}
    ensures a == b
  {
    assert a == (a + multiset{f}) - multiset{f};
  }

  lemma {:induction false} EntriesOfParts(a: seq<Flag>, b: seq<Flag>)
    ensures Entries(a + b) == Entries(a) + Entries(b)
  {
    if b == [] {
      assert a + b == a;
    } else {
      var init := b[..|b| - 1];
      assert (a + b)[..|a + b| - 1] == a + init;
      EntriesOfParts(a, init);
      assert Entries(a + b) == Entries(a + init) + multiset(OwnNames(b[|b| - 1]));
    }
  }

  ghost predicate OrderFree(fl: seq<Flag>) {
    forall gl, hl, arg :: multiset(gl) == multiset(fl) && multiset(hl) == multiset(fl) ==>
      AfterFlags(Entries(gl), gl, arg) == AfterFlags(Entries(hl), hl, arg)
  }

  ghost predicate HasCollision(fl: seq<Flag>) {
    exists i, j :: 0 <= i < |fl| && 0 <= j < |fl| && Collide(fl[i], fl[j])
  }

  lemma FirstHit(entries: multiset<string>, fl: seq<Flag>, arg: string, bound: nat) returns (k: nat)
    requires bound <= |fl| && exists j :: 0 <= j < bound && Hits(entries, fl[j], arg)
    ensures k < bound && Hits(entries, fl[k], arg) && forall j :: 0 <= j < k ==> !Hits(entries, fl[j], arg)
  {
    hide Hits;
    k := 0;
    while !Hits(entries, fl[k], arg)
      invariant k < bound && forall j :: 0 <= j < k ==> !Hits(entries, fl[j], arg)
      decreases bound - k
    {
      k := k + 1;
    }
  }

  // Without a collision the outcome depends on which flags there are only.
  lemma SameOutcome(fl: seq<Flag>, gl: seq<Flag>, arg: string)
    requires multiset(fl) == multiset(gl) && IsDictionary(fl) && !HasCollision(fl)
    ensures AfterFlags(Entries(fl), fl, arg) == AfterFlags(Entries(gl), gl, arg)
  {
    hide Hits, Entries, AfterFlags, AfterFlag, Collide;
    EntriesOfPermutation(fl, gl);
    var entries := Entries(fl);
    if k :| 0 <= k < |fl| && Hits(entries, fl[k], arg) {
      var a := FirstHit(entries, fl, arg, |fl|);
      assert fl[a] in multiset(gl);
      var m :| 0 <= m < |gl| && gl[m] == fl[a];
      var b := FirstHit(entries, gl, arg, |gl|);
      assert gl[b] in multiset(fl);
      var n :| 0 <= n < |fl| && fl[n] == gl[b];
      if n != a {
        TwoHitsCollide(fl, a, n, arg);
        assert false;
      }
      FirstHitDecides(entries, fl, arg, a);
      FirstHitDecides(entries, gl, arg, b);
    } else {
      NoHitKeeps(entries, fl, arg);
      forall j | 0 <= j < |gl|
        ensures !Hits(entries, gl[j], arg)
      {
        assert gl[j] in multiset(fl);
      }
      NoHitKeeps(entries, gl, arg);
    }
  }

  function InFront(fl: seq<Flag>, i: nat): (r: seq<Flag>)
    requires i < |fl|
    ensures multiset(r) == multiset(fl) && r[0] == fl[i]
  {
    assert fl == fl[..i] + [fl[i]] + fl[i + 1..];
    [fl[i]] + fl[..i] + fl[i + 1..]
  }

  lemma CollisionDepends(fl: seq<Flag>, i: nat, j: nat)
    requires IsDictionary(fl) && i < |fl| && j < |fl| && Collide(fl[i], fl[j])
    ensures AfterFlags(Entries(fl), InFront(fl, i), "--" + fl[j].name) == OffText(fl[i].name)
    ensures AfterFlags(Entries(fl), InFront(fl, j), "--" + fl[j].name) == OnText(fl[j].name)
  {
    hide Entries, AfterFlags, Shared;
    var f, g, arg, entries := fl[i], fl[j], "--" + fl[j].name, Entries(fl);
    assert arg[2..] == g.name && arg[..2] == "--";
    assert Abbreviates(entries, g.name, arg);
    assert !Abbreviates(entries, f.name, arg) by { assert |arg[2..]| > |f.name|; }
    assert '=' !in arg by { assert forall k :: 2 <= k < |arg| ==> arg[k] == g.name[k - 2]; }
    FirstHitDecides(entries, InFront(fl, i), arg, 0);
    FirstHitDecides(entries, InFront(fl, j), arg, 0);
  }

  /**
   What an argument becomes is independent of the order in which the dictionary lists its flags, for every argument,
   if and only if no two boolean flags are called x and nox (with no '=' in the name).
   */
  lemma OrderFreeExactly(fl: seq<Flag>)
    requires IsDictionary(fl)
    ensures OrderFree(fl) <==> !HasCollision(fl)
  {
    hide IsDictionary, Entries, AfterFlags, Collide;
    if i, j :| 0 <= i < |fl| && 0 <= j < |fl| && Collide(fl[i], fl[j]) {
      CollisionDepends(fl, i, j);
      EntriesOfPermutation(InFront(fl, i), fl);
      EntriesOfPermutation(InFront(fl, j), fl);
      OnIsNotOff(fl[i], fl[j]);
    } else {
      forall gl, hl, arg | multiset(gl) == multiset(fl) && multiset(hl) == multiset(fl)
        ensures AfterFlags(Entries(gl), gl, arg) == AfterFlags(Entries(hl), hl, arg)
      {
        SameOutcome(fl, gl, arg);
        SameOutcome(fl, hl, arg);
      }
    }
  }

  lemma OnIsNotOff(f: Flag, g: Flag)
    requires Collide(f, g)
    ensures OffText(f.name) != OnText(g.name)
  {
    assert |OffText(f.name)| == |f.name| + 8 && |OnText(g.name)| == |f.name| + 9;
  }

  lemma Texts(name: string)
    ensures OnText(name) == "--" + name + "=true" && OffText(name) == "--" + name + "=false"
  {}

  /** Each argument means at most one flag: the outcome, when no two flags collide. */
  lemma OutcomeIsTheOneHit(fl: seq<Flag>, arg: string, i: nat)
    requires IsDictionary(fl) && !HasCollision(fl) && i < |fl| && fl[i].boolean && '=' !in arg
    ensures Abbreviates(Entries(fl), fl[i].name, arg) ==> AfterFlags(Entries(fl), fl, arg) == "--" + fl[i].name + "=true"
    ensures Abbreviates(Entries(fl), "no" + fl[i].name, arg) ==> AfterFlags(Entries(fl), fl, arg) == "--" + fl[i].name + "=false"
  {
    hide Abbreviates, Entries, Collide, AfterFlags, OnText, OffText;
    Texts(fl[i].name);
    var entries := Entries(fl);
    if Hits(entries, fl[i], arg) {
      var a := FirstHit(entries, fl, arg, |fl|);
      if a != i {
        TwoHitsCollide(fl, a, i, arg);
        assert false;
      }
      FirstHitDecides(entries, fl, arg, i);
      assert |"no" + fl[i].name| == |fl[i].name| + 2;
      if Abbreviates(entries, fl[i].name, arg) && Abbreviates(entries, "no" + fl[i].name, arg) {
        OwnNamesAreEntries(fl, fl[i]);
        NoArgumentAbbreviatesTwo(entries, fl[i].name, "no" + fl[i].name, arg);
      }
    }
  }

  /** What becomes of one argument, said outright. */
  ghost predicate Expanded(fl: seq<Flag>, arg: string, result: string) {
    && (forall i :: 0 <= i < |fl| && fl[i].boolean && '=' !in arg && Abbreviates(Entries(fl), fl[i].name, arg) ==>
          result == "--" + fl[i].name + "=true")
    && (forall i :: 0 <= i < |fl| && fl[i].boolean && '=' !in arg && Abbreviates(Entries(fl), "no" + fl[i].name, arg) ==>
          result == "--" + fl[i].name + "=false")
    && ('=' in arg || (forall i :: 0 <= i < |fl| && fl[i].boolean ==>
                         !Abbreviates(Entries(fl), fl[i].name, arg) && !Abbreviates(Entries(fl), "no" + fl[i].name, arg))
        ==> result == arg)
  }

  lemma FlagsExpand(fl: seq<Flag>, arg: string)
    requires IsDictionary(fl) && !HasCollision(fl)
    ensures Expanded(fl, arg, AfterFlags(Entries(fl), fl, arg))
  {
    hide Abbreviates, Entries, Collide, AfterFlags, HasCollision, IsDictionary;
    forall i | 0 <= i < |fl| && fl[i].boolean && '=' !in arg
      ensures Abbreviates(Entries(fl), fl[i].name, arg) ==> AfterFlags(Entries(fl), fl, arg) == "--" + fl[i].name + "=true"
      ensures Abbreviates(Entries(fl), "no" + fl[i].name, arg) ==> AfterFlags(Entries(fl), fl, arg) == "--" + fl[i].name + "=false"
    {
      OutcomeIsTheOneHit(fl, arg, i);
    }
    if forall j :: 0 <= j < |fl| ==> !Hits(Entries(fl), fl[j], arg) {
      NoHitKeeps(Entries(fl), fl, arg);
    }
  }
}
