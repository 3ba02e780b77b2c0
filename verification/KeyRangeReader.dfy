/**
 Reading key ranges (AbstractDatastoreInputReader in server/mapreduce/input_readers.py) over an unchanging
 datastore: the stack of ranges, the current range that advances before each yield, and the checkpoints,
 which turn the stack around every time.
 */
module KeyRangeReader {
  import opened Wrappers
  import opened Streams
  import opened DatastoreSharding

  // The keys of the reader's kind, per namespace, in key order.
  type Store = map<string, seq<int>>
  // An entity: its namespace and key.
  type Item = (string, int)

  ghost predicate Strict(keys: seq<int>) {
    forall i, j :: 0 <= i < j < |keys| ==> keys[i] < keys[j]
  }

  ghost predicate ValidStore(store: Store) {
    forall ns :: ns in store ==> Strict(store[ns])
  }

  function KeysOf(store: Store, ns: string): seq<int> {
    if ns in store then store[ns] else []
  }

  /** The ascending query for a key range. */
  function KeysIn(keys: seq<int>, r: KeyRange): seq<int> {
    if keys == [] then [] else (if r.Contains(keys[0]) then [keys[0]] else []) + KeysIn(keys[1..], r)
  }

  function Tag(ns: string, keys: seq<int>): seq<Item> {
    if keys == [] then [] else [(ns, keys[0])] + Tag(ns, keys[1..])
  }

  function RangeItems(store: Store, r: Option<KeyRange>): seq<Item> {
    if r.None? then [] else Tag(r.value.namespace, KeysIn(KeysOf(store, r.value.namespace), r.value))
  }

  lemma {:induction false} KeysBehind(keys: seq<int>, r: KeyRange, at: int)
    requires r.Contains(at) && forall k :: k in keys ==> at < k
    ensures KeysIn(keys, r.Advance(at)) == KeysIn(keys, r)
  {
    if keys != [] {
      assert keys[0] in keys && forall k :: k in keys[1..] ==> k in keys;
      KeysBehind(keys[1..], r, at);
    }
  }

  lemma {:induction false} KeysInAreKeys(keys: seq<int>, r: KeyRange)
    ensures forall k :: k in KeysIn(keys, r) ==> k in keys && r.Contains(k)
  {
    if keys != [] {
      KeysInAreKeys(keys[1..], r);
    }
  }

  // Advancing past the first entity leaves exactly the others.
  lemma {:induction false} AdvanceDropsFirst(keys: seq<int>, r: KeyRange)
    requires Strict(keys) && KeysIn(keys, r) != []
    ensures KeysIn(keys, r.Advance(KeysIn(keys, r)[0])) == KeysIn(keys, r)[1..]
  {
    var first := KeysIn(keys, r)[0];
    if r.Contains(keys[0]) {
      KeysBehind(keys[1..], r, keys[0]);
    } else {
      KeysInAreKeys(keys, r);
      assert first in KeysIn(keys, r);
      assert keys[0] < first;
      AdvanceDropsFirst(keys[1..], r);
    }
  }

  // ----- the stack -----

  /** The entities of a stack of ranges, its top (the last range) first. */
  function StackItems(store: Store, stack: seq<Option<KeyRange>>): seq<Item> {
    if stack == [] then [] else RangeItems(store, stack[|stack| - 1]) + StackItems(store, stack[..|stack| - 1])
  }

  function Reversed(s: seq<Option<KeyRange>>): seq<Option<KeyRange>> {
    if s == [] then [] else Reversed(s[1..]) + [s[0]]
  }

  lemma {:induction false} ReversedPermutes(s: seq<Option<KeyRange>>)
    ensures multiset(Reversed(s)) == multiset(s)
  {
    if s != [] {
      ReversedPermutes(s[1..]);
      assert s == [s[0]] + s[1..];
    }
  }

  /** The entities of a list of ranges, in its order. */
  function ItemsInOrder(store: Store, ranges: seq<Option<KeyRange>>): seq<Item> {
    if ranges == [] then [] else RangeItems(store, ranges[0]) + ItemsInOrder(store, ranges[1..])
  }

  /** A reader that was just built works through its ranges in the order in which they were given. */
  lemma {:induction false} ReadsInOrder(store: Store, ranges: seq<Option<KeyRange>>)
    ensures StackItems(store, Reversed(ranges)) == ItemsInOrder(store, ranges)
  {
    hide RangeItems;
    if ranges != [] {
      ReadsInOrder(store, ranges[1..]);
      var stack := Reversed(ranges);
      assert stack[..|stack| - 1] == Reversed(ranges[1..]);
    }
  }

  lemma {:induction false} StackRemove(store: Store, stack: seq<Option<KeyRange>>, i: nat)
    requires i < |stack|
    ensures multiset(StackItems(store, stack)) ==
            multiset(RangeItems(store, stack[i])) + multiset(StackItems(store, stack[..i] + stack[i + 1..]))
  {
    hide RangeItems, StackItems;
    var last := |stack| - 1;
    var rest := stack[..i] + stack[i + 1..];
    StackTop(store, stack);
    if i == last {
      assert rest == stack[..last];
    } else {
      StackRemove(store, stack[..last], i);
      StackTop(store, rest);
      assert stack[..last][..i] + stack[..last][i + 1..] == rest[..last - 1];
      assert rest[last - 1] == stack[last];
    }
  }

  lemma Without(s: seq<Option<KeyRange>>, i: nat)
    requires i < |s|
    ensures multiset(s[..i] + s[i + 1..]) == multiset(s) - multiset{s[i]}
  {
    assert s == s[..i] + [s[i]] + s[i + 1..];
  }

  /** The multiset of entities does not depend on the order of the ranges. */
  lemma {:induction false} StackPermutes(store: Store, s: seq<Option<KeyRange>>, t: seq<Option<KeyRange>>)
    requires multiset(s) == multiset(t)
    ensures multiset(StackItems(store, s)) == multiset(StackItems(store, t))
    decreases |s|
  {
    hide RangeItems, StackItems;
    StackTop(store, s);
    if s != [] {
      var last := |s| - 1;
      assert s[last] in multiset(t);
      var i :| 0 <= i < |t| && t[i] == s[last];
      assert s[..last] + s[last + 1..] == s[..last];
      Without(s, last);
      Without(t, i);
      StackPermutes(store, s[..last], t[..i] + t[i + 1..]);
      StackRemove(store, t, i);
    } else {
      assert |t| == |multiset(t)|;
    }
  }

  // ----- the reader object -----

  datatype KeyCheckpoint = KeyCheckpoint(ranges: seq<Option<KeyRange>>, current: Option<KeyRange>)

  /** What the serialised state stands for. */
  function Stored(store: Store, json: KeyCheckpoint): multiset<Item> {
    multiset(RangeItems(store, json.current)) + multiset(StackItems(store, json.ranges))
  }

  class KeyRangeInputReader {
    const store: Store
    var keyRanges: seq<Option<KeyRange>>
    var current: Option<KeyRange>

    ghost function Todo(): seq<Item>
      reads this
    {
      RangeItems(store, current) + StackItems(store, keyRanges)
    }

    /** __init__ turns the given list into a stack. */
    constructor (store: Store, json: KeyCheckpoint)
      ensures this.store == store && current == json.current && keyRanges == Reversed(json.ranges)
      ensures multiset(Todo()) == Stored(store, json)
      ensures Todo() == RangeItems(store, json.current) + ItemsInOrder(store, json.ranges)
    {
      this.store, keyRanges, current := store, Reversed(json.ranges), json.current;
      new;
      ReversedPermutes(json.ranges);
      ReadsInOrder(store, json.ranges);
      StackPermutes(store, Reversed(json.ranges), json.ranges);
    }

    /** to_json writes the stack as it is, so restoring reverses it. */
    method ToJson() returns (json: KeyCheckpoint)
      ensures json == KeyCheckpoint(keyRanges, current) && Stored(store, json) == multiset(Todo())
    {
      json := KeyCheckpoint(keyRanges, current);
    }

    /** _iter_key_ranges up to the next yield. */
    method Next() returns (out: Option<Item>)
      requires ValidStore(store)
      modifies this
      ensures old(Todo()) == [] ==> out.None? && Todo() == []
      ensures old(Todo()) != [] ==> out == Some(old(Todo())[0]) && Todo() == old(Todo())[1..]
    {
      hide KeysIn, StackItems, RangeItems;
      RangeOfNone(store);
      while true
        invariant Todo() == old(Todo())
        decreases |keyRanges|, current.Some?
      {
        if current.None? {
          if keyRanges == [] {
            StackTop(store, keyRanges);
            return None;
          }
          StackTop(store, keyRanges);
          current := keyRanges[|keyRanges| - 1];
          keyRanges := keyRanges[..|keyRanges| - 1];
        } else {
          var ns := current.value.namespace;
          var found := KeysIn(KeysOf(store, ns), current.value);
          RangeStep(store, current.value);
          if found != [] {
            current := Some(current.value.Advance(found[0]));
            return Some((ns, found[0]));
          }
          current := None;
        }
      }
    }
  }

  lemma StackTop(store: Store, stack: seq<Option<KeyRange>>)
    ensures stack == [] ==> StackItems(store, stack) == []
    ensures stack != [] ==> StackItems(store, stack) == RangeItems(store, stack[|stack| - 1]) + StackItems(store, stack[..|stack| - 1])
  {}

  lemma RangeOfNone(store: Store)
    ensures RangeItems(store, None) == []
  {}

  lemma RangeStep(store: Store, r: KeyRange)
    requires ValidStore(store)
    ensures var found := KeysIn(KeysOf(store, r.namespace), r);
            && (found == [] ==> RangeItems(store, Some(r)) == [])
            && (found != [] ==>
                  RangeItems(store, Some(r)) == [(r.namespace, found[0])] + RangeItems(store, Some(r.Advance(found[0]))))
  {
    hide Tag, KeysIn;
    var found := KeysIn(KeysOf(store, r.namespace), r);
    TagStep(r.namespace, found);
    if found != [] {
      AdvanceDropsFirst(KeysOf(store, r.namespace), r);
    }
  }

  lemma TagStep(ns: string, keys: seq<int>)
    ensures keys == [] ==> Tag(ns, keys) == []
    ensures keys != [] ==> Tag(ns, keys) == [(ns, keys[0])] + Tag(ns, keys[1..])
  {}

  /**
   Any sequence of slices: what was yielded and what is stored make up what was stored at the start, and as many
   entities were yielded as were asked for unless none are left.
   */
  method RunSlices(store: Store, start: KeyCheckpoint, slices: seq<nat>) returns (items: seq<Item>, json: KeyCheckpoint)
    requires ValidStore(store)
    ensures multiset(items) + Stored(store, json) == Stored(store, start)
    ensures |items| == Sum(slices) || (|items| < Sum(slices) && Stored(store, json) == multiset{})
  {
    hide Stored;
    items, json := [], start;
    for s := 0 to |slices|
      invariant multiset(items) + Stored(store, json) == Stored(store, start)
      invariant |items| == Sum(slices[..s]) || (|items| < Sum(slices[..s]) && Stored(store, json) == multiset{})
    {
      SumNext(slices, s);
      var more, next := RunSlice(store, json, slices[s]);
      NothingMore(more, Stored(store, next), Stored(store, json));
      items, json := items + more, next;
    }
    assert slices[..|slices|] == slices;
  }

  lemma NothingMore(more: seq<Item>, rest: multiset<Item>, all: multiset<Item>)
    requires multiset(more) + rest == all
    ensures all == multiset{} ==> more == [] && rest == multiset{}
  {
    assert |multiset(more)| == |more| && |multiset(more) + rest| == |more| + |rest|;
  }

  method RunSlice(store: Store, start: KeyCheckpoint, n: nat) returns (items: seq<Item>, json: KeyCheckpoint)
    requires ValidStore(store)
    ensures multiset(items) + Stored(store, json) == Stored(store, start)
    ensures |items| == n || (|items| < n && Stored(store, json) == multiset{})
  {
    hide Stored, RangeItems, StackItems, ValidStore;
    var reader := new KeyRangeInputReader(store, start);
    items := [];
    ghost var all := reader.Todo();
    ghost var todo := all;
    while |items| < n
      invariant |items| <= n
      invariant fresh(reader) && reader.store == store && todo == reader.Todo() && items + todo == all
    {
      var item := reader.Next();
      if item.None? {
        break;
      }
      MoveOne(items, todo, all);
      items, todo := items + [item.value], todo[1..];
    }
    assert multiset(items + todo) == multiset(items) + multiset(todo);
    json := reader.ToJson();
  }

  // ----- all shards together -----

  ghost function ShardsYield(store: Store, shards: seq<seq<Option<KeyRange>>>): multiset<Item> {
    if shards == [] then multiset{}
    else ShardsYield(store, shards[..|shards| - 1]) + multiset(StackItems(store, shards[|shards| - 1]))
  }

  lemma {:induction false} StackConcat(store: Store, s: seq<Option<KeyRange>>, t: seq<Option<KeyRange>>)
    ensures multiset(StackItems(store, s + t)) == multiset(StackItems(store, s)) + multiset(StackItems(store, t))
  {
    hide RangeItems, StackItems;
    StackTop(store, t);
    if t == [] {
      assert s + t == s;
    } else {
      StackTop(store, s + t);
      StackConcat(store, s, t[..|t| - 1]);
      assert (s + t)[..|s + t| - 1] == s + t[..|t| - 1];
    }
  }

  // Some list of the ranges of all shards; which order is immaterial.
  lemma {:induction false} ShardsAsOneList(store: Store, shards: seq<seq<Option<KeyRange>>>) returns (flat: seq<Option<KeyRange>>)
    ensures multiset(flat) == AllRanges(shards)
    ensures multiset(StackItems(store, flat)) == ShardsYield(store, shards)
  {
    if shards == [] {
      flat := [];
    } else {
      hide StackItems;
      var before := ShardsAsOneList(store, shards[..|shards| - 1]);
      flat := before + shards[|shards| - 1];
      StackConcat(store, before, shards[|shards| - 1]);
    }
  }

  /** Ranges that partition a namespace's keys yield each of its entities once. */
  lemma {:induction false} PartitionYields(ns: string, keys: seq<int>, ranges: seq<Option<KeyRange>>)
    requires PartitionsKeys(ns, ranges)
    ensures CountIn(ns, keys, ranges, |ranges|) == multiset(Tag(ns, keys))
  {
    hide PartitionsKeys;
    if keys == [] {
      CountNothing(ns, ranges, |ranges|);
    } else {
      PartitionYields(ns, keys[1..], ranges);
      assert HeldOnce(ranges, keys[0]) && SameNamespace(ns, ranges) by { PartitionFacts(ns, ranges, keys[0]); }
      CountHead(ns, keys, ranges, |ranges|);
      assert multiset(Tag(ns, keys)) == multiset{(ns, keys[0])} + multiset(Tag(ns, keys[1..]));
    }
  }

  predicate SameNamespace(ns: string, ranges: seq<Option<KeyRange>>) {
    forall i :: 0 <= i < |ranges| && ranges[i].Some? ==> ranges[i].value.namespace == ns
  }

  lemma PartitionFacts(ns: string, ranges: seq<Option<KeyRange>>, key: int)
    requires PartitionsKeys(ns, ranges)
    ensures HeldOnce(ranges, key) && SameNamespace(ns, ranges)
  {}

  // The entities of the first n ranges, restricted to these keys.
  ghost function CountIn(ns: string, keys: seq<int>, ranges: seq<Option<KeyRange>>, n: nat): multiset<Item>
    requires n <= |ranges|
  {
    if n == 0 then multiset{}
    else CountIn(ns, keys, ranges, n - 1) + (if ranges[n - 1].Some? then multiset(Tag(ns, KeysIn(keys, ranges[n - 1].value))) else multiset{})
  }

  lemma {:induction false} CountNothing(ns: string, ranges: seq<Option<KeyRange>>, n: nat)
    requires n <= |ranges|
    ensures CountIn(ns, [], ranges, n) == multiset{}
  {
    if n > 0 {
      CountNothing(ns, ranges, n - 1);
    }
  }

  ghost function Holders(ranges: seq<Option<KeyRange>>, key: int, n: nat): nat
    requires n <= |ranges|
  {
    if n == 0 then 0 else Holders(ranges, key, n - 1) + (if Holds(ranges, n - 1, key) then 1 else 0)
  }

  lemma {:induction false} HoldersOnce(ranges: seq<Option<KeyRange>>, key: int, place: nat, n: nat)
    requires n <= |ranges| && place < |ranges| && Holds(ranges, place, key)
    requires forall j :: 0 <= j < |ranges| && Holds(ranges, j, key) ==> j == place
    ensures Holders(ranges, key, n) == if place < n then 1 else 0
  {
    if n > 0 {
      HoldersOnce(ranges, key, place, n - 1);
    }
  }

  lemma CountHead(ns: string, keys: seq<int>, ranges: seq<Option<KeyRange>>, n: nat)
    requires keys != [] && n <= |ranges| && HeldOnce(ranges, keys[0])
    ensures n == |ranges| ==> CountIn(ns, keys, ranges, n) == CountIn(ns, keys[1..], ranges, n) + multiset{(ns, keys[0])}
  {
    var place :| 0 <= place < |ranges| && Holds(ranges, place, keys[0]) && forall j :: 0 <= j < |ranges| && Holds(ranges, j, keys[0]) ==> j == place;
    HoldersOnce(ranges, keys[0], place, n);
    CopiesNone((ns, keys[0]));
    CountSplit(ns, keys, ranges, n);
  }

  lemma {:induction false} CountSplit(ns: string, keys: seq<int>, ranges: seq<Option<KeyRange>>, n: nat)
    requires keys != [] && n <= |ranges|
    ensures CountIn(ns, keys, ranges, n) == CountIn(ns, keys[1..], ranges, n) + Copies((ns, keys[0]), Holders(ranges, keys[0], n))
  {
    hide Tag, Copies;
    if n > 0 {
      CountSplit(ns, keys, ranges, n - 1);
      CopiesAdd((ns, keys[0]), Holders(ranges, keys[0], n - 1));
      if ranges[n - 1].Some? {
        HeadYield(ns, keys, ranges[n - 1].value);
      }
    } else {
      CopiesNone((ns, keys[0]));
    }
  }

  function Copies(x: Item, n: nat): multiset<Item> { multiset{}[x := n] }

  lemma CopiesAdd(x: Item, n: nat)
    ensures Copies(x, n + 1) == Copies(x, n) + multiset{x}
  {}

  lemma CopiesNone(x: Item)
    ensures Copies(x, 0) == multiset{} && Copies(x, 1) == multiset{x}
  {}

  lemma HeadYield(ns: string, keys: seq<int>, r: KeyRange)
    requires keys != []
    ensures multiset(Tag(ns, KeysIn(keys, r))) ==
            multiset(Tag(ns, KeysIn(keys[1..], r))) + (if r.Contains(keys[0]) then multiset{(ns, keys[0])} else multiset{})
  {
    TagStep(ns, KeysIn(keys, r));
    if r.Contains(keys[0]) {
      assert KeysIn(keys, r)[1..] == KeysIn(keys[1..], r);
      assert multiset([(ns, keys[0])] + Tag(ns, KeysIn(keys[1..], r))) == multiset{(ns, keys[0])} + multiset(Tag(ns, KeysIn(keys[1..], r)));
    } else {
      assert KeysIn(keys, r) == KeysIn(keys[1..], r);
    }
  }

  lemma {:induction false} CountIsStack(store: Store, ns: string, ranges: seq<Option<KeyRange>>, n: nat)
    requires n <= |ranges| && SameNamespace(ns, ranges)
    ensures CountIn(ns, KeysOf(store, ns), ranges, n) == multiset(StackItems(store, ranges[..n]))
  {
    if n > 0 {
      CountIsStack(store, ns, ranges, n - 1);
      assert ranges[..n][..n - 1] == ranges[..n - 1];
    }
  }

  function AllItems(store: Store, namespaces: seq<string>): seq<Item> {
    if namespaces == [] then []
    else AllItems(store, namespaces[..|namespaces| - 1]) + Tag(namespaces[|namespaces| - 1], KeysOf(store, namespaces[|namespaces| - 1]))
  }

  lemma {:induction false} TagOnce(ns: string, keys: seq<int>, item: Item)
    requires Strict(keys)
    ensures multiset(Tag(ns, keys))[item] == if item.0 == ns && item.1 in keys then 1 else 0
  {
    if keys != [] {
      TagOnce(ns, keys[1..], item);
      assert keys == [keys[0]] + keys[1..];
      assert multiset(Tag(ns, keys)) == multiset{(ns, keys[0])} + multiset(Tag(ns, keys[1..]));
    }
  }

  /** With distinct namespaces that is every entity of theirs once. */
  lemma {:induction false} AllItemsOnce(store: Store, namespaces: seq<string>, item: Item)
    requires ValidStore(store) && forall i, j :: 0 <= i < j < |namespaces| ==> namespaces[i] != namespaces[j]
    ensures multiset(AllItems(store, namespaces))[item] == if item.0 in namespaces && item.1 in KeysOf(store, item.0) then 1 else 0
  {
    if namespaces != [] {
      var init, ns := namespaces[..|namespaces| - 1], namespaces[|namespaces| - 1];
      AllItemsOnce(store, init, item);
      TagOnce(ns, KeysOf(store, ns), item);
      assert namespaces == init + [ns];
      assert multiset(AllItems(store, namespaces)) == multiset(AllItems(store, init)) + multiset(Tag(ns, KeysOf(store, ns)));
    }
  }

  /**
   _split_input_from_params: whatever the scatter queries answered, there is one reader for each shard (none at all
   without namespaces) and together they yield exactly the entities of the given namespaces, each once.
   */
  method SplitFromParams(store: Store, namespaces: seq<string>, n: nat, scatter: string -> seq<int>)
    returns (readers: seq<seq<Option<KeyRange>>>)
    requires n > 0
    ensures |readers| == (if namespaces == [] then 0 else n) && Nonempty(readers)
    ensures ShardsYield(store, readers) == multiset(AllItems(store, namespaces))
  {
    hide AllRanges, ShardsYield, StackItems, PartitionsKeys, Tag, Nonempty, Empty;
    var keyRanges: seq<Option<KeyRange>> := [];
    StackTop(store, keyRanges);
    for i := 0 to |namespaces|
      invariant multiset(StackItems(store, keyRanges)) == multiset(AllItems(store, namespaces[..i]))
      invariant if i == 0 then keyRanges == [] else |keyRanges| >= n
    {
      var part, points := SplitFromNamespace(namespaces[i], n, scatter(namespaces[i]));
      NamespaceYields(store, namespaces[i], part);
      StackConcat(store, keyRanges, part);
      assert namespaces[..i + 1][..i] == namespaces[..i];
      keyRanges := keyRanges + part;
    }
    assert namespaces[..|namespaces|] == namespaces;
    var shards := RoundRobin(keyRanges, n);
    ghost var flat := ShardsAsOneList(store, shards);
    StackPermutes(store, flat, keyRanges);
    EveryShardServed(keyRanges, n, shards);
    readers := WithRanges(store, shards);
  }

  ghost predicate Nonempty(shards: seq<seq<Option<KeyRange>>>) {
    forall j :: 0 <= j < |shards| ==> shards[j] != []
  }

  ghost predicate Empty(shards: seq<seq<Option<KeyRange>>>) {
    forall j :: 0 <= j < |shards| ==> shards[j] == []
  }

  lemma EveryShardServed(keyRanges: seq<Option<KeyRange>>, n: nat, shards: seq<seq<Option<KeyRange>>>)
    requires |shards| == n > 0 && forall i :: 0 <= i < |keyRanges| ==> keyRanges[i] in shards[i % n]
    requires forall j :: 0 <= j < n ==> forall r :: r in shards[j] ==> exists i :: 0 <= i < |keyRanges| && i % n == j && keyRanges[i] == r
    ensures |keyRanges| >= n ==> Nonempty(shards)
    ensures keyRanges == [] ==> Empty(shards)
  {
    if |keyRanges| >= n {
      forall j | 0 <= j < n ensures shards[j] != [] {
        assert keyRanges[j] in shards[j % n] && j % n == j;
      }
    }
    if keyRanges == [] {
      forall j | 0 <= j < n ensures shards[j] == [] {
        HasAnElement(shards[j]);
      }
    }
  }

  lemma HasAnElement(s: seq<Option<KeyRange>>)
    ensures s == [] || exists r :: r in s
  {
    if s != [] { assert s[0] in s; }
  }

  // The shards that were given key ranges.
  method WithRanges(store: Store, shards: seq<seq<Option<KeyRange>>>) returns (readers: seq<seq<Option<KeyRange>>>)
    ensures ShardsYield(store, readers) == ShardsYield(store, shards) && Nonempty(readers)
    ensures Nonempty(shards) ==> |readers| == |shards|
    ensures Empty(shards) ==> readers == []
  {
    hide StackItems, ShardsYield;
    readers := [];
    for j := 0 to |shards|
      invariant ShardsYield(store, readers) == ShardsYield(store, shards[..j]) && Nonempty(readers)
      invariant Nonempty(shards) ==> |readers| == j
      invariant Empty(shards) ==> readers == []
    {
      OneMoreShard(store, shards[..j], shards[j]);
      OneMoreShard(store, readers, shards[j]);
      assert shards[..j + 1] == shards[..j] + [shards[j]];
      if shards[j] != [] {
        readers := readers + [shards[j]];
      }
    }
    assert shards[..|shards|] == shards;
  }

  lemma OneMoreShard(store: Store, shards: seq<seq<Option<KeyRange>>>, ranges: seq<Option<KeyRange>>)
    ensures ShardsYield(store, shards + [ranges]) == ShardsYield(store, shards) + multiset(StackItems(store, ranges))
    ensures ranges == [] ==> ShardsYield(store, shards + [ranges]) == ShardsYield(store, shards)
  {
    assert (shards + [ranges])[..|shards|] == shards;
    StackTop(store, ranges);
  }

  lemma NamespaceYields(store: Store, ns: string, part: seq<Option<KeyRange>>)
    requires PartitionsKeys(ns, part)
    ensures multiset(StackItems(store, part)) == multiset(Tag(ns, KeysOf(store, ns)))
  {
    hide StackItems, Tag;
    PartitionYields(ns, KeysOf(store, ns), part);
    assert SameNamespace(ns, part) by { PartitionFacts(ns, part, 0); }
    CountIsStack(store, ns, part, |part|);
    assert part[..|part|] == part;
  }

  // ----- sharded and sliced -----

  ghost function YieldedBy(items: seq<seq<Item>>): multiset<Item> {
    if items == [] then multiset{} else YieldedBy(items[..|items| - 1]) + multiset(items[|items| - 1])
  }

  lemma {:induction false} YieldedAll(store: Store, shards: seq<seq<Option<KeyRange>>>, items: seq<seq<Item>>)
    requires |items| == |shards| && forall i :: 0 <= i < |shards| ==> multiset(items[i]) == multiset(StackItems(store, shards[i]))
    ensures YieldedBy(items) == ShardsYield(store, shards)
  {
    hide StackItems;
    if shards != [] {
      YieldedAll(store, shards[..|shards| - 1], items[..|items| - 1]);
    }
  }

  method RunShard(store: Store, ranges: seq<Option<KeyRange>>, slices: seq<nat>) returns (items: seq<Item>, ended: bool)
    requires ValidStore(store)
    ensures multiset(items) <= multiset(StackItems(store, ranges))
    ensures ended ==> multiset(items) == multiset(StackItems(store, ranges))
    ensures Sum(slices) > |StackItems(store, ranges)| ==> ended
  {
    hide StackItems, ValidStore;
    var rest: KeyCheckpoint;
    items, rest := RunSlices(store, KeyCheckpoint(ranges, None), slices);
    ended := |items| < Sum(slices);
    RangeOfNone(store);
    assert multiset(items) + Stored(store, rest) == multiset(StackItems(store, ranges));
    assert |multiset(items)| == |items| && |multiset(StackItems(store, ranges))| == |StackItems(store, ranges)|;
  }

  /**
   A job over some namespaces: key ranges dealt to the shards, whatever the scatter queries answered, then a reader for
   each shard in slices of its own. A reader given time for more than it has runs out; when all have, every entity of
   every given namespace was yielded exactly once.
   */
  method RunShards(store: Store, namespaces: seq<string>, n: nat, scatter: string -> seq<int>, slices: nat -> seq<nat>)
    returns (shards: seq<seq<Option<KeyRange>>>, items: seq<seq<Item>>, finished: bool)
    requires n > 0 && ValidStore(store)
    ensures |shards| == |items| == (if namespaces == [] then 0 else n)
    ensures forall i :: 0 <= i < |shards| ==> multiset(items[i]) <= multiset(StackItems(store, shards[i]))
    ensures (forall i :: 0 <= i < |shards| ==> Sum(slices(i)) > |StackItems(store, shards[i])|) ==> finished
    ensures finished ==> YieldedBy(items) == multiset(AllItems(store, namespaces))
  {
    hide StackItems, ValidStore, AllItems, ShardsYield, YieldedBy, Nonempty;
    shards := SplitFromParams(store, namespaces, n, scatter);
    items, finished := [], true;
    for s := 0 to |shards|
      invariant |items| == s
      invariant forall i :: 0 <= i < s ==> multiset(items[i]) <= multiset(StackItems(store, shards[i]))
      invariant finished ==> forall i :: 0 <= i < s ==> multiset(items[i]) == multiset(StackItems(store, shards[i]))
      invariant (forall i :: 0 <= i < s ==> Sum(slices(i)) > |StackItems(store, shards[i])|) ==> finished
    {
      var own, ended := RunShard(store, shards[s], slices(s));
      finished := finished && ended;
      items := items + [own];
    }
    if finished {
      YieldedAll(store, shards, items);
    }
  }
}
