/**
 Reading a range of namespaces (_iter_ns_range in server/mapreduce/input_readers.py) over an unchanging
 datastore: find the next existing namespace, read all of it, cut the range behind it.
 */
module NamespaceReader {
  import opened Wrappers
  import opened Streams
  import opened StringOrder
  import opened NamespaceOrdinals
  import opened NamespaceRanges
  import opened DatastoreSharding
  import KeyRangeReader

  type Store = KeyRangeReader.Store

  // What the generator yields.
  datatype Step = AllowCheckpoint | Entity(namespace: string, key: int)

  function Entities(ns: string, keys: seq<int>): seq<Step> {
    if keys == [] then [] else [Entity(ns, keys[0])] + Entities(ns, keys[1..])
  }

  function EntitiesOf(store: Store, r: KeyRange): seq<Step> {
    Entities(r.namespace, KeyRangeReader.KeysIn(KeyRangeReader.KeysOf(store, r.namespace), r))
  }

  /** The existing namespaces of a range in lexicographic order. */
  function Existing(c: Config, existing: set<string>, lo: nat, hi: nat): seq<string>
    requires c.Valid() && hi < LexDistance(|c.chars|, c.maxLength)
    decreases hi + 1 - lo
  {
    match FirstExisting(c, existing, lo, hi)
    case None => []
    case Some(ns) => [ns] + Existing(c, existing, Ord(c, ns, c.maxLength) + 1, hi)
  }

  /** That list is ascending and holds precisely the existing namespaces between the two ordinals. */
  lemma {:induction false} ExistingLists(c: Config, existing: set<string>, lo: nat, hi: nat)
    requires c.Valid() && hi < LexDistance(|c.chars|, c.maxLength)
    ensures var list := Existing(c, existing, lo, hi);
            && (forall i :: 0 <= i < |list| ==> IsNamespace(c, list[i], c.maxLength) && lo <= Ord(c, list[i], c.maxLength) <= hi)
            && (forall i, j :: 0 <= i < j < |list| ==> Ord(c, list[i], c.maxLength) < Ord(c, list[j], c.maxLength))
            && (forall ns :: ns in list <==> ns in existing && IsNamespace(c, ns, c.maxLength) && lo <= Ord(c, ns, c.maxLength) <= hi)
    decreases hi + 1 - lo
  {
    hide Ord, FirstExisting, IsNamespace, LexDistance;
    var first := FirstExisting(c, existing, lo, hi);
    if first.Some? {
      var at := Ord(c, first.value, c.maxLength);
      ExistingLists(c, existing, at + 1, hi);
      var rest := Existing(c, existing, at + 1, hi);
      assert Existing(c, existing, lo, hi) == [first.value] + rest;
      hide Existing;
      InFrontOf(first.value, rest);
      forall ns | ns in existing && IsNamespace(c, ns, c.maxLength) && lo <= Ord(c, ns, c.maxLength) <= hi
        ensures ns == first.value || ns in rest
      {
        SameOrdinal(c, ns, first.value);
      }
    }
  }

  lemma InFrontOf(first: string, rest: seq<string>)
    ensures forall ns :: ns in [first] + rest <==> ns == first || ns in rest
  {}

  lemma SameOrdinal(c: Config, a: string, b: string)
    requires c.Valid() && IsNamespace(c, a, c.maxLength) && IsNamespace(c, b, c.maxLength)
    ensures Ord(c, a, c.maxLength) == Ord(c, b, c.maxLength) ==> a == b
  {
    NamespaceRoundTrip(c, a, c.maxLength);
    NamespaceRoundTrip(c, b, c.maxLength);
  }

  /** Every namespace of the list: a checkpoint, then all its entities. */
  function Visit(store: Store, namespaces: seq<string>): seq<Step> {
    if namespaces == [] then []
    else [AllowCheckpoint] + EntitiesOf(store, Whole(namespaces[0])) + Visit(store, namespaces[1..])
  }

  // How often a step occurs in a visit: each entity of a visited namespace once, and a checkpoint for each namespace.
  function Occurrences(store: Store, namespaces: seq<string>, step: Step): nat {
    match step
    case AllowCheckpoint => |namespaces|
    case Entity(ns, key) => if ns in namespaces && key in KeyRangeReader.KeysOf(store, ns) then 1 else 0
  }

  lemma {:induction false} WholeKeys(keys: seq<int>, ns: string)
    ensures KeyRangeReader.KeysIn(keys, Whole(ns)) == keys
  {
    if keys != [] {
      WholeKeys(keys[1..], ns);
      assert keys == [keys[0]] + keys[1..];
    }
  }

  lemma {:induction false} EntitiesOnce(ns: string, keys: seq<int>, step: Step)
    requires KeyRangeReader.Strict(keys)
    ensures multiset(Entities(ns, keys))[step] == if step.Entity? && step.namespace == ns && step.key in keys then 1 else 0
  {
    if keys != [] {
      EntitiesOnce(ns, keys[1..], step);
      assert keys == [keys[0]] + keys[1..];
      assert multiset(Entities(ns, keys)) == multiset{Entity(ns, keys[0])} + multiset(Entities(ns, keys[1..]));
    }
  }

  /** What a visit yields: every entity of every namespace of the list once, and a checkpoint before each namespace. */
  lemma {:induction false} VisitYields(store: Store, namespaces: seq<string>, step: Step)
    requires KeyRangeReader.ValidStore(store) && forall i, j :: 0 <= i < j < |namespaces| ==> namespaces[i] != namespaces[j]
    ensures multiset(Visit(store, namespaces))[step] == Occurrences(store, namespaces, step)
  {
    hide KeyRangeReader.ValidStore, Visit, KeyRangeReader.KeysOf;
    if namespaces != [] {
      var ns, rest := namespaces[0], namespaces[1..];
      VisitYields(store, rest, step);
      VisitOne(store, namespaces, step);
      assert forall x :: x in namespaces <==> x == ns || x in rest;
      assert ns !in rest;
    } else {
      VisitNone(store);
    }
  }

  lemma VisitNone(store: Store)
    ensures Visit(store, []) == []
  {}

  lemma VisitOne(store: Store, namespaces: seq<string>, step: Step)
    requires KeyRangeReader.ValidStore(store) && namespaces != []
    ensures multiset(Visit(store, namespaces))[step] ==
            multiset(Visit(store, namespaces[1..]))[step] +
            (if step.AllowCheckpoint? then 1
             else if step.namespace == namespaces[0] && step.key in KeyRangeReader.KeysOf(store, namespaces[0]) then 1 else 0)
  {
    hide KeyRangeReader.ValidStore, Entities;
    var ns, rest := namespaces[0], namespaces[1..];
    var keys := KeyRangeReader.KeysOf(store, ns);
    StrictKeys(store, ns);
    WholeKeys(keys, ns);
    EntitiesOnce(ns, keys, step);
    assert multiset(Visit(store, namespaces)) == multiset{AllowCheckpoint} + multiset(Entities(ns, keys)) + multiset(Visit(store, rest));
  }

  lemma StrictKeys(store: Store, ns: string)
    requires KeyRangeReader.ValidStore(store)
    ensures KeyRangeReader.Strict(KeyRangeReader.KeysOf(store, ns))
  {}

  function FromOrdinal(c: Config, existing: set<string>, store: Store, lo: nat, hi: nat): seq<Step>
    requires c.Valid() && hi < LexDistance(|c.chars|, c.maxLength)
  {
    Visit(store, Existing(c, existing, lo, hi))
  }

  datatype NsCheckpoint = NsCheckpoint(nsRange: NsRange, current: Option<KeyRange>)

  // A current key range belongs to an existing namespace of the range.
  ghost predicate ValidCheckpoint(c: Config, json: NsCheckpoint) {
    && ValidRange(c, json.nsRange)
    && (json.current.Some? ==>
          && IsNamespace(c, json.current.value.namespace, c.maxLength)
          && Lo(c, json.nsRange) <= Ord(c, json.current.value.namespace, c.maxLength) <= Hi(c, json.nsRange))
  }

  /** What a reader in this state still yields. */
  ghost function Stored(c: Config, existing: set<string>, store: Store, json: NsCheckpoint): seq<Step>
    requires ValidCheckpoint(c, json)
  {
    if json.current.None? then FromOrdinal(c, existing, store, Lo(c, json.nsRange), Hi(c, json.nsRange))
    else EntitiesOf(store, json.current.value) +
         FromOrdinal(c, existing, store, Ord(c, json.current.value.namespace, c.maxLength) + 1, Hi(c, json.nsRange))
  }

  class NamespaceRangeReader {
    const c: Config
    const existing: set<string>
    const store: Store
    var nsRange: NsRange
    var current: Option<KeyRange>
    var finished: bool

    ghost predicate Valid()
      reads this
    {
      ValidCheckpoint(c, NsCheckpoint(nsRange, current)) && KeyRangeReader.ValidStore(store)
    }

    ghost function Todo(): seq<Step>
      requires Valid()
      reads this
    {
      if finished then [] else Stored(c, existing, store, NsCheckpoint(nsRange, current))
    }

    constructor (c: Config, existing: set<string>, store: Store, json: NsCheckpoint)
      requires ValidCheckpoint(c, json) && KeyRangeReader.ValidStore(store)
      ensures Valid() && this.c == c && this.existing == existing && this.store == store
      ensures NsCheckpoint(nsRange, current) == json && !finished
    {
      this.c, this.existing, this.store := c, existing, store;
      nsRange, current, finished := json.nsRange, json.current, false;
    }

    method ToJson() returns (json: NsCheckpoint)
      ensures json == NsCheckpoint(nsRange, current)
    {
      json := NsCheckpoint(nsRange, current);
    }

    /**
     _iter_ns_range up to the next yield. It terminates by the ordinal distance to the end of the range, and
     with_start_after is only called inside the range.
     */
    method Next() returns (out: Option<Step>)
      requires Valid() && !finished
      modifies this
      ensures Valid()
      ensures old(Todo()) == [] ==> out.None? && finished
      ensures old(Todo()) != [] ==> out == Some(old(Todo())[0]) && Todo() == old(Todo())[1..] && !finished
    {
      hide Ord, StrLeq, Visit, Existing, EntitiesOf, LexDistance, Stored, ValidCheckpoint, Lo, Hi, ValidRange, FromOrdinal;
      while true
        invariant Valid() && !finished && Todo() == old(Todo())
        decreases Reach(c, NsCheckpoint(nsRange, current))
      {
        CheckpointParts(c, NsCheckpoint(nsRange, current));
        if current.None? {
          Query(c, existing, store, nsRange);
          var first := FirstExisting(c, existing, Lo(c, nsRange), Hi(c, nsRange));
          if first.None? {
            finished := true;
            return None;
          }
          current := Some(Whole(first.value));
          return Some(AllowCheckpoint);
        }
        ghost var before := NsCheckpoint(nsRange, current);
        var r := current.value;
        var keys := KeyRangeReader.KeysIn(KeyRangeReader.KeysOf(store, r.namespace), r);
        if keys != [] {
          MoreEntities(c, existing, store, before);
          current := Some(r.Advance(keys[0]));
          return Some(Entity(r.namespace, keys[0]));
        }
        NamespaceDone(c, existing, store, before);
        if nsRange.IsSingle() || r.namespace == nsRange.end {
          finished := true;
          return None;
        }
        nsRange := WithStartAfter(c, nsRange, r.namespace).value;
        current := None;
      }
    }
  }

  // The termination measure: the ordinals ahead, twice, plus one for a current namespace.
  ghost function Reach(c: Config, json: NsCheckpoint): nat
    requires ValidCheckpoint(c, json)
  {
    Hi(c, json.nsRange) - (if json.current.None? then Lo(c, json.nsRange) else Ord(c, json.current.value.namespace, c.maxLength))
    + (if json.current.Some? then 1 else 0)
  }

  // Looking for the next namespace.
  lemma Query(c: Config, existing: set<string>, store: Store, r: NsRange)
    requires ValidRange(c, r)
    ensures c.Valid() && ValidCheckpoint(c, NsCheckpoint(r, None)) && Hi(c, r) < LexDistance(|c.chars|, c.maxLength)
    ensures var first := FirstExisting(c, existing, Lo(c, r), Hi(c, r));
            && (first.None? ==> Stored(c, existing, store, NsCheckpoint(r, None)) == [])
            && (first.Some? ==>
                  && ValidCheckpoint(c, NsCheckpoint(r, Some(Whole(first.value))))
                  && Stored(c, existing, store, NsCheckpoint(r, None)) ==
                     [AllowCheckpoint] + Stored(c, existing, store, NsCheckpoint(r, Some(Whole(first.value)))))
  {
    hide Ord, FirstExisting, EntitiesOf, LexDistance;
    var first := FirstExisting(c, existing, Lo(c, r), Hi(c, r));
    if first.Some? {
      var rest := Existing(c, existing, Ord(c, first.value, c.maxLength) + 1, Hi(c, r));
      assert ([first.value] + rest)[1..] == rest;
    }
  }

  lemma CheckpointParts(c: Config, json: NsCheckpoint)
    requires ValidCheckpoint(c, json)
    ensures c.Valid() && ValidRange(c, json.nsRange)
    ensures json.current.Some? ==> IsNamespace(c, json.current.value.namespace, c.maxLength)
  {}

  // In a current key range: one more entity.
  lemma MoreEntities(c: Config, existing: set<string>, store: Store, json: NsCheckpoint)
    requires ValidCheckpoint(c, json) && json.current.Some? && KeyRangeReader.ValidStore(store)
    requires KeyRangeReader.KeysIn(KeyRangeReader.KeysOf(store, json.current.value.namespace), json.current.value) != []
    ensures var r := json.current.value;
            var keys := KeyRangeReader.KeysIn(KeyRangeReader.KeysOf(store, r.namespace), r);
            var next := NsCheckpoint(json.nsRange, Some(r.Advance(keys[0])));
            && ValidCheckpoint(c, next)
            && Stored(c, existing, store, json) == [Entity(r.namespace, keys[0])] + Stored(c, existing, store, next)
  {
    hide Ord, KeyRangeReader.KeysIn, StrLeq, FromOrdinal, LexDistance;
    var r := json.current.value;
    KeyRangeReader.AdvanceDropsFirst(KeyRangeReader.KeysOf(store, r.namespace), r);
  }

  // A namespace read to its end: the reader stops at the end of the range, or goes on behind the namespace.
  lemma NamespaceDone(c: Config, existing: set<string>, store: Store, json: NsCheckpoint)
    requires ValidCheckpoint(c, json) && json.current.Some?
    requires KeyRangeReader.KeysIn(KeyRangeReader.KeysOf(store, json.current.value.namespace), json.current.value) == []
    ensures var ns := json.current.value.namespace;
            if json.nsRange.IsSingle() || ns == json.nsRange.end then
              Stored(c, existing, store, json) == []
            else
              && WithStartAfter(c, json.nsRange, ns).Success?
              && var next := NsCheckpoint(WithStartAfter(c, json.nsRange, ns).value, None);
                 && ValidCheckpoint(c, next) && Reach(c, next) < Reach(c, json)
                 && Stored(c, existing, store, json) == Stored(c, existing, store, next)
  {
    hide Ord, KeyRangeReader.KeysIn, StrLeq, OrdToNamespace, LexDistance, WithStartAfter, FromOrdinal;
    var r := json.current.value;
    SameOrdinal(c, r.namespace, json.nsRange.end);
    assert EntitiesOf(store, r) == [];
    NothingBehind(c, existing, store, Hi(c, json.nsRange) + 1, Hi(c, json.nsRange));
  }

  lemma NothingBehind(c: Config, existing: set<string>, store: Store, lo: nat, hi: nat)
    requires c.Valid() && hi < LexDistance(|c.chars|, c.maxLength) && hi < lo
    ensures FromOrdinal(c, existing, store, lo, hi) == []
  {}

  /**
   Any sequence of slices yields the first steps of the uninterrupted output, as many as were asked for; None means
   that the generator has ended.
   */
  method RunSlices(c: Config, existing: set<string>, store: Store, start: NsCheckpoint, slices: seq<nat>)
    returns (steps: seq<Step>, json: Option<NsCheckpoint>)
    requires ValidCheckpoint(c, start) && KeyRangeReader.ValidStore(store)
    ensures json.Some? ==> ValidCheckpoint(c, json.value)
    ensures steps + (if json.Some? then Stored(c, existing, store, json.value) else []) == Stored(c, existing, store, start)
    ensures |steps| == Sum(slices) || (|steps| < Sum(slices) && json.None?)
  {
    hide Stored, ValidCheckpoint, KeyRangeReader.ValidStore;
    steps, json := [], Some(start);
    for s := 0 to |slices|
      invariant json.Some? ==> ValidCheckpoint(c, json.value)
      invariant steps + (if json.Some? then Stored(c, existing, store, json.value) else []) == Stored(c, existing, store, start)
      invariant |steps| == Sum(slices[..s]) || (|steps| < Sum(slices[..s]) && json.None?)
    {
      SumNext(slices, s);
      if json.Some? {
        var more, next := RunSlice(c, existing, store, json.value, slices[s]);
        ghost var rest := if next.Some? then Stored(c, existing, store, next.value) else [];
        assert (steps + more) + rest == steps + (more + rest);
        steps, json := steps + more, next;
      }
    }
    assert slices[..|slices|] == slices;
  }

  method RunSlice(c: Config, existing: set<string>, store: Store, start: NsCheckpoint, n: nat)
    returns (steps: seq<Step>, json: Option<NsCheckpoint>)
    requires ValidCheckpoint(c, start) && KeyRangeReader.ValidStore(store)
    ensures json.Some? ==> ValidCheckpoint(c, json.value)
    ensures steps + (if json.Some? then Stored(c, existing, store, json.value) else []) == Stored(c, existing, store, start)
    ensures |steps| == n || (|steps| < n && json.None?)
  {
    hide Stored, ValidCheckpoint, KeyRangeReader.ValidStore, Ord, StrLeq, LexDistance, IsNamespace, ValidRange, Visit, Existing;
    var reader := new NamespaceRangeReader(c, existing, store, start);
    steps := [];
    ghost var all := reader.Todo();
    ghost var todo := all;
    while |steps| < n
      invariant |steps| <= n
      invariant fresh(reader) && reader.Valid() && !reader.finished
      invariant reader.c == c && reader.existing == existing && reader.store == store
      invariant todo == reader.Todo() && steps + todo == all
    {
      var step := reader.Next();
      if step.None? {
        return steps, None;
      }
      MoveOne(steps, todo, all);
      steps, todo := steps + [step.value], todo[1..];
    }
    var stored := reader.ToJson();
    json := Some(stored);
  }
}
