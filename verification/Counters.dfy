/** CountersMap (server/mapreduce/model.py) and its aggregation over shards (server/mapreduce/handlers.py). */
module Counters {

  type CounterValues = map<string, int>

  function Get(m: CounterValues, name: string): int {
    if name in m then m[name] else 0
  }

  function Increment(m: CounterValues, name: string, delta: int): (r: CounterValues)
    ensures forall other :: Get(r, other) == Get(m, other) + (if other == name then delta else 0)
  {
    m[name := Get(m, name) + delta]
  }

  class CountersMap {
    var counters: CounterValues

    constructor (initial: CounterValues)
      ensures counters == initial
    {
      counters := initial;
    }

    method IncrementBy(name: string, delta: int) returns (value: int)
      modifies this
      ensures counters == Increment(old(counters), name, delta) && value == Get(counters, name)
    {
      value := Get(counters, name) + delta;
      counters := counters[name := value];
    }

    /** add_map: one increment per counter of the other map, in whatever order the dictionary has. */
    method AddMap(other: CounterValues)
      modifies this
      ensures forall name :: Get(counters, name) == Get(old(counters), name) + Get(other, name)
      ensures counters.Keys == old(counters).Keys + other.Keys
    {
      var names := other.Keys;
      while names != {}
        invariant names <= other.Keys
        invariant forall name :: Get(counters, name) == Get(old(counters), name) + (if name in names then 0 else Get(other, name))
        invariant counters.Keys == old(counters).Keys + (other.Keys - names)
      {
        var name :| name in names;
        var value := IncrementBy(name, other[name]);
        names := names - {name};
      }
    }

    /** sub_map undoes add_map. */
    method SubMap(other: CounterValues)
      modifies this
      ensures forall name :: Get(counters, name) == Get(old(counters), name) - Get(other, name)
    {
      var names := other.Keys;
      while names != {}
        invariant names <= other.Keys
        invariant forall name :: Get(counters, name) == Get(old(counters), name) - (if name in names then 0 else Get(other, name))
      {
        var name :| name in names;
        var value := IncrementBy(name, -other[name]);
        names := names - {name};
      }
    }

    method Clear()
      modifies this
      ensures counters == map[]
    {
      counters := map[];
    }
  }

  ghost function Total(shards: seq<CounterValues>, name: string): int {
    if shards == [] then 0 else Total(shards[..|shards| - 1], name) + Get(shards[|shards| - 1], name)
  }

  ghost predicate IsTotal(m: CounterValues, shards: seq<CounterValues>) {
    forall name :: Get(m, name) == Total(shards, name)
  }

  /** aggregate_state: whatever the job's counters were, they become the pointwise sum over the shards. */
  method AggregateState(job: CountersMap, shards: seq<CounterValues>)
    modifies job
    ensures IsTotal(job.counters, shards)
  {
    hide Get;
    job.Clear();
    NothingCounted();
    for i := 0 to |shards|
      invariant IsTotal(job.counters, shards[..i])
    {
      assert shards[..i + 1][..i] == shards[..i];
      job.AddMap(shards[i]);
    }
    assert shards[..|shards|] == shards;
  }

  lemma NothingCounted()
    ensures IsTotal(map[], [])
  {}
}
