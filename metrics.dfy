/** The process-wide event counters (utils/metrics.py). */
module Metrics {

  /** `counter[key]` of a `Counter`: a key never incremented reads as 0. */
  function CountOf(counters: map<string, int>, key: string): int {
    if key in counters then counters[key] else 0
  }

  /** The counters after `incr(key, n)`: that key rises by `n`, no other key moves, and the key is now present. */
  function Bumped(counters: map<string, int>, key: string, n: int): (r: map<string, int>)
    ensures CountOf(r, key) == CountOf(counters, key) + n
    ensures forall other :: other != key ==> CountOf(r, other) == CountOf(counters, other)
    ensures r.Keys == counters.Keys + {key}
  {
    counters[key := CountOf(counters, key) + n]
  }

  /** A `Counter` of named events; a key never incremented reads as 0. */
  class Metrics {
    var counters: map<string, int>

    constructor ()
      ensures counters == map[]
      ensures forall key :: Count(key) == 0
    {
      counters := map[];
    }

    /** `counters[key]`, with the `Counter` default of 0. */
    function Count(key: string): int
      reads this
    {
      CountOf(counters, key)
    }

    /** `incr(key, n)`: that key's counter rises by `n`, every other key's is unchanged. */
    method Incr(key: string, n: int)
      modifies this
      ensures counters == Bumped(old(counters), key, n)
      ensures Count(key) == old(Count(key)) + n
      ensures forall other :: other != key ==> Count(other) == old(Count(other))
    {
      counters := Bumped(counters, key, n);
    }

    /** `snapshot()`: a copy of the counters as they are now. */
    method Snapshot() returns (s: map<string, int>)
      ensures s == counters
      ensures forall key :: key in s ==> Count(key) == s[key]
    {
      s := counters;
    }
  }

  /** A snapshot taken before an increment keeps the values it was taken with. */
  method SnapshotThenIncr(m: Metrics, key: string, n: int) returns (before: map<string, int>)
    modifies m
    ensures before == old(m.counters)
    ensures m.Count(key) == old(m.Count(key)) + n
  {
    before := m.Snapshot();
    m.Incr(key, n);
  }
}
