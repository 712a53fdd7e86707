/** The analysis cache of the data importer (plotter/DataImporter_plotter.py:126-129
    and 1018-1083): analyses are memoised under a key made of the strategy key and
    the number of runs, hits and misses are counted, and once more than 100
    entries are held the 25 oldest are dropped. */
module AnalysisCache {
  import opened Wrappers
  import opened Text
  import opened Dicts
  import opened Json
  import opened ParamAnalysis

  /** The tracked size above which `_cleanup_cache` runs. */
  const Ceiling: nat := 100
  /** `_cleanup_cache` only evicts when more entries than this are held. */
  const CleanupFloor: nat := 50
  /** How many of the oldest entries one cleanup removes. */
  const Evicted: nat := 25

  type Entries = seq<(string, Analysis)>

  /** `f"analysis_{strategy_key}_{len(parameters)}"`. */
  function CacheKey(strategyKey: string, runCount: nat): (r: string)
    ensures |r| > |strategyKey| + 10
  {
    "analysis_" + strategyKey + "_" + NatToString(runCount)
  }

  /** Two positions both holding the last `_` of a string are the same. */
  lemma LastSeparator(s: string, p1: nat, p2: nat)
    requires p1 < |s| && p2 < |s| && s[p1] == '_' && s[p2] == '_'
    requires forall i :: p1 < i < |s| ==> s[i] != '_'
    requires forall i :: p2 < i < |s| ==> s[i] != '_'
    ensures p1 == p2
  {
  }

  /** A string ending in `_` and a digit string splits there in one way only. */
  lemma SplitDigitSuffix(a1: string, d1: string, a2: string, d2: string)
    requires a1 + "_" + d1 == a2 + "_" + d2
    requires AllDigits(d1) && AllDigits(d2)
    ensures a1 == a2 && d1 == d2
  {
    var s := a1 + "_" + d1;
    forall i | |a1| < i < |s| ensures s[i] != '_' {
      assert s[i] == d1[i - |a1| - 1];
    }
    forall i | |a2| < i < |s| ensures s[i] != '_' {
      assert s[i] == (a2 + "_" + d2)[i] == d2[i - |a2| - 1];
    }
    assert s[|a2|] == (a2 + "_" + d2)[|a2|];
    LastSeparator(s, |a1|, |a2|);
    assert a1 == s[..|a1|] == (a2 + "_" + d2)[..|a2|] == a2;
    assert d1 == s[|a1| + 1..] == (a2 + "_" + d2)[|a2| + 1..] == d2;
  }

  /** Different strategy keys or run counts never share a cache entry: the run
      count is the digits after the last `_`, which no digit string contains. */
  lemma CacheKeyInjective(k1: string, n1: nat, k2: string, n2: nat)
    ensures CacheKey(k1, n1) == CacheKey(k2, n2) <==> k1 == k2 && n1 == n2
  {
    if CacheKey(k1, n1) == CacheKey(k2, n2) {
      var a1, a2 := "analysis_" + k1, "analysis_" + k2;
      assert CacheKey(k1, n1) == a1 + "_" + NatToString(n1);
      assert CacheKey(k2, n2) == a2 + "_" + NatToString(n2);
      SplitDigitSuffix(a1, NatToString(n1), a2, NatToString(n2));
      assert k1 == a1[9..] == a2[9..] == k2;
      NatToStringInjective(n1, n2);
    }
  }

  /** The dictionary `get_cache_stats` returns. */
  datatype Stats = Stats(hits: nat, misses: nat, size: nat, hitRate: real)

  /** `get_cache_stats()` on given counters. */
  function StatsOf(hits: nat, misses: nat, size: nat): (s: Stats)
    ensures s.hits == hits && s.misses == misses && s.size == size
    ensures 0.0 <= s.hitRate <= 1.0
    ensures hits + misses == 0 ==> s.hitRate == 0.0
    ensures s.hitRate * (hits + misses) as real == hits as real
  {
    var requests := hits + misses;
    Stats(hits, misses, size, if requests > 0 then hits as real / requests as real else 0.0)
  }

  /** A hit never lowers the hit rate and a miss never raises it. */
  lemma HitRateMoves(hits: nat, misses: nat, size: nat)
    ensures StatsOf(hits + 1, misses, size).hitRate >= StatsOf(hits, misses, size).hitRate
    ensures StatsOf(hits, misses + 1, size).hitRate <= StatsOf(hits, misses, size).hitRate
  {
    var n := (hits + misses) as real;
    var h := hits as real;
    var rate := StatsOf(hits, misses, size).hitRate;
    var up := StatsOf(hits + 1, misses, size).hitRate;
    var down := StatsOf(hits, misses + 1, size).hitRate;
    assert rate * n == h;
    assert up * (n + 1.0) == h + 1.0;
    assert down * (n + 1.0) == h;
    assert rate <= 1.0;
    assert (up - rate) * (n + 1.0) == 1.0 - rate by {
      assert (up - rate) * (n + 1.0) == up * (n + 1.0) - rate * n - rate;
    }
    assert (rate - down) * (n + 1.0) == rate by {
      assert (rate - down) * (n + 1.0) == rate * n + rate - down * (n + 1.0);
    }
    NonNegativeFactor(up - rate, n + 1.0);
    NonNegativeFactor(rate - down, n + 1.0);
  }

  lemma NonNegativeFactor(x: real, y: real)
    requires y > 0.0 && x * y >= 0.0
    ensures x >= 0.0
  {
  }

  /** The entries after a miss stores `(key, a)`: the new entry goes last and,
      once the size passes the ceiling, the 25 oldest entries go. */
  function Stored(entries: Entries, key: string, a: Analysis): Entries {
    var grown := entries + [(key, a)];
    if |grown| > Ceiling && |grown| > CleanupFloor then grown[Evicted..] else grown
  }

  /** Binding a new key appends it and leaves the other keys' values alone. */
  lemma AppendFresh(entries: Entries, key: string, a: Analysis)
    requires DistinctKeys(entries) && !HasKey(entries, key)
    ensures var grown := entries + [(key, a)];
      && Put(entries, key, a) == grown
      && DistinctKeys(grown)
      && forall k :: k != key ==> Get(grown, k) == Get(entries, k)
  {
    forall i | 0 <= i < |entries| ensures entries[i].0 != key {
    }
  }

  /** Dropping the oldest entries keeps keys distinct and the survivors' values. */
  lemma DropKeeps(d: Entries, off: nat)
    requires DistinctKeys(d) && off <= |d|
    ensures DistinctKeys(d[off..])
    ensures forall k :: HasKey(d[off..], k) ==> Get(d[off..], k) == Get(d, k)
  {
    var r := d[off..];
    forall i, j | 0 <= i < j < |r| ensures r[i].0 != r[j].0 {
      assert r[i] == d[i + off] && r[j] == d[j + off];
    }
    forall k | HasKey(r, k) ensures Get(r, k) == Get(d, k) {
      var i :| 0 <= i < |r| && r[i].0 == k;
      GetDistinct(r, i);
      assert r[i] == d[i + off];
      GetDistinct(d, i + off);
    }
  }

  /** Storing keeps the keys distinct and the size within the ceiling, removes
      exactly the oldest entries when full, and makes the new entry readable while
      every surviving entry keeps its value. */
  lemma StoredSpec(entries: Entries, key: string, a: Analysis)
    requires DistinctKeys(entries) && !HasKey(entries, key) && |entries| <= Ceiling
    ensures Put(entries, key, a) == entries + [(key, a)]
    ensures var r := Stored(entries, key, a);
      && DistinctKeys(r)
      && |r| <= Ceiling
      && (|entries| < Ceiling ==> r == entries + [(key, a)])
      && (|entries| == Ceiling ==> |r| == Ceiling - Evicted + 1 && r == entries[Evicted..] + [(key, a)])
      && Get(r, key) == Some(a)
      && (forall k :: k != key && HasKey(r, k) ==> Get(r, k) == Get(entries, k))
  {
    var grown := entries + [(key, a)];
    var r := Stored(entries, key, a);
    AppendFresh(entries, key, a);
    var off := if |grown| > Ceiling then Evicted else 0;
    assert r == grown[off..];
    if |grown| > Ceiling {
      assert r == entries[Evicted..] + [(key, a)];
    }
    DropKeeps(grown, off);
    GetDistinct(r, |r| - 1);
  }

  /** Every entry is the analysis its key names, computed from the recorded
      strategy key and runs, and no key repeats. */
  ghost predicate Tracks(entries: Entries, origins: seq<(string, seq<Dict>)>) {
    && DistinctKeys(entries)
    && |origins| == |entries|
    && forall i :: 0 <= i < |entries| ==> TrackedBy(entries[i], origins[i])
  }

  /** One entry is the analysis of the strategy key and runs it was computed from. */
  ghost predicate TrackedBy(entry: (string, Analysis), origin: (string, seq<Dict>)) {
    && entry.0 == CacheKey(origin.0, |origin.1|)
    && AnalysisOf(origin.1, origin.0) == Ok(entry.1)
  }

  /** What a hit returns is the analysis of some run list of the requested
      length for the requested strategy key. */
  lemma HitTracked(entries: Entries, origins: seq<(string, seq<Dict>)>, strategyKey: string, runCount: nat)
    requires Tracks(entries, origins) && HasKey(entries, CacheKey(strategyKey, runCount))
    ensures exists src: seq<Dict> ::
      |src| == runCount && AnalysisOf(src, strategyKey) == Ok(Get(entries, CacheKey(strategyKey, runCount)).value)
  {
    var i :| 0 <= i < |entries| && entries[i].0 == CacheKey(strategyKey, runCount);
    GetDistinct(entries, i);
    assert TrackedBy(entries[i], origins[i]);
    CacheKeyInjective(strategyKey, runCount, origins[i].0, |origins[i].1|);
    assert AnalysisOf(origins[i].1, strategyKey) == Ok(entries[i].1);
  }

  lemma StoreTracked(entries: Entries, origins: seq<(string, seq<Dict>)>, strategyKey: string, runs: seq<Dict>, a: Analysis)
    requires Tracks(entries, origins) && !HasKey(entries, CacheKey(strategyKey, |runs|))
    requires TrackedBy((CacheKey(strategyKey, |runs|), a), (strategyKey, runs))
    ensures Tracks(entries + [(CacheKey(strategyKey, |runs|), a)], origins + [(strategyKey, runs)])
  {
    var e := entries + [(CacheKey(strategyKey, |runs|), a)];
    var o := origins + [(strategyKey, runs)];
    AppendFresh(entries, CacheKey(strategyKey, |runs|), a);
    assert TrackedBy(e[|entries|], o[|entries|]);
    forall i | 0 <= i < |entries| ensures TrackedBy(e[i], o[i]) {
      assert e[i] == entries[i] && o[i] == origins[i];
    }
  }

  /** Dropping any number of the oldest entries keeps the rest tracked. */
  lemma DropManyTracked(entries: Entries, origins: seq<(string, seq<Dict>)>, n: nat)
    requires Tracks(entries, origins) && n <= |entries|
    ensures Tracks(entries[n..], origins[n..])
  {
    DropKeeps(entries, n);
    assert forall i :: 0 <= i < |entries| - n ==> entries[n..][i] == entries[i + n] && origins[n..][i] == origins[i + n];
  }

  /** `for key in keys_to_remove: del cache[key]`, where the keys to remove are the
      oldest ones in insertion order: exactly those entries go. */
  method DeleteOldest(d: Entries, doomed: seq<string>) returns (r: Entries)
    requires DistinctKeys(d) && |doomed| <= |d|
    requires forall j :: 0 <= j < |doomed| ==> doomed[j] == d[j].0
    ensures r == d[|doomed|..]
  {
    r := d;
    for j := 0 to |doomed|
      invariant r == d[j..]
    {
      assert DistinctKeys(r) by {
        forall a, b | 0 <= a < b < |r| ensures r[a].0 != r[b].0 {
          assert r[a] == d[a + j] && r[b] == d[b + j];
        }
      }
      RemoveOldest(r);
      r := Remove(r, doomed[j]);
      assert r == d[j..][1..] == d[j + 1..];
    }
  }

  /** The strategy-analysis cache of one importer. */
  class Cache {
    /** `strategy_analysis_cache`, in insertion order. */
    var entries: Entries
    /** `cache_stats['hits']`, `['misses']` and `['size']`. */
    var hits: nat
    var misses: nat
    var size: nat
    /** The strategy key and runs each entry was computed from. */
    ghost var origins: seq<(string, seq<Dict>)>

    /** Every entry is the analysis its key names, and keys are distinct. */
    ghost predicate Consistent()
      reads this
    {
      Tracks(entries, origins)
    }

    /** The invariant between calls: the size counter is the number of entries
        and never above the ceiling. */
    ghost predicate Valid()
      reads this
    {
      Consistent() && size == |entries| <= Ceiling
    }

    /** The cache part of the importer's constructor. */
    constructor ()
      ensures Valid()
      ensures entries == [] && hits == 0 && misses == 0 && size == 0
    {
      entries := [];
      hits := 0;
      misses := 0;
      size := 0;
      origins := [];
    }

    /** `get_cache_stats()`. */
    function Stats(): (s: Stats)
      reads this
      requires Valid()
      ensures s.hits == hits && s.misses == misses
      ensures s.size == |entries| <= Ceiling
      ensures 0.0 <= s.hitRate <= 1.0
      ensures s.hitRate * (hits + misses) as real == hits as real
    {
      StatsOf(hits, misses, size)
    }

    /** `_cleanup_cache()`: when more than 50 entries are held, the first 25 keys
        are deleted one by one and the size counter is reset to the entry count. */
    method Cleanup()
      requires Consistent()
      modifies this
      ensures Consistent()
      ensures hits == old(hits) && misses == old(misses)
      ensures if |old(entries)| > CleanupFloor
        then entries == old(entries)[Evicted..] && size == |entries|
        else entries == old(entries) && size == old(size)
    {
      if |entries| > CleanupFloor {
        var doomed := Keys(entries)[..Evicted];
        DropManyTracked(entries, origins, Evicted);
        entries := DeleteOldest(entries, doomed);
        origins := origins[Evicted..];
        size := |entries|;
      }
    }

    /** `get_strategy_analysis_cached(parameters, strategy_key)`. A hit counts and
        returns the stored analysis with nothing else changed; a miss counts, runs
        the analysis, and stores its result unless the analysis raised. */
    method Fetch(runs: seq<Dict>, strategyKey: string) returns (r: Result<Analysis, Failure>)
      requires Valid()
      modifies this
      ensures Valid()
      ensures var key := CacheKey(strategyKey, |runs|);
        if HasKey(old(entries), key) then
          && r == Ok(Get(old(entries), key).value)
          && hits == old(hits) + 1 && misses == old(misses)
          && entries == old(entries)
        else
          && r == AnalysisOf(runs, strategyKey)
          && hits == old(hits) && misses == old(misses) + 1
          && entries == if r.Ok? then Stored(old(entries), key, r.value) else old(entries)
      ensures r.Ok? ==> Get(entries, CacheKey(strategyKey, |runs|)) == Some(r.value)
      ensures r.Ok? ==> exists src: seq<Dict> :: |src| == |runs| && AnalysisOf(src, strategyKey) == r
    {
      var key := CacheKey(strategyKey, |runs|);
      if HasKey(entries, key) {
        hits := hits + 1;
        HitTracked(entries, origins, strategyKey, |runs|);
        return Ok(Get(entries, key).value);
      }
      misses := misses + 1;
      r := AnalyzeStrategy(runs, strategyKey);
      if r.Ok? {
        StoreTracked(entries, origins, strategyKey, runs, r.value);
        Store(strategyKey, runs, r.value);
      }
    }

    /** The store after a miss: `cache[key] = result`, the size counter bumped and,
        past the ceiling, the cleanup. The new entry is the analysis of `runs`. */
    method Store(strategyKey: string, runs: seq<Dict>, a: Analysis)
      requires Valid() && !HasKey(entries, CacheKey(strategyKey, |runs|))
      requires Tracks(entries + [(CacheKey(strategyKey, |runs|), a)], origins + [(strategyKey, runs)])
      modifies this
      ensures Valid()
      ensures hits == old(hits) && misses == old(misses)
      ensures entries == Stored(old(entries), CacheKey(strategyKey, |runs|), a)
      ensures Get(entries, CacheKey(strategyKey, |runs|)) == Some(a)
    {
      var key := CacheKey(strategyKey, |runs|);
      StoredSpec(entries, key, a);
      // `cache[key] = analysis` for a key that is absent appends (`StoredSpec`).
      entries := entries + [(key, a)];
      origins := origins + [(strategyKey, runs)];
      size := size + 1;
      Trim();
    }

    /** `if cache_stats['size'] > 100: _cleanup_cache()`. */
    method Trim()
      requires Consistent() && size == |entries| <= Ceiling + 1
      modifies this
      ensures Valid()
      ensures hits == old(hits) && misses == old(misses)
      ensures entries == if |old(entries)| > Ceiling then old(entries)[Evicted..] else old(entries)
    {
      if size > Ceiling {
        Cleanup();
      }
    }
  }
}
