/**
  The server's answer cache, an LRU map from question to answer created with
  `max: 150_000`. Only its capacity bound is modelled: the library's recency
  order is not, so the entry it evicts is an arbitrary other entry.
 */
module BoundedCache {
  import opened Wrappers

  /** The configured `max` of the cache. */
  const MaxEntries: nat := 150_000

  /**
    `after` is what `set(key, value)` may leave behind from `before`: the
    entry stored, and, when a new key meets a full cache, exactly one other
    entry evicted.
   */
  ghost predicate SetOutcome(before: map<string, string>, after: map<string, string>, key: string, value: string)
  {
    || after == before[key := value]
    || (&& key !in before
        && |before| == MaxEntries
        && exists victim :: victim in before && after == (before - {victim})[key := value])
  }

  /** What every outcome of `set` guarantees about the stored and the other entries. */
  lemma SetOutcomeKeepsOthers(before: map<string, string>, after: map<string, string>, key: string, value: string)
    requires SetOutcome(before, after, key, value)
    ensures key in after && after[key] == value
    ensures forall k :: k in after && k != key ==> k in before && after[k] == before[k]
    ensures forall k :: k in before && k !in after ==> key !in before && |before| == MaxEntries
  {
  }

  class Lru {
    var entries: map<string, string>

    ghost predicate Valid()
      reads this
    {
      |entries| <= MaxEntries
    }

    /** `createLRU({ max: 150_000, ... })`: an empty cache. */
    constructor ()
      ensures Valid() && entries == map[]
    {
      entries := map[];
    }

    /** `get(key)`, with `None` for `undefined`. */
    function Get(key: string): (r: Option<string>)
      reads this
      ensures r.Some? <==> key in entries
      ensures r.Some? ==> r.value == entries[key]
    {
      if key in entries then Some(entries[key]) else None
    }

    /**
      `set(key, value)`. On overflow one entry other than `key` is evicted
      and returned: the entry removed for capacity.
     */
    method Set(key: string, value: string) returns (evicted: Option<(string, string)>)
      requires Valid()
      modifies this
      ensures Valid()
      ensures SetOutcome(old(entries), entries, key, value)
      ensures evicted.Some? <==> key !in old(entries) && |old(entries)| == MaxEntries
      ensures evicted.None? ==> entries == old(entries)[key := value]
      ensures evicted.Some? ==>
                && evicted.value.0 in old(entries)
                && evicted.value.1 == old(entries)[evicted.value.0]
                && entries == (old(entries) - {evicted.value.0})[key := value]
    {
      if key !in entries && |entries| == MaxEntries {
        assert entries.Keys != {} by {
          assert |entries.Keys| == |entries|;
        }
        var victim :| victim in entries;
        evicted := Some((victim, entries[victim]));
        var rest := entries - {victim};
        assert |rest| == |entries| - 1 by {
          assert rest.Keys == entries.Keys - {victim};
        }
        entries := rest[key := value];
      } else {
        evicted := None;
        entries := entries[key := value];
      }
    }
  }
}
