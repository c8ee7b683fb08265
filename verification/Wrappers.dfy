/** Small generic helpers: an option, and what a loop over the keys of a map has done so far. */
module Wrappers {

  datatype Option<+T> = None | Some(value: T)

  /** Merging entries into base, key by key; the keys in rest are still to come. */
  ghost predicate Merging<K(!new), V>(base: map<K, V>, entries: map<K, V>, rest: set<K>, now: map<K, V>) {
    && (forall k :: k in now <==> k in base || (k in entries && k !in rest))
    && forall k :: k in now ==> now[k] == if k in entries && k !in rest then entries[k] else base[k]
  }

  lemma MergingStep<K(!new), V>(base: map<K, V>, entries: map<K, V>, rest: set<K>, now: map<K, V>, k: K)
    requires Merging(base, entries, rest, now) && k in rest
    ensures Merging(base, entries, rest - {k}, if k in entries then now[k := entries[k]] else now)
  {
  }

  lemma MergingDone<K(!new), V>(base: map<K, V>, entries: map<K, V>, now: map<K, V>)
    requires Merging(base, entries, {}, now)
    ensures now == base + entries
  {
  }

  /** Removing from all, key by key, what is not to be kept. */
  ghost predicate Pruning<K(!new), V>(all: map<K, V>, kept: set<K>, rest: set<K>, now: map<K, V>) {
    && rest <= all.Keys
    && (forall k :: k in now <==> k in all && (k in rest || k in kept))
    && forall k :: k in now ==> now[k] == all[k]
  }

  lemma PruningStep<K(!new), V>(all: map<K, V>, kept: set<K>, rest: set<K>, now: map<K, V>, k: K)
    requires Pruning(all, kept, rest, now) && k in rest
    ensures k in now && now[k] == all[k]
    ensures Pruning(all, kept, rest - {k}, if k in kept then now else now - {k})
  {
  }

  lemma CountStep<K>(whole: set<K>, rest: set<K>, k: K)
    requires k in rest
    ensures |whole - (rest - {k})| == |whole - rest| + if k in whole then 1 else 0
  {
    if k in whole {
      assert whole - (rest - {k}) == (whole - rest) + {k};
    } else {
      assert whole - (rest - {k}) == whole - rest;
    }
  }

  lemma CountStart<K>(whole: set<K>, all: set<K>)
    requires whole <= all
    ensures |whole - all| == 0
  {
    assert whole - all == {};
  }

  lemma CountDone<K>(whole: set<K>)
    ensures |whole - {}| == |whole|
  {
    assert whole - {} == whole;
  }
}
