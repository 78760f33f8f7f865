/**
 What it means for a lock, seen as a plain boolean, to guard a region of the code of many threads.
 */
module LockRegions {

  /** The lock is held exactly when some thread is in the region, and never more than one is. */
  ghost predicate Guards<PC>(lock: bool, threads: seq<PC>, region: PC -> bool) {
    && (lock <==> exists t :: 0 <= t < |threads| && region(threads[t]))
    && (forall t, u | 0 <= t < |threads| && 0 <= u < |threads| ::
          region(threads[t]) && region(threads[u]) ==> t == u)
  }

  /** What one step may do to a lock: nothing, acquire it when free, or release it from inside.
      `wasIn` and `isIn` say whether the thread was and is in the region of the lock. */
  predicate LockMove(before: bool, after: bool, wasIn: bool, isIn: bool) {
    || (wasIn == isIn && before == after)
    || (!wasIn && isIn && !before && after)
    || (wasIn && !isIn && !after)
  }

  lemma GuardsKept<PC>(before: bool, after: bool, threads: seq<PC>, t: nat, q: PC, region: PC -> bool)
    requires t < |threads| && Guards(before, threads, region)
    requires LockMove(before, after, region(threads[t]), region(q))
    ensures Guards(after, threads[t := q], region)
  {
    var threads' := threads[t := q];
    if after {
      var h :| 0 <= h < |threads'| && if region(q) then h == t else region(threads[h]);
      assert region(threads'[h]);
    }
  }
}
