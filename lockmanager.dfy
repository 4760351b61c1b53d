/**
  The end of a run: every prior lock entry that the traversal did not reach
  (an orphan) is either carried into the new lock (and reported as
  unreferenced) or, for `clean`, has its installed paths removed. The
  resulting `verified` dictionary is what the lockfile is rewritten with.
 */
module LockManager {
  import opened Base
  import opened Integrity

  /** The prior entries the run did not reach. */
  function Orphans(locks: map<Path, LockEntry>, verified: map<Path, LockEntry>): map<Path, LockEntry> {
    map l | l in locks && l !in verified :: locks[l]
  }

  /** The orphans among the keys `keys`. */
  function OrphansAmong(keys: seq<Path>, locks: map<Path, LockEntry>, verified: map<Path, LockEntry>): map<Path, LockEntry> {
    map l | l in keys && l in locks && l !in verified :: locks[l]
  }

  /** The `installed_to` paths of a key when it is an orphan, else none. */
  function OrphanPaths(l: Path, locks: map<Path, LockEntry>, verified: map<Path, LockEntry>): seq<Path> {
    if l in locks && l !in verified then locks[l].installedTo else []
  }

  /** The paths `clean` removes while visiting the lock's keys in order. */
  function RemovedPaths(order: seq<Path>, locks: map<Path, LockEntry>, verified: map<Path, LockEntry>): seq<Path> {
    if order == [] then []
    else RemovedPaths(order[..|order| - 1], locks, verified) + OrphanPaths(order[|order| - 1], locks, verified)
  }

  /** The keys of a lock, each once, in the order the lockfile lists them. */
  ghost predicate EnumeratesKeys(order: seq<Path>, locks: map<Path, LockEntry>) {
    && (forall i, j :: 0 <= i < j < |order| ==> order[i] != order[j])
    && (forall l :: l in locks <==> l in order)
  }

  /** The inner loop of `clean`: each `installed_to` path of an orphan is
      removed, in order; `removed` is the log of paths removed so far. */
  method RemoveInstalled(removed: seq<Path>, paths: seq<Path>) returns (after: seq<Path>)
    ensures after == removed + paths
  {
    after := removed;
    var k := 0;
    while k < |paths|
      invariant 0 <= k <= |paths|
      invariant after == removed + paths[..k]
    {
      // os.remove, or shutil.rmtree when it is not a file
      after := after + [paths[k]];
      k := k + 1;
    }
    assert paths[..k] == paths;
  }

  /** The loop over the prior lock's keys at the end of `main`. It returns the
      "unreferenced" flag and the paths removed, in order; the new lock is
      the final `verified`. */
  method Reconcile(order: seq<Path>, locks: map<Path, LockEntry>, op: Operation, verified: VerifiedSet)
    returns (unref: bool, removed: seq<Path>)
    requires EnumeratesKeys(order, locks)
    modifies verified
    ensures op != Clean ==>
      && verified.entries == old(verified.entries) + Orphans(locks, old(verified.entries))
      && removed == []
      && (unref <==> Orphans(locks, old(verified.entries)) != map[])
    ensures op == Clean ==>
      && verified.entries == old(verified.entries)
      && !unref
      && removed == RemovedPaths(order, locks, old(verified.entries))
  {
    unref := false;
    removed := [];
    var i := 0;
    while i < |order|
      invariant 0 <= i <= |order|
      invariant op != Clean ==>
        && verified.entries == old(verified.entries) + OrphansAmong(order[..i], locks, old(verified.entries))
        && removed == []
        && (unref <==> OrphansAmong(order[..i], locks, old(verified.entries)) != map[])
      invariant op == Clean ==>
        && verified.entries == old(verified.entries)
        && !unref
        && removed == RemovedPaths(order[..i], locks, old(verified.entries))
    {
      var l := order[i];
      ghost var v := old(verified.entries);
      if op != Clean {
        CarryStep(order, i, locks, v);
      } else {
        RemovedStep(order, i, locks, v);
      }
      if l !in verified.entries {
        if op == Clean {
          removed := RemoveInstalled(removed, locks[l].installedTo);
        } else {
          verified.entries := verified.entries[l := locks[l]];
          unref := true;
        }
      }
      i := i + 1;
    }
    assert order[..i] == order;
    AllVisited(order, locks, old(verified.entries));
  }

  /** One key of the loop outside `clean`: it is in the carried lock exactly
      when the run reached it, and carrying it extends the visited orphans. */
  lemma CarryStep(order: seq<Path>, i: nat, locks: map<Path, LockEntry>, v: map<Path, LockEntry>)
    requires i < |order|
    requires EnumeratesKeys(order, locks)
    ensures var l, before := order[i], OrphansAmong(order[..i], locks, v);
      var after := OrphansAmong(order[..i + 1], locks, v);
      && (l in v + before <==> l in v)
      && (l in v ==> after == before)
      && (l !in v ==> (v + before)[l := locks[l]] == v + after && l in after)
  {
    var l, before := order[i], OrphansAmong(order[..i], locks, v);
    OrphansAmongStep(order, i, locks, v);
    assert l in locks;
    if l !in v {
      OverlayUpdate(v, before, l, locks[l]);
    }
  }

  /** One key of the loop under `clean`: its orphan paths follow those removed so far. */
  lemma RemovedStep(order: seq<Path>, i: nat, locks: map<Path, LockEntry>, v: map<Path, LockEntry>)
    requires i < |order|
    requires EnumeratesKeys(order, locks)
    ensures RemovedPaths(order[..i + 1], locks, v) == RemovedPaths(order[..i], locks, v) + OrphanPaths(order[i], locks, v)
    ensures order[i] in locks
  {
    assert order[..i + 1][..i] == order[..i];
  }

  /** Adding a key the base map lacks to the overlay, or to the overlaid map, is the same. */
  lemma OverlayUpdate(base: map<Path, LockEntry>, overlay: map<Path, LockEntry>, l: Path, e: LockEntry)
    requires l !in base
    ensures (base + overlay)[l := e] == base + overlay[l := e]
  {
  }

  /** Once every key is visited, the orphans met are all the orphans. */
  lemma AllVisited(order: seq<Path>, locks: map<Path, LockEntry>, verified: map<Path, LockEntry>)
    requires EnumeratesKeys(order, locks)
    ensures OrphansAmong(order, locks, verified) == Orphans(locks, verified)
  {
  }

  /** Extending the visited prefix by one key adds that key when it is an orphan. */
  lemma OrphansAmongStep(order: seq<Path>, i: nat, locks: map<Path, LockEntry>, verified: map<Path, LockEntry>)
    requires i < |order|
    requires forall a, b :: 0 <= a < b < |order| ==> order[a] != order[b]
    ensures order[i] !in OrphansAmong(order[..i], locks, verified)
    ensures OrphansAmong(order[..i + 1], locks, verified) ==
      if order[i] in locks && order[i] !in verified
      then OrphansAmong(order[..i], locks, verified)[order[i] := locks[order[i]]]
      else OrphansAmong(order[..i], locks, verified)
  {
    assert order[..i + 1] == order[..i] + [order[i]];
  }

  /** The new lock outside `clean` is the prior lock overlaid with this run's
      entries: every prior key survives, orphans keep their old entry and
      entries the run recorded are untouched. */
  lemma CarriedLock(locks: map<Path, LockEntry>, verified: map<Path, LockEntry>)
    ensures verified + Orphans(locks, verified) == locks + verified
    ensures (verified + Orphans(locks, verified)).Keys == locks.Keys + verified.Keys
  {
  }

  /** Under `clean`, a path is removed exactly when it is installed by an orphan. */
  lemma {:induction false} RemovedPathsExactly(order: seq<Path>, locks: map<Path, LockEntry>, verified: map<Path, LockEntry>, p: Path)
    ensures p in RemovedPaths(order, locks, verified) <==>
      exists l :: l in order && l in Orphans(locks, verified) && p in Orphans(locks, verified)[l].installedTo
  {
    if order != [] {
      var init, last := order[..|order| - 1], order[|order| - 1];
      RemovedPathsExactly(init, locks, verified, p);
      assert order == init + [last];
      if p in RemovedPaths(order, locks, verified) && p !in RemovedPaths(init, locks, verified) {
        assert last in order && last in Orphans(locks, verified);
      }
      if exists l :: l in order && l in Orphans(locks, verified) && p in Orphans(locks, verified)[l].installedTo {
        var l :| l in order && l in Orphans(locks, verified) && p in Orphans(locks, verified)[l].installedTo;
        if l != last {
          assert l in init;
        }
      }
    }
  }

  /** The removed paths are exactly the union of the orphans' `installed_to`. */
  lemma CleanRemovesOrphanPaths(order: seq<Path>, locks: map<Path, LockEntry>, verified: map<Path, LockEntry>)
    requires EnumeratesKeys(order, locks)
    ensures forall p :: p in RemovedPaths(order, locks, verified) <==>
      exists l :: l in Orphans(locks, verified) && p in Orphans(locks, verified)[l].installedTo
  {
    forall p
      ensures p in RemovedPaths(order, locks, verified) <==>
        exists l :: l in Orphans(locks, verified) && p in Orphans(locks, verified)[l].installedTo
    {
      RemovedPathsExactly(order, locks, verified, p);
    }
  }
}
