/** Crashes in the middle of an eviction. */
module Recovery {
  import opened Paths
  import opened Pressure
  import opened Model
  import opened Sequential

  /** The micro-steps of a visit to an expired candidate. */
  datatype Op = DropOp | UnmapOp | EraseOp | ParentOp

  /** A missing path is removed from the queue first, and the eviction runs all the same. */
  function VisitOps(missing: bool): seq<Op>
  {
    (if missing then [DropOp, UnmapOp] else []) + [EraseOp, ParentOp, DropOp, UnmapOp]
  }

  function Do(w: World, id: string, c: Candidate, op: Op): World
  {
    match op
    case DropOp => WithDelDb(w, Without(w.delDb, id))
    case UnmapOp => WithCands(w, Without(w.cands, id))
    case EraseOp => WithTree(w, RemoveAll(w.tree, c.path))
    case ParentOp => WithTree(w, RemoveDir(w.tree, Dir(c.path)))
  }

  function Perform(w: World, id: string, c: Candidate, ops: seq<Op>): World
  {
    if ops == [] then w
    else Do(Perform(w, id, c, ops[..|ops| - 1]), id, c, ops[|ops| - 1])
  }

  /** Restart after a crash, followed by one undisturbed visit if the candidate is still queued. */
  function Recover(rnd: Rounding, w: World, id: string, round: Round): World
  {
    var w1 := Reload(w);
    if id in w1.cands then Visit(rnd, w1, id, w1.cands[id], round, NO_FAULTS) else w1
  }

  /** The first `k` micro-steps. */
  function Cut(w: World, id: string, c: Candidate, k: nat): World
    requires k <= |VisitOps(c.path !in w.tree)|
  {
    Perform(w, id, c, VisitOps(c.path !in w.tree)[..k])
  }

  lemma CutNext(w: World, id: string, c: Candidate, k: nat)
    requires k < |VisitOps(c.path !in w.tree)|
    ensures Cut(w, id, c, k + 1) == Do(Cut(w, id, c, k), id, c, VisitOps(c.path !in w.tree)[k])
  {
    var ops := VisitOps(c.path !in w.tree);
    assert ops[..k + 1][..k] == ops[..k];
  }

  lemma RemoveDirTwice(tree: set<Path>, dir: Path)
    ensures RemoveDir(RemoveDir(tree, dir), dir) == RemoveDir(tree, dir)
  {
  }

  lemma RemoveAllTwice(tree: set<Path>, p: Path)
    ensures RemoveAll(RemoveAll(tree, p), p) == RemoveAll(tree, p)
  {
  }

  lemma EmptyParentGone(tree: set<Path>, p: Path)
    requires p != []
    ensures RemoveAll(RemoveDir(RemoveAll(tree, p), Dir(p)), p) == RemoveDir(RemoveAll(tree, p), Dir(p))
  {
  }

  /** The tree an uninterrupted eviction leaves. */
  function EvictedTree(tree: set<Path>, p: Path): set<Path>
  {
    RemoveDir(RemoveAll(tree, p), Dir(p))
  }

  /** What the cuts look like: the queue entry goes last, or first when the path was already missing. */
  lemma CutsOfPresent(w: World, id: string, c: Candidate, k: nat)
    requires c.path in w.tree && k <= 4
    ensures Cut(w, id, c, k) ==
              World(if k == 0 then w.tree
                    else if k == 1 then RemoveAll(w.tree, c.path)
                    else EvictedTree(w.tree, c.path),
                    w.volDb, if k <= 2 then w.delDb else Without(w.delDb, id),
                    w.vols, if k <= 3 then w.cands else Without(w.cands, id))
  {
    if k > 0 {
      CutsOfPresent(w, id, c, k - 1);
      CutNext(w, id, c, k - 1);
    }
  }

  lemma CutsOfMissing(w: World, id: string, c: Candidate, k: nat)
    requires c.path !in w.tree && k <= 6
    ensures Cut(w, id, c, k) ==
              World(if k <= 2 then w.tree
                    else if k == 3 then RemoveAll(w.tree, c.path)
                    else EvictedTree(w.tree, c.path),
                    w.volDb, if k == 0 then w.delDb else Without(w.delDb, id),
                    w.vols, if k <= 1 then w.cands else Without(w.cands, id))
  {
    if k > 0 {
      CutsOfMissing(w, id, c, k - 1);
      CutNext(w, id, c, k - 1);
      assert Without(Without(w.delDb, id), id) == Without(w.delDb, id);
      assert Without(Without(w.cands, id), id) == Without(w.cands, id);
    }
  }

  /** The state every eviction is meant to reach, as a restart would load it. */
  function Goal(w: World, id: string, c: Candidate): World
  {
    World(EvictedTree(w.tree, c.path), w.volDb, Without(w.delDb, id), w.volDb, Without(w.delDb, id))
  }

  /** An undisturbed visit to an expired candidate performs all its micro-steps and reaches the goal. */
  lemma {:induction false} VisitReachesGoal(rnd: Rounding, w: World, id: string, c: Candidate, round: Round)
    requires w.cands == w.delDb && Expired(rnd, c, round)
    ensures Visit(rnd, w, id, c, round, NO_FAULTS) == Cut(w, id, c, |VisitOps(c.path !in w.tree)|)
    ensures Reload(Visit(rnd, w, id, c, round, NO_FAULTS)) == Goal(w, id, c)
  {
    if c.path in w.tree { CutsOfPresent(w, id, c, 4); } else { CutsOfMissing(w, id, c, 6); }
    assert Without(Without(w.delDb, id), id) == Without(w.delDb, id);
  }

  /** The directory exists and is empty. */
  predicate EmptyDir(tree: set<Path>, dir: Path)
  {
    dir in tree && !HasChild(tree, dir)
  }

  /** If recovery finds the directory already gone, only an expired candidate still takes the pod directory along. */
  lemma RecoveryFromMissing(rnd: Rounding, cut: World, id: string, c: Candidate, again: Round)
    requires id in cut.delDb && cut.delDb[id] == c && c.path !in cut.tree && RemoveAll(cut.tree, c.path) == cut.tree
    ensures var w := Recover(rnd, cut, id, again);
            && w.delDb == Without(cut.delDb, id) && w.cands == w.delDb && w.volDb == cut.volDb && w.vols == w.volDb
            && w.tree == if Expired(rnd, c, again) then RemoveDir(cut.tree, Dir(c.path)) else cut.tree
  {
    assert Without(Without(cut.delDb, id), id) == Without(cut.delDb, id);
  }

  lemma EvictingKeepsIff(tree: set<Path>, p: Path)
    requires RemoveAll(tree, p) == tree
    ensures EvictedTree(tree, p) == tree <==> !EmptyDir(tree, Dir(p))
  {
  }

  lemma ParentOutlivesErasure(tree: set<Path>, p: Path)
    requires Closed(tree) && p in tree && p != []
    ensures Dir(p) in RemoveAll(tree, p)
  {
    assert !(p <= Dir(p));
  }

  /** A crash after any micro-step of an eviction that found the directory, then a restart and one undisturbed
      visit: it ends where the uninterrupted eviction ends exactly if that round still finds the candidate
      expired, or the pod directory had been dealt with, or others use it. */
  lemma {:induction false} EvictionConverges(rnd: Rounding, w: World, id: string, c: Candidate, k: nat, again: Round)
    requires id in w.delDb && w.delDb[id] == c && c.path != []
    requires Closed(w.tree) && c.path in w.tree && k <= 4
    ensures Recover(rnd, Cut(w, id, c, k), id, again) == Goal(w, id, c)
       <==> || Expired(rnd, c, again)
            || k >= 2
            || (k == 1 && HasChild(RemoveAll(w.tree, c.path), Dir(c.path)))
  {
    var erased := RemoveAll(w.tree, c.path);
    CutsOfPresent(w, id, c, k);
    ParentOutlivesErasure(w.tree, c.path);
    RemoveAllTwice(w.tree, c.path);
    EmptyParentGone(w.tree, c.path);
    RemoveDirTwice(erased, Dir(c.path));
    EvictingKeepsIff(erased, c.path);
    var cut := Reload(Cut(w, id, c, k));
    if k == 0 && Expired(rnd, c, again) {
      VisitReachesGoal(rnd, cut, id, c, again);
    } else if 1 <= k <= 2 {
      RecoveryFromMissing(rnd, Cut(w, id, c, k), id, c, again);
    }
  }

  lemma NothingToErase(tree: set<Path>, p: Path)
    requires Closed(tree) && p !in tree
    ensures RemoveAll(tree, p) == tree
  {
    forall q | q in tree ensures !(p <= q) {
      if p <= q { NothingBelowMissing(tree, p, q); }
    }
  }

  /** A crash, or a failure, inside RemoveAll is repaired exactly if the next visit still finds the candidate
      expired, or there was nothing to erase and no empty pod directory either. */
  lemma {:induction false} PartialErasureConverges(
      rnd: Rounding, w: World, id: string, c: Candidate, left: set<Path>, again: Round)
    requires id in w.delDb && w.delDb[id] == c && Closed(w.tree)
    requires Fits(Partly(left), w.tree, c.path)
    ensures Recover(rnd, WithTree(w, left), id, again) == Goal(w, id, c)
       <==> Expired(rnd, c, again) || (c.path !in w.tree && !EmptyDir(w.tree, Dir(c.path)))
  {
    var cut := WithTree(w, left);
    assert RemoveAll(left, c.path) == RemoveAll(w.tree, c.path);
    if Expired(rnd, c, again) {
      VisitReachesGoal(rnd, Reload(cut), id, c, again);
    } else if c.path !in w.tree {
      NothingToErase(w.tree, c.path);
      NothingToErase(left, c.path);
      EvictingKeepsIff(w.tree, c.path);
      RecoveryFromMissing(rnd, cut, id, c, again);
    } else {
      assert c.path in left;
    }
  }

  /** A visit that finds the directory missing drops the queue entry before it has removed the pod directory. An
      empty pod directory then stays behind, exactly unless the crash came after its removal, or before the entry
      was dropped and the next round still finds the candidate expired. */
  lemma {:induction false} RecoveryOfMissing(rnd: Rounding, w: World, id: string, c: Candidate, k: nat, again: Round)
    requires id in w.delDb && w.delDb[id] == c && c.path != []
    requires Closed(w.tree) && c.path !in w.tree && k <= 6
    ensures Recover(rnd, Cut(w, id, c, k), id, again) == Goal(w, id, c)
       <==> k >= 4 || (k == 0 && Expired(rnd, c, again)) || !EmptyDir(w.tree, Dir(c.path))
  {
    CutsOfMissing(w, id, c, k);
    NothingToErase(w.tree, c.path);
    EvictingKeepsIff(w.tree, c.path);
    if k == 0 { RecoveryFromMissing(rnd, Cut(w, id, c, k), id, c, again); }
  }
}
