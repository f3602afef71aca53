/** The exact effect of an undisturbed prune round, whatever order it takes. */
module Rounds {
  import opened Paths
  import opened Pressure
  import opened Model
  import opened Sequential

  /* ---------- the tree a set of evictions leaves ---------- */

  /** Candidate paths lie one or two levels below the root, are not nested, and spare the bolt file. */
  ghost predicate PathsOk(root: Path, tree: set<Path>, paths: set<Path>)
  {
    && root + [DB_FILE] in tree
    && (forall p :: p in paths ==>
          root <= p && |root| < |p| <= |root| + 2 && p[|root|] != DB_FILE)
    && (forall p, q :: p in paths && q in paths && p <= q ==> p == q)
  }

  ghost predicate Covered(paths: set<Path>, q: Path)
  {
    exists p :: p in paths && p <= q
  }

  ghost function Rest(tree: set<Path>, paths: set<Path>): set<Path>
  {
    set q | q in tree && !Covered(paths, q)
  }

  /** The parent of an evicted path that nothing else keeps alive. */
  ghost predicate Emptied(tree: set<Path>, paths: set<Path>, q: Path)
  {
    (exists p :: p in paths && Dir(p) == q) && !HasChild(Rest(tree, paths), q)
  }

  /** The tree without the subtrees at `paths` and without the parents this empties. */
  ghost function Swept(tree: set<Path>, paths: set<Path>): set<Path>
  {
    set q | q in tree && !Covered(paths, q) && !Emptied(tree, paths, q)
  }

  lemma SparesDb(root: Path, p: Path)
    requires root <= p && |root| < |p| && p[|root|] != DB_FILE
    ensures !(p <= root + [DB_FILE]) && Dir(p) != root + [DB_FILE]
  {
    assert (root + [DB_FILE])[|root|] == DB_FILE;
    assert |p| > |root| + 1 ==> Dir(p)[|root|] == p[|root|];
  }

  /** The bolt file keeps the root alive. */
  lemma DbStays(root: Path, tree: set<Path>, paths: set<Path>)
    requires PathsOk(root, tree, paths)
    ensures root + [DB_FILE] in Swept(tree, paths) && HasChild(Rest(tree, paths), root)
  {
    forall p | p in paths ensures !(p <= root + [DB_FILE]) && Dir(p) != root + [DB_FILE] {
      SparesDb(root, p);
    }
    DirOfAppend(root, DB_FILE);
    assert root + [DB_FILE] in Rest(tree, paths);
  }

  lemma ParentLevels(root: Path, p: Path)
    requires root <= p && |root| < |p| <= |root| + 2
    ensures Dir(p) == root || (|Dir(p)| == |root| + 1 && Dir(Dir(p)) == root)
    ensures Dir(p) <= p && |Dir(p)| < |p|
  {
  }

  /** Emptied directories lie right below the root, and no candidate path lies above them. */
  lemma EmptiedIsPodDir(root: Path, tree: set<Path>, paths: set<Path>, q: Path)
    requires PathsOk(root, tree, paths) && Emptied(tree, paths, q)
    ensures |q| == |root| + 1 && Dir(q) == root
    ensures !Covered(paths, q)
  {
    var x :| x in paths && Dir(x) == q;
    ParentLevels(root, x);
    DbStays(root, tree, paths);
    forall p | p in paths ensures !(p <= q) {
      NotAboveParent(p, x);
    }
  }

  lemma NotAboveParent(p: Path, x: Path)
    requires p <= x ==> p == x
    requires x != []
    ensures !(p <= Dir(x))
  {
    assert Dir(x) <= x;
  }

  lemma CoveredMore(paths: set<Path>, p: Path, q: Path)
    ensures Covered(paths + {p}, q) <==> Covered(paths, q) || p <= q
  {
    if Covered(paths, q) {
      var x :| x in paths && x <= q;
      assert x in paths + {p};
    }
    if p <= q { assert p in paths + {p}; }
  }

  lemma FewerPathsOk(root: Path, tree: set<Path>, paths: set<Path>, more: set<Path>)
    requires PathsOk(root, tree, more) && paths <= more
    ensures PathsOk(root, tree, paths)
  {
  }

  /** The children of a candidate's parent survive the emptying of other pod directories. */
  lemma ChildrenStay(root: Path, tree: set<Path>, paths: set<Path>, p: Path)
    requires PathsOk(root, tree, paths + {p})
    ensures HasChild(RemoveAll(Swept(tree, paths), p), Dir(p)) <==> HasChild(Rest(tree, paths + {p}), Dir(p))
  {
    var some, all := RemoveAll(Swept(tree, paths), p), Rest(tree, paths + {p});
    FewerPathsOk(root, tree, paths, paths + {p});
    forall q ensures q in all <==> q in tree && !Covered(paths, q) && !(p <= q) {
      CoveredMore(paths, p, q);
    }
    if HasChild(all, Dir(p)) {
      var q :| q in all && q != [] && Dir(q) == Dir(p);
      if q !in some {
        EmptiedIsPodDir(root, tree, paths, q);
        DbStays(root, tree, paths);
        assert p in paths + {p};
        SparesDb(root, p);
        DirOfAppend(root, DB_FILE);
        assert root + [DB_FILE] in some;
      }
    }
  }

  lemma EmptiedMore(root: Path, tree: set<Path>, paths: set<Path>, p: Path, q: Path)
    requires PathsOk(root, tree, paths + {p})
    ensures Emptied(tree, paths + {p}, q) <==>
              Emptied(tree, paths, q) || (q == Dir(p) && !HasChild(Rest(tree, paths + {p}), q))
  {
    assert p in paths + {p};
    forall x ensures x in Rest(tree, paths + {p}) <==> x in Rest(tree, paths) && !(p <= x) {
      CoveredMore(paths, p, x);
    }
    if (exists x :: x in paths && Dir(x) == q) && q != Dir(p) {
      var x :| x in paths && Dir(x) == q;
      assert x in paths + {p};
      forall y | y in Rest(tree, paths) && y != [] && Dir(y) == q ensures !(p <= y) {
        NotAboveSibling(p, x, y);
      }
    }
  }

  /** What is above a child of another candidate's parent would be above that candidate. */
  lemma NotAboveSibling(p: Path, x: Path, y: Path)
    requires x != [] && y != [] && Dir(y) == Dir(x) != Dir(p)
    requires p <= x ==> p == x
    ensures !(p <= y)
  {
    NotAboveParent(p, x);
    if p <= y && p != y { PrefixOfParent(p, y); }
  }

  /** Evicting one more path from a swept tree gives the tree swept of one more path. */
  lemma SweptMore(root: Path, tree: set<Path>, paths: set<Path>, p: Path)
    requires PathsOk(root, tree, paths + {p})
    ensures Swept(tree, paths + {p}) == RemoveDir(RemoveAll(Swept(tree, paths), p), Dir(p))
  {
    ChildrenStay(root, tree, paths, p);
    forall q ensures q in Swept(tree, paths + {p}) <==> q in RemoveDir(RemoveAll(Swept(tree, paths), p), Dir(p)) {
      CoveredMore(paths, p, q);
      EmptiedMore(root, tree, paths, p, q);
    }
  }

  /* ---------- the exact effect of a round ---------- */

  /** The layout the node gives its candidates: at most two levels below the working directory, none inside
      another, none at the bolt file. */
  ghost predicate LayoutOk(root: Path, tree: set<Path>, cands: map<string, Candidate>)
  {
    && root + [DB_FILE] in tree
    && (forall id :: id in cands ==>
          var p := cands[id].path; root <= p && |root| < |p| <= |root| + 2 && p[|root|] != DB_FILE)
    && (forall id, other :: id in cands && other in cands && id != other ==> !(cands[id].path <= cands[other].path))
  }

  /** The paths of the expired candidates among `ids`. */
  ghost function ExpiredPaths(rnd: Rounding, cands: map<string, Candidate>, round: Round, ids: set<string>): set<Path>
  {
    set id | id in ids && id in cands && Expired(rnd, cands[id], round) :: cands[id].path
  }

  predicate Survives(rnd: Rounding, tree: set<Path>, c: Candidate, round: Round)
  {
    c.path in tree && !Expired(rnd, c, round)
  }

  /** The queue after visits to `ids`: those that expired or whose path was missing are gone. */
  function Kept(rnd: Rounding, tree: set<Path>, cands: map<string, Candidate>, round: Round, ids: set<string>)
    : map<string, Candidate>
  {
    map id | id in cands && (id !in ids || Survives(rnd, tree, cands[id], round)) :: cands[id]
  }

  /** The world after undisturbed visits to `ids`, in any order. */
  ghost function After(rnd: Rounding, w: World, round: Round, ids: set<string>): World
  {
    var kept := Kept(rnd, w.tree, w.cands, round, ids);
    World(Swept(w.tree, ExpiredPaths(rnd, w.cands, round, ids)), w.volDb, kept, w.vols, kept)
  }

  lemma LayoutGivesPathsOk(rnd: Rounding, root: Path, w: World, round: Round, ids: set<string>)
    requires LayoutOk(root, w.tree, w.cands)
    ensures PathsOk(root, w.tree, ExpiredPaths(rnd, w.cands, round, ids))
  {
  }

  /** Evicting other candidates neither creates nor removes a candidate's path. */
  lemma PathUnaffected(rnd: Rounding, root: Path, w: World, round: Round, ids: set<string>, id: string)
    requires LayoutOk(root, w.tree, w.cands) && id in w.cands && id !in ids
    ensures w.cands[id].path in After(rnd, w, round, ids).tree <==> w.cands[id].path in w.tree
  {
    var paths, p := ExpiredPaths(rnd, w.cands, round, ids), w.cands[id].path;
    LayoutGivesPathsOk(rnd, root, w, round, ids);
    assert !Covered(paths, p);
    forall x | x in paths ensures Dir(x) != p {
      assert Dir(x) <= x;
    }
    assert !Emptied(w.tree, paths, p);
  }

  /** An undisturbed visit in one stroke: the two removals of a missing and expired candidate are one. */
  lemma VisitInOneStroke(rnd: Rounding, w: World, id: string, c: Candidate, round: Round)
    ensures Visit(rnd, w, id, c, round, NO_FAULTS) ==
              if Survives(rnd, w.tree, c, round) then w
              else
                World(if Expired(rnd, c, round) then RemoveDir(RemoveAll(w.tree, c.path), Dir(c.path)) else w.tree,
                      w.volDb, Without(w.delDb, id), w.vols, Without(w.cands, id))
  {
    assert Without(Without(w.delDb, id), id) == Without(w.delDb, id);
    assert Without(Without(w.cands, id), id) == Without(w.cands, id);
  }

  lemma VisitAdds(rnd: Rounding, root: Path, w: World, round: Round, ids: set<string>, id: string)
    requires LayoutOk(root, w.tree, w.cands) && id in w.cands && id !in ids
    ensures Visit(rnd, After(rnd, w, round, ids), id, w.cands[id], round, NO_FAULTS)
         == After(rnd, w, round, ids + {id})
  {
    var c := w.cands[id];
    PathUnaffected(rnd, root, w, round, ids, id);
    var paths, more := ExpiredPaths(rnd, w.cands, round, ids), ExpiredPaths(rnd, w.cands, round, ids + {id});
    if Expired(rnd, c, round) {
      assert more == paths + {c.path};
      LayoutGivesPathsOk(rnd, root, w, round, ids + {id});
      SweptMore(root, w.tree, paths, c.path);
    } else {
      assert more == paths;
    }
    KeptAdds(rnd, w, round, ids, id);
    VisitInOneStroke(rnd, After(rnd, w, round, ids), id, c, round);
  }

  lemma KeptAdds(rnd: Rounding, w: World, round: Round, ids: set<string>, id: string)
    requires id in w.cands && id !in ids
    ensures Kept(rnd, w.tree, w.cands, round, ids + {id})
         == if Survives(rnd, w.tree, w.cands[id], round) then Kept(rnd, w.tree, w.cands, round, ids)
            else Without(Kept(rnd, w.tree, w.cands, round, ids), id)
  {
  }

  lemma SweepVisits(rnd: Rounding, root: Path, w: World, order: seq<string>, round: Round)
    requires LayoutOk(root, w.tree, w.cands) && w.cands == w.delDb
    requires forall id :: id in order ==> id in w.cands
    requires forall i, j :: 0 <= i < j < |order| ==> order[i] != order[j]
    ensures Sweep(rnd, w, w.cands, order, round, id => NO_FAULTS) == After(rnd, w, round, set id | id in order)
  {
    if order == [] {
      assert Kept(rnd, w.tree, w.cands, round, {}) == w.cands;
      assert (set id | id in order) == {};
    } else {
      var n := |order| - 1;
      SweepVisits(rnd, root, w, order[..n], round);
      var ids := set id | id in order[..n];
      assert order[n] !in ids;
      assert (set id | id in order) == ids + {order[n]};
      VisitAdds(rnd, root, w, round, ids, order[n]);
    }
  }

  /** An undisturbed round over the whole queue, in whatever order the map iteration takes, leaves in the map and
      in the bucket exactly the candidates whose path existed and whose deadline had not passed, and the tree
      without the expired subtrees and the pod directories they emptied. */
  lemma {:induction false} ExactRound(rnd: Rounding, root: Path, w: World, order: seq<string>, round: Round)
    requires LayoutOk(root, w.tree, w.cands) && w.cands == w.delDb && Enumerates(order, w.cands.Keys)
    ensures var w' := Sweep(rnd, w, w.cands, order, round, id => NO_FAULTS);
            && w' == After(rnd, w, round, w.cands.Keys)
            && w'.cands == w'.delDb
            && (forall id :: id in w'.cands <==> id in w.cands && Survives(rnd, w.tree, w.cands[id], round))
            && (forall id :: id in w'.cands ==> w'.cands[id] == w.cands[id])
  {
    SweepVisits(rnd, root, w, order, round);
    assert (set id | id in order) == w.cands.Keys;
  }

  lemma {:induction false} OrderIrrelevant(
      rnd: Rounding, root: Path, w: World, order0: seq<string>, order1: seq<string>, round: Round)
    requires LayoutOk(root, w.tree, w.cands) && w.cands == w.delDb
    requires Enumerates(order0, w.cands.Keys) && Enumerates(order1, w.cands.Keys)
    ensures Sweep(rnd, w, w.cands, order0, round, id => NO_FAULTS)
         == Sweep(rnd, w, w.cands, order1, round, id => NO_FAULTS)
  {
    ExactRound(rnd, root, w, order0, round);
    ExactRound(rnd, root, w, order1, round);
  }

  /** After a round, the pod directory of an expired candidate exists exactly when something is left in it. */
  lemma {:induction false} PodDirKeptIffInUse(
      rnd: Rounding, root: Path, w: World, order: seq<string>, round: Round, id: string)
    requires LayoutOk(root, w.tree, w.cands) && w.cands == w.delDb && Enumerates(order, w.cands.Keys)
    requires Closed(w.tree) && id in w.cands && Expired(rnd, w.cands[id], round)
    ensures var tree, pod := Sweep(rnd, w, w.cands, order, round, id => NO_FAULTS).tree, Dir(w.cands[id].path);
            && (pod in tree <==> HasChild(tree, pod))
            && (pod == root ==> pod in tree)
  {
    ExactRound(rnd, root, w, order, round);
    var ids, p := w.cands.Keys, w.cands[id].path;
    var paths := ExpiredPaths(rnd, w.cands, round, ids);
    LayoutGivesPathsOk(rnd, root, w, round, ids);
    assert p in paths && paths + {p} == paths;
    assert RemoveAll(Swept(w.tree, paths), p) == Swept(w.tree, paths);
    ChildrenStay(root, w.tree, paths, p);
    forall q | q in paths ensures !(q <= Dir(p)) {
      NotAboveParent(q, p);
    }
    DbStays(root, w.tree, paths);
  }

  /* ---------- the survivors in plain arithmetic ---------- */

  /** In exact arithmetic a candidate expires once more than the scaled lifespan has passed since its unpublish. */
  lemma ExpiredExactly(c: Candidate, round: Round, x: real)
    requires 0 <= c.lifespan && 0.0 <= round.factor && x == c.lifespan as real * round.factor
    ensures Expired(Exact(), c, round) <==> (round.now - c.time) as real > x
  {
    ScaledExactly(c.lifespan, round.factor, x);
  }

  /** A round whose headroom is rejected expires a candidate once more than a tenth of its lifespan has passed. */
  lemma ExpiredByDefault(c: Candidate, now: int, total: nat, free: nat, headroom: real)
    requires 0 <= c.lifespan && (headroom < 0.0 || 1.0 < headroom)
    ensures Expired(Exact(), c, Round(now, RoundFactor(Exact(), total, free, headroom)))
       <==> 10 * (now - c.time) > c.lifespan
  {
    DefaultFactor(Exact(), total, free, headroom);
    ExpiredExactly(c, Round(now, 0.1), c.lifespan as real * 0.1);
  }

  /** The time a round leaves a candidate, in terms of the disk: a tenth of the lifespan, if the headroom is rejected;
      the lifespan, if the headroom is free; and otherwise the free share of the headroom. */
  predicate InTime(c: Candidate, now: int, free: nat, headroom: real, space: nat)
  {
    if headroom < 0.0 || 1.0 < headroom then 10 * (now - c.time) <= c.lifespan
    else if space <= free then now - c.time <= c.lifespan
    else (now - c.time) as real <= c.lifespan as real * (free as real / space as real)
  }

  lemma InTimeExactly(c: Candidate, now: int, total: nat, free: nat, headroom: real, space: nat)
    requires 0 <= c.lifespan
    requires 0.0 <= headroom <= 1.0 ==> space as real - 1.0 < total as real * headroom <= space as real
    ensures InTime(c, now, free, headroom, space)
       <==> !Expired(Exact(), c, Round(now, RoundFactor(Exact(), total, free, headroom)))
  {
    if headroom < 0.0 || 1.0 < headroom {
      ExpiredByDefault(c, now, total, free, headroom);
    } else {
      SpaceIsHeadroom(total, headroom, space, total as real * headroom);
      FactorExactly(total, free, headroom, space);
      FactorInUnit(Exact(), total, free, headroom);
      InTimeByFactor(c, now, RoundFactor(Exact(), total, free, headroom), free, headroom, space);
    }
  }

  lemma InTimeByFactor(c: Candidate, now: int, factor: real, free: nat, headroom: real, space: nat)
    requires 0 <= c.lifespan && 0.0 <= headroom <= 1.0 && 0.0 <= factor
    requires factor == if space <= free then 1.0 else free as real / space as real
    ensures InTime(c, now, free, headroom, space) <==> !Expired(Exact(), c, Round(now, factor))
  {
    var x := c.lifespan as real * factor;
    InTimeUntil(c, now, factor, free, headroom, space, x);
    ExpiredExactly(c, Round(now, factor), x);
  }

  lemma InTimeUntil(c: Candidate, now: int, factor: real, free: nat, headroom: real, space: nat, x: real)
    requires 0.0 <= headroom <= 1.0 && x == c.lifespan as real * factor
    requires factor == if space <= free then 1.0 else free as real / space as real
    ensures InTime(c, now, free, headroom, space) <==> (now - c.time) as real <= x
  {
  }

  lemma SpaceIsHeadroom(total: nat, headroom: real, space: nat, x: real)
    requires x == total as real * headroom && space as real - 1.0 < x <= space as real
    ensures space == HeadroomSpace(Exact(), total, headroom)
  {
    HeadroomExactly(total, headroom, x);
  }

  /** Which candidates an undisturbed round keeps, without rounding and without any function of the code: those whose
      path existed and that are in time, where the headroom is rounded up to whole bytes. */
  lemma {:induction false} SurvivorsExactly(
      root: Path, w: World, order: seq<string>, now: int, total: nat, free: nat, headroom: real, space: nat, id: string)
    requires LayoutOk(root, w.tree, w.cands) && w.cands == w.delDb && Enumerates(order, w.cands.Keys)
    requires id in w.cands && 0 <= w.cands[id].lifespan
    requires 0.0 <= headroom <= 1.0 ==> space as real - 1.0 < total as real * headroom <= space as real
    ensures var round := Round(now, RoundFactor(Exact(), total, free, headroom));
            var w' := Sweep(Exact(), w, w.cands, order, round, id => NO_FAULTS);
            && (id in w'.cands <==> id in w'.delDb)
            && (id in w'.cands <==>
                  w.cands[id].path in w.tree && InTime(w.cands[id], now, free, headroom, space))
  {
    ExactRound(Exact(), root, w, order, Round(now, RoundFactor(Exact(), total, free, headroom)));
    InTimeExactly(w.cands[id], now, total, free, headroom, space);
  }

  /* ---------- one visit, with its failures ---------- */

  /** What a visit leaves, whatever fails in it. The entry goes if the path was found missing and that removal
      succeeded, or if the candidate was expired, all of its directory could be erased and that removal succeeded.
      The tree changes only for an expired candidate: below the path, and at its parent if that is left empty. */
  lemma {:induction false} WhatAVisitLeaves(rnd: Rounding, w: World, id: string, c: Candidate, round: Round, f: Faults)
    requires Same(w.cands, w.delDb, id)
    ensures var w' := Visit(rnd, w, id, c, round, f);
            var due := round.now > c.time + Scaled(rnd, c.lifespan, round.factor);
            && w'.vols == w.vols && w'.volDb == w.volDb
            && Same(w'.cands, w'.delDb, id)
            && (forall other :: other != id ==> Same(w'.cands, w.cands, other) && Same(w'.delDb, w.delDb, other))
            && (id in w'.cands ==> id in w.cands && w'.cands[id] == w.cands[id])
            && (id in w'.cands <==>
                  && id in w.cands
                  && !(c.path !in w.tree && !f.statFails && f.drop1Ok)
                  && !(due && f.erasure.Erased? && f.drop2Ok))
    ensures var tree' := Visit(rnd, w, id, c, round, f).tree;
            var due := round.now > c.time + Scaled(rnd, c.lifespan, round.factor);
            && (!due ==> tree' == w.tree)
            && (due && f.erasure.Partly? ==> tree' == f.erasure.left)
            && (due && f.erasure.Erased? ==>
                  forall q :: q in tree' <==>
                    && q in w.tree && !(c.path <= q)
                    && !(f.parentOk && q == Dir(c.path) &&
                         forall x :: x in w.tree && x != [] && Dir(x) == q ==> c.path <= x))
  {
    if Expired(rnd, c, round) && f.erasure.Erased? {
      EvictedContent(w.tree, c.path);
    }
  }

  lemma EvictedContent(tree: set<Path>, p: Path)
    ensures forall q :: q in RemoveDir(RemoveAll(tree, p), Dir(p)) <==>
              && q in tree && !(p <= q)
              && !(q == Dir(p) && forall x :: x in tree && x != [] && Dir(x) == q ==> p <= x)
  {
    if HasChild(RemoveAll(tree, p), Dir(p)) {
      var x :| x in RemoveAll(tree, p) && x != [] && Dir(x) == Dir(p);
      assert x in tree && !(p <= x);
    } else {
      forall x | x in tree && x != [] && Dir(x) == Dir(p) ensures p <= x {
        assert x in RemoveAll(tree, p) || p <= x;
      }
    }
  }

  /* ---------- more pressure, later clock ---------- */

  lemma ExpiredMonotone(rnd: Rounding, c: Candidate, r0: Round, r1: Round)
    requires IsRounding(rnd) && 0 <= c.lifespan && 0.0 <= r1.factor <= r0.factor && r0.now <= r1.now
    requires Expired(rnd, c, r0)
    ensures Expired(rnd, c, r1)
  {
    ScaledMonotone(rnd, c.lifespan, r1.factor, r0.factor);
  }

  lemma SweptAntitone(tree: set<Path>, fewer: set<Path>, more: set<Path>)
    requires fewer <= more
    ensures Swept(tree, more) <= Swept(tree, fewer)
  {
    assert Rest(tree, more) <= Rest(tree, fewer);
  }

  /** With less free space and a clock at least as late, a round evicts at least as much from the queue and from
      the tree, whatever orders the two rounds take. */
  lemma {:induction false} MorePressureEvictsMore(
      rnd: Rounding, root: Path, w: World, order0: seq<string>, order1: seq<string>,
      now0: int, now1: int, total: nat, free0: nat, free1: nat, headroom: real)
    requires LayoutOk(root, w.tree, w.cands) && w.cands == w.delDb
    requires Enumerates(order0, w.cands.Keys) && Enumerates(order1, w.cands.Keys)
    requires forall id :: id in w.cands ==> 0 <= w.cands[id].lifespan
    requires IsRounding(rnd) && now0 <= now1 && free1 <= free0
    ensures var r0 := Round(now0, RoundFactor(rnd, total, free0, headroom));
            var r1 := Round(now1, RoundFactor(rnd, total, free1, headroom));
            var w0 := Sweep(rnd, w, w.cands, order0, r0, id => NO_FAULTS);
            var w1 := Sweep(rnd, w, w.cands, order1, r1, id => NO_FAULTS);
            w1.cands.Keys <= w0.cands.Keys && w1.tree <= w0.tree
  {
    var r0 := Round(now0, RoundFactor(rnd, total, free0, headroom));
    var r1 := Round(now1, RoundFactor(rnd, total, free1, headroom));
    ExactRound(rnd, root, w, order0, r0);
    ExactRound(rnd, root, w, order1, r1);
    FactorMonotoneInFree(rnd, total, free1, free0, headroom);
    FactorInUnit(rnd, total, free1, headroom);
    forall id | id in w.cands && Expired(rnd, w.cands[id], r0) ensures Expired(rnd, w.cands[id], r1) {
      ExpiredMonotone(rnd, w.cands[id], r0, r1);
    }
    var ids := w.cands.Keys;
    SweptAntitone(w.tree, ExpiredPaths(rnd, w.cands, r0, ids), ExpiredPaths(rnd, w.cands, r1, ids));
  }

  /** Past its whole lifespan a candidate expires whatever the disk pressure. */
  lemma OverdueExpires(rnd: Rounding, c: Candidate, now: int, total: nat, free: nat, headroom: real)
    requires KeepsLifespans(rnd) && 0 <= c.lifespan <= EXACT_INTEGERS && c.time + c.lifespan < now
    ensures Expired(rnd, c, Round(now, RoundFactor(rnd, total, free, headroom)))
  {
    assert Scaled(rnd, c.lifespan, RoundFactor(rnd, total, free, headroom)) <= c.lifespan;
  }
}
