/** What goes wrong without some of the hypotheses. */
module Hypotheses {
  import opened Paths
  import opened Pressure
  import opened Model
  import opened Sequential
  import opened Steps
  import opened QueueAgreement
  import opened Simulation
  import opened Recovery
  import opened Rounds
  import opened Provenance
  import opened Eviction
  import opened Requests

  predicate Anything(a: Action)
  {
    true
  }

  /** At rest as far as the id is concerned, and yet map and bucket differ. */
  predicate Torn(s: State, id: string)
  {
    !MidQueue(s, id) && !MidRemove(s, id) && !Same(s.w.cands, s.w.delDb, id)
  }

  predicate NoCheck(a: Action, id: string)
  {
    a != Unpublish(id, Check)
  }

  lemma EvictionOvertakes(cfg: Config, r0: Run, r: Run, id: string) returns (r': Run)
    requires Valid(cfg, r) && Continues(cfg, r0, r, a => NoCheck(a, id))
    requires StillRemoves(cfg, Last(r), id) && MidQueue(Last(r), id)
    requires Last(r).pruner.stage.Judge? || Last(r).pruner.stage.Parent? || Last(r).pruner.stage.Drop2?
    ensures Continues(cfg, r0, r', a => NoCheck(a, id))
    ensures MidQueue(Last(r'), id) && Last(r').pruner.Sweeping? && id !in Last(r').w.delDb
  {
    var mine := a => NoCheck(a, id);
    r' := r;
    if Last(r').pruner.stage.Judge? { r' := Extend(cfg, r0, r', Prune(EraseVolume(Erased)), mine); }
    if Last(r').pruner.stage.Parent? { r' := Extend(cfg, r0, r', Prune(RemoveParent(true)), mine); }
    r' := RemovalOvertakes(cfg, r0, r', id);
  }

  lemma RemovalOvertakes(cfg: Config, r0: Run, r: Run, id: string) returns (r': Run)
    requires Valid(cfg, r) && Continues(cfg, r0, r, a => NoCheck(a, id))
    requires IsVisiting(Last(r), id) && Last(r).pruner.stage.Drop2? && MidQueue(Last(r), id)
    ensures Continues(cfg, r0, r', a => NoCheck(a, id))
    ensures MidQueue(Last(r'), id) && Last(r').pruner.Sweeping? && id !in Last(r').w.delDb
  {
    var mine := a => NoCheck(a, id);
    r' := Extend(cfg, r0, r, Prune(Drop(true)), mine);
    r' := Extend(cfg, r0, r', Prune(Unmap), mine);
  }

  /** A handler that has found the id unqueued, in a visit that still has a removal to do, can tear the queue:
      the removal deletes the new bucket entry, or the new map entry, and not the other. */
  lemma TearingGoesOn(cfg: Config, r: Run, id: string) returns (r': Run)
    requires Valid(cfg, r) && id in Last(r).rpcs && Last(r).rpcs[id].Putting? && id !in Last(r).w.cands
    requires StillRemoves(cfg, Last(r), id) && !Last(r).pruner.stage.Drop1? && !Last(r).pruner.stage.Unmap1?
    ensures Continues(cfg, r, r', a => NoCheck(a, id)) && Torn(Last(r'), id)
    ensures Last(r).pruner.stage.Judge? ==> id in Last(r').w.cands && id !in Last(r').w.delDb
  {
    var mine := a => NoCheck(a, id);
    r' := Extend(cfg, r, r, Unpublish(id, Put(true)), mine);
    if Last(r).pruner.stage.Unmap2? {
      r' := Extend(cfg, r, r', Unpublish(id, Insert), mine);
      r' := Extend(cfg, r, r', Prune(Unmap), mine);
    } else {
      r' := EvictionOvertakes(cfg, r, r', id);
      r' := Extend(cfg, r, r', Unpublish(id, Insert), mine);
    }
  }

  /** `r'` goes on from `r` with a check of the id, and keeps to the hypothesis afterwards. */
  ghost predicate GoesOnWithCheck(cfg: Config, r: Run, r': Run, id: string)
  {
    && Valid(cfg, r') && r.states <= r'.states && r.acts + [Unpublish(id, Check)] <= r'.acts
    && forall k :: |r.acts| < k < |r'.acts| ==> NoQueueDuringVisit(cfg, r'.states[k], r'.acts[k], id)
  }

  lemma TearingCheck(cfg: Config, r: Run, id: string) returns (r': Run)
    requires Valid(cfg, r) && id in Last(r).rpcs && Last(r).rpcs[id].Checking? && id !in Last(r).w.cands
    requires StillRemoves(cfg, Last(r), id) && !Last(r).pruner.stage.Drop1? && !Last(r).pruner.stage.Unmap1?
    ensures GoesOnWithCheck(cfg, r, r', id) && Torn(Last(r'), id)
    ensures Last(r).pruner.stage.Judge? ==> id in Last(r').w.cands && id !in Last(r').w.delDb
  {
    var checked := Extend(cfg, r, r, Unpublish(id, Check), Anything);
    r' := TearingGoesOn(cfg, checked, id);
  }

  /** `NoQueueDuringVisit` excludes exactly the steps that can tear the queue. After a run that has kept to it, the
      check of an unpublish can be followed by steps that keep to it and leave map and bucket different at rest,
      if and only if the current visit still has a removal to do and the id is not in the map. */
  lemma {:induction false} CheckTearsIff(cfg: Config, r: Run, id: string)
    requires Valid(cfg, r) && Always(cfg, r, id, NoQueueDuringVisit)
    requires id in Last(r).rpcs && Last(r).rpcs[id].Checking?
    ensures (exists r' :: GoesOnWithCheck(cfg, r, r', id) && Torn(Last(r'), id))
       <==> !NoQueueDuringVisit(cfg, Last(r), Unpublish(id, Check), id)
  {
    QueueInRun(cfg, r, |r.acts|, id);
    if !NoQueueDuringVisit(cfg, Last(r), Unpublish(id, Check), id) {
      var r' := TearingCheck(cfg, r, id);
    } else {
      forall r' | GoesOnWithCheck(cfg, r, r', id) ensures !Torn(Last(r'), id) {
        KeepsTo(cfg, r, r', id);
        MapAndBucketAgree(cfg, r', |r'.acts|, id);
      }
    }
  }

  lemma KeepsTo(cfg: Config, r: Run, r': Run, id: string)
    requires Valid(cfg, r) && Always(cfg, r, id, NoQueueDuringVisit) && GoesOnWithCheck(cfg, r, r', id)
    requires NoQueueDuringVisit(cfg, Last(r), Unpublish(id, Check), id)
    ensures Always(cfg, r', id, NoQueueDuringVisit)
  {
    var n := |r.acts|;
    forall k | 0 <= k < |r'.acts| ensures NoQueueDuringVisit(cfg, r'.states[k], r'.acts[k], id) {
      if k < n {
        assert r'.acts[k] == r.acts[k] && r'.states[k] == r.states[k];
      } else if k == n {
        assert r'.acts[n] == (r.acts + [Unpublish(id, Check)])[n];
      }
    }
  }

  /** That case does occur. A visit takes an expired candidate with a missing path out of the queue and evicts it
      all the same. If an unpublish starts its queue entry in between, the map holds, at rest, an entry that the
      bucket does not, and a restart forgets it. */
  lemma {:induction false} QueueDuringVisitTearsQueue(
      cfg: Config, r: Run, id: string, c: Candidate, round: Round) returns (r': Run)
    requires Valid(cfg, r) && id in cfg.ids && id !in Last(r).rpcs
    requires AboutTo(Last(r), id, c, round) && Expired(cfg.rnd, c, round) && c.path !in Last(r).w.tree
    ensures Continues(cfg, r, r', Anything) && !Always(cfg, r', id, NoQueueDuringVisit)
    ensures !MidQueue(Last(r'), id) && !MidRemove(Last(r'), id)
    ensures id in Last(r').w.cands && id !in Last(r').w.delDb && id !in Reload(Last(r').w).cands
  {
    var mid := CutIsRun(cfg, r, id, c, round, 2);
    CutsOfMissing(Last(r).w, id, c, 2);
    assert Continues(cfg, r, mid, Anything);
    mid := Extend(cfg, r, mid, Unpublish(id, UnpublishRequest), Anything);
    r' := TearingCheck(cfg, mid, id);
    if Always(cfg, r', id, NoQueueDuringVisit) {
      MapAndBucketAgree(cfg, r', |r'.acts|, id);
    }
  }

  /** One crash is enough to leave an empty pod directory that nothing queued will remove: it falls between
      RemoveAll and the removal of the parent, and the next round, now under less pressure, drops the entry of the
      missing path without finding it expired. */
  lemma {:induction false} OneCrashLeaksPodDir(
      cfg: Config, r: Run, id: string, c: Candidate, round: Round,
      dt: nat, total: nat, free: nat, headroom: real) returns (r': Run)
    requires GoodNames(cfg) && Valid(cfg, r) && AboutTo(Last(r), id, c, round) && Expired(cfg.rnd, c, round)
    requires var w := Last(r).w;
             && id in w.delDb && w.delDb[id] == c
             && c.path in w.tree && !HasChild(RemoveAll(w.tree, c.path), Dir(c.path))
    requires !Expired(cfg.rnd, c, Round(Last(r).clock + dt, RoundFactor(cfg.rnd, total, free, headroom)))
    ensures Continues(cfg, r, r', Recovering) && Last(r').w != Goal(Last(r).w, id, c)
    ensures var w := Last(r).w; var queue := Without(w.delDb, id);
            Last(r').w == World(RemoveAll(w.tree, c.path), w.volDb, queue, w.volDb, queue)
    ensures EmptyDir(Last(r').w.tree, Dir(c.path))
  {
    var w := Last(r).w;
    LayoutInRun(cfg, r, |r.acts|);
    EntryIsPlaced(cfg, r, |r.acts|, id, c);
    ParentOfPlaced(cfg, id, c);
    r' := RecoverIsRun(cfg, r, id, c, round, 1, dt, total, free, headroom);
    CutsOfPresent(w, id, c, 1);
    RemoveAllTwice(w.tree, c.path);
    ParentOutlivesErasure(w.tree, c.path);
    RecoveryFromMissing(cfg.rnd, Cut(w, id, c, 1), id, c,
                        Round(Last(r).clock + dt, RoundFactor(cfg.rnd, total, free, headroom)));
  }

  /** Pressure does ease that way: with twice the free space the same candidate is not expired any more. */
  lemma PressureCanEase(path: Path)
    ensures var c := Candidate(0, 100, path);
            && Expired(Exact(), c, Round(60, RoundFactor(Exact(), 1000, 50, 0.1)))
            && !Expired(Exact(), c, Round(60, RoundFactor(Exact(), 1000, 100, 0.1)))
  {
    assert Ceil(Times(1000.0, 0.1)) == 100;
    FactorExactly(1000, 50, 0.1, 100);
    FactorExactly(1000, 100, 0.1, 100);
    assert Times(100.0, 0.5) == 50.0 && Times(100.0, 1.0) == 100.0;
  }

  /* ---------- both do happen ---------- */

  lemma FirstRun(cfg: Config, lifespan: nat) returns (r: Run)
    ensures Valid(cfg, r) && Last(r).w == FreshWorld(cfg.workdir)
    ensures Last(r).rpcs == map[] && Last(r).pruner.Idle? && Last(r).clock == 0 && Last(r).lifespan == lifespan
  {
    r := Run([State(FreshWorld(cfg.workdir), map[], Idle, lifespan, 0, History({}, {}, map[], {}))], []);
  }

  /** Clock and configuration change only by steps of the environment. */
  lemma ClockStands(cfg: Config, r: Run, i: nat, j: nat)
    requires Valid(cfg, r) && i <= j <= |r.acts| && forall k :: i <= k < j ==> !r.acts[k].Env?
    ensures r.states[i].clock == r.states[j].clock && r.states[i].lifespan == r.states[j].lifespan
  {
    if i < j {
      ClockStands(cfg, r, i, j - 1);
      ClockStandsStep(cfg, r.states[j - 1], r.acts[j - 1]);
    }
  }

  lemma ClockStandsStep(cfg: Config, s: State, a: Action)
    requires Enabled(cfg, s, a) && !a.Env?
    ensures var s' := Apply(cfg, s, a); s'.clock == s.clock && s'.lifespan == s.lifespan
  {
  }

  /** The first volume of a node, published and unpublished. */
  lemma QueuedVolume(cfg: Config, id: string, lifespan: nat) returns (r: Run)
    requires GoodNames(cfg) && id in cfg.ids
    ensures Valid(cfg, r) && Last(r).pruner.Idle? && Last(r).clock == 0
    ensures Last(r).w == QueuedWorld(cfg.workdir, cfg.podOf(id), id, lifespan)
  {
    var r1 := PublishedVolume(cfg, id, lifespan);
    r := UnpublishIsRun(cfg, r1, id, "target", UnpublishEnv(0, true, Unmounted, true));
    ClockStands(cfg, r, |r1.acts|, |r.acts|);
    FirstLife(cfg.workdir, cfg.podOf(id), id, lifespan);
  }

  function QueuedWorld(workdir: Path, podUUID: string, id: string, lifespan: nat): World
  {
    var c, full := Candidate(0, lifespan, workdir + [podUUID, id]), workdir + [podUUID, id];
    World(MkdirAll(MkdirAll({}, workdir + [DB_FILE]), full), map[], map[id := c], map[], map[id := c])
  }

  /** The world of a node that has done nothing yet, and what the first publish makes of it. */
  function FreshWorld(workdir: Path): World
  {
    World(MkdirAll({}, workdir + [DB_FILE]), map[], map[], map[], map[])
  }

  function FirstPublish(workdir: Path, podUUID: string, id: string): World
  {
    PublishVolume(workdir, FreshWorld(workdir), PublishReq(id, "target", Capability(false, true), true, podUUID),
                  PublishEnv(true, false, Mounted, Erased, true)).0
  }

  lemma PublishedVolume(cfg: Config, id: string, lifespan: nat) returns (r: Run)
    requires GoodNames(cfg) && id in cfg.ids
    ensures Valid(cfg, r) && Last(r).w == FirstPublish(cfg.workdir, cfg.podOf(id), id)
    ensures Last(r).rpcs == map[] && Last(r).pruner.Idle? && Last(r).clock == 0 && Last(r).lifespan == lifespan
  {
    var r0 := FirstRun(cfg, lifespan);
    var req := PublishReq(id, "target", Capability(false, true), true, cfg.podOf(id));
    r := PublishIsRun(cfg, r0, req, PublishEnv(true, false, Mounted, Erased, true));
    ClockStands(cfg, r, |r0.acts|, |r.acts|);
  }

  lemma FirstLife(workdir: Path, podUUID: string, id: string, lifespan: nat)
    requires Component(podUUID) && Component(id)
    ensures var w := FirstPublish(workdir, podUUID, id);
            UnpublishVolume(workdir, lifespan, w, id, "target", UnpublishEnv(0, true, Unmounted, true)).0 ==
            QueuedWorld(workdir, podUUID, id, lifespan)
  {
    var w := FirstPublish(workdir, podUUID, id);
    assert WithTree(w, w.tree) == w;
    LifeUntilEviction(workdir, FreshWorld(workdir), podUUID, id, "target", false, Erased, w.tree, 0, lifespan,
                      Unmounted);
  }

  /** A disk that was full of the volume and is empty after its erasure: the factor rises from 0 to 1. */
  lemma FullThenEmpty(rnd: Rounding, path: Path)
    requires IsRounding(rnd)
    ensures var c := Candidate(0, 100, path);
            && Expired(rnd, c, Round(60, RoundFactor(rnd, 1000, 0, 1.0)))
            && !Expired(rnd, c, Round(60, RoundFactor(rnd, 1000, 1000, 1.0)))
  {
    Bracket(rnd, 1000.0, 1000, 1000);
    Bracket(rnd, 100.0, 100, 100);
    Bracket(rnd, 1.0, 1, 1);
    Bracket(rnd, 0.0, 0, 0);
    assert Times(1000.0, 1.0) == 1000.0 && Times(100.0, 1.0) == 100.0 && Times(100.0, 0.0) == 0.0;
    assert HeadroomSpace(rnd, 1000, 1.0) == 1000;
    assert Quotient(1000.0, 1000.0) == 1.0;
  }

  lemma OnlyChild(workdir: Path, pod: string, id: string)
    ensures var tree := MkdirAll(MkdirAll({}, workdir + [DB_FILE]), workdir + [pod, id]);
            !HasChild(RemoveAll(tree, workdir + [pod, id]), workdir + [pod])
  {
    var db, full := workdir + [DB_FILE], workdir + [pod, id];
    var tree := MkdirAll(MkdirAll({}, db), full);
    forall q | q in tree && q != full ensures |q| <= |workdir| + 1 {
      if q in Ancestors(full) {
        var i :| 0 <= i <= |full| && q == full[..i];
      }
    }
    assert forall q :: q in RemoveAll(tree, full) && q != [] ==> |Dir(q)| < |workdir + [pod]|;
  }

  /** On every node one crash can leave, in an otherwise empty system, an empty pod directory that nothing will
      remove: the volume's only publish, unpublish and eviction did everything right. */
  lemma {:induction false} OneCrashLeakHappens(cfg: Config, id: string) returns (r: Run)
    requires GoodNames(cfg) && id in cfg.ids && IsRounding(cfg.rnd)
    ensures Valid(cfg, r) && EmptyDir(Last(r).w.tree, cfg.workdir + [cfg.podOf(id)])
    ensures var w := Last(r).w; w.volDb == map[] && w.delDb == map[] && w.vols == map[] && w.cands == map[]
  {
    FullIs(cfg, id);
    var c := Candidate(0, 100, Full(cfg, id));
    var queued := QueuedVolume(cfg, id, 100);
    var r1 := StartIsRun(cfg, queued, queued, 60, 1000, 0, 1.0);
    FullThenEmpty(cfg.rnd, c.path);
    OnlyChild(cfg.workdir, cfg.podOf(id), id);
    assert Dir(c.path) == cfg.workdir + [cfg.podOf(id)];
    assert c.path in Last(r1).w.tree by { assert c.path == c.path[..|c.path|]; }
    r := OneCrashLeaksPodDir(cfg, r1, id, c, Last(r1).pruner.round, 0, 1000, 1000, 1.0);
  }

  /** An unpublish of an unknown id: what it queues has no directory. */
  lemma QueuedUnknown(cfg: Config, id: string) returns (r: Run, c: Candidate)
    requires GoodNames(cfg) && id in cfg.ids
    ensures Valid(cfg, r) && Last(r).pruner.Idle? && Last(r).clock == 0 && Last(r).rpcs == map[]
    ensures c.time == 0 && c.lifespan == 0 && c.path !in Last(r).w.tree
    ensures id in Last(r).w.cands && Last(r).w.cands[id] == c
  {
    var r0 := FirstRun(cfg, 0);
    r := UnpublishIsRun(cfg, r0, id, "target", UnpublishEnv(0, true, Unmounted, true));
    ClockStands(cfg, r, |r0.acts|, |r.acts|);
    c := Candidate(0, 0, Fullpath(cfg.workdir, "", id));
    FullpathOfComponents(cfg.workdir, "", id);
    assert c.path[|cfg.workdir|] != (cfg.workdir + [DB_FILE])[|cfg.workdir|];
  }

  /** On every node the queue can be torn, by two unpublish requests for an unknown id. */
  lemma {:induction false} TornQueueHappens(cfg: Config, id: string) returns (r: Run)
    requires GoodNames(cfg) && id in cfg.ids && IsRounding(cfg.rnd)
    ensures Valid(cfg, r) && Torn(Last(r), id) && id in Last(r).w.cands && id !in Last(r).w.delDb
  {
    var queued, c := QueuedUnknown(cfg, id);
    var r1 := StartIsRun(cfg, queued, queued, 1, 1000, 1000, 1.0);
    EveryRoundingKeepsLifespans(cfg.rnd);
    OverdueExpires(cfg.rnd, c, 1, 1000, 1000, 1.0);
    r := QueueDuringVisitTearsQueue(cfg, r1, id, c, Last(r1).pruner.round);
  }

  /** Publish does not take an id out of the queue. If an id that is still queued is published again, with every
      operation succeeding, the old entry evicts the new volume: its record stays, its directory is gone. Hence
      `NoRepublish`. */
  lemma {:induction false} RepublishedIsEvicted(
      rnd: Rounding, workdir: Path, w: World, req: PublishReq, env: PublishEnv, after: set<Path>, round: Round)
    requires Acceptable(req) && req.capability.mount && env.mkdirOk && env.mount.Mounted? && env.persistOk
    requires req.volumeId in w.cands && w.cands[req.volumeId].path == Fullpath(workdir, req.podUUID, req.volumeId)
    requires Expired(rnd, w.cands[req.volumeId], round)
    ensures var id, full := req.volumeId, Fullpath(workdir, req.podUUID, req.volumeId);
            var (w1, response) := PublishVolume(workdir, w, req, env);
            var w2 := Visit(rnd, WithTree(w1, after), id, w1.cands[id], round, NO_FAULTS);
            && response.Succeeded? && full in w1.tree
            && id in w2.volDb && w2.volDb[id].path == full
            && forall q :: full <= q ==> q !in w2.tree
  {
    var full := Fullpath(workdir, req.podUUID, req.volumeId);
    var w1 := PublishVolume(workdir, w, req, env).0;
    assert full == full[..|full|];
    VisitInOneStroke(rnd, WithTree(w1, after), req.volumeId, w1.cands[req.volumeId], round);
  }

  lemma EvictedTreeIs(
      rnd: Rounding, w: World, id: string, c: Candidate, round: Round, erased: set<Path>)
    requires Expired(rnd, c, round) && erased == RemoveAll(w.tree, c.path)
    ensures Visit(rnd, w, id, c, round, NO_FAULTS).tree == RemoveDir(erased, Dir(c.path))
  {
    VisitInOneStroke(rnd, w, id, c, round);
  }

  /** `dir` with two entries and a subdirectory in one of them. */
  ghost predicate TwoBranches(tree: set<Path>, dir: Path, a: string, b: string, x: string)
  {
    dir != [] && a != x && tree == Ancestors(dir) + {dir + [a], dir + [a, b], dir + [x]}
  }

  lemma TwoBranchesClosed(tree: set<Path>, dir: Path, a: string, b: string, x: string)
    requires TwoBranches(tree, dir, a, b, x)
    ensures Closed(tree)
  {
    MkdirAllCloses({}, dir);
    assert MkdirAll({}, dir) == Ancestors(dir) && dir == dir[..|dir|];
    assert Dir(dir + [a]) == dir && Dir(dir + [a, b]) == dir + [a] && Dir(dir + [x]) == dir;
  }

  /** What is left of the tree without entries of `dir` that are no ancestors of it. */
  lemma Pruned(dir: Path, entries: set<Path>, p: Path)
    requires |dir| < |p|
    ensures RemoveAll(Ancestors(dir) + entries, p) == Ancestors(dir) + RemoveAll(entries, p)
  {
  }

  lemma NoChildAbove(dir: Path)
    ensures !HasChild(Ancestors(dir), dir)
  {
    forall q | q in Ancestors(dir) && q != [] ensures Dir(q) != dir {
      assert |Dir(q)| < |dir|;
    }
  }

  lemma DeeperFirst(
      rnd: Rounding, round: Round, w: World, dir: Path, a: string, b: string, x: string, c: Candidate, d: Candidate)
    requires TwoBranches(w.tree, dir, a, b, x)
    requires c.path == dir + [a, b] && d.path == dir + [x]
    requires Expired(rnd, c, round) && Expired(rnd, d, round)
    ensures dir !in Visit(rnd, Visit(rnd, w, "c", c, round, NO_FAULTS), "d", d, round, NO_FAULTS).tree
  {
    assert c.path[|dir|] == a && d.path[|dir|] == x;
    assert Dir(dir + [a]) == dir && Dir(c.path) == dir + [a] && Dir(d.path) == dir && Dir(dir) != dir;
    Pruned(dir, {dir + [a], dir + [a, b], dir + [x]}, c.path);
    Pruned(dir, {dir + [x]}, d.path);
    NoChildAbove(dir);
    assert RemoveAll({dir + [a], dir + [a, b], dir + [x]}, c.path) == {dir + [a], dir + [x]};
    assert RemoveAll({dir + [x]}, d.path) == {};
    EvictedTreeIs(rnd, w, "c", c, round, Ancestors(dir) + {dir + [a], dir + [x]});
    EmptyBranchGoes(dir, a, x);
    EvictedTreeIs(rnd, Visit(rnd, w, "c", c, round, NO_FAULTS), "d", d, round, Ancestors(dir));
  }

  lemma EmptyBranchGoes(dir: Path, a: string, x: string)
    requires dir != [] && a != x
    ensures RemoveDir(Ancestors(dir) + {dir + [a], dir + [x]}, dir + [a]) == Ancestors(dir) + {dir + [x]}
  {
    var tree := Ancestors(dir) + {dir + [a], dir + [x]};
    assert (dir + [a])[|dir|] == a && (dir + [x])[|dir|] == x;
    assert forall q :: q in Ancestors(dir) ==> |q| <= |dir|;
    forall q | q in tree && q != [] ensures Dir(q) != dir + [a] {
      assert |Dir(q)| <= |dir|;
    }
  }

  lemma ShallowerFirst(
      rnd: Rounding, round: Round, w: World, dir: Path, a: string, b: string, x: string, c: Candidate, d: Candidate)
    requires TwoBranches(w.tree, dir, a, b, x)
    requires c.path == dir + [a, b] && d.path == dir + [x]
    requires Expired(rnd, c, round) && Expired(rnd, d, round)
    ensures dir in Visit(rnd, Visit(rnd, w, "d", d, round, NO_FAULTS), "c", c, round, NO_FAULTS).tree
  {
    assert c.path[|dir|] == a && d.path[|dir|] == x;
    assert Dir(dir + [a]) == dir && Dir(c.path) == dir + [a] && Dir(d.path) == dir;
    var left := Ancestors(dir) + {dir + [a], dir + [a, b]};
    assert dir in left by { assert dir == dir[..|dir|]; }
    assert HasChild(left, dir) by { assert dir + [a] in left; }
    Pruned(dir, {dir + [a], dir + [a, b], dir + [x]}, d.path);
    assert RemoveAll({dir + [a], dir + [a, b], dir + [x]}, d.path) == {dir + [a], dir + [a, b]};
    EvictedTreeIs(rnd, w, "d", d, round, left);
    Pruned(dir, {dir + [a], dir + [a, b]}, c.path);
    assert RemoveAll({dir + [a], dir + [a, b]}, c.path) == {dir + [a]};
    EvictedTreeIs(rnd, Visit(rnd, w, "d", d, round, NO_FAULTS), "c", c, round, Ancestors(dir) + {dir + [a]});
  }

  /** Which order a round takes matters as soon as nothing pins the directory above two candidates: here `dir/a/b`
      and `dir/x` are not nested, and `dir` survives in one order only. In katbox the bolt file is the pin. */
  lemma {:induction false} OrderMattersWithoutPin(
      rnd: Rounding, round: Round, w: World, dir: Path, a: string, b: string, x: string, c: Candidate, d: Candidate)
    requires TwoBranches(w.tree, dir, a, b, x)
    requires c.path == dir + [a, b] && d.path == dir + [x]
    requires Expired(rnd, c, round) && Expired(rnd, d, round)
    ensures Closed(w.tree) && !(c.path <= d.path) && !(d.path <= c.path)
    ensures Visit(rnd, Visit(rnd, w, "c", c, round, NO_FAULTS), "d", d, round, NO_FAULTS).tree
         != Visit(rnd, Visit(rnd, w, "d", d, round, NO_FAULTS), "c", c, round, NO_FAULTS).tree
  {
    assert c.path[|dir|] == a && d.path[|dir|] == x;
    TwoBranchesClosed(w.tree, dir, a, b, x);
    DeeperFirst(rnd, round, w, dir, a, b, x, c, d);
    ShallowerFirst(rnd, round, w, dir, a, b, x, c, d);
  }
}
