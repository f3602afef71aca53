/** Each sequential operation is a run of the step relation, so everything proved about runs holds of it. */
module Simulation {
  import opened Paths
  import opened Pressure
  import opened Model
  import opened Steps
  import opened Sequential
  import opened Recovery
  import opened Provenance
  import opened Eviction
  import opened Rounds
  import opened QueueAgreement

  function Last(r: Run): State
    requires r.states != []
  {
    r.states[|r.states| - 1]
  }

  /** `r'` continues `r` with steps that satisfy `mine`. */
  ghost predicate Continues(cfg: Config, r: Run, r': Run, mine: Action -> bool)
  {
    && Valid(cfg, r') && r.states <= r'.states && r.acts <= r'.acts
    && forall k :: |r.acts| <= k < |r'.acts| ==> mine(r'.acts[k])
  }

  lemma Extend(cfg: Config, r0: Run, r: Run, a: Action, mine: Action -> bool) returns (r': Run)
    requires Valid(cfg, r) && Continues(cfg, r0, r, mine) && Enabled(cfg, Last(r), a) && mine(a)
    ensures Continues(cfg, r0, r', mine) && Last(r') == Apply(cfg, Last(r), a) && r'.acts == r.acts + [a]
  {
    r' := Run(r.states + [Apply(cfg, Last(r), a)], r.acts + [a]);
    forall i | 0 <= i < |r'.acts|
      ensures Enabled(cfg, r'.states[i], r'.acts[i]) && r'.states[i + 1] == Apply(cfg, r'.states[i], r'.acts[i])
    {
      if i < |r.acts| {
        assert r'.states[i] == r.states[i] && r'.states[i + 1] == r.states[i + 1] && r'.acts[i] == r.acts[i];
      } else {
        assert r'.states[i] == Last(r);
      }
    }
  }

  /* ---------- publish and unpublish ---------- */

  predicate PublishOf(id: string, a: Action)
  {
    a.Publish? && a.id == id
  }

  predicate UnpublishOf(id: string, a: Action)
  {
    a.Unpublish? && a.id == id
  }

  /** The directory and the record; then the handler is about to mount. */
  lemma CreateIsRun(cfg: Config, r: Run, id: string, kind: Kind) returns (r': Run)
    requires Valid(cfg, r) && id in cfg.ids && id !in Last(r).rpcs
    ensures Continues(cfg, r, r', a => PublishOf(id, a))
    ensures var s := Last(r);
            var w := WithVols(WithTree(s.w, MkdirAll(s.w.tree, Full(cfg, id))), s.w.vols[id := VolumeOf(cfg, id)]);
            Last(r') == At(s, w, s.hist, id, Mounting(kind))
  {
    var mine := a => PublishOf(id, a);
    r' := Extend(cfg, r, r, Publish(id, PublishRequest(kind)), mine);
    r' := Extend(cfg, r, r', Publish(id, Mkdir(true, false)), mine);
    r' := Extend(cfg, r, r', Publish(id, Record), mine);
    assert Last(r').rpcs == Last(r).rpcs[id := Mounting(kind)];
  }

  lemma RefusedMkdirIsRun(cfg: Config, r: Run, id: string, kind: Kind, podDirMade: bool) returns (r': Run)
    requires Valid(cfg, r) && id in cfg.ids && id !in Last(r).rpcs
    ensures Continues(cfg, r, r', a => PublishOf(id, a))
    ensures var w := Last(r).w;
            Last(r').w == if podDirMade then WithTree(w, MkdirAll(w.tree, Dir(Full(cfg, id)))) else w
    ensures Last(r').rpcs == Last(r).rpcs && Last(r').pruner == Last(r).pruner
  {
    var mine := a => PublishOf(id, a);
    r' := Extend(cfg, r, r, Publish(id, PublishRequest(kind)), mine);
    r' := Extend(cfg, r, r', Publish(id, Mkdir(false, podDirMade)), mine);
  }

  /** The mount, and the undoing or the persisting that follows it. */
  lemma MountIsRun(cfg: Config, r0: Run, r: Run, id: string, env: PublishEnv) returns (r': Run)
    requires Valid(cfg, r) && Continues(cfg, r0, r, a => PublishOf(id, a))
    requires id in Last(r).rpcs && Last(r).rpcs[id].Mounting?
    requires Fits(env.undo, Last(r).w.tree, Full(cfg, id))
    ensures Continues(cfg, r0, r', a => PublishOf(id, a))
    ensures var s, s' := Last(r), Last(r');
            && s'.rpcs == Without(s.rpcs, id) && s'.pruner == s.pruner
            && s'.w == if !s.rpcs[id].kind.MountKind? then s.w
                       else match env.mount
                            case MountFailed => WithTree(s.w, Erase(s.w.tree, Full(cfg, id), env.undo))
                            case Mounted =>
                              if env.persistOk then WithVolDb(s.w, s.w.volDb[id := VolumeOf(cfg, id)]) else s.w
                            case _ => s.w
  {
    var mine := a => PublishOf(id, a);
    var kind := Last(r).rpcs[id].kind;
    r' := Extend(cfg, r0, r, Publish(id, Mount(env.mount)), mine);
    if kind.MountKind? && env.mount.MountFailed? {
      r' := Extend(cfg, r0, r', Publish(id, Undo(env.undo)), mine);
    } else if kind.MountKind? && env.mount.Mounted? {
      r' := Extend(cfg, r0, r', Publish(id, Persist(env.persistOk)), mine);
    }
  }

  /** An undisturbed publish is a run of its own steps. */
  lemma {:induction false} PublishIsRun(cfg: Config, r: Run, req: PublishReq, env: PublishEnv) returns (r': Run)
    requires Valid(cfg, r) && Acceptable(req) && req.volumeId in cfg.ids && req.volumeId !in Last(r).rpcs
    requires req.podUUID == cfg.podOf(req.volumeId)
    requires Fits(env.undo, MkdirAll(Last(r).w.tree, Full(cfg, req.volumeId)), Full(cfg, req.volumeId))
    ensures Continues(cfg, r, r', a => PublishOf(req.volumeId, a))
    ensures Last(r').w == PublishVolume(cfg.workdir, Last(r).w, req, env).0
    ensures Last(r').rpcs == Last(r).rpcs && Last(r').pruner == Last(r).pruner
  {
    var kind := KindOf(req.capability);
    if env.mkdirOk {
      var mid := CreateIsRun(cfg, r, req.volumeId, kind);
      r' := MountIsRun(cfg, r, mid, req.volumeId, env);
    } else {
      r' := RefusedMkdirIsRun(cfg, r, req.volumeId, kind, env.podDirMade);
    }
  }

  lemma PutIsRun(cfg: Config, r0: Run, r: Run, id: string, putOk: bool) returns (r': Run)
    requires Valid(cfg, r) && Continues(cfg, r0, r, a => UnpublishOf(id, a))
    requires id in Last(r).rpcs && Last(r).rpcs[id].Putting? && id !in Last(r).w.cands
    ensures Continues(cfg, r0, r', a => UnpublishOf(id, a))
    ensures var s, s' := Last(r), Last(r');
            && s'.w == Queue(s.w, id, s.rpcs[id].c, putOk)
            && s'.rpcs == s.rpcs[id := Unmounting(s.rpcs[id].vol)] && s'.pruner == s.pruner
  {
    var mine := a => UnpublishOf(id, a);
    r' := Extend(cfg, r0, r, Unpublish(id, Put(putOk)), mine);
    if putOk {
      r' := Extend(cfg, r0, r', Unpublish(id, Insert), mine);
    }
  }

  /** The queue entry; then the handler is about to unmount. */
  lemma QueueIsRun(cfg: Config, r: Run, id: string, putOk: bool) returns (r': Run)
    requires Valid(cfg, r) && id in cfg.ids && id !in Last(r).rpcs
    ensures Continues(cfg, r, r', a => UnpublishOf(id, a))
    ensures var s, s' := Last(r), Last(r');
            && s'.w == Queue(s.w, id, Asked(cfg.workdir, s.w, id, s.clock, s.lifespan), putOk)
            && s'.rpcs == s.rpcs[id := Unmounting(Lookup(s.w.vols, id))] && s'.pruner == s.pruner
  {
    var mine := a => UnpublishOf(id, a);
    var vol := Lookup(Last(r).w.vols, id);
    r' := Extend(cfg, r, r, Unpublish(id, UnpublishRequest), mine);
    r' := Extend(cfg, r, r', Unpublish(id, Check), mine);
    if id in Last(r).w.cands {
      assert Last(r').rpcs == Last(r).rpcs[id := Unmounting(vol)];
    } else {
      var mid := Last(r').rpcs;
      r' := PutIsRun(cfg, r, r', id, putOk);
      assert mid[id := Unmounting(vol)] == Last(r).rpcs[id := Unmounting(vol)];
    }
  }

  lemma ForgetIsRun(cfg: Config, r0: Run, r: Run, id: string, unmountOk: bool, forgetOk: bool) returns (r': Run)
    requires Valid(cfg, r) && Continues(cfg, r0, r, a => UnpublishOf(id, a))
    requires id in Last(r).rpcs && Last(r).rpcs[id].Unmounting?
    ensures Continues(cfg, r0, r', a => UnpublishOf(id, a))
    ensures var s, s' := Last(r), Last(r');
            && s'.rpcs == Without(s.rpcs, id) && s'.pruner == s.pruner
            && s'.w == if unmountOk && s.rpcs[id].vol.accessType.MountAccess? then Forget(s.w, id, forgetOk) else s.w
  {
    var mine := a => UnpublishOf(id, a);
    var on := unmountOk && Last(r).rpcs[id].vol.accessType.MountAccess?;
    r' := Extend(cfg, r0, r, Unpublish(id, Unmount(unmountOk)), mine);
    if on {
      r' := Extend(cfg, r0, r', Unpublish(id, ForgetDb(forgetOk)), mine);
      r' := Extend(cfg, r0, r', Unpublish(id, ForgetMem), mine);
    }
  }

  /** An undisturbed unpublish is a run of its own steps. */
  lemma {:induction false} UnpublishIsRun(cfg: Config, r: Run, id: string, targetPath: string, env: UnpublishEnv)
    returns (r': Run)
    requires Valid(cfg, r) && id in cfg.ids && id != "" && targetPath != "" && id !in Last(r).rpcs
    requires env.now == Last(r).clock
    ensures Continues(cfg, r, r', a => UnpublishOf(id, a))
    ensures Last(r').w == UnpublishVolume(cfg.workdir, Last(r).lifespan, Last(r).w, id, targetPath, env).0
    ensures Last(r').rpcs == Last(r).rpcs && Last(r').pruner == Last(r).pruner
  {
    var mid := QueueIsRun(cfg, r, id, env.putOk);
    r' := ForgetIsRun(cfg, r, mid, id, env.unmount.Fine(), env.forgetOk);
  }

  /* ---------- the pruner ---------- */

  predicate Pruning(a: Action)
  {
    a.Prune?
  }

  /** A round may be visited in a state whose pruner sweeps with this entry still to come. */
  predicate AboutTo(s: State, id: string, c: Candidate, round: Round)
  {
    s.pruner.Sweeping? && s.pruner.round == round && id in s.pruner.todo && s.pruner.todo[id] == c
  }

  lemma RemoveIsRun(cfg: Config, r0: Run, r: Run, ok: bool) returns (r': Run)
    requires Valid(cfg, r) && Continues(cfg, r0, r, Pruning)
    requires Last(r).pruner.Visiting? && (Last(r).pruner.stage.Drop1? || Last(r).pruner.stage.Drop2?)
    ensures Continues(cfg, r0, r', Pruning)
    ensures var s, s' := Last(r), Last(r');
            && s'.w == Remove(s.w, s.pruner.id, ok) && s'.pruner == AfterRemove(s.pruner)
            && s'.rpcs == s.rpcs
  {
    r' := Extend(cfg, r0, r, Prune(Drop(ok)), Pruning);
    if ok {
      r' := Extend(cfg, r0, r', Prune(Unmap), Pruning);
    }
  }

  lemma EvictIsRun(cfg: Config, r0: Run, r: Run, f: Faults) returns (r': Run)
    requires Valid(cfg, r) && Continues(cfg, r0, r, Pruning)
    requires Last(r).pruner.Visiting? && Last(r).pruner.stage.Judge?
    requires Expired(cfg.rnd, Last(r).pruner.c, Last(r).pruner.round)
    requires Fits(f.erasure, Last(r).w.tree, Last(r).pruner.c.path)
    ensures Continues(cfg, r0, r', Pruning)
    ensures var s, s' := Last(r), Last(r');
            && s'.w == Evict(s.w, s.pruner.id, s.pruner.c, f)
            && s'.pruner == Sweeping(s.pruner.round, s.pruner.todo) && s'.rpcs == s.rpcs
  {
    r' := Extend(cfg, r0, r, Prune(EraseVolume(f.erasure)), Pruning);
    if f.erasure.Erased? {
      r' := Extend(cfg, r0, r', Prune(RemoveParent(f.parentOk)), Pruning);
      r' := RemoveIsRun(cfg, r0, r', f.drop2Ok);
    }
  }

  /** An undisturbed visit is a run of the pruner's steps. */
  lemma {:induction false} VisitIsRun(
      cfg: Config, r0: Run, r: Run, id: string, c: Candidate, round: Round, f: Faults) returns (r': Run)
    requires Valid(cfg, r) && Continues(cfg, r0, r, Pruning) && AboutTo(Last(r), id, c, round)
    requires Fits(f.erasure, Last(r).w.tree, c.path)
    ensures Continues(cfg, r0, r', Pruning)
    ensures Last(r').w == Visit(cfg.rnd, Last(r).w, id, c, round, f)
    ensures Last(r').pruner == Sweeping(round, Without(Last(r).pruner.todo, id)) && Last(r').rpcs == Last(r).rpcs
  {
    r' := Extend(cfg, r0, r, Prune(BeginVisit(id, f.statFails)), Pruning);
    if !f.statFails && c.path !in Last(r).w.tree {
      r' := RemoveIsRun(cfg, r0, r', f.drop1Ok);
    }
    if Expired(cfg.rnd, c, round) {
      r' := EvictIsRun(cfg, r0, r', f);
    } else {
      r' := Extend(cfg, r0, r', Prune(Spare), Pruning);
    }
  }

  lemma SweepIsRun(cfg: Config, r: Run, todo: map<string, Candidate>, order: seq<string>, round: Round)
    returns (r': Run)
    requires Valid(cfg, r) && Last(r).pruner == Sweeping(round, todo)
    requires forall id :: id in order ==> id in todo
    requires forall i, j :: 0 <= i < j < |order| ==> order[i] != order[j]
    ensures Continues(cfg, r, r', Pruning)
    ensures Last(r').w == Sweep(cfg.rnd, Last(r).w, todo, order, round, id => NO_FAULTS)
    ensures Last(r').pruner == Sweeping(round, Unvisited(todo, order)) && Last(r').rpcs == Last(r).rpcs
  {
    if order == [] {
      r' := r;
      assert Unvisited(todo, order) == todo;
    } else {
      var n := |order| - 1;
      var mid := SweepIsRun(cfg, r, todo, order[..n], round);
      VisitsOneMore(todo, order);
      r' := VisitIsRun(cfg, r, mid, order[n], todo[order[n]], round, NO_FAULTS);
    }
  }

  function Unvisited(todo: map<string, Candidate>, order: seq<string>): map<string, Candidate>
  {
    map id | id in todo && id !in order :: todo[id]
  }

  lemma VisitsOneMore(todo: map<string, Candidate>, order: seq<string>)
    requires order != [] && order[|order| - 1] in todo
    requires forall i, j :: 0 <= i < j < |order| ==> order[i] != order[j]
    ensures var n := |order| - 1; var before := Unvisited(todo, order[..n]);
            && order[n] in before && before[order[n]] == todo[order[n]]
            && Unvisited(todo, order) == Without(before, order[n])
  {
    var n := |order| - 1;
    assert order == order[..n] + [order[n]];
  }

  /** An undisturbed round is a run of the pruner's steps, for every order of the snapshot. */
  lemma {:induction false} RoundIsRun(
      cfg: Config, r: Run, order: seq<string>, total: nat, free: nat, headroom: real) returns (r': Run)
    requires Valid(cfg, r) && Last(r).pruner.Idle? && Enumerates(order, Last(r).w.cands.Keys)
    ensures Continues(cfg, r, r', Pruning)
    ensures Last(r').w == Sweep(cfg.rnd, Last(r).w, Last(r).w.cands, order,
                                Round(Last(r).clock, RoundFactor(cfg.rnd, total, free, headroom)), id => NO_FAULTS)
    ensures Last(r').pruner.Idle? && Last(r').rpcs == Last(r).rpcs
  {
    var w := Last(r).w;
    var round := Round(Last(r).clock, RoundFactor(cfg.rnd, total, free, headroom));
    var r1 := Extend(cfg, r, r, Prune(ReadClock), Pruning);
    r1 := Extend(cfg, r, r1, Prune(Snapshot(total, free, headroom)), Pruning);
    var r2 := SweepIsRun(cfg, r1, w.cands, order, round);
    assert Unvisited(w.cands, order) == map[];
    assert Continues(cfg, r, r2, Pruning);
    r' := Extend(cfg, r, r2, Prune(EndRound), Pruning);
  }

  /* ---------- crashes in the middle of a visit ---------- */

  function StageAfter(missing: bool, k: nat): Stage
  {
    if missing && k < 2 then (if k == 0 then Drop1 else Unmap1)
    else
      match k - (if missing then 2 else 0)
      case 0 => Judge
      case 1 => Parent
      case 2 => Drop2
      case _ => Unmap2
  }

  function ActOf(op: Op): PruneAct
  {
    match op
    case DropOp => Drop(true)
    case UnmapOp => Unmap
    case EraseOp => EraseVolume(Erased)
    case ParentOp => RemoveParent(true)
  }

  /** At stage `StageAfter(missing, k)` the pruner's next step is the micro-step `k` of the visit. */
  lemma ActDoesOp(cfg: Config, s: State, missing: bool, k: nat)
    requires k < |VisitOps(missing)| && s.pruner.Visiting? && s.pruner.stage == StageAfter(missing, k)
    requires Expired(cfg.rnd, s.pruner.c, s.pruner.round)
    ensures var op, p := VisitOps(missing)[k], s.pruner;
            && EnabledPrune(cfg, s, ActOf(op))
            && var s' := ApplyPrune(cfg, s, ActOf(op));
               && s'.w == Do(s.w, p.id, p.c, op) && s'.rpcs == s.rpcs && s'.clock == s.clock
               && s'.pruner == if k + 1 < |VisitOps(missing)| then StageOf(p, StageAfter(missing, k + 1))
                               else Sweeping(p.round, p.todo)
  {
  }

  /** Every prefix of an eviction is a state that a run can crash in. */
  lemma {:induction false} CutIsRun(
      cfg: Config, r: Run, id: string, c: Candidate, round: Round, k: nat) returns (r': Run)
    requires Valid(cfg, r) && AboutTo(Last(r), id, c, round) && Expired(cfg.rnd, c, round)
    requires k <= |VisitOps(c.path !in Last(r).w.tree)|
    ensures Continues(cfg, r, r', Pruning) && Last(r').rpcs == Last(r).rpcs && Last(r').clock == Last(r).clock
    ensures Last(r').w == Cut(Last(r).w, id, c, k)
    ensures var missing, todo := c.path !in Last(r).w.tree, Without(Last(r).pruner.todo, id);
            Last(r').pruner == if k < |VisitOps(missing)| then Visiting(round, todo, id, c, StageAfter(missing, k))
                               else Sweeping(round, todo)
  {
    var w := Last(r).w;
    if k == 0 {
      r' := Extend(cfg, r, r, Prune(BeginVisit(id, false)), Pruning);
    } else {
      var mid := CutIsRun(cfg, r, id, c, round, k - 1);
      CutNext(w, id, c, k - 1);
      ActDoesOp(cfg, Last(mid), c.path !in w.tree, k - 1);
      r' := Extend(cfg, r, mid, Prune(ActOf(VisitOps(c.path !in w.tree)[k - 1])), Pruning);
    }
  }

  predicate Recovering(a: Action)
  {
    a.Prune? || a.Env?
  }

  /** The start of a round some time later. */
  lemma StartIsRun(cfg: Config, r0: Run, r: Run, dt: nat, total: nat, free: nat, headroom: real) returns (r': Run)
    requires Valid(cfg, r) && Continues(cfg, r0, r, Recovering) && Last(r).pruner.Idle?
    ensures Continues(cfg, r0, r', Recovering) && Last(r').w == Last(r).w && Last(r').rpcs == Last(r).rpcs
    ensures Last(r').clock == Last(r).clock + dt
    ensures Last(r').pruner == Sweeping(Round(Last(r').clock, RoundFactor(cfg.rnd, total, free, headroom)),
                                        Last(r).w.cands)
  {
    r' := Extend(cfg, r0, r, Env(Tick(dt)), Recovering);
    r' := Extend(cfg, r0, r', Prune(ReadClock), Recovering);
    r' := Extend(cfg, r0, r', Prune(Snapshot(total, free, headroom)), Recovering);
  }

  /** A crash, a restart, and the visit of the next round if the id is still queued, are a run. */
  lemma RecoverFromIsRun(
      cfg: Config, r0: Run, r: Run, id: string, dt: nat, total: nat, free: nat, headroom: real) returns (r': Run)
    requires Valid(cfg, r) && Continues(cfg, r0, r, Recovering)
    ensures Continues(cfg, r0, r', Recovering)
    ensures Last(r').w == Recover(cfg.rnd, Last(r).w, id,
                                  Round(Last(r).clock + dt, RoundFactor(cfg.rnd, total, free, headroom)))
  {
    r' := Extend(cfg, r0, r, Env(Restart(Last(r).lifespan)), Recovering);
    r' := StartIsRun(cfg, r0, r', dt, total, free, headroom);
    if id in Last(r).w.delDb {
      var again := Round(Last(r).clock + dt, RoundFactor(cfg.rnd, total, free, headroom));
      var r2 := VisitIsRun(cfg, r', r', id, Last(r).w.delDb[id], again, NO_FAULTS);
      assert Continues(cfg, r0, r2, Recovering);
      r' := r2;
    }
  }

  /** So are a crash after micro-step `k` of an eviction, the restart, and the visit of the next round. */
  lemma {:induction false} RecoverIsRun(
      cfg: Config, r: Run, id: string, c: Candidate, round: Round, k: nat,
      dt: nat, total: nat, free: nat, headroom: real) returns (r': Run)
    requires Valid(cfg, r) && AboutTo(Last(r), id, c, round) && Expired(cfg.rnd, c, round)
    requires k <= |VisitOps(c.path !in Last(r).w.tree)|
    ensures Continues(cfg, r, r', Recovering)
    ensures Last(r').w == Recover(cfg.rnd, Cut(Last(r).w, id, c, k), id,
                                  Round(Last(r).clock + dt, RoundFactor(cfg.rnd, total, free, headroom)))
  {
    var cut := CutIsRun(cfg, r, id, c, round, k);
    assert Continues(cfg, r, cut, Recovering);
    r' := RecoverFromIsRun(cfg, r, cut, id, dt, total, free, headroom);
  }

  /** What the pruner is about to visit is in the bucket, well placed in a tree. */
  lemma AboutToVisit(cfg: Config, r: Run, id: string, c: Candidate, round: Round)
    requires GoodNames(cfg) && Valid(cfg, r) && Always(cfg, r, id, NoQueueDuringVisit)
    requires AboutTo(Last(r), id, c, round)
    ensures id in Last(r).w.delDb && Last(r).w.delDb[id] == c && c.path != [] && Closed(Last(r).w.tree)
  {
    QueueInRun(cfg, r, |r.acts|, id);
    EntryIsPlaced(cfg, r, |r.acts|, id, c);
    ParentOfPlaced(cfg, id, c);
    LayoutInRun(cfg, r, |r.acts|);
  }

  /** In every run, whatever the handlers of other ids are doing: a crash after micro-step `k` of an eviction is
      repaired by the visit of the next round exactly under the conditions of EvictionConverges, if the directory
      was there, and of RecoveryOfMissing, if it was not. */
  lemma {:induction false} RecoveryInRun(
      cfg: Config, r: Run, id: string, c: Candidate, round: Round, k: nat,
      dt: nat, total: nat, free: nat, headroom: real) returns (r': Run)
    requires GoodNames(cfg) && Valid(cfg, r) && Always(cfg, r, id, NoQueueDuringVisit)
    requires AboutTo(Last(r), id, c, round) && Expired(cfg.rnd, c, round)
    requires k <= |VisitOps(c.path !in Last(r).w.tree)|
    ensures Continues(cfg, r, r', Recovering)
    ensures var tree, dir := Last(r).w.tree, Dir(c.path);
            var expired := Expired(cfg.rnd, c, Round(Last(r).clock + dt, RoundFactor(cfg.rnd, total, free, headroom)));
            Last(r').w == Goal(Last(r).w, id, c) <==>
              if c.path in tree then expired || k >= 2 || (k == 1 && HasChild(RemoveAll(tree, c.path), dir))
              else k >= 4 || (k == 0 && expired) || !EmptyDir(tree, dir)
  {
    var again := Round(Last(r).clock + dt, RoundFactor(cfg.rnd, total, free, headroom));
    AboutToVisit(cfg, r, id, c, round);
    r' := RecoverIsRun(cfg, r, id, c, round, k, dt, total, free, headroom);
    if c.path in Last(r).w.tree {
      EvictionConverges(cfg.rnd, Last(r).w, id, c, k, again);
    } else {
      RecoveryOfMissing(cfg.rnd, Last(r).w, id, c, k, again);
    }
  }

  /** A RemoveAll that a failure or a crash has interrupted. */
  lemma PartialErasureIsRun(cfg: Config, r: Run, id: string, c: Candidate, round: Round, left: set<Path>)
    returns (r': Run)
    requires Valid(cfg, r) && AboutTo(Last(r), id, c, round) && Expired(cfg.rnd, c, round)
    requires Fits(Partly(left), Last(r).w.tree, c.path)
    ensures Continues(cfg, r, r', Recovering)
    ensures Last(r').w == WithTree(Last(r).w, left) && Last(r').clock == Last(r).clock
  {
    r' := Extend(cfg, r, r, Prune(BeginVisit(id, c.path !in Last(r).w.tree)), Recovering);
    r' := Extend(cfg, r, r', Prune(EraseVolume(Partly(left))), Recovering);
  }

  /** In every run, an interrupted RemoveAll followed by a restart is repaired exactly under the conditions of
      PartialErasureConverges. */
  lemma {:induction false} PartialRecoveryInRun(
      cfg: Config, r: Run, id: string, c: Candidate, round: Round, left: set<Path>,
      dt: nat, total: nat, free: nat, headroom: real) returns (r': Run)
    requires GoodNames(cfg) && Valid(cfg, r) && Always(cfg, r, id, NoQueueDuringVisit)
    requires AboutTo(Last(r), id, c, round) && Expired(cfg.rnd, c, round)
    requires Fits(Partly(left), Last(r).w.tree, c.path)
    ensures Continues(cfg, r, r', Recovering)
    ensures var tree, dir := Last(r).w.tree, Dir(c.path);
            var expired := Expired(cfg.rnd, c, Round(Last(r).clock + dt, RoundFactor(cfg.rnd, total, free, headroom)));
            Last(r').w == Goal(Last(r).w, id, c) <==> expired || (c.path !in tree && !EmptyDir(tree, dir))
  {
    var again := Round(Last(r).clock + dt, RoundFactor(cfg.rnd, total, free, headroom));
    AboutToVisit(cfg, r, id, c, round);
    var cut := PartialErasureIsRun(cfg, r, id, c, round, left);
    r' := RecoverFromIsRun(cfg, r, cut, id, dt, total, free, headroom);
    PartialErasureConverges(cfg.rnd, Last(r).w, id, c, left, again);
  }

  /* ---------- the hypotheses of the round theorems hold in every run ---------- */

  /** In every reachable state the queue has the layout that the exact effect of a round rests on. */
  lemma {:induction false} LayoutInRun(cfg: Config, r: Run, i: nat)
    requires GoodNames(cfg) && Valid(cfg, r) && i <= |r.acts|
    ensures LayoutOk(cfg.workdir, r.states[i].w.tree, r.states[i].w.cands)
    ensures Closed(r.states[i].w.tree)
  {
    TreeInRun(cfg, r, i);
    var w := r.states[i].w;
    forall id | id in w.cands
      ensures Placed(cfg, id, w.cands[id])
    {
      EntryIsPlaced(cfg, r, i, id, w.cands[id]);
    }
    forall id | id in w.cands
      ensures var p := w.cands[id].path;
              cfg.workdir <= p && |cfg.workdir| < |p| <= |cfg.workdir| + 2 && p[|cfg.workdir|] != DB_FILE
    {
      FullIs(cfg, id);
    }
    forall id, other | id in w.cands && other in w.cands && id != other
      ensures !(w.cands[id].path <= w.cands[other].path)
    {
      PlacedApart(cfg, id, w.cands[id], other, w.cands[other]);
    }
  }

  lemma PlacedApart(cfg: Config, id: string, c: Candidate, other: string, d: Candidate)
    requires GoodNames(cfg) && Placed(cfg, id, c) && Placed(cfg, other, d) && id != other
    ensures !(c.path <= d.path)
  {
    FullIs(cfg, id);
    FullIs(cfg, other);
    var n := |cfg.workdir|;
    if d.path == Full(cfg, other) {
      OthersAreApart(cfg, other, id, c, d.path);
    } else {
      assert d.path[n] == other;
      assert c.path[n] != other;
    }
  }

  /** Map and bucket are equal whenever nothing is in flight. */
  lemma QuiescentQueue(cfg: Config, r: Run, i: nat)
    requires Valid(cfg, r) && (forall id :: Always(cfg, r, id, NoQueueDuringVisit)) && i <= |r.acts|
    requires r.states[i].rpcs == map[] && r.states[i].pruner.Idle?
    ensures r.states[i].w.cands == r.states[i].w.delDb
  {
    var w := r.states[i].w;
    forall id ensures Same(w.cands, w.delDb, id) {
      MapAndBucketAgree(cfg, r, i, id);
    }
    forall id ensures id in w.cands <==> id in w.delDb {
      assert Same(w.cands, w.delDb, id);
    }
    forall id | id in w.cands ensures w.cands[id] == w.delDb[id] {
      assert Same(w.cands, w.delDb, id);
    }
  }

  /** From every quiescent reachable state and for every order, a round runs to exactly the predicted world. */
  lemma {:induction false} ExactRoundInRun(
      cfg: Config, r: Run, order: seq<string>, total: nat, free: nat, headroom: real) returns (r': Run)
    requires GoodNames(cfg) && Valid(cfg, r) && (forall id :: Always(cfg, r, id, NoQueueDuringVisit))
    requires Last(r).rpcs == map[] && Last(r).pruner.Idle? && Enumerates(order, Last(r).w.cands.Keys)
    ensures Continues(cfg, r, r', Pruning) && Last(r').rpcs == map[] && Last(r').pruner.Idle?
    ensures Last(r').w == After(cfg.rnd, Last(r).w, Round(Last(r).clock, RoundFactor(cfg.rnd, total, free, headroom)),
                                Last(r).w.cands.Keys)
  {
    var w := Last(r).w;
    var round := Round(Last(r).clock, RoundFactor(cfg.rnd, total, free, headroom));
    QuiescentQueue(cfg, r, |r.acts|);
    LayoutInRun(cfg, r, |r.acts|);
    ExactRound(cfg.rnd, cfg.workdir, w, order, round);
    r' := RoundIsRun(cfg, r, order, total, free, headroom);
  }
}
