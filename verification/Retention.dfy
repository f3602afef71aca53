/** How long a volume's directory is there: what takes it away, and what leaves it there for good. */
module Retention {
  import opened Paths
  import opened Pressure
  import opened Model
  import opened Sequential
  import opened Steps
  import opened QueueAgreement
  import opened Provenance
  import opened Lifecycle
  import opened Eviction
  import opened Simulation
  import opened Requests

  /* ---------- what takes a directory away ---------- */

  /** The volume's own publish undoes a failed mount, and `q` is among what that erases. */
  predicate Undoes(cfg: Config, s: State, a: Action, id: string, q: Path)
  {
    a.Publish? && a.id == id && a.pub.Undo? && q !in Erase(s.w.tree, Full(cfg, id), a.pub.erasure)
  }

  /** The pruner evicts the volume by an entry of its own, and `q` is among what that erases. */
  predicate Evicts(cfg: Config, s: State, a: Action, id: string, q: Path)
  {
    && a.Prune? && a.prune.EraseVolume?
    && IsVisiting(s, id) && s.pruner.c.path == Full(cfg, id) && q !in Erase(s.w.tree, Full(cfg, id), a.prune.erasure)
  }

  /** The volume's own pod deletes `q`. */
  predicate PodDeletes(a: Action, id: string, q: Path)
  {
    a.Env? && a.env.PodWrites? && a.env.id == id && q !in a.env.after
  }

  lemma SubtreesApart(cfg: Config, id: string, other: string, q: Path)
    requires GoodNames(cfg) && id in cfg.ids && other in cfg.ids && Full(cfg, id) <= q && Full(cfg, other) <= q
    ensures id == other
  {
    FullIs(cfg, id);
    FullIs(cfg, other);
    var n := |cfg.workdir| + 1;
    assert Full(cfg, id)[n] == q[n] == Full(cfg, other)[n];
  }

  lemma ContentAfterPrune(cfg: Config, s: State, a: PruneAct, id: string, q: Path)
    requires GoodNames(cfg) && EnabledPrune(cfg, s, a) && id in cfg.ids && Full(cfg, id) <= q && q in s.w.tree
    requires s.pruner.Visiting? ==> Placed(cfg, s.pruner.id, s.pruner.c)
    ensures q !in ApplyPrune(cfg, s, a).w.tree <==> Evicts(cfg, s, Prune(a), id, q)
  {
    if s.pruner.Visiting? {
      OthersAreApart(cfg, id, s.pruner.id, s.pruner.c, q);
    }
  }

  lemma ContentAfterPublish(cfg: Config, s: State, other: string, a: PublishAct, id: string, q: Path)
    requires GoodNames(cfg) && EnabledPublish(cfg, s, other, a) && id in cfg.ids && other in cfg.ids
    requires Full(cfg, id) <= q && q in s.w.tree
    ensures q !in ApplyPublish(cfg, s, other, a).w.tree <==> Undoes(cfg, s, Publish(other, a), id, q)
  {
    if a.Undo? && Full(cfg, other) <= q {
      SubtreesApart(cfg, id, other, q);
    }
  }

  lemma TreeAfterUnpublish(cfg: Config, s: State, other: string, a: UnpublishAct)
    requires EnabledUnpublish(cfg, s, other, a)
    ensures ApplyUnpublish(cfg, s, other, a).w.tree == s.w.tree
  {
  }

  lemma ContentAfterPods(cfg: Config, s: State, other: string, after: set<Path>, id: string, q: Path)
    requires GoodNames(cfg) && id in cfg.ids && other in cfg.ids && Full(cfg, id) <= q && q in s.w.tree
    requires ChangedBelow(s.w.tree, after, Full(cfg, other))
    ensures q !in after ==> id == other
  {
    if Full(cfg, other) < q {
      SubtreesApart(cfg, id, other, q);
    }
  }

  lemma ContentStep(cfg: Config, s: State, a: Action, id: string, q: Path)
    requires GoodNames(cfg) && Enabled(cfg, s, a) && id in cfg.ids && Full(cfg, id) <= q && q in s.w.tree
    requires a.Publish? ==> a.id in cfg.ids
    requires s.pruner.Visiting? ==> Placed(cfg, s.pruner.id, s.pruner.c)
    ensures q !in Apply(cfg, s, a).w.tree <==>
              Undoes(cfg, s, a, id, q) || Evicts(cfg, s, a, id, q) || PodDeletes(a, id, q)
  {
    match a
    case Publish(other, pub) => ContentAfterPublish(cfg, s, other, pub, id, q);
    case Unpublish(other, unp) => TreeAfterUnpublish(cfg, s, other, unp);
    case Prune(prune) => ContentAfterPrune(cfg, s, prune, id, q);
    case Env(env) =>
      if env.PodWrites? { ContentAfterPods(cfg, s, env.id, env.after, id, q); }
  }

  /** Whatever lies at or below a volume's directory disappears exactly when the volume's own publish undoes a failed
      mount, when the pruner evicts the volume by its own queue entry, or when its own pod deletes it: no other step
      of any run takes it away. */
  lemma {:induction false} ContentGoesIff(cfg: Config, r: Run, i: nat, id: string, q: Path)
    requires GoodNames(cfg) && Valid(cfg, r) && i < |r.acts| && id in cfg.ids
    requires Full(cfg, id) <= q && q in r.states[i].w.tree
    ensures var s, a := r.states[i], r.acts[i];
            q !in r.states[i + 1].w.tree <==>
              Undoes(cfg, s, a, id, q) || Evicts(cfg, s, a, id, q) || PodDeletes(a, id, q)
  {
    HandlersInRun(cfg, r, i);
    VisitIsPlaced(cfg, r, i);
    ContentStep(cfg, r.states[i], r.acts[i], id, q);
  }

  /** An erasure that fails leaves the directory itself, and a pod cannot delete it. */
  lemma {:induction false} DirectoryGoesIff(cfg: Config, r: Run, i: nat, id: string)
    requires GoodNames(cfg) && Valid(cfg, r) && i < |r.acts| && id in cfg.ids
    requires Full(cfg, id) in r.states[i].w.tree
    ensures var s, a := r.states[i], r.acts[i];
            Full(cfg, id) !in r.states[i + 1].w.tree <==>
              || a == Publish(id, Undo(Erased))
              || (a == Prune(EraseVolume(Erased)) && IsVisiting(s, id) && s.pruner.c.path == Full(cfg, id))
  {
    assert !(Full(cfg, id) < Full(cfg, id));
    ContentGoesIff(cfg, r, i, id, Full(cfg, id));
  }

  /** Delayed deletion: if `q`, at or below a volume's directory, existed at step `i` and is gone at step `k`, and
      meanwhile neither the volume's pod deleted it nor an undone mount erased it, then it stayed until some step
      `e`, at which the pruner evicted the volume; an unpublish of that volume had been requested before at some step
      `j`; and by then the clock was strictly past that request plus its lifespan scaled by the factor of the
      pruner's round. */
  lemma {:induction false} DeletionIsDelayed(cfg: Config, r: Run, i: nat, k: nat, id: string, q: Path)
    returns (e: nat, j: nat)
    requires GoodNames(cfg) && Valid(cfg, r) && i <= k <= |r.acts| && id in cfg.ids && Full(cfg, id) <= q
    requires q in r.states[i].w.tree && q !in r.states[k].w.tree
    requires forall m :: i <= m < k ==> !Undoes(cfg, r.states[m], r.acts[m], id, q) && !PodDeletes(r.acts[m], id, q)
    ensures i <= e < k && (forall m :: i <= m <= e ==> q in r.states[m].w.tree)
    ensures Evicts(cfg, r.states[e], r.acts[e], id, q)
    ensures j < e && r.acts[j] == Unpublish(id, UnpublishRequest)
    ensures var asked, round := r.states[j], r.states[e].pruner.round;
            r.states[e].clock >= round.now > asked.clock + Scaled(cfg.rnd, asked.lifespan, round.factor)
  {
    e := FirstLoss(r, i, k, q);
    ContentGoesIff(cfg, r, e, id, q);
    assert Evicts(cfg, r.states[e], r.acts[e], id, q);
    j := NoEarlyEviction(cfg, r, e, id);
  }

  lemma FirstLoss(r: Run, i: nat, k: nat, q: Path) returns (e: nat)
    requires i <= k < |r.states| && q in r.states[i].w.tree && q !in r.states[k].w.tree
    ensures i <= e < k && q !in r.states[e + 1].w.tree
    ensures forall m :: i <= m <= e ==> q in r.states[m].w.tree
  {
    e := i;
    while q in r.states[e + 1].w.tree
      invariant i <= e < k
      invariant forall m :: i <= m <= e ==> q in r.states[m].w.tree
      decreases k - e
    {
      e := e + 1;
    }
  }

  /* ---------- the directory of a live volume ---------- */

  /** A live volume loses something at or below its directory exactly if it is published again, that mount fails and
      undoing it erases that, be it in part; or if its own pod deletes it. */
  lemma {:induction false} LiveLosesIff(cfg: Config, r: Run, i: nat, id: string, q: Path)
    requires GoodNames(cfg) && Valid(cfg, r) && Always(cfg, r, id, Orderly) && i < |r.acts| && id in cfg.ids
    requires PhaseOf(r.states[i], id).Live? && Full(cfg, id) <= q && q in r.states[i].w.tree
    ensures q !in r.states[i + 1].w.tree <==>
              Undoes(cfg, r.states[i], r.acts[i], id, q) || PodDeletes(r.acts[i], id, q)
  {
    ContentGoesIff(cfg, r, i, id, q);
    LifeInRun(cfg, r, i, id);
  }

  /** No publish of the volume has to undo its mount, be it in vain. */
  predicate NoUndo(a: Action, id: string)
  {
    a.Publish? && a.id == id ==> !a.pub.Undo?
  }

  /** From one moment of its life to another, a live volume keeps everything its pod does not delete, as long as no
      publish of it undoes a failed mount. */
  lemma {:induction false} LiveKeepsContents(cfg: Config, r: Run, i: nat, k: nat, id: string, q: Path)
    requires GoodNames(cfg) && Valid(cfg, r) && Always(cfg, r, id, Orderly) && i <= k <= |r.acts| && id in cfg.ids
    requires PhaseOf(r.states[i], id).Live? && PhaseOf(r.states[k], id).Live?
    requires Full(cfg, id) <= q && q in r.states[i].w.tree
    requires forall m :: i <= m < k ==> NoUndo(r.acts[m], id) && !PodDeletes(r.acts[m], id, q)
    ensures q in r.states[k].w.tree
  {
    if i < k {
      HistoryInRun(cfg, r, i, k - 1, id);
      HistoryInRun(cfg, r, k - 1, k, id);
      LiveKeepsContents(cfg, r, i, k - 1, id, q);
      LiveLosesIff(cfg, r, k - 1, id, q);
    }
  }

  /** No publish of the volume erases its directory as such. */
  predicate NeverUndone(cfg: Config, s: State, a: Action, id: string)
  {
    a != Publish(id, Undo(Erased))
  }

  /** From the making of the directory to the first unpublish, the directory exists. */
  ghost predicate DirectoryOk(cfg: Config, s: State, id: string)
  {
    && (PhaseOf(s, id).Live? ==> Full(cfg, id) in s.w.tree)
    && (id in s.rpcs && s.rpcs[id].Publish?() && !s.rpcs[id].Making? ==> Full(cfg, id) in s.w.tree)
  }

  lemma DirectoryMade(tree: set<Path>, p: Path)
    ensures p in MkdirAll(tree, p)
  {
    assert p == p[..|p|];
  }

  lemma DirectoryOkInRun(cfg: Config, r: Run, i: nat, id: string)
    requires GoodNames(cfg) && Valid(cfg, r) && Always(cfg, r, id, Orderly) && Always(cfg, r, id, NeverUndone)
    requires i <= |r.acts| && id in cfg.ids
    ensures DirectoryOk(cfg, r.states[i], id)
  {
    if i > 0 {
      var s, a := r.states[i - 1], r.acts[i - 1];
      DirectoryOkInRun(cfg, r, i - 1, id);
      LifeInRun(cfg, r, i - 1, id);
      DirectoryMade(s.w.tree, Full(cfg, id));
      if Full(cfg, id) in s.w.tree { DirectoryGoesIff(cfg, r, i - 1, id); }
      DirectoryOkStep(cfg, s, a, id);
    }
  }

  lemma DirectoryOkAfterPublish(cfg: Config, s: State, id: string, a: PublishAct)
    requires EnabledPublish(cfg, s, id, a) && DirectoryOk(cfg, s, id)
    requires Full(cfg, id) in s.w.tree ==> Full(cfg, id) in ApplyPublish(cfg, s, id, a).w.tree
    requires Full(cfg, id) in MkdirAll(s.w.tree, Full(cfg, id))
    ensures DirectoryOk(cfg, ApplyPublish(cfg, s, id, a), id)
  {
  }

  lemma DirectoryOkAfterPrune(cfg: Config, s: State, id: string, a: PruneAct)
    requires EnabledPrune(cfg, s, a) && LifeOk(cfg, s, id) && DirectoryOk(cfg, s, id)
    requires var tree' := ApplyPrune(cfg, s, a).w.tree;
             Full(cfg, id) in s.w.tree && Full(cfg, id) !in tree' ==> IsVisiting(s, id)
    ensures DirectoryOk(cfg, ApplyPrune(cfg, s, a), id)
  {
    PrunerLeavesHandlers(cfg, s, a);
  }

  lemma DirectoryOkStep(cfg: Config, s: State, a: Action, id: string)
    requires Enabled(cfg, s, a) && LifeOk(cfg, s, id) && DirectoryOk(cfg, s, id)
    requires Full(cfg, id) in s.w.tree && Full(cfg, id) !in Apply(cfg, s, a).w.tree ==> IsVisiting(s, id) && a.Prune?
    requires Full(cfg, id) in MkdirAll(s.w.tree, Full(cfg, id))
    ensures DirectoryOk(cfg, Apply(cfg, s, a), id)
  {
    match a
    case Publish(other, pub) =>
      if other == id {
        DirectoryOkAfterPublish(cfg, s, id, pub);
      } else {
        UntouchedByOtherPublish(cfg, s, other, pub, id);
      }
    case Unpublish(other, unp) =>
      if other != id { UntouchedByOtherUnpublish(cfg, s, other, unp, id); }
    case Prune(prune) => DirectoryOkAfterPrune(cfg, s, id, prune);
    case Env(_) =>
  }

  /** As long as no failed mount undoes it, a live volume has its directory. */
  lemma {:induction false} LiveHasDirectory(cfg: Config, r: Run, i: nat, id: string)
    requires GoodNames(cfg) && Valid(cfg, r) && Always(cfg, r, id, Orderly) && Always(cfg, r, id, NeverUndone)
    requires i <= |r.acts| && id in cfg.ids && PhaseOf(r.states[i], id).Live?
    ensures Full(cfg, id) in r.states[i].w.tree
  {
    DirectoryOkInRun(cfg, r, i, id);
  }

  /* ---------- directories that stay for good ---------- */

  predicate AsksPublish(a: Action, id: string)
  {
    a.Publish? && a.id == id && a.pub.PublishRequest?
  }

  /** No handler, record or queue entry of the id is left. */
  predicate Forgotten(s: State, id: string)
  {
    && id !in s.rpcs && id !in s.w.vols && id !in s.w.volDb
    && id !in s.w.delDb && id !in s.w.cands && id !in Todo(s) && !IsVisiting(s, id)
  }

  /** Whatever is queued for the id lacks the pod. */
  ghost predicate Adrift(cfg: Config, s: State, id: string)
  {
    && id !in s.w.vols && id !in s.w.volDb
    && (id in s.rpcs ==> !s.rpcs[id].Publish?())
    && forall c :: Holds(s, id, c) ==> c.path == cfg.workdir + [id]
  }

  lemma NoRecordAfter(cfg: Config, s: State, a: Action, id: string)
    requires Enabled(cfg, s, a) && !AsksPublish(a, id)
    requires id !in s.w.vols && id !in s.w.volDb && (id in s.rpcs ==> !s.rpcs[id].Publish?())
    ensures var s' := Apply(cfg, s, a);
            id !in s'.w.vols && id !in s'.w.volDb && (id in s'.rpcs ==> !s'.rpcs[id].Publish?())
  {
    match a
    case Publish(other, pub) =>
      if other != id { UntouchedByOtherPublish(cfg, s, other, pub, id); }
    case Unpublish(other, unp) =>
      if other != id { UntouchedByOtherUnpublish(cfg, s, other, unp, id); }
    case Prune(prune) => PrunerLeavesHandlers(cfg, s, prune);
    case Env(_) =>
  }

  lemma AdriftInRun(cfg: Config, r: Run, i: nat, k: nat, id: string)
    requires GoodNames(cfg) && Valid(cfg, r) && i <= k <= |r.acts| && id in cfg.ids && Adrift(cfg, r.states[i], id)
    requires forall m :: i <= m < k ==> !AsksPublish(r.acts[m], id)
    ensures Adrift(cfg, r.states[k], id)
  {
    if i < k {
      var s, a := r.states[k - 1], r.acts[k - 1];
      AdriftInRun(cfg, r, i, k - 1, id);
      NoRecordAfter(cfg, s, a, id);
      forall c | Holds(r.states[k], id, c) ensures c.path == cfg.workdir + [id] {
        HoldsStep(cfg, s, a, id, c);
        FullpathOfComponents(cfg.workdir, "", id);
      }
    }
  }

  /** Once nothing of a volume is left but its directory, no unpublish, retry, round or restart ever records the
      directory again, and it is never deleted, unless the volume is published anew. */
  lemma {:induction false} ForgottenStays(cfg: Config, r: Run, i: nat, k: nat, id: string)
    requires GoodNames(cfg) && Valid(cfg, r) && i <= k <= |r.acts| && id in cfg.ids && Forgotten(r.states[i], id)
    requires forall m :: i <= m < k ==> !AsksPublish(r.acts[m], id)
    requires Full(cfg, id) in r.states[i].w.tree
    ensures Full(cfg, id) in r.states[k].w.tree && !Recorded(r.states[k].w, id, Full(cfg, id))
  {
    AdriftInRun(cfg, r, i, k, id);
    FullIs(cfg, id);
    if id in r.states[k].w.delDb { assert Holds(r.states[k], id, r.states[k].w.delDb[id]); }
    if i < k {
      ForgottenStays(cfg, r, i, k - 1, id);
      AdriftInRun(cfg, r, i, k - 1, id);
      DirectoryGoesIff(cfg, r, k - 1, id);
      if IsVisiting(r.states[k - 1], id) {
        assert Holds(r.states[k - 1], id, r.states[k - 1].pruner.c);
      }
    }
  }

  /** The directory exists, unrecorded, in every continuation of `r` that does not publish the volume again. */
  ghost predicate LeftForGood(cfg: Config, r: Run, id: string)
  {
    forall r' :: Continues(cfg, r, r', a => !AsksPublish(a, id)) ==>
      Full(cfg, id) in Last(r').w.tree && !Recorded(Last(r').w, id, Full(cfg, id))
  }

  lemma ForgottenIsLeft(cfg: Config, r: Run, id: string)
    requires GoodNames(cfg) && Valid(cfg, r) && id in cfg.ids && Forgotten(Last(r), id)
    requires Full(cfg, id) in Last(r).w.tree
    ensures LeftForGood(cfg, r, id)
  {
    forall r' | Continues(cfg, r, r', a => !AsksPublish(a, id))
      ensures Full(cfg, id) in Last(r').w.tree && !Recorded(Last(r').w, id, Full(cfg, id))
    {
      assert r'.states[|r.acts|] == Last(r);
      ForgottenStays(cfg, r', |r.acts|, |r'.acts|, id);
    }
  }

  /** An unpublish leaves the directory for good exactly if its queue put fails and the rest of it succeeds: no
      retry, no restart and no round repairs the lost put. */
  lemma {:induction false} LostPutIsNeverRepaired(
      cfg: Config, r: Run, id: string, targetPath: string, env: UnpublishEnv) returns (r': Run)
    requires GoodNames(cfg) && Valid(cfg, r) && id in cfg.ids && targetPath != ""
    requires id !in Last(r).rpcs && !IsVisiting(Last(r), id) && env.now == Last(r).clock
    requires Published(cfg.workdir, Last(r).w, cfg.podOf(id), id) && Full(cfg, id) in Last(r).w.tree
    ensures Continues(cfg, r, r', a => UnpublishOf(id, a))
    ensures Last(r').w == UnpublishVolume(cfg.workdir, Last(r).lifespan, Last(r).w, id, targetPath, env).0
    ensures LeftForGood(cfg, r', id) <==> !env.putOk && env.unmount.Fine() && env.forgetOk
  {
    StaleSnapshotIsLive(cfg, r, |r.acts|);
    UnpublishKeepsTrack(cfg.workdir, Last(r).lifespan, Last(r).w, cfg.podOf(id), id, targetPath, env);
    r' := UnpublishIsRun(cfg, r, id, targetPath, env);
    if !env.putOk && env.unmount.Fine() && env.forgetOk {
      ForgottenIsLeft(cfg, r', id);
    } else {
      assert Continues(cfg, r', r', a => !AsksPublish(a, id));
    }
  }

  /** A publish may succeed without having persisted its record: the put failed, or the mount was found in place.
      The next restart then forgets the volume, and its directory is left for good; if the record was persisted,
      it is back after the restart. */
  lemma {:induction false} UnpersistedIsLostByRestart(
      cfg: Config, r: Run, req: PublishReq, env: PublishEnv, lifespan: nat) returns (r': Run)
    requires GoodNames(cfg) && Valid(cfg, r) && req.volumeId in cfg.ids && req.volumeId !in Last(r).rpcs
    requires Acceptable(req) && req.podUUID == cfg.podOf(req.volumeId)
    requires env.mkdirOk && req.capability.mount && env.mount.Fine()
    requires Fits(env.undo, MkdirAll(Last(r).w.tree, Full(cfg, req.volumeId)), Full(cfg, req.volumeId))
    requires req.volumeId !in Last(r).w.volDb && req.volumeId !in Last(r).w.delDb
    ensures Continues(cfg, r, r', a => PublishOf(req.volumeId, a) || a == Env(Restart(lifespan)))
    ensures var (w, response) := PublishVolume(cfg.workdir, Last(r).w, req, env);
            response.Succeeded? && Last(r').w == Reload(w) && Full(cfg, req.volumeId) in w.tree
    ensures if Persists(req, env) then Published(cfg.workdir, Last(r').w, req.podUUID, req.volumeId)
            else LeftForGood(cfg, r', req.volumeId)
  {
    var id := req.volumeId;
    var mid := PublishIsRun(cfg, r, req, env);
    WhatPublishEnters(cfg.workdir, Last(r).w, req, env);
    WhatPublishSpares(cfg.workdir, Last(r).w, req, env);
    WhatPublishPersists(cfg.workdir, Last(r).w, req, env);
    WhatPublishAnswers(cfg.workdir, Last(r).w, req, env);
    DirectoryMade(Last(r).w.tree, Full(cfg, id));
    var mine := a => PublishOf(id, a) || a == Env(Restart(lifespan));
    assert Continues(cfg, r, mid, mine);
    r' := Extend(cfg, r, mid, Env(Restart(lifespan)), mine);
    if !Persists(req, env) { ForgottenIsLeft(cfg, r', id); }
  }
}
