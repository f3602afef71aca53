/** The life of a published volume, over every interleaved run with crashes and restarts. */
module Lifecycle {
  import opened Paths
  import opened Model
  import opened Steps
  import opened QueueAgreement
  import opened Provenance

  /* ---------- who makes a volume's directory ---------- */

  /** Only its own publish creates a volume's directory. */
  lemma NobodyElseMakes(cfg: Config, s: State, a: Action, id: string)
    requires Enabled(cfg, s, a) && GoodNames(cfg) && id in cfg.ids
    requires a.Publish? ==> a.id in cfg.ids && (a.pub.Mkdir? ==> a.id != id)
    requires Full(cfg, id) !in s.w.tree
    ensures Full(cfg, id) !in Apply(cfg, s, a).w.tree
  {
    match a
    case Publish(other, pub) => OtherPublishMakesNone(cfg, s, other, pub, id);
    case Env(PodWrites(other, _)) =>
      FullIs(cfg, id);
      FullIs(cfg, other);
    case _ =>
  }

  lemma OtherPublishMakesNone(cfg: Config, s: State, other: string, a: PublishAct, id: string)
    requires GoodNames(cfg) && EnabledPublish(cfg, s, other, a) && id in cfg.ids && other in cfg.ids
    requires a.Mkdir? ==> other != id
    requires Full(cfg, id) !in s.w.tree
    ensures Full(cfg, id) !in ApplyPublish(cfg, s, other, a).w.tree
  {
    FullIs(cfg, id);
    FullIs(cfg, other);
    if a.Mkdir? && Full(cfg, id) in MkdirAll(s.w.tree, Full(cfg, other)) {
      assert Full(cfg, id) <= Full(cfg, other);
      FullsApart(cfg, id, other);
    }
  }

  /* ---------- what holds of one id ---------- */

  ghost predicate LiveOk(cfg: Config, s: State, id: string)
  {
    && (id in s.rpcs && (s.rpcs[id].Mounting? || s.rpcs[id].Undoing? || s.rpcs[id].Persisting?) ==> id in s.w.vols)
    && (id in s.hist.stored ==> id in cfg.ids)
    && (id in s.hist.stored && id !in s.hist.due ==>
          && id in s.w.vols && id in s.w.volDb
          && (id in s.rpcs && s.rpcs[id].Checking? ==> s.rpcs[id].c.path == Full(cfg, id))
          && (id in s.rpcs && s.rpcs[id].Putting? ==> s.rpcs[id].c.path == Full(cfg, id)))
  }

  /** An unpublish precedes every queue entry, and ends in one. */
  ghost predicate RetiredOk(s: State, id: string)
  {
    && (id in s.w.delDb || id in s.w.cands || id in Todo(s) || IsVisiting(s, id) ==> id in s.hist.due)
    && (id in s.hist.due ==> id in s.hist.retired)
    && (id in s.hist.gone ==> id in s.hist.due)
    && (id in s.rpcs ==> (s.rpcs[id].Publish?() <==> id !in s.hist.retired))
    && (id in s.rpcs && !s.rpcs[id].Publish?() && !s.rpcs[id].Checking? && !s.rpcs[id].Putting? ==> id in s.hist.due)
  }

  /** Until it is deleted, the first queue entry is what every copy of the queue holds. */
  ghost predicate PendingOk(s: State, id: string)
  {
    id in s.hist.due && id !in s.hist.gone ==>
      var c := s.hist.due[id];
      && id in s.w.delDb && s.w.delDb[id] == c
      && !(id in s.rpcs && s.rpcs[id].Putting?)
      && (if MidQueue(s, id) then s.rpcs[id].c == c else id in s.w.cands)
      && (id in s.w.cands ==> s.w.cands[id] == c)
      && (id in Todo(s) ==> Todo(s)[id] == c)
      && (IsVisiting(s, id) ==> s.pruner.c == c && !MidRemove(s, id))
  }

  ghost predicate GoneOk(cfg: Config, s: State, id: string)
  {
    id in s.hist.stored ==>
      && (id in s.hist.due ==> s.hist.due[id].path == Full(cfg, id))
      && (IsVisiting(s, id) && !s.pruner.stage.Judge? ==> Full(cfg, id) !in s.w.tree)
      && (id in s.hist.gone ==> Full(cfg, id) !in s.w.tree)
  }

  ghost predicate LifeOk(cfg: Config, s: State, id: string)
  {
    RecordsOk(cfg, s, id) && LiveOk(cfg, s, id) && RetiredOk(s, id) && PendingOk(s, id) && GoneOk(cfg, s, id)
  }

  /* ---------- one step ---------- */

  lemma LifeUntouched(cfg: Config, s: State, s': State, id: string)
    requires LifeOk(cfg, s, id) && Untouched(s, s', id)
    requires Full(cfg, id) !in s.w.tree ==> Full(cfg, id) !in s'.w.tree
    ensures LifeOk(cfg, s', id)
  {
  }

  lemma PublishKeepsLive(cfg: Config, s: State, id: string, a: PublishAct)
    requires EnabledPublish(cfg, s, id, a) && LifeOk(cfg, s, id) && (a.PublishRequest? ==> id !in s.hist.retired)
    ensures var s' := ApplyPublish(cfg, s, id, a); RecordsOk(cfg, s', id) && LiveOk(cfg, s', id)
  {
  }

  lemma PublishKeepsQueue(cfg: Config, s: State, id: string, a: PublishAct)
    requires EnabledPublish(cfg, s, id, a) && LifeOk(cfg, s, id) && (a.PublishRequest? ==> id !in s.hist.retired)
    ensures var s' := ApplyPublish(cfg, s, id, a); RetiredOk(s', id) && PendingOk(s', id) && GoneOk(cfg, s', id)
  {
  }

  lemma UnpublishKeepsLive(cfg: Config, s: State, id: string, a: UnpublishAct)
    requires EnabledUnpublish(cfg, s, id, a) && LifeOk(cfg, s, id) && (a.Put? ==> a.ok)
    ensures var s' := ApplyUnpublish(cfg, s, id, a); RecordsOk(cfg, s', id) && LiveOk(cfg, s', id)
  {
  }

  lemma UnpublishKeepsRetired(cfg: Config, s: State, id: string, a: UnpublishAct)
    requires EnabledUnpublish(cfg, s, id, a) && LifeOk(cfg, s, id) && (a.Put? ==> a.ok)
    ensures var s' := ApplyUnpublish(cfg, s, id, a); RetiredOk(s', id)
  {
  }

  lemma UnpublishKeepsPending(cfg: Config, s: State, id: string, a: UnpublishAct)
    requires EnabledUnpublish(cfg, s, id, a) && LifeOk(cfg, s, id) && (a.Put? ==> a.ok)
    ensures var s' := ApplyUnpublish(cfg, s, id, a); PendingOk(s', id) && GoneOk(cfg, s', id)
  {
  }

  lemma PrunerKeepsLive(cfg: Config, s: State, id: string, a: PruneAct)
    requires EnabledPrune(cfg, s, a) && LifeOk(cfg, s, id)
    ensures var s' := ApplyPrune(cfg, s, a); RecordsOk(cfg, s', id) && LiveOk(cfg, s', id)
  {
  }

  lemma PrunerKeepsRetired(cfg: Config, s: State, id: string, a: PruneAct)
    requires EnabledPrune(cfg, s, a) && LifeOk(cfg, s, id)
    ensures var s' := ApplyPrune(cfg, s, a); RetiredOk(s', id)
  {
  }

  lemma PrunerKeepsPending(cfg: Config, s: State, id: string, a: PruneAct)
    requires EnabledPrune(cfg, s, a) && LifeOk(cfg, s, id)
    ensures var s' := ApplyPrune(cfg, s, a); PendingOk(s', id)
  {
  }

  lemma PrunerKeepsGone(cfg: Config, s: State, id: string, a: PruneAct)
    requires EnabledPrune(cfg, s, a) && LifeOk(cfg, s, id)
    requires Full(cfg, id) !in s.w.tree ==> Full(cfg, id) !in ApplyPrune(cfg, s, a).w.tree
    ensures var s' := ApplyPrune(cfg, s, a); GoneOk(cfg, s', id)
  {
  }

  lemma EnvKeeps(cfg: Config, s: State, id: string, a: EnvAct)
    requires EnabledEnv(cfg, s, a) && LifeOk(cfg, s, id)
    requires Full(cfg, id) !in s.w.tree ==> Full(cfg, id) !in ApplyEnv(s, a).w.tree
    ensures LifeOk(cfg, ApplyEnv(s, a), id)
  {
  }

  /** The hypotheses under which a volume lives its life: no republish of it, and its queue puts succeed. */
  predicate Orderly(cfg: Config, s: State, a: Action, id: string)
  {
    NoRepublish(cfg, s, a, id) && QueuePutsSucceed(cfg, s, a, id)
  }

  lemma LifeStep(cfg: Config, s: State, a: Action, id: string)
    requires GoodNames(cfg) && Enabled(cfg, s, a) && Orderly(cfg, s, a, id) && id in cfg.ids && LifeOk(cfg, s, id)
    requires a.Publish? ==> a.id in cfg.ids
    ensures LifeOk(cfg, Apply(cfg, s, a), id)
  {
    if Full(cfg, id) !in s.w.tree && !(a.Publish? && a.id == id) {
      NobodyElseMakes(cfg, s, a, id);
    }
    match a
    case Publish(other, pub) =>
      if other == id {
        PublishKeepsLive(cfg, s, id, pub);
        PublishKeepsQueue(cfg, s, id, pub);
      } else {
        UntouchedByOtherPublish(cfg, s, other, pub, id);
        LifeUntouched(cfg, s, Apply(cfg, s, a), id);
      }
    case Unpublish(other, unp) =>
      if other == id {
        UnpublishKeepsLive(cfg, s, id, unp);
        UnpublishKeepsRetired(cfg, s, id, unp);
        UnpublishKeepsPending(cfg, s, id, unp);
      } else {
        UntouchedByOtherUnpublish(cfg, s, other, unp, id);
        LifeUntouched(cfg, s, Apply(cfg, s, a), id);
      }
    case Prune(prune) =>
      PrunerKeepsLive(cfg, s, id, prune);
      PrunerKeepsRetired(cfg, s, id, prune);
      PrunerKeepsPending(cfg, s, id, prune);
      PrunerKeepsGone(cfg, s, id, prune);
    case Env(env) =>
      EnvKeeps(cfg, s, id, env);
  }

  lemma LifeInRun(cfg: Config, r: Run, i: nat, id: string)
    requires GoodNames(cfg) && Valid(cfg, r) && Always(cfg, r, id, Orderly) && i <= |r.acts| && id in cfg.ids
    ensures LifeOk(cfg, r.states[i], id)
  {
    if i > 0 {
      LifeInRun(cfg, r, i - 1, id);
      HandlersInRun(cfg, r, i - 1);
      LifeStep(cfg, r.states[i - 1], r.acts[i - 1], id);
    }
  }

  /* ---------- the lifecycle ---------- */

  datatype Phase = Absent | Live | Pending(time: int, lifespan: int) | Gone

  function PhaseOf(s: State, id: string): Phase
  {
    if id !in s.hist.stored then Absent
    else if id !in s.hist.due then Live
    else if id !in s.hist.gone then Pending(s.hist.due[id].time, s.hist.due[id].lifespan)
    else Gone
  }

  /** What each phase means in terms of what is on disk. */
  ghost predicate Means(cfg: Config, w: World, id: string, phase: Phase)
  {
    match phase
    case Absent => true
    case Live =>
      && id in w.volDb && w.volDb[id] == VolumeOf(cfg, id)
      && id in w.vols && w.vols[id] == VolumeOf(cfg, id)
      && id !in w.delDb && id !in w.cands
    case Pending(time, lifespan) => id in w.delDb && w.delDb[id] == Candidate(time, lifespan, Full(cfg, id))
    case Gone => Full(cfg, id) !in w.tree
  }

  /** The abstract machine: who may move a volume, and where to. */
  ghost predicate PhaseStep(phase: Phase, phase': Phase, id: string, s: State, a: Action)
  {
    || phase' == phase
    || (phase.Absent? && phase'.Live? && a == Publish(id, Persist(true)))
    || (phase.Live? && phase'.Pending? && a == Unpublish(id, Put(true)))
    || (phase.Pending? && phase'.Gone? && a == Prune(Drop(true)) && IsVisiting(s, id))
  }

  /** Every interleaved run with crashes and restarts is, for each volume, a run of Absent, Live, Pending, Gone;
      restarts, pods and the clock never move it, and each phase means what it says on disk. */
  lemma {:induction false} RefinesLifecycle(cfg: Config, r: Run, i: nat, id: string)
    requires GoodNames(cfg) && Valid(cfg, r) && Always(cfg, r, id, Orderly) && i < |r.acts| && id in cfg.ids
    ensures var s, s' := r.states[i], r.states[i + 1];
            PhaseStep(PhaseOf(s, id), PhaseOf(s', id), id, s, r.acts[i])
    ensures Means(cfg, r.states[i].w, id, PhaseOf(r.states[i], id))
    ensures Means(cfg, r.states[i + 1].w, id, PhaseOf(r.states[i + 1], id))
  {
    LifeInRun(cfg, r, i, id);
    LifeInRun(cfg, r, i + 1, id);
    PhaseMeans(cfg, r.states[i], id);
    PhaseMeans(cfg, r.states[i + 1], id);
    PhaseMoves(cfg, r.states[i], r.acts[i], id);
  }

  lemma PhaseMeans(cfg: Config, s: State, id: string)
    requires LifeOk(cfg, s, id)
    ensures Means(cfg, s.w, id, PhaseOf(s, id))
  {
  }

  lemma PhaseMoves(cfg: Config, s: State, a: Action, id: string)
    requires Enabled(cfg, s, a) && LifeOk(cfg, s, id)
    ensures PhaseStep(PhaseOf(s, id), PhaseOf(Apply(cfg, s, a), id), id, s, a)
  {
  }

  /** Nothing that has happened is undone. */
  predicate HistoryGrows(h: History, h': History, id: string)
  {
    && (id in h.stored ==> id in h'.stored) && (id in h.gone ==> id in h'.gone)
    && (id in h.due ==> id in h'.due && h'.due[id] == h.due[id])
  }

  lemma HistoryStep(cfg: Config, s: State, a: Action, id: string)
    requires Enabled(cfg, s, a)
    ensures HistoryGrows(s.hist, Apply(cfg, s, a).hist, id)
  {
  }

  lemma HistoryInRun(cfg: Config, r: Run, i: nat, j: nat, id: string)
    requires Valid(cfg, r) && i <= j <= |r.acts|
    ensures HistoryGrows(r.states[i].hist, r.states[j].hist, id)
  {
    if i < j {
      HistoryInRun(cfg, r, i, j - 1, id);
      HistoryStep(cfg, r.states[j - 1], r.acts[j - 1], id);
    }
  }

  /** A stored volume that is queued never becomes live again: at every later step the bucket holds the very same
      entry, with the volume's path, or the directory is gone. And once neither bucket knows the volume, its
      directory never comes back. */
  lemma {:induction false} NeverBack(cfg: Config, r: Run, i: nat, j: nat, id: string)
    requires GoodNames(cfg) && Valid(cfg, r) && Always(cfg, r, id, Orderly) && i <= j <= |r.acts|
    requires id in r.states[i].hist.stored
    ensures var w, w' := r.states[i].w, r.states[j].w;
            && (id in w.delDb ==>
                  || Full(cfg, id) !in w'.tree
                  || (id in w'.delDb && w'.delDb[id] == w.delDb[id] && w'.delDb[id].path == Full(cfg, id)))
            && (id !in w.delDb && id !in w.volDb ==> Full(cfg, id) !in w'.tree)
  {
    StoredInRun(cfg, r, i, id);
    LifeInRun(cfg, r, i, id);
    LifeInRun(cfg, r, j, id);
    HistoryInRun(cfg, r, i, j, id);
  }

  /** A stored volume's directory is always recorded, with exactly its path, in one of the two buckets. */
  lemma {:induction false} NoOrphanedDirectory(cfg: Config, r: Run, i: nat, id: string)
    requires GoodNames(cfg) && Valid(cfg, r) && Always(cfg, r, id, Orderly) && i <= |r.acts|
    requires id in r.states[i].hist.stored && Full(cfg, id) in r.states[i].w.tree
    ensures var w := r.states[i].w;
            || (id in w.volDb && w.volDb[id].path == Full(cfg, id))
            || (id in w.delDb && w.delDb[id].path == Full(cfg, id))
  {
    StoredInRun(cfg, r, i, id);
    LifeInRun(cfg, r, i, id);
  }

  lemma StoredInRun(cfg: Config, r: Run, i: nat, id: string)
    requires Valid(cfg, r) && i <= |r.acts| && id in r.states[i].hist.stored
    ensures id in cfg.ids
  {
    if i > 0 && id !in r.states[i - 1].hist.stored {
      HandlersInRun(cfg, r, i - 1);
    } else if i > 0 {
      StoredInRun(cfg, r, i - 1, id);
    }
  }

  /** The first durable queue entry of a stored volume carries the path its publish created, whatever restarts
      came between. */
  lemma {:induction false} QueuedPathIsPublishedPath(cfg: Config, r: Run, i: nat, id: string)
    requires GoodNames(cfg) && Valid(cfg, r) && Always(cfg, r, id, Orderly) && i < |r.acts|
    requires id in r.states[i].hist.stored && id !in r.states[i].hist.due
    requires r.acts[i] == Unpublish(id, Put(true))
    ensures id in r.states[i + 1].w.delDb && r.states[i + 1].w.delDb[id].path == Full(cfg, id)
  {
    StoredInRun(cfg, r, i, id);
    LifeInRun(cfg, r, i, id);
  }
}
