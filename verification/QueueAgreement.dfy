/** The in-memory queue against its bucket, at every step of every interleaved run. */
module QueueAgreement {
  import opened Model
  import opened Steps

  predicate Queueing(s: State, id: string)
  {
    id in s.rpcs && (s.rpcs[id].Putting? || s.rpcs[id].Inserting?)
  }

  /** Between the durable put and the map insert. */
  predicate MidQueue(s: State, id: string)
  {
    id in s.rpcs && s.rpcs[id].Inserting?
  }

  /** Between the durable delete and the map delete. */
  predicate MidRemove(s: State, id: string)
  {
    IsVisiting(s, id) && (s.pruner.stage.Unmap1? || s.pruner.stage.Unmap2?)
  }

  function Todo(s: State): map<string, Candidate>
  {
    if s.pruner.Sweeping? || s.pruner.Visiting? then s.pruner.todo else map[]
  }

  /* ---------- frames ---------- */

  /** Nothing the two states record about `id` differs. */
  ghost predicate Untouched(s: State, s': State, id: string)
  {
    && Same(s.w.volDb, s'.w.volDb, id) && Same(s.w.delDb, s'.w.delDb, id)
    && Same(s.w.vols, s'.w.vols, id) && Same(s.w.cands, s'.w.cands, id)
    && Same(s.rpcs, s'.rpcs, id) && s.pruner == s'.pruner
    && (id in s.hist.stored <==> id in s'.hist.stored) && (id in s.hist.retired <==> id in s'.hist.retired)
    && Same(s.hist.due, s'.hist.due, id) && (id in s.hist.gone <==> id in s'.hist.gone)
  }

  lemma UntouchedByOtherPublish(cfg: Config, s: State, other: string, a: PublishAct, id: string)
    requires EnabledPublish(cfg, s, other, a) && other != id
    ensures Untouched(s, ApplyPublish(cfg, s, other, a), id)
  {
  }

  lemma UntouchedByOtherUnpublish(cfg: Config, s: State, other: string, a: UnpublishAct, id: string)
    requires EnabledUnpublish(cfg, s, other, a) && other != id
    ensures Untouched(s, ApplyUnpublish(cfg, s, other, a), id)
  {
  }

  /* ---------- the snapshot ---------- */

  /** What makes acting on the stale snapshot sound, for one id. */
  predicate SnapshotOk(s: State, id: string)
  {
    && (Queueing(s, id) ==> id !in s.w.cands)
    && (id in Todo(s) ==> id in s.w.cands && s.w.cands[id] == Todo(s)[id])
    && !(IsVisiting(s, id) && id in Todo(s))
  }

  /** A publish leaves the queue, the pruner and their history alone. */
  lemma PublishLeavesQueue(cfg: Config, s: State, id: string, a: PublishAct)
    requires EnabledPublish(cfg, s, id, a)
    ensures var s' := ApplyPublish(cfg, s, id, a);
            && s'.w.delDb == s.w.delDb && s'.w.cands == s.w.cands && s'.pruner == s.pruner
            && s'.hist.retired == s.hist.retired && s'.hist.due == s.hist.due && s'.hist.gone == s.hist.gone
            && (id in s'.rpcs ==> s'.rpcs[id].Publish?())
  {
  }

  /** The pruner and the handlers do not meet except in the queue and the tree. */
  lemma PrunerLeavesHandlers(cfg: Config, s: State, a: PruneAct)
    requires EnabledPrune(cfg, s, a)
    ensures var s' := ApplyPrune(cfg, s, a);
            && s'.rpcs == s.rpcs && s'.w.vols == s.w.vols && s'.w.volDb == s.w.volDb
            && s'.hist.stored == s.hist.stored && s'.hist.retired == s.hist.retired && s'.hist.due == s.hist.due
  {
  }

  lemma SnapshotAfterUnpublish(cfg: Config, s: State, id: string, a: UnpublishAct)
    requires EnabledUnpublish(cfg, s, id, a) && SnapshotOk(s, id)
    ensures SnapshotOk(ApplyUnpublish(cfg, s, id, a), id)
  {
  }

  lemma SnapshotAfterPrune(cfg: Config, s: State, id: string, a: PruneAct)
    requires EnabledPrune(cfg, s, a) && SnapshotOk(s, id)
    ensures SnapshotOk(ApplyPrune(cfg, s, a), id)
  {
  }

  lemma SnapshotStep(cfg: Config, s: State, a: Action, id: string)
    requires Enabled(cfg, s, a) && SnapshotOk(s, id)
    ensures SnapshotOk(Apply(cfg, s, a), id)
  {
    match a
    case Publish(other, pub) =>
      PublishLeavesQueue(cfg, s, other, pub);
      if other != id { UntouchedByOtherPublish(cfg, s, other, pub, id); }
    case Unpublish(other, unp) =>
      if other == id {
        SnapshotAfterUnpublish(cfg, s, id, unp);
      } else {
        UntouchedByOtherUnpublish(cfg, s, other, unp, id);
      }
    case Prune(prune) => SnapshotAfterPrune(cfg, s, id, prune);
    case Env(_) =>
  }

  lemma SnapshotInRun(cfg: Config, r: Run, i: nat, id: string)
    requires Valid(cfg, r) && i <= |r.acts|
    ensures SnapshotOk(r.states[i], id)
  {
    if i > 0 {
      SnapshotInRun(cfg, r, i - 1, id);
      SnapshotStep(cfg, r.states[i - 1], r.acts[i - 1], id);
    }
  }

  /** However many handlers interleave, every snapshot entry not yet visited is the live map's entry. */
  lemma {:induction false} StaleSnapshotIsLive(cfg: Config, r: Run, i: nat)
    requires Valid(cfg, r) && i <= |r.acts|
    ensures forall id :: id in Todo(r.states[i]) ==>
              id in r.states[i].w.cands && r.states[i].w.cands[id] == Todo(r.states[i])[id]
  {
    forall id | id in Todo(r.states[i])
      ensures id in r.states[i].w.cands && r.states[i].w.cands[id] == Todo(r.states[i])[id]
    {
      SnapshotInRun(cfg, r, i, id);
    }
  }

  /* ---------- map and bucket ---------- */

  predicate QueueOk(cfg: Config, s: State, id: string)
  {
    && SnapshotOk(s, id)
    && (Queueing(s, id) ==> !StillRemoves(cfg, s, id))
    && (Queueing(s, id) && !MidQueue(s, id) ==> id !in s.w.delDb)
    && (MidQueue(s, id) ==> id in s.w.delDb && s.w.delDb[id] == s.rpcs[id].c)
    && (MidRemove(s, id) ==> id !in s.w.delDb)
    && (!MidQueue(s, id) && !MidRemove(s, id) ==> Same(s.w.cands, s.w.delDb, id))
    && (StillRemoves(cfg, s, id) && id in s.w.cands ==> s.w.cands[id] == s.pruner.c)
    && (IsVisiting(s, id) && (s.pruner.stage.Drop1? || s.pruner.stage.Unmap1?) ==> id in s.w.cands)
  }

  lemma QueueAfterUnpublish(cfg: Config, s: State, id: string, a: UnpublishAct)
    requires EnabledUnpublish(cfg, s, id, a) && QueueOk(cfg, s, id)
    requires a.Check? ==> !(StillRemoves(cfg, s, id) && id !in s.w.cands)
    ensures QueueOk(cfg, ApplyUnpublish(cfg, s, id, a), id)
  {
  }

  lemma QueueAfterPrune(cfg: Config, s: State, id: string, a: PruneAct)
    requires EnabledPrune(cfg, s, a) && QueueOk(cfg, s, id)
    ensures QueueOk(cfg, ApplyPrune(cfg, s, a), id)
  {
  }

  lemma QueueStep(cfg: Config, s: State, a: Action, id: string)
    requires Enabled(cfg, s, a) && NoQueueDuringVisit(cfg, s, a, id) && QueueOk(cfg, s, id)
    ensures QueueOk(cfg, Apply(cfg, s, a), id)
  {
    match a
    case Publish(other, pub) =>
      PublishLeavesQueue(cfg, s, other, pub);
      if other != id { UntouchedByOtherPublish(cfg, s, other, pub, id); }
    case Unpublish(other, unp) =>
      if other == id {
        QueueAfterUnpublish(cfg, s, id, unp);
      } else {
        UntouchedByOtherUnpublish(cfg, s, other, unp, id);
      }
    case Prune(prune) => QueueAfterPrune(cfg, s, id, prune);
    case Env(_) =>
  }

  lemma QueueInRun(cfg: Config, r: Run, i: nat, id: string)
    requires Valid(cfg, r) && Always(cfg, r, id, NoQueueDuringVisit) && i <= |r.acts|
    ensures QueueOk(cfg, r.states[i], id)
  {
    if i > 0 {
      QueueInRun(cfg, r, i - 1, id);
      QueueStep(cfg, r.states[i - 1], r.acts[i - 1], id);
    }
  }

  /** Map and bucket agree on every id at rest; a queue in flight leaves only the bucket ahead, a removal in
      flight only the map. Failing transactions are included, and a restart restores equality. */
  lemma {:induction false} MapAndBucketAgree(cfg: Config, r: Run, i: nat, id: string)
    requires Valid(cfg, r) && Always(cfg, r, id, NoQueueDuringVisit) && i <= |r.acts|
    ensures var s := r.states[i];
            && (!MidQueue(s, id) && !MidRemove(s, id) ==> Same(s.w.cands, s.w.delDb, id))
            && (MidQueue(s, id) ==> id in s.w.delDb && id !in s.w.cands)
            && (MidRemove(s, id) ==> id !in s.w.delDb)
    ensures i > 0 && r.acts[i - 1].Env? && r.acts[i - 1].env.Restart? ==> r.states[i].w.cands == r.states[i].w.delDb
  {
    QueueInRun(cfg, r, i, id);
  }

  /* ---------- deadlines ---------- */

  lemma DeadlineStep(cfg: Config, s: State, a: Action, id: string)
    requires Enabled(cfg, s, a) && QueueOk(cfg, s, id) && id in s.w.delDb
    ensures var s' := Apply(cfg, s, a); id in s'.w.delDb ==> s'.w.delDb[id] == s.w.delDb[id]
  {
  }

  /** From its durable queue entry until its removal, nothing changes an id's time, lifespan or path. */
  lemma {:induction false} DeadlineStable(cfg: Config, r: Run, i: nat, j: nat, id: string)
    requires Valid(cfg, r) && Always(cfg, r, id, NoQueueDuringVisit) && i <= j <= |r.acts|
    requires forall k :: i <= k <= j ==> id in r.states[k].w.delDb
    ensures r.states[i].w.delDb[id] == r.states[j].w.delDb[id]
  {
    if i < j {
      DeadlineStable(cfg, r, i, j - 1, id);
      QueueInRun(cfg, r, j - 1, id);
      DeadlineStep(cfg, r.states[j - 1], r.acts[j - 1], id);
    }
  }
}
