/** The in-memory volume index against its bucket. */
module VolumeIndex {
  import opened Steps
  import opened QueueAgreement
  import opened Provenance

  /** A record is added in memory first and on disk second, and removed on disk first and in memory second. */
  ghost predicate IndexOk(cfg: Config, s: State, id: string)
  {
    && RecordsOk(cfg, s, id)
    && (id in s.w.volDb ==> id in s.w.vols)
    && (id in s.rpcs && (s.rpcs[id].Mounting? || s.rpcs[id].Undoing? || s.rpcs[id].Persisting?) ==> id in s.w.vols)
    && (id in s.rpcs && s.rpcs[id].ForgettingMem? ==> id !in s.w.volDb)
  }

  lemma IndexAfterPublish(cfg: Config, s: State, id: string, a: PublishAct)
    requires EnabledPublish(cfg, s, id, a) && IndexOk(cfg, s, id)
    ensures IndexOk(cfg, ApplyPublish(cfg, s, id, a), id)
  {
  }

  lemma IndexAfterUnpublish(cfg: Config, s: State, id: string, a: UnpublishAct)
    requires EnabledUnpublish(cfg, s, id, a) && IndexOk(cfg, s, id) && (a.ForgetDb? ==> a.ok)
    ensures IndexOk(cfg, ApplyUnpublish(cfg, s, id, a), id)
  {
  }

  lemma IndexStep(cfg: Config, s: State, a: Action, id: string)
    requires Enabled(cfg, s, a) && VolumeDeletesSucceed(cfg, s, a, id) && IndexOk(cfg, s, id)
    ensures IndexOk(cfg, Apply(cfg, s, a), id)
  {
    match a
    case Publish(other, pub) =>
      if other == id {
        IndexAfterPublish(cfg, s, id, pub);
      } else {
        UntouchedByOtherPublish(cfg, s, other, pub, id);
      }
    case Unpublish(other, unp) =>
      if other == id {
        IndexAfterUnpublish(cfg, s, id, unp);
      } else {
        UntouchedByOtherUnpublish(cfg, s, other, unp, id);
      }
    case Prune(prune) => PrunerLeavesHandlers(cfg, s, prune);
    case Env(_) =>
  }

  lemma IndexInRun(cfg: Config, r: Run, i: nat, id: string)
    requires Valid(cfg, r) && Always(cfg, r, id, VolumeDeletesSucceed) && i <= |r.acts|
    ensures IndexOk(cfg, r.states[i], id)
  {
    if i > 0 {
      IndexInRun(cfg, r, i - 1, id);
      IndexStep(cfg, r.states[i - 1], r.acts[i - 1], id);
    }
  }

  /** At every step and after every restart, the durable record of an id is in memory with an equal record. */
  lemma {:induction false} DurableIndexIsInMemory(cfg: Config, r: Run, i: nat, id: string)
    requires Valid(cfg, r) && Always(cfg, r, id, VolumeDeletesSucceed) && i <= |r.acts|
    ensures id in r.states[i].w.volDb ==>
              id in r.states[i].w.vols && r.states[i].w.vols[id] == r.states[i].w.volDb[id]
  {
    IndexInRun(cfg, r, i, id);
  }
}
