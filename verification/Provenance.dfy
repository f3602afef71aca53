/** Where queue entries come from, and where their paths point. */
module Provenance {
  import opened Paths
  import opened Model
  import opened Steps
  import opened QueueAgreement

  /* ---------- where volume directories lie ---------- */

  lemma FullIs(cfg: Config, id: string)
    requires GoodNames(cfg) && id in cfg.ids
    ensures Full(cfg, id) == cfg.workdir + [cfg.podOf(id), id]
  {
    FullpathOfComponents(cfg.workdir, cfg.podOf(id), id);
  }

  /** Volume directories are pairwise disjoint subtrees. */
  lemma FullsApart(cfg: Config, id: string, other: string)
    requires GoodNames(cfg) && id in cfg.ids && other in cfg.ids
    requires Full(cfg, id) <= Full(cfg, other)
    ensures id == other
  {
    FullIs(cfg, id);
    FullIs(cfg, other);
    var n := |cfg.workdir| + 1;
    assert Full(cfg, id)[n] == Full(cfg, other)[n];
  }

  /* ---------- handlers and records ---------- */

  lemma HandlersAreNamed(cfg: Config, s: State, a: Action)
    requires Enabled(cfg, s, a) && forall id :: id in s.rpcs ==> id in cfg.ids
    ensures a.Publish? ==> a.id in cfg.ids
    ensures a.Unpublish? ==> a.id in cfg.ids
    ensures forall id :: id in Apply(cfg, s, a).rpcs ==> id in cfg.ids
  {
  }

  lemma HandlersInRun(cfg: Config, r: Run, i: nat)
    requires Valid(cfg, r) && i <= |r.acts|
    ensures forall id :: id in r.states[i].rpcs ==> id in cfg.ids
    ensures i < |r.acts| && r.acts[i].Publish? ==> r.acts[i].id in cfg.ids
    ensures i < |r.acts| && r.acts[i].Unpublish? ==> r.acts[i].id in cfg.ids
  {
    if i > 0 {
      HandlersInRun(cfg, r, i - 1);
      HandlersAreNamed(cfg, r.states[i - 1], r.acts[i - 1]);
    }
    if i < |r.acts| {
      HandlersAreNamed(cfg, r.states[i], r.acts[i]);
    }
  }

  /** Every record of an id is the record its pod determines. */
  ghost predicate RecordsOk(cfg: Config, s: State, id: string)
  {
    && (id in s.w.volDb ==> s.w.volDb[id] == VolumeOf(cfg, id))
    && (id in s.w.vols ==> s.w.vols[id] == VolumeOf(cfg, id))
    && (id in s.rpcs ==> id in cfg.ids)
  }

  lemma RecordsKeptByPublish(cfg: Config, s: State, id: string, a: PublishAct)
    requires EnabledPublish(cfg, s, id, a) && RecordsOk(cfg, s, id)
    ensures RecordsOk(cfg, ApplyPublish(cfg, s, id, a), id)
  {
  }

  lemma RecordsKeptByUnpublish(cfg: Config, s: State, id: string, a: UnpublishAct)
    requires EnabledUnpublish(cfg, s, id, a) && RecordsOk(cfg, s, id)
    ensures RecordsOk(cfg, ApplyUnpublish(cfg, s, id, a), id)
  {
  }

  lemma RecordsStep(cfg: Config, s: State, a: Action, id: string)
    requires Enabled(cfg, s, a) && RecordsOk(cfg, s, id)
    ensures RecordsOk(cfg, Apply(cfg, s, a), id)
  {
    match a
    case Publish(other, pub) =>
      if other == id {
        RecordsKeptByPublish(cfg, s, id, pub);
      } else {
        UntouchedByOtherPublish(cfg, s, other, pub, id);
      }
    case Unpublish(other, unp) =>
      if other == id {
        RecordsKeptByUnpublish(cfg, s, id, unp);
      } else {
        UntouchedByOtherUnpublish(cfg, s, other, unp, id);
      }
    case Prune(prune) => PrunerLeavesHandlers(cfg, s, prune);
    case Env(_) =>
  }

  lemma RecordsInRun(cfg: Config, r: Run, i: nat, id: string)
    requires Valid(cfg, r) && i <= |r.acts|
    ensures RecordsOk(cfg, r.states[i], id)
  {
    if i > 0 {
      RecordsInRun(cfg, r, i - 1, id);
      RecordsStep(cfg, r.states[i - 1], r.acts[i - 1], id);
    }
  }

  /* ---------- the origin of a queue entry ---------- */

  /** Some part of the node holds `c` as the queue entry of `id`. */
  predicate Holds(s: State, id: string, c: Candidate)
  {
    || (id in s.w.delDb && s.w.delDb[id] == c)
    || (id in s.w.cands && s.w.cands[id] == c)
    || (id in Todo(s) && Todo(s)[id] == c)
    || (IsVisiting(s, id) && s.pruner.c == c)
    || (id in s.rpcs && (s.rpcs[id].Checking? || s.rpcs[id].Putting? || s.rpcs[id].Inserting?) && s.rpcs[id].c == c)
  }

  lemma HoldsAfterUnpublish(cfg: Config, s: State, id: string, a: UnpublishAct, c: Candidate)
    requires EnabledUnpublish(cfg, s, id, a) && Holds(ApplyUnpublish(cfg, s, id, a), id, c)
    ensures Holds(s, id, c) || (a.UnpublishRequest? && c == Request(cfg, s, id))
  {
  }

  lemma HoldsAfterPrune(cfg: Config, s: State, id: string, a: PruneAct, c: Candidate)
    requires EnabledPrune(cfg, s, a) && Holds(ApplyPrune(cfg, s, a), id, c)
    ensures Holds(s, id, c)
  {
  }

  /** Unpublish requests are the only source of queue entries; every other step copies or drops them. */
  lemma HoldsStep(cfg: Config, s: State, a: Action, id: string, c: Candidate)
    requires Enabled(cfg, s, a) && Holds(Apply(cfg, s, a), id, c)
    ensures Holds(s, id, c) || (a == Unpublish(id, UnpublishRequest) && c == Request(cfg, s, id))
  {
    match a
    case Publish(other, pub) =>
      PublishLeavesQueue(cfg, s, other, pub);
      if other != id { UntouchedByOtherPublish(cfg, s, other, pub, id); }
    case Unpublish(other, unp) =>
      if other == id {
        HoldsAfterUnpublish(cfg, s, id, unp, c);
      } else {
        UntouchedByOtherUnpublish(cfg, s, other, unp, id);
      }
    case Prune(prune) => HoldsAfterPrune(cfg, s, id, prune, c);
    case Env(_) =>
  }

  /** Whatever queue entry exists, some earlier unpublish request of its id asked for exactly it. */
  lemma {:induction false} EveryEntryWasRequested(cfg: Config, r: Run, i: nat, id: string, c: Candidate)
    returns (j: nat)
    requires Valid(cfg, r) && i <= |r.acts| && Holds(r.states[i], id, c)
    ensures j < i && r.acts[j] == Unpublish(id, UnpublishRequest) && c == Request(cfg, r.states[j], id)
  {
    assert i > 0;
    if Holds(r.states[i - 1], id, c) {
      j := EveryEntryWasRequested(cfg, r, i - 1, id, c);
    } else {
      HoldsStep(cfg, r.states[i - 1], r.acts[i - 1], id, c);
      j := i - 1;
    }
  }

  /** A queue entry's path is its volume's directory, or for an unknown volume the directory without the pod. */
  lemma EntryIsPlaced(cfg: Config, r: Run, i: nat, id: string, c: Candidate)
    requires GoodNames(cfg) && Valid(cfg, r) && i <= |r.acts| && Holds(r.states[i], id, c)
    ensures id in cfg.ids && (c.path == Full(cfg, id) || c.path == cfg.workdir + [id])
  {
    var j := EveryEntryWasRequested(cfg, r, i, id, c);
    HandlersInRun(cfg, r, j);
    RecordsInRun(cfg, r, j, id);
    FullpathOfComponents(cfg.workdir, "", id);
  }
}
