/** What publish and unpublish promise, alone and together. */
module Requests {
  import opened Paths
  import opened Pressure
  import opened Model
  import opened Sequential

  /** One of the buckets records that `path` is the directory of `id`. */
  predicate Recorded(w: World, id: string, path: Path)
  {
    || (id in w.volDb && w.volDb[id].path == path)
    || (id in w.delDb && w.delDb[id].path == path)
  }

  /** The volume is published and persisted, and no deletion has been asked for. */
  predicate Published(workdir: Path, w: World, podUUID: string, id: string)
  {
    var vol := NewVolume(workdir, podUUID, id);
    && id in w.volDb && w.volDb[id] == vol && id in w.vols && w.vols[id] == vol
    && id !in w.cands && id !in w.delDb
  }

  /* ---------- publish ---------- */

  /** What a publish answers, for every request. */
  lemma {:induction false} WhatPublishAnswers(workdir: Path, w: World, req: PublishReq, env: PublishEnv)
    ensures var (w', r) := PublishVolume(workdir, w, req, env);
            var malformed := || req.capability.Missing? || (req.capability.block && req.capability.mount)
                             || req.volumeId == "" || req.targetPath == "" || !req.ephemeral;
            && (r.Succeeded? <==>
                  && !malformed && env.mkdirOk && req.capability.mount
                  && (env.mount.AlreadyMounted? || env.mount.Mounted?))
            && (r.InvalidArgument? <==> malformed || (env.mkdirOk && !req.capability.mount))
            && (r.Internal? <==>
                  && !malformed
                  && (!env.mkdirOk || (req.capability.mount && (env.mount.CheckFailed? || env.mount.MountFailed?))))
            && (malformed ==> w' == w)
  {
  }

  /** The record of an ephemeral volume of one TiB. */
  function RecordOf(workdir: Path, req: PublishReq): Volume
  {
    Volume("ephemeral-" + req.volumeId, req.volumeId, req.podUUID, 1_099_511_627_776,
           Fullpath(workdir, req.podUUID, req.volumeId), MountAccess, "", true)
  }

  /** The request passes every check and its directory can be made. */
  predicate Makes(req: PublishReq, env: PublishEnv)
  {
    && req.capability.Capability? && !(req.capability.block && req.capability.mount)
    && req.volumeId != "" && req.targetPath != "" && req.ephemeral && env.mkdirOk
  }

  /** What a publish enters in memory, for every request: a well-formed one whose directory can be made leaves its
      record there, even if it is rejected afterwards. */
  lemma {:induction false} WhatPublishEnters(workdir: Path, w: World, req: PublishReq, env: PublishEnv)
    ensures PublishVolume(workdir, w, req, env).0.vols
         == if Makes(req, env) then w.vols[req.volumeId := RecordOf(workdir, req)] else w.vols
  {
    assert Makes(req, env) <==> Acceptable(req) && env.mkdirOk;
    assert RecordOf(workdir, req) == NewVolume(workdir, req.podUUID, req.volumeId);
  }

  /** No publish touches the queue. */
  lemma WhatPublishSpares(workdir: Path, w: World, req: PublishReq, env: PublishEnv)
    ensures var w' := PublishVolume(workdir, w, req, env).0;
            w'.delDb == w.delDb && w'.cands == w.cands
  {
  }

  /** What a publish persists, for every request: the record of what was mounted just now, unless the put fails. */
  lemma {:induction false} WhatPublishPersists(workdir: Path, w: World, req: PublishReq, env: PublishEnv)
    ensures PublishVolume(workdir, w, req, env).0.volDb
         == if Makes(req, env) && req.capability.mount && env.mount.Mounted? && env.persistOk
            then w.volDb[req.volumeId := RecordOf(workdir, req)] else w.volDb
  {
    assert Makes(req, env) <==> Acceptable(req) && env.mkdirOk;
    assert RecordOf(workdir, req) == NewVolume(workdir, req.podUUID, req.volumeId);
  }

  /** What a publish does to the tree, for every request: it only ever adds the directory and what is above it, and
      only ever takes away what is below it, in undoing a failed mount; one that succeeds has its directory. */
  lemma {:induction false} WhatPublishMakes(workdir: Path, w: World, req: PublishReq, env: PublishEnv)
    requires var full := Fullpath(workdir, req.podUUID, req.volumeId);
             Fits(env.undo, MkdirAll(w.tree, full), full)
    ensures var full := Fullpath(workdir, req.podUUID, req.volumeId);
            var (w', r) := PublishVolume(workdir, w, req, env);
            && (forall q :: q in w'.tree && q !in w.tree ==> q <= full)
            && (forall q :: q in w.tree && q !in w'.tree ==> full <= q && env.mount.MountFailed?)
            && (r.Succeeded? ==> forall q :: q <= full ==> q in w'.tree)
            && (!env.mkdirOk && full != [] ==> (full in w'.tree <==> full in w.tree))
  {
    var full := Fullpath(workdir, req.podUUID, req.volumeId);
    AboveIsAncestor(full);
    AboveIsAncestor(Dir(full));
    forall q | q in Ancestors(Dir(full)) ensures q <= full {
      assert q <= Dir(full) <= full;
    }
  }

  lemma AboveIsAncestor(p: Path)
    ensures forall q :: q in Ancestors(p) <==> q <= p
  {
    forall q | q <= p ensures q in Ancestors(p) {
      assert q == p[..|q|];
    }
  }

  lemma AgainSame<T>(m: map<string, T>, id: string, value: T)
    ensures m[id := value][id := value] == m[id := value]
  {
  }

  /** The call ends by erasing the volume's directory: its bind mount failed. */
  predicate ErasesDirectory(req: PublishReq, env: PublishEnv)
  {
    req.capability.Capability? && req.capability.mount && env.mount.MountFailed? && env.undo.Erased?
  }

  /** The call ends by writing the record to the bucket. */
  predicate Persists(req: PublishReq, env: PublishEnv)
  {
    req.capability.Capability? && req.capability.mount && env.mount.Mounted? && env.persistOk
  }

  predicate Durable(w: World, id: string, vol: Volume)
  {
    id in w.volDb && w.volDb[id] == vol
  }

  lemma TreeAfterPublish(workdir: Path, w: World, req: PublishReq, env: PublishEnv)
    requires Acceptable(req) && env.mkdirOk && Closed(w.tree)
    requires var full := Fullpath(workdir, req.podUUID, req.volumeId);
             full != [] && Fits(env.undo, MkdirAll(w.tree, full), full)
    ensures var full := Fullpath(workdir, req.podUUID, req.volumeId);
            var tree := PublishVolume(workdir, w, req, env).0.tree;
            && Closed(tree) && Dir(full) in tree
            && (full in tree <==> !ErasesDirectory(req, env))
            && (full in tree ==> MkdirAll(tree, full) == tree)
            && (full !in tree ==> RemoveAll(MkdirAll(tree, full), full) == tree)
  {
    var full := Fullpath(workdir, req.podUUID, req.volumeId);
    var tree := PublishVolume(workdir, w, req, env).0.tree;
    var made := MkdirAll(w.tree, full);
    assert full == full[..|full|] && Dir(full) == full[..|full| - 1];
    assert full in made && Dir(full) in made;
    assert !(full <= Dir(full)) && !(full < full) && !(full < Dir(full));
    MkdirAllCloses(w.tree, full);
    RemoveAllCloses(made, full);
    if full in tree {
      MakingAgain(tree, full);
    } else {
      assert tree == RemoveAll(made, full);
      MadeAndErased(tree, full);
    }
  }

  lemma MakingAgain(tree: set<Path>, p: Path)
    requires Closed(tree) && p in tree
    ensures MkdirAll(tree, p) == tree
  {
    forall q | q in Ancestors(p) ensures q in tree {
      AncestorsExist(tree, p, q);
    }
  }

  lemma MadeAndErased(tree: set<Path>, p: Path)
    requires Closed(tree) && p != [] && p !in tree && Dir(p) in tree
    ensures RemoveAll(MkdirAll(tree, p), p) == tree
  {
    forall q ensures q in RemoveAll(MkdirAll(tree, p), p) <==> q in tree {
      if p <= q {
        NothingBelowMissing(tree, p, q);
      } else if q in Ancestors(p) {
        PrefixOfParent(q, p);
        AncestorsExist(tree, Dir(p), q);
      }
    }
  }

  lemma TreeAfterSecondPublish(workdir: Path, w: World, req: PublishReq, env: PublishEnv, env': PublishEnv)
    requires Acceptable(req) && env.mkdirOk && env'.mkdirOk && Closed(w.tree)
    requires var full := Fullpath(workdir, req.podUUID, req.volumeId);
             && full != [] && Fits(env.undo, MkdirAll(w.tree, full), full)
             && var tree1 := PublishVolume(workdir, w, req, env).0.tree;
                Fits(env'.undo, MkdirAll(tree1, full), full)
    ensures var w1 := PublishVolume(workdir, w, req, env).0;
            PublishVolume(workdir, w1, req, env').0.tree == w1.tree <==>
              && (ErasesDirectory(req, env) <==> ErasesDirectory(req, env'))
              && (req.capability.mount && env'.mount.MountFailed? && env'.undo.Partly? ==> env'.undo.left == w1.tree)
  {
    var w1 := PublishVolume(workdir, w, req, env).0;
    TreeAfterPublish(workdir, w, req, env);
    TreeAfterPublish(workdir, w1, req, env');
  }

  /** Publishing again, whatever the mounter and bolt answer this time, changes nothing exactly if both calls
      leave the directory, or both erase it; a partial erasure does not cost anything; and the second call
      persists nothing new. A retry that finds the mount in place answers success without persisting, so it makes
      no record durable that the first call left in memory only. */
  lemma {:induction false} PublishTwice(workdir: Path, w: World, req: PublishReq, env: PublishEnv, env': PublishEnv)
    requires Acceptable(req) && env.mkdirOk && env'.mkdirOk && Closed(w.tree)
    requires var full := Fullpath(workdir, req.podUUID, req.volumeId);
             && full != [] && Fits(env.undo, MkdirAll(w.tree, full), full)
             && var tree1 := PublishVolume(workdir, w, req, env).0.tree;
                Fits(env'.undo, MkdirAll(tree1, full), full)
    ensures var vol := NewVolume(workdir, req.podUUID, req.volumeId);
            var (w1, r1) := PublishVolume(workdir, w, req, env);
            var (w2, r2) := PublishVolume(workdir, w1, req, env');
            && (w2 == w1 <==>
                  && (ErasesDirectory(req, env) <==> ErasesDirectory(req, env'))
                  && (req.capability.mount && env'.mount.MountFailed? && env'.undo.Partly? ==>
                        env'.undo.left == w1.tree)
                  && (Persists(req, env') ==> Persists(req, env) || Durable(w, req.volumeId, vol)))
            && (Durable(w2, req.volumeId, vol) <==>
                  Durable(w, req.volumeId, vol) || Persists(req, env) || Persists(req, env'))
            && (r1 == r2 <==> (req.capability.mount ==> (env.mount.Fine() <==> env'.mount.Fine())))
            && (r2.Succeeded? <==> req.capability.mount && env'.mount.Fine())
  {
    var vol := NewVolume(workdir, req.podUUID, req.volumeId);
    var w1 := PublishVolume(workdir, w, req, env).0;
    TreeAfterSecondPublish(workdir, w, req, env, env');
    WhatPublishEnters(workdir, w, req, env);
    WhatPublishEnters(workdir, w1, req, env');
    WhatPublishSpares(workdir, w, req, env);
    WhatPublishSpares(workdir, w1, req, env');
    WhatPublishPersists(workdir, w, req, env);
    WhatPublishPersists(workdir, w1, req, env');
    WhatPublishAnswers(workdir, w, req, env);
    WhatPublishAnswers(workdir, w1, req, env');
    AgainSame(w.vols, req.volumeId, vol);
    StaysSameIff(w1.volDb, req.volumeId, vol);
  }

  lemma StaysSameIff<T>(m: map<string, T>, id: string, value: T)
    ensures m[id := value] == m <==> id in m && m[id] == value
  {
  }

  /* ---------- unpublish ---------- */

  /** What an unpublish answers, for every request and every record. */
  lemma {:induction false} WhatUnpublishAnswers(
      workdir: Path, lifespan: int, w: World, id: string, targetPath: string, env: UnpublishEnv)
    ensures var (w', r) := UnpublishVolume(workdir, lifespan, w, id, targetPath, env);
            var malformed := id == "" || targetPath == "";
            var block := id in w.vols && w.vols[id].accessType.BlockAccess?;
            var down := env.unmount.TargetMissing? || env.unmount.NotMounted? || env.unmount.Unmounted?;
            && (r.InvalidArgument? <==> malformed)
            && (r.Internal? <==> !malformed && !down)
            && (r.Unsupported? <==> !malformed && down && block)
            && (r.Succeeded? <==> !malformed && down && !block)
            && (malformed ==> w' == w)
  {
  }

  /** What an unpublish queues: unless the id is queued already, an entry with the time of the call, the configured
      lifespan and the path of the pod on record goes into bucket and map, or into neither; the tree stays. */
  lemma {:induction false} WhatUnpublishQueues(
      workdir: Path, lifespan: int, w: World, id: string, targetPath: string, env: UnpublishEnv)
    requires id != "" && targetPath != ""
    ensures var w' := UnpublishVolume(workdir, lifespan, w, id, targetPath, env).0;
            var c := Candidate(env.now, lifespan,
                               Fullpath(workdir, if id in w.vols then w.vols[id].podUUID else "", id));
            if id !in w.cands && env.putOk
            then w'.delDb == w.delDb[id := c] && w'.cands == w.cands[id := c] && w'.tree == w.tree
            else w'.delDb == w.delDb && w'.cands == w.cands && w'.tree == w.tree
  {
  }

  /** What an unpublish forgets: if it succeeds the record leaves memory, and the bucket unless that fails. */
  lemma {:induction false} WhatUnpublishForgets(
      workdir: Path, lifespan: int, w: World, id: string, targetPath: string, env: UnpublishEnv)
    ensures var (w', r) := UnpublishVolume(workdir, lifespan, w, id, targetPath, env);
            && w'.vols == (if r.Succeeded? then w.vols - {id} else w.vols)
            && w'.volDb == (if r.Succeeded? && env.forgetOk then w.volDb - {id} else w.volDb)
  {
  }

  /** After an unpublish of a published volume, its directory is still on record exactly if the queue put
      succeeded, or the handler stopped at the unmount, or the delete from the index failed. */
  lemma {:induction false} UnpublishKeepsTrack(
      workdir: Path, lifespan: int, w: World, podUUID: string, id: string, targetPath: string, env: UnpublishEnv)
    requires Published(workdir, w, podUUID, id) && id != "" && targetPath != ""
    ensures Recorded(UnpublishVolume(workdir, lifespan, w, id, targetPath, env).0, id,
                     Fullpath(workdir, podUUID, id))
       <==> env.putOk || !env.unmount.Fine() || !env.forgetOk
  {
  }

  /** The path an unpublish queues is the published one exactly if the volume is still in the in-memory index. */
  lemma {:induction false} QueuedPathIsRight(
      workdir: Path, lifespan: int, w: World, podUUID: string, id: string, targetPath: string, env: UnpublishEnv)
    requires Component(podUUID) && Component(id) && targetPath != ""
    requires id in w.vols ==> w.vols[id] == NewVolume(workdir, podUUID, id)
    requires id !in w.cands && env.putOk
    ensures var w' := UnpublishVolume(workdir, lifespan, w, id, targetPath, env).0;
            && id in w'.delDb && id in w'.cands && w'.delDb[id] == w'.cands[id]
            && (w'.delDb[id].path == Fullpath(workdir, podUUID, id) <==> id in w.vols)
  {
    FullpathOfComponents(workdir, podUUID, id);
    FullpathOfComponents(workdir, "", id);
    assert |workdir + [podUUID, id]| != |workdir + [id]|;
  }

  lemma ForgetTwice(w: World, id: string, forgetOk: bool)
    ensures Forget(Forget(w, id, true), id, forgetOk) == Forget(w, id, true)
  {
    assert Without(Without(w.volDb, id), id) == Without(w.volDb, id);
    assert Without(Without(w.vols, id), id) == Without(w.vols, id);
  }

  /** An unpublish of a queued volume does not touch the queue or the tree. */
  lemma QueuedStaysQueued(workdir: Path, lifespan: int, w: World, id: string, targetPath: string, env: UnpublishEnv)
    requires id in w.cands
    ensures var w' := UnpublishVolume(workdir, lifespan, w, id, targetPath, env).0;
            w'.cands == w.cands && w'.delDb == w.delDb && w'.tree == w.tree
            && (w' == w || w' == Forget(w, id, env.forgetOk))
  {
  }

  /** Repeating an unpublish cannot extend the volume's life, and changes nothing once it has succeeded. */
  lemma {:induction false} UnpublishTwice(
      workdir: Path, lifespan: int, w: World, id: string, targetPath: string, env: UnpublishEnv,
      lifespan': int, env': UnpublishEnv)
    requires env.putOk && id != "" && targetPath != ""
    ensures var (w1, response) := UnpublishVolume(workdir, lifespan, w, id, targetPath, env);
            var (w2, _) := UnpublishVolume(workdir, lifespan', w1, id, targetPath, env');
            && w2.cands == w1.cands && w2.delDb == w1.delDb && w2.tree == w1.tree
            && (response.Succeeded? && env.forgetOk ==> w2 == w1)
  {
    var w1 := UnpublishVolume(workdir, lifespan, w, id, targetPath, env).0;
    QueuedStaysQueued(workdir, lifespan', w1, id, targetPath, env');
    ForgetTwice(Queue(w, id, Asked(workdir, w, id, env.now, lifespan), true), id, env'.forgetOk);
  }

  /* ---------- a whole life ---------- */

  lemma FreshSubtree(tree: set<Path>, after: set<Path>, full: Path)
    requires Closed(tree) && full !in tree && full != [] && Dir(full) != [] && Dir(Dir(full)) in tree
    requires ChangedBelow(MkdirAll(tree, full), after, full)
    ensures RemoveAll(after, full) == tree + {Dir(full)}
  {
    forall q ensures q in RemoveAll(after, full) <==> q in tree + {Dir(full)} {
      if full <= q {
        NothingBelowMissing(tree, full, q);
        assert !(full <= Dir(full));
      } else {
        AncestorsExist(tree, Dir(Dir(full)), q);
        assert q in MkdirAll({}, full) ==> q <= full;
        assert q <= full && q != full && q != Dir(full) ==> q <= Dir(Dir(full));
      }
    }
  }

  lemma AncestorsExist(tree: set<Path>, p: Path, q: Path)
    requires Closed(tree) && p in tree
    ensures q <= p ==> q in tree
    decreases |p|
  {
    if q <= p && q != p {
      PrefixOfParent(q, p);
      AncestorsExist(tree, Dir(p), q);
    }
  }

  /** Published, written to by its pod, unpublished and evicted, a volume leaves no trace: every map, bucket and
      directory is as before, exactly unless an empty pod directory had been lying around. */
  lemma {:induction false} WholeLifeLeavesNoTrace(
      rnd: Rounding, workdir: Path, w: World, podUUID: string, id: string, targetPath: string,
      podDirMade: bool, undo: Erasure, after: set<Path>, now: int, lifespan: int, unmount: UnmountOutcome,
      round: Round)
    requires Component(podUUID) && Component(id) && targetPath != "" && unmount.Fine()
    requires Closed(w.tree) && workdir in w.tree && workdir + [podUUID, id] !in w.tree
    requires id !in w.volDb && id !in w.vols && id !in w.delDb && id !in w.cands
    requires ChangedBelow(MkdirAll(w.tree, workdir + [podUUID, id]), after, workdir + [podUUID, id])
    requires Expired(rnd, Candidate(now, lifespan, workdir + [podUUID, id]), round)
    ensures var req := PublishReq(id, targetPath, Capability(false, true), true, podUUID);
            var w1 := PublishVolume(workdir, w, req, PublishEnv(true, podDirMade, Mounted, undo, true)).0;
            var w2 := UnpublishVolume(workdir, lifespan, WithTree(w1, after), id, targetPath,
                                      UnpublishEnv(now, true, unmount, true)).0;
            var w3 := Visit(rnd, w2, id, Candidate(now, lifespan, workdir + [podUUID, id]), round, NO_FAULTS);
            && w1.tree == MkdirAll(w.tree, workdir + [podUUID, id])
            && id in w2.cands && w2.cands[id] == Candidate(now, lifespan, workdir + [podUUID, id])
            && (w3 == w <==> (workdir + [podUUID] in w.tree ==> HasChild(w.tree, workdir + [podUUID])))
  {
    var full, pod := workdir + [podUUID, id], workdir + [podUUID];
    assert full[..|full| - 1] == pod && pod[..|pod| - 1] == workdir && full[..|full|] == full;
    assert full in after;
    LifeUntilEviction(workdir, w, podUUID, id, targetPath, podDirMade, undo, after, now, lifespan, unmount);
    FreshSubtree(w.tree, after, full);
    PodDirRestored(w.tree, pod);
    Cancels(w.delDb, id, Candidate(now, lifespan, full));
    Cancels(w.cands, id, Candidate(now, lifespan, full));
  }

  lemma LifeUntilEviction(
      workdir: Path, w: World, podUUID: string, id: string, targetPath: string, podDirMade: bool, undo: Erasure,
      after: set<Path>, now: int, lifespan: int, unmount: UnmountOutcome)
    requires Component(podUUID) && Component(id) && targetPath != "" && unmount.Fine()
    requires id !in w.volDb && id !in w.vols && id !in w.cands
    ensures var req := PublishReq(id, targetPath, Capability(false, true), true, podUUID);
            var w1 := PublishVolume(workdir, w, req, PublishEnv(true, podDirMade, Mounted, undo, true)).0;
            var w2 := UnpublishVolume(workdir, lifespan, WithTree(w1, after), id, targetPath,
                                      UnpublishEnv(now, true, unmount, true)).0;
            var c := Candidate(now, lifespan, workdir + [podUUID, id]);
            && w1.tree == MkdirAll(w.tree, workdir + [podUUID, id])
            && w2 == World(after, w.volDb, w.delDb[id := c], w.vols, w.cands[id := c])
  {
    FullpathOfComponents(workdir, podUUID, id);
    Cancels(w.volDb, id, NewVolume(workdir, podUUID, id));
    Cancels(w.vols, id, NewVolume(workdir, podUUID, id));
  }

  lemma Cancels<T>(m: map<string, T>, id: string, value: T)
    requires id !in m
    ensures Without(m[id := value], id) == m
  {
  }

  lemma PodDirRestored(tree: set<Path>, pod: Path)
    requires Closed(tree) && Dir(pod) != pod
    ensures RemoveDir(tree + {pod}, pod) == tree <==> (pod in tree ==> HasChild(tree, pod))
  {
    if HasChild(tree + {pod}, pod) {
      var q :| q in tree + {pod} && q != [] && Dir(q) == pod;
      assert q in tree;
      assert tree + {pod} == tree;
    } else {
      assert !HasChild(tree, pod);
    }
  }
}
