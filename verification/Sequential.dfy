/** What each operation does when nothing interleaves with it, as a function of the world and of how the
    file system, bolt and the mounter respond. */
module Sequential {
  import opened Paths
  import opened Pressure
  import opened Model

  /* ---------- the deletion queue ---------- */

  function Queue(w: World, id: string, c: Candidate, putOk: bool): World
  {
    if id in w.cands || !putOk then w
    else WithCands(WithDelDb(w, w.delDb[id := c]), w.cands[id := c])
  }

  function Remove(w: World, id: string, dropOk: bool): World
  {
    if !dropOk then w
    else WithCands(WithDelDb(w, Without(w.delDb, id)), Without(w.cands, id))
  }

  /* ---------- one prune round ---------- */

  datatype Faults = Faults(statFails: bool, drop1Ok: bool, erasure: Erasure, parentOk: bool, drop2Ok: bool)

  const NO_FAULTS := Faults(false, true, Erased, true, true)

  /** The pruner's treatment of one snapshot entry. A missing path takes the entry out of the queue, and the
      deadline is judged all the same. */
  function Visit(rnd: Rounding, w: World, id: string, c: Candidate, round: Round, f: Faults): World
  {
    var missing := !f.statFails && c.path !in w.tree;
    var w1 := if missing then Remove(w, id, f.drop1Ok) else w;
    if !Expired(rnd, c, round) then w1
    else Evict(w1, id, c, f)
  }

  function Evict(w: World, id: string, c: Candidate, f: Faults): World
  {
    var w1 := WithTree(w, Erase(w.tree, c.path, f.erasure));
    if f.erasure.Partly? then w1
    else
      var w2 := if f.parentOk then WithTree(w1, RemoveDir(w1.tree, Dir(c.path))) else w1;
      Remove(w2, id, f.drop2Ok)
  }

  /** A round over the snapshot `todo`, in the order the map iteration happens to take. */
  function Sweep(rnd: Rounding, w: World, todo: map<string, Candidate>, order: seq<string>, round: Round,
                 faults: string -> Faults): World
    requires forall id :: id in order ==> id in todo
  {
    if order == [] then w
    else
      var n := |order| - 1;
      var id := order[n];
      Visit(rnd, Sweep(rnd, w, todo, order[..n], round, faults), id, todo[id], round, faults(id))
  }

  lemma SweepNext(rnd: Rounding, w: World, todo: map<string, Candidate>, order: seq<string>, id: string, round: Round,
                  faults: string -> Faults)
    requires id in todo && forall other :: other in order ==> other in todo
    ensures Sweep(rnd, w, todo, order + [id], round, faults)
         == Visit(rnd, Sweep(rnd, w, todo, order, round, faults), id, todo[id], round, faults(id))
  {
    assert (order + [id])[..|order|] == order;
  }

  /** `order` lists each key exactly once. */
  ghost predicate Enumerates(order: seq<string>, keys: set<string>)
  {
    && (forall id :: id in order <==> id in keys)
    && (forall i, j :: 0 <= i < j < |order| ==> order[i] != order[j])
  }

  /* ---------- publish ---------- */

  datatype Response = Succeeded | InvalidArgument | Internal | Unsupported

  datatype Capability = Missing | Capability(block: bool, mount: bool)

  datatype PublishReq = PublishReq(
    volumeId: string, targetPath: string, capability: Capability, ephemeral: bool, podUUID: string)

  datatype PublishEnv = PublishEnv(
    mkdirOk: bool, podDirMade: bool, mount: MountOutcome, undo: Erasure, persistOk: bool)

  /** How the system calls behind the creation of a volume turn out: the directory of a mount volume, or the file
      of a block volume and the loop device attached to it. */
  datatype CreateEnv = CreateEnv(
    mkdirOk: bool, podDirMade: bool, fileMade: bool, fileFilled: bool, attached: bool, fileRemoved: bool)

  predicate Acceptable(req: PublishReq)
  {
    && req.capability.Capability?
    && req.volumeId != "" && req.targetPath != ""
    && req.ephemeral
    && !(req.capability.block && req.capability.mount)
  }

  function KindOf(cap: Capability): Kind
    requires cap.Capability?
  {
    if cap.block then BlockKind else if cap.mount then MountKind else NoKind
  }

  /** A rejected kind, a failed mount check and an existing mount all leave the directory and the record behind,
      unpersisted; a failed mount erases the directory but keeps the record. */
  function PublishVolume(workdir: Path, w: World, req: PublishReq, env: PublishEnv): (World, Response)
  {
    var id := req.volumeId;
    var full := Fullpath(workdir, req.podUUID, id);
    if !Acceptable(req) then (w, InvalidArgument)
    else if !env.mkdirOk then
      (if env.podDirMade then WithTree(w, MkdirAll(w.tree, Dir(full))) else w, Internal)
    else
      var vol := NewVolume(workdir, req.podUUID, id);
      var w1 := WithVols(WithTree(w, MkdirAll(w.tree, full)), w.vols[id := vol]);
      if !KindOf(req.capability).MountKind? then (w1, InvalidArgument)
      else
        match env.mount
        case CheckFailed => (w1, Internal)
        case AlreadyMounted => (w1, Succeeded)
        case MountFailed => (WithTree(w1, Erase(w1.tree, full, env.undo)), Internal)
        case Mounted => (if env.persistOk then WithVolDb(w1, w1.volDb[id := vol]) else w1, Succeeded)
  }

  /* ---------- unpublish ---------- */

  datatype UnmountOutcome = CheckError | TargetMissing | NotMounted | UnmountError | Unmounted
  {
    predicate Fine() { TargetMissing? || NotMounted? || Unmounted? }
  }

  datatype UnpublishEnv = UnpublishEnv(now: int, putOk: bool, unmount: UnmountOutcome, forgetOk: bool)

  function Asked(workdir: Path, w: World, id: string, now: int, lifespan: int): Candidate
  {
    Candidate(now, lifespan, Fullpath(workdir, Lookup(w.vols, id).podUUID, id))
  }

  /** The queue entry is made before the unmount, and a failed put does not stop the rest. */
  function UnpublishVolume(workdir: Path, lifespan: int, w: World, id: string, targetPath: string, env: UnpublishEnv)
    : (World, Response)
  {
    if id == "" || targetPath == "" then (w, InvalidArgument)
    else
      var w1 := Queue(w, id, Asked(workdir, w, id, env.now, lifespan), env.putOk);
      if !env.unmount.Fine() then (w1, Internal)
      else if Lookup(w.vols, id).accessType.BlockAccess? then (w1, Unsupported)
      else (Forget(w1, id, env.forgetOk), Succeeded)
  }

  function Forget(w: World, id: string, forgetOk: bool): World
  {
    var w1 := if forgetOk then WithVolDb(w, Without(w.volDb, id)) else w;
    WithVols(w1, Without(w1.vols, id))
  }
}
