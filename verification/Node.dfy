/** The node as it is written: objects whose methods update their fields. Responses of the file system, bolt and
    the mounter are parameters; each method is proved to do what the functions of Sequential say. */
module Node {
  import opened Paths
  import opened Pressure
  import opened Model
  import S = Sequential

  /** The file system below the working directory. */
  class Disk {
    var nodes: set<Path>

    constructor (nodes: set<Path>)
      ensures this.nodes == nodes
    {
      this.nodes := nodes;
    }

    method MakeDirs(p: Path, ok: bool, parentMade: bool) returns (failed: bool)
      modifies this
      ensures failed == !ok
      ensures nodes == if ok then MkdirAll(old(nodes), p)
                       else if parentMade then MkdirAll(old(nodes), Dir(p))
                       else old(nodes)
    {
      if ok {
        nodes := MkdirAll(nodes, p);
      } else if parentMade {
        nodes := MkdirAll(nodes, Dir(p));
      }
      failed := !ok;
    }

    /** Whether the path is reported as not existing. */
    method Stat(p: Path, fails: bool) returns (missing: bool)
      ensures missing <==> !fails && p !in nodes
    {
      missing := !fails && p !in nodes;
    }

    method EraseAll(p: Path, erasure: Erasure) returns (failed: bool)
      modifies this
      ensures failed == erasure.Partly?
      ensures nodes == Erase(old(nodes), p, erasure)
    {
      nodes := Erase(nodes, p, erasure);
      failed := erasure.Partly?;
    }

    /** `fallocate`, which may leave the file behind when it fails. */
    method Allocate(p: Path, made: bool, ok: bool) returns (failed: bool)
      modifies this
      ensures nodes == if made && Dir(p) in old(nodes) then old(nodes) + {p} else old(nodes)
      ensures failed <==> !(ok && p in nodes)
    {
      if made && Dir(p) in nodes {
        nodes := nodes + {p};
      }
      failed := !(ok && p in nodes);
    }

    /** `os.Remove`, whose error the callers ignore. */
    method RemoveEmpty(dir: Path, ok: bool)
      modifies this
      ensures nodes == if ok then RemoveDir(old(nodes), dir) else old(nodes)
    {
      if ok && !HasChild(nodes, dir) {
        nodes := nodes - {dir};
      }
    }
  }

  /** The database with its two buckets. A transaction commits or has no effect. */
  class Bolt {
    var volumes: map<string, Volume>
    var deleted: map<string, Candidate>

    constructor ()
      ensures volumes == map[] && deleted == map[]
    {
      volumes, deleted := map[], map[];
    }

    method PutDeleted(id: string, c: Candidate, ok: bool) returns (failed: bool)
      modifies this`deleted
      ensures failed == !ok && deleted == if ok then old(deleted)[id := c] else old(deleted)
    {
      if ok { deleted := deleted[id := c]; }
      failed := !ok;
    }

    method DeleteDeleted(id: string, ok: bool) returns (failed: bool)
      modifies this`deleted
      ensures failed == !ok && deleted == if ok then Without(old(deleted), id) else old(deleted)
    {
      if ok { deleted := Without(deleted, id); }
      failed := !ok;
    }

    method PutVolume(id: string, vol: Volume, ok: bool) returns (failed: bool)
      modifies this`volumes
      ensures failed == !ok && volumes == if ok then old(volumes)[id := vol] else old(volumes)
    {
      if ok { volumes := volumes[id := vol]; }
      failed := !ok;
    }

    method DeleteVolume(id: string, ok: bool) returns (failed: bool)
      modifies this`volumes
      ensures failed == !ok && volumes == if ok then Without(old(volumes), id) else old(volumes)
    {
      if ok { volumes := Without(volumes, id); }
      failed := !ok;
    }
  }

  /** A loop that copies a map entry by entry, as the map ranges and the bucket cursors do. */
  method CopyEntries<T>(source: map<string, T>) returns (copy: map<string, T>)
    ensures copy == source
  {
    copy := map[];
    var rest := source.Keys;
    while rest != {}
      invariant rest <= source.Keys
      invariant copy == map id | id in source && id !in rest :: source[id]
      decreases |rest|
    {
      var id :| id in rest;
      copy := copy[id := source[id]];
      rest := rest - {id};
    }
  }

  /* ---------- the deletion queue ---------- */

  class DeletedVolumes {
    var candidates: map<string, Candidate>
    const storage: Bolt

    constructor (candidates: map<string, Candidate>, storage: Bolt)
      ensures this.candidates == candidates && this.storage == storage
    {
      this.candidates := candidates;
      this.storage := storage;
    }

    /** The world this queue is part of. */
    ghost function Within(disk: Disk, vols: map<string, Volume>): World
      reads this, storage, disk
    {
      World(disk.nodes, storage.volumes, storage.deleted, vols, candidates)
    }

    method Queue(id: string, vol: Candidate, putOk: bool, ghost disk: Disk, ghost vols: map<string, Volume>)
      modifies this, storage`deleted
      ensures Within(disk, vols) == S.Queue(old(Within(disk, vols)), id, vol, putOk)
    {
      // Already queued: the first entry keeps its time.
      if id in candidates { return; }
      // Write ahead: bucket first, map second.
      var failed := storage.PutDeleted(id, vol, putOk);
      if failed { return; }
      candidates := candidates[id := vol];
    }

    method Remove(id: string, dropOk: bool, ghost disk: Disk, ghost vols: map<string, Volume>)
      modifies this, storage`deleted
      ensures Within(disk, vols) == S.Remove(old(Within(disk, vols)), id, dropOk)
    {
      var failed := storage.DeleteDeleted(id, dropOk);
      if failed { return; }
      candidates := Without(candidates, id);
    }

    /** One round; `order` records the order the iteration took. */
    method Prune(
        disk: Disk, now: int, total: nat, free: nat, headroom: real, rnd: Rounding, faults: string -> S.Faults,
        ghost vols: map<string, Volume>) returns (ghost order: seq<string>)
      modifies this, storage`deleted, disk
      ensures S.Enumerates(order, old(candidates).Keys)
      ensures Within(disk, vols) == S.Sweep(rnd, old(Within(disk, vols)), old(candidates), order,
                                            Round(now, RoundFactor(rnd, total, free, headroom)), faults)
    {
      var round := Round(now, rnd(0.1));
      match PressureFactor(rnd, total, free, headroom) {
        case Ok(factor) => round := Round(now, factor);
        case HeadroomOutOfRange =>
      }
      var snapshot := CopyEntries(candidates);
      var todo := snapshot;
      order := [];
      while todo != map[]
        invariant snapshot == old(candidates)
        invariant forall id :: id in order <==> id in snapshot && id !in todo
        invariant forall i, j :: 0 <= i < j < |order| ==> order[i] != order[j]
        invariant forall id :: id in todo ==> id in snapshot && todo[id] == snapshot[id]
        invariant Within(disk, vols) == S.Sweep(rnd, old(Within(disk, vols)), snapshot, order, round, faults)
        decreases |todo.Keys|
      {
        var id :| id in todo;
        var vol := todo[id];
        todo := Without(todo, id);
        S.SweepNext(rnd, old(Within(disk, vols)), snapshot, order, id, round, faults);
        VisitEntry(disk, id, vol, round, rnd, faults(id), vols);
        order := order + [id];
      }
    }

    method VisitEntry(
        disk: Disk, id: string, vol: Candidate, round: Round, rnd: Rounding, f: S.Faults,
        ghost vols: map<string, Volume>)
      modifies this, storage`deleted, disk
      ensures Within(disk, vols) == S.Visit(rnd, old(Within(disk, vols)), id, vol, round, f)
    {
      var missing := disk.Stat(vol.path, f.statFails);
      if missing {
        Remove(id, f.drop1Ok, disk, vols);
      }
      if Expired(rnd, vol, round) {
        var failed := disk.EraseAll(vol.path, f.erasure);
        if failed { return; }
        disk.RemoveEmpty(Dir(vol.path), f.parentOk);
        Remove(id, f.drop2Ok, disk, vols);
      }
    }
  }

  /* ---------- the node ---------- */

  class KatboxNode {
    var volumes: map<string, Volume>
    const deletedVolumes: DeletedVolumes
    const workdir: Path
    const afterLifespan: int
    const storage: Bolt
    const disk: Disk

    ghost predicate Valid()
      reads this
    {
      deletedVolumes.storage == storage
    }

    ghost function View(): World
      reads this, storage, disk, deletedVolumes
    {
      World(disk.nodes, storage.volumes, storage.deleted, volumes, deletedVolumes.candidates)
    }

    /** Memory is rebuilt from the buckets. */
    constructor (workdir: Path, afterLifespan: int, storage: Bolt, disk: Disk)
      ensures Valid() && fresh(deletedVolumes)
      ensures this.workdir == workdir && this.afterLifespan == afterLifespan
      ensures this.storage == storage && this.disk == disk
      ensures forall vols, cands ::
                View() == Reload(World(disk.nodes, storage.volumes, storage.deleted, vols, cands))
    {
      var candidates := CopyEntries(storage.deleted);
      var loaded := CopyEntries(storage.volumes);
      this.volumes := loaded;
      this.deletedVolumes := new DeletedVolumes(candidates, storage);
      this.workdir := workdir;
      this.afterLifespan := afterLifespan;
      this.storage := storage;
      this.disk := disk;
    }

    /** A directory, or a file with a loop device on it, and the record in memory; no record if anything fails.
        What a failed call may leave behind is part of a directory's ancestors, or the file itself. */
    method CreateEphemeralVolume(
        volID: string, podUUID: string, name: string, cap: int, accessType: AccessType, env: S.CreateEnv)
      returns (failed: bool, vol: Volume)
      requires Valid()
      modifies this, disk
      ensures var full := Fullpath(workdir, podUUID, volID);
              && (!failed ==> vol == Volume(name, volID, podUUID, cap, full, accessType, "", true))
              && volumes == if failed then old(volumes) else old(volumes)[volID := vol]
      ensures var nodes, full := old(disk.nodes), Fullpath(workdir, podUUID, volID);
              if accessType.MountAccess? then
                && failed == !env.mkdirOk
                && disk.nodes == if env.mkdirOk then MkdirAll(nodes, full)
                                 else if env.podDirMade then MkdirAll(nodes, Dir(full))
                                 else nodes
              else
                && (failed <==> !(env.fileFilled && env.attached
                                  && (full in nodes || (env.fileMade && Dir(full) in nodes))))
                && (!failed ==> full in disk.nodes)
                && disk.nodes - {full} == nodes - {full}
                && (full in disk.nodes && full !in nodes ==> Dir(full) in nodes)
    {
      var full := Fullpath(workdir, podUUID, volID);
      vol := ZERO_VOLUME;
      match accessType {
        case MountAccess =>
          failed := disk.MakeDirs(full, env.mkdirOk, env.podDirMade);
          if failed { return; }
        case BlockAccess =>
          failed := disk.Allocate(full, env.fileMade, env.fileFilled);
          if failed { return; }
          if !env.attached {
            disk.RemoveEmpty(full, env.fileRemoved);
            failed := true;
            return;
          }
      }
      vol := Volume(name, volID, podUUID, cap, full, accessType, "", true);
      volumes := volumes[volID := vol];
    }

    method VolumeByID(id: string) returns (found: bool, vol: Volume)
      ensures found == (id in volumes) && vol == Lookup(volumes, id)
    {
      found := id in volumes;
      vol := Lookup(volumes, id);
    }
  }

  /** There is a node exactly if the database opens and both buckets can be read; its memory is then what the
      buckets hold, whatever it was before. */
  method NewNode(
      workdir: Path, afterLifespan: int, storage: Bolt, disk: Disk, dbOpens: bool, deletedRead: bool, volumesRead: bool)
    returns (node: KatboxNode?)
    ensures node != null <==> dbOpens && deletedRead && volumesRead
    ensures node != null ==>
              && fresh(node) && fresh(node.deletedVolumes) && node.Valid()
              && node.workdir == workdir && node.afterLifespan == afterLifespan
              && node.storage == storage && node.disk == disk
              && forall vols, cands ::
                   node.View() == Reload(World(disk.nodes, storage.volumes, storage.deleted, vols, cands))
  {
    if !dbOpens || !deletedRead || !volumesRead { return null; }
    node := new KatboxNode(workdir, afterLifespan, storage, disk);
  }

  class NodeServer {
    const node: KatboxNode

    constructor (node: KatboxNode)
      ensures this.node == node
    {
      this.node := node;
    }

    method NodePublishVolume(req: S.PublishReq, env: S.PublishEnv) returns (response: S.Response)
      requires node.Valid()
      modifies node, node.storage`volumes, node.disk
      ensures node.Valid()
      ensures (node.View(), response) == S.PublishVolume(node.workdir, old(node.View()), req, env)
    {
      // Check arguments
      if req.capability.Missing? { return S.InvalidArgument; }
      if |req.volumeId| == 0 { return S.InvalidArgument; }
      if |req.targetPath| == 0 { return S.InvalidArgument; }
      if !req.ephemeral { return S.InvalidArgument; }
      if req.capability.block && req.capability.mount { return S.InvalidArgument; }

      var volID := req.volumeId;
      var failed, ephVol :=
        node.CreateEphemeralVolume(volID, req.podUUID, "ephemeral-" + volID, TIB, MountAccess,
                                   S.CreateEnv(env.mkdirOk, env.podDirMade, false, false, false, false));
      if failed { return S.Internal; }
      var _, vol := node.VolumeByID(volID);

      if req.capability.block {
        if !vol.accessType.BlockAccess? { return S.InvalidArgument; }
        assert false;
      } else if req.capability.mount {
        match env.mount {
          case CheckFailed => return S.Internal;
          case AlreadyMounted => return S.Succeeded;
          case MountFailed =>
            var _ := node.disk.EraseAll(Fullpath(node.workdir, req.podUUID, volID), env.undo);
            return S.Internal;
          case Mounted =>
        }
      } else {
        return S.InvalidArgument;
      }

      // The pod UUID is needed again when the volume is deleted.
      var _ := node.storage.PutVolume(volID, ephVol, env.persistOk);
      return S.Succeeded;
    }

    method NodeUnpublishVolume(volumeID: string, targetPath: string, env: S.UnpublishEnv) returns (response: S.Response)
      requires node.Valid()
      modifies node, node.deletedVolumes, node.storage
      ensures node.Valid()
      ensures (node.View(), response)
           == S.UnpublishVolume(node.workdir, node.afterLifespan, old(node.View()), volumeID, targetPath, env)
    {
      if |volumeID| == 0 { return S.InvalidArgument; }
      if |targetPath| == 0 { return S.InvalidArgument; }

      var _, vol := node.VolumeByID(volumeID);
      node.deletedVolumes.Queue(
        volumeID,
        Candidate(env.now, node.afterLifespan, Fullpath(node.workdir, vol.podUUID, volumeID)),
        env.putOk, node.disk, node.volumes);

      match env.unmount {
        case CheckError => return S.Internal;
        case UnmountError => return S.Internal;
        case TargetMissing =>
        case NotMounted =>
        case Unmounted =>
      }
      if vol.accessType.BlockAccess? { return S.Unsupported; }

      var _ := node.storage.DeleteVolume(volumeID, env.forgetOk);
      node.volumes := Without(node.volumes, volumeID);
      return S.Succeeded;
    }
  }
}
