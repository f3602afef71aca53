/** The records katbox keeps and the four places it keeps them in. */
module Model {
  import opened Paths
  import opened Pressure

  datatype AccessType = MountAccess | BlockAccess

  datatype Volume = Volume(
    name: string, id: string, podUUID: string, size: int, path: Path,
    accessType: AccessType, parentVolID: string, ephemeral: bool)

  const TIB := 1024 * 1024 * 1024 * 1024
  const DB_FILE := "deletedVolumes.db"

  /** What `volumeByID` hands out for an unknown id. */
  const ZERO_VOLUME := Volume("", "", "", 0, [], MountAccess, "", false)

  /** The record of a freshly created ephemeral volume. */
  function NewVolume(workdir: Path, podUUID: string, id: string): Volume
  {
    Volume("ephemeral-" + id, id, podUUID, TIB, Fullpath(workdir, podUUID, id), MountAccess, "", true)
  }

  /** A deletion queue entry; times and durations are in nanoseconds. */
  datatype Candidate = Candidate(time: int, lifespan: int, path: Path)

  /** `tree`, `volDb` and `delDb` survive a crash; `vols` and `cands` are rebuilt from the buckets. */
  datatype World = World(
    tree: set<Path>,
    volDb: map<string, Volume>,
    delDb: map<string, Candidate>,
    vols: map<string, Volume>,
    cands: map<string, Candidate>)

  /** The clock reading and the pressure factor of one prune round. */
  datatype Round = Round(now: int, factor: real)

  /** The candidate's deadline lies strictly before the round's clock reading. */
  predicate Expired(rnd: Rounding, c: Candidate, round: Round)
  {
    round.now > c.time + Scaled(rnd, c.lifespan, round.factor)
  }

  function Lookup(vols: map<string, Volume>, id: string): Volume
  {
    if id in vols then vols[id] else ZERO_VOLUME
  }

  /** The access type a publish asks for, and how its bind mount turns out. */
  datatype Kind = BlockKind | MountKind | NoKind

  datatype MountOutcome = CheckFailed | AlreadyMounted | MountFailed | Mounted
  {
    predicate Fine() { AlreadyMounted? || Mounted? }
  }

  /** How a call of `os.RemoveAll` ends: with everything gone, or with part of it left and the root in place. */
  datatype Erasure = Erased | Partly(left: set<Path>)

  function Erase(tree: set<Path>, p: Path, e: Erasure): set<Path>
  {
    if e.Erased? then RemoveAll(tree, p) else e.left
  }

  ghost predicate Fits(e: Erasure, tree: set<Path>, p: Path)
  {
    e.Partly? ==> e.left <= tree && ChangedBelow(tree, e.left, p)
  }

  function Without<T>(m: map<string, T>, id: string): map<string, T>
  {
    m - {id}
  }

  /** Both maps hold the same entry for `id`, or neither holds one. */
  predicate Same<T(==)>(m0: map<string, T>, m1: map<string, T>, id: string)
  {
    (id in m0 <==> id in m1) && (id in m0 && id in m1 ==> m0[id] == m1[id])
  }

  /* ---------- updates of one place ---------- */

  function WithTree(w: World, tree: set<Path>): World
  {
    World(tree, w.volDb, w.delDb, w.vols, w.cands)
  }

  function WithVolDb(w: World, volDb: map<string, Volume>): World
  {
    World(w.tree, volDb, w.delDb, w.vols, w.cands)
  }

  function WithDelDb(w: World, delDb: map<string, Candidate>): World
  {
    World(w.tree, w.volDb, delDb, w.vols, w.cands)
  }

  function WithVols(w: World, vols: map<string, Volume>): World
  {
    World(w.tree, w.volDb, w.delDb, vols, w.cands)
  }

  function WithCands(w: World, cands: map<string, Candidate>): World
  {
    World(w.tree, w.volDb, w.delDb, w.vols, cands)
  }

  /** What `NewNode` starts with after a crash: the maps are what the buckets hold. */
  function Reload(w: World): World
  {
    w.(vols := w.volDb, cands := w.delDb)
  }
}
