/** The node as a state machine: request handlers, the pruner, the pods and crashes, one atomic step at a time.

    A step is one lock region, one bolt transaction, one file system call or one clock reading. */
module Steps {
  import opened Paths
  import opened Pressure
  import opened Model

  /** `podOf` fixes the pod of each volume id; `rnd` is the float64 rounding. */
  datatype Config = Config(workdir: Path, ids: iset<string>, podOf: string -> string, rnd: Rounding)

  /** Where a request handler is: the step it takes next. */
  datatype Rpc =
    | Making(kind: Kind)
    | Recording(kind: Kind)
    | Mounting(kind: Kind)
    | Undoing
    | Persisting
    | Checking(vol: Volume, c: Candidate)
    | Putting(vol: Volume, c: Candidate)
    | Inserting(vol: Volume, c: Candidate)
    | Unmounting(vol: Volume)
    | ForgettingDb
    | ForgettingMem
  {
    predicate Publish?() { Making? || Recording? || Mounting? || Undoing? || Persisting? }
  }

  /** Where the pruner is within a visit: the step it takes next. */
  datatype Stage = Drop1 | Unmap1 | Judge | Parent | Drop2 | Unmap2

  datatype Pruner =
    | Idle
    | Clocked(now: int)
    | Sweeping(round: Round, todo: map<string, Candidate>)
    | Visiting(round: Round, todo: map<string, Candidate>, id: string, c: Candidate, stage: Stage)

  /** What has happened so far; no step reads it. */
  datatype History = History(
    stored: set<string>,              // publish reached its durable put
    retired: set<string>,             // an unpublish was requested
    due: map<string, Candidate>,      // the first durable queue entry
    gone: set<string>)                // that entry has been deleted

  datatype State = State(
    w: World,
    rpcs: map<string, Rpc>,
    pruner: Pruner,
    lifespan: nat,
    clock: int,
    hist: History)

  datatype PublishAct =
    | PublishRequest(kind: Kind)
    | Mkdir(ok: bool, podDirMade: bool)
    | Record
    | Mount(outcome: MountOutcome)
    | Undo(erasure: Erasure)
    | Persist(ok: bool)

  datatype UnpublishAct =
    | UnpublishRequest
    | Check
    | Put(ok: bool)
    | Insert
    | Unmount(ok: bool)
    | ForgetDb(ok: bool)
    | ForgetMem

  datatype PruneAct =
    | ReadClock
    | Snapshot(total: nat, free: nat, headroom: real)
    | BeginVisit(id: string, statFails: bool)
    | Drop(ok: bool)
    | Unmap
    | Spare
    | EraseVolume(erasure: Erasure)
    | RemoveParent(ok: bool)
    | EndRound

  datatype EnvAct =
    | Tick(dt: nat)
    | PodWrites(id: string, after: set<Path>)
    | Restart(lifespan: nat)

  datatype Action =
    | Publish(id: string, pub: PublishAct)
    | Unpublish(id: string, unp: UnpublishAct)
    | Prune(prune: PruneAct)
    | Env(env: EnvAct)

  /* ---------- names ---------- */

  function Full(cfg: Config, id: string): Path
  {
    Fullpath(cfg.workdir, cfg.podOf(id), id)
  }

  function VolumeOf(cfg: Config, id: string): Volume
  {
    NewVolume(cfg.workdir, cfg.podOf(id), id)
  }

  /** Ids and pod UUIDs are components, disjoint from one another and from the bolt file. */
  ghost predicate GoodNames(cfg: Config)
  {
    forall id :: id in cfg.ids ==>
      && Component(id) && Component(cfg.podOf(id))
      && id != DB_FILE && cfg.podOf(id) != DB_FILE
      && forall other :: other in cfg.ids ==> id != cfg.podOf(other)
  }

  /* ---------- request handlers ---------- */

  ghost predicate EnabledPublish(cfg: Config, s: State, id: string, a: PublishAct)
  {
    if a.PublishRequest? then id in cfg.ids && id !in s.rpcs
    else
      && id in s.rpcs
      && match a
         case PublishRequest(_) => false
         case Mkdir(_, _) => s.rpcs[id].Making?
         case Record => s.rpcs[id].Recording?
         case Mount(_) => s.rpcs[id].Mounting?
         case Undo(e) => s.rpcs[id].Undoing? && Fits(e, s.w.tree, Full(cfg, id))
         case Persist(_) => s.rpcs[id].Persisting?
  }

  ghost predicate EnabledUnpublish(cfg: Config, s: State, id: string, a: UnpublishAct)
  {
    if a.UnpublishRequest? then id in cfg.ids && id !in s.rpcs
    else
      && id in s.rpcs
      && match a
         case UnpublishRequest => false
         case Check => s.rpcs[id].Checking?
         case Put(_) => s.rpcs[id].Putting?
         case Insert => s.rpcs[id].Inserting?
         case Unmount(_) => s.rpcs[id].Unmounting?
         case ForgetDb(_) => s.rpcs[id].ForgettingDb?
         case ForgetMem => s.rpcs[id].ForgettingMem?
  }

  /** The handler of `id` moves on to `rpc`, leaving the world `w` behind. */
  function At(s: State, w: World, h: History, id: string, rpc: Rpc): State
  {
    State(w, s.rpcs[id := rpc], s.pruner, s.lifespan, s.clock, h)
  }

  /** The handler of `id` returns. */
  function Done(s: State, w: World, h: History, id: string): State
  {
    State(w, Without(s.rpcs, id), s.pruner, s.lifespan, s.clock, h)
  }

  ghost function ApplyPublish(cfg: Config, s: State, id: string, a: PublishAct): State
    requires EnabledPublish(cfg, s, id, a)
  {
    var w, h := s.w, s.hist;
    match a
    case PublishRequest(kind) => At(s, w, h, id, Making(kind))
    case Mkdir(ok, podDirMade) =>
      if ok then At(s, WithTree(w, MkdirAll(w.tree, Full(cfg, id))), h, id, Recording(s.rpcs[id].kind))
      else Done(s, if podDirMade then WithTree(w, MkdirAll(w.tree, Dir(Full(cfg, id)))) else w, h, id)
    case Record => At(s, WithVols(w, w.vols[id := VolumeOf(cfg, id)]), h, id, Mounting(s.rpcs[id].kind))
    case Mount(outcome) =>
      if !s.rpcs[id].kind.MountKind? then Done(s, w, h, id)
      else if outcome.Mounted? then At(s, w, h, id, Persisting)
      else if outcome.MountFailed? then At(s, w, h, id, Undoing)
      else Done(s, w, h, id)
    case Undo(e) => Done(s, WithTree(w, Erase(w.tree, Full(cfg, id), e)), h, id)
    case Persist(ok) =>
      if ok then Done(s, WithVolDb(w, w.volDb[id := VolumeOf(cfg, id)]), h.(stored := h.stored + {id}), id)
      else Done(s, w, h, id)
  }

  ghost function ApplyUnpublish(cfg: Config, s: State, id: string, a: UnpublishAct): State
    requires EnabledUnpublish(cfg, s, id, a)
  {
    var w, h := s.w, s.hist;
    match a
    case UnpublishRequest =>
      At(s, w, h.(retired := h.retired + {id}), id, Checking(Lookup(w.vols, id), Request(cfg, s, id)))
    case Check =>
      if id in w.cands then At(s, w, h, id, Unmounting(s.rpcs[id].vol))
      else At(s, w, h, id, Putting(s.rpcs[id].vol, s.rpcs[id].c))
    case Put(ok) =>
      var Putting(vol, c) := s.rpcs[id];
      if ok then
        var due := if id in h.due then h.due else h.due[id := c];
        At(s, WithDelDb(w, w.delDb[id := c]), h.(due := due), id, Inserting(vol, c))
      else At(s, w, h, id, Unmounting(vol))
    case Insert => At(s, WithCands(w, w.cands[id := s.rpcs[id].c]), h, id, Unmounting(s.rpcs[id].vol))
    case Unmount(ok) =>
      if ok && s.rpcs[id].vol.accessType.MountAccess? then At(s, w, h, id, ForgettingDb) else Done(s, w, h, id)
    case ForgetDb(ok) =>
      At(s, if ok then WithVolDb(w, Without(w.volDb, id)) else w, h, id, ForgettingMem)
    case ForgetMem => Done(s, WithVols(w, Without(w.vols, id)), h, id)
  }

  /** The queue entry an unpublish of `id` asks for when it is requested in `s`. */
  function Request(cfg: Config, s: State, id: string): Candidate
  {
    Candidate(s.clock, s.lifespan, Fullpath(cfg.workdir, Lookup(s.w.vols, id).podUUID, id))
  }

  /* ---------- the pruner ---------- */

  ghost predicate EnabledPrune(cfg: Config, s: State, a: PruneAct)
  {
    var p := s.pruner;
    match a
    case ReadClock => p.Idle?
    case Snapshot(_, _, _) => p.Clocked?
    case BeginVisit(id, _) => p.Sweeping? && id in p.todo
    case Drop(_) => p.Visiting? && (p.stage.Drop1? || p.stage.Drop2?)
    case Unmap => p.Visiting? && (p.stage.Unmap1? || p.stage.Unmap2?)
    case Spare => p.Visiting? && p.stage.Judge? && !Expired(cfg.rnd, p.c, p.round)
    case EraseVolume(e) =>
      p.Visiting? && p.stage.Judge? && Expired(cfg.rnd, p.c, p.round) && Fits(e, s.w.tree, p.c.path)
    case RemoveParent(_) => p.Visiting? && p.stage.Parent?
    case EndRound => p.Sweeping? && p.todo == map[]
  }

  /** The pruner moves on to `p`. */
  function Pruned(s: State, w: World, h: History, p: Pruner): State
  {
    State(w, s.rpcs, p, s.lifespan, s.clock, h)
  }

  ghost function ApplyPrune(cfg: Config, s: State, a: PruneAct): State
    requires EnabledPrune(cfg, s, a)
  {
    var w, h, p := s.w, s.hist, s.pruner;
    match a
    case ReadClock => Pruned(s, w, h, Clocked(s.clock))
    case Snapshot(total, free, headroom) =>
      Pruned(s, w, h, Sweeping(Round(p.now, RoundFactor(cfg.rnd, total, free, headroom)), w.cands))
    case BeginVisit(id, statFails) =>
      var missing := !statFails && p.todo[id].path !in w.tree;
      Pruned(s, w, h, Visiting(p.round, Without(p.todo, id), id, p.todo[id], if missing then Drop1 else Judge))
    case Drop(ok) =>
      if ok then
        var gone := if p.id in h.due then h.gone + {p.id} else h.gone;
        Pruned(s, WithDelDb(w, Without(w.delDb, p.id)), h.(gone := gone), AfterDrop(p))
      else Pruned(s, w, h, AfterRemove(p))
    case Unmap => Pruned(s, WithCands(w, Without(w.cands, p.id)), h, AfterRemove(p))
    case Spare => Pruned(s, w, h, Sweeping(p.round, p.todo))
    case EraseVolume(e) =>
      Pruned(s, WithTree(w, Erase(w.tree, p.c.path, e)), h,
             if e.Erased? then StageOf(p, Parent) else Sweeping(p.round, p.todo))
    case RemoveParent(ok) =>
      Pruned(s, if ok then WithTree(w, RemoveDir(w.tree, Dir(p.c.path))) else w, h, StageOf(p, Drop2))
    case EndRound => Pruned(s, w, h, Idle)
  }

  function StageOf(p: Pruner, stage: Stage): Pruner
    requires p.Visiting?
  {
    Visiting(p.round, p.todo, p.id, p.c, stage)
  }

  /** After a durable delete comes the map delete. */
  function AfterDrop(p: Pruner): Pruner
    requires p.Visiting?
  {
    StageOf(p, if p.stage.Drop1? then Unmap1 else Unmap2)
  }

  /** The missing-path removal falls through to the deadline check; the second removal ends the visit. */
  function AfterRemove(p: Pruner): Pruner
    requires p.Visiting?
  {
    if p.stage.Drop1? || p.stage.Unmap1? then StageOf(p, Judge) else Sweeping(p.round, p.todo)
  }

  /* ---------- the environment ---------- */

  ghost predicate EnabledEnv(cfg: Config, s: State, a: EnvAct)
  {
    match a
    case Tick(_) => true
    case PodWrites(id, after) =>
      id in cfg.ids && Full(cfg, id) in s.w.tree && ChangedBelow(s.w.tree, after, Full(cfg, id))
    case Restart(_) => true
  }

  /** A restart is a crash followed by `NewNode`, which rebuilds the maps from the buckets. */
  ghost function ApplyEnv(s: State, a: EnvAct): State
  {
    match a
    case Tick(dt) => s.(clock := s.clock + dt)
    case PodWrites(_, after) => s.(w := s.w.(tree := after))
    case Restart(lifespan) => s.(w := Reload(s.w), rpcs := map[], pruner := Idle, lifespan := lifespan)
  }

  /* ---------- steps and runs ---------- */

  ghost predicate Enabled(cfg: Config, s: State, a: Action)
  {
    match a
    case Publish(id, pub) => EnabledPublish(cfg, s, id, pub)
    case Unpublish(id, unp) => EnabledUnpublish(cfg, s, id, unp)
    case Prune(prune) => EnabledPrune(cfg, s, prune)
    case Env(env) => EnabledEnv(cfg, s, env)
  }

  ghost function Apply(cfg: Config, s: State, a: Action): State
    requires Enabled(cfg, s, a)
  {
    match a
    case Publish(id, pub) => ApplyPublish(cfg, s, id, pub)
    case Unpublish(id, unp) => ApplyUnpublish(cfg, s, id, unp)
    case Prune(prune) => ApplyPrune(cfg, s, prune)
    case Env(env) => ApplyEnv(s, env)
  }

  /** A fresh node: the working directory holds the bolt file and nothing else. */
  ghost predicate Init(cfg: Config, s: State)
  {
    && s.w == World(MkdirAll({}, cfg.workdir + [DB_FILE]), map[], map[], map[], map[])
    && s.rpcs == map[] && s.pruner == Idle
    && s.hist == History({}, {}, map[], {})
  }

  /** `states[i]` is the state before `acts[i]`. */
  datatype Run = Run(states: seq<State>, acts: seq<Action>)

  ghost predicate Valid(cfg: Config, r: Run)
  {
    && |r.states| == |r.acts| + 1
    && Init(cfg, r.states[0])
    && forall i {:trigger r.acts[i]} :: 0 <= i < |r.acts| ==>
         Enabled(cfg, r.states[i], r.acts[i]) && r.states[i + 1] == Apply(cfg, r.states[i], r.acts[i])
  }

  /** Every step of the run satisfies the hypothesis `p` about `id`. */
  ghost predicate Always(cfg: Config, r: Run, id: string, p: (Config, State, Action, string) -> bool)
  {
    && |r.states| == |r.acts| + 1
    && forall i {:trigger r.acts[i]} :: 0 <= i < |r.acts| ==> p(cfg, r.states[i], r.acts[i], id)
  }

  /* ---------- hypotheses on the environment, about one id ---------- */

  /** The id is not published once its unpublish has been requested. */
  predicate NoRepublish(cfg: Config, s: State, a: Action, id: string)
  {
    a.Publish? && a.id == id && a.pub.PublishRequest? ==> id !in s.hist.retired
  }

  predicate IsVisiting(s: State, id: string)
  {
    s.pruner.Visiting? && s.pruner.id == id
  }

  /** The current visit may yet remove `id` from the queue: it does not if it has come to sparing the candidate. */
  predicate StillRemoves(cfg: Config, s: State, id: string)
  {
    IsVisiting(s, id) && (s.pruner.stage.Judge? ==> Expired(cfg.rnd, s.pruner.c, s.pruner.round))
  }

  /** No queue entry is started for the id between the two removals of one visit. */
  predicate NoQueueDuringVisit(cfg: Config, s: State, a: Action, id: string)
  {
    a == Unpublish(id, Check) ==> !(StillRemoves(cfg, s, id) && id !in s.w.cands)
  }

  predicate QueuePutsSucceed(cfg: Config, s: State, a: Action, id: string)
  {
    a.Unpublish? && a.id == id && a.unp.Put? ==> a.unp.ok
  }

  predicate VolumeDeletesSucceed(cfg: Config, s: State, a: Action, id: string)
  {
    a.Unpublish? && a.id == id && a.unp.ForgetDb? ==> a.unp.ok
  }
}
