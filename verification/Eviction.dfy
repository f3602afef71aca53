/** What the pruner may delete, and when, over whole runs. */
module Eviction {
  import opened Paths
  import opened Pressure
  import opened Model
  import opened Steps
  import opened QueueAgreement
  import opened Provenance
  import opened Lifecycle

  /* ---------- the working directory ---------- */

  /** The tree is a tree, and the working directory holds the bolt file. */
  ghost predicate TreeOk(cfg: Config, tree: set<Path>)
  {
    Closed(tree) && cfg.workdir + [DB_FILE] in tree
  }

  lemma WorkdirHasChild(cfg: Config, tree: set<Path>)
    requires TreeOk(cfg, tree)
    ensures HasChild(tree, cfg.workdir) && cfg.workdir in tree
  {
    DirOfAppend(cfg.workdir, DB_FILE);
  }

  ghost predicate Placed(cfg: Config, id: string, c: Candidate)
  {
    id in cfg.ids && (c.path == Full(cfg, id) || c.path == cfg.workdir + [id])
  }

  /** The parent of a candidate is its pod directory, or the working directory itself. */
  lemma ParentOfPlaced(cfg: Config, id: string, c: Candidate)
    requires GoodNames(cfg) && Placed(cfg, id, c)
    ensures Dir(c.path) == if c.path == Full(cfg, id) then cfg.workdir + [cfg.podOf(id)] else cfg.workdir
    ensures !(c.path <= cfg.workdir + [DB_FILE]) && c.path != []
  {
    FullIs(cfg, id);
    if c.path == Full(cfg, id) {
      assert Dir(c.path) == cfg.workdir + [cfg.podOf(id)];
    } else {
      assert c.path[|cfg.workdir|] != (cfg.workdir + [DB_FILE])[|cfg.workdir|];
    }
  }

  lemma TreeStep(cfg: Config, s: State, a: Action)
    requires GoodNames(cfg) && Enabled(cfg, s, a) && TreeOk(cfg, s.w.tree)
    requires a.Publish? ==> a.id in cfg.ids
    requires s.pruner.Visiting? ==> Placed(cfg, s.pruner.id, s.pruner.c)
    ensures TreeOk(cfg, Apply(cfg, s, a).w.tree)
  {
    match a
    case Publish(id, pub) => TreeAfterPublish(cfg, s, id, pub);
    case Prune(prune) => TreeAfterPrune(cfg, s, prune);
    case Env(PodWrites(id, _)) => FullIs(cfg, id);
    case _ =>
  }

  lemma TreeAfterPublish(cfg: Config, s: State, id: string, a: PublishAct)
    requires GoodNames(cfg) && EnabledPublish(cfg, s, id, a) && TreeOk(cfg, s.w.tree) && id in cfg.ids
    ensures TreeOk(cfg, ApplyPublish(cfg, s, id, a).w.tree)
  {
    var c := Candidate(0, 0, Full(cfg, id));
    ParentOfPlaced(cfg, id, c);
    MkdirAllCloses(s.w.tree, c.path);
    MkdirAllCloses(s.w.tree, Dir(c.path));
    RemoveAllCloses(s.w.tree, c.path);
  }

  lemma TreeAfterPrune(cfg: Config, s: State, a: PruneAct)
    requires GoodNames(cfg) && EnabledPrune(cfg, s, a) && TreeOk(cfg, s.w.tree)
    requires s.pruner.Visiting? ==> Placed(cfg, s.pruner.id, s.pruner.c)
    ensures TreeOk(cfg, ApplyPrune(cfg, s, a).w.tree)
  {
    if s.pruner.Visiting? {
      var c := s.pruner.c;
      ParentOfPlaced(cfg, s.pruner.id, c);
      RemoveAllCloses(s.w.tree, c.path);
      WorkdirHasChild(cfg, s.w.tree);
      RemoveDirCloses(s.w.tree, Dir(c.path));
    }
  }

  lemma TreeInRun(cfg: Config, r: Run, i: nat)
    requires GoodNames(cfg) && Valid(cfg, r) && i <= |r.acts|
    ensures TreeOk(cfg, r.states[i].w.tree)
  {
    if i == 0 {
      var db := cfg.workdir + [DB_FILE];
      assert db == db[..|db|];
      forall q | q in MkdirAll({}, db) ensures Dir(q) in MkdirAll({}, db) {
        var k :| 0 <= k <= |db| && q == db[..k];
        assert Dir(q) == db[..if k == 0 then 0 else k - 1];
      }
    } else {
      TreeInRun(cfg, r, i - 1);
      HandlersInRun(cfg, r, i - 1);
      VisitIsPlaced(cfg, r, i - 1);
      TreeStep(cfg, r.states[i - 1], r.acts[i - 1]);
    }
  }

  lemma VisitIsPlaced(cfg: Config, r: Run, i: nat)
    requires GoodNames(cfg) && Valid(cfg, r) && i <= |r.acts|
    ensures r.states[i].pruner.Visiting? ==> Placed(cfg, r.states[i].pruner.id, r.states[i].pruner.c)
  {
    if r.states[i].pruner.Visiting? {
      EntryIsPlaced(cfg, r, i, r.states[i].pruner.id, r.states[i].pruner.c);
    }
  }

  lemma ParentStepIsSafe(cfg: Config, s: State, a: PruneAct)
    requires GoodNames(cfg) && EnabledPrune(cfg, s, a) && a.RemoveParent? && TreeOk(cfg, s.w.tree)
    requires Placed(cfg, s.pruner.id, s.pruner.c)
    ensures var tree, tree' := s.w.tree, ApplyPrune(cfg, s, a).w.tree;
            var pod := cfg.workdir + [cfg.podOf(s.pruner.id)];
            tree' == tree || (tree' == tree - {pod} && !HasChild(tree, pod))
  {
    ParentOfPlaced(cfg, s.pruner.id, s.pruner.c);
    WorkdirHasChild(cfg, s.w.tree);
  }

  /** Removing a parent only ever removes one empty pod directory: never one with a child, never the working
      directory, and never a file of the database. */
  lemma {:induction false} ParentRemovalIsSafe(cfg: Config, r: Run, i: nat)
    requires GoodNames(cfg) && Valid(cfg, r) && i < |r.acts|
    requires r.acts[i].Prune? && r.acts[i].prune.RemoveParent?
    ensures var tree, tree' := r.states[i].w.tree, r.states[i + 1].w.tree;
            var pod := cfg.workdir + [cfg.podOf(r.states[i].pruner.id)];
            && cfg.workdir + [DB_FILE] in tree' && cfg.workdir in tree'
            && (tree' == tree || (tree' == tree - {pod} && !HasChild(tree, pod)))
  {
    TreeInRun(cfg, r, i);
    TreeInRun(cfg, r, i + 1);
    WorkdirHasChild(cfg, r.states[i + 1].w.tree);
    VisitIsPlaced(cfg, r, i);
    ParentStepIsSafe(cfg, r.states[i], r.acts[i].prune);
  }

  /* ---------- live volumes ---------- */

  /** The subtree of one volume meets no other id's candidate, nor any candidate's parent. */
  lemma OthersAreApart(cfg: Config, id: string, other: string, c: Candidate, q: Path)
    requires GoodNames(cfg) && id in cfg.ids && Placed(cfg, other, c) && Full(cfg, id) <= q
    ensures c.path <= q ==> id == other && c.path == Full(cfg, id)
    ensures Dir(c.path) != q
  {
    FullIs(cfg, id);
    FullIs(cfg, other);
    ParentOfPlaced(cfg, other, c);
    var n := |cfg.workdir|;
    assert q[n] == cfg.podOf(id) && q[n + 1] == id;
    if c.path <= q {
      assert c.path[n] == q[n];
      assert c.path == Full(cfg, other) ==> c.path[n + 1] == q[n + 1];
    }
  }

  /** While a volume is live, no step of the pruner touches anything in its directory. */
  lemma {:induction false} PrunerSparesLive(cfg: Config, r: Run, i: nat, id: string)
    requires GoodNames(cfg) && Valid(cfg, r) && Always(cfg, r, id, Orderly) && i < |r.acts| && id in cfg.ids
    requires r.acts[i].Prune? && PhaseOf(r.states[i], id).Live?
    ensures forall q :: Full(cfg, id) <= q ==> (q in r.states[i].w.tree <==> q in r.states[i + 1].w.tree)
  {
    LifeInRun(cfg, r, i, id);
    VisitIsPlaced(cfg, r, i);
    var s := r.states[i];
    if s.pruner.Visiting? {
      forall q | Full(cfg, id) <= q ensures q in s.w.tree <==> q in r.states[i + 1].w.tree {
        OthersAreApart(cfg, id, s.pruner.id, s.pruner.c, q);
        OnlyBelowCandidate(cfg, s, r.acts[i].prune, q);
      }
    }
  }

  lemma OnlyBelowCandidate(cfg: Config, s: State, a: PruneAct, q: Path)
    requires EnabledPrune(cfg, s, a)
    requires s.pruner.Visiting? ==> !(s.pruner.c.path <= q) && Dir(s.pruner.c.path) != q
    ensures q in s.w.tree <==> q in ApplyPrune(cfg, s, a).w.tree
  {
  }

  /* ---------- no early eviction ---------- */

  lemma ClockMonotone(cfg: Config, r: Run, i: nat, j: nat)
    requires Valid(cfg, r) && i <= j <= |r.acts|
    ensures r.states[i].clock <= r.states[j].clock
  {
    if i < j {
      ClockMonotone(cfg, r, i, j - 1);
      ClockStep(cfg, r.states[j - 1], r.acts[j - 1]);
    }
  }

  lemma ClockStep(cfg: Config, s: State, a: Action)
    requires Enabled(cfg, s, a)
    ensures s.clock <= Apply(cfg, s, a).clock
  {
  }

  predicate InRound(s: State)
  {
    s.pruner.Sweeping? || s.pruner.Visiting?
  }

  /** The round acts on a clock reading from the past and on the factor of its own disk usage. */
  ghost predicate RoundOk(cfg: Config, s: State)
  {
    && (s.pruner.Clocked? ==> s.pruner.now <= s.clock)
    && (InRound(s) ==>
          && s.pruner.round.now <= s.clock
          && exists total: nat, free: nat, headroom ::
               s.pruner.round.factor == RoundFactor(cfg.rnd, total, free, headroom))
  }

  lemma RoundStep(cfg: Config, s: State, a: Action)
    requires Enabled(cfg, s, a) && RoundOk(cfg, s)
    ensures RoundOk(cfg, Apply(cfg, s, a))
  {
    match a
    case Publish(id, pub) => PublishLeavesQueue(cfg, s, id, pub); ClockStep(cfg, s, a);
    case Unpublish(id, unp) => ClockStep(cfg, s, a);
    case Prune(_) =>
    case Env(_) =>
  }

  lemma RoundInRun(cfg: Config, r: Run, i: nat)
    requires Valid(cfg, r) && i <= |r.acts|
    ensures RoundOk(cfg, r.states[i])
  {
    if i > 0 {
      RoundInRun(cfg, r, i - 1);
      RoundStep(cfg, r.states[i - 1], r.acts[i - 1]);
    }
  }

  /** When the pruner's RemoveAll reaches the directory of a volume, an unpublish of exactly that volume was
      requested at some earlier step `j`, and the clock is strictly past that request's time plus its lifespan
      scaled by the round's factor. Retries, restarts and the early clock reading are all included. */
  lemma {:induction false} NoEarlyEviction(cfg: Config, r: Run, i: nat, id: string) returns (j: nat)
    requires GoodNames(cfg) && Valid(cfg, r) && i < |r.acts| && id in cfg.ids
    requires r.acts[i].Prune? && r.acts[i].prune.EraseVolume?
    requires r.states[i].pruner.c.path <= Full(cfg, id)
    ensures r.states[i].pruner.id == id && r.states[i].pruner.c.path == Full(cfg, id)
    ensures j < i && r.acts[j] == Unpublish(id, UnpublishRequest)
    ensures var asked, round := r.states[j], r.states[i].pruner.round;
            r.states[i].clock >= round.now > asked.clock + Scaled(cfg.rnd, asked.lifespan, round.factor)
    ensures KeepsLifespans(cfg.rnd) && r.states[j].lifespan <= EXACT_INTEGERS ==> r.states[i].clock > r.states[j].clock
  {
    var p := r.states[i].pruner;
    VisitIsPlaced(cfg, r, i);
    OthersAreApart(cfg, id, p.id, p.c, Full(cfg, id));
    j := EveryEntryWasRequested(cfg, r, i, id, p.c);
    RoundInRun(cfg, r, i);
    var total: nat, free: nat, headroom :| p.round.factor == RoundFactor(cfg.rnd, total, free, headroom);
    assert p.c.lifespan == r.states[j].lifespan;
  }
}
