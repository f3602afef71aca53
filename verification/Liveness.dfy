/** Overdue candidates do go away, with handlers interleaving all the while. */
module Liveness {
  import opened Pressure
  import opened Model
  import opened Steps
  import opened QueueAgreement
  import opened Eviction
  import opened Rounds

  /** The step is no crash, and the pruner's operations succeed. */
  predicate Smooth(a: Action)
  {
    && !(a.Env? && a.env.Restart?)
    && (a.Prune? && a.prune.Drop? ==> a.prune.ok)
    && (a.Prune? && a.prune.EraseVolume? ==> a.prune.erasure.Erased?)
  }

  predicate Requeues(a: Action, id: string)
  {
    a == Unpublish(id, Put(true))
  }

  predicate Absent(s: State, id: string)
  {
    id !in s.w.cands && id !in s.w.delDb && !IsVisiting(s, id)
  }

  /** Within round `round`, the candidate is still ahead of the pruner, under its hands, or gone. */
  predicate Pursued(s: State, id: string, c: Candidate, round: Round)
  {
    && InRound(s) && s.pruner.round == round && !MidQueue(s, id)
    && ( || (id in Todo(s) && Todo(s)[id] == c)
         || (IsVisiting(s, id) && s.pruner.c == c)
         || (Absent(s, id) && id !in Todo(s)))
  }

  lemma PursuedAfterPrune(cfg: Config, s: State, id: string, a: PruneAct, c: Candidate, round: Round)
    requires EnabledPrune(cfg, s, a) && Smooth(Prune(a)) && !a.EndRound?
    requires QueueOk(cfg, s, id) && Pursued(s, id, c, round) && Expired(cfg.rnd, c, round)
    ensures Pursued(ApplyPrune(cfg, s, a), id, c, round)
  {
  }

  lemma PursuedStep(cfg: Config, s: State, a: Action, id: string, c: Candidate, round: Round)
    requires Enabled(cfg, s, a) && Smooth(a) && !Requeues(a, id) && !(a.Prune? && a.prune.EndRound?)
    requires QueueOk(cfg, s, id) && Pursued(s, id, c, round) && Expired(cfg.rnd, c, round)
    ensures Pursued(Apply(cfg, s, a), id, c, round)
  {
    match a
    case Publish(other, pub) =>
      PublishLeavesQueue(cfg, s, other, pub);
      if other != id { UntouchedByOtherPublish(cfg, s, other, pub, id); }
    case Unpublish(other, unp) =>
      if other != id { UntouchedByOtherUnpublish(cfg, s, other, unp, id); }
    case Prune(prune) => PursuedAfterPrune(cfg, s, id, prune, c, round);
    case Env(_) =>
  }

  /** One uncrashed round of the run: clock reading at `j`, snapshot at `i`, end at `e`. */
  ghost predicate IsRound(r: Run, j: nat, i: nat, e: nat)
  {
    && j < i < e < |r.acts|
    && r.acts[j] == Prune(ReadClock) && r.acts[i].Prune? && r.acts[i].prune.Snapshot? && r.acts[e] == Prune(EndRound)
    && (forall k :: j <= k <= e ==> Smooth(r.acts[k]))
    && (forall k :: j < k < e ==> !(r.acts[k].Prune? && r.acts[k].prune.EndRound?))
    && (forall k :: j < k < i ==> !(r.acts[k].Prune? && r.acts[k].prune.Snapshot?))
  }

  lemma PursuedInRound(cfg: Config, r: Run, j: nat, i: nat, e: nat, k: nat, id: string, c: Candidate, round: Round)
    requires Valid(cfg, r) && Always(cfg, r, id, NoQueueDuringVisit) && IsRound(r, j, i, e) && i < k <= e
    requires Pursued(r.states[i + 1], id, c, round) && Expired(cfg.rnd, c, round)
    requires forall m :: i <= m <= e ==> !Requeues(r.acts[m], id)
    ensures Pursued(r.states[k], id, c, round)
  {
    if k > i + 1 {
      PursuedInRound(cfg, r, j, i, e, k - 1, id, c, round);
      QueueInRun(cfg, r, k - 1, id);
      PursuedStep(cfg, r.states[k - 1], r.acts[k - 1], id, c, round);
    }
  }

  lemma ClockedStep(cfg: Config, s: State, a: Action)
    requires Enabled(cfg, s, a) && s.pruner.Clocked? && Smooth(a) && !(a.Prune? && a.prune.Snapshot?)
    ensures Apply(cfg, s, a).pruner == s.pruner
  {
  }

  /** The clock of a round is the one read at its start, however late the snapshot is taken. */
  lemma ClockOfRound(cfg: Config, r: Run, j: nat, i: nat, e: nat, k: nat)
    requires Valid(cfg, r) && IsRound(r, j, i, e) && j < k <= i
    ensures r.states[k].pruner == Clocked(r.states[j].clock)
  {
    if k > j + 1 {
      ClockOfRound(cfg, r, j, i, e, k - 1);
      ClockedStep(cfg, r.states[k - 1], r.acts[k - 1]);
    }
  }

  /** An entry that was in the map at the snapshot, and whose whole lifespan had passed at the round's clock, is
      gone from map and bucket when the round ends, whatever the disk pressure and whatever handlers interleave,
      unless its id is durably queued anew meanwhile. */
  lemma {:induction false} OverdueGoneByRoundEnd(cfg: Config, r: Run, j: nat, i: nat, e: nat, id: string)
    requires Valid(cfg, r) && Always(cfg, r, id, NoQueueDuringVisit) && IsRound(r, j, i, e) && KeepsLifespans(cfg.rnd)
    requires forall m :: i <= m <= e ==> !Requeues(r.acts[m], id)
    requires id in r.states[i].w.cands
    requires var c := r.states[i].w.cands[id];
             0 <= c.lifespan <= EXACT_INTEGERS && c.time + c.lifespan < r.states[j].clock
    ensures id !in r.states[e + 1].w.cands && id !in r.states[e + 1].w.delDb
  {
    SnapshotInRun(cfg, r, i, id);
    GoneByRoundEnd(cfg, r, j, i, e, id, r.states[i].w.cands[id]);
  }

  lemma GoneByRoundEnd(cfg: Config, r: Run, j: nat, i: nat, e: nat, id: string, c: Candidate)
    requires Valid(cfg, r) && Always(cfg, r, id, NoQueueDuringVisit) && IsRound(r, j, i, e) && KeepsLifespans(cfg.rnd)
    requires forall m :: i <= m <= e ==> !Requeues(r.acts[m], id)
    requires !MidQueue(r.states[i], id) && (id in r.states[i].w.cands ==> r.states[i].w.cands[id] == c)
    requires 0 <= c.lifespan <= EXACT_INTEGERS && c.time + c.lifespan < r.states[j].clock
    ensures id !in r.states[e + 1].w.cands && id !in r.states[e + 1].w.delDb
  {
    ClockOfRound(cfg, r, j, i, e, i);
    QueueInRun(cfg, r, i, id);
    var Prune(Snapshot(total, free, headroom)) := r.acts[i];
    OverdueExpires(cfg.rnd, c, r.states[j].clock, total, free, headroom);
    var round := r.states[i + 1].pruner.round;
    assert Pursued(r.states[i + 1], id, c, round);
    PursuedInRound(cfg, r, j, i, e, e, id, c, round);
  }

  /* ---------- how long it takes ---------- */

  /** A round starts at `j`, and neither a crash nor a failed operation cuts it short. */
  ghost predicate WholeRound(r: Run, j: nat)
  {
    exists i: nat, e: nat :: IsRound(r, j, i, e)
  }

  /** The whole round starting at `m` is the first after the one starting at `k`. */
  ghost predicate NextRound(r: Run, k: int, m: int)
  {
    && 0 <= k < m < |r.acts| && WholeRound(r, k) && WholeRound(r, m)
    && forall n :: k < n < m ==> !WholeRound(r, n)
  }

  /** Consecutive whole rounds start at most `gap` apart. */
  ghost predicate RoundsWithin(r: Run, gap: int)
  {
    && |r.states| == |r.acts| + 1
    && forall k, m :: NextRound(r, k, m) ==> r.states[m].clock <= r.states[k].clock + gap
  }

  lemma PreviousRound(r: Run, k: nat, m: nat) returns (n: nat)
    requires k < m < |r.acts| && WholeRound(r, k)
    ensures k <= n < m && WholeRound(r, n)
    ensures forall x :: n < x < m ==> !WholeRound(r, x)
  {
    n := m - 1;
    while !WholeRound(r, n)
      invariant k <= n < m
      invariant forall x :: n < x < m ==> !WholeRound(r, x)
      decreases n
    {
      n := n - 1;
    }
  }

  /** Between a whole round starting not past `t` and one starting past `t`, one starts past `t` by at most `gap`. */
  lemma {:induction false} SomeRoundStartsInTime(r: Run, k: nat, m: nat, t: int, gap: int) returns (j: nat)
    requires RoundsWithin(r, gap) && k < m < |r.acts|
    requires WholeRound(r, k) && r.states[k].clock <= t
    requires WholeRound(r, m) && t < r.states[m].clock
    ensures k < j <= m && WholeRound(r, j) && t < r.states[j].clock <= t + gap
    decreases m
  {
    var n := PreviousRound(r, k, m);
    assert NextRound(r, n, m);
    if r.states[n].clock <= t {
      j := m;
    } else {
      j := SomeRoundStartsInTime(r, k, n, t, gap);
    }
  }

  /** Nothing but `c` is queued for `id`, and nothing else is on its way in. */
  predicate Fading(s: State, id: string, c: Candidate)
  {
    && !MidQueue(s, id)
    && (id in s.w.cands ==> s.w.cands[id] == c)
    && (id in s.w.delDb ==> s.w.delDb[id] == c)
  }

  lemma FadingStep(cfg: Config, s: State, a: Action, id: string, c: Candidate)
    requires Enabled(cfg, s, a) && !Requeues(a, id) && Fading(s, id, c)
    ensures Fading(Apply(cfg, s, a), id, c)
  {
    match a
    case Publish(other, pub) =>
      PublishLeavesQueue(cfg, s, other, pub);
      if other != id { UntouchedByOtherPublish(cfg, s, other, pub, id); }
    case Unpublish(other, unp) =>
      if other != id { UntouchedByOtherUnpublish(cfg, s, other, unp, id); }
    case Prune(_) =>
    case Env(_) =>
  }

  lemma FadingInRun(cfg: Config, r: Run, q: nat, k: nat, id: string, c: Candidate)
    requires Valid(cfg, r) && q <= k <= |r.acts| && Fading(r.states[q], id, c)
    requires forall m :: q <= m < k ==> !Requeues(r.acts[m], id)
    ensures Fading(r.states[k], id, c)
  {
    if q < k {
      FadingInRun(cfg, r, q, k - 1, id, c);
      FadingStep(cfg, r.states[k - 1], r.acts[k - 1], id, c);
    }
  }

  ghost predicate NotRequeued(r: Run, q: nat, e: nat, id: string)
    requires e < |r.acts|
  {
    forall x :: q <= x <= e ==> !Requeues(r.acts[x], id)
  }

  lemma RoundAfter(cfg: Config, r: Run, q: nat, k: nat, m: nat, late: int, gap: int) returns (j: nat)
    requires Valid(cfg, r) && RoundsWithin(r, gap) && q <= |r.acts| && r.states[q].clock <= late
    requires k < m < |r.acts| && WholeRound(r, k) && WholeRound(r, m)
    requires r.states[k].clock <= late < r.states[m].clock
    ensures q < j <= m && WholeRound(r, j) && late < r.states[j].clock <= late + gap
  {
    j := SomeRoundStartsInTime(r, k, m, late, gap);
    if j <= q { ClockMonotone(cfg, r, j, q); }
  }

  lemma GoneUnlessRequeued(
      cfg: Config, r: Run, q: nat, j: nat, i: nat, e: nat, id: string, c: Candidate)
    requires Valid(cfg, r) && Always(cfg, r, id, NoQueueDuringVisit) && IsRound(r, j, i, e) && KeepsLifespans(cfg.rnd)
    requires q < j && id in r.states[q].w.cands && r.states[q].w.cands[id] == c
    requires 0 <= c.lifespan <= EXACT_INTEGERS && c.time + c.lifespan < r.states[j].clock
    requires NotRequeued(r, q, e, id)
    ensures id !in r.states[e + 1].w.cands && id !in r.states[e + 1].w.delDb
  {
    SnapshotInRun(cfg, r, q, id);
    QueueInRun(cfg, r, q, id);
    assert Fading(r.states[q], id, c);
    FadingInRun(cfg, r, q, i, id, c);
    GoneByRoundEnd(cfg, r, j, i, e, id, c);
  }

  /** What is about to be queued is not queued. */
  lemma AbsentAtRequeue(cfg: Config, r: Run, x: nat, id: string)
    requires Valid(cfg, r) && Always(cfg, r, id, NoQueueDuringVisit) && x < |r.acts| && Requeues(r.acts[x], id)
    ensures id !in r.states[x].w.cands && id !in r.states[x].w.delDb
  {
    QueueInRun(cfg, r, x, id);
    assert Queueing(r.states[x], id);
  }

  lemma GoneSomeTime(cfg: Config, r: Run, q: nat, j: nat, i: nat, e: nat, id: string, c: Candidate) returns (x: nat)
    requires Valid(cfg, r) && Always(cfg, r, id, NoQueueDuringVisit) && IsRound(r, j, i, e) && KeepsLifespans(cfg.rnd)
    requires q < j && id in r.states[q].w.cands && r.states[q].w.cands[id] == c
    requires 0 <= c.lifespan <= EXACT_INTEGERS && c.time + c.lifespan < r.states[j].clock
    ensures q < x <= e + 1 && id !in r.states[x].w.cands && id !in r.states[x].w.delDb
  {
    if NotRequeued(r, q, e, id) {
      x := e + 1;
      GoneUnlessRequeued(cfg, r, q, j, i, e, id, c);
    } else {
      x :| q <= x <= e && Requeues(r.acts[x], id);
      AbsentAtRequeue(cfg, r, x, id);
    }
  }

  /** Take any entry in the map at state `q`, inserted by a handler or loaded by a restart. If whole rounds start at
      most `gap` apart, one of them starts within `gap` after `late`, the later of that state and the entry's
      deadline, and by the end of that round the entry has gone from map and bucket: whatever the pressure, and
      whatever crashes and failures cut other rounds short. */
  lemma {:induction false} GoneWithinGap(
      cfg: Config, r: Run, q: nat, k: nat, m: nat, id: string, c: Candidate, late: int, gap: int)
    returns (j: nat, i: nat, e: nat, x: nat)
    requires Valid(cfg, r) && Always(cfg, r, id, NoQueueDuringVisit) && RoundsWithin(r, gap)
    requires KeepsLifespans(cfg.rnd) && q <= |r.acts|
    requires id in r.states[q].w.cands && r.states[q].w.cands[id] == c && 0 <= c.lifespan <= EXACT_INTEGERS
    requires late == Later(r.states[q].clock, c.time + c.lifespan)
    requires k < m < |r.acts| && WholeRound(r, k) && WholeRound(r, m)
    requires r.states[k].clock <= late < r.states[m].clock
    ensures q < j <= m && IsRound(r, j, i, e) && late < r.states[j].clock <= late + gap
    ensures q < x <= e + 1 && id !in r.states[x].w.cands && id !in r.states[x].w.delDb
  {
    j := RoundAfter(cfg, r, q, k, m, late, gap);
    i, e :| IsRound(r, j, i, e);
    x := GoneSomeTime(cfg, r, q, j, i, e, id, c);
  }

  function Later(x: int, y: int): int
  {
    if x < y then y else x
  }
}
