/** A queue that takes no new work and loses no lease does a bounded amount of work, and which jobs that leaves behind. */
module QueueDrain {
  import opened Common
  import opened QueueModel
  import opened QueueSafety
  import opened QueueHistory
  import opened QueueLife
  import opened QueueRepository

  /** Twice the attempts a live job may still make, and one for the attempt being made. */
  function Weight(job: Job): int {
    var left := job.maxAttempts + job.rehydrations - job.attempts;
    if job.status.Queued? then 2 * left else if job.status.Running? then 2 * left + 1 else 0
  }

  ghost function Total(rows: Table, ids: set<JobId>): int
    requires ids <= rows.Keys
  {
    if ids == {} then 0 else var id :| id in ids; Weight(rows[id].job) + Total(rows, ids - {id})
  }

  lemma {:induction false} TotalSplit(rows: Table, ids: set<JobId>, id: JobId)
    requires ids <= rows.Keys && id in ids
    ensures Total(rows, ids) == Weight(rows[id].job) + Total(rows, ids - {id})
    decreases ids
  {
    var pick :| pick in ids && Total(rows, ids) == Weight(rows[pick].job) + Total(rows, ids - {pick});
    if pick != id {
      TotalSplit(rows, ids - {pick}, id);
      TotalSplit(rows, ids - {id}, pick);
      assert ids - {pick} - {id} == ids - {id} - {pick};
    }
  }

  lemma {:induction false} TotalFrame(rows: Table, other: Table, ids: set<JobId>)
    requires ids <= rows.Keys && ids <= other.Keys
    requires forall id | id in ids :: Weight(rows[id].job) == Weight(other[id].job)
    ensures Total(rows, ids) == Total(other, ids)
    decreases ids
  {
    if ids != {} {
      var pick :| pick in ids;
      TotalSplit(rows, ids, pick);
      TotalSplit(other, ids, pick);
      TotalFrame(rows, other, ids - {pick});
    }
  }

  lemma TotalUpdate(rows: Table, id: JobId, row: Row)
    requires id in rows
    ensures Total(rows[id := row], rows.Keys) == Total(rows, rows.Keys) - Weight(rows[id].job) + Weight(row.job)
  {
    TotalSplit(rows, rows.Keys, id);
    TotalSplit(rows[id := row], rows.Keys, id);
    TotalFrame(rows, rows[id := row], rows.Keys - {id});
  }

  ghost predicate AllAttemptsOk(rows: Table) {
    forall id | id in rows :: rows[id].job.maxAttempts >= 1 && AttemptsOk(rows[id].job)
  }

  /** Nothing is left to do exactly when no row is queued or running. */
  lemma {:induction false} EmptyIff(rows: Table, ids: set<JobId>)
    requires AllAttemptsOk(rows) && ids <= rows.Keys
    ensures Total(rows, ids) >= 0
    ensures Total(rows, ids) == 0 <==> forall id | id in ids :: !Active(rows[id].job)
    decreases ids
  {
    if ids != {} {
      var pick :| pick in ids;
      TotalSplit(rows, ids, pick);
      EmptyIff(rows, ids - {pick});
    }
  }

  /** The steps that work on a job: a claim that found one, and every completion. */
  predicate Works(e: Event) {
    e.Completes() || (e.ClaimEvent? && e.choice.Some?)
  }

  /** No new work and no expired lease at this step. */
  ghost predicate Quiet(s: System, e: Event) {
    && !e.EnqueueEvent? && !e.ResumeEvent?
    && (e.ReclaimEvent? || e.ClaimEvent? ==> ExpiredJobs(s.rows, e.now) == {})
  }

  lemma MoveLightens(cfg: Settings, r: Row, m: Move)
    requires CanMove(cfg, r, m) && r.job.maxAttempts >= 1 && AttemptsOk(r.job) && !m.Reclaim? && !m.Resume?
    ensures var job := MoveRow(cfg, r, m).job;
      && job.maxAttempts >= 1 && AttemptsOk(job)
      && Weight(job) + (if m.Rest? || m.Cancel? then 0 else 1) <= Weight(r.job)
  {
  }

  /** The table changed by one move of row `id`, a working one if `works`. */
  predicate OneMove(cfg: Settings, rows: Table, after: Table, id: JobId, m: Move, works: bool) {
    && id in rows && CanMove(cfg, rows[id], m) && after == rows[id := MoveRow(cfg, rows[id], m)]
    && !m.Reclaim? && !m.Resume? && (works ==> !m.Rest? && !m.Cancel?)
  }

  lemma NothingExpired(rows: Table, now: Time)
    requires ExpiredJobs(rows, now) == {}
    ensures ReclaimAll(rows, now) == rows
  {
    assert forall id | id in rows :: id !in ExpiredJobs(rows, now);
  }

  lemma QuietClaim(cfg: Settings, s: System, e: Event, t: System)
    requires e.ClaimEvent? && ClaimStep(cfg, s, e, t) && ExpiredJobs(s.rows, e.now) == {}
    ensures e.choice.None? ==> t.rows == s.rows
    ensures e.choice.Some? ==>
      OneMove(cfg, s.rows, t.rows, e.choice.value, Claim(e.now, e.worker, e.token), true)
  {
    NothingExpired(s.rows, e.now);
    if e.choice.Some? {
      SelectedIsEligible(cfg, s.rows, e.now, e.types, e.tags, e.choice.value);
    }
  }

  lemma QuietCompletion(cfg: Settings, s: System, e: Event, t: System) returns (id: JobId, m: Move)
    requires Step(cfg, s, e, t) && Fenced(s, e) && Sound(s) && e.Completes()
    ensures OneMove(cfg, s.rows, t.rows, id, m, true)
  {
    FencedWrites(cfg, s, e, t);
    id := s.granted[e.token].id;
    m := SecondMove(s, e, id);
  }

  /** A quiet step moves one row at most. */
  lemma QuietStep(cfg: Settings, s: System, e: Event, t: System) returns (id: JobId, m: Move)
    requires Step(cfg, s, e, t) && Fenced(s, e) && Sound(s) && Quiet(s, e)
    ensures t.rows != s.rows || Works(e) ==> OneMove(cfg, s.rows, t.rows, id, m, Works(e))
  {
    id, m := "", Rest;
    if e.Completes() {
      id, m := QuietCompletion(cfg, s, e, t);
    } else if e.ClaimEvent? {
      QuietClaim(cfg, s, e, t);
      if e.choice.Some? {
        id, m := e.choice.value, Claim(e.now, e.worker, e.token);
      }
    } else if e.CancelEvent? {
      id, m := e.id, Cancel(e.now, e.actor);
    } else {
      NothingExpired(s.rows, e.now);
    }
  }

  lemma OneMoveDrains(cfg: Settings, rows: Table, after: Table, id: JobId, m: Move, works: bool)
    requires OneMove(cfg, rows, after, id, m, works) && AllAttemptsOk(rows)
    ensures AllAttemptsOk(after)
    ensures Total(after, after.Keys) + (if works then 1 else 0) <= Total(rows, rows.Keys)
  {
    MoveLightens(cfg, rows[id], m);
    var row := MoveRow(cfg, rows[id], m);
    TotalUpdate(rows, id, row);
    assert after.Keys == rows.Keys;
  }

  lemma QuietStepDrains(cfg: Settings, s: System, e: Event, t: System)
    requires Step(cfg, s, e, t) && Fenced(s, e) && Sound(s) && Quiet(s, e) && AllAttemptsOk(s.rows)
    ensures AllAttemptsOk(t.rows)
    ensures Total(t.rows, t.rows.Keys) + (if Works(e) then 1 else 0) <= Total(s.rows, s.rows.Keys)
  {
    var id, m := QuietStep(cfg, s, e, t);
    if t.rows != s.rows || Works(e) {
      OneMoveDrains(cfg, s.rows, t.rows, id, m, Works(e));
    }
  }

  function Work(es: seq<Event>, from: nat, to: nat): nat
    requires from <= to <= |es|
  {
    if from == to then 0 else Work(es, from, to - 1) + (if Works(es[to - 1]) then 1 else 0)
  }

  lemma QuietNext(cfg: Settings, ss: seq<System>, es: seq<Event>, n: nat)
    requires Run(cfg, ss, es) && FencedPath(ss, es) && n < |es|
    requires Quiet(ss[n], es[n]) && AllAttemptsOk(ss[n].rows)
    ensures AllAttemptsOk(ss[n + 1].rows)
    ensures Total(ss[n + 1].rows, ss[n + 1].rows.Keys) + (if Works(es[n]) then 1 else 0)
         <= Total(ss[n].rows, ss[n].rows.Keys)
  {
    FencedRunIsSound(cfg, ss, es, n);
    assert StepAt(cfg, ss, es, n);
    QuietStepDrains(cfg, ss[n], es[n], ss[n + 1]);
  }

  lemma AttemptsOkEverywhere(cfg: Settings, ss: seq<System>, es: seq<Event>, n: nat)
    requires Run(cfg, ss, es) && FencedPath(ss, es) && n < |ss|
    requires forall id | id in ss[n].rows :: ss[n].rows[id].job.maxAttempts >= 1
    ensures AllAttemptsOk(ss[n].rows)
  {
    forall id | id in ss[n].rows ensures AttemptsOk(ss[n].rows[id].job) {
      var _, _, _ := FencedRunBoundsAttempts(cfg, ss, es, n, id);
    }
  }

  /**
   While nothing is enqueued or resumed and no lease expires, a fenced run makes no more
   claims and completions than the jobs it starts with have weight; cancels only help.
   */
  lemma {:induction false} QuietRunDrains(cfg: Settings, ss: seq<System>, es: seq<Event>, from: nat, to: nat)
    requires Run(cfg, ss, es) && FencedPath(ss, es) && from <= to < |ss|
    requires forall i | from <= i < to :: Quiet(ss[i], es[i])
    requires forall id | id in ss[from].rows :: ss[from].rows[id].job.maxAttempts >= 1
    ensures AllAttemptsOk(ss[to].rows)
    ensures Work(es, from, to) + Total(ss[to].rows, ss[to].rows.Keys) <= Total(ss[from].rows, ss[from].rows.Keys)
  {
    if from == to {
      AttemptsOkEverywhere(cfg, ss, es, from);
    } else {
      QuietRunDrains(cfg, ss, es, from, to - 1);
      QuietNext(cfg, ss, es, to - 1);
    }
  }

  /** So the weight bounds the work, and when the work reaches it no job is left queued or running. */
  lemma QuietWorkIsBounded(cfg: Settings, ss: seq<System>, es: seq<Event>, from: nat, to: nat)
    requires Run(cfg, ss, es) && FencedPath(ss, es) && from <= to < |ss|
    requires forall i | from <= i < to :: Quiet(ss[i], es[i])
    requires forall id | id in ss[from].rows :: ss[from].rows[id].job.maxAttempts >= 1
    ensures var weight := Total(ss[from].rows, ss[from].rows.Keys);
      && Work(es, from, to) <= weight
      && (Work(es, from, to) == weight ==> forall id | id in ss[to].rows :: !Active(ss[to].rows[id].job))
  {
    QuietRunDrains(cfg, ss, es, from, to);
    EmptyIff(ss[to].rows, ss[to].rows.Keys);
  }

  // ---- What is left behind ---------------------------------------------------

  predicate Idle(rows: Table) {
    forall id | id in rows :: !rows[id].job.status.Running?
  }

  lemma IdleIsEligible(cfg: Settings, rows: Table, tags: set<string>, job: Job)
    requires cfg.Valid() && Idle(rows)
    ensures Eligible(rows, tags, cfg.tenantCap, job) <==> job.requiredTags <= tags
  {
    assert forall t :: RunningOf(rows, t) == {};
    assert forall k :: RunningWithKey(rows, k) == {};
  }

  /**
   While nothing runs, a claim of every type at a time when all queued jobs are due, by a
   worker that offers their tags, with all of them in the scan, finds none exactly when each
   of them has its cancel flag set. Such jobs wait; no other job is left behind.
   */
  lemma IdleClaimIsEmptyIff(cfg: Settings, s: System, e: Event, t: System)
    requires cfg.Valid() && e.ClaimEvent? && ClaimStep(cfg, s, e, t) && e.types == {} && Idle(s.rows)
    requires forall id | id in s.rows && s.rows[id].job.status.Queued? ::
      s.rows[id].job.nextRunAt <= e.now && s.rows[id].job.requiredTags <= e.tags
    requires |set id | id in s.rows && s.rows[id].job.status.Queued?| <= cfg.scanLimit
    ensures e.choice.None? <==> forall id | id in s.rows && s.rows[id].job.status.Queued? :: Waits(s.rows[id].job)
  {
    assert ReclaimAll(s.rows, e.now) == s.rows;
    assert RunningOn(s.rows, e.worker) == {};
    SubsetSize(set id | id in s.rows && Matches(s.rows[id].job, e.now, e.types),
               set id | id in s.rows && s.rows[id].job.status.Queued?);
    ClaimFindsWorkIff(cfg, s, e, t);
    forall id | id in s.rows
      ensures Eligible(s.rows, e.tags, cfg.tenantCap, s.rows[id].job) <==> s.rows[id].job.requiredTags <= e.tags
    {
      IdleIsEligible(cfg, s.rows, e.tags, s.rows[id].job);
    }
  }
}
