/**
 What every run of the queue keeps, stale completions included: the lease
 discipline, the running caps, and what a lease token still says about its row.
 */
module QueueSafety {
  import opened Common
  import opened QueueModel

  // ---- Leases ------------------------------------------------------------

  /** RUNNING iff a token iff an expiry, and a RUNNING row names its worker. */
  predicate LeaseOk(job: Job) {
    && (job.status.Running? <==> job.leaseToken.Some?)
    && (job.status.Running? <==> job.leaseExpiresAt.Some?)
    && (job.status.Running? ==> job.worker.Some?)
  }

  ghost predicate LeasesOk(rows: Table) {
    forall id | id in rows :: LeaseOk(rows[id].job)
  }

  lemma StepKeepsLeases(cfg: Settings, s: System, e: Event, t: System)
    requires Step(cfg, s, e, t) && LeasesOk(s.rows)
    ensures LeasesOk(t.rows)
  {
  }

  lemma {:induction false} RunKeepsLeases(cfg: Settings, ss: seq<System>, es: seq<Event>, n: nat)
    requires Run(cfg, ss, es) && n < |ss|
    ensures LeasesOk(ss[n].rows)
  {
    if n > 0 {
      RunKeepsLeases(cfg, ss, es, n - 1);
      assert StepAt(cfg, ss, es, n - 1);
      StepKeepsLeases(cfg, ss[n - 1], es[n - 1], ss[n]);
    }
  }

  function ExpiredJobs(rows: Table, now: Time): set<JobId> {
    set id | id in rows && Expired(rows[id].job, now)
  }

  /**
   A reclaim pass in any reachable state requeues the abandoned rows, which are
   exactly the RUNNING ones that changed, and leaves no lease due at or before `now`.
   */
  lemma ReclaimIsExact(cfg: Settings, ss: seq<System>, es: seq<Event>, n: nat, now: Time)
    requires Run(cfg, ss, es) && n < |ss|
    ensures LeasesOk(ss[n].rows)
    ensures var rows, after := ss[n].rows, ReclaimAll(ss[n].rows, now);
      && after.Keys == rows.Keys
      && (forall id | id in rows ::
            if rows[id].job.status.Running? && rows[id].job.leaseExpiresAt.value <= now
            then id in ExpiredJobs(rows, now) && after[id].job.status.Queued? && after[id].job.leaseToken.None?
                 && after[id].job.rehydrations == rows[id].job.rehydrations + 1
                 && after[id].payload.resumeState
                    == Some(ResumeState(rows[id].job.worker, rows[id].job.leaseToken, rows[id].job.leaseExpiresAt, now))
            else id !in ExpiredJobs(rows, now) && after[id] == rows[id])
      && (forall id | id in after && after[id].job.status.Running? ::
            after[id].job.leaseExpiresAt.Some? && after[id].job.leaseExpiresAt.value > now)
  {
    RunKeepsLeases(cfg, ss, es, n);
  }

  // ---- Caps --------------------------------------------------------------

  ghost predicate CapsOk(cfg: Settings, rows: Table) {
    && (forall w :: |RunningOn(rows, w)| <= cfg.workerCap)
    && (forall t: string | t != "" :: |RunningOf(rows, Some(t))| <= cfg.tenantCap)
    && (forall k: string | k != "" :: |RunningWithKey(rows, k)| <= 1)
  }

  /** Every running row of `after` was running before, under the same worker, tenant and key. */
  ghost predicate StartsNothing(before: Table, after: Table) {
    forall id | id in after && after[id].job.status.Running? ::
      && id in before && before[id].job.status.Running?
      && after[id].job.worker == before[id].job.worker
      && after[id].job.tenant == before[id].job.tenant
      && after[id].job.concurrencyKey == before[id].job.concurrencyKey
  }

  lemma OnlyClaimsStart(cfg: Settings, s: System, e: Event, t: System)
    requires Step(cfg, s, e, t)
    ensures StartsNothing(s.rows, if e.ClaimEvent? then ReclaimAll(s.rows, e.now) else t.rows)
  {
  }

  lemma StartingNothingKeepsCaps(cfg: Settings, before: Table, after: Table)
    requires StartsNothing(before, after) && CapsOk(cfg, before)
    ensures CapsOk(cfg, after)
  {
    forall w ensures |RunningOn(after, w)| <= cfg.workerCap {
      SubsetSize(RunningOn(after, w), RunningOn(before, w));
    }
    forall t: string | t != "" ensures |RunningOf(after, Some(t))| <= cfg.tenantCap {
      SubsetSize(RunningOf(after, Some(t)), RunningOf(before, Some(t)));
    }
    forall k: string | k != "" ensures |RunningWithKey(after, k)| <= 1 {
      SubsetSize(RunningWithKey(after, k), RunningWithKey(before, k));
    }
  }

  /** One more running row adds itself to the sets it falls under, and to no others. */
  lemma OneMoreRuns(rows: Table, id: JobId, row: Row)
    requires id in rows
    ensures forall w :: |RunningOn(rows[id := row], w)| <= |RunningOn(rows, w)| + (if row.job.worker == Some(w) then 1 else 0)
    ensures forall t :: |RunningOf(rows[id := row], t)| <= |RunningOf(rows, t)| + (if row.job.tenant == t then 1 else 0)
    ensures forall k ::
      |RunningWithKey(rows[id := row], k)| <= |RunningWithKey(rows, k)| + (if row.job.concurrencyKey == Some(k) then 1 else 0)
  {
    var after := rows[id := row];
    forall w ensures |RunningOn(after, w)| <= |RunningOn(rows, w)| + (if row.job.worker == Some(w) then 1 else 0) {
      SubsetSize(RunningOn(after, w), RunningOn(rows, w) + (if row.job.worker == Some(w) then {id} else {}));
    }
    forall t ensures |RunningOf(after, t)| <= |RunningOf(rows, t)| + (if row.job.tenant == t then 1 else 0) {
      SubsetSize(RunningOf(after, t), RunningOf(rows, t) + (if row.job.tenant == t then {id} else {}));
    }
    forall k ensures |RunningWithKey(after, k)|
        <= |RunningWithKey(rows, k)| + (if row.job.concurrencyKey == Some(k) then 1 else 0) {
      SubsetSize(RunningWithKey(after, k),
                 RunningWithKey(rows, k) + (if row.job.concurrencyKey == Some(k) then {id} else {}));
    }
  }

  lemma StartingOneKeepsCaps(cfg: Settings, rows: Table, id: JobId, worker: string, tags: set<string>, row: Row)
    requires cfg.tenantCap > 0 && CapsOk(cfg, rows)
    requires id in rows && Eligible(rows, tags, cfg.tenantCap, rows[id].job)
    requires |RunningOn(rows, worker)| < cfg.workerCap
    requires row.job.worker == Some(worker) && row.job.tenant == rows[id].job.tenant
    requires row.job.concurrencyKey == rows[id].job.concurrencyKey
    ensures CapsOk(cfg, rows[id := row])
  {
    OneMoreRuns(rows, id, row);
  }

  /** A selected row matches the claim query and passes every check. */
  lemma SelectedIsEligible(cfg: Settings, rows: Table, now: Time, types: set<JobType>, tags: set<string>, id: JobId)
    requires Selects(cfg, rows, now, types, tags, Some(id))
    ensures id in rows && Matches(rows[id].job, now, types) && Eligible(rows, tags, cfg.tenantCap, rows[id].job)
  {
  }

  /**
   When a row may be started: it is queued, not cancelled, due and of a wanted type, the worker
   has its tags, nothing runs under its key, and its tenant runs fewer jobs than its cap.
   */
  lemma MayStartIff(rows: Table, now: Time, types: set<JobType>, tags: set<string>, cap: int, job: Job)
    ensures Matches(job, now, types) && Eligible(rows, tags, cap, job)
      <==> && job.status.Queued? && !job.cancelRequested && job.nextRunAt <= now && (types != {} ==> job.jobType in types)
           && (forall tag | tag in job.requiredTags :: tag in tags)
           && (job.concurrencyKey.Some? && job.concurrencyKey.value != ""
               ==> forall id | id in rows && rows[id].job.status.Running? :: rows[id].job.concurrencyKey != job.concurrencyKey)
           && (job.tenant.Some? && job.tenant.value != "" && cap > 0
               ==> |set id | id in rows && rows[id].job.status.Running? && rows[id].job.tenant == job.tenant| < cap)
  {
    if Named(job.concurrencyKey) {
      var held := RunningWithKey(rows, job.concurrencyKey.value);
      assert held == {} <==> forall id | id in rows :: id !in held;
    }
    assert RunningOf(rows, job.tenant)
      == set id | id in rows && rows[id].job.status.Running? && rows[id].job.tenant == job.tenant;
  }

  lemma UnmatchedIsNotSelected(cfg: Settings, rows: Table, now: Time, types: set<JobType>, tags: set<string>, id: JobId)
    requires id in rows && !Matches(rows[id].job, now, types)
    ensures !Selects(cfg, rows, now, types, tags, Some(id))
  {
  }

  lemma StepKeepsCaps(cfg: Settings, s: System, e: Event, t: System)
    requires cfg.Valid() && Step(cfg, s, e, t) && CapsOk(cfg, s.rows)
    ensures CapsOk(cfg, t.rows)
  {
    OnlyClaimsStart(cfg, s, e, t);
    if e.ClaimEvent? {
      var rows := ReclaimAll(s.rows, e.now);
      StartingNothingKeepsCaps(cfg, s.rows, rows);
      if t.rows != rows {
        var id := e.choice.value;
        SelectedIsEligible(cfg, rows, e.now, e.types, e.tags, id);
        StartingOneKeepsCaps(cfg, rows, id, e.worker, e.tags, t.rows[id]);
      }
    } else {
      StartingNothingKeepsCaps(cfg, s.rows, t.rows);
    }
  }

  /**
   In every reachable state no worker and no named tenant runs more than its cap,
   and at most one running job holds any concurrency key.
   */
  lemma {:induction false} RunKeepsCaps(cfg: Settings, ss: seq<System>, es: seq<Event>, n: nat)
    requires cfg.Valid() && Run(cfg, ss, es) && n < |ss|
    ensures CapsOk(cfg, ss[n].rows)
    ensures forall worker ::
      |set id | id in ss[n].rows && ss[n].rows[id].job.status.Running? && ss[n].rows[id].job.worker == Some(worker)|
      <= cfg.workerCap
    ensures forall tenant: string | tenant != "" ::
      |set id | id in ss[n].rows && ss[n].rows[id].job.status.Running? && ss[n].rows[id].job.tenant == Some(tenant)|
      <= cfg.tenantCap
    ensures forall id1, id2 | id1 in ss[n].rows && id2 in ss[n].rows ::
      var a, b := ss[n].rows[id1].job, ss[n].rows[id2].job;
      a.status.Running? && b.status.Running? && a.concurrencyKey == b.concurrencyKey && Named(a.concurrencyKey)
      ==> id1 == id2
  {
    if n == 0 {
      forall w ensures |RunningOn(EMPTY.rows, w)| <= cfg.workerCap { assert RunningOn(EMPTY.rows, w) == {}; }
      forall t ensures |RunningOf(EMPTY.rows, t)| <= cfg.tenantCap { assert RunningOf(EMPTY.rows, t) == {}; }
      forall k ensures |RunningWithKey(EMPTY.rows, k)| <= 1 { assert RunningWithKey(EMPTY.rows, k) == {}; }
    } else {
      RunKeepsCaps(cfg, ss, es, n - 1);
      assert StepAt(cfg, ss, es, n - 1);
      StepKeepsCaps(cfg, ss[n - 1], es[n - 1], ss[n]);
    }
    KeysAreExclusive(cfg, ss[n].rows);
    CapsCount(cfg, ss[n].rows);
  }

  lemma CapsCount(cfg: Settings, rows: Table)
    requires CapsOk(cfg, rows)
    ensures forall worker ::
      |set id | id in rows && rows[id].job.status.Running? && rows[id].job.worker == Some(worker)| <= cfg.workerCap
    ensures forall tenant: string | tenant != "" ::
      |set id | id in rows && rows[id].job.status.Running? && rows[id].job.tenant == Some(tenant)| <= cfg.tenantCap
  {
    forall worker
      ensures |set id | id in rows && rows[id].job.status.Running? && rows[id].job.worker == Some(worker)| <= cfg.workerCap
    {
      assert RunningOn(rows, worker)
        == set id | id in rows && rows[id].job.status.Running? && rows[id].job.worker == Some(worker);
    }
    forall tenant: string | tenant != ""
      ensures |set id | id in rows && rows[id].job.status.Running? && rows[id].job.tenant == Some(tenant)| <= cfg.tenantCap
    {
      assert RunningOf(rows, Some(tenant))
        == set id | id in rows && rows[id].job.status.Running? && rows[id].job.tenant == Some(tenant);
    }
  }

  lemma KeysAreExclusive(cfg: Settings, rows: Table)
    requires CapsOk(cfg, rows)
    ensures forall id1, id2 | id1 in rows && id2 in rows ::
      var a, b := rows[id1].job, rows[id2].job;
      a.status.Running? && b.status.Running? && a.concurrencyKey == b.concurrencyKey && Named(a.concurrencyKey)
      ==> id1 == id2
  {
    forall id1, id2 | id1 in rows && id2 in rows && rows[id1].job.status.Running? && rows[id2].job.status.Running?
                      && rows[id1].job.concurrencyKey == rows[id2].job.concurrencyKey && Named(rows[id1].job.concurrencyKey)
      ensures id1 == id2
    {
      SubsetSize({id1, id2}, RunningWithKey(rows, rows[id1].job.concurrencyKey.value));
    }
  }

  // ---- Success and waiting -------------------------------------------------

  /** No close-out can reach a succeeded row: its cancel flag is down. */
  ghost predicate SuccessesOk(rows: Table) {
    forall id | id in rows && rows[id].job.status.Succeeded? :: !rows[id].job.cancelRequested
  }

  lemma StepKeepsSuccesses(cfg: Settings, s: System, e: Event, t: System)
    requires Step(cfg, s, e, t) && SuccessesOk(s.rows)
    ensures SuccessesOk(t.rows)
  {
  }

  lemma {:induction false} RunKeepsSuccesses(cfg: Settings, ss: seq<System>, es: seq<Event>, n: nat)
    requires Run(cfg, ss, es) && n < |ss|
    ensures SuccessesOk(ss[n].rows)
  {
    if n > 0 {
      RunKeepsSuccesses(cfg, ss, es, n - 1);
      assert StepAt(cfg, ss, es, n - 1);
      StepKeepsSuccesses(cfg, ss[n - 1], es[n - 1], ss[n]);
    }
  }

  /** A completion that writes row `id`. */
  predicate Reports(s: System, e: Event, id: JobId) {
    e.Completes() && e.token in s.granted && s.granted[e.token].id == id
  }

  lemma StepUndoesSuccessIff(cfg: Settings, s: System, e: Event, t: System, id: JobId)
    requires Step(cfg, s, e, t) && SuccessesOk(s.rows) && id in s.rows && s.rows[id].job.status.Succeeded?
    ensures id in t.rows
    ensures !t.rows[id].job.status.Succeeded? <==> e.FailEvent? && Reports(s, e, id)
    ensures !t.rows[id].job.status.Succeeded? ==> t.rows[id].job.status.Queued? || t.rows[id].job.status.Failed?
  {
    if e.ClaimEvent? {
      UnmatchedIsNotSelected(cfg, ReclaimAll(s.rows, e.now), e.now, e.types, e.tags, id);
    }
  }

  /**
   A step from any reachable state, stale completions included, undoes a success exactly
   when it is a failure reported by the holder of some lease of that job.
   */
  lemma SuccessIsUndoneIff(cfg: Settings, ss: seq<System>, es: seq<Event>, n: nat, id: JobId)
    requires Run(cfg, ss, es) && n < |es| && id in ss[n].rows && ss[n].rows[id].job.status.Succeeded?
    ensures id in ss[n + 1].rows
    ensures !ss[n + 1].rows[id].job.status.Succeeded? <==> es[n].FailEvent? && Reports(ss[n], es[n], id)
    ensures !ss[n + 1].rows[id].job.status.Succeeded?
      ==> ss[n + 1].rows[id].job.status.Queued? || ss[n + 1].rows[id].job.status.Failed?
  {
    RunKeepsSuccesses(cfg, ss, es, n);
    assert StepAt(cfg, ss, es, n);
    StepUndoesSuccessIff(cfg, ss[n], es[n], ss[n + 1], id);
  }

  predicate SucceededAt(s: System, id: JobId) {
    id in s.rows && s.rows[id].job.status.Succeeded?
  }

  predicate ReportsFailure(s: System, e: Event, id: JobId) {
    e.FailEvent? && Reports(s, e, id)
  }

  predicate SucceededThroughout(ss: seq<System>, id: JobId, from: nat, to: nat)
    requires from <= to < |ss|
  {
    forall i | from <= i <= to :: SucceededAt(ss[i], id)
  }

  predicate NoFailureReported(ss: seq<System>, es: seq<Event>, id: JobId, from: nat, to: nat)
    requires from <= to <= |es| <= |ss|
  {
    forall i | from <= i < to :: !ReportsFailure(ss[i], es[i], id)
  }

  lemma SuccessStays(cfg: Settings, ss: seq<System>, es: seq<Event>, n: nat, id: JobId)
    requires Run(cfg, ss, es) && n < |es| && SucceededAt(ss[n], id)
    ensures SucceededAt(ss[n + 1], id) <==> !ReportsFailure(ss[n], es[n], id)
  {
    SuccessIsUndoneIff(cfg, ss, es, n, id);
  }

  lemma {:induction false} ThroughoutByStep(ss: seq<System>, es: seq<Event>, id: JobId, from: nat, to: nat)
    requires from <= to <= |es| < |ss| && SucceededAt(ss[from], id)
    requires forall i | from <= i < to && SucceededAt(ss[i], id) ::
      SucceededAt(ss[i + 1], id) <==> !ReportsFailure(ss[i], es[i], id)
    ensures SucceededThroughout(ss, id, from, to) <==> NoFailureReported(ss, es, id, from, to)
  {
    if from < to {
      ThroughoutByStep(ss, es, id, from, to - 1);
      assert SucceededThroughout(ss, id, from, to)
        <==> SucceededThroughout(ss, id, from, to - 1) && SucceededAt(ss[to - 1 + 1], id);
      assert NoFailureReported(ss, es, id, from, to)
        <==> NoFailureReported(ss, es, id, from, to - 1) && !ReportsFailure(ss[to - 1], es[to - 1], id);
      assert SucceededThroughout(ss, id, from, to - 1) ==> SucceededAt(ss[to - 1], id);
    }
  }

  /** So over any stretch of any run a success lasts exactly when nobody reports a failure of that job. */
  lemma SuccessLastsIff(cfg: Settings, ss: seq<System>, es: seq<Event>, id: JobId, from: nat, to: nat)
    requires Run(cfg, ss, es) && from <= to < |ss| && SucceededAt(ss[from], id)
    ensures SucceededThroughout(ss, id, from, to) <==> NoFailureReported(ss, es, id, from, to)
  {
    forall i | from <= i < to && SucceededAt(ss[i], id)
      ensures SucceededAt(ss[i + 1], id) <==> !ReportsFailure(ss[i], es[i], id)
    {
      SuccessStays(cfg, ss, es, i, id);
    }
    ThroughoutByStep(ss, es, id, from, to);
  }

  /** Queued with the cancel flag set, as a running job is left that was cancelled and then lost its lease. */
  predicate Waits(job: Job) {
    job.status.Queued? && job.cancelRequested
  }

  /**
   In any run a waiting row stays as it is until it is cancelled again, or a worker that lost
   its lease on it reports a success or closes it out.
   */
  lemma WaitEndsIff(cfg: Settings, s: System, e: Event, t: System, id: JobId)
    requires Step(cfg, s, e, t) && id in s.rows && Waits(s.rows[id].job)
    ensures id in t.rows
    ensures var ends := (e.CancelEvent? && e.id == id) || (!e.FailEvent? && Reports(s, e, id));
      if ends then !Waits(t.rows[id].job) else t.rows[id] == s.rows[id]
  {
    if e.ClaimEvent? {
      UnmatchedIsNotSelected(cfg, ReclaimAll(s.rows, e.now), e.now, e.types, e.tags, id);
    }
  }

  // ---- Tokens ------------------------------------------------------------

  /** Equal but for what `cancel_job` writes: the time, the summary and the cancel flag. */
  predicate Agrees(row: Row, snapshot: Row) {
    && row.job == snapshot.job.(updatedAt := row.job.updatedAt, summary := row.job.summary,
                                cancelRequested := row.job.cancelRequested)
    && row.payload == snapshot.payload.(updatedAt := row.payload.updatedAt, summary := row.payload.summary,
                                        cancelRequested := row.payload.cancelRequested)
  }

  predicate GrantOk(token: Token, g: Grant) {
    && g.row.job.status.Running? && g.row.payload.status.Running? && !g.row.job.cancelRequested
    && g.row.job.leaseToken == Some(token) && g.row.payload.leaseToken == Some(token)
    && g.row.job.leaseExpiresAt.Some? && g.row.payload.leaseExpiresAt == g.row.job.leaseExpiresAt
    && g.row.job.worker == Some(g.worker)
  }

  /** Tokens in the table were granted, and a row still carrying one is what its worker was given. */
  ghost predicate TokensOk(s: System) {
    && (forall token | token in s.granted :: GrantOk(token, s.granted[token]) && s.granted[token].id in s.rows)
    && (forall id | id in s.rows && s.rows[id].job.leaseToken.Some? ::
          var token := s.rows[id].job.leaseToken.value;
          token in s.granted && s.granted[token].id == id && Agrees(s.rows[id], s.granted[token].row))
  }

  /** Rows that carry a token in `after` carried it in `before` and differ at most as a cancel makes them. */
  ghost predicate OnlyDropsTokens(before: Table, after: Table) {
    && before.Keys <= after.Keys
    && forall id | id in after && after[id].job.leaseToken.Some? :: id in before && Agrees(after[id], before[id])
  }

  lemma DroppingKeepsTokens(s: System, t: System)
    requires TokensOk(s) && t.granted == s.granted && OnlyDropsTokens(s.rows, t.rows)
    ensures TokensOk(t)
  {
  }

  lemma CancelAgrees(s: System, id: JobId, actor: string, now: Time)
    requires TokensOk(s) && id in s.rows && s.rows[id].job.leaseToken.Some?
    ensures Agrees(CancelRow(s.rows[id], actor, now), s.rows[id])
  {
  }

  lemma ReclaimDropsTokens(rows: Table, now: Time)
    ensures OnlyDropsTokens(rows, ReclaimAll(rows, now))
  {
  }

  /** Writing a row without a token, or one that agrees with the row it replaces. */
  lemma WriteDropsTokens(rows: Table, id: JobId, row: Row)
    requires row.job.leaseToken.Some? ==> id in rows && Agrees(row, rows[id])
    ensures OnlyDropsTokens(rows, rows[id := row])
  {
  }

  lemma OnlyClaimsGrant(cfg: Settings, s: System, e: Event, t: System)
    requires Step(cfg, s, e, t) && LeasesOk(s.rows) && TokensOk(s) && !e.ClaimEvent?
    ensures OnlyDropsTokens(s.rows, t.rows) && t.granted == s.granted
  {
    match e
    case EnqueueEvent(_, id, _) => WriteDropsTokens(s.rows, id, t.rows[id]);
    case ReclaimEvent(now) => ReclaimDropsTokens(s.rows, now);
    case SucceedEvent(_, token, _) => WriteDropsTokens(s.rows, s.granted[token].id, t.rows[s.granted[token].id]);
    case FailEvent(_, token, _, _) => WriteDropsTokens(s.rows, s.granted[token].id, t.rows[s.granted[token].id]);
    case FinalizeEvent(_, token, _) => WriteDropsTokens(s.rows, s.granted[token].id, t.rows[s.granted[token].id]);
    case CancelEvent(now, id, actor) =>
      if s.rows[id].job.leaseToken.Some? {
        CancelAgrees(s, id, actor, now);
      }
      WriteDropsTokens(s.rows, id, t.rows[id]);
    case ResumeEvent(_, id, _) => WriteDropsTokens(s.rows, id, t.rows[id]);
  }

  lemma ClaimKeepsTokens(cfg: Settings, s: System, e: Event, t: System)
    requires e.ClaimEvent? && ClaimStep(cfg, s, e, t) && TokensOk(s)
    ensures TokensOk(t)
  {
    var middle := s.(rows := ReclaimAll(s.rows, e.now));
    ReclaimDropsTokens(s.rows, e.now);
    DroppingKeepsTokens(s, middle);
    if t != middle {
      SelectedIsEligible(cfg, middle.rows, e.now, e.types, e.tags, e.choice.value);
      GrantingKeepsTokens(middle, e.choice.value, e.worker, e.token, cfg.leaseSeconds, e.now);
    }
  }

  lemma GrantingKeepsTokens(s: System, id: JobId, worker: string, token: Token, leaseSeconds: int, now: Time)
    requires TokensOk(s) && id in s.rows && token !in s.granted && !s.rows[id].job.cancelRequested
    ensures var row := ClaimRow(s.rows[id], worker, token, leaseSeconds, now);
      TokensOk(System(s.rows[id := row], s.granted[token := Grant(id, worker, row)]))
  {
  }

  lemma StepKeepsTokens(cfg: Settings, s: System, e: Event, t: System)
    requires Step(cfg, s, e, t) && LeasesOk(s.rows) && TokensOk(s)
    ensures TokensOk(t)
  {
    if e.ClaimEvent? {
      ClaimKeepsTokens(cfg, s, e, t);
    } else {
      OnlyClaimsGrant(cfg, s, e, t);
      DroppingKeepsTokens(s, t);
    }
  }

  lemma {:induction false} RunKeepsTokens(cfg: Settings, ss: seq<System>, es: seq<Event>, n: nat)
    requires Run(cfg, ss, es) && n < |ss|
    ensures TokensOk(ss[n])
  {
    if n > 0 {
      RunKeepsTokens(cfg, ss, es, n - 1);
      RunKeepsLeases(cfg, ss, es, n - 1);
      assert StepAt(cfg, ss, es, n - 1);
      StepKeepsTokens(cfg, ss[n - 1], es[n - 1], ss[n]);
    }
  }

  // ---- The stored payload mirrors the columns ------------------------------

  /** The error message is left out: a claim clears only the column. */
  predicate Mirror(row: Row) {
    var j, p := row.job, row.payload;
    && p.status == j.status && p.worker == j.worker && p.attempts == j.attempts && p.budgetUsed == j.budgetUsed
    && p.nextRunAt == j.nextRunAt && p.leaseToken == j.leaseToken && p.leaseExpiresAt == j.leaseExpiresAt
    && p.rehydrations == j.rehydrations && p.cancelRequested == j.cancelRequested
    && p.updatedAt == j.updatedAt && p.summary == j.summary
    && p.concurrencyKey == j.concurrencyKey && p.requiredTags == j.requiredTags
  }

  ghost predicate Mirrored(s: System) {
    && (forall id | id in s.rows :: Mirror(s.rows[id]))
    && (forall token | token in s.granted :: Mirror(s.granted[token].row))
  }

  /** A close-out by the worker the row names. Every fenced close-out is one. */
  predicate ClosesOwnRow(s: System, e: Event) {
    e.FinalizeEvent? ==>
      && e.token in s.granted && s.granted[e.token].id in s.rows
      && s.rows[s.granted[e.token].id].job.worker == Some(s.granted[e.token].worker)
  }

  lemma FencedClosesOwnRow(s: System, e: Event)
    requires TokensOk(s) && Fenced(s, e)
    ensures ClosesOwnRow(s, e)
  {
    if e.FinalizeEvent? {
      var g := s.granted[e.token];
      assert Agrees(s.rows[g.id], g.row) && GrantOk(e.token, g);
    }
  }

  /** Whether a close-out keeps the mirror is decided by the worker column alone. */
  lemma FinalizeMirrorsIff(row: Row, worker: string, summary: string, now: Time)
    requires Mirror(row)
    ensures Mirror(FinalizeRow(row, worker, summary, now)) <==> row.job.worker == Some(worker)
  {
  }

  /** A completion's write mirrors when the claim's snapshot did, whatever the row has become. */
  lemma FinishMirrors(cfg: Settings, snapshot: Row, latest: Row, worker: string, text: string, charge: int, now: Time)
    requires Mirror(snapshot) && !snapshot.job.cancelRequested
    ensures Mirror(SucceedRow(cfg, snapshot, worker, text, now))
    ensures Mirror(FailRow(cfg, snapshot, latest, worker, charge, text, now))
  {
  }

  lemma ManageMirrors(row: Row, actor: string, reset: bool, now: Time)
    requires Mirror(row)
    ensures Mirror(CancelRow(row, actor, now)) && Mirror(ResumeRow(row, reset, now))
  {
  }

  /** The row a step writes mirrors its columns, but for a close-out by a worker the row does not name. */
  lemma WritesMirror(cfg: Settings, s: System, e: Event, t: System, id: JobId)
    requires Step(cfg, s, e, t) && TokensOk(s) && Mirrored(s)
    requires !e.ClaimEvent? && !e.FinalizeEvent? && id in t.rows
    ensures Mirror(t.rows[id])
  {
    match e
    case EnqueueEvent(_, _, _) =>
    case ReclaimEvent(now) =>
      ReclaimMirrors(s.rows, now);
    case SucceedEvent(now, token, summary) =>
      var g := s.granted[token];
      FinishMirrors(cfg, g.row, g.row, g.worker, summary, 0, now);
    case FailEvent(now, token, charge, error) =>
      var g := s.granted[token];
      FinishMirrors(cfg, g.row, s.rows[g.id], g.worker, error, charge, now);
    case CancelEvent(now, target, actor) =>
      ManageMirrors(s.rows[target], actor, false, now);
    case ResumeEvent(now, target, reset) =>
      ManageMirrors(s.rows[target], "", reset, now);
  }

  lemma ReclaimMirrors(rows: Table, now: Time)
    requires forall id | id in rows :: Mirror(rows[id])
    ensures forall id | id in ReclaimAll(rows, now) :: Mirror(ReclaimAll(rows, now)[id])
  {
  }

  lemma ClaimMirrors(row: Row, worker: string, token: Token, leaseSeconds: int, now: Time)
    requires Mirror(row)
    ensures Mirror(ClaimRow(row, worker, token, leaseSeconds, now))
  {
  }

  lemma ClaimKeepsMirror(cfg: Settings, s: System, e: Event, t: System)
    requires e.ClaimEvent? && ClaimStep(cfg, s, e, t) && Mirrored(s)
    ensures Mirrored(t)
  {
    var rows := ReclaimAll(s.rows, e.now);
    ReclaimMirrors(s.rows, e.now);
    if t.rows != rows {
      ClaimMirrors(rows[e.choice.value], e.worker, e.token, cfg.leaseSeconds, e.now);
    }
  }

  lemma FinalizeKeepsMirrorIff(cfg: Settings, s: System, e: Event, t: System)
    requires e.FinalizeEvent? && Step(cfg, s, e, t) && Mirrored(s)
    ensures ClosesOwnRow(s, e) <==> Mirrored(t)
  {
    var g := s.granted[e.token];
    FinalizeMirrorsIff(s.rows[g.id], g.worker, e.summary, e.now);
    assert Mirrored(t) ==> Mirror(t.rows[g.id]);
  }

  /** A step keeps the mirror unless it is a close-out by a worker the row does not name, and then it breaks it. */
  lemma StepKeepsMirrorIff(cfg: Settings, s: System, e: Event, t: System)
    requires Step(cfg, s, e, t) && TokensOk(s) && Mirrored(s)
    ensures ClosesOwnRow(s, e) <==> Mirrored(t)
  {
    if e.FinalizeEvent? {
      FinalizeKeepsMirrorIff(cfg, s, e, t);
    } else if e.ClaimEvent? {
      ClaimKeepsMirror(cfg, s, e, t);
    } else {
      forall id | id in t.rows ensures Mirror(t.rows[id]) {
        WritesMirror(cfg, s, e, t, id);
      }
    }
  }

  /**
   The payload of every row mirrors its columns in every state of a run in which
   each close-out is by the worker its row names; success and failure writes may be stale.
   */
  lemma {:induction false} RunKeepsMirror(cfg: Settings, ss: seq<System>, es: seq<Event>, n: nat)
    requires Run(cfg, ss, es) && n < |ss|
    requires forall i | 0 <= i < n :: ClosesOwnRow(ss[i], es[i])
    ensures Mirrored(ss[n])
  {
    if n > 0 {
      RunKeepsMirror(cfg, ss, es, n - 1);
      RunKeepsTokens(cfg, ss, es, n - 1);
      assert StepAt(cfg, ss, es, n - 1);
      StepKeepsMirrorIff(cfg, ss[n - 1], es[n - 1], ss[n]);
    }
  }

  /** In particular every fenced run keeps the mirror. */
  lemma FencedRunKeepsMirror(cfg: Settings, ss: seq<System>, es: seq<Event>, n: nat)
    requires Run(cfg, ss, es) && FencedPath(ss, es) && n < |ss|
    ensures Mirrored(ss[n])
  {
    forall i | 0 <= i < n ensures ClosesOwnRow(ss[i], es[i]) {
      RunKeepsTokens(cfg, ss, es, i);
      FencedClosesOwnRow(ss[i], es[i]);
    }
    RunKeepsMirror(cfg, ss, es, n);
  }
}
