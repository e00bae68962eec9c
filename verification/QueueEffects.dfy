/**
 What each step writes, column by column: which columns of which row change, and to what.
 These are the readings of the table that the rest of the system and its operators rely on.
 */
module QueueEffects {
  import opened Common
  import opened QueueModel
  import opened QueueSafety
  import Timestamps

  /** A second on the calendar is a second on the queue's clock. */
  lemma SecondIsASecond(t: Timestamps.Stamp)
    requires t.Valid() && t.second < 59
    ensures t.(second := t.second + 1).Valid() && t.(second := t.second + 1).Instant() == t.Instant() + SECOND
  {
  }

  datatype Column =
    | UpdatedAt | StatusColumn | Worker | Attempts | BudgetUsed | NextRunAt | Summary
    | LeaseToken | LeaseExpiry | Rehydrations | CancelFlag | ErrorMessage

  /** The columns an enqueue fills and nothing changes afterwards. */
  predicate SameAsked(a: Row, b: Row) {
    && a.job.jobType == b.job.jobType && a.job.tenant == b.job.tenant && a.job.priority == b.job.priority
    && a.job.createdAt == b.job.createdAt && a.job.maxAttempts == b.job.maxAttempts
    && a.job.budgetUnits == b.job.budgetUnits && a.job.concurrencyKey == b.job.concurrencyKey
    && a.job.requiredTags == b.job.requiredTags && a.payload.provider == b.payload.provider
  }

  /** `b` differs from `a` in the given columns at most. */
  predicate KeepsAllBut(a: Row, b: Row, columns: set<Column>) {
    && SameAsked(a, b)
    && (UpdatedAt !in columns ==> a.job.updatedAt == b.job.updatedAt)
    && (StatusColumn !in columns ==> a.job.status == b.job.status)
    && (Worker !in columns ==> a.job.worker == b.job.worker)
    && (Attempts !in columns ==> a.job.attempts == b.job.attempts)
    && (BudgetUsed !in columns ==> a.job.budgetUsed == b.job.budgetUsed)
    && (NextRunAt !in columns ==> a.job.nextRunAt == b.job.nextRunAt)
    && (Summary !in columns ==> a.job.summary == b.job.summary)
    && (LeaseToken !in columns ==> a.job.leaseToken == b.job.leaseToken)
    && (LeaseExpiry !in columns ==> a.job.leaseExpiresAt == b.job.leaseExpiresAt)
    && (Rehydrations !in columns ==> a.job.rehydrations == b.job.rehydrations)
    && (CancelFlag !in columns ==> a.job.cancelRequested == b.job.cancelRequested)
    && (ErrorMessage !in columns ==> a.job.error == b.job.error)
  }

  /** Only row `id` changes. */
  predicate OnlyRow(before: Table, after: Table, id: JobId) {
    after.Keys == before.Keys + {id} && forall other | other in before && other != id :: after[other] == before[other]
  }

  // ---- Prices ------------------------------------------------------------

  /** The price list of the settings. */
  predicate IsPrice(cfg: Settings, jobType: JobType, provider: string, units: int) {
    && (jobType.Verify? ==> units == cfg.costVerify)
    && (jobType.Deliver? ==> units == cfg.costDeliver)
    && (jobType.Plan? && provider == "openai" ==> units == cfg.costPlanOpenai)
    && (jobType.Plan? && provider != "openai" ==> units == cfg.costPlanHeuristic)
  }

  /** An attempt is priced by the job's type and the provider's name without the white space around it. */
  lemma AttemptCostIsPrice(cfg: Settings, row: Row)
    ensures IsPrice(cfg, row.job.jobType, Strip(row.payload.provider), AttemptCost(cfg, row))
  {
  }

  // ---- Enqueue -----------------------------------------------------------

  /** The attempts a request asks for: its own number, unless missing or zero; else one delivery or the default. */
  predicate AsksAttempts(cfg: Settings, req: Request, n: int) {
    if req.maxAttempts.Some? && req.maxAttempts.value != 0 then n == req.maxAttempts.value
    else if req.jobType.Deliver? then n == 1 else n == cfg.maxAttempts
  }

  /** The budget it asks for: its own, unless missing or zero; else the price, of the name as given, for every attempt. */
  ghost predicate AsksBudget(cfg: Settings, req: Request, units: int) {
    if req.budgetUnits.Some? && req.budgetUnits.value != 0 then units == req.budgetUnits.value
    else exists price, n :: IsPrice(cfg, req.jobType, req.provider, price) && AsksAttempts(cfg, req, n) && units == price * n
  }

  /** The row holds what the request asks for. */
  ghost predicate AsAsked(cfg: Settings, req: Request, now: Time, row: Row) {
    && row.job.jobType == req.jobType && row.job.tenant == req.tenant && row.job.priority == req.priority
    && row.job.createdAt == now && row.payload.provider == req.provider
    && AsksAttempts(cfg, req, row.job.maxAttempts) && AsksBudget(cfg, req, row.job.budgetUnits)
    && (if req.concurrencyKey.Some? && Strip(req.concurrencyKey.value) != ""
        then row.job.concurrencyKey == Some(Strip(req.concurrencyKey.value)) else row.job.concurrencyKey == None)
    && (forall tag :: tag in row.job.requiredTags <==> tag != "" && exists raw :: raw in req.tags && Strip(raw) == tag)
  }

  lemma EnqueuedAsAsked(cfg: Settings, req: Request, now: Time)
    ensures AsAsked(cfg, req, now, NewRow(cfg, req, now))
  {
    var row := NewRow(cfg, req, now);
    var price, n := cfg.EstimateUnits(req.jobType, req.provider), row.job.maxAttempts;
    assert IsPrice(cfg, req.jobType, req.provider, price) && AsksAttempts(cfg, req, n);
    assert row.job.budgetUnits == price * n || (req.budgetUnits.Some? && row.job.budgetUnits == req.budgetUnits.value);
  }

  /** A new job holds what was asked for, has nothing behind it, and can be claimed from the moment it is enqueued. */
  lemma EnqueueEffect(cfg: Settings, s: System, e: Event, t: System)
    requires Step(cfg, s, e, t) && e.EnqueueEvent?
    ensures e.id !in s.rows && OnlyRow(s.rows, t.rows, e.id) && t.granted == s.granted
    ensures AsAsked(cfg, e.req, e.now, t.rows[e.id]) && Mirror(t.rows[e.id])
    ensures var j := t.rows[e.id].job;
      && j.updatedAt == e.now && j.status.Queued? && j.worker.None? && j.attempts == 0 && j.budgetUsed == 0
      && j.summary == e.req.summary && j.leaseToken.None? && j.rehydrations == 0 && !j.cancelRequested && j.error.None?
      && forall now, types :: Matches(j, now, types) <==> e.now <= now && (types == {} || e.req.jobType in types)
    ensures t.rows[e.id].payload.error.None? && t.rows[e.id].payload.resumeState.None?
  {
    EnqueuedAsAsked(cfg, e.req, e.now);
  }

  /** When an enqueue is refused, and why: the first of four limits that is reached. */
  lemma EnqueueCheckIs(cfg: Settings, rows: Table, req: Request, units: int)
    requires AsksBudget(cfg, req, units)
    ensures var pending := |set id | id in rows && (rows[id].job.status.Queued? || rows[id].job.status.Running?)|;
      var ofTenant := |set id | id in rows && (rows[id].job.status.Queued? || rows[id].job.status.Running?)
                                && rows[id].job.tenant == req.tenant|;
      var check := EnqueueCheck(cfg, rows, req);
      && (check == Some(BudgetNotPositive) <==> units <= 0)
      && (check == Some(BudgetAboveJobLimit) <==> units > 0 && units > cfg.maxUnitsPerJob)
      && (check == Some(PendingExhausted) <==> 0 < units <= cfg.maxUnitsPerJob && pending >= cfg.maxPending)
      && (check == Some(TenantPendingExhausted)
          <==> 0 < units <= cfg.maxUnitsPerJob && pending < cfg.maxPending
               && req.tenant.Some? && ofTenant >= cfg.maxPendingPerTenant)
      && (check == None
          <==> 0 < units <= cfg.maxUnitsPerJob && pending < cfg.maxPending
               && (req.tenant.Some? ==> ofTenant < cfg.maxPendingPerTenant))
  {
    BudgetIsUnique(cfg, req, units);
    assert PendingJobs(rows) == set id | id in rows && (rows[id].job.status.Queued? || rows[id].job.status.Running?);
    assert PendingOf(rows, req.tenant) == set id | id in rows
      && (rows[id].job.status.Queued? || rows[id].job.status.Running?) && rows[id].job.tenant == req.tenant;
  }

  lemma BudgetIsUnique(cfg: Settings, req: Request, units: int)
    requires AsksBudget(cfg, req, units)
    ensures units == ResolvedBudget(cfg, req)
  {
    if !(req.budgetUnits.Some? && req.budgetUnits.value != 0) {
      var price, n :| IsPrice(cfg, req.jobType, req.provider, price) && AsksAttempts(cfg, req, n) && units == price * n;
      assert price == cfg.EstimateUnits(req.jobType, req.provider) && n == ResolvedAttempts(cfg, req);
    }
  }

  // ---- Reclaim and claim -------------------------------------------------

  /** An expired row is queued again as it was, one rehydration on; it is due when it was due before. */
  lemma ReclaimEffect(rows: Table, now: Time, id: JobId)
    requires id in rows && Expired(rows[id].job, now)
    ensures id in ReclaimAll(rows, now)
    ensures var a, b := rows[id], ReclaimAll(rows, now)[id];
      && KeepsAllBut(a, b, {UpdatedAt, StatusColumn, Worker, LeaseToken, LeaseExpiry, Rehydrations})
      && b.job.updatedAt == now && b.job.status.Queued? && b.job.worker.None? && b.job.leaseToken.None?
      && b.job.leaseExpiresAt.None? && b.job.rehydrations == a.job.rehydrations + 1
      && b.payload.error == a.payload.error
  {
  }

  /** A claim starts one row that was waiting, for one worker, under its token, and for exactly the lease time. */
  lemma ClaimEffect(cfg: Settings, s: System, e: Event, t: System)
    requires Step(cfg, s, e, t) && e.ClaimEvent? && e.choice.Some?
    ensures var id := e.choice.value;
      && id in s.rows && OnlyRow(ReclaimAll(s.rows, e.now), t.rows, id)
      && var a, b := ReclaimAll(s.rows, e.now)[id], t.rows[id];
         && KeepsAllBut(a, b, {UpdatedAt, StatusColumn, Worker, Attempts, LeaseToken, LeaseExpiry, ErrorMessage})
         && b.job.updatedAt == e.now && b.job.status.Running? && b.job.worker == Some(e.worker)
         && b.job.attempts == a.job.attempts + 1 && b.job.leaseToken == Some(e.token) && b.job.error.None?
         && b.payload.error == a.payload.error && b.payload.resumeState == a.payload.resumeState
         && t.granted == s.granted[e.token := Grant(id, e.worker, b)]
    ensures forall now :: Expired(t.rows[e.choice.value].job, now) <==> now >= e.now + cfg.leaseSeconds * SECOND
  {
  }

  lemma {:induction false} GrantsStay(cfg: Settings, ss: seq<System>, es: seq<Event>, from: nat, n: nat, token: Token)
    requires Run(cfg, ss, es) && from <= n < |ss| && token in ss[from].granted
    ensures token in ss[n].granted && ss[n].granted[token] == ss[from].granted[token]
  {
    if from < n {
      GrantsStay(cfg, ss, es, from, n - 1, token);
      assert StepAt(cfg, ss, es, n - 1);
    }
  }

  /**
   A lease lasts as long as the settings say. While a row carries the token of a claim it is
   reclaimed exactly by a pass that comes the lease time after the claim or later, whatever
   else happened in the run.
   */
  lemma LeaseLasts(cfg: Settings, ss: seq<System>, es: seq<Event>, c: nat, n: nat)
    requires Run(cfg, ss, es) && c < n < |ss| && es[c].ClaimEvent? && es[c].choice.Some?
    requires es[c].choice.value in ss[n].rows && ss[n].rows[es[c].choice.value].job.leaseToken == Some(es[c].token)
    ensures forall now :: var id := es[c].choice.value;
      ReclaimAll(ss[n].rows, now)[id].job.leaseToken.None? <==> now >= es[c].now + cfg.leaseSeconds * SECOND
  {
    assert StepAt(cfg, ss, es, c);
    ClaimEffect(cfg, ss[c], es[c], ss[c + 1]);
    GrantsStay(cfg, ss, es, c + 1, n, es[c].token);
    RunKeepsTokens(cfg, ss, es, n);
    RunKeepsLeases(cfg, ss, es, n);
    HeldLease(ss[n], es[c].choice.value, es[c].token);
  }

  /** A row that carries a token has the expiry it was granted with. */
  lemma HeldLease(s: System, id: JobId, token: Token)
    requires TokensOk(s) && LeasesOk(s.rows) && id in s.rows && s.rows[id].job.leaseToken == Some(token)
    ensures token in s.granted && s.rows[id].job.leaseExpiresAt == s.granted[token].row.job.leaseExpiresAt
    ensures s.rows[id].job.status.Running?
  {
    assert Agrees(s.rows[id], s.granted[token].row);
  }

  // ---- Completion --------------------------------------------------------

  /**
   A success writes the row as the worker was given it, whatever it has become: finished, off
   its lease, no longer asked to cancel, and charged with the price of one more attempt.
   */
  lemma SuccessEffect(cfg: Settings, s: System, e: Event, t: System, price: int)
    requires Step(cfg, s, e, t) && e.SucceedEvent?
    requires var g := s.granted[e.token]; IsPrice(cfg, g.row.job.jobType, Strip(g.row.payload.provider), price)
    ensures var g := s.granted[e.token];
      && OnlyRow(s.rows, t.rows, g.id) && t.granted == s.granted
      && var b := t.rows[g.id];
         && KeepsAllBut(g.row, b, {UpdatedAt, StatusColumn, Worker, BudgetUsed, Summary, LeaseToken, LeaseExpiry,
                                   CancelFlag, ErrorMessage})
         && b.job.updatedAt == e.now && b.job.status.Succeeded? && b.job.worker == Some(g.worker)
         && b.job.budgetUsed == g.row.job.budgetUsed + price && price <= b.job.budgetUnits - g.row.job.budgetUsed
         && b.job.summary == e.summary && b.job.leaseToken.None? && b.job.leaseExpiresAt.None?
         && !b.job.cancelRequested && b.job.error.None?
         && b.payload.error.None? && b.payload.resumeState == g.row.payload.resumeState
  {
    AttemptCostIsPrice(cfg, s.granted[e.token].row);
  }

  /**
   A failure writes the row as the worker was given it, charged on top of what the current
   row shows. If the current row has attempts left the job is queued and due after as many
   backoffs as it has made attempts (one at least), otherwise it has failed.
   */
  lemma FailureEffect(cfg: Settings, s: System, e: Event, t: System)
    requires Step(cfg, s, e, t) && e.FailEvent?
    ensures var g := s.granted[e.token];
      && g.id in s.rows && !s.rows[g.id].job.cancelRequested && OnlyRow(s.rows, t.rows, g.id) && t.granted == s.granted
      && var l, b := s.rows[g.id].job, t.rows[g.id];
         && KeepsAllBut(g.row, b, {UpdatedAt, StatusColumn, Worker, BudgetUsed, NextRunAt, Summary, LeaseToken,
                                   LeaseExpiry, ErrorMessage})
         && b.job.updatedAt == e.now && b.job.worker == Some(g.worker) && b.job.budgetUsed == l.budgetUsed + e.charge
         && b.job.leaseToken.None? && b.job.leaseExpiresAt.None? && b.job.error == Some(e.error)
         && b.payload.error == Some(e.error) && b.payload.resumeState == g.row.payload.resumeState
         && (if l.attempts >= l.maxAttempts then b.job.status.Failed? && b.job.nextRunAt == l.nextRunAt
             else b.job.status.Queued?)
         && (b.job.summary == if l.attempts >= l.maxAttempts then "failed" else "retry scheduled")
    ensures e.charge == 0 || IsPrice(cfg, s.granted[e.token].row.job.jobType,
                                     Strip(s.granted[e.token].row.payload.provider), e.charge)
  {
    AttemptCostIsPrice(cfg, s.granted[e.token].row);
  }

  /** When a job that failed with attempts left can be claimed again. */
  lemma RetryIsDue(cfg: Settings, s: System, e: Event, t: System)
    requires Step(cfg, s, e, t) && e.FailEvent? && TokensOk(s)
    requires var l := s.rows[s.granted[e.token].id].job; l.attempts < l.maxAttempts
    ensures var id := s.granted[e.token].id;
      var waits := if s.rows[id].job.attempts <= 1 then 1 else s.rows[id].job.attempts;
      forall now :: Matches(t.rows[id].job, now, {}) <==> now >= e.now + waits * cfg.backoffSeconds * SECOND
  {
    var attempts := s.rows[s.granted[e.token].id].job.attempts;
    Commutes(cfg.backoffSeconds, if attempts <= 1 then 1 else attempts);
  }

  lemma Commutes(a: int, b: int)
    ensures a * b == b * a
  {
  }

  /** A close-out writes the current row: cancelled, off its lease, under the closing worker's name. */
  lemma CloseOutEffect(cfg: Settings, s: System, e: Event, t: System)
    requires Step(cfg, s, e, t) && e.FinalizeEvent?
    ensures var g := s.granted[e.token];
      && g.id in s.rows && OnlyRow(s.rows, t.rows, g.id) && t.granted == s.granted
      && var a, b := s.rows[g.id], t.rows[g.id];
         && KeepsAllBut(a, b, {UpdatedAt, StatusColumn, Worker, Summary, LeaseToken, LeaseExpiry, ErrorMessage})
         && a.job.cancelRequested && b.job.updatedAt == e.now && b.job.status.Cancelled?
         && b.job.worker == Some(g.worker) && b.job.summary == e.summary
         && b.job.leaseToken.None? && b.job.leaseExpiresAt.None? && b.job.error.None?
         && b.payload.worker == a.payload.worker && b.payload.error.None? && b.payload.resumeState == a.payload.resumeState
  {
  }

  // ---- Cancel and resume -------------------------------------------------

  lemma CancelCheckIs(job: Job)
    ensures CancelCheck(job).None? <==> job.status.Queued? || job.status.Running? || job.status.Failed?
    ensures CancelCheck(job).Some? ==> CancelCheck(job).value == FinalState
  {
  }

  /** A cancel raises the flag; it stops a queued job at once and leaves any other to its worker. */
  lemma CancelEffect(cfg: Settings, s: System, e: Event, t: System)
    requires Step(cfg, s, e, t) && e.CancelEvent?
    ensures e.id in s.rows && OnlyRow(s.rows, t.rows, e.id) && t.granted == s.granted
    ensures var a, b := s.rows[e.id], t.rows[e.id];
      && KeepsAllBut(a, b, {UpdatedAt, StatusColumn, Summary, CancelFlag})
      && b.job.updatedAt == e.now && b.job.cancelRequested
      && (if a.job.status.Queued? then b.job.status.Cancelled? else b.job.status == a.job.status)
      && (b.job.summary == a.job.summary + (if a.job.status.Queued? then " (cancelled by " + e.actor + ")"
                                            else " (cancel requested by " + e.actor + ")"))
      && b.payload.error == a.payload.error && b.payload.resumeState == a.payload.resumeState
  {
    var text := s.rows[e.id].job.summary;
    assert text + " (cancelled by " + e.actor + ")" == text + (" (cancelled by " + e.actor + ")");
    assert text + " (cancel requested by " + e.actor + ")" == text + (" (cancel requested by " + e.actor + ")");
  }

  lemma ResumeCheckIs(job: Job, reset: bool)
    ensures ResumeCheck(job, reset).None?
      <==> (job.status.Failed? || job.status.Cancelled?) && (reset || job.attempts < job.maxAttempts)
    ensures ResumeCheck(job, reset) == Some(NotResumable)
      <==> job.status.Queued? || job.status.Running? || job.status.Succeeded?
    ensures ResumeCheck(job, reset) == Some(AttemptsExhausted)
      <==> (job.status.Failed? || job.status.Cancelled?) && !reset && job.attempts >= job.maxAttempts
  {
  }

  /** A resume queues the job, due at once and with its flag down; a reset forgets its attempts and charges. */
  lemma ResumeEffect(cfg: Settings, s: System, e: Event, t: System)
    requires Step(cfg, s, e, t) && e.ResumeEvent?
    ensures e.id in s.rows && OnlyRow(s.rows, t.rows, e.id) && t.granted == s.granted
    ensures var a, b := s.rows[e.id], t.rows[e.id];
      && KeepsAllBut(a, b, {UpdatedAt, StatusColumn, Worker, NextRunAt, LeaseToken, LeaseExpiry, CancelFlag, ErrorMessage}
                           + if e.reset then {Attempts, BudgetUsed} else {})
      && b.job.updatedAt == e.now && b.job.worker.None? && b.job.leaseToken.None? && b.job.leaseExpiresAt.None?
      && b.job.error.None? && b.payload.error.None? && b.payload.resumeState == a.payload.resumeState
      && (e.reset ==> b.job.attempts == 0 && b.job.budgetUsed == 0)
      && forall now :: Matches(b.job, now, {}) <==> now >= e.now
  {
  }

  // ---- Requests over runs ------------------------------------------------

  /** Whatever a worker was given is about the same request as the row. */
  ghost predicate KinOk(s: System) {
    forall token | token in s.granted :: s.granted[token].id in s.rows
                                         && SameAsked(s.granted[token].row, s.rows[s.granted[token].id])
  }

  lemma CompletionKeepsAsked(cfg: Settings, s: System, e: Event, t: System, id: JobId)
    requires Step(cfg, s, e, t) && KinOk(s) && id in s.rows && e.Completes()
    ensures id in t.rows && SameAsked(s.rows[id], t.rows[id])
  {
    assert e.token in s.granted;
  }

  lemma ClaimKeepsAsked(cfg: Settings, s: System, e: Event, t: System, id: JobId)
    requires Step(cfg, s, e, t) && id in s.rows && e.ClaimEvent?
    ensures id in t.rows && SameAsked(s.rows[id], t.rows[id])
  {
    if e.choice.Some? {
      ClaimEffect(cfg, s, e, t);
    }
  }

  lemma ManagementKeepsAsked(cfg: Settings, s: System, e: Event, t: System, id: JobId)
    requires Step(cfg, s, e, t) && id in s.rows && !e.Completes() && !e.ClaimEvent?
    ensures id in t.rows && SameAsked(s.rows[id], t.rows[id])
  {
  }

  lemma AskedStays(cfg: Settings, s: System, e: Event, t: System, id: JobId)
    requires Step(cfg, s, e, t) && KinOk(s) && id in s.rows
    ensures id in t.rows && SameAsked(s.rows[id], t.rows[id])
  {
    if e.Completes() {
      CompletionKeepsAsked(cfg, s, e, t, id);
    } else if e.ClaimEvent? {
      ClaimKeepsAsked(cfg, s, e, t, id);
    } else {
      ManagementKeepsAsked(cfg, s, e, t, id);
    }
  }

  lemma GrantsKnown(cfg: Settings, s: System, e: Event, t: System, token: Token)
    requires Step(cfg, s, e, t) && token in t.granted
    ensures (token in s.granted && t.granted[token] == s.granted[token])
         || (t.granted[token].id in t.rows && t.granted[token].row == t.rows[t.granted[token].id])
  {
  }

  lemma StepKeepsAsked(cfg: Settings, s: System, e: Event, t: System)
    requires Step(cfg, s, e, t) && KinOk(s)
    ensures KinOk(t)
    ensures forall id | id in s.rows :: id in t.rows && SameAsked(s.rows[id], t.rows[id])
  {
    forall id | id in s.rows ensures id in t.rows && SameAsked(s.rows[id], t.rows[id]) {
      AskedStays(cfg, s, e, t, id);
    }
    forall token | token in t.granted
      ensures t.granted[token].id in t.rows && SameAsked(t.granted[token].row, t.rows[t.granted[token].id])
    {
      GrantsKnown(cfg, s, e, t, token);
    }
  }

  lemma {:induction false} RunKeepsKin(cfg: Settings, ss: seq<System>, es: seq<Event>, n: nat)
    requires Run(cfg, ss, es) && n < |ss|
    ensures KinOk(ss[n])
  {
    if n > 0 {
      RunKeepsKin(cfg, ss, es, n - 1);
      assert StepAt(cfg, ss, es, n - 1);
      StepKeepsAsked(cfg, ss[n - 1], es[n - 1], ss[n]);
    }
  }

  /** In every reachable state, stale completions included, each job is the one some earlier accepted request asked for. */
  lemma {:induction false} RunKeepsRequests(cfg: Settings, ss: seq<System>, es: seq<Event>, n: nat, id: JobId)
    returns (b: nat)
    requires Run(cfg, ss, es) && n < |ss| && id in ss[n].rows
    ensures b < n && es[b].EnqueueEvent? && es[b].id == id
    ensures AsAsked(cfg, es[b].req, es[b].now, ss[n].rows[id])
    ensures 0 < ss[n].rows[id].job.budgetUnits <= cfg.maxUnitsPerJob
  {
    b := n - 1;
    assert StepAt(cfg, ss, es, b);
    RunKeepsKin(cfg, ss, es, b);
    if id in ss[b].rows {
      b := RunKeepsRequests(cfg, ss, es, n - 1, id);
      StepKeepsAsked(cfg, ss[n - 1], es[n - 1], ss[n]);
    } else {
      OnlyEnqueueAdds(cfg, ss[b], es[b], ss[n], id);
      EnqueuedAsAsked(cfg, es[b].req, es[b].now);
      EnqueueCheckIs(cfg, ss[b].rows, es[b].req, ss[n].rows[id].job.budgetUnits);
    }
  }

  lemma OnlyEnqueueAdds(cfg: Settings, s: System, e: Event, t: System, id: JobId)
    requires Step(cfg, s, e, t) && KinOk(s) && id in t.rows && id !in s.rows
    ensures e.EnqueueEvent? && e.id == id && t.rows[id] == NewRow(cfg, e.req, e.now)
    ensures EnqueueCheck(cfg, s.rows, e.req).None?
  {
  }

  // ---- Pending limits ----------------------------------------------------

  /** A fenced step other than an enqueue or a resume makes no job active. */
  lemma ActiveStays(cfg: Settings, s: System, e: Event, t: System, id: JobId)
    requires Step(cfg, s, e, t) && Fenced(s, e) && LeasesOk(s.rows) && TokensOk(s) && !e.ResumeEvent?
    requires id in t.rows && Active(t.rows[id].job)
    ensures (e.EnqueueEvent? && e.id == id) || (id in s.rows && Active(s.rows[id].job) && SameTenant(s, t, id))
  {
    if e.Completes() {
      ActiveBeforeCompletion(cfg, s, e, t, id);
    } else if e.ClaimEvent? {
      ActiveBeforeClaim(cfg, s, e, t, id);
    } else {
      ActiveBeforeManagement(cfg, s, e, t, id);
    }
  }

  lemma ActiveBeforeCompletion(cfg: Settings, s: System, e: Event, t: System, id: JobId)
    requires Step(cfg, s, e, t) && Fenced(s, e) && LeasesOk(s.rows) && TokensOk(s) && e.Completes()
    requires id in t.rows && Active(t.rows[id].job)
    ensures id in s.rows && Active(s.rows[id].job) && SameTenant(s, t, id)
  {
    var g := s.granted[e.token];
    HeldLease(s, g.id, e.token);
    assert Agrees(s.rows[g.id], g.row);
  }

  lemma ActiveBeforeClaim(cfg: Settings, s: System, e: Event, t: System, id: JobId)
    requires Step(cfg, s, e, t) && e.ClaimEvent? && id in t.rows && Active(t.rows[id].job)
    ensures id in s.rows && Active(s.rows[id].job) && SameTenant(s, t, id)
  {
    if e.choice.Some? {
      ClaimEffect(cfg, s, e, t);
      SelectedIsEligible(cfg, ReclaimAll(s.rows, e.now), e.now, e.types, e.tags, e.choice.value);
    }
  }

  lemma ActiveBeforeManagement(cfg: Settings, s: System, e: Event, t: System, id: JobId)
    requires Step(cfg, s, e, t) && !e.Completes() && !e.ClaimEvent? && !e.ResumeEvent?
    requires id in t.rows && Active(t.rows[id].job)
    ensures (e.EnqueueEvent? && e.id == id) || (id in s.rows && Active(s.rows[id].job) && SameTenant(s, t, id))
  {
  }

  predicate SameTenant(s: System, t: System, id: JobId)
    requires id in s.rows && id in t.rows
  {
    s.rows[id].job.tenant == t.rows[id].job.tenant
  }

  lemma StepKeepsPending(cfg: Settings, s: System, e: Event, t: System, tenant: Option<string>)
    requires Step(cfg, s, e, t) && Fenced(s, e) && LeasesOk(s.rows) && TokensOk(s) && !e.ResumeEvent?
    ensures PendingJobs(t.rows) <= PendingJobs(s.rows) + (if e.EnqueueEvent? then {e.id} else {})
    ensures PendingOf(t.rows, tenant) <= PendingOf(s.rows, tenant)
                                         + (if e.EnqueueEvent? && e.req.tenant == tenant then {e.id} else {})
  {
    forall id | id in t.rows && Active(t.rows[id].job)
      ensures (e.EnqueueEvent? && e.id == id) || (id in s.rows && Active(s.rows[id].job) && SameTenant(s, t, id))
    {
      ActiveStays(cfg, s, e, t, id);
    }
  }

  ghost predicate PendingOk(cfg: Settings, rows: Table, tenant: string) {
    |PendingJobs(rows)| <= cfg.maxPending && |PendingOf(rows, Some(tenant))| <= cfg.maxPendingPerTenant
  }

  lemma StepKeepsPendingOk(cfg: Settings, s: System, e: Event, t: System, tenant: string)
    requires Step(cfg, s, e, t) && Fenced(s, e) && LeasesOk(s.rows) && TokensOk(s) && !e.ResumeEvent?
    requires PendingOk(cfg, s.rows, tenant)
    ensures PendingOk(cfg, t.rows, tenant)
  {
    StepKeepsPending(cfg, s, e, t, Some(tenant));
    SubsetSize(PendingJobs(t.rows), PendingJobs(s.rows) + (if e.EnqueueEvent? then {e.id} else {}));
    SubsetSize(PendingOf(t.rows, Some(tenant)), PendingOf(s.rows, Some(tenant))
               + (if e.EnqueueEvent? && e.req.tenant == Some(tenant) then {e.id} else {}));
    if e.EnqueueEvent? {
      EnqueueHadRoom(cfg, s, e, t);
    }
  }

  lemma EnqueueHadRoom(cfg: Settings, s: System, e: Event, t: System)
    requires Step(cfg, s, e, t) && e.EnqueueEvent?
    ensures |PendingJobs(s.rows)| < cfg.maxPending
    ensures e.req.tenant.Some? ==> |PendingOf(s.rows, e.req.tenant)| < cfg.maxPendingPerTenant
  {
  }

  /** While nothing is resumed, a fenced run never has more jobs queued or running than the limits, overall and by tenant. */
  lemma {:induction false} PendingIsBounded(cfg: Settings, ss: seq<System>, es: seq<Event>, n: nat, tenant: string)
    requires cfg.Valid() && Run(cfg, ss, es) && FencedPath(ss, es) && n < |ss|
    requires forall i | 0 <= i < n :: !es[i].ResumeEvent?
    ensures PendingOk(cfg, ss[n].rows, tenant)
  {
    if n == 0 {
      assert PendingJobs(EMPTY.rows) == {} && PendingOf(EMPTY.rows, Some(tenant)) == {};
    } else {
      PendingIsBounded(cfg, ss, es, n - 1, tenant);
      RunKeepsTokens(cfg, ss, es, n - 1);
      RunKeepsLeases(cfg, ss, es, n - 1);
      assert StepAt(cfg, ss, es, n - 1);
      StepKeepsPendingOk(cfg, ss[n - 1], es[n - 1], ss[n], tenant);
    }
  }
}
