/**
 The leased job queue: one table of rows, the writes that change a row, the
 selection a claim makes, and the steps of the whole protocol.

 Every operation on the table is one atomic step. A claim and a reclaim pass are
 transactions in the source; enqueue, cancel, resume, the cancellation close-out
 and the failure path from its re-read to its save read a row and then write it.
 */
module QueueModel {
  import opened Common

  type JobId = string
  type Token = string
  /** Microseconds since the epoch; module Timestamps relates them to the stored text. */
  type Time = int
  const SECOND: Time := 1_000_000

  datatype JobType = Plan | Verify | Deliver
  datatype Status = Queued | Running | Succeeded | Failed | Cancelled

  datatype Settings = Settings(
    backoffSeconds: int, maxAttempts: int, leaseSeconds: int,
    workerCap: int, tenantCap: int, scanLimit: int,
    maxUnitsPerJob: int, maxPending: int, maxPendingPerTenant: int,
    costPlanHeuristic: int, costPlanOpenai: int, costVerify: int, costDeliver: int)
  {
    /** What the settings loader insists on. */
    predicate Valid() {
      && backoffSeconds >= 0 && maxAttempts > 0 && leaseSeconds > 0
      && workerCap > 0 && tenantCap > 0 && scanLimit > 0
      && maxUnitsPerJob > 0 && maxPending > 0 && maxPendingPerTenant > 0
      && costPlanHeuristic > 0 && costPlanOpenai > 0 && costVerify > 0 && costDeliver > 0
    }

    /** Units one attempt costs. */
    function EstimateUnits(jobType: JobType, provider: string): int {
      match jobType
      case Plan => if provider == "openai" then costPlanOpenai else costPlanHeuristic
      case Verify => costVerify
      case Deliver => costDeliver
    }

    function NextRetryAt(attempts: int, now: Time): Time {
      now + backoffSeconds * (if attempts > 1 then attempts else 1) * SECOND
    }
  }

  /** The columns of a row that any operation reads or changes. */
  datatype Job = Job(
    jobType: JobType, tenant: Option<string>, priority: int, createdAt: Time, updatedAt: Time,
    status: Status, worker: Option<string>, attempts: int, maxAttempts: int,
    budgetUnits: int, budgetUsed: int, nextRunAt: Time, summary: string,
    concurrencyKey: Option<string>, requiredTags: set<string>,
    leaseToken: Option<Token>, leaseExpiresAt: Option<Time>, rehydrations: int,
    cancelRequested: bool, error: Option<string>)

  datatype ResumeState = ResumeState(
    lastWorker: Option<string>, lastToken: Option<Token>, lastExpiry: Option<Time>, reclaimedAt: Time)

  /** The JSON document stored beside the columns; `provider` is one of its parameters. */
  datatype Payload = Payload(
    updatedAt: Time, status: Status, worker: Option<string>, attempts: int, budgetUsed: int,
    nextRunAt: Time, summary: string, concurrencyKey: Option<string>, requiredTags: set<string>,
    leaseToken: Option<Token>, leaseExpiresAt: Option<Time>, rehydrations: int,
    cancelRequested: bool, error: Option<string>, provider: string, resumeState: Option<ResumeState>)

  datatype Row = Row(job: Job, payload: Payload)

  type Table = map<JobId, Row>

  /** What an attempt at this row costs: the worker strips the stored provider name. */
  function AttemptCost(cfg: Settings, row: Row): int {
    cfg.EstimateUnits(row.job.jobType, Strip(row.payload.provider))
  }

  // ---- Enqueue -----------------------------------------------------------

  datatype Request = Request(
    jobType: JobType, tenant: Option<string>, priority: int, maxAttempts: Option<int>,
    budgetUnits: Option<int>, provider: string, concurrencyKey: Option<string>,
    tags: seq<string>, summary: string)

  /** `value or fallback`: both an absent value and zero fall back. */
  function OrElse(value: Option<int>, fallback: int): int {
    if value.Some? && value.value != 0 then value.value else fallback
  }

  function ResolvedAttempts(cfg: Settings, req: Request): int {
    OrElse(req.maxAttempts, if req.jobType.Deliver? then 1 else cfg.maxAttempts)
  }

  function DefaultBudget(cfg: Settings, req: Request): int {
    cfg.EstimateUnits(req.jobType, req.provider) * ResolvedAttempts(cfg, req)
  }

  function ResolvedBudget(cfg: Settings, req: Request): int {
    OrElse(req.budgetUnits, DefaultBudget(cfg, req))
  }

  function CleanKey(key: Option<string>): Option<string> {
    if key.Some? && Strip(key.value) != "" then Some(Strip(key.value)) else None
  }

  function CleanTags(tags: seq<string>): set<string> {
    set t | t in tags && Strip(t) != "" :: Strip(t)
  }

  predicate Active(job: Job) {
    job.status.Queued? || job.status.Running?
  }

  function PendingJobs(rows: Table): set<JobId> {
    set id | id in rows && Active(rows[id].job)
  }

  function PendingOf(rows: Table, tenant: Option<string>): set<JobId> {
    set id | id in rows && Active(rows[id].job) && rows[id].job.tenant == tenant
  }

  datatype QueueError =
    | NotFound | Denied | FinalState | NotResumable | AttemptsExhausted
    | BudgetNotPositive | BudgetAboveJobLimit | PendingExhausted | TenantPendingExhausted

  function EnqueueCheck(cfg: Settings, rows: Table, req: Request): Option<QueueError> {
    var units := ResolvedBudget(cfg, req);
    if units <= 0 then Some(BudgetNotPositive)
    else if units > cfg.maxUnitsPerJob then Some(BudgetAboveJobLimit)
    else if |PendingJobs(rows)| >= cfg.maxPending then Some(PendingExhausted)
    else if req.tenant.Some? && |PendingOf(rows, req.tenant)| >= cfg.maxPendingPerTenant
    then Some(TenantPendingExhausted)
    else None
  }

  function NewRow(cfg: Settings, req: Request, now: Time): Row {
    var key, tags := CleanKey(req.concurrencyKey), CleanTags(req.tags);
    Row(
      Job(req.jobType, req.tenant, req.priority, now, now, Queued, None, 0, ResolvedAttempts(cfg, req),
          ResolvedBudget(cfg, req), 0, now, req.summary, key, tags, None, None, 0, false, None),
      Payload(now, Queued, None, 0, 0, now, req.summary, key, tags, None, None, 0, false, None,
              req.provider, None))
  }

  // ---- Reclaim and claim -------------------------------------------------

  predicate Expired(job: Job, now: Time) {
    job.status.Running? && job.leaseExpiresAt.Some? && job.leaseExpiresAt.value <= now
  }

  function ReclaimRow(row: Row, now: Time): Row {
    var j := row.job;
    Row(
      j.(updatedAt := now, status := Queued, worker := None, leaseToken := None,
         leaseExpiresAt := None, rehydrations := j.rehydrations + 1),
      row.payload.(updatedAt := now, status := Queued, worker := None, leaseToken := None,
         leaseExpiresAt := None, rehydrations := j.rehydrations + 1,
         resumeState := Some(ResumeState(j.worker, j.leaseToken, j.leaseExpiresAt, now))))
  }

  function ReclaimAll(rows: Table, now: Time): Table {
    map id | id in rows :: if Expired(rows[id].job, now) then ReclaimRow(rows[id], now) else rows[id]
  }

  /** The claim query: status, cancel flag, due time and job type ({} filters nothing). */
  predicate Matches(job: Job, now: Time, types: set<JobType>) {
    job.status.Queued? && !job.cancelRequested && job.nextRunAt <= now && (types == {} || job.jobType in types)
  }

  function RunningOn(rows: Table, worker: string): set<JobId> {
    set id | id in rows && rows[id].job.status.Running? && rows[id].job.worker == Some(worker)
  }

  function RunningOf(rows: Table, tenant: Option<string>): set<JobId> {
    set id | id in rows && rows[id].job.status.Running? && rows[id].job.tenant == tenant
  }

  function RunningWithKey(rows: Table, key: string): set<JobId> {
    set id | id in rows && rows[id].job.status.Running? && rows[id].job.concurrencyKey == Some(key)
  }

  /** `x or ""` is false for a missing and for an empty name. */
  predicate Named(name: Option<string>) {
    name.Some? && name.value != ""
  }

  /** Missing and empty tenants share one entry of the counts; the empty one is written last. */
  function TenantLoad(rows: Table, tenant: Option<string>): nat {
    if Named(tenant) then |RunningOf(rows, tenant)|
    else if RunningOf(rows, Some("")) != {} then |RunningOf(rows, Some(""))|
    else |RunningOf(rows, None)|
  }

  /** The checks a scanned row must pass: tag affinity, concurrency key, tenant cap. */
  predicate Eligible(rows: Table, tags: set<string>, tenantCap: int, job: Job) {
    && job.requiredTags <= tags
    && (Named(job.concurrencyKey) ==> RunningWithKey(rows, job.concurrencyKey.value) == {})
    && (Named(job.tenant) && tenantCap > 0 ==> TenantLoad(rows, job.tenant) < tenantCap)
  }

  /** Scan order: higher priority first, then older. */
  predicate Before(a: Job, b: Job) {
    a.priority > b.priority || (a.priority == b.priority && a.createdAt <= b.createdAt)
  }

  datatype FairnessKey = FairnessKey(negatedPriority: int, load: int, createdAt: Time) {
    predicate Less(other: FairnessKey) {
      || negatedPriority < other.negatedPriority
      || (negatedPriority == other.negatedPriority && load < other.load)
      || (negatedPriority == other.negatedPriority && load == other.load && createdAt < other.createdAt)
    }
  }

  function KeyOf(rows: Table, job: Job): FairnessKey {
    FairnessKey(-job.priority, TenantLoad(rows, job.tenant), job.createdAt)
  }

  /** `scan` is an answer to the claim query: sorted, and cut off only at `limit` rows (< 0: no limit). */
  ghost predicate IsScan(rows: Table, now: Time, types: set<JobType>, limit: int, scan: seq<JobId>) {
    && (forall i | 0 <= i < |scan| :: scan[i] in rows && Matches(rows[scan[i]].job, now, types))
    && (forall i, j | 0 <= i < j < |scan| :: scan[i] != scan[j] && Before(rows[scan[i]].job, rows[scan[j]].job))
    && (0 <= limit ==> |scan| <= limit)
    && (forall id | id in rows && Matches(rows[id].job, now, types) && id !in scan ::
          |scan| == limit && forall i | 0 <= i < |scan| :: Before(rows[scan[i]].job, rows[id].job))
  }

  /** Position `n` holds the first of the eligible rows with the least fairness key. */
  predicate PickedAt(rows: Table, tags: set<string>, tenantCap: int, scan: seq<JobId>, n: nat, id: JobId)
    requires forall i | 0 <= i < |scan| :: scan[i] in rows
  {
    && n < |scan| && scan[n] == id && Eligible(rows, tags, tenantCap, rows[id].job)
    && forall i | 0 <= i < |scan| && Eligible(rows, tags, tenantCap, rows[scan[i]].job) ::
         && !KeyOf(rows, rows[scan[i]].job).Less(KeyOf(rows, rows[id].job))
         && (i < n ==> KeyOf(rows, rows[id].job).Less(KeyOf(rows, rows[scan[i]].job)))
  }

  /** `choice` is the first eligible row of `scan` with the least fairness key, if any row is eligible. */
  ghost predicate Picks(rows: Table, tags: set<string>, tenantCap: int, scan: seq<JobId>, choice: Option<JobId>)
    requires forall i | 0 <= i < |scan| :: scan[i] in rows
  {
    match choice
    case None =>
      forall i | 0 <= i < |scan| :: !Eligible(rows, tags, tenantCap, rows[scan[i]].job)
    case Some(id) =>
      exists n: nat :: PickedAt(rows, tags, tenantCap, scan, n, id)
  }

  ghost predicate Selects(cfg: Settings, rows: Table, now: Time, types: set<JobType>, tags: set<string>,
                          choice: Option<JobId>)
  {
    exists scan :: IsScan(rows, now, types, cfg.scanLimit, scan) && Picks(rows, tags, cfg.tenantCap, scan, choice)
  }

  function ClaimRow(row: Row, worker: string, token: Token, leaseSeconds: int, now: Time): Row {
    var j, expiry := row.job, now + leaseSeconds * SECOND;
    Row(
      j.(updatedAt := now, status := Running, worker := Some(worker), attempts := j.attempts + 1,
         leaseToken := Some(token), leaseExpiresAt := Some(expiry), error := None),
      row.payload.(updatedAt := now, status := Running, worker := Some(worker), attempts := j.attempts + 1,
         leaseToken := Some(token), leaseExpiresAt := Some(expiry),
         requiredTags := j.requiredTags, concurrencyKey := j.concurrencyKey))
  }

  // ---- Completion --------------------------------------------------------

  /** The final write of an attempt. `row` is the snapshot the claim handed out, not the current row. */
  function FinishRow(row: Row, worker: string, status: Status, summary: string, budgetUsed: int,
                     nextRunAt: Time, error: Option<string>, now: Time): Row
  {
    var j := row.job;
    Row(
      j.(updatedAt := now, status := status, worker := Some(worker), budgetUsed := budgetUsed,
         nextRunAt := nextRunAt, summary := summary, leaseToken := None, leaseExpiresAt := None,
         cancelRequested := if status.Succeeded? then false else j.cancelRequested, error := error),
      row.payload.(updatedAt := now, status := status, worker := Some(worker), budgetUsed := budgetUsed,
         nextRunAt := nextRunAt, summary := summary, leaseToken := None, leaseExpiresAt := None, error := error))
  }

  function SucceedRow(cfg: Settings, snapshot: Row, worker: string, summary: string, now: Time): Row {
    FinishRow(snapshot, worker, Succeeded, summary, snapshot.job.budgetUsed + AttemptCost(cfg, snapshot),
              snapshot.job.nextRunAt, None, now)
  }

  /** The failure write mixes the claim's snapshot with the row as it was just re-read. */
  function FailRow(cfg: Settings, snapshot: Row, latest: Row, worker: string, charge: int, error: string,
                   now: Time): Row
  {
    var l := latest.job;
    var retry := l.attempts < l.maxAttempts;
    FinishRow(snapshot, worker, if retry then Queued else Failed, if retry then "retry scheduled" else "failed",
              l.budgetUsed + charge, if retry then cfg.NextRetryAt(l.attempts, now) else l.nextRunAt,
              Some(error), now)
  }

  function FinalizeRow(latest: Row, worker: string, summary: string, now: Time): Row {
    Row(
      latest.job.(updatedAt := now, status := Cancelled, worker := Some(worker), summary := summary,
         leaseToken := None, leaseExpiresAt := None, cancelRequested := true, error := None),
      latest.payload.(updatedAt := now, status := Cancelled, summary := summary, leaseToken := None,
         leaseExpiresAt := None, cancelRequested := true, error := None))
  }

  // ---- Cancel and resume -------------------------------------------------

  function CancelCheck(job: Job): Option<QueueError> {
    if job.status.Succeeded? || job.status.Cancelled? then Some(FinalState) else None
  }

  function CancelRow(row: Row, actor: string, now: Time): Row {
    var j := row.job;
    var status := if j.status.Queued? then Cancelled else j.status;
    var summary := j.summary + (if j.status.Queued? then " (cancelled by " else " (cancel requested by ") + actor + ")";
    Row(
      j.(updatedAt := now, status := status, summary := summary, cancelRequested := true),
      row.payload.(updatedAt := now, status := status, summary := summary, cancelRequested := true,
         leaseToken := j.leaseToken, leaseExpiresAt := j.leaseExpiresAt))
  }

  function ResumeCheck(job: Job, reset: bool): Option<QueueError> {
    if !job.status.Failed? && !job.status.Cancelled? then Some(NotResumable)
    else if !reset && job.attempts >= job.maxAttempts then Some(AttemptsExhausted)
    else None
  }

  function ResumeRow(row: Row, reset: bool, now: Time): Row {
    var j := row.job;
    var attempts := if reset then 0 else j.attempts;
    var used := if reset then 0 else j.budgetUsed;
    Row(
      j.(updatedAt := now, status := Queued, worker := None, attempts := attempts, budgetUsed := used,
         nextRunAt := now, leaseToken := None, leaseExpiresAt := None, cancelRequested := false, error := None),
      row.payload.(updatedAt := now, status := Queued, worker := None, attempts := attempts, budgetUsed := used,
         nextRunAt := now, leaseToken := None, leaseExpiresAt := None, cancelRequested := false, error := None))
  }

  // ---- The protocol ------------------------------------------------------

  /** What a claim handed to its worker. */
  datatype Grant = Grant(id: JobId, worker: string, row: Row)

  /** The table and every lease ever granted, by token. A worker may act on a grant at any later time. */
  datatype System = System(rows: Table, granted: map<Token, Grant>)

  const EMPTY := System(map[], map[])

  datatype Event =
    | EnqueueEvent(now: Time, id: JobId, req: Request)
    | ReclaimEvent(now: Time)
    | ClaimEvent(now: Time, worker: string, token: Token, types: set<JobType>, tags: set<string>, choice: Option<JobId>)
    | SucceedEvent(now: Time, token: Token, summary: string)
    | FailEvent(now: Time, token: Token, charge: int, error: string)
    | FinalizeEvent(now: Time, token: Token, summary: string)
    | CancelEvent(now: Time, id: JobId, actor: string)
    | ResumeEvent(now: Time, id: JobId, reset: bool)
  {
    predicate Completes() {
      SucceedEvent? || FailEvent? || FinalizeEvent?
    }
  }

  predicate WithinBudget(cfg: Settings, row: Row) {
    row.job.budgetUsed + AttemptCost(cfg, row) <= row.job.budgetUnits
  }

  ghost predicate ClaimStep(cfg: Settings, s: System, e: Event, t: System)
    requires e.ClaimEvent?
  {
    var rows := ReclaimAll(s.rows, e.now);
    if cfg.workerCap > 0 && |RunningOn(rows, e.worker)| >= cfg.workerCap then
      e.choice.None? && t == s.(rows := rows)
    else
      && Selects(cfg, rows, e.now, e.types, e.tags, e.choice)
      && match e.choice
         case None => t == s.(rows := rows)
         case Some(id) =>
           && e.token !in s.granted
           && id in rows
           && var row := ClaimRow(rows[id], e.worker, e.token, cfg.leaseSeconds, e.now);
              t == System(rows[id := row], s.granted[e.token := Grant(id, e.worker, row)])
  }

  /** One atomic step. A completion is any write by the holder of a grant, however late. */
  ghost predicate Step(cfg: Settings, s: System, e: Event, t: System) {
    match e
    case EnqueueEvent(now, id, req) =>
      id !in s.rows && EnqueueCheck(cfg, s.rows, req).None? && t == s.(rows := s.rows[id := NewRow(cfg, req, now)])
    case ReclaimEvent(now) =>
      t == s.(rows := ReclaimAll(s.rows, now))
    case ClaimEvent(_, _, _, _, _, _) =>
      ClaimStep(cfg, s, e, t)
    case SucceedEvent(now, token, summary) =>
      && token in s.granted
      && var g := s.granted[token];
         WithinBudget(cfg, g.row) && t == s.(rows := s.rows[g.id := SucceedRow(cfg, g.row, g.worker, summary, now)])
    case FailEvent(now, token, charge, error) =>
      && token in s.granted
      && var g := s.granted[token];
         && g.id in s.rows
         && !s.rows[g.id].job.cancelRequested
         && (charge == 0 || (charge == AttemptCost(cfg, g.row) && WithinBudget(cfg, g.row)))
         && t == s.(rows := s.rows[g.id := FailRow(cfg, g.row, s.rows[g.id], g.worker, charge, error, now)])
    case FinalizeEvent(now, token, summary) =>
      && token in s.granted
      && var g := s.granted[token];
         && g.id in s.rows
         && s.rows[g.id].job.cancelRequested
         && t == s.(rows := s.rows[g.id := FinalizeRow(s.rows[g.id], g.worker, summary, now)])
    case CancelEvent(now, id, actor) =>
      && id in s.rows
      && CancelCheck(s.rows[id].job).None?
      && t == s.(rows := s.rows[id := CancelRow(s.rows[id], actor, now)])
    case ResumeEvent(now, id, reset) =>
      && id in s.rows
      && ResumeCheck(s.rows[id].job, reset).None?
      && t == s.(rows := s.rows[id := ResumeRow(s.rows[id], reset, now)])
  }

  /** A completion is fenced when the row still carries the token its worker was given. */
  predicate Fenced(s: System, e: Event) {
    e.Completes() ==>
      && e.token in s.granted
      && var id := s.granted[e.token].id;
         id in s.rows && s.rows[id].job.leaseToken == Some(e.token)
  }

  ghost predicate StepAt(cfg: Settings, ss: seq<System>, es: seq<Event>, i: nat)
    requires i < |es| < |ss|
  {
    Step(cfg, ss[i], es[i], ss[i + 1])
  }

  /** `es` leads through the states `ss`, from any first state. */
  ghost predicate Path(cfg: Settings, ss: seq<System>, es: seq<Event>) {
    |ss| == |es| + 1 && forall i: nat | i < |es| :: StepAt(cfg, ss, es, i)
  }

  /** A path that starts with the empty table. */
  ghost predicate Run(cfg: Settings, ss: seq<System>, es: seq<Event>) {
    Path(cfg, ss, es) && ss[0] == EMPTY
  }

  predicate FencedPath(ss: seq<System>, es: seq<Event>) {
    |ss| == |es| + 1 && forall i: nat | i < |es| :: Fenced(ss[i], es[i])
  }
}
