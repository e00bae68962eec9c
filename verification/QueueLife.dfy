/** What fenced runs promise about a single job: attempts, budget, cancellation, success, backoff. */
module QueueLife {
  import opened Common
  import opened QueueModel
  import opened QueueSafety
  import opened QueueHistory

  // ---- Attempts ----------------------------------------------------------

  /** Claims since the job was created or last resumed with a reset. */
  function ClaimsSinceReset(ms: seq<Move>): nat {
    if ms == [] then 0
    else
      var before, m := ClaimsSinceReset(ms[..|ms| - 1]), ms[|ms| - 1];
      if m.Claim? then before + 1 else if m.Resume? && m.reset then 0 else before
  }

  /** Leases that expired since then. */
  function ExpiriesSinceReset(ms: seq<Move>): nat {
    if ms == [] then 0
    else
      var before, m := ExpiriesSinceReset(ms[..|ms| - 1]), ms[|ms| - 1];
      if m.Reclaim? then before + 1 else if m.Resume? && m.reset then 0 else before
  }

  /** The bound the counters of a row keep, strict while it waits. */
  predicate AttemptsOk(job: Job) {
    && 0 <= job.rehydrations && 0 <= job.attempts <= job.maxAttempts + job.rehydrations
    && (job.status.Queued? ==> job.attempts < job.maxAttempts + job.rehydrations)
  }

  /** A request with an explicit negative number of attempts and a budget of its own is accepted. */
  lemma NewRowAttemptsOkIff(cfg: Settings, req: Request, now: Time)
    requires cfg.Valid()
    ensures AttemptsOk(NewRow(cfg, req, now).job) <==> !(req.maxAttempts.Some? && req.maxAttempts.value < 0)
    ensures ResolvedAttempts(cfg, req) >= 1 <==> !(req.maxAttempts.Some? && req.maxAttempts.value < 0)
  {
  }

  /** `claims` and `expiries` count what happened to the job since its last reset. */
  predicate Counted(max: int, job: Job, claims: nat, expiries: nat) {
    && job.maxAttempts == max && job.attempts == claims && expiries <= job.rehydrations
    && claims <= max + expiries && (job.status.Queued? ==> claims < max + expiries)
  }

  lemma MoveKeepsCounts(cfg: Settings, max: int, r: Row, m: Move, claims: nat, expiries: nat)
    requires max >= 1 && CanMove(cfg, r, m) && Counted(max, r.job, claims, expiries)
    ensures var reset := m.Resume? && m.reset;
      Counted(max, MoveRow(cfg, r, m).job, if m.Claim? then claims + 1 else if reset then 0 else claims,
              if m.Reclaim? then expiries + 1 else if reset then 0 else expiries)
  {
  }

  lemma {:induction false} AttemptsCountClaims(cfg: Settings, req: Request, now: Time, ms: seq<Move>)
    requires Feasible(cfg, NewRow(cfg, req, now), ms) && ResolvedAttempts(cfg, req) >= 1
    ensures Counted(ResolvedAttempts(cfg, req), After(cfg, NewRow(cfg, req, now), ms).job,
                    ClaimsSinceReset(ms), ExpiriesSinceReset(ms))
  {
    if ms != [] {
      var init := ms[..|ms| - 1];
      AttemptsCountClaims(cfg, req, now, init);
      MoveKeepsCounts(cfg, ResolvedAttempts(cfg, req), After(cfg, NewRow(cfg, req, now), init), ms[|ms| - 1],
                      ClaimsSinceReset(init), ExpiriesSinceReset(init));
    }
  }

  /**
   In a fenced run every job keeps its attempt bound, and its claims since the last
   reset exceed its attempts by no more than the leases that expired since then.
   */
  lemma FencedRunBoundsAttempts(cfg: Settings, ss: seq<System>, es: seq<Event>, n: nat, id: JobId)
    returns (req: Request, now: Time, ms: seq<Move>)
    requires Run(cfg, ss, es) && FencedPath(ss, es) && n < |ss| && id in ss[n].rows
    requires ss[n].rows[id].job.maxAttempts >= 1
    ensures AttemptsOk(ss[n].rows[id].job)
    ensures Feasible(cfg, NewRow(cfg, req, now), ms) && ss[n].rows[id] == After(cfg, NewRow(cfg, req, now), ms)
    ensures ss[n].rows[id].job.attempts == ClaimsSinceReset(ms)
    ensures ClaimsSinceReset(ms) <= ss[n].rows[id].job.maxAttempts + ExpiriesSinceReset(ms)
  {
    req, now, ms := LifeOf(cfg, ss, es, n, id);
    Immutable(cfg, NewRow(cfg, req, now), ms);
    AttemptsCountClaims(cfg, req, now, ms);
  }

  /** The columns no move changes. */
  predicate SameRequest(q: Row, r: Row) {
    && q.job.maxAttempts == r.job.maxAttempts && q.job.budgetUnits == r.job.budgetUnits
    && q.job.jobType == r.job.jobType && q.payload.provider == r.payload.provider
    && q.job.tenant == r.job.tenant && q.job.priority == r.job.priority && q.job.createdAt == r.job.createdAt
    && q.job.concurrencyKey == r.job.concurrencyKey && q.job.requiredTags == r.job.requiredTags
  }

  lemma MoveKeepsRequest(cfg: Settings, r: Row, m: Move)
    ensures SameRequest(MoveRow(cfg, r, m), r)
  {
  }

  lemma {:induction false} Immutable(cfg: Settings, r: Row, ms: seq<Move>)
    ensures SameRequest(After(cfg, r, ms), r)
  {
    if ms != [] {
      Immutable(cfg, r, ms[..|ms| - 1]);
      MoveKeepsRequest(cfg, After(cfg, r, ms[..|ms| - 1]), ms[|ms| - 1]);
    }
  }

  // ---- Budget ------------------------------------------------------------

  lemma {:induction false} BudgetHolds(cfg: Settings, r: Row, ms: seq<Move>)
    requires cfg.Valid() && Feasible(cfg, r, ms) && 0 <= r.job.budgetUsed <= r.job.budgetUnits
    ensures 0 <= After(cfg, r, ms).job.budgetUsed <= After(cfg, r, ms).job.budgetUnits
  {
    if ms != [] {
      BudgetHolds(cfg, r, ms[..|ms| - 1]);
    }
  }

  lemma FencedRunKeepsBudget(cfg: Settings, ss: seq<System>, es: seq<Event>, n: nat, id: JobId)
    requires cfg.Valid() && Run(cfg, ss, es) && FencedPath(ss, es) && n < |ss| && id in ss[n].rows
    ensures 0 <= ss[n].rows[id].job.budgetUsed <= ss[n].rows[id].job.budgetUnits
  {
    var req, now, ms := LifeOf(cfg, ss, es, n, id);
    BudgetHolds(cfg, NewRow(cfg, req, now), ms);
  }

  /** Charges stay one attempt behind the claims, and one attempt short of the limit while the job is live. */
  predicate ChargesOk(cost: int, job: Job) {
    && 0 <= job.budgetUsed <= cost * job.attempts
    && (Active(job) ==> job.budgetUsed <= cost * (job.maxAttempts - 1))
    && (job.status.Running? ==> job.budgetUsed <= cost * (job.attempts - 1))
  }

  lemma MulLe(cost: int, a: int, b: int)
    requires cost > 0 && a <= b
    ensures cost * a <= cost * b
  {
  }

  lemma MoveKeepsCharges(cfg: Settings, r: Row, m: Move)
    requires cfg.Valid() && CanMove(cfg, r, m) && r.job.maxAttempts >= 1 && r.job.attempts >= 0
    requires ChargesOk(AttemptCost(cfg, r), r.job)
    ensures ChargesOk(AttemptCost(cfg, r), MoveRow(cfg, r, m).job) && MoveRow(cfg, r, m).job.attempts >= 0
  {
    var cost := AttemptCost(cfg, r);
    if m.Resume? {
      MulLe(cost, r.job.attempts, if r.job.attempts < r.job.maxAttempts then r.job.maxAttempts - 1 else r.job.attempts);
      MulLe(cost, 0, r.job.maxAttempts - 1);
    } else if m.Fail? && r.job.attempts < r.job.maxAttempts {
      MulLe(cost, r.job.attempts, r.job.maxAttempts - 1);
    }
  }

  lemma {:induction false} ChargesHold(cfg: Settings, req: Request, now: Time, ms: seq<Move>)
    requires cfg.Valid() && Feasible(cfg, NewRow(cfg, req, now), ms) && ResolvedAttempts(cfg, req) >= 1
    ensures var q := After(cfg, NewRow(cfg, req, now), ms);
      && AttemptCost(cfg, q) == AttemptCost(cfg, NewRow(cfg, req, now))
      && ChargesOk(AttemptCost(cfg, q), q.job) && q.job.attempts >= 0
      && q.job.maxAttempts == ResolvedAttempts(cfg, req)
  {
    if ms == [] {
      MulLe(AttemptCost(cfg, NewRow(cfg, req, now)), 0, ResolvedAttempts(cfg, req) - 1);
    } else {
      ChargesHold(cfg, req, now, ms[..|ms| - 1]);
      MoveKeepsCharges(cfg, After(cfg, NewRow(cfg, req, now), ms[..|ms| - 1]), ms[|ms| - 1]);
    }
  }

  /** An attempt on this row passes its budget check. */
  predicate Affordable(cfg: Settings, r: Row) {
    r.job.status.Running? ==> WithinBudget(cfg, r)
  }

  /** `n` claims, each followed by a charged failure. */
  function Failures(cfg: Settings, r: Row, n: nat): seq<Move> {
    if n == 0 then []
    else
      var ms := Failures(cfg, r, n - 1);
      var due := After(cfg, r, ms).job.nextRunAt;
      ms + [Claim(due, "w", "t")] + [Fail(due, "w", AttemptCost(cfg, r), "")]
  }

  /** One claim and one charged failure of a job that may be tried again after it. */
  lemma FailsOnce(cfg: Settings, q: Row, claim: Move, fail: Move)
    requires q.job.status.Queued? && !q.job.cancelRequested && q.job.attempts + 1 < q.job.maxAttempts
    requires q.job.budgetUsed + AttemptCost(cfg, q) <= q.job.budgetUnits
    requires claim == Claim(q.job.nextRunAt, "w", "t") && fail == Fail(q.job.nextRunAt, "w", AttemptCost(cfg, q), "")
    ensures var q2 := MoveRow(cfg, MoveRow(cfg, q, claim), fail);
      && TwoMoves(cfg, q, claim, fail, q2)
      && q2.job.status.Queued? && !q2.job.cancelRequested && q2.job.attempts == q.job.attempts + 1
      && q2.job.budgetUsed == q.job.budgetUsed + AttemptCost(cfg, q)
  {
  }

  lemma MulStep(n: int, cost: int)
    ensures n * cost == (n - 1) * cost + cost
  {
  }

  /** The row after `n` claims and charged failures, waiting for another attempt. */
  predicate HasFailed(cfg: Settings, r: Row, n: nat, used: int) {
    var q := After(cfg, r, Failures(cfg, r, n)).job;
    && Feasible(cfg, r, Failures(cfg, r, n))
    && q.status.Queued? && !q.cancelRequested && q.attempts == n && q.budgetUsed == used
  }

  lemma FailsAgain(cfg: Settings, r: Row, n: nat, used: int)
    requires HasFailed(cfg, r, n, used) && n + 1 < r.job.maxAttempts
    requires used + AttemptCost(cfg, r) <= r.job.budgetUnits
    ensures HasFailed(cfg, r, n + 1, used + AttemptCost(cfg, r))
  {
    var ms, cost := Failures(cfg, r, n), AttemptCost(cfg, r);
    Immutable(cfg, r, ms);
    var q := After(cfg, r, ms);
    var claim, fail := Claim(q.job.nextRunAt, "w", "t"), Fail(q.job.nextRunAt, "w", cost, "");
    FailsOnce(cfg, q, claim, fail);
    ExtendTwo(cfg, r, ms, claim, fail, MoveRow(cfg, MoveRow(cfg, q, claim), fail));
  }

  function Spent(cost: int, n: nat): int {
    if n == 0 then 0 else Spent(cost, n - 1) + cost
  }

  lemma {:induction false} SpentIsProduct(cost: int, n: nat)
    ensures Spent(cost, n) == n * cost
  {
    if n > 0 {
      SpentIsProduct(cost, n - 1);
      MulStep(n, cost);
    }
  }

  /** Failing attempts can be charged while the budget covers them and attempts remain. */
  lemma {:induction false} FailuresCharge(cfg: Settings, r: Row, cost: int, n: nat)
    requires r.job.status.Queued? && !r.job.cancelRequested && r.job.attempts == 0 && r.job.budgetUsed == 0
    requires n < r.job.maxAttempts && cost == AttemptCost(cfg, r) && cost > 0 && Spent(cost, n) <= r.job.budgetUnits
    ensures HasFailed(cfg, r, n, Spent(cost, n))
  {
    if n > 0 {
      FailuresCharge(cfg, r, cost, n - 1);
      FailsAgain(cfg, r, n - 1, Spent(cost, n - 1));
    }
  }

  lemma MulSwap(a: int, b: int)
    ensures a * b == b * a
  {
  }

  lemma EnoughIsAffordable(cfg: Settings, req: Request, now: Time, ms: seq<Move>)
    requires cfg.Valid() && ResolvedAttempts(cfg, req) >= 1 && Feasible(cfg, NewRow(cfg, req, now), ms)
    requires AttemptCost(cfg, NewRow(cfg, req, now)) * ResolvedAttempts(cfg, req) <= ResolvedBudget(cfg, req)
    ensures Affordable(cfg, After(cfg, NewRow(cfg, req, now), ms))
  {
    var cost, max := AttemptCost(cfg, NewRow(cfg, req, now)), ResolvedAttempts(cfg, req);
    ChargesHold(cfg, req, now, ms);
    Immutable(cfg, NewRow(cfg, req, now), ms);
    MulStep(max, cost);
    MulSwap(cost, max);
    MulSwap(cost, max - 1);
  }

  /** How many attempts a budget that is too small pays for. */
  lemma PaidAttempts(cost: int, max: int, units: int) returns (n: nat)
    requires cost > 0 && units > 0 && max >= 1 && units < cost * max
    ensures n < max && n * cost <= units < n * cost + cost
  {
    n := units / cost;
    if n >= max { MulLe(cost, max, n); }
  }

  lemma OverBudget(cfg: Settings, q: Row, m: Move)
    requires m.Claim? && q.job.budgetUsed + AttemptCost(cfg, q) > q.job.budgetUnits
    ensures !Affordable(cfg, MoveRow(cfg, q, m))
  {
  }

  lemma RunsOut(cfg: Settings, req: Request, now: Time) returns (ms: seq<Move>)
    requires cfg.Valid() && ResolvedAttempts(cfg, req) >= 1 && ResolvedBudget(cfg, req) > 0
    requires AttemptCost(cfg, NewRow(cfg, req, now)) * ResolvedAttempts(cfg, req) > ResolvedBudget(cfg, req)
    ensures Feasible(cfg, NewRow(cfg, req, now), ms) && !Affordable(cfg, After(cfg, NewRow(cfg, req, now), ms))
  {
    var r := NewRow(cfg, req, now);
    var n := PaidAttempts(AttemptCost(cfg, r), ResolvedAttempts(cfg, req), ResolvedBudget(cfg, req));
    SpentIsProduct(AttemptCost(cfg, r), n);
    FailuresCharge(cfg, r, AttemptCost(cfg, r), n);
    var charged := Failures(cfg, r, n);
    Immutable(cfg, r, charged);
    var q := After(cfg, r, charged);
    var claim := Claim(q.job.nextRunAt, "w", "t");
    Extend(cfg, r, charged, claim);
    ms := charged + [claim];
    OverBudget(cfg, q, claim);
  }

  /**
   A job passes the budget check at every attempt of every possible life, however often
   its lease expires and it is cancelled, resumed or reset, exactly when its budget
   covers all its attempts at the price an attempt is charged.
   */
  lemma AlwaysAffordableIff(cfg: Settings, req: Request, now: Time)
    requires cfg.Valid() && ResolvedAttempts(cfg, req) >= 1 && ResolvedBudget(cfg, req) > 0
    ensures (forall ms | Feasible(cfg, NewRow(cfg, req, now), ms) ::
               Affordable(cfg, After(cfg, NewRow(cfg, req, now), ms)))
        <==> AttemptCost(cfg, NewRow(cfg, req, now)) * ResolvedAttempts(cfg, req) <= ResolvedBudget(cfg, req)
  {
    var r := NewRow(cfg, req, now);
    if AttemptCost(cfg, r) * ResolvedAttempts(cfg, req) <= ResolvedBudget(cfg, req) {
      forall ms | Feasible(cfg, r, ms) ensures Affordable(cfg, After(cfg, r, ms)) {
        EnoughIsAffordable(cfg, req, now, ms);
      }
    } else {
      var ms := RunsOut(cfg, req, now);
    }
  }

  /** The one way a default budget can fall short: a padded "openai", priced before it is stripped. */
  predicate PricedTooLow(cfg: Settings, req: Request) {
    && req.jobType.Plan? && req.provider != "openai" && Strip(req.provider) == "openai"
    && cfg.costPlanHeuristic < cfg.costPlanOpenai
  }

  lemma PadlessOpenai()
    ensures Strip("openai") == "openai"
  {
  }

  /** A default budget never runs out, unless the enqueue priced another provider than the worker uses. */
  lemma DefaultBudgetIsEnoughIff(cfg: Settings, req: Request, now: Time)
    requires cfg.Valid() && OrElse(req.budgetUnits, 0) == 0 && ResolvedAttempts(cfg, req) >= 1
    ensures (forall ms | Feasible(cfg, NewRow(cfg, req, now), ms) ::
               Affordable(cfg, After(cfg, NewRow(cfg, req, now), ms)))
        <==> !PricedTooLow(cfg, req)
  {
    var priced, charged := cfg.EstimateUnits(req.jobType, req.provider), AttemptCost(cfg, NewRow(cfg, req, now));
    var max := ResolvedAttempts(cfg, req);
    PadlessOpenai();
    MulLe(max, 1, priced);
    assert ResolvedBudget(cfg, req) == priced * max;
    AlwaysAffordableIff(cfg, req, now);
    if charged <= priced { MulLe(max, charged, priced); } else { MulLe(max, priced + 1, charged); }
  }

  const SHIPPED := Settings(30, 3, 900, 4, 2, 200, 20, 100, 25, 1, 5, 2, 3)

  /** With the shipped settings, the first attempt of a plan enqueued for " openai" is refused. */
  lemma PaddedProviderFailsAtOnce()
    ensures var req := Request(Plan, None, 0, None, None, " openai", None, [], "");
      && EnqueueCheck(SHIPPED, map[], req).None?
      && PricedTooLow(SHIPPED, req)
      && Feasible(SHIPPED, NewRow(SHIPPED, req, 0), [Claim(0, "w", "t")])
      && !Affordable(SHIPPED, After(SHIPPED, NewRow(SHIPPED, req, 0), [Claim(0, "w", "t")]))
  {
    var req := Request(Plan, None, 0, None, None, " openai", None, [], "");
    assert PendingJobs(map[]) == {};
    assert " openai"[1..] == "openai";
    assert StripLeft("openai") == "openai" && StripLeft(" openai") == "openai" && Strip(" openai") == "openai";
    Extend(SHIPPED, NewRow(SHIPPED, req, 0), [], Claim(0, "w", "t"));
    assert [] + [Claim(0, "w", "t")] == [Claim(0, "w", "t")];
  }

  /** A provider name that needs no stripping, as every entry point supplies it, always gets enough by default. */
  lemma StrippedProviderIsEnough(cfg: Settings, req: Request, now: Time, ms: seq<Move>)
    requires cfg.Valid() && OrElse(req.budgetUnits, 0) == 0 && ResolvedAttempts(cfg, req) >= 1
    requires Strip(req.provider) == req.provider && Feasible(cfg, NewRow(cfg, req, now), ms)
    ensures Affordable(cfg, After(cfg, NewRow(cfg, req, now), ms))
  {
    DefaultBudgetIsEnoughIff(cfg, req, now);
  }

  /** With the shipped settings a request for -1 attempts is accepted, and its row breaks the attempt bound. */
  lemma NegativeAttemptsAreAccepted()
    ensures var req := Request(Plan, None, 0, Some(-1), Some(1), "heuristic", None, [], "");
      EnqueueCheck(SHIPPED, map[], req).None? && !AttemptsOk(NewRow(SHIPPED, req, 0).job)
  {
    assert PendingJobs(map[]) == {};
  }

  /** So in a fenced run no attempt at a job with an ordinary default budget fails its budget check. */
  lemma FencedRunAffords(cfg: Settings, ss: seq<System>, es: seq<Event>, n: nat, id: JobId)
    requires cfg.Valid() && Run(cfg, ss, es) && FencedPath(ss, es) && n < |ss| && id in ss[n].rows
    requires var job := ss[n].rows[id].job;
      job.maxAttempts >= 1 && AttemptCost(cfg, ss[n].rows[id]) * job.maxAttempts <= job.budgetUnits
    ensures Affordable(cfg, ss[n].rows[id])
  {
    var req, now, ms := LifeOf(cfg, ss, es, n, id);
    Immutable(cfg, NewRow(cfg, req, now), ms);
    AlwaysAffordableIff(cfg, req, now);
  }

  // ---- Cancellation and success --------------------------------------------

  /** Cancelled, or succeeded in spite of the request. */
  predicate Barred(r: Row) {
    r.job.status.Succeeded? || r.job.cancelRequested
  }

  lemma {:induction false} BarredStaysBarred(cfg: Settings, r: Row, ms: seq<Move>)
    requires Barred(r) && Feasible(cfg, r, ms) && forall i | 0 <= i < |ms| :: !ms[i].Resume?
    ensures Barred(After(cfg, r, ms)) && forall i | 0 <= i < |ms| :: !ms[i].Claim?
  {
    if ms != [] {
      BarredStaysBarred(cfg, r, ms[..|ms| - 1]);
    }
  }

  lemma BarredIsNotClaimed(cfg: Settings, s: System, e: Event, t: System, id: JobId)
    requires Step(cfg, s, e, t) && id in s.rows && Barred(s.rows[id])
    ensures !(e.ClaimEvent? && e.choice == Some(id))
  {
    if e.ClaimEvent? {
      UnmatchedIsNotSelected(cfg, ReclaimAll(s.rows, e.now), e.now, e.types, e.tags, id);
    }
  }

  lemma {:induction false} NoResumeAlong(ss: seq<System>, es: seq<Event>, id: JobId, from: nat, to: nat)
    requires from <= to <= |es| <= |ss|
    requires forall i | from <= i < to :: id in ss[i].rows && !(es[i].ResumeEvent? && es[i].id == id)
    ensures forall m | m in MovesAlong(ss, es, id, from, to) :: !m.Resume?
  {
    if from < to {
      NoResumeAlong(ss, es, id, from, to - 1);
    }
  }

  /** In a fenced run a job is not claimed between a successful cancel and the next resume of it. */
  lemma CancelledIsNotClaimed(cfg: Settings, ss: seq<System>, es: seq<Event>, id: JobId, c: nat, n: nat)
    requires Run(cfg, ss, es) && FencedPath(ss, es) && c < n < |es|
    requires es[c].CancelEvent? && es[c].id == id
    requires forall i | c < i < n :: !(es[i].ResumeEvent? && es[i].id == id)
    ensures !(es[n].ClaimEvent? && es[n].choice == Some(id))
  {
    assert StepAt(cfg, ss, es, c) && StepAt(cfg, ss, es, n);
    Project(cfg, ss, es, id, c + 1, n);
    NoResumeAlong(ss, es, id, c + 1, n);
    BarredStaysBarred(cfg, ss[c + 1].rows[id], MovesAlong(ss, es, id, c + 1, n));
    BarredIsNotClaimed(cfg, ss[n], es[n], ss[n + 1], id);
  }

  lemma {:induction false} SucceededRests(cfg: Settings, r: Row, ms: seq<Move>)
    requires r.job.status.Succeeded? && Feasible(cfg, r, ms)
    ensures After(cfg, r, ms) == r
  {
    if ms != [] {
      SucceededRests(cfg, r, ms[..|ms| - 1]);
    }
  }

  /** A succeeded row never changes again in a fenced run. */
  lemma SuccessIsAbsorbing(cfg: Settings, ss: seq<System>, es: seq<Event>, id: JobId, from: nat, n: nat)
    requires Run(cfg, ss, es) && FencedPath(ss, es) && from <= n < |ss|
    requires id in ss[from].rows && ss[from].rows[id].job.status.Succeeded?
    ensures id in ss[n].rows && ss[n].rows[id] == ss[from].rows[id]
  {
    Project(cfg, ss, es, id, from, n);
    SucceededRests(cfg, ss[from].rows[id], MovesAlong(ss, es, id, from, n));
  }

  /**
   The rows nothing but another cancel can move in a fenced run: succeeded ones, and those
   of jobs that were cancelled while running and then lost their lease.
   */
  lemma StuckIff(cfg: Settings, r: Row)
    requires LeaseOk(r.job)
    ensures (forall m | CanMove(cfg, r, m) :: m.Rest? || m.Cancel?) <==> r.job.status.Succeeded? || Waits(r.job)
  {
    var claim, reclaim, resume :=
      Claim(r.job.nextRunAt, "", ""), Reclaim(r.job.leaseExpiresAt.GetOrElse(0)), Resume(0, true);
    assert r.job.status.Queued? && !r.job.cancelRequested ==> CanMove(cfg, r, claim);
    assert r.job.status.Running? ==> CanMove(cfg, r, reclaim);
    assert r.job.status.Failed? || r.job.status.Cancelled? ==> CanMove(cfg, r, resume);
  }

  /** In fenced runs such a waiting job makes no move at all until it is cancelled a second time. */
  lemma {:induction false} CancelledThenReclaimedWaits(cfg: Settings, r: Row, ms: seq<Move>)
    requires LeaseOk(r.job) && Waits(r.job)
    requires Feasible(cfg, r, ms) && forall i | 0 <= i < |ms| :: !ms[i].Cancel?
    ensures After(cfg, r, ms) == r && forall i | 0 <= i < |ms| :: ms[i].Rest?
  {
    if ms != [] {
      CancelledThenReclaimedWaits(cfg, r, ms[..|ms| - 1]);
    }
  }

  // ---- Backoff -------------------------------------------------------------

  function ClaimTimes(ms: seq<Move>): seq<Time> {
    if ms == [] then []
    else
      var before, m := ClaimTimes(ms[..|ms| - 1]), ms[|ms| - 1];
      if m.Claim? then before + [m.now] else before
  }

  /** The clock never steps back from one timed move to a later one. */
  predicate ClockRuns(ms: seq<Move>) {
    forall i, j | 0 <= i < j < |ms| && !ms[i].Rest? && !ms[j].Rest? :: ms[i].now <= ms[j].now
  }

  predicate Undisturbed(ms: seq<Move>) {
    forall i | 0 <= i < |ms| :: !ms[i].Reclaim? && !ms[i].Resume?
  }

  /** `ms` contains the claim at its last claim time. */
  lemma {:induction false} LastClaim(ms: seq<Move>) returns (k: nat)
    requires ClaimTimes(ms) != []
    ensures k < |ms| && ms[k].Claim? && ms[k].now == ClaimTimes(ms)[|ClaimTimes(ms)| - 1]
  {
    if ms[|ms| - 1].Claim? {
      k := |ms| - 1;
    } else {
      k := LastClaim(ms[..|ms| - 1]);
    }
  }

  /** Attempt number k + 1 of a job waits k backoffs after attempt k. */
  lemma {:induction false} ClaimGaps(cfg: Settings, r: Row, ms: seq<Move>)
    requires cfg.Valid() && r.job.status.Queued? && r.job.attempts == 0
    requires Feasible(cfg, r, ms) && ClockRuns(ms) && Undisturbed(ms)
    ensures var q, ts := After(cfg, r, ms).job, ClaimTimes(ms);
      && q.attempts == |ts|
      && (q.status.Queued? && ts != [] ==> q.nextRunAt >= ts[|ts| - 1] + cfg.backoffSeconds * |ts| * SECOND)
      && forall i | 0 < i < |ts| :: ts[i] >= ts[i - 1] + cfg.backoffSeconds * i * SECOND
  {
    if ms != [] {
      var init, m := ms[..|ms| - 1], ms[|ms| - 1];
      ClaimGaps(cfg, r, init);
      if m.Fail? && ClaimTimes(init) != [] {
        var k := LastClaim(init);
        assert ms[k].now <= m.now;
      }
    }
  }

  lemma {:induction false} GapsAdd(b: int, ts: seq<Time>, n: nat)
    requires n < |ts| && forall i | 0 < i < |ts| :: ts[i] >= ts[i - 1] + b * i * SECOND
    ensures ts[n] >= ts[0] + b * (n * (n + 1) / 2) * SECOND
  {
    if n > 0 {
      GapsAdd(b, ts, n - 1);
      assert n * (n + 1) / 2 == (n - 1) * n / 2 + n;
      assert b * (n * (n + 1) / 2) * SECOND == b * ((n - 1) * n / 2) * SECOND + b * n * SECOND;
    }
  }

  /**
   Backoff over a whole stretch of a fenced run: with a clock that does not step back,
   claim number n + 1 of a job comes at least n(n+1)/2 backoffs after its first claim, if
   in between its lease never expires and it is not resumed.
   */
  lemma BackoffAccumulates(cfg: Settings, ss: seq<System>, es: seq<Event>, id: JobId, from: nat, to: nat, n: nat)
    requires cfg.Valid() && Run(cfg, ss, es) && FencedPath(ss, es) && from <= to < |ss|
    requires id in ss[from].rows && ss[from].rows[id].job.status.Queued? && ss[from].rows[id].job.attempts == 0
    requires forall i, j | from <= i < j < to :: es[i].now <= es[j].now
    requires forall i | from <= i <= to :: id in ss[i].rows
    requires Undisturbed(MovesAlong(ss, es, id, from, to))
    requires n < |ClaimTimes(MovesAlong(ss, es, id, from, to))|
    ensures var ts := ClaimTimes(MovesAlong(ss, es, id, from, to));
      ts[n] >= ts[0] + cfg.backoffSeconds * (n * (n + 1) / 2) * SECOND
  {
    Project(cfg, ss, es, id, from, to);
    ClockAlong(ss, es, id, from, to);
    ClaimGaps(cfg, ss[from].rows[id], MovesAlong(ss, es, id, from, to));
    GapsAdd(cfg.backoffSeconds, ClaimTimes(MovesAlong(ss, es, id, from, to)), n);
  }

  predicate UpTo(ms: seq<Move>, t: Time) {
    forall i | 0 <= i < |ms| && !ms[i].Rest? :: ms[i].now <= t
  }

  lemma ClockSnoc(ms: seq<Move>, m: Move, last: Time, t: Time)
    requires ClockRuns(ms) && UpTo(ms, last) && last <= t && (m.Rest? || m.now == t)
    ensures ClockRuns(ms + [m]) && UpTo(ms + [m], t)
  {
  }

  lemma MoveTimes(s: System, e: Event, id: JobId)
    requires id in s.rows
    ensures FirstMove(s, e, id).Rest? || FirstMove(s, e, id).now == e.now
    ensures SecondMove(s, e, id).Rest? || SecondMove(s, e, id).now == e.now
  {
  }

  /** The moves along a run carry the clock of its events. */
  lemma {:induction false} ClockAlong(ss: seq<System>, es: seq<Event>, id: JobId, from: nat, to: nat)
    requires from <= to <= |es| <= |ss|
    requires forall i | from <= i < to :: id in ss[i].rows
    requires forall i, j | from <= i < j < to :: es[i].now <= es[j].now
    ensures ClockRuns(MovesAlong(ss, es, id, from, to))
    ensures from < to ==> UpTo(MovesAlong(ss, es, id, from, to), es[to - 1].now)
  {
    if from < to {
      ClockAlong(ss, es, id, from, to - 1);
      var ms, s, e := MovesAlong(ss, es, id, from, to - 1), ss[to - 1], es[to - 1];
      MoveTimes(s, e, id);
      ClockSnoc(ms, FirstMove(s, e, id), if from < to - 1 then es[to - 2].now else e.now, e.now);
      ClockSnoc(ms + [FirstMove(s, e, id)], SecondMove(s, e, id), e.now, e.now);
    }
  }
}
