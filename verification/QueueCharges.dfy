/** What a job's budget column says: the exact sum of what its attempts were charged. */
module QueueCharges {
  import opened Common
  import opened QueueModel
  import opened QueueSafety
  import opened QueueHistory
  import opened QueueLife
  import opened QueueEffects

  // ---- Over the life of a row ----------------------------------------------

  /** Charges since the job was created or last resumed with a reset. */
  function Charged(price: int, ms: seq<Move>): int {
    if ms == [] then 0
    else
      var before, m := Charged(price, ms[..|ms| - 1]), ms[|ms| - 1];
      if m.Succeed? then before + price
      else if m.Fail? then before + m.charge
      else if m.Resume? && m.reset then 0
      else before
  }

  lemma MoveCharges(cfg: Settings, r: Row, m: Move, price: int)
    requires CanMove(cfg, r, m) && IsPrice(cfg, r.job.jobType, Strip(r.payload.provider), price)
    ensures m.Fail? ==> m.charge == 0 || m.charge == price
    ensures MoveRow(cfg, r, m).job.budgetUsed
         == if m.Succeed? then r.job.budgetUsed + price
            else if m.Fail? then r.job.budgetUsed + m.charge
            else if m.Resume? && m.reset then 0
            else r.job.budgetUsed
  {
    AttemptCostIsPrice(cfg, r);
  }

  /** Over any life the budget column is the sum of the charges, each of which is the price of an attempt or nothing. */
  lemma {:induction false} ChargesAddUp(cfg: Settings, req: Request, now: Time, ms: seq<Move>, price: int)
    requires Feasible(cfg, NewRow(cfg, req, now), ms) && IsPrice(cfg, req.jobType, Strip(req.provider), price)
    ensures After(cfg, NewRow(cfg, req, now), ms).job.budgetUsed == Charged(price, ms)
    ensures forall i | 0 <= i < |ms| && ms[i].Fail? :: ms[i].charge == 0 || ms[i].charge == price
  {
    if ms != [] {
      var init := ms[..|ms| - 1];
      ChargesAddUp(cfg, req, now, init, price);
      Immutable(cfg, NewRow(cfg, req, now), init);
      MoveCharges(cfg, After(cfg, NewRow(cfg, req, now), init), ms[|ms| - 1], price);
    }
  }

  // ---- Over a run ------------------------------------------------------------

  /** What the first `n` events of a run charge to a job since its last reset. */
  function ChargedIn(ss: seq<System>, es: seq<Event>, id: JobId, price: int, n: nat): int
    requires n <= |es| < |ss|
  {
    if n == 0 then 0
    else
      var before, s, e := ChargedIn(ss, es, id, price, n - 1), ss[n - 1], es[n - 1];
      if e.SucceedEvent? && Reports(s, e, id) then before + price
      else if e.FailEvent? && Reports(s, e, id) then before + e.charge
      else if e.ResumeEvent? && e.id == id && e.reset then 0
      else before
  }

  lemma {:induction false} NothingCharged(cfg: Settings, ss: seq<System>, es: seq<Event>, id: JobId, price: int, n: nat)
    requires Run(cfg, ss, es) && n < |ss| && id !in ss[n].rows
    ensures ChargedIn(ss, es, id, price, n) == 0
  {
    if n > 0 {
      assert StepAt(cfg, ss, es, n - 1);
      RunKeepsKin(cfg, ss, es, n - 1);
      StepKeepsAsked(cfg, ss[n - 1], es[n - 1], ss[n]);
      NothingCharged(cfg, ss, es, id, price, n - 1);
      assert !Reports(ss[n - 1], es[n - 1], id);
    }
  }

  /** Which events become which moves of row `id`. */
  lemma MovesOfEvent(s: System, e: Event, id: JobId)
    requires id in s.rows
    ensures FirstMove(s, e, id).Rest? || FirstMove(s, e, id).Reclaim?
    ensures SecondMove(s, e, id).Succeed? <==> e.SucceedEvent? && Reports(s, e, id)
    ensures SecondMove(s, e, id).Fail? <==> e.FailEvent? && Reports(s, e, id)
    ensures SecondMove(s, e, id).Fail? ==> SecondMove(s, e, id).charge == e.charge
    ensures SecondMove(s, e, id).Resume? <==> e.ResumeEvent? && e.id == id
    ensures SecondMove(s, e, id).Resume? ==> SecondMove(s, e, id).reset == e.reset
  {
  }

  /** One fenced step changes the budget column by its charge. */
  lemma StepCharges(cfg: Settings, s: System, e: Event, t: System, id: JobId, price: int)
    requires Step(cfg, s, e, t) && Fenced(s, e) && Sound(s) && id in s.rows
    requires IsPrice(cfg, s.rows[id].job.jobType, Strip(s.rows[id].payload.provider), price)
    ensures id in t.rows
    ensures t.rows[id].job.budgetUsed
         == if e.SucceedEvent? && Reports(s, e, id) then s.rows[id].job.budgetUsed + price
            else if e.FailEvent? && Reports(s, e, id) then s.rows[id].job.budgetUsed + e.charge
            else if e.ResumeEvent? && e.id == id && e.reset then 0
            else s.rows[id].job.budgetUsed
    ensures e.FailEvent? && Reports(s, e, id) ==> e.charge == 0 || e.charge == price
  {
    var m1, m2 := FirstMove(s, e, id), SecondMove(s, e, id);
    ProjectStep(cfg, s, e, t, id);
    MovesOfEvent(s, e, id);
    MoveKeepsRequest(cfg, s.rows[id], m1);
    MoveCharges(cfg, s.rows[id], m1, price);
    MoveCharges(cfg, MoveRow(cfg, s.rows[id], m1), m2, price);
  }

  predicate ChargeOk(ss: seq<System>, es: seq<Event>, n: nat, id: JobId, price: int)
    requires n <= |es| < |ss|
  {
    && id in ss[n].rows && ss[n].rows[id].job.budgetUsed == ChargedIn(ss, es, id, price, n)
    && forall i | 0 <= i < n && es[i].FailEvent? && Reports(ss[i], es[i], id) :: es[i].charge == 0 || es[i].charge == price
  }

  lemma StepKeepsCharge(cfg: Settings, ss: seq<System>, es: seq<Event>, n: nat, id: JobId, price: int)
    requires n < |es| < |ss| && Step(cfg, ss[n], es[n], ss[n + 1]) && Fenced(ss[n], es[n]) && Sound(ss[n])
    requires ChargeOk(ss, es, n, id, price)
    requires IsPrice(cfg, ss[n].rows[id].job.jobType, Strip(ss[n].rows[id].payload.provider), price)
    ensures ChargeOk(ss, es, n + 1, id, price)
  {
    StepCharges(cfg, ss[n], es[n], ss[n + 1], id, price);
  }

  /**
   In every fenced run a job's budget column is exactly the sum of what its reported attempts
   were charged since its last reset: the price for each success, and for each failure the
   price or, if it never got past its checks, nothing.
   */
  lemma {:induction false} FencedRunCharges(cfg: Settings, ss: seq<System>, es: seq<Event>, n: nat, id: JobId, price: int)
    requires Run(cfg, ss, es) && FencedPath(ss, es) && n < |ss| && id in ss[n].rows
    requires IsPrice(cfg, ss[n].rows[id].job.jobType, Strip(ss[n].rows[id].payload.provider), price)
    ensures ChargeOk(ss, es, n, id, price)
  {
    assert StepAt(cfg, ss, es, n - 1);
    RunKeepsKin(cfg, ss, es, n - 1);
    if id in ss[n - 1].rows {
      AskedStays(cfg, ss[n - 1], es[n - 1], ss[n], id);
      FencedRunCharges(cfg, ss, es, n - 1, id, price);
      FencedRunIsSound(cfg, ss, es, n - 1);
      StepKeepsCharge(cfg, ss, es, n - 1, id, price);
    } else {
      OnlyEnqueueAdds(cfg, ss[n - 1], es[n - 1], ss[n], id);
      NothingCharged(cfg, ss, es, id, price, n - 1);
      NothingReported(cfg, ss, es, id, n - 1);
    }
  }

  lemma {:induction false} NothingReported(cfg: Settings, ss: seq<System>, es: seq<Event>, id: JobId, n: nat)
    requires Run(cfg, ss, es) && n < |ss| && id !in ss[n].rows
    ensures forall i | 0 <= i < n :: !Reports(ss[i], es[i], id)
  {
    if n > 0 {
      assert StepAt(cfg, ss, es, n - 1);
      RunKeepsKin(cfg, ss, es, n - 1);
      StepKeepsAsked(cfg, ss[n - 1], es[n - 1], ss[n]);
      NothingReported(cfg, ss, es, id, n - 1);
    }
  }
}
