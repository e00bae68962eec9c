/** Approval requests, the reviewers' decisions on them, and the gate a delivery must pass. */
module Approvals {
  import opened Common
  import opened ApprovalPolicy

  type Id = string

  // ---- Stored records ------------------------------------------------------

  datatype RunRecord = RunRecord(repo: string, succeeded: bool, startedDirty: bool, root: Option<string>,
                                 labels: seq<string>, commandDecisions: set<string>)
  datatype ExecutionRecord = ExecutionRecord(succeeded: bool, applied: bool, linkedRun: Option<Id>, root: string,
                                             changedPaths: seq<string>)
  datatype VerificationRecord = VerificationRecord(succeeded: bool, stoppedOnSuccess: bool, linkedRun: Option<Id>,
                                                   linkedExecution: Option<Id>, root: string, attempts: nat, skipped: nat)

  /** Stored payloads; no operation modelled here changes them. */
  datatype Store = Store(runs: map<Id, RunRecord>, executions: map<Id, ExecutionRecord>,
                         verifications: map<Id, VerificationRecord>)

  /** The run, execution and verification a request or a delivery is about. */
  datatype Subject = Subject(run: Id, execution: Id, verification: Id)

  predicate Known(store: Store, s: Subject) {
    s.run in store.runs && s.execution in store.executions && s.verification in store.verifications
  }

  function FactsOf(store: Store, s: Subject): Facts
    requires Known(store, s)
  {
    var r, e, v := store.runs[s.run], store.executions[s.execution], store.verifications[s.verification];
    Facts(r.labels, r.commandDecisions, e.changedPaths, v.attempts, v.skipped)
  }

  datatype Verdict = Approve | Reject
  datatype Decision = Decision(actor: string, team: string, verdict: Verdict, at: int)
  datatype Status = Pending | Approved | Rejected

  datatype Approval = Approval(
    subject: Subject, repo: string, status: Status, risk: Risk, requestedBy: string, required: nat,
    approvedCount: nat, decisions: seq<Decision>, expiresAt: Option<int>,
    requiredTeams: seq<string>, reviewers: seq<string>, assignedTeams: seq<string>)

  datatype Error =
    | NotFound | NotSucceeded | NotApplied | NotLinked | BadExpiry
    | AlreadyFinal | ApprovalExpired | Reviewer(why: ReviewerError) | AlreadyReviewed
    | DirtyStart | WrongRoot | BlockedByPolicy | ApprovalMissing | NotApproved

  /** Both `_load_delivery_context` and `_validate_linked_records` make these checks first, in this order. */
  function LinkCheck(store: Store, s: Subject): Option<Error> {
    if !Known(store, s) then Some(NotFound)
    else
      var r, e, v := store.runs[s.run], store.executions[s.execution], store.verifications[s.verification];
      if !r.succeeded || !e.succeeded then Some(NotSucceeded)
      else if !e.applied then Some(NotApplied)
      else if !v.succeeded || !v.stoppedOnSuccess then Some(NotSucceeded)
      else if e.linkedRun != Some(s.run) || v.linkedRun != Some(s.run) || v.linkedExecution != Some(s.execution)
      then Some(NotLinked)
      else None
  }

  predicate Expired(a: Approval, now: int) {
    a.expiresAt.Some? && now >= a.expiresAt.value
  }

  function CleanList(items: seq<string>): seq<string> {
    if items == [] then []
    else (if Strip(items[0]) != "" then [Strip(items[0])] else []) + CleanList(items[1..])
  }

  function Approving(ds: seq<Decision>): nat {
    if ds == [] then 0 else Approving(ds[..|ds| - 1]) + (if ds[|ds| - 1].verdict.Approve? then 1 else 0)
  }

  /** The record a review leaves when all its checks pass. */
  function Reviewed(a: Approval, d: Decision): Approval {
    var decisions := a.decisions + [d];
    var count := Approving(decisions);
    var status := if d.verdict.Reject? then Rejected else if count >= a.required then Approved else Pending;
    a.(status := status, approvedCount := count, decisions := decisions)
  }

  function DecideCheck(p: Policy, a: Approval, d: Decision): Option<Error> {
    if !a.status.Pending? then Some(AlreadyFinal)
    else if Expired(a, d.at) then Some(ApprovalExpired)
    else
      match ReviewerCheck(p, a.repo, a.requestedBy, d.actor, d.team, a.requiredTeams, a.reviewers, a.assignedTeams)
      case Some(why) => Some(Reviewer(why))
      case None => if exists x | x in a.decisions :: x.actor == d.actor then Some(AlreadyReviewed) else None
  }

  const HOUR := 3_600_000_000

  class ApprovalWorkflow {
    const policy: Policy
    const store: Store
    var approvals: map<Id, Approval>

    constructor (policy: Policy, store: Store)
      ensures this.policy == policy && this.store == store && approvals == map[]
    {
      this.policy, this.store, approvals := policy, store, map[];
    }

    /** `id` is fresh, as a random identifier is taken to be. */
    method RequestDeliveryApproval(id: Id, subject: Subject, actor: string, team: string, hours: Option<int>,
                                   reviewers: seq<string>, teams: seq<string>, now: int)
      returns (r: Result<Approval, Error>)
      requires id !in approvals
      modifies this
      ensures r.Success? ==>
        && LinkCheck(store, subject).None?
        && approvals == old(approvals)[id := r.value]
        && Performs(policy, store, old(approvals), RequestAct(id, subject, actor, team), approvals)
        && r.value.reviewers == CleanList(reviewers)
        && r.value.assignedTeams == (if CleanList(teams) == [] then r.value.requiredTeams else CleanList(teams))
        && r.value.expiresAt == (if r.value.status.Pending? && hours.Some? then Some(now + hours.value * HOUR) else None)
      ensures r.Failure? ==>
        && approvals == old(approvals)
        && (LinkCheck(store, subject) == Some(r.error)
            || (r.error == BadExpiry && LinkCheck(store, subject).None? && hours.Some? && hours.value <= 0))
      ensures r.Success? <==>
        && LinkCheck(store, subject).None?
        && !(hours.Some? && hours.value <= 0 && NeedsReview(policy, store, subject, team))
    {
      var refusal := LinkCheck(store, subject);
      if refusal.Some? {
        return Failure(refusal.value);
      }
      var repo := store.runs[subject.run].repo;
      var e := EvaluateDelivery(policy, repo, FactsOf(store, subject), Some(team));
      NeedsReviewIff(policy, store, subject, team, e);
      var status := if e.blocked != [] then Rejected else if e.approvalRequired then Pending else Approved;
      var assignedTeams := CleanList(teams);
      if assignedTeams == [] {
        assignedTeams := e.reviewerTeams;
      }
      var expiresAt := None;
      if status.Pending? && hours.Some? {
        if hours.value <= 0 {
          return Failure(BadExpiry);
        }
        expiresAt := Some(now + hours.value * HOUR);
      }
      var a := Approval(subject, repo, status, e.risk, actor, e.required, 0, [], expiresAt,
                        e.reviewerTeams, CleanList(reviewers), assignedTeams);
      approvals := approvals[id := a];
      return Success(a);
    }

    method Decide(id: Id, d: Decision) returns (r: Result<Approval, Error>)
      modifies this
      ensures r.Success? <==> id in old(approvals) && DecideCheck(policy, old(approvals)[id], d).None?
      ensures r.Success? ==>
        && r.value == Reviewed(old(approvals)[id], d) && approvals == old(approvals)[id := r.value]
        && Performs(policy, store, old(approvals), DecideAct(id, d), approvals)
      ensures r.Failure? ==>
        && approvals == old(approvals)
        && (if id in approvals then DecideCheck(policy, approvals[id], d) == Some(r.error) else r.error == NotFound)
    {
      if id !in approvals {
        return Failure(NotFound);
      }
      var a := approvals[id];
      var refusal := DecideCheck(policy, a, d);
      if refusal.Some? {
        return Failure(refusal.value);
      }
      var decisions := a.decisions + [d];
      var count := CountApproving(decisions);
      var status := Pending;
      if d.verdict.Reject? {
        status := Rejected;
      } else if count >= a.required {
        status := Approved;
      }
      var updated := a.(status := status, approvedCount := count, decisions := decisions);
      approvals := approvals[id := updated];
      return Success(updated);
    }

    static method CountApproving(ds: seq<Decision>) returns (count: nat)
      ensures count == Approving(ds)
    {
      count := 0;
      for i := 0 to |ds|
        invariant count == Approving(ds[..i])
      {
        assert ds[..i + 1][..i] == ds[..i];
        if ds[i].verdict.Approve? {
          count := count + 1;
        }
      }
      assert ds[..|ds|] == ds;
    }

    /** The checks of `deliver` up to the approval gate, in order; the approval it relies on, if any. */
    method PassGate(subject: Subject, approval: Option<Id>, root: string, now: int)
      returns (r: Result<Option<Id>, Error>)
      ensures r.Success? <==> Passes(policy, store, approvals, subject, approval, root, now)
      ensures r.Success? ==> r.value == approval
      ensures r.Failure? ==> Refuses(policy, store, approvals, subject, approval, root, now, r.error)
    {
      var refusal := LinkCheck(store, subject);
      if refusal.Some? {
        return Failure(refusal.value);
      }
      var run := store.runs[subject.run];
      if run.startedDirty {
        return Failure(DirtyStart);
      }
      if !RootsMatch(store, subject, root) {
        return Failure(WrongRoot);
      }
      var e := EvaluateDelivery(policy, run.repo, FactsOf(store, subject), None);
      GateEvaluation(policy, store, subject, e);
      if e.blocked != [] {
        return Failure(BlockedByPolicy);
      }
      if approval.None? {
        if e.approvalRequired {
          return Failure(ApprovalMissing);
        }
        return Success(None);
      }
      if approval.value !in approvals {
        return Failure(NotFound);
      }
      var a := approvals[approval.value];
      if !a.status.Approved? {
        return Failure(NotApproved);
      }
      if Expired(a, now) {
        return Failure(ApprovalExpired);
      }
      if a.subject.run != subject.run || a.subject.execution != subject.execution
         || a.subject.verification != subject.verification {
        return Failure(NotLinked);
      }
      return Success(approval);
    }
  }

  /** What a stored request records of its evaluation. */
  ghost predicate Requested(p: Policy, store: Store, s: Subject, actor: string, team: string, a: Approval) {
    && Known(store, s) && a.subject == s && a.repo == store.runs[s.run].repo && a.requestedBy == actor
    && exists e ::
         && Evaluates(p, a.repo, FactsOf(store, s), Some(team), e)
         && a.risk == e.risk && a.required == e.required && a.requiredTeams == e.reviewerTeams
         && a.approvedCount == 0 && a.decisions == []
         && a.status == if e.blocked != [] then Rejected else if e.required > 0 then Pending else Approved
  }

  /** The request will wait for reviewers. */
  ghost predicate NeedsReview(p: Policy, store: Store, s: Subject, team: string) {
    && Known(store, s)
    && exists e :: Evaluates(p, store.runs[s.run].repo, FactsOf(store, s), Some(team), e) && e.approvalRequired
  }

  lemma NeedsReviewIff(p: Policy, store: Store, s: Subject, team: string, e: Evaluation)
    requires Known(store, s) && Evaluates(p, store.runs[s.run].repo, FactsOf(store, s), Some(team), e)
    ensures NeedsReview(p, store, s, team) <==> e.approvalRequired
  {
    if other :| Evaluates(p, store.runs[s.run].repo, FactsOf(store, s), Some(team), other) && other.approvalRequired {
      TeamDoesNotChangeRisk(p, store.runs[s.run].repo, FactsOf(store, s), Some(team), Some(team), e, other);
    }
  }

  predicate RootsMatch(store: Store, s: Subject, root: string)
    requires Known(store, s)
  {
    && (store.runs[s.run].root.Some? ==> store.runs[s.run].root.value == root)
    && store.executions[s.execution].root == root
    && store.verifications[s.verification].root == root
  }

  ghost predicate Passes(p: Policy, store: Store, approvals: map<Id, Approval>, s: Subject, approval: Option<Id>,
                         root: string, now: int)
  {
    && LinkCheck(store, s).None?
    && !store.runs[s.run].startedDirty
    && RootsMatch(store, s, root)
    && exists e ::
         && Evaluates(p, store.runs[s.run].repo, FactsOf(store, s), None, e)
         && e.blocked == []
         && match approval
            case None => !e.approvalRequired
            case Some(id) =>
              && id in approvals && approvals[id].status.Approved? && !Expired(approvals[id], now)
              && approvals[id].subject == s
  }

  /** The checks on the approval, in order, for a delivery evaluated as `e`. */
  function ApprovalError(approvals: map<Id, Approval>, s: Subject, approval: Option<Id>, now: int, e: Evaluation): Option<Error> {
    if e.blocked != [] then Some(BlockedByPolicy)
    else if approval.None? then if e.approvalRequired then Some(ApprovalMissing) else None
    else if approval.value !in approvals then Some(NotFound)
    else if !approvals[approval.value].status.Approved? then Some(NotApproved)
    else if Expired(approvals[approval.value], now) then Some(ApprovalExpired)
    else if approvals[approval.value].subject != s then Some(NotLinked)
    else None
  }

  /** The error a refused delivery reports: that of the first check that fails. */
  ghost predicate Refuses(p: Policy, store: Store, approvals: map<Id, Approval>, s: Subject, approval: Option<Id>,
                          root: string, now: int, error: Error)
  {
    if LinkCheck(store, s).Some? then Some(error) == LinkCheck(store, s)
    else if store.runs[s.run].startedDirty then error == DirtyStart
    else if !RootsMatch(store, s, root) then error == WrongRoot
    else
      exists e ::
        && Evaluates(p, store.runs[s.run].repo, FactsOf(store, s), None, e)
        && ApprovalError(approvals, s, approval, now, e) == Some(error)
  }

  predicate Reaches(store: Store, s: Subject, root: string) {
    LinkCheck(store, s).None? && !store.runs[s.run].startedDirty && RootsMatch(store, s, root)
  }

  /** Both outcomes of a delivery that reaches the approval checks, by its evaluation. */
  lemma GateByEvaluation(p: Policy, store: Store, approvals: map<Id, Approval>, s: Subject, approval: Option<Id>,
                         root: string, now: int, e: Evaluation)
    requires Reaches(store, s, root) && Evaluates(p, store.runs[s.run].repo, FactsOf(store, s), None, e)
    ensures Passes(p, store, approvals, s, approval, root, now) <==> ApprovalError(approvals, s, approval, now, e).None?
    ensures forall error :: Refuses(p, store, approvals, s, approval, root, now, error)
                            <==> ApprovalError(approvals, s, approval, now, e) == Some(error)
  {
    GateEvaluation(p, store, s, e);
  }

  /** A delivery is refused with one definite error or passes, and never both. */
  lemma PassesOrRefuses(p: Policy, store: Store, approvals: map<Id, Approval>, s: Subject, approval: Option<Id>,
                        root: string, now: int, error: Error, e: Evaluation)
    requires Reaches(store, s, root) ==> Evaluates(p, store.runs[s.run].repo, FactsOf(store, s), None, e)
    requires Refuses(p, store, approvals, s, approval, root, now, error)
    ensures !Passes(p, store, approvals, s, approval, root, now)
    ensures forall other :: Refuses(p, store, approvals, s, approval, root, now, other) ==> other == error
  {
    if Reaches(store, s, root) {
      GateByEvaluation(p, store, approvals, s, approval, root, now, e);
    }
  }

  lemma GateEvaluation(p: Policy, store: Store, s: Subject, e: Evaluation)
    requires Known(store, s) && Evaluates(p, store.runs[s.run].repo, FactsOf(store, s), None, e)
    ensures forall other :: Evaluates(p, store.runs[s.run].repo, FactsOf(store, s), None, other) ==> other == e
  {
    forall other | Evaluates(p, store.runs[s.run].repo, FactsOf(store, s), None, other) ensures other == e {
      TeamDoesNotChangeRisk(p, store.runs[s.run].repo, FactsOf(store, s), None, None, e, other);
    }
  }

  // ---- Runs ------------------------------------------------------------------

  datatype Act =
    | RequestAct(id: Id, subject: Subject, actor: string, team: string)
    | DecideAct(id: Id, decision: Decision)

  /** An operation that succeeded; a refused one changes nothing. */
  ghost predicate Performs(p: Policy, store: Store, before: map<Id, Approval>, act: Act, after: map<Id, Approval>) {
    match act
    case RequestAct(id, s, actor, team) =>
      && id !in before && id in after && after == before[id := after[id]]
      && Requested(p, store, s, actor, team, after[id])
    case DecideAct(id, d) =>
      id in before && DecideCheck(p, before[id], d).None? && after == before[id := Reviewed(before[id], d)]
  }

  ghost predicate History(p: Policy, store: Store, states: seq<map<Id, Approval>>, acts: seq<Act>) {
    && |states| == |acts| + 1 && states[0] == map[]
    && forall i {:trigger acts[i]} | 0 <= i < |acts| :: Performs(p, store, states[i], acts[i], states[i + 1])
  }

  function Approvers(a: Approval): set<string> {
    set d | d in a.decisions && d.verdict.Approve? :: d.actor
  }

  /** Nobody decides twice, and a rejection can only come last. */
  ghost predicate DecisionsOk(p: Policy, a: Approval) {
    && (forall i, j | 0 <= i < j < |a.decisions| :: a.decisions[i].actor != a.decisions[j].actor)
    && (forall i | 0 <= i < |a.decisions| - 1 :: a.decisions[i].verdict.Approve?)
    && (!p.Of(a.repo).allowSelfApproval ==> forall d | d in a.decisions :: d.actor != a.requestedBy)
    && a.approvedCount == Approving(a.decisions)
  }

  ghost predicate StatusOk(a: Approval) {
    match a.status
    case Pending => Approving(a.decisions) == |a.decisions| < a.required
    case Approved => Approving(a.decisions) == |a.decisions| == a.required
    case Rejected => a.decisions != [] ==>
      && a.decisions[|a.decisions| - 1].verdict.Reject?
      && Approving(a.decisions) == |a.decisions| - 1 < a.required
  }

  /** The number of approvals asked for is still what an evaluation without a team asks for. */
  ghost predicate RequiredOk(p: Policy, store: Store, a: Approval) {
    && Known(store, a.subject) && a.repo == store.runs[a.subject.run].repo
    && forall e :: Evaluates(p, a.repo, FactsOf(store, a.subject), None, e) ==> e.required == a.required
  }

  ghost predicate ApprovalOk(p: Policy, store: Store, a: Approval) {
    DecisionsOk(p, a) && StatusOk(a) && RequiredOk(p, store, a)
  }

  lemma RequestOk(p: Policy, store: Store, s: Subject, actor: string, team: string, a: Approval)
    requires Requested(p, store, s, actor, team, a)
    ensures ApprovalOk(p, store, a)
  {
    var e :| Evaluates(p, a.repo, FactsOf(store, s), Some(team), e) && a.required == e.required;
    forall e2 | Evaluates(p, a.repo, FactsOf(store, s), None, e2) ensures e2.required == a.required {
      TeamDoesNotChangeRisk(p, a.repo, FactsOf(store, s), None, Some(team), e2, e);
    }
  }

  lemma ReviewOk(p: Policy, store: Store, a: Approval, d: Decision)
    requires ApprovalOk(p, store, a) && DecideCheck(p, a, d).None?
    ensures ApprovalOk(p, store, Reviewed(a, d))
  {
    assert (a.decisions + [d])[..|a.decisions|] == a.decisions;
    AllApprove(a.decisions);
  }

  /** Every decision approves when the count says so. */
  lemma {:induction false} AllApprove(ds: seq<Decision>)
    ensures Approving(ds) <= |ds|
    ensures Approving(ds) == |ds| ==> forall d | d in ds :: d.verdict.Approve?
  {
    if ds != [] {
      AllApprove(ds[..|ds| - 1]);
      assert ds == ds[..|ds| - 1] + [ds[|ds| - 1]];
    }
  }

  /**
   In every reachable state: a pending approval has only approving decisions of distinct
   actors and too few of them; one approved by review has exactly as many as required, none
   by the requester while self-approval is off; one rejected by review ends in its only rejection.
   */
  lemma {:induction false} HistoryOk(p: Policy, store: Store, states: seq<map<Id, Approval>>, acts: seq<Act>, n: nat)
    requires History(p, store, states, acts) && n < |states|
    ensures forall id | id in states[n] :: ApprovalOk(p, store, states[n][id])
  {
    if n > 0 {
      HistoryOk(p, store, states, acts, n - 1);
      assert Performs(p, store, states[n - 1], acts[n - 1], states[n]);
      match acts[n - 1]
      case RequestAct(id, s, actor, team) => RequestOk(p, store, s, actor, team, states[n][id]);
      case DecideAct(id, d) => ReviewOk(p, store, states[n - 1][id], d);
    }
  }

  /** A final approval never changes again. */
  lemma {:induction false} FinalStays(p: Policy, store: Store, states: seq<map<Id, Approval>>, acts: seq<Act>,
                                      from: nat, n: nat, id: Id)
    requires History(p, store, states, acts) && from <= n < |states|
    requires id in states[from] && !states[from][id].status.Pending?
    ensures id in states[n] && states[n][id] == states[from][id]
  {
    if from < n {
      FinalStays(p, store, states, acts, from, n - 1, id);
      assert Performs(p, store, states[n - 1], acts[n - 1], states[n]);
    }
  }

  /** Distinct actors who all approve are as many approvers as decisions. */
  lemma {:induction false} ApproverCount(ds: seq<Decision>, a: Approval)
    requires a.decisions == ds && (forall d | d in ds :: d.verdict.Approve?)
    requires forall i, j | 0 <= i < j < |ds| :: ds[i].actor != ds[j].actor
    ensures |Approvers(a)| == |ds|
  {
    if ds == [] {
      assert Approvers(a) == {};
    } else {
      var init, last := ds[..|ds| - 1], ds[|ds| - 1];
      ApproverCount(init, a.(decisions := init));
      assert ds == init + [last];
      assert Approvers(a) == Approvers(a.(decisions := init)) + {last.actor};
    }
  }

  /**
   The gate, over every history of requests and reviews under one policy and unchanged
   payloads: a delivery that passes is not blocked, and the evaluation made for it asks for
   no more approvals than there are distinct people who approved this very run, execution
   and verification, none of them the requester while self-approval is off.
   */
  lemma DeliveryIsApproved(p: Policy, store: Store, states: seq<map<Id, Approval>>, acts: seq<Act>, n: nat,
                           s: Subject, approval: Option<Id>, root: string, now: int, e: Evaluation)
    requires History(p, store, states, acts) && n < |states|
    requires Passes(p, store, states[n], s, approval, root, now)
    requires Evaluates(p, store.runs[s.run].repo, FactsOf(store, s), None, e)
    ensures e.blocked == []
    ensures approval.None? ==> e.required == 0
    ensures approval.Some? ==>
      var a := states[n][approval.value];
      && a.subject == s && |Approvers(a)| == e.required
      && (!p.Of(a.repo).allowSelfApproval ==> a.requestedBy !in Approvers(a))
  {
    GateEvaluation(p, store, s, e);
    if approval.Some? {
      var a := states[n][approval.value];
      HistoryOk(p, store, states, acts, n);
      AllApprove(a.decisions);
      ApproverCount(a.decisions, a);
    }
  }
}
