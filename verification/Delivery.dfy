/**
 Requests, reviews and deliveries read off the stored records: which fields decide, and how
 an approval that was asked for at one time carries a delivery at another.
 */
module Delivery {
  import opened Common
  import opened ApprovalPolicy
  import opened Approvals
  import Timestamps

  /** An hour on the calendar is an hour on the clock that expiries are counted in. */
  lemma HourIsAnHour(t: Timestamps.Stamp)
    requires t.Valid() && t.hour < 23
    ensures t.(hour := t.hour + 1).Valid() && t.(hour := t.hour + 1).Instant() == t.Instant() + HOUR
  {
  }

  /** Where the facts of an evaluation come from. */
  predicate IsAbout(store: Store, s: Subject, facts: Facts) {
    && Known(store, s)
    && facts.labels == store.runs[s.run].labels
    && facts.commandDecisions == store.runs[s.run].commandDecisions
    && facts.changedPaths == store.executions[s.execution].changedPaths
    && facts.verifyAttempts == store.verifications[s.verification].attempts
    && facts.skippedCommands == store.verifications[s.verification].skipped
  }

  lemma FactsAreAbout(store: Store, s: Subject, facts: Facts)
    requires IsAbout(store, s, facts)
    ensures facts == FactsOf(store, s)
  {
  }

  /** `n` approvals are asked for at the level the labels, paths and counts call for. */
  ghost predicate Asks(p: Policy, r: RepoPolicy, facts: Facts, n: nat) {
    if IsCritical(p, r, facts) then n == r.requiredCritical
    else if IsHigh(p, r, facts) then n == r.requiredHigh
    else if IsMedium(r, facts) then n == r.requiredMedium
    else n == r.requiredLow
  }

  lemma EvaluationAsks(p: Policy, repo: string, r: RepoPolicy, facts: Facts, team: Option<string>, e: Evaluation)
    requires Governs(p, repo, r) && Evaluates(p, repo, facts, team, e)
    ensures Asks(p, r, facts, e.required)
  {
    RiskIff(p, repo, r, facts, team, e);
    RequiredIs(p, repo, r, facts, team, e);
  }

  // ---- Links ---------------------------------------------------------------

  /** All three records succeeded, the patch was applied for real, and each belongs to the others. */
  predicate Linked(store: Store, s: Subject) {
    && Known(store, s)
    && store.runs[s.run].succeeded
    && store.executions[s.execution].succeeded && store.executions[s.execution].applied
    && store.verifications[s.verification].succeeded && store.verifications[s.verification].stoppedOnSuccess
    && store.executions[s.execution].linkedRun == Some(s.run)
    && store.verifications[s.verification].linkedRun == Some(s.run)
    && store.verifications[s.verification].linkedExecution == Some(s.execution)
  }

  lemma LinkCheckIs(store: Store, s: Subject)
    ensures LinkCheck(store, s) == None <==> Linked(store, s)
    ensures LinkCheck(store, s) == Some(NotFound)
      <==> s.run !in store.runs || s.execution !in store.executions || s.verification !in store.verifications
    ensures LinkCheck(store, s) == Some(NotApplied)
      <==> Known(store, s) && store.runs[s.run].succeeded && store.executions[s.execution].succeeded
           && !store.executions[s.execution].applied
    ensures LinkCheck(store, s) == Some(NotSucceeded)
      <==> Known(store, s) && (!store.runs[s.run].succeeded || !store.executions[s.execution].succeeded
           || (store.executions[s.execution].applied && (!store.verifications[s.verification].succeeded
                                                         || !store.verifications[s.verification].stoppedOnSuccess)))
    ensures LinkCheck(store, s).Some? ==> LinkCheck(store, s).value in {NotFound, NotApplied, NotSucceeded, NotLinked}
  {
  }

  // ---- Requests --------------------------------------------------------------

  /** The items of a list, each stripped, without the empty ones. */
  lemma {:induction false} CleanListHolds(items: seq<string>, x: string)
    ensures x in CleanList(items) <==> x != "" && exists raw :: raw in items && Strip(raw) == x
  {
    if items != [] {
      CleanListHolds(items[1..], x);
      assert forall raw :: raw in items <==> raw == items[0] || raw in items[1..];
    }
  }

  function Cleaned(item: string): seq<string> {
    if Strip(item) != "" then [Strip(item)] else []
  }

  lemma CleanListCons(item: string, rest: seq<string>)
    ensures CleanList([item] + rest) == Cleaned(item) + CleanList(rest)
  {
    assert ([item] + rest)[1..] == rest;
  }

  lemma Assoc(a: seq<string>, b: seq<string>, c: seq<string>)
    ensures a + b + c == a + (b + c)
  {
  }

  /** They keep their order. */
  lemma {:induction false} CleanListSplits(first: seq<string>, second: seq<string>)
    ensures CleanList(first + second) == CleanList(first) + CleanList(second)
  {
    if first == [] {
      assert first + second == second;
    } else {
      var item, rest := first[0], first[1..];
      CleanListSplits(rest, second);
      CleanListCons(item, rest);
      CleanListCons(item, rest + second);
      Assoc([item], rest, second);
      Assoc(Cleaned(item), CleanList(rest), CleanList(second));
      assert first == [item] + rest;
    }
  }

  /** What becomes of a request, by the team that makes it and the records it is about. */
  lemma RequestIs(p: Policy, store: Store, s: Subject, actor: string, team: string, a: Approval, r: RepoPolicy, facts: Facts)
    requires Requested(p, store, s, actor, team, a) && IsAbout(store, s, facts)
    requires Governs(p, store.runs[s.run].repo, r)
    ensures a.subject == s && a.repo == store.runs[s.run].repo && a.requestedBy == actor
    ensures Asks(p, r, facts, a.required) && a.requiredTeams == r.requiredReviewerTeams
    ensures a.decisions == [] && a.approvedCount == 0
    ensures a.status.Rejected? <==>
      || Strip(team) == "" || Strip(team) in p.mayNotRequest || Labelled(facts.labels, r.blockedLabels)
      || ((exists name :: name in r.allowedRequesterTeams && Strip(name) != "")
          && forall name | name in r.allowedRequesterTeams :: !SameName(name, Strip(team)))
    ensures a.status.Pending? <==> !a.status.Rejected? && a.required > 0
    ensures a.status.Approved? <==> !a.status.Rejected? && a.required == 0
  {
    FactsAreAbout(store, s, facts);
    var e :| Evaluates(p, a.repo, FactsOf(store, s), Some(team), e) && a.required == e.required
             && a.requiredTeams == e.reviewerTeams
             && a.status == if e.blocked != [] then Rejected else if e.required > 0 then Pending else Approved;
    EvaluationAsks(p, a.repo, r, facts, Some(team), e);
    RequiredIs(p, a.repo, r, facts, Some(team), e);
    BlockedIff(p, a.repo, r, facts, Some(team), e);
  }

  // ---- Reviews ----------------------------------------------------------------

  /** When a review is accepted, and how a refused one is answered. */
  lemma DecideCheckIs(p: Policy, a: Approval, d: Decision)
    ensures var check := DecideCheck(p, a, d);
      var inTime := a.status.Pending? && (a.expiresAt.Some? ==> d.at < a.expiresAt.value);
      var may := ReviewerCheck(p, a.repo, a.requestedBy, d.actor, d.team, a.requiredTeams, a.reviewers, a.assignedTeams);
      && (check == Some(AlreadyFinal) <==> !a.status.Pending?)
      && (check == Some(ApprovalExpired) <==> a.status.Pending? && a.expiresAt.Some? && d.at >= a.expiresAt.value)
      && (forall why :: check == Some(Reviewer(why)) <==> inTime && may == Some(why))
      && (check == Some(AlreadyReviewed) <==> inTime && may == None && exists x :: x in a.decisions && x.actor == d.actor)
      && (check == None <==> inTime && may == None && forall x | x in a.decisions :: x.actor != d.actor)
  {
  }

  /** A review adds its decision at the end and decides the status; nothing else changes. */
  lemma ReviewedIs(a: Approval, d: Decision)
    ensures var b := Reviewed(a, d);
      && b.decisions == a.decisions + [d] && SameRequest(a, b)
      && b.approvedCount == Approving(a.decisions) + (if d.verdict.Approve? then 1 else 0)
      && (b.status.Rejected? <==> d.verdict.Reject?)
      && (b.status.Approved? <==> d.verdict.Approve? && b.approvedCount >= a.required)
  {
    assert (a.decisions + [d])[..|a.decisions|] == a.decisions;
  }

  predicate SameRequest(a: Approval, b: Approval) {
    && a.subject == b.subject && a.repo == b.repo && a.risk == b.risk && a.requestedBy == b.requestedBy
    && a.required == b.required && a.expiresAt == b.expiresAt && a.requiredTeams == b.requiredTeams
    && a.reviewers == b.reviewers && a.assignedTeams == b.assignedTeams
  }

  /** Reviews never change what was asked for: subject, number, expiry, reviewers and teams stay as they were stored. */
  lemma {:induction false} RequestStays(p: Policy, store: Store, states: seq<map<Id, Approval>>, acts: seq<Act>,
                                        from: nat, n: nat, id: Id)
    requires History(p, store, states, acts) && from <= n < |states| && id in states[from]
    ensures id in states[n] && SameRequest(states[from][id], states[n][id])
  {
    if from < n {
      RequestStays(p, store, states, acts, from, n - 1, id);
      assert Performs(p, store, states[n - 1], acts[n - 1], states[n]);
    }
  }

  /** An approval with an expiry is reviewed before it, and carries no delivery from then on. */
  lemma ExpiryEnds(p: Policy, store: Store, states: seq<map<Id, Approval>>, acts: seq<Act>, from: nat, n: nat, id: Id,
                   s: Subject, root: string, now: int)
    requires History(p, store, states, acts) && from <= n < |states| && id in states[from]
    requires states[from][id].expiresAt.Some?
    ensures n < |acts| && acts[n].DecideAct? && acts[n].id == id ==> acts[n].decision.at < states[from][id].expiresAt.value
    ensures Passes(p, store, states[n], s, Some(id), root, now) ==> now < states[from][id].expiresAt.value
  {
    RequestStays(p, store, states, acts, from, n, id);
    if n < |acts| {
      assert Performs(p, store, states[n], acts[n], states[n + 1]);
    }
  }

  // ---- Deliveries --------------------------------------------------------------

  /** Every record that names a root names this one. */
  predicate AtRoot(store: Store, s: Subject, root: string)
    requires Known(store, s)
  {
    && (store.runs[s.run].root.None? || store.runs[s.run].root == Some(root))
    && store.executions[s.execution].root == root && store.verifications[s.verification].root == root
  }

  /**
   Exactly when a delivery passes the gate: its records are linked and clean, no label blocks it,
   and it either needs no approval, by the level its labels, paths and counts call for, and
   brings none, or it brings one that is approved, not expired, and for these very records.
   */
  lemma DeliveryPassesIff(p: Policy, store: Store, approvals: map<Id, Approval>, s: Subject, approval: Option<Id>,
                          root: string, now: int, r: RepoPolicy, facts: Facts, n: nat, e: Evaluation)
    requires s.run in store.runs ==> Governs(p, store.runs[s.run].repo, r)
    requires Known(store, s) ==>
      && IsAbout(store, s, facts) && Asks(p, r, facts, n) && Evaluates(p, store.runs[s.run].repo, facts, None, e)
    ensures Passes(p, store, approvals, s, approval, root, now)
      <==> && Linked(store, s) && !store.runs[s.run].startedDirty && AtRoot(store, s, root)
           && !Labelled(facts.labels, r.blockedLabels)
           && match approval
              case None => n == 0
              case Some(id) =>
                && id in approvals && approvals[id].status.Approved?
                && (approvals[id].expiresAt.Some? ==> now < approvals[id].expiresAt.value)
                && approvals[id].subject.run == s.run && approvals[id].subject.execution == s.execution
                && approvals[id].subject.verification == s.verification
  {
    LinkCheckIs(store, s);
    if Known(store, s) {
      FactsAreAbout(store, s, facts);
      GateEvaluation(p, store, s, e);
      EvaluationAsks(p, store.runs[s.run].repo, r, facts, None, e);
      RequiredIs(p, store.runs[s.run].repo, r, facts, None, e);
      BlockedIff(p, store.runs[s.run].repo, r, facts, None, e);
    }
  }

  /**
   The gate over histories, read off the records: a delivery that passes has been approved, for
   these very records, by as many distinct people as the policy asks for at the level that the
   labels, the changed paths and the counts stored for it call for.
   */
  lemma DeliveryHasReviewers(p: Policy, store: Store, states: seq<map<Id, Approval>>, acts: seq<Act>, k: nat,
                             s: Subject, approval: Option<Id>, root: string, now: int, r: RepoPolicy, facts: Facts, n: nat)
    requires History(p, store, states, acts) && k < |states|
    requires Passes(p, store, states[k], s, approval, root, now)
    requires IsAbout(store, s, facts) && Governs(p, store.runs[s.run].repo, r) && Asks(p, r, facts, n)
    ensures approval.None? ==> n == 0
    ensures approval.Some? ==>
      var a := states[k][approval.value];
      && a.subject == s && |Approvers(a)| == n
      && (!r.allowSelfApproval ==> a.requestedBy !in Approvers(a))
  {
    FactsAreAbout(store, s, facts);
    var e :| Evaluates(p, store.runs[s.run].repo, FactsOf(store, s), None, e);
    EvaluationAsks(p, store.runs[s.run].repo, r, facts, None, e);
    DeliveryIsApproved(p, store, states, acts, k, s, approval, root, now, e);
    if approval.Some? {
      HistoryOk(p, store, states, acts, k);
    }
  }
}
