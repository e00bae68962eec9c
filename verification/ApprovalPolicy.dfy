/** Risk evaluation of a delivery and the reviewer rules. */
module ApprovalPolicy {
  import opened Common

  datatype Risk = Low | Medium | High | Critical {
    function Order(): nat {
      match this
      case Low => 0
      case Medium => 1
      case High => 2
      case Critical => 3
    }
  }

  function MaxRisk(left: Risk, right: Risk): Risk {
    if right.Order() > left.Order() then right else left
  }

  /** A repository's policy after defaults and overrides are merged. */
  datatype RepoPolicy = RepoPolicy(
    requiredLow: nat, requiredMedium: nat, requiredHigh: nat, requiredCritical: nat,
    allowSelfApproval: bool, blockedLabels: seq<string>, highLabels: seq<string>, criticalLabels: seq<string>,
    highPaths: seq<string>, criticalPaths: seq<string>, requiredReviewerTeams: seq<string>,
    allowedRequesterTeams: seq<string>, allowedReviewerTeams: seq<string>, maxLowFiles: nat, maxMediumFiles: nat)
  {
    function Required(risk: Risk): nat {
      match risk
      case Low => requiredLow
      case Medium => requiredMedium
      case High => requiredHigh
      case Critical => requiredCritical
    }
  }

  /** `matches` stands for the prefix, base name and glob rules that compare a path with a pattern. */
  datatype Policy = Policy(
    defaults: RepoPolicy, repos: map<string, RepoPolicy>, mayNotRequest: set<string>, mayNotReview: set<string>,
    matches: (string, string) -> bool)
  {
    function Of(repo: string): RepoPolicy {
      if repo in repos then repos[repo] else defaults
    }
  }

  /** What the evaluation reads from the stored run, execution and verification payloads. */
  datatype Facts = Facts(labels: seq<string>, commandDecisions: set<string>, changedPaths: seq<string>,
                         verifyAttempts: nat, skippedCommands: nat)

  datatype BlockedReason = TeamMissing | TeamMayNotRequest | TeamNotAllowed | LabelsBlocked

  datatype Evaluation = Evaluation(risk: Risk, approvalRequired: bool, required: nat,
                                   blocked: seq<BlockedReason>, reviewerTeams: seq<string>)

  function LowerChar(c: char): char {
    if 'A' <= c <= 'Z' then (c as int + 32) as char else c
  }

  function Lower(s: string): string {
    if s == "" then "" else [LowerChar(s[0])] + Lower(s[1..])
  }

  function LowercaseStrings(items: seq<string>): set<string> {
    set s | s in items && Strip(s) != "" :: Lower(Strip(s))
  }

  predicate AnyLabel(facts: Facts, names: seq<string>) {
    LowercaseStrings(facts.labels) * LowercaseStrings(names) != {}
  }

  predicate AnyPath(p: Policy, facts: Facts, patterns: seq<string>) {
    exists path | path in facts.changedPaths :: exists pattern | pattern in patterns :: p.matches(path, pattern)
  }

  /** What each rule saw. */
  datatype Signals = Signals(
    criticalLabel: bool, highLabel: bool, criticalPath: bool, highPath: bool, aboveMedium: bool, aboveLow: bool,
    blockedCommand: bool, reviewCommand: bool, retried: bool, skipped: bool)

  function SignalsOf(p: Policy, repo: string, facts: Facts): Signals {
    var r := p.Of(repo);
    Signals(
      AnyLabel(facts, r.criticalLabels), AnyLabel(facts, r.highLabels),
      AnyPath(p, facts, r.criticalPaths), AnyPath(p, facts, r.highPaths),
      |facts.changedPaths| > r.maxMediumFiles, |facts.changedPaths| > r.maxLowFiles,
      "block" in facts.commandDecisions, "review" in facts.commandDecisions,
      facts.verifyAttempts > 1, facts.skippedCommands > 0)
  }

  /** The levels the rules call for, each rule on its own; the two graded rules call for one level. */
  function Findings(g: Signals): set<Risk> {
    (if g.criticalLabel || g.criticalPath then {Critical} else {})
    + (if g.highLabel || g.highPath || g.aboveMedium || g.blockedCommand then {High} else {})
    + (if (g.aboveLow && !g.aboveMedium) || (g.reviewCommand && !g.blockedCommand) || g.retried || g.skipped
       then {Medium} else {})
  }

  predicate IsHighest(risk: Risk, findings: set<Risk>) {
    risk in findings + {Low} && forall f | f in findings :: f.Order() <= risk.Order()
  }

  /** The level of a delivery: the highest any rule calls for, LOW when none does. */
  predicate IsRisk(p: Policy, repo: string, facts: Facts, risk: Risk) {
    IsHighest(risk, Findings(SignalsOf(p, repo, facts)))
  }

  lemma RiskIsUnique(p: Policy, repo: string, facts: Facts, a: Risk, b: Risk)
    requires IsRisk(p, repo, facts, a) && IsRisk(p, repo, facts, b)
    ensures a == b
  {
    assert a.Order() <= b.Order() && b.Order() <= a.Order();
  }

  function RequesterReasons(p: Policy, repo: string, team: string): seq<BlockedReason> {
    var t := Strip(team);
    if t == "" then [TeamMissing]
    else
      var allowed := LowercaseStrings(p.Of(repo).allowedRequesterTeams);
      (if t in p.mayNotRequest then [TeamMayNotRequest] else [])
      + (if allowed != {} && Lower(t) !in allowed then [TeamNotAllowed] else [])
  }

  function BlockedReasons(p: Policy, repo: string, facts: Facts, team: Option<string>): seq<BlockedReason> {
    (if team.Some? then RequesterReasons(p, repo, team.value) else [])
    + (if AnyLabel(facts, p.Of(repo).blockedLabels) then [LabelsBlocked] else [])
  }

  /** The outcome of an evaluation, by what it must satisfy. */
  predicate Evaluates(p: Policy, repo: string, facts: Facts, team: Option<string>, e: Evaluation) {
    && IsRisk(p, repo, facts, e.risk)
    && e.required == p.Of(repo).Required(e.risk)
    && e.blocked == BlockedReasons(p, repo, facts, team)
    && (e.approvalRequired <==> e.required > 0 && e.blocked == [])
    && e.reviewerTeams == p.Of(repo).requiredReviewerTeams
  }

  function Level(g: Signals): Risk {
    if g.criticalLabel || g.criticalPath then Critical
    else if g.highLabel || g.highPath || g.aboveMedium || g.blockedCommand then High
    else if g.aboveLow || g.reviewCommand || g.retried || g.skipped then Medium
    else Low
  }

  lemma LevelIsHighest(g: Signals)
    ensures IsHighest(Level(g), Findings(g))
  {
  }

  /** The rules in the order they are applied, each raising the level reached so far. */
  method RaiseRisk(g: Signals) returns (risk: Risk)
    ensures IsHighest(risk, Findings(g))
  {
    risk := Low;
    if g.criticalLabel {
      risk := MaxRisk(risk, Critical);
    }
    if g.highLabel {
      risk := MaxRisk(risk, High);
    }
    if g.criticalPath {
      risk := MaxRisk(risk, Critical);
    }
    if g.highPath {
      risk := MaxRisk(risk, High);
    }
    risk := RaiseForEffort(g, risk);
    LevelIsHighest(g);
  }

  /** The rules on size, commands and verification, which come after labels and paths. */
  method RaiseForEffort(g: Signals, start: Risk) returns (risk: Risk)
    ensures risk == MaxRisk(start, Level(g.(criticalLabel := false, highLabel := false, criticalPath := false, highPath := false)))
  {
    risk := start;
    if g.aboveMedium {
      risk := MaxRisk(risk, High);
    } else if g.aboveLow {
      risk := MaxRisk(risk, Medium);
    }
    if g.blockedCommand {
      risk := MaxRisk(risk, High);
    } else if g.reviewCommand {
      risk := MaxRisk(risk, Medium);
    }
    if g.retried {
      risk := MaxRisk(risk, Medium);
    }
    if g.skipped {
      risk := MaxRisk(risk, Medium);
    }
  }

  method EvaluateDelivery(p: Policy, repo: string, facts: Facts, team: Option<string>) returns (e: Evaluation)
    ensures Evaluates(p, repo, facts, team, e)
  {
    var r := p.Of(repo);
    var blocked := [];
    if team.Some? {
      blocked := RequesterReasons(p, repo, team.value);
    }
    if AnyLabel(facts, r.blockedLabels) {
      blocked := blocked + [LabelsBlocked];
    }
    var risk := RaiseRisk(SignalsOf(p, repo, facts));
    var required := r.Required(risk);
    e := Evaluation(risk, required > 0 && blocked == [], required, blocked, r.requiredReviewerTeams);
  }

  /** The requester's team decides blocked reasons only: level and number of approvals are the same without it. */
  lemma TeamDoesNotChangeRisk(p: Policy, repo: string, facts: Facts, t1: Option<string>, t2: Option<string>,
                              e1: Evaluation, e2: Evaluation)
    requires Evaluates(p, repo, facts, t1, e1) && Evaluates(p, repo, facts, t2, e2)
    ensures e1.risk == e2.risk && e1.required == e2.required && e1.reviewerTeams == e2.reviewerTeams
    ensures t1.None? && e2.blocked == [] ==> e1 == e2
  {
    RiskIsUnique(p, repo, facts, e1.risk, e2.risk);
  }

  datatype ReviewerError =
    | ReviewerTeamMissing | TeamMayNotReview | TeamNotAllowedToReview | TeamNotRequired
    | ActorNotAssigned | TeamNotAssigned | SelfApproval

  /** The checks on a reviewer, in order; None when all pass. */
  function ReviewerCheck(p: Policy, repo: string, requestedBy: string, actor: string, team: string,
                         requiredTeams: seq<string>, reviewers: seq<string>, assignedTeams: seq<string>)
    : Option<ReviewerError>
  {
    var r, t := p.Of(repo), Strip(team);
    var allowed, required := LowercaseStrings(r.allowedReviewerTeams), LowercaseStrings(requiredTeams);
    var actors, teams := LowercaseStrings(reviewers), LowercaseStrings(assignedTeams);
    if t == "" then Some(ReviewerTeamMissing)
    else if t in p.mayNotReview then Some(TeamMayNotReview)
    else if allowed != {} && Lower(t) !in allowed then Some(TeamNotAllowedToReview)
    else if required != {} && Lower(t) !in required then Some(TeamNotRequired)
    else if actors != {} && Lower(actor) !in actors then Some(ActorNotAssigned)
    else if teams != {} && Lower(t) !in teams then Some(TeamNotAssigned)
    else if !r.allowSelfApproval && actor == requestedBy then Some(SelfApproval)
    else None
  }

  // ---- What the evaluation says, from labels, paths and counts -----------------

  /** Upper-case letters become lower-case ones, in place; everything else stays. */
  lemma {:induction false} LowerIs(s: string)
    ensures |Lower(s)| == |s|
    ensures forall i, k | 0 <= i < |s| && 0 <= k < 26 && s[i] == "ABCDEFGHIJKLMNOPQRSTUVWXYZ"[k] ::
      Lower(s)[i] == "abcdefghijklmnopqrstuvwxyz"[k]
    ensures forall i | 0 <= i < |s| && !('A' <= s[i] <= 'Z') :: Lower(s)[i] == s[i]
  {
    if s != "" {
      LowerIs(s[1..]);
      forall i, k | 0 <= i < |s| && 0 <= k < 26 && s[i] == "ABCDEFGHIJKLMNOPQRSTUVWXYZ"[k]
        ensures Lower(s)[i] == "abcdefghijklmnopqrstuvwxyz"[k]
      {
        LetterPair(k);
        if i > 0 {
          assert s[1..][i - 1] == s[i];
        }
      }
      forall i | 0 <= i < |s| && !('A' <= s[i] <= 'Z') ensures Lower(s)[i] == s[i] {
        if i > 0 {
          assert s[1..][i - 1] == s[i];
        }
      }
    }
  }

  lemma LetterPair(k: nat)
    requires k < 26
    ensures LowerChar("ABCDEFGHIJKLMNOPQRSTUVWXYZ"[k]) == "abcdefghijklmnopqrstuvwxyz"[k]
  {
  }

  /** `a` and `b` are the same non-empty name but for white space around it and the case of its letters. */
  predicate SameName(a: string, b: string) {
    Strip(a) != "" && Strip(b) != "" && Lower(Strip(a)) == Lower(Strip(b))
  }

  ghost predicate Labelled(labels: seq<string>, names: seq<string>) {
    exists mark, name :: mark in labels && name in names && SameName(mark, name)
  }

  ghost predicate Touches(matches: (string, string) -> bool, paths: seq<string>, patterns: seq<string>) {
    exists path, pattern :: path in paths && pattern in patterns && matches(path, pattern)
  }

  lemma LabelledIff(facts: Facts, names: seq<string>)
    ensures AnyLabel(facts, names) <==> Labelled(facts.labels, names)
  {
    var common := LowercaseStrings(facts.labels) * LowercaseStrings(names);
    if AnyLabel(facts, names) {
      var x :| x in common;
      var mark :| mark in facts.labels && Strip(mark) != "" && Lower(Strip(mark)) == x;
      var name :| name in names && Strip(name) != "" && Lower(Strip(name)) == x;
      assert SameName(mark, name);
    }
    if Labelled(facts.labels, names) {
      var mark, name :| mark in facts.labels && name in names && SameName(mark, name);
      assert Lower(Strip(mark)) in common;
    }
  }

  lemma TouchesIff(p: Policy, facts: Facts, patterns: seq<string>)
    ensures AnyPath(p, facts, patterns) <==> Touches(p.matches, facts.changedPaths, patterns)
  {
  }

  /** `r` is the policy a repository is under: its own, or the defaults. */
  predicate Governs(p: Policy, repo: string, r: RepoPolicy) {
    if repo in p.repos then r == p.repos[repo] else r == p.defaults
  }

  ghost predicate IsCritical(p: Policy, r: RepoPolicy, facts: Facts) {
    Labelled(facts.labels, r.criticalLabels) || Touches(p.matches, facts.changedPaths, r.criticalPaths)
  }

  ghost predicate IsHigh(p: Policy, r: RepoPolicy, facts: Facts) {
    || Labelled(facts.labels, r.highLabels) || Touches(p.matches, facts.changedPaths, r.highPaths)
    || |facts.changedPaths| > r.maxMediumFiles || "block" in facts.commandDecisions
  }

  predicate IsMedium(r: RepoPolicy, facts: Facts) {
    || |facts.changedPaths| > r.maxLowFiles || "review" in facts.commandDecisions
    || facts.verifyAttempts > 1 || facts.skippedCommands > 0
  }

  /** A policy whose size thresholds are the wrong way round grades size by the upper one alone. */
  lemma RiskIff(p: Policy, repo: string, r: RepoPolicy, facts: Facts, team: Option<string>, e: Evaluation)
    requires Governs(p, repo, r) && Evaluates(p, repo, facts, team, e)
    ensures e.risk.Critical? <==> IsCritical(p, r, facts)
    ensures e.risk.High? <==> !IsCritical(p, r, facts) && IsHigh(p, r, facts)
    ensures e.risk.Medium? <==> !IsCritical(p, r, facts) && !IsHigh(p, r, facts) && IsMedium(r, facts)
    ensures e.risk.Low? <==> !IsCritical(p, r, facts) && !IsHigh(p, r, facts) && !IsMedium(r, facts)
  {
    LabelledIff(facts, r.criticalLabels);
    LabelledIff(facts, r.highLabels);
    TouchesIff(p, facts, r.criticalPaths);
    TouchesIff(p, facts, r.highPaths);
    var g := SignalsOf(p, repo, facts);
    LevelIsHighest(g);
    assert IsRisk(p, repo, facts, Level(g));
    RiskIsUnique(p, repo, facts, e.risk, Level(g));
  }

  /** The approvals asked for at each level are those the policy names for it. */
  lemma RequiredIs(p: Policy, repo: string, r: RepoPolicy, facts: Facts, team: Option<string>, e: Evaluation)
    requires Governs(p, repo, r) && Evaluates(p, repo, facts, team, e)
    ensures e.risk.Critical? ==> e.required == r.requiredCritical
    ensures e.risk.High? ==> e.required == r.requiredHigh
    ensures e.risk.Medium? ==> e.required == r.requiredMedium
    ensures e.risk.Low? ==> e.required == r.requiredLow
    ensures e.approvalRequired <==> e.required > 0 && e.blocked == []
    ensures e.reviewerTeams == r.requiredReviewerTeams
  {
  }

  /** What blocks a delivery: a requester without a team, with one that may not request, or a blocked label. */
  lemma BlockedIff(p: Policy, repo: string, r: RepoPolicy, facts: Facts, team: Option<string>, e: Evaluation)
    requires Governs(p, repo, r) && Evaluates(p, repo, facts, team, e)
    ensures TeamMissing in e.blocked <==> team.Some? && Strip(team.value) == ""
    ensures TeamMayNotRequest in e.blocked <==> team.Some? && Strip(team.value) != "" && Strip(team.value) in p.mayNotRequest
    ensures TeamNotAllowed in e.blocked <==>
      && team.Some? && Strip(team.value) != ""
      && (exists name :: name in r.allowedRequesterTeams && Strip(name) != "")
      && forall name | name in r.allowedRequesterTeams :: !SameName(name, Strip(team.value))
    ensures LabelsBlocked in e.blocked <==> Labelled(facts.labels, r.blockedLabels)
    ensures e.blocked == [] <==> forall reason :: reason !in e.blocked
  {
    LabelledIff(facts, r.blockedLabels);
    if team.Some? {
      RequesterIff(p, repo, r, team.value);
    }
    assert e.blocked != [] ==> e.blocked[0] in e.blocked;
  }

  lemma RequesterIff(p: Policy, repo: string, r: RepoPolicy, team: string)
    requires Governs(p, repo, r)
    ensures var reasons, t := RequesterReasons(p, repo, team), Strip(team);
      && (TeamMissing in reasons <==> t == "")
      && (TeamMayNotRequest in reasons <==> t != "" && t in p.mayNotRequest)
      && (TeamNotAllowed in reasons <==>
            && t != "" && (exists name :: name in r.allowedRequesterTeams && Strip(name) != "")
            && forall name | name in r.allowedRequesterTeams :: !SameName(name, t))
      && LabelsBlocked !in reasons
  {
    if Strip(team) != "" {
      StripTwice(team);
      MemberIff(r.allowedRequesterTeams, Strip(team));
    }
  }

  /** A name passes a list when the list has no names, or one that is the same. */
  lemma MemberIff(names: seq<string>, name: string)
    requires Strip(name) == name && name != ""
    ensures LowercaseStrings(names) == {} <==> forall n | n in names :: Strip(n) == ""
    ensures Lower(name) in LowercaseStrings(names) <==> exists n :: n in names && SameName(n, name)
  {
    var lowered := LowercaseStrings(names);
    if n :| n in names && Strip(n) != "" {
      assert Lower(Strip(n)) in lowered;
    }
    if n :| n in names && SameName(n, name) {
      assert Lower(Strip(n)) in lowered;
    }
    if Lower(name) in lowered {
      var n :| n in names && Strip(n) != "" && Lower(Strip(n)) == Lower(name);
      assert SameName(n, name);
    }
  }

  lemma StripTwice(s: string)
    ensures Strip(Strip(s)) == Strip(s)
  {
    var i, j := StripIs(s);
    var t := Strip(s);
    var a, b := StripIs(t);
    if t != "" {
      assert t[0] == s[i] && t[|t| - 1] == s[j - 1];
      assert a == 0 && b == |t|;
    }
  }

  /** Reviewers' lists pass a name when they have no names, or one that is the same. */
  ghost predicate ListAdmits(names: seq<string>, name: string) {
    (forall n | n in names :: Strip(n) == "") || (exists n :: n in names && Strip(n) != "" && Lower(Strip(n)) == Lower(name))
  }

  lemma ListAdmitsIff(names: seq<string>, name: string)
    ensures ListAdmits(names, name) <==> LowercaseStrings(names) == {} || Lower(name) in LowercaseStrings(names)
  {
    var lowered := LowercaseStrings(names);
    if n :| n in names && Strip(n) != "" {
      assert Lower(Strip(n)) in lowered;
    }
  }

  /** Who may decide, and which check the others fail first. */
  lemma ReviewerCheckIs(p: Policy, repo: string, r: RepoPolicy, requestedBy: string, actor: string, team: string,
                        requiredTeams: seq<string>, reviewers: seq<string>, assignedTeams: seq<string>)
    requires Governs(p, repo, r)
    ensures var check := ReviewerCheck(p, repo, requestedBy, actor, team, requiredTeams, reviewers, assignedTeams);
      var t := Strip(team);
      var byTeam := t != "" && t !in p.mayNotReview;
      var byPolicy := byTeam && ListAdmits(r.allowedReviewerTeams, t) && ListAdmits(requiredTeams, t);
      var byAssignment := byPolicy && ListAdmits(reviewers, actor) && ListAdmits(assignedTeams, t);
      && (check == Some(ReviewerTeamMissing) <==> t == "")
      && (check == Some(TeamMayNotReview) <==> t != "" && t in p.mayNotReview)
      && (check == Some(TeamNotAllowedToReview) <==> byTeam && !ListAdmits(r.allowedReviewerTeams, t))
      && (check == Some(TeamNotRequired) <==> byTeam && ListAdmits(r.allowedReviewerTeams, t) && !ListAdmits(requiredTeams, t))
      && (check == Some(ActorNotAssigned) <==> byPolicy && !ListAdmits(reviewers, actor))
      && (check == Some(TeamNotAssigned) <==> byPolicy && ListAdmits(reviewers, actor) && !ListAdmits(assignedTeams, t))
      && (check == Some(SelfApproval) <==> byAssignment && !r.allowSelfApproval && actor == requestedBy)
      && (check == None <==> byAssignment && (r.allowSelfApproval || actor != requestedBy))
  {
    var t := Strip(team);
    ListAdmitsIff(r.allowedReviewerTeams, t);
    ListAdmitsIff(requiredTeams, t);
    ListAdmitsIff(reviewers, actor);
    ListAdmitsIff(assignedTeams, t);
  }
}
