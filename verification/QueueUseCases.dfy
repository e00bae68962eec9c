/** The use cases around the queue: enqueue, cancel and resume, and the worker's pass. */
module QueueUseCases {
  import opened Common
  import opened QueueModel
  import opened QueueSafety
  import opened QueueRepository

  class ManageQueue {
    const cfg: Settings
    const repository: RunRepository

    constructor (cfg: Settings, repository: RunRepository)
      ensures this.cfg == cfg && this.repository == repository
    {
      this.cfg, this.repository := cfg, repository;
    }

    /** `permitted` is the tenant access check; `id` is fresh, as a random identifier is taken to be. */
    method Enqueue(req: Request, id: JobId, permitted: bool, now: Time) returns (r: Result<JobId, QueueError>)
      requires repository.Valid() && id !in repository.rows
      modifies repository
      ensures repository.Valid()
      ensures r.Success? <==> permitted && EnqueueCheck(cfg, old(repository.rows), req).None?
      ensures r.Success? ==> r.value == id && Step(cfg, old(repository.State()), EnqueueEvent(now, id, req), repository.State())
      ensures r.Failure? ==>
        && repository.State() == old(repository.State())
        && (if permitted then Some(r.error) == EnqueueCheck(cfg, repository.rows, req) else r.error == Denied)
    {
      if !permitted {
        return Failure(Denied);
      }
      var refusal := EnqueueCheck(cfg, repository.rows, req);
      if refusal.Some? {
        return Failure(refusal.value);
      }
      repository.SaveQueueJob(id, NewRow(cfg, req, now));
      return Success(id);
    }

    method CancelJob(id: JobId, actor: string, permitted: bool, now: Time) returns (r: Result<Status, QueueError>)
      requires repository.Valid()
      modifies repository
      ensures repository.Valid()
      ensures r.Success? <==> id in old(repository.rows) && permitted && CancelCheck(old(repository.rows)[id].job).None?
      ensures r.Success? ==>
        && Step(cfg, old(repository.State()), CancelEvent(now, id, actor), repository.State())
        && r.value == repository.rows[id].job.status
      ensures r.Failure? ==>
        && repository.State() == old(repository.State())
        && r.error == if id !in repository.rows then NotFound else if !permitted then Denied else FinalState
    {
      if id !in repository.rows {
        return Failure(NotFound);
      }
      if !permitted {
        return Failure(Denied);
      }
      var refusal := CancelCheck(repository.rows[id].job);
      if refusal.Some? {
        return Failure(refusal.value);
      }
      var updated := CancelRow(repository.rows[id], actor, now);
      repository.SaveQueueJob(id, updated);
      return Success(updated.job.status);
    }

    method ResumeJob(id: JobId, reset: bool, permitted: bool, now: Time) returns (r: Result<Status, QueueError>)
      requires repository.Valid()
      modifies repository
      ensures repository.Valid()
      ensures r.Success? <==> id in old(repository.rows) && permitted && ResumeCheck(old(repository.rows)[id].job, reset).None?
      ensures r.Success? ==>
        && Step(cfg, old(repository.State()), ResumeEvent(now, id, reset), repository.State())
        && r.value == repository.rows[id].job.status
      ensures r.Failure? ==>
        && repository.State() == old(repository.State())
        && if id !in repository.rows then r.error == NotFound else if !permitted then r.error == Denied
           else Some(r.error) == ResumeCheck(repository.rows[id].job, reset)
    {
      if id !in repository.rows {
        return Failure(NotFound);
      }
      if !permitted {
        return Failure(Denied);
      }
      var refusal := ResumeCheck(repository.rows[id].job, reset);
      if refusal.Some? {
        return Failure(refusal.value);
      }
      var updated := ResumeRow(repository.rows[id], reset, now);
      repository.SaveQueueJob(id, updated);
      return Success(updated.job.status);
    }
  }

  /** How far an attempt got before its dispatch: closed out, refused, or on its way at a price. */
  datatype Start = Closed | Raised(error: string) | Proceed(charge: int)

  /** What another process may do to the queue between two steps of a worker. */
  datatype Act =
    | OtherEnqueue(now: Time, id: JobId, req: Request)
    | OtherCancel(now: Time, id: JobId, actor: string)
    | OtherResume(now: Time, id: JobId, reset: bool)
    | OtherReclaim(now: Time)
    | OtherClaim(now: Time, worker: string, token: Token, types: set<JobType>, tags: seq<string>)
    | OtherStart(now: Time, token: Token)
    | OtherFinish(now: Time, token: Token, charged: bool, dispatch: Result<string, string>)

  datatype Interference = Interference(beforeReclaim: seq<Act>, beforeClaim: seq<Act>, beforeStart: seq<Act>,
                                       beforeFinish: seq<Act>)

  /** One turn of a worker as its surroundings decide it. */
  datatype Turn = Turn(shutdown: bool, claimAt: Time, token: Token, permitted: bool, startAt: Time,
                       dispatch: Result<string, string>, finishAt: Time, others: Interference)
  {
    predicate Alone() {
      others == Interference([], [], [], [])
    }
  }

  datatype WorkerRun = WorkerRun(processed: nat, succeeded: nat, failed: nat, cancelled: nat)

  /** Completions of each kind, under the tokens `own`, among the events of a path. */
  function Tally(es: seq<Event>, own: set<Token>): WorkerRun {
    if es == [] then WorkerRun(0, 0, 0, 0)
    else
      var r, e := Tally(es[..|es| - 1], own), es[|es| - 1];
      if !e.Completes() || e.token !in own then r
      else if e.SucceedEvent? then r.(processed := r.processed + 1, succeeded := r.succeeded + 1)
      else if e.FailEvent? then r.(processed := r.processed + 1, failed := r.failed + 1)
      else r.(processed := r.processed + 1, cancelled := r.cancelled + 1)
  }

  /** The counters after one more job. */
  function Counting(r: WorkerRun, status: Option<Status>): WorkerRun {
    match status
    case None => r
    case Some(Succeeded) => r.(processed := r.processed + 1, succeeded := r.succeeded + 1)
    case Some(Cancelled) => r.(processed := r.processed + 1, cancelled := r.cancelled + 1)
    case Some(_) => r.(processed := r.processed + 1, failed := r.failed + 1)
  }

  /** `e` is what `act` comes to in state `s`; None when it cannot be done. */
  ghost predicate Enacts(cfg: Settings, own: set<Token>, act: Act, s: System, e: Option<Event>) {
    match act
    case OtherEnqueue(now, id, req) =>
      e == if id !in s.rows && EnqueueCheck(cfg, s.rows, req).None? then Some(EnqueueEvent(now, id, req)) else None
    case OtherCancel(now, id, actor) =>
      e == if id in s.rows && CancelCheck(s.rows[id].job).None? then Some(CancelEvent(now, id, actor)) else None
    case OtherResume(now, id, reset) =>
      e == if id in s.rows && ResumeCheck(s.rows[id].job, reset).None? then Some(ResumeEvent(now, id, reset)) else None
    case OtherReclaim(now) =>
      e == Some(ReclaimEvent(now))
    case OtherClaim(now, worker, token, types, tags) =>
      if token in own || token in s.granted then e.None?
      else e.Some? && exists choice :: e.value == ClaimEvent(now, worker, token, types, CleanTags(tags), choice)
    case OtherStart(now, token) =>
      if token in own || !Flagged(s, token) then e.None?
      else e == Some(FinalizeEvent(now, token, "cancelled before execution"))
    case OtherFinish(now, token, charged, dispatch) =>
      if token in own || token !in s.granted then e.None?
      else
        var g := s.granted[token];
        var pays := charged && WithinBudget(cfg, g.row);
        match dispatch
        case Success(summary) => e == if pays then Some(SucceedEvent(now, token, summary)) else None
        case Failure(error) =>
          e == Some(if Flagged(s, token) then FinalizeEvent(now, token, "cancelled after failure: " + error)
                    else FailEvent(now, token, if pays then AttemptCost(cfg, g.row) else 0, error))
  }

  /** The row of a grant has its cancel flag set. */
  predicate Flagged(s: System, token: Token) {
    token in s.granted && s.granted[token].id in s.rows && s.rows[s.granted[token].id].job.cancelRequested
  }

  /** The event an attempt ends with, written in state `s`. */
  predicate Ends(s: System, e: Event, token: Token, charge: int, dispatch: Result<string, string>, now: Time) {
    match dispatch
    case Success(summary) => e == SucceedEvent(now, token, summary)
    case Failure(error) =>
      e == if Flagged(s, token) then FinalizeEvent(now, token, "cancelled after failure: " + error)
           else FailEvent(now, token, charge, error)
  }

  /** What an attempt comes to once it is not closed out: refused for nothing, or dispatched at its price. */
  function ChargeOf(cfg: Settings, g: Grant, turn: Turn): int {
    if turn.permitted && WithinBudget(cfg, g.row) then AttemptCost(cfg, g.row) else 0
  }

  function ResultOf(cfg: Settings, g: Grant, turn: Turn): Result<string, string> {
    if !turn.permitted then Failure("permission denied")
    else if !WithinBudget(cfg, g.row) then Failure("budget would be exceeded")
    else turn.dispatch
  }

  /** An attempt at what `g` gives ends in state `s` with `e`: closed out at its start, or with its result at its charge. */
  predicate Attempted(cfg: Settings, s: System, e: Event, g: Grant, turn: Turn) {
    || (turn.permitted && e == FinalizeEvent(turn.startAt, turn.token, "cancelled before execution"))
    || Ends(s, e, turn.token, ChargeOf(cfg, g, turn), ResultOf(cfg, g, turn), turn.finishAt)
  }

  /** The path goes on by one event per act that could be done, in order. */
  ghost predicate Enacted(cfg: Settings, own: set<Token>, acts: seq<Act>, ss0: seq<System>, es0: seq<Event>,
                          ss: seq<System>, es: seq<Event>)
    requires |ss0| == |es0| + 1
    decreases acts
  {
    if acts == [] then ss == ss0 && es == es0
    else
      exists ss1, es1, e, t :: LastAct(cfg, own, acts, ss0, es0, ss1, es1, e, t, ss, es)
  }

  ghost predicate LastAct(cfg: Settings, own: set<Token>, acts: seq<Act>, ss0: seq<System>, es0: seq<Event>,
                          ss1: seq<System>, es1: seq<Event>, e: Option<Event>, t: System, ss: seq<System>, es: seq<Event>)
    requires |ss0| == |es0| + 1 && acts != []
    decreases acts, 0
  {
    && |ss1| == |es1| + 1 && Enacted(cfg, own, acts[..|acts| - 1], ss0, es0, ss1, es1)
    && Enacts(cfg, own, acts[|acts| - 1], ss1[|es1|], e)
    && (if e.Some? then ss == ss1 + [t] && es == es1 + [e.value] else ss == ss1 && es == es1)
  }

  /** All but the last event of the path are what `acts` came to. */
  ghost predicate LastAfter(cfg: Settings, own: set<Token>, acts: seq<Act>, ss0: seq<System>, es0: seq<Event>,
                            ss: seq<System>, es: seq<Event>)
    requires |ss0| == |es0| + 1
  {
    es != [] && |ss| == |es| + 1 && Enacted(cfg, own, acts, ss0, es0, ss[..|es|], es[..|es| - 1])
  }

  lemma EnactedThen(cfg: Settings, own: set<Token>, acts: seq<Act>, ss0: seq<System>, es0: seq<Event>,
                    ss: seq<System>, es: seq<Event>, e: Event, t: System)
    requires |ss0| == |es0| + 1 && |ss| == |es| + 1 && Enacted(cfg, own, acts, ss0, es0, ss, es)
    ensures LastAfter(cfg, own, acts, ss0, es0, ss + [t], es + [e])
  {
    assert (ss + [t])[..|es + [e]|] == ss && (es + [e])[..|es|] == es;
  }

  lemma PathSnoc(cfg: Settings, ss: seq<System>, es: seq<Event>, e: Event, t: System, own: set<Token>)
    requires Path(cfg, ss, es) && Step(cfg, ss[|es|], e, t)
    ensures Path(cfg, ss + [t], es + [e])
    ensures FencedPath(ss, es) && Fenced(ss[|es|], e) ==> FencedPath(ss + [t], es + [e])
    ensures ss <= ss + [t] && es < es + [e] && (es + [e])[|es|] == e && (ss + [t])[|es|] == ss[|es|]
    ensures Tally(es + [e], own) == Counting(Tally(es, own), Outcome(e, own))
  {
    assert (es + [e])[..|es|] == es;
    forall i: nat | i <= |es| ensures StepAt(cfg, ss + [t], es + [e], i) {
      assert i < |es| ==> StepAt(cfg, ss, es, i);
    }
  }

  /** How a completion under one of the tokens `own` counts. */
  function Outcome(e: Event, own: set<Token>): Option<Status> {
    if !e.Completes() || e.token !in own then None
    else if e.SucceedEvent? then Some(Succeeded)
    else if e.FailEvent? then Some(Failed)
    else Some(Cancelled)
  }

  /** Nobody takes a lease back, and of the tokens `own` only `claimed` may have been used. */
  predicate Grown(before: map<Token, Grant>, after: map<Token, Grant>, own: set<Token>, claimed: set<Token>) {
    && (forall token | token in before :: token in after && after[token] == before[token])
    && (forall token | token in own && token in after :: token in before || token in claimed)
  }

  /** The turns of a script have tokens of their own that nobody has used. */
  predicate Unused(script: seq<Turn>, from: nat, granted: map<Token, Grant>) {
    && (forall i, j | 0 <= i < j < |script| :: script[i].token != script[j].token)
    && forall i | from <= i < |script| :: script[i].token !in granted
  }

  function OwnTokens(script: seq<Turn>): set<Token> {
    set turn | turn in script :: turn.token
  }

  lemma UnusedNext(script: seq<Turn>, i: nat, before: map<Token, Grant>, after: map<Token, Grant>)
    requires i < |script| && Unused(script, i, before) && Grown(before, after, OwnTokens(script), {script[i].token})
    ensures Unused(script, i + 1, after)
  {
    forall k | i < k < |script| ensures script[k].token !in after {
      assert script[k] in script && script[k].token != script[i].token;
    }
  }

  predicate AllAlone(script: seq<Turn>) {
    forall i | 0 <= i < |script| :: script[i].Alone()
  }

  predicate SumsUp(r: WorkerRun) {
    r.processed == r.succeeded + r.failed + r.cancelled
  }

  /** Why a pass stops before it has made all its turns: it was told to, or its last claim found nothing. */
  predicate StopsFor(turn: Turn, worker: string, types: set<JobType>, tags: seq<string>, es: seq<Event>) {
    turn.shutdown
    || (es != [] && es[|es| - 1] == ClaimEvent(turn.claimAt, worker, turn.token, types, CleanTags(tags), None))
  }

  class ProcessQueue {
    const cfg: Settings
    const repository: RunRepository

    constructor (cfg: Settings, repository: RunRepository)
      ensures this.cfg == cfg && this.repository == repository
    {
      this.cfg, this.repository := cfg, repository;
    }

    /** From the permission check to the dispatch; other workers may have changed the row since the claim. */
    method BeginJob(token: Token, g: Grant, permitted: bool, now: Time) returns (start: Start)
      requires repository.Valid() && token in repository.granted && repository.granted[token] == g
      modifies repository
      ensures repository.Valid() && repository.granted == old(repository.granted)
      ensures start.Closed? <==> permitted && old(repository.rows)[g.id].job.cancelRequested
      ensures start.Closed? ==>
        Step(cfg, old(repository.State()), FinalizeEvent(now, token, "cancelled before execution"), repository.State())
      ensures !start.Closed? ==> repository.rows == old(repository.rows)
      ensures start.Proceed? ==> permitted && WithinBudget(cfg, g.row) && start.charge == AttemptCost(cfg, g.row)
      ensures start.Raised? ==> start.error == if permitted then "budget would be exceeded" else "permission denied"
      ensures start.Raised? <==> !permitted || (!old(repository.rows)[g.id].job.cancelRequested && !WithinBudget(cfg, g.row))
    {
      if !permitted {
        return Raised("permission denied");
      }
      var latest := repository.rows[g.id];
      if latest.job.cancelRequested {
        repository.SaveQueueJob(g.id, FinalizeRow(latest, g.worker, "cancelled before execution", now));
        return Closed;
      }
      var cost := AttemptCost(cfg, g.row);
      if g.row.job.budgetUsed + cost > g.row.job.budgetUnits {
        return Raised("budget would be exceeded");
      }
      return Proceed(cost);
    }

    /** The final write of an attempt; after an error the row is read again first. */
    method FinishJob(token: Token, g: Grant, charge: int, dispatch: Result<string, string>, now: Time)
      returns (status: Status, ghost e: Event)
      requires repository.Valid() && token in repository.granted && repository.granted[token] == g
      requires (charge == AttemptCost(cfg, g.row) && WithinBudget(cfg, g.row)) || (charge == 0 && dispatch.Failure?)
      modifies repository
      ensures repository.Valid() && repository.granted == old(repository.granted)
      ensures e == if dispatch.Success? then SucceedEvent(now, token, dispatch.value)
                   else if old(repository.rows)[g.id].job.cancelRequested
                   then FinalizeEvent(now, token, "cancelled after failure: " + dispatch.error)
                   else FailEvent(now, token, charge, dispatch.error)
      ensures Step(cfg, old(repository.State()), e, repository.State())
      ensures status == repository.rows[g.id].job.status
      ensures status.Succeeded? <==> dispatch.Success?
      ensures status.Cancelled? <==> dispatch.Failure? && old(repository.rows)[g.id].job.cancelRequested
    {
      if dispatch.Success? {
        e := SucceedEvent(now, token, dispatch.value);
        repository.SaveQueueJob(g.id, SucceedRow(cfg, g.row, g.worker, dispatch.value, now));
      } else {
        var latest := repository.rows[g.id];
        if latest.job.cancelRequested {
          e := FinalizeEvent(now, token, "cancelled after failure: " + dispatch.error);
          repository.SaveQueueJob(g.id, FinalizeRow(latest, g.worker, "cancelled after failure: " + dispatch.error, now));
        } else {
          e := FailEvent(now, token, charge, dispatch.error);
          repository.SaveQueueJob(g.id, FailRow(cfg, g.row, latest, g.worker, charge, dispatch.error, now));
        }
      }
      status := repository.rows[g.id].job.status;
    }

    /** One act of another process, with any token but those in `own`; what cannot be done is not. */
    method Other(act: Act, own: set<Token>) returns (ghost e: Option<Event>)
      requires repository.Valid()
      modifies repository
      ensures repository.Valid() && Grown(old(repository.granted), repository.granted, own, {})
      ensures Enacts(cfg, own, act, old(repository.State()), e)
      ensures e.None? ==> repository.State() == old(repository.State())
      ensures e.Some? ==>
        && Step(cfg, old(repository.State()), e.value, repository.State())
        && (e.value.Completes() ==> e.value.token !in own)
    {
      e := None;
      match act {
        case OtherReclaim(now) =>
          var _ := repository.RequeueExpired(now);
          e := Some(ReclaimEvent(now));
        case OtherClaim(now, worker, token, types, tags) =>
          if token !in own && token !in repository.granted {
            var claim := repository.ClaimNext(cfg, now, worker, token, types, tags);
            e := Some(ClaimEvent(now, worker, token, types, CleanTags(tags),
                                 if claim.Some? then Some(claim.value.id) else None));
          }
        case OtherStart(now, token) =>
          if token !in own && token in repository.granted {
            var start := BeginJob(token, repository.granted[token], true, now);
            e := if start.Closed? then Some(FinalizeEvent(now, token, "cancelled before execution")) else None;
          }
        case OtherFinish(now, token, charged, dispatch) =>
          e := OtherReport(now, token, charged, dispatch, own);
        case _ =>
          e := OtherManages(act, own);
      }
    }

    method OtherReport(now: Time, token: Token, charged: bool, dispatch: Result<string, string>, own: set<Token>)
      returns (ghost e: Option<Event>)
      requires repository.Valid()
      modifies repository
      ensures repository.Valid() && repository.granted == old(repository.granted)
      ensures Enacts(cfg, own, OtherFinish(now, token, charged, dispatch), old(repository.State()), e)
      ensures e.None? ==> repository.State() == old(repository.State())
      ensures e.Some? ==>
        && Step(cfg, old(repository.State()), e.value, repository.State())
        && e.value.Completes() && e.value.token !in own
    {
      if token in own || token !in repository.granted {
        return None;
      }
      var g := repository.granted[token];
      if charged && WithinBudget(cfg, g.row) {
        var _, event := FinishJob(token, g, AttemptCost(cfg, g.row), dispatch, now);
        e := Some(event);
      } else if dispatch.Failure? {
        var _, event := FinishJob(token, g, 0, dispatch, now);
        e := Some(event);
      } else {
        e := None;
      }
    }

    method OtherManages(act: Act, own: set<Token>) returns (ghost e: Option<Event>)
      requires repository.Valid() && (act.OtherEnqueue? || act.OtherCancel? || act.OtherResume?)
      modifies repository
      ensures repository.Valid() && repository.granted == old(repository.granted)
      ensures Enacts(cfg, own, act, old(repository.State()), e)
      ensures e.None? ==> repository.State() == old(repository.State())
      ensures e.Some? ==> Step(cfg, old(repository.State()), e.value, repository.State()) && !e.value.Completes()
    {
      var manage := new ManageQueue(cfg, repository);
      e := None;
      match act {
        case OtherEnqueue(now, id, req) =>
          if id !in repository.rows {
            var r := manage.Enqueue(req, id, true, now);
            e := if r.Success? then Some(EnqueueEvent(now, id, req)) else None;
          }
        case OtherCancel(now, id, actor) =>
          var r := manage.CancelJob(id, actor, true, now);
          e := if r.Success? then Some(CancelEvent(now, id, actor)) else None;
        case OtherResume(now, id, reset) =>
          var r := manage.ResumeJob(id, reset, true, now);
          e := if r.Success? then Some(ResumeEvent(now, id, reset)) else None;
      }
    }

    /** `ss` and `es` are a path of the protocol that ends in the present state. */
    ghost predicate Trail(ss: seq<System>, es: seq<Event>)
      reads repository
    {
      Path(cfg, ss, es) && ss[|es|] == repository.State()
    }

    /** The acts of other processes at one point of a turn. */
    method Others(acts: seq<Act>, own: set<Token>, ghost ss0: seq<System>, ghost es0: seq<Event>)
      returns (ghost ss: seq<System>, ghost es: seq<Event>)
      requires repository.Valid() && Trail(ss0, es0)
      modifies repository
      ensures repository.Valid() && Trail(ss, es) && ss0 <= ss && es0 <= es
      ensures Tally(es, own) == Tally(es0, own) && Grown(old(repository.granted), repository.granted, own, {})
      ensures Enacted(cfg, own, acts, ss0, es0, ss, es)
    {
      ss, es := ss0, es0;
      for i := 0 to |acts|
        invariant repository.Valid() && Trail(ss, es) && ss0 <= ss && es0 <= es
        invariant Tally(es, own) == Tally(es0, own) && Grown(old(repository.granted), repository.granted, own, {})
        invariant Enacted(cfg, own, acts[..i], ss0, es0, ss, es)
      {
        ghost var ss1, es1 := ss, es;
        var e := Other(acts[i], own);
        if e.Some? {
          PathSnoc(cfg, ss, es, e.value, repository.State(), own);
          ss, es := ss + [repository.State()], es + [e.value];
        }
        assert acts[..i + 1][..i] == acts[..i];
        assert LastAct(cfg, own, acts[..i + 1], ss0, es0, ss1, es1, e, repository.State(), ss, es);
      }
      assert acts[..|acts|] == acts;
    }

    /** From the permission check to the dispatch, after whatever others did since the claim. */
    method StartTurn(token: Token, g: Grant, turn: Turn, own: set<Token>, ghost ss0: seq<System>, ghost es0: seq<Event>)
      returns (start: Start, ghost ss: seq<System>, ghost es: seq<Event>)
      requires repository.Valid() && token in repository.granted && repository.granted[token] == g && token in own
      requires Trail(ss0, es0)
      modifies repository
      ensures repository.Valid() && Trail(ss, es) && ss0 <= ss && es0 <= es
      ensures Grown(old(repository.granted), repository.granted, own, {})
      ensures Tally(es, own) == Counting(Tally(es0, own), if start.Closed? then Some(Cancelled) else None)
      ensures if start.Closed? then LastAfter(cfg, own, turn.others.beforeStart, ss0, es0, ss, es)
              else Enacted(cfg, own, turn.others.beforeStart, ss0, es0, ss, es)
      ensures start.Closed? ==>
        && turn.permitted && es0 < es
        && es[|es| - 1] == FinalizeEvent(turn.startAt, token, "cancelled before execution")
      ensures start.Proceed? ==> turn.permitted && WithinBudget(cfg, g.row) && start.charge == AttemptCost(cfg, g.row)
      ensures start.Raised? ==>
        if turn.permitted then !WithinBudget(cfg, g.row) && start.error == "budget would be exceeded"
        else start.error == "permission denied"
      ensures turn.Alone() ==> (start.Closed? <==> turn.permitted && Flagged(old(repository.State()), token))
      ensures turn.Alone() ==> if start.Closed? then |es| == |es0| + 1 else ss == ss0 && es == es0
      ensures turn.Alone() && FencedPath(ss0, es0) && old(repository.rows)[g.id].job.leaseToken == Some(token)
        ==> FencedPath(ss, es)
    {
      ss, es := Others(turn.others.beforeStart, own, ss0, es0);
      start := BeginJob(token, g, turn.permitted, turn.startAt);
      if start.Closed? {
        ghost var e := FinalizeEvent(turn.startAt, token, "cancelled before execution");
        EnactedThen(cfg, own, turn.others.beforeStart, ss0, es0, ss, es, e, repository.State());
        PathSnoc(cfg, ss, es, e, repository.State(), own);
        ss, es := ss + [repository.State()], es + [e];
      }
    }

    /** The dispatch, with others at work beside it, and the final write. */
    method FinishTurn(token: Token, g: Grant, charge: int, dispatch: Result<string, string>, turn: Turn, own: set<Token>,
                      ghost ss0: seq<System>, ghost es0: seq<Event>)
      returns (status: Status, ghost ss: seq<System>, ghost es: seq<Event>)
      requires repository.Valid() && token in repository.granted && repository.granted[token] == g && token in own
      requires (charge == AttemptCost(cfg, g.row) && WithinBudget(cfg, g.row)) || (charge == 0 && dispatch.Failure?)
      requires Trail(ss0, es0)
      modifies repository
      ensures repository.Valid() && Trail(ss, es) && ss0 <= ss && es0 < es
      ensures Grown(old(repository.granted), repository.granted, own, {})
      ensures LastAfter(cfg, own, turn.others.beforeFinish, ss0, es0, ss, es)
      ensures Ends(ss[|es| - 1], es[|es| - 1], token, charge, dispatch, turn.finishAt)
      ensures Tally(es, own) == Counting(Tally(es0, own), Some(status))
      ensures status.Succeeded? <==> es[|es| - 1].SucceedEvent?
      ensures status.Cancelled? <==> es[|es| - 1].FinalizeEvent?
      ensures turn.Alone() ==> |es| == |es0| + 1
      ensures turn.Alone() && FencedPath(ss0, es0) && old(repository.rows)[g.id].job.leaseToken == Some(token)
        ==> FencedPath(ss, es)
    {
      ss, es := Others(turn.others.beforeFinish, own, ss0, es0);
      ghost var e;
      status, e := FinishJob(token, g, charge, dispatch, turn.finishAt);
      EnactedThen(cfg, own, turn.others.beforeFinish, ss0, es0, ss, es, e, repository.State());
      PathSnoc(cfg, ss, es, e, repository.State(), own);
      ss, es := ss + [repository.State()], es + [e];
    }

    /**
     An attempt, from its permission check to its final write, with other processes at work
     before its start and during its dispatch. Whatever they do, its last step completes its lease.
     */
    method ProcessJob(g: Grant, turn: Turn, own: set<Token>, ghost ss0: seq<System>, ghost es0: seq<Event>)
      returns (status: Status, ghost ss: seq<System>, ghost es: seq<Event>)
      requires repository.Valid() && turn.token in repository.granted && repository.granted[turn.token] == g && turn.token in own
      requires Trail(ss0, es0)
      modifies repository
      ensures repository.Valid() && Trail(ss, es) && ss0 <= ss && es0 < es
      ensures Grown(old(repository.granted), repository.granted, own, {})
      ensures Attempted(cfg, ss[|es| - 1], es[|es| - 1], g, turn)
      ensures turn.Alone() && turn.permitted ==>
        (Flagged(old(repository.State()), turn.token)
         <==> es[|es| - 1] == FinalizeEvent(turn.startAt, turn.token, "cancelled before execution"))
      ensures Tally(es, own) == Counting(Tally(es0, own), Some(status))
      ensures status.Succeeded? <==> es[|es| - 1].SucceedEvent?
      ensures status.Cancelled? <==> es[|es| - 1].FinalizeEvent?
      ensures turn.Alone() ==> |es| == |es0| + 1
      ensures turn.Alone() && FencedPath(ss0, es0) && old(repository.rows)[g.id].job.leaseToken == Some(turn.token)
        ==> FencedPath(ss, es)
    {
      var start;
      start, ss, es := StartTurn(turn.token, g, turn, own, ss0, es0);
      if start.Closed? {
        status := Cancelled;
      } else {
        var charge := if start.Proceed? then start.charge else 0;
        var dispatch := if start.Proceed? then turn.dispatch else Failure(start.error);
        status, ss, es := FinishTurn(turn.token, g, charge, dispatch, turn, own, ss, es);
      }
    }

    /** The reclaim pass before a claim. */
    method ReclaimTurn(turn: Turn, own: set<Token>, ghost ss0: seq<System>, ghost es0: seq<Event>)
      returns (ghost ss: seq<System>, ghost es: seq<Event>)
      requires repository.Valid() && Trail(ss0, es0)
      modifies repository
      ensures repository.Valid() && Trail(ss, es) && ss0 <= ss && es0 < es && Tally(es, own) == Tally(es0, own)
      ensures LastAfter(cfg, own, turn.others.beforeReclaim, ss0, es0, ss, es)
      ensures es[|es| - 1] == ReclaimEvent(turn.claimAt) && (turn.Alone() ==> |es| == |es0| + 1)
      ensures Grown(old(repository.granted), repository.granted, own, {})
      ensures turn.Alone() && FencedPath(ss0, es0) ==> FencedPath(ss, es)
    {
      ss, es := Others(turn.others.beforeReclaim, own, ss0, es0);
      var _ := repository.RequeueExpired(turn.claimAt);
      EnactedThen(cfg, own, turn.others.beforeReclaim, ss0, es0, ss, es, ReclaimEvent(turn.claimAt), repository.State());
      PathSnoc(cfg, ss, es, ReclaimEvent(turn.claimAt), repository.State(), own);
      ss, es := ss + [repository.State()], es + [ReclaimEvent(turn.claimAt)];
    }

    /** The claim after the reclaim pass. */
    method GrantTurn(worker: string, types: set<JobType>, tags: seq<string>, turn: Turn, own: set<Token>,
                     ghost ss0: seq<System>, ghost es0: seq<Event>)
      returns (claim: Option<Grant>, ghost ss: seq<System>, ghost es: seq<Event>)
      requires repository.Valid() && turn.token in own && turn.token !in repository.granted && Trail(ss0, es0)
      modifies repository
      ensures repository.Valid() && Trail(ss, es) && ss0 <= ss && es0 < es && Tally(es, own) == Tally(es0, own)
      ensures LastAfter(cfg, own, turn.others.beforeClaim, ss0, es0, ss, es)
      ensures es[|es| - 1] == ClaimEvent(turn.claimAt, worker, turn.token, types, CleanTags(tags),
                                         if claim.Some? then Some(claim.value.id) else None)
      ensures turn.Alone() ==> |es| == |es0| + 1
      ensures Grown(old(repository.granted), repository.granted, own, {turn.token})
      ensures turn.Alone() && FencedPath(ss0, es0) ==> FencedPath(ss, es)
      ensures claim.Some? ==>
        && claim.value.worker == worker
        && turn.token in repository.granted && repository.granted[turn.token] == claim.value
        && claim.value.id in repository.rows && repository.rows[claim.value.id].job.leaseToken == Some(turn.token)
    {
      ss, es := Others(turn.others.beforeClaim, own, ss0, es0);
      claim := repository.ClaimNext(cfg, turn.claimAt, worker, turn.token, types, tags);
      ghost var c := ClaimEvent(turn.claimAt, worker, turn.token, types, CleanTags(tags),
                                if claim.Some? then Some(claim.value.id) else None);
      EnactedThen(cfg, own, turn.others.beforeClaim, ss0, es0, ss, es, c, repository.State());
      PathSnoc(cfg, ss, es, c, repository.State(), own);
      ss, es := ss + [repository.State()], es + [c];
    }

    /** A reclaim pass and a claim, two transactions that others may come between. */
    method ClaimTurn(worker: string, types: set<JobType>, tags: seq<string>, turn: Turn, own: set<Token>,
                     ghost ss0: seq<System>, ghost es0: seq<Event>)
      returns (claim: Option<Grant>, ghost ss1: seq<System>, ghost es1: seq<Event>, ghost ss: seq<System>, ghost es: seq<Event>)
      requires repository.Valid() && turn.token in own && turn.token !in repository.granted && Trail(ss0, es0)
      modifies repository
      ensures repository.Valid() && Trail(ss, es) && ss0 <= ss && es0 < es1 < es && Tally(es, own) == Tally(es0, own)
      ensures |ss1| == |es1| + 1 && es1[|es1| - 1] == ReclaimEvent(turn.claimAt)
      ensures LastAfter(cfg, own, turn.others.beforeReclaim, ss0, es0, ss1, es1)
      ensures LastAfter(cfg, own, turn.others.beforeClaim, ss1, es1, ss, es)
      ensures es[|es| - 1] == ClaimEvent(turn.claimAt, worker, turn.token, types, CleanTags(tags),
                                         if claim.Some? then Some(claim.value.id) else None)
      ensures turn.Alone() ==> |es| == |es0| + 2
      ensures Grown(old(repository.granted), repository.granted, own, {turn.token})
      ensures turn.Alone() && FencedPath(ss0, es0) ==> FencedPath(ss, es)
      ensures claim.Some? ==>
        && claim.value.worker == worker
        && turn.token in repository.granted && repository.granted[turn.token] == claim.value
        && claim.value.id in repository.rows && repository.rows[claim.value.id].job.leaseToken == Some(turn.token)
    {
      ss1, es1 := ReclaimTurn(turn, own, ss0, es0);
      claim, ss, es := GrantTurn(worker, types, tags, turn, own, ss1, es1);
    }

    /** One turn of the worker's loop; None when there was nothing to claim. */
    method TakeTurn(worker: string, types: set<JobType>, tags: seq<string>, turn: Turn, own: set<Token>,
                    ghost ss0: seq<System>, ghost es0: seq<Event>)
      returns (status: Option<Status>, ghost ss: seq<System>, ghost es: seq<Event>)
      requires repository.Valid() && turn.token in own && turn.token !in repository.granted && Trail(ss0, es0)
      modifies repository
      ensures repository.Valid() && Trail(ss, es) && ss0 <= ss && es0 <= es
      ensures Grown(old(repository.granted), repository.granted, own, {turn.token})
      ensures Tally(es, own) == Counting(Tally(es0, own), status)
      ensures status.None? ==>
        es0 < es && es[|es| - 1] == ClaimEvent(turn.claimAt, worker, turn.token, types, CleanTags(tags), None)
      ensures status.Some? ==>
        && es0 < es && turn.token in repository.granted && repository.granted[turn.token].worker == worker
        && Attempted(cfg, ss[|es| - 1], es[|es| - 1], repository.granted[turn.token], turn)
      ensures turn.Alone() ==> |es| == |es0| + if status.None? then 2 else 3
      ensures turn.Alone() && FencedPath(ss0, es0) ==> FencedPath(ss, es)
    {
      var claim;
      ghost var ss1, es1;
      claim, ss1, es1, ss, es := ClaimTurn(worker, types, tags, turn, own, ss0, es0);
      if claim.None? {
        return None, ss, es;
      }
      var done;
      done, ss, es := ProcessJob(claim.value, turn, own, ss, es);
      return Some(done), ss, es;
    }

    /** What the loop of a pass keeps from one turn. */
    method NextTurn(worker: string, types: set<JobType>, tags: seq<string>, script: seq<Turn>, i: nat,
                    ghost ss0: seq<System>, ghost es0: seq<Event>)
      returns (status: Option<Status>, ghost ss: seq<System>, ghost es: seq<Event>)
      requires repository.Valid() && i < |script| && Unused(script, i, repository.granted) && Trail(ss0, es0)
      modifies repository
      ensures repository.Valid() && Trail(ss, es) && ss[0] == ss0[0] && Unused(script, i + 1, repository.granted)
      ensures Tally(es, OwnTokens(script)) == Counting(Tally(es0, OwnTokens(script)), status)
      ensures status.None? ==> StopsFor(script[i], worker, types, tags, es)
      ensures AllAlone(script) && FencedPath(ss0, es0) ==> FencedPath(ss, es)
    {
      var turn := script[i];
      assert turn in script;
      ghost var granted := repository.granted;
      status, ss, es := TakeTurn(worker, types, tags, turn, OwnTokens(script), ss0, es0);
      UnusedNext(script, i, granted, repository.granted);
    }

    /**
     A worker's pass among any number of other processes: it is a path of the protocol, and
     the counters it reports are the completions under its own tokens on that path. With
     nothing beside it the path is fenced.
     */
    method Process(worker: string, maxJobs: int, types: set<JobType>, tags: seq<string>, script: seq<Turn>)
      returns (result: WorkerRun, ghost own: set<Token>, ghost ss: seq<System>, ghost es: seq<Event>)
      requires repository.Valid() && maxJobs <= |script|
      requires Unused(script, 0, repository.granted)
      modifies repository
      ensures repository.Valid() && Trail(ss, es) && ss[0] == old(repository.State())
      ensures own == OwnTokens(script) && result == Tally(es, own) && SumsUp(result)
      ensures result.processed <= if maxJobs > 0 then maxJobs else 0
      ensures forall i | 0 <= i < result.processed :: !script[i].shutdown
      ensures result.processed < maxJobs ==> StopsFor(script[result.processed], worker, types, tags, es)
      ensures AllAlone(script) ==> FencedPath(ss, es)
    {
      own, ss, es := OwnTokens(script), [repository.State()], [];
      result := WorkerRun(0, 0, 0, 0);
      var i := 0;
      while i < maxJobs && !script[i].shutdown
        invariant 0 <= i && (i <= maxJobs || i == 0)
        invariant repository.Valid() && Trail(ss, es) && ss[0] == old(repository.State())
        invariant Unused(script, i, repository.granted)
        invariant result == Tally(es, own) && result.processed == i && SumsUp(result)
        invariant forall k | 0 <= k < i :: !script[k].shutdown
        invariant AllAlone(script) ==> FencedPath(ss, es)
      {
        var status;
        status, ss, es := NextTurn(worker, types, tags, script, i, ss, es);
        if status.None? {
          break;
        }
        result := Counting(result, status);
        i := i + 1;
      }
    }
  }
}
