/**
 The life of one row. A fenced run of the whole queue projects onto a sequence of
 moves of each row, and the properties of a job's life are proved about those.
 */
module QueueHistory {
  import opened Common
  import opened QueueModel
  import opened QueueSafety

  datatype Move =
    | Rest
    | Reclaim(now: Time)
    | Claim(now: Time, worker: string, token: Token)
    | Succeed(now: Time, worker: string, summary: string)
    | Fail(now: Time, worker: string, charge: int, error: string)
    | Finalize(now: Time, worker: string, summary: string)
    | Cancel(now: Time, actor: string)
    | Resume(now: Time, reset: bool)

  predicate CanMove(cfg: Settings, r: Row, m: Move) {
    match m
    case Rest => true
    case Reclaim(now) => Expired(r.job, now)
    case Claim(now, _, _) => Matches(r.job, now, {})
    case Succeed(_, _, _) => r.job.status.Running? && WithinBudget(cfg, r)
    case Fail(_, _, charge, _) =>
      && r.job.status.Running? && !r.job.cancelRequested
      && (charge == 0 || (charge == AttemptCost(cfg, r) && WithinBudget(cfg, r)))
    case Finalize(_, _, _) => r.job.status.Running? && r.job.cancelRequested
    case Cancel(_, _) => CancelCheck(r.job).None?
    case Resume(_, reset) => ResumeCheck(r.job, reset).None?
  }

  function Uncancelled(r: Row): Row {
    Row(r.job.(cancelRequested := false), r.payload.(cancelRequested := false))
  }

  function MoveRow(cfg: Settings, r: Row, m: Move): Row {
    match m
    case Rest => r
    case Reclaim(now) => ReclaimRow(r, now)
    case Claim(now, worker, token) => ClaimRow(r, worker, token, cfg.leaseSeconds, now)
    case Succeed(now, worker, summary) => SucceedRow(cfg, Uncancelled(r), worker, summary, now)
    case Fail(now, worker, charge, error) => FailRow(cfg, r, r, worker, charge, error, now)
    case Finalize(now, worker, summary) => FinalizeRow(r, worker, summary, now)
    case Cancel(now, actor) => CancelRow(r, actor, now)
    case Resume(now, reset) => ResumeRow(r, reset, now)
  }

  /** The row after the moves `ms`. */
  function After(cfg: Settings, r: Row, ms: seq<Move>): Row {
    if ms == [] then r else MoveRow(cfg, After(cfg, r, ms[..|ms| - 1]), ms[|ms| - 1])
  }

  /** Each move was possible when it was made. */
  predicate Feasible(cfg: Settings, r: Row, ms: seq<Move>) {
    ms == [] || (Feasible(cfg, r, ms[..|ms| - 1]) && CanMove(cfg, After(cfg, r, ms[..|ms| - 1]), ms[|ms| - 1]))
  }

  lemma Extend(cfg: Settings, r: Row, ms: seq<Move>, m: Move)
    requires Feasible(cfg, r, ms) && CanMove(cfg, After(cfg, r, ms), m)
    ensures Feasible(cfg, r, ms + [m]) && After(cfg, r, ms + [m]) == MoveRow(cfg, After(cfg, r, ms), m)
  {
    assert (ms + [m])[..|ms|] == ms;
  }

  /** `q` moves to `q2` in two moves. */
  predicate TwoMoves(cfg: Settings, q: Row, m1: Move, m2: Move, q2: Row) {
    CanMove(cfg, q, m1) && CanMove(cfg, MoveRow(cfg, q, m1), m2) && q2 == MoveRow(cfg, MoveRow(cfg, q, m1), m2)
  }

  lemma ExtendTwo(cfg: Settings, r: Row, ms: seq<Move>, m1: Move, m2: Move, q2: Row)
    requires Feasible(cfg, r, ms) && TwoMoves(cfg, After(cfg, r, ms), m1, m2, q2)
    ensures Feasible(cfg, r, ms + [m1] + [m2]) && q2 == After(cfg, r, ms + [m1] + [m2])
  {
    Extend(cfg, r, ms, m1);
    Extend(cfg, r, ms + [m1], m2);
  }

  // ---- Projection --------------------------------------------------------

  /** A claim may reclaim a row and then claim it, so a step makes two moves of each row. */
  function FirstMove(s: System, e: Event, id: JobId): Move
    requires id in s.rows
  {
    if (e.ReclaimEvent? || e.ClaimEvent?) && Expired(s.rows[id].job, e.now) then Reclaim(e.now) else Rest
  }

  function SecondMove(s: System, e: Event, id: JobId): Move {
    match e
    case ClaimEvent(now, worker, token, _, _, choice) => if choice == Some(id) then Claim(now, worker, token) else Rest
    case SucceedEvent(now, token, summary) =>
      if token in s.granted && s.granted[token].id == id then Succeed(now, s.granted[token].worker, summary) else Rest
    case FailEvent(now, token, charge, error) =>
      if token in s.granted && s.granted[token].id == id then Fail(now, s.granted[token].worker, charge, error) else Rest
    case FinalizeEvent(now, token, summary) =>
      if token in s.granted && s.granted[token].id == id then Finalize(now, s.granted[token].worker, summary) else Rest
    case CancelEvent(now, target, actor) => if target == id then Cancel(now, actor) else Rest
    case ResumeEvent(now, target, reset) => if target == id then Resume(now, reset) else Rest
    case EnqueueEvent(_, _, _) => Rest
    case ReclaimEvent(_) => Rest
  }

  ghost predicate Sound(s: System) {
    LeasesOk(s.rows) && TokensOk(s) && Mirrored(s)
  }

  lemma FencedRunIsSound(cfg: Settings, ss: seq<System>, es: seq<Event>, n: nat)
    requires Run(cfg, ss, es) && FencedPath(ss, es) && n < |ss|
    ensures Sound(ss[n])
  {
    RunKeepsLeases(cfg, ss, es, n);
    RunKeepsTokens(cfg, ss, es, n);
    FencedRunKeepsMirror(cfg, ss, es, n);
  }

  lemma SnapshotAgrees(s: System, e: Event)
    requires Fenced(s, e) && Sound(s) && e.Completes()
    ensures e.token in s.granted && s.granted[e.token].id in s.rows
    ensures var g, row := s.granted[e.token], s.rows[s.granted[e.token].id];
      Agrees(row, g.row) && Mirror(row) && Mirror(g.row) && row.job.status.Running? && !g.row.job.cancelRequested
  {
    var g := s.granted[e.token];
    assert Agrees(s.rows[g.id], g.row) && GrantOk(e.token, g);
  }

  /** A write from a snapshot that agrees with the row is a write from the row. */
  lemma SnapshotWrites(cfg: Settings, row: Row, snapshot: Row, worker: string, text: string, charge: int, now: Time)
    requires Agrees(row, snapshot) && Mirror(row) && Mirror(snapshot) && !snapshot.job.cancelRequested
    ensures AttemptCost(cfg, snapshot) == AttemptCost(cfg, row) && (WithinBudget(cfg, snapshot) <==> WithinBudget(cfg, row))
    ensures SucceedRow(cfg, snapshot, worker, text, now) == SucceedRow(cfg, Uncancelled(row), worker, text, now)
    ensures !row.job.cancelRequested ==>
      FailRow(cfg, snapshot, row, worker, charge, text, now) == FailRow(cfg, row, row, worker, charge, text, now)
  {
  }

  /** What a fenced completion writes is what it would write from the current row alone. */
  lemma FencedWrites(cfg: Settings, s: System, e: Event, t: System)
    requires Step(cfg, s, e, t) && Fenced(s, e) && Sound(s) && e.Completes()
    ensures var id := s.granted[e.token].id;
      && id in s.rows && CanMove(cfg, s.rows[id], SecondMove(s, e, id))
      && t.rows == s.rows[id := MoveRow(cfg, s.rows[id], SecondMove(s, e, id))]
  {
    SnapshotAgrees(s, e);
    var g := s.granted[e.token];
    match e
    case SucceedEvent(now, _, summary) => SnapshotWrites(cfg, s.rows[g.id], g.row, g.worker, summary, 0, now);
    case FailEvent(now, _, charge, error) => SnapshotWrites(cfg, s.rows[g.id], g.row, g.worker, error, charge, now);
    case FinalizeEvent(_, _, _) =>
  }

  lemma ProjectClaim(cfg: Settings, s: System, e: Event, t: System, id: JobId)
    requires e.ClaimEvent? && ClaimStep(cfg, s, e, t) && id in s.rows
    ensures id in t.rows
    ensures TwoMoves(cfg, s.rows[id], FirstMove(s, e, id), SecondMove(s, e, id), t.rows[id])
  {
    var rows := ReclaimAll(s.rows, e.now);
    if e.choice == Some(id) {
      SelectedIsEligible(cfg, rows, e.now, e.types, e.tags, id);
    }
    assert rows[id] == MoveRow(cfg, s.rows[id], FirstMove(s, e, id));
  }

  lemma ProjectCompletion(cfg: Settings, s: System, e: Event, t: System, id: JobId)
    requires Step(cfg, s, e, t) && Fenced(s, e) && Sound(s) && e.Completes() && id in s.rows
    ensures id in t.rows
    ensures TwoMoves(cfg, s.rows[id], FirstMove(s, e, id), SecondMove(s, e, id), t.rows[id])
  {
    FencedWrites(cfg, s, e, t);
  }

  /** Enqueue, reclaim, cancel and resume write what the move writes, from the current row. */
  lemma ProjectManagement(cfg: Settings, s: System, e: Event, t: System, id: JobId)
    requires Step(cfg, s, e, t) && !e.Completes() && !e.ClaimEvent? && id in s.rows
    ensures id in t.rows
    ensures TwoMoves(cfg, s.rows[id], FirstMove(s, e, id), SecondMove(s, e, id), t.rows[id])
  {
  }

  lemma ProjectStep(cfg: Settings, s: System, e: Event, t: System, id: JobId)
    requires Step(cfg, s, e, t) && Fenced(s, e) && Sound(s) && id in s.rows
    ensures id in t.rows
    ensures TwoMoves(cfg, s.rows[id], FirstMove(s, e, id), SecondMove(s, e, id), t.rows[id])
  {
    if e.Completes() {
      ProjectCompletion(cfg, s, e, t, id);
    } else if e.ClaimEvent? {
      ProjectClaim(cfg, s, e, t, id);
    } else {
      ProjectManagement(cfg, s, e, t, id);
    }
  }

  lemma RunMoves(cfg: Settings, ss: seq<System>, es: seq<Event>, id: JobId, n: nat)
    requires Run(cfg, ss, es) && FencedPath(ss, es) && n < |es| && id in ss[n].rows
    ensures id in ss[n + 1].rows
    ensures TwoMoves(cfg, ss[n].rows[id], FirstMove(ss[n], es[n], id), SecondMove(ss[n], es[n], id), ss[n + 1].rows[id])
  {
    FencedRunIsSound(cfg, ss, es, n);
    assert StepAt(cfg, ss, es, n);
    ProjectStep(cfg, ss[n], es[n], ss[n + 1], id);
  }

  /** The moves row `id` makes between states `from` and `to`. */
  function MovesAlong(ss: seq<System>, es: seq<Event>, id: JobId, from: nat, to: nat): seq<Move>
    requires from <= to <= |es| <= |ss|
    requires forall i | from <= i < to :: id in ss[i].rows
  {
    if from == to then []
    else MovesAlong(ss, es, id, from, to - 1)
         + [FirstMove(ss[to - 1], es[to - 1], id)] + [SecondMove(ss[to - 1], es[to - 1], id)]
  }

  /** Row `id` gets from its state in `ss[from]` to that in `ss[to]` by feasible moves. */
  predicate Lives(cfg: Settings, ss: seq<System>, es: seq<Event>, id: JobId, from: nat, to: nat)
    requires from <= to <= |es| < |ss|
  {
    && (forall i | from <= i <= to :: id in ss[i].rows)
    && var ms := MovesAlong(ss, es, id, from, to);
       Feasible(cfg, ss[from].rows[id], ms) && ss[to].rows[id] == After(cfg, ss[from].rows[id], ms)
  }

  lemma LivesOn(cfg: Settings, ss: seq<System>, es: seq<Event>, id: JobId, from: nat, to: nat)
    requires from < to <= |es| < |ss| && Lives(cfg, ss, es, id, from, to - 1) && id in ss[to].rows
    requires TwoMoves(cfg, ss[to - 1].rows[id], FirstMove(ss[to - 1], es[to - 1], id),
                      SecondMove(ss[to - 1], es[to - 1], id), ss[to].rows[id])
    ensures Lives(cfg, ss, es, id, from, to)
  {
    ExtendTwo(cfg, ss[from].rows[id], MovesAlong(ss, es, id, from, to - 1),
              FirstMove(ss[to - 1], es[to - 1], id), SecondMove(ss[to - 1], es[to - 1], id), ss[to].rows[id]);
  }

  lemma {:induction false} FencedRunLives(cfg: Settings, ss: seq<System>, es: seq<Event>, id: JobId, from: nat, to: nat)
    requires Run(cfg, ss, es) && FencedPath(ss, es) && from <= to < |ss| && id in ss[from].rows
    ensures Lives(cfg, ss, es, id, from, to)
  {
    if from < to {
      FencedRunLives(cfg, ss, es, id, from, to - 1);
      RunMoves(cfg, ss, es, id, to - 1);
      LivesOn(cfg, ss, es, id, from, to);
    }
  }

  /** A fenced run moves each row by feasible moves. */
  lemma Project(cfg: Settings, ss: seq<System>, es: seq<Event>, id: JobId, from: nat, to: nat)
    requires Run(cfg, ss, es) && FencedPath(ss, es) && from <= to < |ss| && id in ss[from].rows
    ensures forall i | from <= i <= to :: id in ss[i].rows
    ensures var ms := MovesAlong(ss, es, id, from, to);
      Feasible(cfg, ss[from].rows[id], ms) && ss[to].rows[id] == After(cfg, ss[from].rows[id], ms)
  {
    FencedRunLives(cfg, ss, es, id, from, to);
  }

  /** Every row of a reachable state was enqueued by an accepted request at some earlier step. */
  lemma {:induction false} Birth(cfg: Settings, ss: seq<System>, es: seq<Event>, n: nat, id: JobId) returns (b: nat)
    requires Run(cfg, ss, es) && n < |ss| && id in ss[n].rows
    ensures b < n && es[b].EnqueueEvent? && es[b].id == id
    ensures EnqueueCheck(cfg, ss[b].rows, es[b].req).None?
    ensures id in ss[b + 1].rows && ss[b + 1].rows[id] == NewRow(cfg, es[b].req, es[b].now)
  {
    if id in ss[n - 1].rows {
      b := Birth(cfg, ss, es, n - 1, id);
    } else {
      b := n - 1;
      assert StepAt(cfg, ss, es, b);
      RunKeepsTokens(cfg, ss, es, b);
    }
  }

  /** So every row of a fenced run is a new row after feasible moves. */
  lemma LifeOf(cfg: Settings, ss: seq<System>, es: seq<Event>, n: nat, id: JobId)
    returns (req: Request, now: Time, ms: seq<Move>)
    requires Run(cfg, ss, es) && FencedPath(ss, es) && n < |ss| && id in ss[n].rows
    ensures ResolvedBudget(cfg, req) > 0
    ensures Feasible(cfg, NewRow(cfg, req, now), ms) && ss[n].rows[id] == After(cfg, NewRow(cfg, req, now), ms)
  {
    var b := Birth(cfg, ss, es, n, id);
    Project(cfg, ss, es, id, b + 1, n);
    req, now, ms := es[b].req, es[b].now, MovesAlong(ss, es, id, b + 1, n);
  }
}
