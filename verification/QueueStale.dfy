/** Why the lifetime properties ask for fenced completions: the completion write does not look at the lease. */
module QueueStale {
  import opened Common
  import opened QueueModel
  import opened QueueSafety
  import opened QueueLife

  lemma SoleRowIsSelected(cfg: Settings, rows: Table, now: Time, id: JobId)
    requires cfg.Valid() && rows.Keys == {id} && Matches(rows[id].job, now, {})
    requires rows[id].job.requiredTags == {} && rows[id].job.concurrencyKey.None? && rows[id].job.tenant.None?
    ensures Selects(cfg, rows, now, {}, {}, Some(id))
  {
    var scan := [id];
    assert IsScan(rows, now, {}, cfg.scanLimit, scan);
    assert PickedAt(rows, {}, cfg.tenantCap, scan, 0, id);
    assert Picks(rows, {}, cfg.tenantCap, scan, Some(id));
  }

  lemma SoleRowIsClaimed(cfg: Settings, row: Row, granted: map<Token, Grant>, worker: string, token: Token, now: Time)
    requires cfg.Valid() && Matches(row.job, now, {}) && token !in granted
    requires row.job.requiredTags == {} && row.job.concurrencyKey.None? && row.job.tenant.None?
    ensures var claimed := ClaimRow(row, worker, token, cfg.leaseSeconds, now);
      Step(cfg, System(map["job" := row], granted), ClaimEvent(now, worker, token, {}, {}, Some("job")),
           System(map["job" := claimed], granted[token := Grant("job", worker, claimed)]))
  {
    var rows := map["job" := row];
    assert ReclaimAll(rows, now) == rows;
    assert RunningOn(rows, worker) == {};
    SoleRowIsSelected(cfg, rows, now, "job");
    var claimed := ClaimRow(row, worker, token, cfg.leaseSeconds, now);
    assert rows["job" := claimed] == map["job" := claimed];
  }

  // One job, two workers. The first loses its lease, the second succeeds, the first reports a failure.

  const REQUEST := Request(Verify, None, 0, None, None, "", None, [], "")
  const DUE := 900 * SECOND
  const FRESH := NewRow(SHIPPED, REQUEST, 0)
  const HELD := ClaimRow(FRESH, "a", "first", 900, 0)
  const LOST := ReclaimRow(HELD, DUE)
  const RETAKEN := ClaimRow(LOST, "b", "second", 900, DUE)
  const DONE := SucceedRow(SHIPPED, RETAKEN, "b", "done", DUE)
  const UNDONE := FailRow(SHIPPED, HELD, DONE, "a", 0, "late", DUE)
  const FIRST := map["first" := Grant("job", "a", HELD)]
  const BOTH := FIRST["second" := Grant("job", "b", RETAKEN)]

  const EVENTS := [
    EnqueueEvent(0, "job", REQUEST), ClaimEvent(0, "a", "first", {}, {}, Some("job")), ReclaimEvent(DUE),
    ClaimEvent(DUE, "b", "second", {}, {}, Some("job")), SucceedEvent(DUE, "second", "done"),
    FailEvent(DUE, "first", 0, "late")]
  const STATES := [
    EMPTY, System(map["job" := FRESH], map[]), System(map["job" := HELD], FIRST), System(map["job" := LOST], FIRST),
    System(map["job" := RETAKEN], BOTH), System(map["job" := DONE], BOTH), System(map["job" := UNDONE], BOTH)]

  lemma Opening()
    ensures Step(SHIPPED, STATES[0], EVENTS[0], STATES[1]) && Step(SHIPPED, STATES[1], EVENTS[1], STATES[2])
  {
    assert PendingJobs(map[]) == {};
    SoleRowIsClaimed(SHIPPED, FRESH, map[], "a", "first", 0);
    assert map[]["first" := Grant("job", "a", HELD)] == FIRST;
  }

  lemma Middle()
    ensures Step(SHIPPED, STATES[2], EVENTS[2], STATES[3]) && Step(SHIPPED, STATES[3], EVENTS[3], STATES[4])
  {
    assert ReclaimAll(map["job" := HELD], DUE) == map["job" := LOST];
    SoleRowIsClaimed(SHIPPED, LOST, FIRST, "b", "second", DUE);
  }

  lemma Ending()
    ensures Step(SHIPPED, STATES[4], EVENTS[4], STATES[5]) && Step(SHIPPED, STATES[5], EVENTS[5], STATES[6])
  {
    assert (map["job" := RETAKEN])["job" := DONE] == map["job" := DONE];
    assert (map["job" := DONE])["job" := UNDONE] == map["job" := UNDONE];
  }

  lemma LegalRun()
    ensures Run(SHIPPED, STATES, EVENTS)
  {
    forall i: nat | i < |EVENTS| ensures StepAt(SHIPPED, STATES, EVENTS, i) {
      Opening();
      Middle();
      Ending();
      assert i == 0 || i == 1 || i == 2 || i == 3 || i == 4 || i == 5;
    }
  }

  // One job, one worker. It is cancelled, its lease expires, and the worker closes it out after all.

  const STOPPED := CancelRow(HELD, "op", 0)
  const WAITING := ReclaimRow(STOPPED, DUE)
  const CLOSED := FinalizeRow(WAITING, "a", "closed late", DUE)

  const LATE_EVENTS := [
    EnqueueEvent(0, "job", REQUEST), ClaimEvent(0, "a", "first", {}, {}, Some("job")), CancelEvent(0, "job", "op"),
    ReclaimEvent(DUE), FinalizeEvent(DUE, "first", "closed late")]
  const LATE_STATES := [
    EMPTY, System(map["job" := FRESH], map[]), System(map["job" := HELD], FIRST), System(map["job" := STOPPED], FIRST),
    System(map["job" := WAITING], FIRST), System(map["job" := CLOSED], FIRST)]

  lemma LateEnding()
    ensures Step(SHIPPED, LATE_STATES[2], LATE_EVENTS[2], LATE_STATES[3])
    ensures Step(SHIPPED, LATE_STATES[3], LATE_EVENTS[3], LATE_STATES[4])
    ensures Step(SHIPPED, LATE_STATES[4], LATE_EVENTS[4], LATE_STATES[5])
  {
    assert (map["job" := HELD])["job" := STOPPED] == map["job" := STOPPED];
    assert ReclaimAll(map["job" := STOPPED], DUE) == map["job" := WAITING];
    assert (map["job" := WAITING])["job" := CLOSED] == map["job" := CLOSED];
  }

  lemma LateOpening()
    ensures Step(SHIPPED, LATE_STATES[0], LATE_EVENTS[0], LATE_STATES[1])
    ensures Step(SHIPPED, LATE_STATES[1], LATE_EVENTS[1], LATE_STATES[2])
  {
    Opening();
    assert LATE_STATES[0] == STATES[0] && LATE_STATES[1] == STATES[1] && LATE_STATES[2] == STATES[2];
    assert LATE_EVENTS[0] == EVENTS[0] && LATE_EVENTS[1] == EVENTS[1];
  }

  lemma LegalLateRun()
    ensures Run(SHIPPED, LATE_STATES, LATE_EVENTS)
  {
    forall i: nat | i < |LATE_EVENTS| ensures StepAt(SHIPPED, LATE_STATES, LATE_EVENTS, i) {
      LateOpening();
      LateEnding();
      assert i == 0 || i == 1 || i == 2 || i == 3 || i == 4;
    }
  }

  lemma OnlyTheCloseOutIsStale()
    ensures forall i | 0 <= i < 5 :: Fenced(LATE_STATES[i], LATE_EVENTS[i]) <==> i < 4
  {
  }

  /**
   The run is legal and only its last step is not fenced. It leaves the job waiting before
   that step; the late close-out ends the wait, and breaks the mirror of payload and columns.
   */
  lemma LateCloseOutBreaksMirror()
    ensures Run(SHIPPED, LATE_STATES, LATE_EVENTS)
    ensures forall i | 0 <= i < 5 :: Fenced(LATE_STATES[i], LATE_EVENTS[i]) <==> i < 4
    ensures Waits(LATE_STATES[4].rows["job"].job) && Mirror(LATE_STATES[4].rows["job"])
    ensures LATE_STATES[5].rows["job"].job.status.Cancelled? && !Mirror(LATE_STATES[5].rows["job"])
  {
    LegalLateRun();
    OnlyTheCloseOutIsStale();
  }

  lemma OnlyTheLastIsStale()
    ensures forall i | 0 <= i < 6 :: Fenced(STATES[i], EVENTS[i]) <==> i < 5
  {
  }

  /** The run is legal, only its last step is not fenced, and it queues the finished job again. */
  lemma LateFailureRequeuesFinishedJob()
    ensures Run(SHIPPED, STATES, EVENTS)
    ensures forall i | 0 <= i < 6 :: Fenced(STATES[i], EVENTS[i]) <==> i < 5
    ensures STATES[5].rows["job"].job.status.Succeeded?
    ensures STATES[6].rows["job"].job.status.Queued? && !STATES[6].rows["job"].job.cancelRequested
  {
    LegalRun();
    OnlyTheLastIsStale();
  }
}
