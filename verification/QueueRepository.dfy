/** The queue table and its transactions, updated in place. */
module QueueRepository {
  import opened Common
  import opened QueueModel
  import opened QueueSafety

  /** `counts.get(tenant or "", 0)`. */
  function Counted(counts: map<string, nat>, tenant: Option<string>): nat {
    var key := if tenant.Some? then tenant.value else "";
    if key in counts then counts[key] else 0
  }

  class RunRepository {
    var rows: Table
    /** Every lease handed out so far, with what its worker was given: the memory of all workers, not a column. */
    var granted: map<Token, Grant>

    /** Rows are never deleted, so the row of a grant is always there. */
    ghost predicate Valid()
      reads this
    {
      forall token | token in granted :: granted[token].id in rows
    }

    ghost function State(): System
      reads this
    {
      System(rows, granted)
    }

    constructor ()
      ensures Valid() && State() == EMPTY
    {
      rows, granted := map[], map[];
    }

    method SaveQueueJob(id: JobId, row: Row)
      requires Valid()
      modifies this`rows
      ensures Valid() && rows == old(rows)[id := row]
    {
      rows := rows[id := row];
    }

    method RequeueExpired(now: Time) returns (reclaimed: nat)
      requires Valid()
      modifies this`rows
      ensures Valid() && rows == ReclaimAll(old(rows), now)
      ensures reclaimed == |ExpiredJobs(old(rows), now)|
    {
      var todo := ExpiredJobs(rows, now);
      ghost var expired := todo;
      reclaimed := 0;
      while todo != {}
        invariant todo <= expired && reclaimed + |todo| == |expired|
        invariant rows.Keys == old(rows).Keys
        invariant forall id | id in rows ::
          rows[id] == if id in expired - todo then ReclaimRow(old(rows)[id], now) else old(rows)[id]
      {
        var id :| id in todo;
        rows := rows[id := ReclaimRow(rows[id], now)];
        todo := todo - {id};
        reclaimed := reclaimed + 1;
      }
    }

    /** SELECT ... WHERE ... ORDER BY priority DESC, created_at ASC LIMIT ?, by insertion. */
    method QueryClaimable(now: Time, types: set<JobType>, limit: int) returns (scan: seq<JobId>)
      ensures IsScan(rows, now, types, limit, scan)
    {
      scan := [];
      var todo := set id | id in rows && Matches(rows[id].job, now, types);
      while todo != {}
        invariant forall id | id in todo :: id in rows && Matches(rows[id].job, now, types) && id !in scan
        invariant forall id | id in rows && Matches(rows[id].job, now, types) :: id in todo || id in scan
        invariant IsOrdered(scan, now, types)
      {
        var id :| id in todo;
        todo := todo - {id};
        var i := 0;
        while i < |scan| && Before(rows[scan[i]].job, rows[id].job)
          invariant i <= |scan|
          invariant forall k | 0 <= k < i :: Before(rows[scan[k]].job, rows[id].job)
        {
          i := i + 1;
        }
        InsertOrdered(scan, now, types, id, i);
        scan := scan[..i] + [id] + scan[i..];
      }
      if 0 <= limit < |scan| {
        scan := scan[..limit];
      }
    }

    ghost predicate IsOrdered(scan: seq<JobId>, now: Time, types: set<JobType>)
      reads this
    {
      && (forall i | 0 <= i < |scan| :: scan[i] in rows && Matches(rows[scan[i]].job, now, types))
      && (forall i, j | 0 <= i < j < |scan| :: scan[i] != scan[j] && Before(rows[scan[i]].job, rows[scan[j]].job))
    }

    lemma InsertOrdered(scan: seq<JobId>, now: Time, types: set<JobType>, id: JobId, i: nat)
      requires IsOrdered(scan, now, types) && i <= |scan|
      requires id in rows && Matches(rows[id].job, now, types) && id !in scan
      requires forall k | 0 <= k < i :: Before(rows[scan[k]].job, rows[id].job)
      requires i < |scan| ==> !Before(rows[scan[i]].job, rows[id].job)
      ensures IsOrdered(scan[..i] + [id] + scan[i..], now, types)
      ensures forall x :: x in scan[..i] + [id] + scan[i..] <==> x == id || x in scan
    {
      assert scan == scan[..i] + scan[i..];
      forall k | i <= k < |scan| ensures Before(rows[id].job, rows[scan[k]].job) {
        assert k == i || Before(rows[scan[i]].job, rows[scan[k]].job);
      }
    }

    /** SELECT tenant_id, COUNT(*) ... GROUP BY tenant_id, gathered under "" for a missing tenant, which comes first. */
    method RunningCountsByTenant() returns (counts: map<string, nat>)
      ensures forall tenant :: Counted(counts, tenant) == TenantLoad(rows, tenant)
      ensures forall tenant: string | tenant != "" ::
        Counted(counts, Some(tenant)) == |set id | id in rows && rows[id].job.status.Running? && rows[id].job.tenant == Some(tenant)|
    {
      counts := map[];
      if RunningOf(rows, None) != {} {
        counts := counts["" := |RunningOf(rows, None)|];
      }
      var groups := set id | id in rows && rows[id].job.status.Running? && rows[id].job.tenant.Some? :: rows[id].job.tenant.value;
      var todo := groups;
      while todo != {}
        invariant todo <= groups
        invariant forall t :: t in counts <==> t in groups - todo || (t == "" && RunningOf(rows, None) != {})
        invariant forall t | t in counts ::
          counts[t] == if t in groups - todo then |RunningOf(rows, Some(t))| else |RunningOf(rows, None)|
      {
        var t :| t in todo;
        counts := counts[t := |RunningOf(rows, Some(t))|];
        todo := todo - {t};
      }
      forall t: string ensures t in groups <==> RunningOf(rows, Some(t)) != {} {
        if t in groups {
          var id :| id in rows && rows[id].job.status.Running? && rows[id].job.tenant == Some(t);
          assert id in RunningOf(rows, Some(t));
        }
      }
      forall t: string ensures RunningOf(rows, Some(t))
        == set id | id in rows && rows[id].job.status.Running? && rows[id].job.tenant == Some(t) {
      }
    }

    /** The selection loop: the first scanned row with the least fairness key among the eligible ones. */
    method SelectClaimable(now: Time, types: set<JobType>, tags: set<string>, tenantCap: int, limit: int)
      returns (selected: Option<JobId>)
      ensures exists scan :: IsScan(rows, now, types, limit, scan) && Picks(rows, tags, tenantCap, scan, selected)
    {
      selected := None;
      var found := QueryClaimable(now, types, limit);
      var runningByTenant := RunningCountsByTenant();
      var best := FairnessKey(0, 0, 0);
      for i := 0 to |found|
        invariant Picks(rows, tags, tenantCap, found[..i], selected)
        invariant selected.Some? ==> selected.value in rows && best == KeyOf(rows, rows[selected.value].job)
      {
        var job := rows[found[i]].job;
        ghost var before := selected;
        var tenantRunning := Counted(runningByTenant, job.tenant);
        var skip := !(job.requiredTags <= tags)
          || (Named(job.concurrencyKey) && |RunningWithKey(rows, job.concurrencyKey.value)| > 0)
          || (Named(job.tenant) && tenantCap > 0 && tenantRunning >= tenantCap);
        var key := FairnessKey(-job.priority, tenantRunning, job.createdAt);
        if !skip && (selected.None? || key.Less(best)) {
          selected, best := Some(found[i]), key;
        }
        PicksNext(found, i, tags, tenantCap, before, selected);
      }
      assert found[..|found|] == found;
    }

    lemma PicksNext(found: seq<JobId>, i: nat, tags: set<string>, tenantCap: int,
                    before: Option<JobId>, after: Option<JobId>)
      requires i < |found| && forall k | 0 <= k < |found| :: found[k] in rows
      requires Picks(rows, tags, tenantCap, found[..i], before)
      requires before.Some? ==> before.value in rows
      requires var job := rows[found[i]].job;
        after == if Eligible(rows, tags, tenantCap, job)
                    && (before.None? || KeyOf(rows, job).Less(KeyOf(rows, rows[before.value].job)))
                 then Some(found[i]) else before
      ensures Picks(rows, tags, tenantCap, found[..i + 1], after)
    {
      var scan, next, job := found[..i], found[..i + 1], rows[found[i]].job;
      assert forall k | 0 <= k < i :: next[k] == scan[k];
      if Eligible(rows, tags, tenantCap, job)
         && (before.None? || KeyOf(rows, job).Less(KeyOf(rows, rows[before.value].job))) {
        assert PickedAt(rows, tags, tenantCap, next, i, after.value);
      } else if before.Some? {
        var n: nat :| PickedAt(rows, tags, tenantCap, scan, n, before.value);
        assert PickedAt(rows, tags, tenantCap, next, n, after.value);
      }
    }

    /** One transaction: reclaim, then the worker cap, then the selection and the write. */
    method ClaimNext(cfg: Settings, now: Time, worker: string, token: Token, types: set<JobType>, tags: seq<string>)
      returns (claim: Option<Grant>)
      requires Valid() && token !in granted
      modifies this
      ensures Valid()
      ensures Step(cfg, old(State()), ClaimEvent(now, worker, token, types, CleanTags(tags),
                                                 if claim.Some? then Some(claim.value.id) else None), State())
      ensures claim.None? ==> granted == old(granted)
      ensures claim.Some? ==>
        && granted == old(granted)[token := claim.value] && claim.value.worker == worker
        && claim.value.id in rows && rows[claim.value.id].job.leaseToken == Some(token)
    {
      var _ := RequeueExpired(now);
      if cfg.workerCap > 0 && |RunningOn(rows, worker)| >= cfg.workerCap {
        return None;
      }
      var selected := SelectClaimable(now, types, CleanTags(tags), cfg.tenantCap, cfg.scanLimit);
      assert Selects(cfg, rows, now, types, CleanTags(tags), selected);
      if selected.None? {
        return None;
      }
      var row := ClaimRow(rows[selected.value], worker, token, cfg.leaseSeconds, now);
      rows := rows[selected.value := row];
      claim := Some(Grant(selected.value, worker, row));
      granted := granted[token := claim.value];
    }
  }

  // ---- What the selection promises ------------------------------------------

  /** A claim returns nothing exactly when no scanned row is eligible. */
  lemma NothingIffNoneEligible(rows: Table, tags: set<string>, cap: int, scan: seq<JobId>, choice: Option<JobId>)
    requires (forall i | 0 <= i < |scan| :: scan[i] in rows) && Picks(rows, tags, cap, scan, choice)
    ensures choice.None? <==> forall i | 0 <= i < |scan| :: !Eligible(rows, tags, cap, rows[scan[i]].job)
  {
  }

  /** Whatever the scan limit, no eligible row of the whole table has a higher priority than the one returned. */
  lemma NoHigherPriority(rows: Table, now: Time, types: set<JobType>, tags: set<string>, cap: int, limit: int,
                         scan: seq<JobId>, choice: JobId, other: JobId)
    requires IsScan(rows, now, types, limit, scan) && Picks(rows, tags, cap, scan, Some(choice))
    requires other in rows && Matches(rows[other].job, now, types) && Eligible(rows, tags, cap, rows[other].job)
    ensures choice in rows && rows[other].job.priority <= rows[choice].job.priority
    ensures other in scan && rows[other].job.priority == rows[choice].job.priority ==>
      var a, b := rows[choice].job, rows[other].job;
      TenantLoad(rows, a.tenant) < TenantLoad(rows, b.tenant)
      || (TenantLoad(rows, a.tenant) == TenantLoad(rows, b.tenant) && a.createdAt <= b.createdAt)
  {
    if other in scan {
      var i :| 0 <= i < |scan| && scan[i] == other;
    }
  }

  /** So a claim step never passes over a row of higher priority that it could have taken, scanned or not. */
  lemma ClaimTakesTopPriority(cfg: Settings, s: System, e: Event, t: System, other: JobId)
    requires e.ClaimEvent? && ClaimStep(cfg, s, e, t) && e.choice.Some?
    requires other in s.rows
    requires var rows := ReclaimAll(s.rows, e.now);
      Matches(rows[other].job, e.now, e.types) && Eligible(rows, e.tags, cfg.tenantCap, rows[other].job)
    ensures e.choice.value in t.rows && t.rows[other].job.priority <= t.rows[e.choice.value].job.priority
  {
    var rows := ReclaimAll(s.rows, e.now);
    var scan :| IsScan(rows, e.now, e.types, cfg.scanLimit, scan) && Picks(rows, e.tags, cfg.tenantCap, scan, e.choice);
    NoHigherPriority(rows, e.now, e.types, e.tags, cfg.tenantCap, cfg.scanLimit, scan, e.choice.value, other);
  }

  /** A claim that returns nothing missed an eligible row only if the scan was cut off, full of ineligible rows. */
  lemma MissedOnlyBehindFullScan(rows: Table, now: Time, types: set<JobType>, tags: set<string>, cap: int, limit: int,
                                 scan: seq<JobId>)
    requires IsScan(rows, now, types, limit, scan) && Picks(rows, tags, cap, scan, None)
    ensures (exists id :: id in rows && Matches(rows[id].job, now, types) && Eligible(rows, tags, cap, rows[id].job))
      ==> |scan| == limit && |set id | id in rows && Matches(rows[id].job, now, types)| > limit
  {
    var matching := set id | id in rows && Matches(rows[id].job, now, types);
    if id :| id in matching && Eligible(rows, tags, cap, rows[id].job) {
      assert id !in scan;
      ScanSize(scan);
      SubsetSize(Elements(scan) + {id}, matching);
    }
  }

  /** The scan holds as many matching rows as the limit allows. */
  lemma ScanIsFull(rows: Table, now: Time, types: set<JobType>, limit: int, scan: seq<JobId>)
    requires IsScan(rows, now, types, limit, scan)
    ensures var matching := |set id | id in rows && Matches(rows[id].job, now, types)|;
      |scan| == if 0 <= limit < matching then limit else matching
  {
    var matching := set id | id in rows && Matches(rows[id].job, now, types);
    ScanSize(scan);
    SubsetSize(Elements(scan), matching);
    if id :| id in matching && id !in scan {
      SubsetSize(Elements(scan) + {id}, matching);
    } else {
      assert Elements(scan) == matching;
    }
  }

  /** Rows are scanned by priority and then by age, and those cut off come after all that were scanned. */
  lemma ScanIsOrdered(rows: Table, now: Time, types: set<JobType>, limit: int, scan: seq<JobId>, i: nat, other: JobId)
    requires IsScan(rows, now, types, limit, scan) && i < |scan|
    requires (exists j :: i < j < |scan| && scan[j] == other)
      || (other in rows && other !in scan && Matches(rows[other].job, now, types))
    ensures other in rows
    ensures var a, b := rows[scan[i]].job, rows[other].job;
      a.priority >= b.priority && (a.priority == b.priority ==> a.createdAt <= b.createdAt)
  {
  }

  /**
   With all matching rows in the scan, a claim finds a job exactly when the worker is below its
   cap and some row may be started; what that takes is spelled out in MayStartIff.
   */
  lemma ClaimFindsWorkIff(cfg: Settings, s: System, e: Event, t: System)
    requires e.ClaimEvent? && ClaimStep(cfg, s, e, t)
    requires var rows := ReclaimAll(s.rows, e.now);
      |set id | id in rows && Matches(rows[id].job, e.now, e.types)| <= cfg.scanLimit
    ensures var rows := ReclaimAll(s.rows, e.now);
      e.choice.Some?
      <==> && (cfg.workerCap > 0 ==>
                 |set id | id in rows && rows[id].job.status.Running? && rows[id].job.worker == Some(e.worker)| < cfg.workerCap)
           && exists id :: id in rows && Matches(rows[id].job, e.now, e.types)
                           && Eligible(rows, e.tags, cfg.tenantCap, rows[id].job)
  {
    var rows := ReclaimAll(s.rows, e.now);
    assert RunningOn(rows, e.worker)
      == set id | id in rows && rows[id].job.status.Running? && rows[id].job.worker == Some(e.worker);
    if cfg.workerCap <= 0 || |RunningOn(rows, e.worker)| < cfg.workerCap {
      var scan :| IsScan(rows, e.now, e.types, cfg.scanLimit, scan) && Picks(rows, e.tags, cfg.tenantCap, scan, e.choice);
      if e.choice.None? {
        MissedOnlyBehindFullScan(rows, e.now, e.types, e.tags, cfg.tenantCap, cfg.scanLimit, scan);
      } else {
        SelectedIsEligible(cfg, rows, e.now, e.types, e.tags, e.choice.value);
      }
    }
  }

  function Elements(scan: seq<JobId>): set<JobId> {
    set id | id in scan
  }

  lemma {:induction false} ScanSize(scan: seq<JobId>)
    requires forall i, j | 0 <= i < j < |scan| :: scan[i] != scan[j]
    ensures |Elements(scan)| == |scan|
  {
    if scan != [] {
      ScanSize(scan[1..]);
      assert Elements(scan) == {scan[0]} + Elements(scan[1..]);
    }
  }
}
