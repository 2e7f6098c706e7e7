/** The queue store over its table, and the job service on top of it. */
module JobQueueStore {
  import opened Wrappers
  import opened JobRuns

  datatype Answer<T> = Ok(value: T) | IntegrityError | UnknownRun

  function Claim(t: Table, id: RunId, now: Time, worker: string, lease: nat): Table
    requires id in t
  {
    t[id := Acquired(t[id], now, worker, lease)]
  }

  predicate ActiveWith(t: Table, id: RunId, key: string) {
    id in t && t[id].status.Active() && t[id].spec.dedupeKey == Some(key)
  }

  /** A running row whose lease is over goes back to queued, with the retry time it had or now; others stay. */
  predicate RecoversTo(o: Row, n: Row, now: Time) {
    if o.status == Running && o.lockedUntil.Some? && o.lockedUntil.value < now
    then n == o.(status := Queued, workerId := None, lockedUntil := None,
                 nextRetryAt := if o.nextRetryAt.Some? then o.nextRetryAt else Some(now))
    else n == o
  }

  /** Queued, and not kept back until later. */
  predicate Waiting(r: Row, now: Time) { r.status == Queued && (r.nextRetryAt.None? || r.nextRetryAt.value <= now) }

  /** A run goes to the worker while no waiting run has a smaller priority, or the same and waits longer. */
  predicate TakenBy(t: Table, t': Table, id: RunId, now: Time, worker: string, lease: nat, skipped: set<RunId>) {
    && id in t && id !in skipped && Waiting(t[id], now)
    && (forall j | j in t && j !in skipped && Waiting(t[j], now) ::
          t[id].spec.priority <= t[j].spec.priority
          && (t[id].spec.priority == t[j].spec.priority ==> t[id].queuedAt <= t[j].queuedAt))
    && t' == t[id := t[id].(status := Running, heartbeatAt := Some(now), lockedUntil := Some(now + lease),
                            workerId := Some(worker),
                            startedAt := if t[id].startedAt.Some? then t[id].startedAt else Some(now))]
  }

  predicate ActiveSome(t: Table, key: string) { exists id | id in t :: ActiveWith(t, id, key) }

  /** The table other sessions' transactions leave, and the clock by then. */
  datatype Moment = Moment(rows: Table, clock: Time) {
    ghost predicate Follows(before: Time) {
      before <= clock && UniqueActive(rows) && forall id | id in rows :: Shape(rows[id], clock)
    }
  }

  predicate IsRecompute(spec: JobSpec) { spec.date.Some? && spec == RecomputeSpec(spec.date.value) }

  /** An untouched recompute job. */
  predicate NewRecompute(r: Row) { IsRecompute(r.spec) && r == NewRow(r.spec, r.queuedAt) }

  /** Nothing happened to the table but inserts of recompute jobs. */
  predicate Grown(t: Table, t': Table) {
    && (forall id | id in t :: id in t' && t'[id] == t[id])
    && (forall id | id in t' && id !in t :: NewRecompute(t'[id]))
  }

  /** One more date asked for: its job is there already, or it is inserted. */
  lemma GrownMore(t: Table, m: Table, t': Table, id: RunId, date: string, now: Time)
    requires Grown(t, m) && t' == if id in m then m else m[id := NewRow(RecomputeSpec(date), now)]
    ensures Grown(t, t') && forall j | j in m :: j in t' && t'[j] == m[j]
    ensures forall j | j in t' && j !in m :: t'[j].spec.date == Some(date)
  {
  }

  /** Nothing but inserts of recompute jobs happened to the other rows. */
  predicate GrownBeside(t: Table, t': Table, id: RunId) {
    && (forall j | j in t && j != id :: j in t' && t'[j] == t[j])
    && (forall j | j in t' && j !in t && j != id :: NewRecompute(t'[j]))
  }

  /** Another session holds the advisory lock the key asks for. */
  predicate Held(locked: set<string>, key: Option<string>) { key.Some? && key.value != "" && key.value in locked }

  /** What one execution makes of its run, and of the table beside it. */
  ghost predicate Executed(t: Table, t': Table, id: RunId, now: Time, locked: set<string>)
    requires id in t
  {
    && id in t' && GrownBeside(t, t', id)
    && (Held(locked, t[id].spec.concurrencyKey) || !Enqueues(t[id].spec.jobType) ==> t'.Keys == t.Keys)
    && (if Held(locked, t[id].spec.concurrencyKey)
        then t'[id] == Blocked(t[id], now, 15)
        else
          || t'[id] == Completed(t[id], now)
          || exists retryable ::
               t'[id] == FailedRow(t[id], now, t[id].attempts, t[id].spec.maxAttempts, retryable, None))
  }

  /** One turn of the worker loop: recovery, the claim of the first eligible run, its execution. */
  ghost predicate Turn(a: Moment, b: Moment, worker: string, lease: nat, locked: set<string>) {
    exists id, recoveredAt, claimedAt ::
      a.clock <= recoveredAt <= claimedAt <= b.clock
      && TurnOf(RecoverAll(a.rows, recoveredAt), id, claimedAt, b, worker, lease, locked)
  }

  ghost predicate TurnOf(t: Table, id: RunId, claimedAt: Time, b: Moment, worker: string, lease: nat,
                         locked: set<string>)
  {
    Candidate(t, id, claimedAt, {}) && Executed(Claim(t, id, claimedAt, worker, lease), b.rows, id, b.clock, locked)
  }

  /** What any number of executions make of a table: their own runs end, recompute jobs come in, specs never change. */
  ghost predicate Worked(t: Table, t': Table) {
    && (forall id | id in t :: id in t' && t'[id].spec == t[id].spec)
    && (forall id | id in t' && id !in t :: IsRecompute(t'[id].spec))
    && (forall id | id in t' && t'[id].status == Running :: id in t && t'[id] == t[id])
  }

  /** The turns of the worker loop so far, each from the moment the one before it ended. */
  ghost predicate Turns(moments: seq<Moment>, first: Moment, last: Moment, worker: string, lease: nat,
                        locked: set<string>)
  {
    && moments != [] && moments[0] == first && moments[|moments| - 1] == last
    && forall i | 0 <= i < |moments| - 1 :: Turn(moments[i], moments[i + 1], worker, lease, locked)
  }

  lemma TurnsMore(moments: seq<Moment>, first: Moment, last: Moment, next: Moment, worker: string, lease: nat,
                  locked: set<string>)
    requires Turns(moments, first, last, worker, lease, locked) && Turn(last, next, worker, lease, locked)
    ensures Turns(moments + [next], first, next, worker, lease, locked)
  {
  }

  lemma ExecutedStatus(t: Table, t': Table, id: RunId, now: Time, locked: set<string>)
    requires id in t && Executed(t, t', id, now, locked)
    ensures id in t' && t'[id].status != Running && t'[id].spec == t[id].spec
  {
  }

  lemma WorkedExecuted(t: Table, m: Table, id: RunId, r: Row, t': Table, now: Time, locked: set<string>)
    requires Worked(t, m) && id in m && r.spec == m[id].spec && Executed(m[id := r], t', id, now, locked)
    ensures Worked(t, t')
  {
    ExecutedStatus(m[id := r], t', id, now, locked);
    WorkedMore(t, m, r, t', id);
  }

  lemma WorkedTurn(t: Table, a: Moment, b: Moment, worker: string, lease: nat, locked: set<string>)
    requires Worked(t, a.rows) && Turn(a, b, worker, lease, locked)
    ensures Worked(t, b.rows)
  {
    var id, recoveredAt, claimedAt :|
      a.clock <= recoveredAt <= claimedAt <= b.clock
      && TurnOf(RecoverAll(a.rows, recoveredAt), id, claimedAt, b, worker, lease, locked);
    WorkedRecovered(t, a.rows, recoveredAt);
    WorkedTurnOf(t, RecoverAll(a.rows, recoveredAt), id, claimedAt, b, worker, lease, locked);
  }

  lemma WorkedTurnOf(t: Table, m: Table, id: RunId, claimedAt: Time, b: Moment, worker: string, lease: nat,
                     locked: set<string>)
    requires Worked(t, m) && TurnOf(m, id, claimedAt, b, worker, lease, locked)
    ensures Worked(t, b.rows)
  {
    WorkedExecuted(t, m, id, Acquired(m[id], claimedAt, worker, lease), b.rows, b.clock, locked);
  }

  lemma WorkedRecovered(t: Table, m: Table, now: Time)
    requires Worked(t, m)
    ensures Worked(t, RecoverAll(m, now))
  {
  }

  /** A run is claimed and executed; besides, the table grows. */
  lemma WorkedMore(t: Table, m: Table, claimed: Row, t': Table, id: RunId)
    requires Worked(t, m) && id in m && id in t' && GrownBeside(m[id := claimed], t', id)
    requires t'[id].status != Running && t'[id].spec == m[id].spec
    ensures Worked(t, t')
  {
    forall j | j in m && j != id ensures j in t' && t'[j] == m[j] { assert m[id := claimed][j] == m[j]; }
    forall j | j in t' && j !in m ensures NewRecompute(t'[j]) { assert j !in m[id := claimed]; }
  }

  /** The job types whose body inserts recompute jobs. */
  predicate Enqueues(jobType: string) { jobType == "refresh" || jobType == "master_sync" }

  /** However many ids are taken, a longer one is not. */
  lemma {:induction false} LongerThanAll(ids: set<RunId>) returns (n: nat)
    ensures forall id | id in ids :: |id| < n
    decreases ids
  {
    n := 0;
    if ids != {} {
      var id :| id in ids;
      var m := LongerThanAll(ids - {id});
      n := if |id| < m then m else |id| + 1;
    }
  }

  class JobStatusQueueStore {
    var rows: Table
    var clock: Time                   // what `now_local` read last
    var lockedElsewhere: set<string>  // advisory locks held by other sessions

    ghost predicate Valid() reads this {
      UniqueActive(rows) && forall id | id in rows :: Shape(rows[id], clock)
    }

    constructor ()
      ensures Valid() && rows == map[]
    {
      rows, clock, lockedElsewhere := map[], 0, {};
    }

    /** The clock never runs backwards. */
    method NowLocal() returns (now: Time)
      requires Valid()
      modifies this`clock
      ensures Valid() && now == clock >= old(clock)
    {
      now :| now >= clock;
      clock := now;
    }

    method FindActiveDuplicate(key: string) returns (r: Option<RunId>)
      requires Valid()
      ensures r.Some? ==> ActiveWith(rows, r.value, key)
      ensures r.Some? ==> forall id | ActiveWith(rows, id, key) :: id == r.value
      ensures r.None? ==> forall id :: !ActiveWith(rows, id, key)
    {
      if id :| id in rows && ActiveWith(rows, id, key) {
        forall j | ActiveWith(rows, j, key) ensures j == id {
          assert SameActiveKey(rows[id], rows[j]);
        }
        r := Some(id);
      } else {
        r := None;
      }
    }

    /** INSERT; the unique index decides. `id` is a fresh uuid. */
    method Enqueue(id: RunId, spec: JobSpec) returns (r: Answer<RunId>)
      requires Valid() && id !in rows
      modifies this`rows, this`clock
      ensures Valid() && clock >= old(clock)
      ensures r == if KeyTaken(old(rows), id, spec.dedupeKey) then IntegrityError else Ok(id)
      ensures rows == if r.Ok? then old(rows)[id := NewRow(spec, clock)] else old(rows)
      ensures r.Ok? ==>
                rows[id] == Row(spec.(maxAttempts := Max(1, spec.maxAttempts)), Queued, 0, clock,
                                None, None, None, None, None, None)
    {
      var now := NowLocal();
      if KeyTaken(rows, id, spec.dedupeKey) {
        r := IntegrityError;
      } else {
        rows := rows[id := NewRow(spec, now)];
        r := Ok(id);
      }
    }

    method RecoverStaleRuns() returns (count: nat)
      requires Valid()
      modifies this`rows, this`clock
      ensures Valid() && clock >= old(clock)
      ensures rows == RecoverAll(old(rows), clock)
      ensures rows.Keys == old(rows).Keys && forall id | id in rows :: RecoversTo(old(rows)[id], rows[id], clock)
      ensures count == |set id | id in old(rows) && Stale(old(rows)[id], clock)|
    {
      var now := NowLocal();
      count := |set id | id in rows && Stale(rows[id], now)|;
      rows := RecoverAll(rows, now);
    }

    /** Recovery in one transaction, the claim in a second one that reads the clock again. */
    method AcquireNext(worker: string, lease: nat, skipped: set<RunId>)
      returns (r: Option<RunId>, ghost recoveredAt: Time)
      requires Valid()
      modifies this`rows, this`clock
      ensures Valid() && old(clock) <= recoveredAt <= clock
      ensures r.Some? ==> Candidate(RecoverAll(old(rows), recoveredAt), r.value, clock, skipped)
      ensures r.Some? ==> rows == Claim(RecoverAll(old(rows), recoveredAt), r.value, clock, worker, lease)
      ensures r.Some? ==>
                TakenBy(RecoverAll(old(rows), recoveredAt), rows, r.value, clock, worker, lease, skipped)
      ensures r.None? ==> rows == RecoverAll(old(rows), recoveredAt)
      ensures r.None? ==> forall id | id in rows && id !in skipped :: !Waiting(rows[id], clock)
      ensures r.None? ==> forall id | id in old(rows) && Stale(old(rows)[id], recoveredAt) :: id in skipped
    {
      var _ := RecoverStaleRuns();
      recoveredAt := clock;
      var now := NowLocal();
      var pool := set id | id in rows && id !in skipped && Eligible(rows[id], now);
      if pool == {} {
        r := None;
        forall id | id in rows && id !in skipped ensures !Eligible(rows[id], clock) {
          assert id !in pool;
        }
        forall id | id in old(rows) && Stale(old(rows)[id], recoveredAt) ensures id in skipped {
          assert Eligible(rows[id], now);
          assert id !in pool;
        }
      } else {
        ghost var first := CandidateExists(rows, now, skipped, pool);
        assert Candidate(rows, first, now, skipped);
        var id :| id in rows && Candidate(rows, id, now, skipped);
        assert Candidate(rows, id, now, skipped);
        ClaimKeepsValid(rows, id, now, worker, lease);
        ClaimTakes(rows, id, now, worker, lease, skipped);
        rows := Claim(rows, id, now, worker, lease);
        r := Some(id);
      }
    }

    method Heartbeat(id: RunId, worker: string, lease: nat) returns (ok: bool)
      requires Valid()
      modifies this`rows, this`clock
      ensures Valid() && clock >= old(clock)
      ensures ok == (id in old(rows) && old(rows)[id].status == Running && old(rows)[id].workerId == Some(worker))
      ensures rows == if ok
                      then old(rows)[id := old(rows)[id].(heartbeatAt := Some(clock),
                                                          lockedUntil := Some(clock + lease))]
                      else old(rows)
    {
      var now := NowLocal();
      ok := id in rows && Beats(rows[id], worker);
      if ok {
        rows := rows[id := Renewed(rows[id], now, lease)];
      }
    }

    /** The blocked run goes back to queued with a retry time strictly in the future. */
    method RequeueBlocked(id: RunId, delay: int) returns (r: Answer<()>)
      requires Valid()
      modifies this`rows, this`clock
      ensures Valid() && clock >= old(clock)
      ensures id in old(rows) && r.Ok? ==> rows == old(rows)[id := Blocked(old(rows)[id], clock, delay)]
      ensures id in old(rows) && r.Ok? ==>
                var retryAt := Some(clock + Max(1, delay));
                rows[id] == old(rows)[id].(status := Queued, workerId := None, lockedUntil := None,
                                           heartbeatAt := retryAt, nextRetryAt := retryAt)
      ensures id in old(rows) && r.Ok? ==> !Waiting(rows[id], clock)
      ensures r.IntegrityError? <==>
                id in old(rows) && old(rows)[id].status.Terminal()
                && KeyTaken(old(rows), id, old(rows)[id].spec.dedupeKey)
      ensures id !in old(rows) || !r.Ok? ==> rows == old(rows)
      ensures !r.UnknownRun?
    {
      var now := NowLocal();
      r := Ok(());
      if id in rows {
        IndexAfterUpdate(rows, id, Blocked(rows[id], now, delay));
        if rows[id].status.Terminal() && KeyTaken(rows, id, rows[id].spec.dedupeKey) {
          r := IntegrityError;
        } else {
          rows := rows[id := Blocked(rows[id], now, delay)];
        }
      }
    }

    method Complete(id: RunId)
      requires Valid()
      modifies this`rows, this`clock
      ensures Valid() && clock >= old(clock)
      ensures rows == if id in old(rows) then old(rows)[id := Completed(old(rows)[id], clock)] else old(rows)
      ensures id in old(rows) ==>
                rows[id] == old(rows)[id].(status := Succeeded, finishedAt := Some(clock), heartbeatAt := Some(clock),
                                           lockedUntil := None, nextRetryAt := None)
    {
      var now := NowLocal();
      if id in rows {
        IndexAfterUpdate(rows, id, Completed(rows[id], now));
        rows := rows[id := Completed(rows[id], now)];
      }
    }

    method Cancel(id: RunId)
      requires Valid()
      modifies this`rows, this`clock
      ensures Valid() && clock >= old(clock)
      ensures rows == if id in old(rows) then old(rows)[id := CancelledRow(old(rows)[id], clock)] else old(rows)
      ensures id in old(rows) ==>
                rows[id] == old(rows)[id].(status := Cancelled, finishedAt := Some(clock), heartbeatAt := Some(clock),
                                           lockedUntil := None, nextRetryAt := None)
    {
      var now := NowLocal();
      if id in rows {
        IndexAfterUpdate(rows, id, CancelledRow(rows[id], now));
        rows := rows[id := CancelledRow(rows[id], now)];
      }
    }

    /** Reads the attempt state, then writes; an unknown run raises. */
    method Fail(id: RunId, retryable: bool, backoff: Option<int>) returns (r: Answer<Status>)
      requires Valid()
      modifies this`rows, this`clock
      ensures Valid() && clock >= old(clock)
      ensures r.UnknownRun? <==> id !in old(rows)
      ensures r.Ok? ==> var o := old(rows)[id];
        && rows == old(rows)[id := FailedRow(o, clock, o.attempts, o.spec.maxAttempts, retryable, backoff)]
        && r.value == rows[id].status
        && FailsTo(o, rows[id], clock, o.attempts, o.spec.maxAttempts, retryable, backoff)
      ensures r.IntegrityError? ==>
                old(rows)[id].status.Terminal() && KeyTaken(old(rows), id, old(rows)[id].spec.dedupeKey)
      ensures !r.Ok? ==> rows == old(rows)
    {
      var now := NowLocal();
      if id !in rows {
        return UnknownRun;
      }
      var attempts, maxAttempts := rows[id].attempts, rows[id].spec.maxAttempts;
      var row := FailedRow(rows[id], now, attempts, maxAttempts, retryable, backoff);
      FailedRowIs(rows[id], now, attempts, maxAttempts, retryable, backoff);
      IndexAfterUpdate(rows, id, row);
      if row.status.Active() && rows[id].status.Terminal() && KeyTaken(rows, id, rows[id].spec.dedupeKey) {
        return IntegrityError;
      }
      rows := rows[id := row];
      r := Ok(row.status);
    }

    method PurgeFinishedRunsBefore(cutoff: Time, execute: bool) returns (count: nat)
      requires Valid()
      modifies this`rows
      ensures Valid()
      ensures count == |set id | id in old(rows) && Purgeable(old(rows)[id], cutoff)|
      ensures rows == if execute then Purged(old(rows), cutoff) else old(rows)
      ensures forall id :: id in rows <==> id in old(rows) && (!execute || StaysBeyond(old(rows)[id], cutoff))
      ensures forall id | id in rows :: rows[id] == old(rows)[id]
    {
      count := |set id | id in rows && Purgeable(rows[id], cutoff)|;
      if execute {
        rows := Purged(rows, cutoff);
      }
    }

    // ---- the job service ----

    /**
     Look for an active duplicate, insert, and look again when the unique index objects. `second` and `third` are what
     other sessions have made of the table by the insert and by the second look. Any run returned carried the key and
     was active when the call began or ends; the insert's error is raised again only when no run is active under the key
     any more.
     */
    method EnqueueJob(id: RunId, spec: JobSpec, key: string, second: Moment, third: Moment) returns (r: Answer<RunId>)
      requires Valid() && id !in rows && spec.dedupeKey == Some(key)
      requires second.Follows(clock) && third.Follows(second.clock) && id !in second.rows
      modifies this`rows, this`clock
      ensures Valid()
      ensures ActiveSome(old(rows), key) ==> r.Ok? && ActiveWith(old(rows), r.value, key) && rows == old(rows)
      ensures !ActiveSome(old(rows), key) && !ActiveSome(second.rows, key) ==>
                r == Ok(id) && rows == second.rows[id := NewRow(spec, clock)]
      ensures !ActiveSome(old(rows), key) && ActiveSome(second.rows, key) ==>
                rows == third.rows && (r.Ok? <==> ActiveSome(rows, key))
                && (r.IntegrityError? <==> !ActiveSome(rows, key))
      ensures r.Ok? ==> ActiveWith(old(rows), r.value, key) || ActiveWith(rows, r.value, key)
      ensures r.IntegrityError? ==> !ActiveSome(rows, key)
      ensures old(clock) <= clock
    {
      var duplicate := FindActiveDuplicate(key);
      if duplicate.Some? {
        return Ok(duplicate.value);
      }
      rows, clock := second.rows, second.clock;
      r := Enqueue(id, spec);
      if r.Ok? {
        return;
      }
      rows, clock := third.rows, third.clock;
      duplicate := FindActiveDuplicate(key);
      if duplicate.Some? {
        r := Ok(duplicate.value);
      }
    }

    /** A uuid no run has. */
    method NewId() returns (id: RunId)
      ensures id !in rows
    {
      ghost var n := LongerThanAll(rows.Keys);
      ghost var unused := seq(n, i => 'x');
      assert unused !in rows;
      id :| id !in rows;
    }

    /** The run returned is the active one for the date; it is inserted unless there is one already. */
    method EnqueueRecomputeFindingsJob(date: string) returns (job: RunId)
      requires Valid()
      modifies this`rows, this`clock
      ensures Valid() && clock >= old(clock) && ActiveWith(rows, job, RecomputeKey(date))
      ensures rows == if job in old(rows) then old(rows) else old(rows)[job := NewRow(RecomputeSpec(date), clock)]
      ensures job !in old(rows) ==>
                rows[job].spec == JobSpec("recompute_findings_date", Some(date),
                                          Some("recompute_findings_date:" + date),
                                          if date == "" then None else Some("date-write:" + date), 30, 4)
    {
      var id := NewId();
      var r := EnqueueJob(id, RecomputeSpec(date), RecomputeKey(date), Moment(rows, clock), Moment(rows, clock));
      job := r.value;
    }

    /** One recompute job per date. */
    method EnqueueFindingsRecomputeJobs(dates: seq<string>) returns (jobs: seq<RunId>)
      requires Valid()
      modifies this`rows, this`clock
      ensures Valid() && clock >= old(clock) && Grown(old(rows), rows)
      ensures |jobs| == |dates| && forall i | 0 <= i < |dates| :: ActiveWith(rows, jobs[i], RecomputeKey(dates[i]))
      ensures forall id | id in rows && id !in old(rows) :: rows[id].spec.date.value in dates
    {
      jobs := [];
      for i := 0 to |dates|
        invariant Valid() && clock >= old(clock) && Grown(old(rows), rows)
        invariant |jobs| == i && forall j | 0 <= j < i :: ActiveWith(rows, jobs[j], RecomputeKey(dates[j]))
        invariant forall id | id in rows && id !in old(rows) :: rows[id].spec.date.value in dates
      {
        ghost var before := rows;
        var job := EnqueueRecomputeFindingsJob(dates[i]);
        GrownMore(old(rows), before, rows, job, dates[i], clock);
        jobs := jobs + [job];
      }
    }

    /**
     The job body: the recompute jobs it inserts before it ends, and None when it returns, otherwise whether its
     exception may be retried. Inserted jobs stay when it raises.
     */
    method DispatchJob(jobType: string) returns (error: Option<bool>)
      requires Valid()
      modifies this`rows, this`clock
      ensures Valid() && clock >= old(clock) && Grown(old(rows), rows)
      ensures jobType != "refresh" && jobType != "master_sync" ==> rows == old(rows)
    {
      if Enqueues(jobType) {
        var dates: seq<string> := *;
        var _ := EnqueueFindingsRecomputeJobs(dates);
      }
      error := *;
      var _ := NowLocal();
    }

    /**
     One execution, with no other worker in between: it always ends with the run out of `running`, and whatever else it
     does to the table is inserting recompute jobs.
     */
    method ExecuteJobRun(id: RunId)
      requires Valid() && id in rows && rows[id].status == Running
      modifies this`rows, this`clock
      ensures Valid() && clock >= old(clock)
      ensures Executed(old(rows), rows, id, clock, lockedElsewhere)
      ensures rows[id].status != Running && rows[id].spec == old(rows)[id].spec
    {
      var acquired := !Held(lockedElsewhere, rows[id].spec.concurrencyKey);
      if !acquired {
        var _ := RequeueBlocked(id, 15);
        return;
      }
      var error := DispatchJob(rows[id].spec.jobType);
      match error
      case None => Complete(id);
      case Some(retryable) => var _ := Fail(id, retryable, None);
    }

    /**
     Exactly `processed` turns, and a last recovery when the loop stops early, which it does only when nothing is
     eligible, jobs inserted by the jobs it ran included. It leaves no run of its own in `running`.
     */
    method ProcessQueuedJobs(maxJobs: nat, worker: string, lease: nat)
      returns (processed: nat, ghost moments: seq<Moment>)
      requires Valid()
      modifies this`rows, this`clock
      ensures Valid() && clock >= old(clock) && processed <= maxJobs
      ensures |moments| == processed + 1 && var last := moments[processed];
        && Turns(moments, Moment(old(rows), old(clock)), last, worker, lease, lockedElsewhere)
        && last.clock <= clock
        && (processed == maxJobs ==> rows == last.rows)
        && (processed < maxJobs ==> exists at :: last.clock <= at <= clock && rows == RecoverAll(last.rows, at))
      ensures processed < maxJobs ==> forall id | id in rows :: !Eligible(rows[id], clock)
      ensures Worked(old(rows), rows)
    {
      processed, moments := 0, [Moment(rows, clock)];
      while processed < maxJobs
        invariant Valid() && clock >= old(clock) && processed <= maxJobs
        invariant |moments| == processed + 1
        invariant Turns(moments, Moment(old(rows), old(clock)), Moment(rows, clock), worker, lease, lockedElsewhere)
        invariant Worked(old(rows), rows)
      {
        ghost var before := Moment(rows, clock);
        var run, recoveredAt := AcquireNext(worker, lease, {});
        if run.None? {
          WorkedRecovered(old(rows), before.rows, recoveredAt);
          return;
        }
        ghost var claimedAt := clock;
        ExecuteJobRun(run.value);
        assert TurnOf(RecoverAll(before.rows, recoveredAt), run.value, claimedAt, Moment(rows, clock), worker, lease,
                      lockedElsewhere);
        WorkedTurn(old(rows), before, Moment(rows, clock), worker, lease, lockedElsewhere);
        TurnsMore(moments, Moment(old(rows), old(clock)), before, Moment(rows, clock), worker, lease, lockedElsewhere);
        processed, moments := processed + 1, moments + [Moment(rows, clock)];
      }
    }
  }

  lemma ClaimTakes(t: Table, id: RunId, now: Time, worker: string, lease: nat, skipped: set<RunId>)
    requires Candidate(t, id, now, skipped)
    ensures TakenBy(t, Claim(t, id, now, worker, lease), id, now, worker, lease, skipped)
  {
  }

  predicate IsServiceJob(spec: JobSpec) {
    spec.dedupeKey.Some? && spec == ServiceSpec(spec.jobType, spec.date, spec.dedupeKey.value)
  }

  /** Refreshes come first, then the ingestion of a date, its recompute, master syncs, and unknown jobs last. */
  function KindOrder(jobType: string): nat {
    match jobType
    case "refresh" => 0
    case "ingest_clicks" => 1
    case "ingest_conversions" => 1
    case "recompute_findings_date" => 2
    case "master_sync" => 3
    case _ => 4
  }

  /** Among the service's jobs no claim passes over a waiting one of an earlier kind. */
  lemma KindsInOrder(t: Table, t': Table, id: RunId, now: Time, worker: string, lease: nat, skipped: set<RunId>,
                     other: RunId)
    requires TakenBy(t, t', id, now, worker, lease, skipped)
    requires other in t && other !in skipped && Waiting(t[other], now)
    requires IsServiceJob(t[id].spec) && IsServiceJob(t[other].spec)
    ensures KindOrder(t[id].spec.jobType) <= KindOrder(t[other].spec.jobType)
    ensures KindOrder(t[id].spec.jobType) == KindOrder(t[other].spec.jobType) ==> t[id].queuedAt <= t[other].queuedAt
  {
  }

  lemma ClaimKeepsValid(t: Table, id: RunId, now: Time, worker: string, lease: nat)
    requires UniqueActive(t) && (forall j | j in t :: Shape(t[j], now)) && id in t && Eligible(t[id], now)
    ensures var t' := Claim(t, id, now, worker, lease); UniqueActive(t') && forall j | j in t' :: Shape(t'[j], now)
  {
    IndexAfterUpdate(t, id, Acquired(t[id], now, worker, lease));
  }
}
