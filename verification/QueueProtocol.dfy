/**
 The job queue as a state machine. The state is the `job_runs` table, the clock, the executions
 alive in all workers, and the advisory locks; every step is one transaction or one lock call.
 */
module QueueProtocol {
  import opened Wrappers
  import opened JobRuns

  type ExecId = nat

  /** Where one call of `_execute_job_run` stands. */
  datatype Phase =
    | Claimed                                                      // acquired; the lock is not tried yet
    | Waiting                                                      // the try-lock failed; requeue_blocked is next
    | Dispatching                                                  // inside the lock, running the job body
    | Closing                                                      // complete() committed; leaving the lock block
    | Raised(retryable: bool)                                      // an exception left the lock block
    | FailReady(attempts: nat, maxAttempts: nat, retryable: bool)  // fail() has read the attempt state
  {
    predicate Holding() { Dispatching? || Closing? }
  }

  /**
   `lock` is the lock number its concurrency key asks for; `renewed` the time of the last lease written for it, `mark`
   the time its present wait began, and `lost` the heartbeats that did not get through since one did.
   */
  datatype Exec = Exec(
    run: RunId, worker: string, spec: JobSpec, lock: Option<int>, phase: Phase, renewed: Time, mark: Time, lost: nat)

  /** History of an id that was ever inserted. */
  datatype History = History(spec: JobSpec, failRequeues: nat)

  datatype Sys = Sys(
    rows: Table, clock: Time,
    execs: map<ExecId, Exec>,
    locks: map<int, ExecId>,       // held advisory locks, by lock number
    owner: map<RunId, ExecId>,     // history: the execution that last acquired the run
    log: map<RunId, History>)      // history: every id ever inserted

  /** `hash` stands for `hashtext`: nothing is assumed about it. */
  datatype Config = Config(lease: nat, hash: string -> int)

  datatype Event =
    | Tick(dt: nat)
    | Enqueue(id: RunId, spec: JobSpec)
    | Recover
    | Acquire(x: ExecId, id: RunId, worker: string, skipped: set<RunId>)
    | Heartbeat(id: RunId, worker: string)  // a straggler: its execution need not be in the lock block any more
    | Beat(x: ExecId, delivered: bool)      // the heartbeat thread of an execution wakes up
    | TryLock(x: ExecId)
    | Requeue(x: ExecId, delay: int)
    | Complete(x: ExecId)
    | Release(x: ExecId)
    | Raise(x: ExecId, retryable: bool)
    | CloseError(x: ExecId)
    | FailRead(x: ExecId)
    | FailWrite(x: ExecId, backoff: Option<int>)
    | Cancel(id: RunId)
    | Purge(cutoff: Time)
    | Crash(x: ExecId)

  const INIT: Sys := Sys(map[], 0, map[], map[], map[], map[])

  /** `if not concurrency_key` treats the empty key like no key. */
  ghost function LockNo(cfg: Config, spec: JobSpec): Option<int> {
    if spec.concurrencyKey.Some? && spec.concurrencyKey.value != "" then Some(cfg.hash(spec.concurrencyKey.value))
    else None
  }

  // ---- when a step can happen ----

  ghost predicate Enabled(s: Sys, e: Event) {
    match e
    case Tick(_) => true
    case Enqueue(id, _) => id !in s.log
    case Recover => true
    case Acquire(x, id, _, skipped) => x !in s.execs && x !in s.owner.Values && Candidate(s.rows, id, s.clock, skipped)
    case Heartbeat(_, _) => true
    case Beat(x, _) => x in s.execs && s.execs[x].phase.Dispatching?
    case TryLock(x) => x in s.execs && s.execs[x].phase.Claimed?
    case Requeue(x, _) => x in s.execs && s.execs[x].phase.Waiting?
    case Complete(x) => x in s.execs && s.execs[x].phase.Dispatching?
    case Release(x) => x in s.execs && s.execs[x].phase.Closing?
    case Raise(x, _) => x in s.execs
      && (s.execs[x].phase.Claimed? || s.execs[x].phase.Waiting? || s.execs[x].phase.Dispatching?)
    case CloseError(x) => x in s.execs && s.execs[x].phase.Closing?
    case FailRead(x) => x in s.execs && s.execs[x].phase.Raised?
    case FailWrite(x, _) => x in s.execs && s.execs[x].phase.FailReady?
    case Cancel(_) => true
    case Purge(_) => true
    case Crash(x) => x in s.execs
  }

  // ---- the table a step asks for, before the unique index is consulted ----

  function Put(t: Table, id: RunId, f: Row -> Row): Table {
    if id in t then t[id := f(t[id])] else t
  }

  /** The heartbeat a step delivers: which run and which worker it names. */
  ghost function BeatOf(s: Sys, e: Event): Option<(RunId, string)>
    requires Enabled(s, e)
  {
    match e
    case Heartbeat(id, worker) => Some((id, worker))
    case Beat(x, true) => Some((s.execs[x].run, s.execs[x].worker))
    case _ => None
  }

  ghost function Renew(t: Table, id: RunId, worker: string, now: Time, lease: int): Table {
    if id in t && Beats(t[id], worker) then t[id := Renewed(t[id], now, lease)] else t
  }

  ghost function Asked(cfg: Config, s: Sys, e: Event): Table
    requires Enabled(s, e)
  {
    var now := s.clock;
    match e
    case Enqueue(id, spec) => s.rows[id := NewRow(spec, now)]
    case Recover => RecoverAll(s.rows, now)
    case Acquire(_, id, worker, _) => s.rows[id := Acquired(s.rows[id], now, worker, cfg.lease)]
    case Heartbeat(id, worker) => Renew(s.rows, id, worker, now, cfg.lease)
    case Beat(x, delivered) => if delivered then Renew(s.rows, s.execs[x].run, s.execs[x].worker, now, cfg.lease)
                               else s.rows
    case Requeue(x, delay) => Put(s.rows, s.execs[x].run, r => Blocked(r, now, delay))
    case Complete(x) => Put(s.rows, s.execs[x].run, r => Completed(r, now))
    case FailWrite(x, backoff) =>
      var p := s.execs[x].phase;
      Put(s.rows, s.execs[x].run, r => FailedRow(r, now, p.attempts, p.maxAttempts, p.retryable, backoff))
    case Cancel(id) => Put(s.rows, id, r => CancelledRow(r, now))
    case Purge(cutoff) => Purged(s.rows, cutoff)
    case _ => s.rows
  }

  /** The transaction commits; otherwise the unique index rejects it and nothing is written. */
  ghost predicate Commits(cfg: Config, s: Sys, e: Event)
    requires Enabled(s, e)
  {
    UniqueActive(Asked(cfg, s, e))
  }

  // ---- what happens to the executions and locks ----

  /** The execution leaves the lock block (or dies): a lock it holds is released. */
  ghost function Unlocked(s: Sys, x: ExecId): map<int, ExecId>
    requires x in s.execs
  {
    var ex := s.execs[x];
    if ex.phase.Holding() && ex.lock.Some? then s.locks - {ex.lock.value} else s.locks
  }

  ghost function Gone(s: Sys, x: ExecId): Sys
    requires x in s.execs
  {
    s.(locks := Unlocked(s, x), execs := s.execs - {x})
  }

  ghost function To(s: Sys, x: ExecId, p: Phase): Sys
    requires x in s.execs
  {
    s.(execs := s.execs[x := s.execs[x].(phase := p)])
  }

  /** Inside the lock block; the heartbeat thread starts. */
  ghost function Dispatched(s: Sys, x: ExecId): Sys
    requires x in s.execs
  {
    s.(execs := s.execs[x := s.execs[x].(phase := Dispatching, mark := s.clock, lost := 0)])
  }

  /** An exception has left the lock block; fail() is next. */
  ghost function RaisedBy(s: Sys, x: ExecId, retryable: bool): Sys
    requires x in s.execs
  {
    s.(locks := Unlocked(s, x), execs := s.execs[x := s.execs[x].(phase := Phase.Raised(retryable), mark := s.clock)])
  }

  ghost function TryLocked(s: Sys, x: ExecId): Sys
    requires x in s.execs
  {
    var lock := s.execs[x].lock;
    if lock.None? then Dispatched(s, x)
    else if lock.value in s.locks then To(s, x, Waiting)
    else Dispatched(s, x).(locks := s.locks[lock.value := x])
  }

  /** The execution whose lease a heartbeat for `id` renews, if it is still alive. */
  ghost function Beaten(s: Sys, id: RunId, worker: string): map<ExecId, Exec> {
    if id in s.rows && Beats(s.rows[id], worker) && id in s.owner && s.owner[id] in s.execs
    && s.execs[s.owner[id]].run == id
    then s.execs[s.owner[id] := s.execs[s.owner[id]].(renewed := s.clock)]
    else s.execs
  }

  /** What a heartbeat makes of the executions: the owner's lease is renewed, and the thread that beat waits again. */
  ghost function Beating(s: Sys, x: ExecId, delivered: bool): map<ExecId, Exec>
    requires x in s.execs
  {
    if delivered
    then
      var execs := Beaten(s, s.execs[x].run, s.execs[x].worker);
      execs[x := execs[x].(mark := s.clock, lost := 0)]
    else s.execs[x := s.execs[x].(mark := s.clock, lost := s.execs[x].lost + 1)]
  }

  /** Does this write put a failed run back into the queue? */
  ghost predicate FailRequeues(s: Sys, e: Event)
    requires Enabled(s, e)
  {
    e.FailWrite? && s.execs[e.x].run in s.rows &&
    var p := s.execs[e.x].phase; Retries(p.attempts, p.maxAttempts, p.retryable)
  }

  ghost function Logged(s: Sys, e: Event): map<RunId, History>
    requires Enabled(s, e)
  {
    if e.Enqueue? then s.log[e.id := History(NewRow(e.spec, s.clock).spec, 0)]
    else if FailRequeues(s, e) && s.execs[e.x].run in s.log then
      var h := s.log[s.execs[e.x].run];
      s.log[s.execs[e.x].run := h.(failRequeues := h.failRequeues + 1)]
    else s.log
  }

  /** Executions, locks and clock after a step whose write went through. */
  ghost function Control(cfg: Config, s: Sys, e: Event): Sys
    requires Enabled(s, e)
  {
    match e
    case Tick(dt) => s.(clock := s.clock + dt)
    case Acquire(x, id, worker, _) =>
      var exec := Exec(id, worker, s.rows[id].spec, LockNo(cfg, s.rows[id].spec), Claimed, s.clock, s.clock, 0);
      s.(execs := s.execs[x := exec], owner := s.owner[id := x])
    case Heartbeat(id, worker) => s.(execs := Beaten(s, id, worker))
    case Beat(x, delivered) => s.(execs := Beating(s, x, delivered))
    case TryLock(x) => TryLocked(s, x)
    case Requeue(x, _) => Gone(s, x)
    case Complete(x) => To(s, x, Closing)
    case Release(x) => Gone(s, x)
    case Raise(x, retryable) => RaisedBy(s, x, retryable)
    case CloseError(x) => RaisedBy(s, x, true)
    case FailRead(x) =>
      // an unknown run raises again, and the execution ends
      if s.execs[x].run in s.rows
      then To(s, x,
              FailReady(s.rows[s.execs[x].run].attempts, s.rows[s.execs[x].run].spec.maxAttempts,
                        s.execs[x].phase.retryable))
      else Gone(s, x)
    case FailWrite(x, _) => Gone(s, x)
    case Crash(x) => Gone(s, x)
    case _ => s
  }

  /** Executions and locks when the unique index rejected the write. */
  ghost function Rejected(s: Sys, e: Event): Sys
    requires Enabled(s, e)
  {
    match e
    case Requeue(x, _) => RaisedBy(s, x, true)
    case FailWrite(x, _) => Gone(s, x)
    case _ => s
  }

  ghost function Next(cfg: Config, s: Sys, e: Event): Sys
    requires Enabled(s, e)
  {
    if Commits(cfg, s, e)
    then Control(cfg, s, e).(rows := Asked(cfg, s, e), log := Logged(s, e))
    else Rejected(s, e)
  }

  // ---- ownership ----

  /** `x` is the execution that acquired its run last, and the run has not left `running` since. */
  ghost predicate Owns(s: Sys, x: ExecId) {
    x in s.execs && var id := s.execs[x].run;
    id in s.rows && s.rows[id].status == Running && id in s.owner && s.owner[id] == x
  }

  predicate Finishing(e: Event) { e.Requeue? || e.Complete? || e.FailWrite? }

  /** The ownership hypothesis: a finishing write targets a run its execution still owns, a cancel an active run. */
  ghost predicate Owned(s: Sys, e: Event) {
    && (Finishing(e) ==> Owns(s, e.x))
    && (e.Cancel? ==> e.id !in s.rows || s.rows[e.id].status.Active())
  }

  // ---- leases ----

  /** `_job_lease_seconds`: the configured value, when it parses as an integer. */
  function JobLeaseSeconds(configured: Option<int>): int {
    if configured.Some? then Max(30, configured.value) else 300
  }

  /** The pause between two heartbeats of an execution. */
  function HeartbeatInterval(lease: int): int { Max(10, lease / 3) }

  /**
   The timing hypothesis: no live execution outlives the last lease written for it, nobody cancels, and leaving the lock
   block after a commit does not raise.
   */
  ghost predicate Timely(cfg: Config, s: Sys, e: Event) {
    match e
    case Tick(dt) =>
      forall x | x in s.execs && !s.execs[x].phase.Closing? :: s.clock + dt <= s.execs[x].renewed + cfg.lease
    case Cancel(_) => false
    case CloseError(_) => false
    case _ => true
  }

  /**
   How long things take: from the acquire to the lock or the requeue, a heartbeat beyond its interval, from an exception
   to the end of fail(), and how many heartbeats in a row may be lost. A heartbeat that raises ends its thread, so all
   later ones are lost with it; the model also has runs in which a later one gets through.
   */
  datatype Pace = Pace(setup: nat, latency: nat, failing: nat, lost: nat)

  /** The time by which an execution takes its next step. */
  ghost function Deadline(cfg: Config, pace: Pace, ex: Exec): Time {
    match ex.phase
    case Claimed | Waiting => ex.mark + pace.setup
    case Dispatching => ex.mark + HeartbeatInterval(cfg.lease) + pace.latency
    case _ => ex.mark + pace.failing
  }

  /** The pace is kept: no deadline passes, a heartbeat waits for its interval, and not too many are lost in a row. */
  ghost predicate Paced(cfg: Config, pace: Pace, s: Sys, e: Event) {
    match e
    case Tick(dt) => forall x | x in s.execs && !s.execs[x].phase.Closing? ::
        s.clock + dt <= Deadline(cfg, pace, s.execs[x])
    case Beat(x, delivered) =>
      x in s.execs && s.execs[x].mark + HeartbeatInterval(cfg.lease) <= s.clock
      && (delivered || s.execs[x].lost < pace.lost)
    case Cancel(_) => false
    case CloseError(_) => false
    case _ => true
  }

  // ---- runs ----

  datatype Rule = AnyStep | OwnedSteps | TimelySteps | PacedSteps(pace: Pace)

  ghost predicate Permits(cfg: Config, rule: Rule, s: Sys, e: Event) {
    match rule
    case AnyStep => true
    case OwnedSteps => Owned(s, e)
    case TimelySteps => Timely(cfg, s, e)
    case PacedSteps(pace) => Paced(cfg, pace, s, e)
  }

  /** Every step of `evs` is enabled, and allowed by `rule`, where it happens. */
  ghost predicate Legal(cfg: Config, rule: Rule, s: Sys, evs: seq<Event>)
    decreases |evs|, 0
  {
    evs == [] ||
    var n := |evs| - 1;
    Legal(cfg, rule, s, evs[..n]) &&
    var m := After(cfg, rule, s, evs[..n]);
    Enabled(m, evs[n]) && Permits(cfg, rule, m, evs[n])
  }

  /** The state the run `evs` ends in. */
  ghost function After(cfg: Config, rule: Rule, s: Sys, evs: seq<Event>): Sys
    requires Legal(cfg, rule, s, evs)
    decreases |evs|, 1
  {
    if evs == [] then s
    else var n := |evs| - 1; Next(cfg, After(cfg, rule, s, evs[..n]), evs[n])
  }
}
