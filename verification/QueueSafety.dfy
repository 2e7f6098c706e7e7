/** What every run of the job queue keeps, with and without the ownership hypothesis. */
module QueueSafety {
  import opened Wrappers
  import opened JobRuns
  import opened QueueProtocol

  // ---- invariants of every step, owned or not ----

  ghost predicate AllShaped(t: Table, now: Time) {
    forall id | id in t :: Shape(t[id], now)
  }

  /** A held lock belongs to exactly one execution, and that execution is inside its lock block. */
  ghost predicate LocksMatch(execs: map<ExecId, Exec>, locks: map<int, ExecId>) {
    && (forall x | x in execs && execs[x].phase.Holding() && execs[x].lock.Some? ::
          execs[x].lock.value in locks && locks[execs[x].lock.value] == x)
    && (forall h | h in locks ::
          locks[h] in execs && execs[locks[h]].phase.Holding() && execs[locks[h]].lock == Some(h))
  }

  ghost predicate LockNumbers(cfg: Config, execs: map<ExecId, Exec>) {
    forall x | x in execs :: execs[x].lock == LockNo(cfg, execs[x].spec)
  }

  ghost predicate OwnersKnown(s: Sys) {
    forall id | id in s.rows && s.rows[id].status == Running :: id in s.owner
  }

  ghost predicate Inv(cfg: Config, s: Sys) {
    && UniqueActive(s.rows) && AllShaped(s.rows, s.clock)
    && LocksMatch(s.execs, s.locks) && LockNumbers(cfg, s.execs)
    && s.rows.Keys <= s.log.Keys && OwnersKnown(s)
  }

  lemma ShapedStep(cfg: Config, s: Sys, e: Event)
    requires Enabled(s, e) && AllShaped(s.rows, s.clock)
    ensures AllShaped(Asked(cfg, s, e), Control(cfg, s, e).clock)
  {
    if e.Recover? {
      forall id | id in s.rows ensures Shape(RecoverAll(s.rows, s.clock)[id], s.clock) {
        assert Shape(s.rows[id], s.clock);
      }
    }
  }

  /** Leaving the lock block, by ending or by moving to a phase outside it, gives back just the own lock. */
  lemma LocksLeave(s: Sys, x: ExecId, execs: map<ExecId, Exec>)
    requires LocksMatch(s.execs, s.locks) && x in s.execs
    requires execs.Keys <= s.execs.Keys && forall y | y in s.execs && y != x :: y in execs && execs[y] == s.execs[y]
    requires x in execs ==> !execs[x].phase.Holding()
    ensures LocksMatch(execs, Unlocked(s, x))
  {
    forall h | h in Unlocked(s, x) ensures s.locks[h] != x {
      assert h in s.locks;
    }
  }

  /** An execution outside every lock block holds no lock, and moves on without taking one. */
  lemma LocksUnheld(s: Sys, x: ExecId, ex: Exec)
    requires LocksMatch(s.execs, s.locks) && x in s.execs && s.execs[x].phase.Claimed?
    requires ex.lock == s.execs[x].lock && (ex.phase.Holding() ==> ex.lock.None?)
    ensures LocksMatch(s.execs[x := ex], s.locks)
  {
    assert forall h | h in s.locks :: s.locks[h] != x;
  }

  lemma LocksTaken(s: Sys, x: ExecId, ex: Exec)
    requires LocksMatch(s.execs, s.locks) && x in s.execs && s.execs[x].phase.Claimed?
    requires ex.phase.Holding() && ex.lock.Some? && ex.lock.value !in s.locks
    ensures LocksMatch(s.execs[x := ex], s.locks[ex.lock.value := x])
  {
    assert forall h | h in s.locks :: s.locks[h] != x;
  }

  lemma LocksTry(s: Sys, x: ExecId)
    requires LocksMatch(s.execs, s.locks) && x in s.execs && s.execs[x].phase.Claimed?
    ensures LocksMatch(TryLocked(s, x).execs, TryLocked(s, x).locks)
  {
    var ex := TryLocked(s, x).execs[x];
    if ex.lock.Some? && ex.lock.value !in s.locks { LocksTaken(s, x, ex); } else { LocksUnheld(s, x, ex); }
  }

  /** The steps that take an execution out of its lock block, or end it. */
  predicate Leaves(e: Event) {
    e.Requeue? || e.Release? || e.Raise? || e.CloseError? || e.FailRead? || e.FailWrite? || e.Crash?
  }

  lemma LocksLeaving(cfg: Config, s: Sys, e: Event)
    requires Enabled(s, e) && Leaves(e) && LocksMatch(s.execs, s.locks)
    ensures LocksMatch(Control(cfg, s, e).execs, Control(cfg, s, e).locks)
  {
    LocksLeave(s, e.x, Control(cfg, s, e).execs);
  }

  /**
   Executions that are neither inside a lock block before nor after, or inside one both times, leave the locks alone.
   */
  lemma LocksQuiet(cfg: Config, s: Sys, e: Event)
    requires Enabled(s, e) && !Leaves(e) && !e.TryLock? && LocksMatch(s.execs, s.locks)
    ensures LocksMatch(Control(cfg, s, e).execs, Control(cfg, s, e).locks)
  {
    var n := Control(cfg, s, e);
    forall x | x in n.execs
      ensures x in s.execs ==>
                n.execs[x].phase.Holding() == s.execs[x].phase.Holding() && n.execs[x].lock == s.execs[x].lock
      ensures x !in s.execs ==> !n.execs[x].phase.Holding()
    {
      QuietExec(cfg, s, e, x);
    }
  }

  lemma QuietExec(cfg: Config, s: Sys, e: Event, x: ExecId)
    requires Enabled(s, e) && !Leaves(e) && !e.TryLock? && x in Control(cfg, s, e).execs
    ensures var n := Control(cfg, s, e);
            && n.locks == s.locks && s.execs.Keys <= n.execs.Keys
            && if x in s.execs
               then n.execs[x].phase.Holding() == s.execs[x].phase.Holding() && n.execs[x].lock == s.execs[x].lock
               else !n.execs[x].phase.Holding()
  {
  }

  lemma LocksControl(cfg: Config, s: Sys, e: Event)
    requires Enabled(s, e) && LocksMatch(s.execs, s.locks)
    ensures LocksMatch(Control(cfg, s, e).execs, Control(cfg, s, e).locks)
  {
    if Leaves(e) {
      LocksLeaving(cfg, s, e);
    } else if e.TryLock? {
      LocksTry(s, e.x);
    } else {
      LocksQuiet(cfg, s, e);
    }
  }

  lemma LocksRejected(s: Sys, e: Event)
    requires Enabled(s, e) && LocksMatch(s.execs, s.locks)
    ensures LocksMatch(Rejected(s, e).execs, Rejected(s, e).locks)
  {
    if e.FailWrite? { LocksLeave(s, e.x, s.execs - {e.x}); }
  }

  /** A row begins to run only in an acquire, which records its execution. */
  lemma RunningBefore(cfg: Config, s: Sys, e: Event, id: RunId)
    requires Enabled(s, e) && id in Asked(cfg, s, e) && Asked(cfg, s, e)[id].status == Running
    ensures (id in s.rows && s.rows[id].status == Running) || (e.Acquire? && e.id == id)
    ensures e.Acquire? && e.id == id ==> id in Control(cfg, s, e).owner && Control(cfg, s, e).owner[id] == e.x
    ensures id in s.owner ==> id in Control(cfg, s, e).owner
  {
  }

  lemma OwnersStep(cfg: Config, s: Sys, e: Event)
    requires Enabled(s, e) && OwnersKnown(s)
    ensures OwnersKnown(Control(cfg, s, e).(rows := Asked(cfg, s, e)))
  {
    forall id | id in Asked(cfg, s, e) && Asked(cfg, s, e)[id].status == Running
      ensures id in Control(cfg, s, e).owner
    {
      RunningBefore(cfg, s, e, id);
    }
  }

  /** What stays of an execution over a step; a new one begins with an acquire. */
  ghost predicate Continues(cfg: Config, s: Sys, e: Event, n: Sys, y: ExecId)
    requires y in n.execs
  {
    if y in s.execs
    then n.execs[y].spec == s.execs[y].spec && n.execs[y].lock == s.execs[y].lock && n.execs[y].run == s.execs[y].run
         && n.execs[y].worker == s.execs[y].worker
    else e.Acquire? && y == e.x && n.execs[y].lock == LockNo(cfg, n.execs[y].spec) && n.execs[y].phase.Claimed?
  }

  /** The steps that move an execution to another phase and keep it. */
  predicate Moves(e: Event) { e.TryLock? || e.Complete? || e.Raise? || e.CloseError? || e.FailRead? }

  /** Nothing changes but phase, mark and lost heartbeats, and the commit is behind it for good unless closing fails. */
  ghost predicate SameExec(s: Sys, e: Event, n: Sys, y: ExecId) {
    && y in s.execs && y in n.execs
    && n.execs[y].(phase := s.execs[y].phase, mark := s.execs[y].mark, lost := s.execs[y].lost) == s.execs[y]
    && (s.execs[y].phase.Closing? && !e.CloseError? ==> n.execs[y].phase.Closing?)
  }

  lemma TryKeeps(s: Sys, e: Event, y: ExecId)
    requires Enabled(s, e) && e.TryLock? && y in s.execs
    ensures SameExec(s, e, TryLocked(s, e.x), y)
  {
  }

  lemma RaiseKeeps(s: Sys, e: Event, y: ExecId, retryable: bool)
    requires Enabled(s, e) && (e.Raise? || e.CloseError?) && y in s.execs
    ensures SameExec(s, e, RaisedBy(s, e.x, retryable), y)
  {
  }

  lemma PhaseKeeps(cfg: Config, s: Sys, e: Event, y: ExecId)
    requires Enabled(s, e) && (e.Complete? || e.FailRead?) && y in s.execs && y in Control(cfg, s, e).execs
    ensures SameExec(s, e, Control(cfg, s, e), y)
  {
  }

  lemma MovesKeep(cfg: Config, s: Sys, e: Event, y: ExecId)
    requires Enabled(s, e) && Moves(e) && y in s.execs && y in Control(cfg, s, e).execs
    ensures SameExec(s, e, Control(cfg, s, e), y)
  {
    match e
    case TryLock(_) => TryKeeps(s, e, y);
    case Raise(_, retryable) => RaiseKeeps(s, e, y, retryable);
    case CloseError(_) => RaiseKeeps(s, e, y, true);
    case _ => PhaseKeeps(cfg, s, e, y);
  }

  lemma MovesAddNone(cfg: Config, s: Sys, e: Event)
    requires Enabled(s, e) && Moves(e)
    ensures Control(cfg, s, e).execs.Keys <= s.execs.Keys
  {
  }

  lemma SpecsOther(cfg: Config, s: Sys, e: Event, y: ExecId)
    requires Enabled(s, e) && !Moves(e) && y in Control(cfg, s, e).execs
    ensures Continues(cfg, s, e, Control(cfg, s, e), y)
  {
  }

  lemma SpecsControl(cfg: Config, s: Sys, e: Event, y: ExecId)
    requires Enabled(s, e) && y in Control(cfg, s, e).execs
    ensures Continues(cfg, s, e, Control(cfg, s, e), y)
  {
    if Moves(e) {
      MovesAddNone(cfg, s, e);
      MovesKeep(cfg, s, e, y);
    } else {
      SpecsOther(cfg, s, e, y);
    }
  }

  lemma SpecsRejected(cfg: Config, s: Sys, e: Event, y: ExecId)
    requires Enabled(s, e) && y in Rejected(s, e).execs
    ensures Continues(cfg, s, e, Rejected(s, e), y)
  {
  }

  /** No step changes the spec or lock number of a live execution; only an acquire starts one. */
  lemma SpecsKept(cfg: Config, s: Sys, e: Event, n: Sys, y: ExecId)
    requires Enabled(s, e) && (n == Control(cfg, s, e) || n == Rejected(s, e)) && y in n.execs
    ensures Continues(cfg, s, e, n, y)
  {
    if n == Control(cfg, s, e) { SpecsControl(cfg, s, e, y); } else { SpecsRejected(cfg, s, e, y); }
  }

  lemma LockNumbersStep(cfg: Config, s: Sys, e: Event, n: Sys)
    requires Enabled(s, e) && LockNumbers(cfg, s.execs) && (n == Control(cfg, s, e) || n == Rejected(s, e))
    ensures LockNumbers(cfg, n.execs)
  {
    forall y | y in n.execs ensures n.execs[y].lock == LockNo(cfg, n.execs[y].spec) {
      SpecsKept(cfg, s, e, n, y);
    }
  }

  lemma RejectedKeeps(s: Sys, e: Event)
    requires Enabled(s, e)
    ensures var n := Rejected(s, e); n.rows == s.rows && n.clock == s.clock && n.log == s.log && n.owner == s.owner
  {
  }

  lemma LogStep(cfg: Config, s: Sys, e: Event)
    requires Enabled(s, e) && s.rows.Keys <= s.log.Keys
    ensures Asked(cfg, s, e).Keys <= Logged(s, e).Keys
  {
  }

  lemma InvStep(cfg: Config, s: Sys, e: Event)
    requires Enabled(s, e) && Inv(cfg, s)
    ensures Inv(cfg, Next(cfg, s, e))
  {
    ShapedStep(cfg, s, e);
    LocksControl(cfg, s, e);
    LocksRejected(s, e);
    OwnersStep(cfg, s, e);
    LockNumbersStep(cfg, s, e, Control(cfg, s, e));
    LockNumbersStep(cfg, s, e, Rejected(s, e));
    LogStep(cfg, s, e);
    var n := Next(cfg, s, e);
    if Commits(cfg, s, e) {
      assert n == Control(cfg, s, e).(rows := Asked(cfg, s, e), log := Logged(s, e));
    } else {
      RejectedKeeps(s, e);
    }
  }

  /** Every state of every run, owned or not, satisfies the invariant. */
  lemma {:induction false} InvAlways(cfg: Config, rule: Rule, evs: seq<Event>)
    requires Legal(cfg, rule, INIT, evs)
    ensures Inv(cfg, After(cfg, rule, INIT, evs))
    decreases |evs|
  {
    if evs != [] {
      var n := |evs| - 1;
      InvAlways(cfg, rule, evs[..n]);
      InvStep(cfg, After(cfg, rule, INIT, evs[..n]), evs[n]);
    }
  }

  // ---- owners ----

  /** Unless the owner of the run has died, it works on the run, under the name in the row, and has not committed. */
  ghost predicate OwnerFits(s: Sys, id: RunId)
    requires id in s.rows && id in s.owner
  {
    s.owner[id] in s.execs ==>
      var ex := s.execs[s.owner[id]];
      ex.run == id && s.rows[id].workerId == Some(ex.worker) && !ex.phase.Closing?
  }

  ghost predicate OwnersFit(s: Sys) {
    forall id | id in s.rows && s.rows[id].status == Running && id in s.owner :: OwnerFits(s, id)
  }

  lemma WorkerKept(cfg: Config, s: Sys, e: Event, id: RunId)
    requires Enabled(s, e) && id in s.rows && s.rows[id].status == Running && s.rows.Keys <= s.log.Keys
    requires id in Asked(cfg, s, e) && Asked(cfg, s, e)[id].status == Running
    ensures Asked(cfg, s, e)[id].workerId == s.rows[id].workerId && (e.Acquire? ==> e.id != id)
    ensures e.Complete? ==> s.execs[e.x].run != id
  {
  }

  /** Only complete() takes an execution to its commit. */
  lemma ClosingBefore(cfg: Config, s: Sys, e: Event, n: Sys, y: ExecId)
    requires Enabled(s, e) && (n == Control(cfg, s, e) || n == Rejected(s, e)) && y in s.execs && y in n.execs
    requires n.execs[y].phase.Closing?
    ensures s.execs[y].phase.Closing? || e == Complete(y)
  {
  }

  lemma OwnersKept(cfg: Config, s: Sys, e: Event, id: RunId)
    requires Enabled(s, e) && id in s.owner && (e.Acquire? ==> e.id != id)
    ensures id in Control(cfg, s, e).owner && Control(cfg, s, e).owner[id] == s.owner[id]
  {
  }

  lemma OwnerStays(cfg: Config, s: Sys, e: Event, id: RunId)
    requires Enabled(s, e) && Inv(cfg, s) && OwnersFit(s) && id in Asked(cfg, s, e)
    requires Asked(cfg, s, e)[id].status == Running && id in s.rows && s.rows[id].status == Running
    ensures var n := Control(cfg, s, e).(rows := Asked(cfg, s, e)); id in n.owner && OwnerFits(n, id)
  {
    var n := Control(cfg, s, e);
    WorkerKept(cfg, s, e, id);
    OwnersKept(cfg, s, e, id);
    assert OwnerFits(s, id);
    if n.owner[id] in n.execs {
      SpecsKept(cfg, s, e, n, n.owner[id]);
      if n.execs[n.owner[id]].phase.Closing? { ClosingBefore(cfg, s, e, n, n.owner[id]); }
    }
  }

  lemma OwnerRejected(cfg: Config, s: Sys, e: Event, id: RunId)
    requires Enabled(s, e) && OwnersFit(s) && id in s.rows && s.rows[id].status == Running && id in s.owner
    ensures id in Rejected(s, e).rows && id in Rejected(s, e).owner && OwnerFits(Rejected(s, e), id)
  {
    var n := Rejected(s, e);
    RejectedKeeps(s, e);
    assert OwnerFits(s, id);
    if n.owner[id] in n.execs {
      SpecsKept(cfg, s, e, n, n.owner[id]);
      if n.execs[n.owner[id]].phase.Closing? { ClosingBefore(cfg, s, e, n, n.owner[id]); }
    }
  }

  lemma OwnersFitStep(cfg: Config, s: Sys, e: Event)
    requires Enabled(s, e) && Inv(cfg, s) && OwnersFit(s)
    ensures OwnersFit(Next(cfg, s, e))
  {
    var n := Next(cfg, s, e);
    RejectedKeeps(s, e);
    forall id | id in n.rows && n.rows[id].status == Running && id in n.owner ensures OwnerFits(n, id) {
      if Commits(cfg, s, e) {
        RunningBefore(cfg, s, e, id);
        if e.Acquire? && e.id == id {
          assert n.owner[id] == e.x;
        } else {
          OwnerStays(cfg, s, e, id);
        }
      } else {
        OwnerRejected(cfg, s, e, id);
      }
    }
  }

  /** In every run, owned or not, whoever acquired a running row last is dead or working on just that row. */
  lemma {:induction false} OwnersFitAlways(cfg: Config, rule: Rule, evs: seq<Event>)
    requires Legal(cfg, rule, INIT, evs)
    ensures var s := After(cfg, rule, INIT, evs);
            OwnersFit(s) && forall id | id in s.rows && s.rows[id].status == Running :: id in s.owner
    decreases |evs|
  {
    InvAlways(cfg, rule, evs);
    if evs != [] {
      var n := |evs| - 1;
      OwnersFitAlways(cfg, rule, evs[..n]);
      InvAlways(cfg, rule, evs[..n]);
      OwnersFitStep(cfg, After(cfg, rule, INIT, evs[..n]), evs[n]);
    }
  }

  // ---- mutual exclusion: holds with stale executions too ----

  /** Two executions inside their lock blocks under one concurrency key are the same execution. */
  lemma OneDispatchPerKey(cfg: Config, rule: Rule, evs: seq<Event>, x: ExecId, y: ExecId)
    requires Legal(cfg, rule, INIT, evs)
    requires var s := After(cfg, rule, INIT, evs);
      && x in s.execs && y in s.execs && s.execs[x].phase.Holding() && s.execs[y].phase.Holding()
      && s.execs[x].spec.concurrencyKey == s.execs[y].spec.concurrencyKey
      && s.execs[x].spec.concurrencyKey.Some? && s.execs[x].spec.concurrencyKey.value != ""
    ensures x == y
  {
    InvAlways(cfg, rule, evs);
    var s := After(cfg, rule, INIT, evs);
    assert s.execs[x].lock == LockNo(cfg, s.execs[x].spec) == s.execs[y].lock;
  }

  /** Jobs that write one date never overlap, whatever their types and however often a lease was lost. */
  lemma DateJobsNeverOverlap(cfg: Config, rule: Rule, evs: seq<Event>, x: ExecId, y: ExecId, date: string)
    requires Legal(cfg, rule, INIT, evs) && date != ""
    requires var s := After(cfg, rule, INIT, evs);
      && x in s.execs && y in s.execs
      && forall z | z in {x, y} ::
           var ex := s.execs[z];
           && ex.phase.Holding() && WritesDate(ex.spec.jobType) && ex.spec.date == Some(date)
           && ex.spec.concurrencyKey == JobConcurrencyKey(ex.spec.jobType, ex.spec.date)
    ensures x == y
  {
    var s := After(cfg, rule, INIT, evs);
    assert s.execs[x].spec.concurrencyKey == Some("date-write:" + date);
    assert s.execs[y].spec.concurrencyKey == Some("date-write:" + date);
    assert ("date-write:" + date)[0] == 'd';
    OneDispatchPerKey(cfg, rule, evs, x, y);
  }

  /** Nor do two master syncs. */
  lemma MasterSyncsNeverOverlap(cfg: Config, rule: Rule, evs: seq<Event>, x: ExecId, y: ExecId)
    requires Legal(cfg, rule, INIT, evs)
    requires var s := After(cfg, rule, INIT, evs);
      && x in s.execs && y in s.execs
      && forall z | z in {x, y} ::
           var ex := s.execs[z];
           && ex.phase.Holding() && ex.spec.jobType == "master_sync"
           && ex.spec.concurrencyKey == JobConcurrencyKey(ex.spec.jobType, ex.spec.date)
    ensures x == y
  {
    var s := After(cfg, rule, INIT, evs);
    assert s.execs[x].spec.concurrencyKey == Some("master-sync") == s.execs[y].spec.concurrencyKey;
    OneDispatchPerKey(cfg, rule, evs, x, y);
  }

  /** No running row is orphaned: it has a lease, and once that has passed, recovery makes it claimable. */
  lemma RunningRowsAreRecoverable(cfg: Config, rule: Rule, evs: seq<Event>, id: RunId, now: Time)
    requires Legal(cfg, rule, INIT, evs)
    requires var s := After(cfg, rule, INIT, evs); id in s.rows && s.rows[id].status == Running && s.clock <= now
    ensures var r := After(cfg, rule, INIT, evs).rows[id];
      && r.lockedUntil.Some? && r.workerId.Some? && r.startedAt.Some?
      && (r.lockedUntil.value < now <==> Stale(r, now))
      && (r.lockedUntil.value < now ==> Eligible(RecoverAll(After(cfg, rule, INIT, evs).rows, now)[id], now))
  {
    InvAlways(cfg, rule, evs);
    assert Shape(After(cfg, rule, INIT, evs).rows[id], After(cfg, rule, INIT, evs).clock);
  }

  // ---- the unique index ----

  /** Under the ownership hypothesis no write but an insert can ask for a table the unique index forbids. */
  lemma OnlyInsertsHitTheIndex(cfg: Config, s: Sys, e: Event)
    requires Enabled(s, e) && Inv(cfg, s) && Owned(s, e)
    ensures !Commits(cfg, s, e) <==> e.Enqueue? && KeyTaken(s.rows, e.id, e.spec.dedupeKey)
  {
    var t := Asked(cfg, s, e);
    if e.Enqueue? {
      InsertConflict(s.rows, e.id, e.spec, s.clock);
    } else {
      forall id | id in t && t[id].status.Active()
        ensures id in s.rows && s.rows[id].status.Active() && s.rows[id].spec == t[id].spec
      {
        RowStep(cfg, s, e, id);
      }
    }
  }

  lemma InsertConflict(t: Table, id: RunId, spec: JobSpec, now: Time)
    requires UniqueActive(t) && id !in t
    ensures UniqueActive(t[id := NewRow(spec, now)]) <==> !KeyTaken(t, id, spec.dedupeKey)
  {
    var t' := t[id := NewRow(spec, now)];
    if KeyTaken(t, id, spec.dedupeKey) {
      var j :| j in t && j != id && t[j].status.Active() && t[j].spec.dedupeKey == spec.dedupeKey;
      assert SameActiveKey(t'[id], t'[j]);
    }
  }

  /** An owned step inserts a row, or keeps its spec, never makes it active again, and only `fail` counts an attempt. */
  lemma RowStep(cfg: Config, s: Sys, e: Event, id: RunId)
    requires Enabled(s, e) && Owned(s, e) && id in Asked(cfg, s, e)
    ensures var r := Asked(cfg, s, e)[id];
      (e.Enqueue? && e.id == id && r == NewRow(e.spec, s.clock)) ||
      (&& id in s.rows && r.spec == s.rows[id].spec
       && (r.status.Active() ==> s.rows[id].status.Active())
       && (r.attempts == s.rows[id].attempts || (e.FailWrite? && s.execs[e.x].run == id)))
  {
  }

  /** In every reachable state at most one active run carries a dedupe key. */
  lemma OneActiveRunPerDedupeKey(cfg: Config, rule: Rule, evs: seq<Event>, i: RunId, j: RunId)
    requires Legal(cfg, rule, INIT, evs)
    requires var t := After(cfg, rule, INIT, evs).rows;
      && i in t && j in t && t[i].status.Active() && t[j].status.Active()
      && t[i].spec.dedupeKey.Some? && t[i].spec.dedupeKey == t[j].spec.dedupeKey
    ensures i == j
  {
    InvAlways(cfg, rule, evs);
    var t := After(cfg, rule, INIT, evs).rows;
    assert SameActiveKey(t[i], t[j]);
  }
}
