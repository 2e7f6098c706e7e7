/** The retry budget: how often `fail` can send a run back to the queue. */
module QueueAttempts {
  import opened Wrappers
  import opened JobRuns
  import opened QueueProtocol
  import opened QueueSafety

  /** Whenever fail() writes to a row, the attempt state it has read is the row's. */
  ghost predicate AtomicFail(s: Sys, e: Event)
    requires Enabled(s, e)
  {
    e.FailWrite? && s.execs[e.x].run in s.rows ==>
      s.execs[e.x].phase.attempts == s.rows[s.execs[e.x].run].attempts
      && s.execs[e.x].phase.maxAttempts == s.rows[s.execs[e.x].run].spec.maxAttempts
  }

  /** Every fail() of the run is atomic in this sense. */
  ghost predicate AtomicFails(cfg: Config, rule: Rule, evs: seq<Event>)
    requires Legal(cfg, rule, INIT, evs)
    decreases |evs|
  {
    evs == [] ||
    var n := |evs| - 1;
    AtomicFails(cfg, rule, evs[..n]) && AtomicFail(After(cfg, rule, INIT, evs[..n]), evs[n])
  }

  /** No run went back into the queue more often than it counted attempts, nor as often as it may be attempted. */
  ghost predicate Budget(s: Sys) {
    && (forall id | id in s.log :: s.log[id].failRequeues < s.log[id].spec.maxAttempts)
    && (forall id | id in s.rows ::
          && id in s.log && s.log[id].spec == s.rows[id].spec
          && s.log[id].failRequeues <= s.rows[id].attempts)
  }

  /** Any step, owned or not, inserts a row, or keeps its spec and lets only `fail` count an attempt. */
  lemma AttemptStep(cfg: Config, s: Sys, e: Event, id: RunId)
    requires Enabled(s, e) && id in Asked(cfg, s, e)
    ensures var r := Asked(cfg, s, e)[id];
            || (e.Enqueue? && e.id == id && r == NewRow(e.spec, s.clock))
            || (&& id in s.rows && r.spec == s.rows[id].spec
                && (r.attempts == s.rows[id].attempts || (e.FailWrite? && s.execs[e.x].run == id)))
  {
  }

  lemma BudgetOfFail(cfg: Config, s: Sys, e: Event)
    requires Enabled(s, e) && e.FailWrite? && AtomicFail(s, e) && Budget(s)
    ensures Budget(s.(rows := Asked(cfg, s, e), log := Logged(s, e)))
  {
  }

  lemma BudgetStep(cfg: Config, s: Sys, e: Event)
    requires Enabled(s, e) && AtomicFail(s, e) && s.rows.Keys <= s.log.Keys && Budget(s)
    ensures Budget(s.(rows := Asked(cfg, s, e), log := Logged(s, e)))
  {
    if e.FailWrite? {
      BudgetOfFail(cfg, s, e);
    } else {
      forall id | id in Asked(cfg, s, e)
        ensures
          || (e.Enqueue? && e.id == id && Asked(cfg, s, e)[id] == NewRow(e.spec, s.clock))
          || (&& id in s.rows && Asked(cfg, s, e)[id].spec == s.rows[id].spec
              && Asked(cfg, s, e)[id].attempts == s.rows[id].attempts)
      {
        AttemptStep(cfg, s, e, id);
      }
    }
  }

  lemma {:induction false} BudgetAlways(cfg: Config, rule: Rule, evs: seq<Event>)
    requires Legal(cfg, rule, INIT, evs) && AtomicFails(cfg, rule, evs)
    ensures Budget(After(cfg, rule, INIT, evs))
    decreases |evs|
  {
    if evs != [] {
      var n := |evs| - 1;
      BudgetAlways(cfg, rule, evs[..n]);
      InvAlways(cfg, rule, evs[..n]);
      var m := After(cfg, rule, INIT, evs[..n]);
      BudgetStep(cfg, m, evs[n]);
      RejectedKeeps(m, evs[n]);
    }
  }

  /** The times `fail` put the run `id` back into the queue. */
  ghost function FailRequeueCount(cfg: Config, rule: Rule, evs: seq<Event>, id: RunId): nat
    requires Legal(cfg, rule, INIT, evs)
    decreases |evs|
  {
    if evs == [] then 0
    else
      var n := |evs| - 1;
      var m := After(cfg, rule, INIT, evs[..n]);
      FailRequeueCount(cfg, rule, evs[..n], id) +
      if FailRequeues(m, evs[n]) && Commits(cfg, m, evs[n]) && m.execs[evs[n].x].run == id then 1 else 0
  }

  lemma {:induction false} CountIsLogged(cfg: Config, rule: Rule, evs: seq<Event>, id: RunId)
    requires Legal(cfg, rule, INIT, evs)
    ensures var s := After(cfg, rule, INIT, evs);
      FailRequeueCount(cfg, rule, evs, id) == if id in s.log then s.log[id].failRequeues else 0
    decreases |evs|
  {
    if evs != [] {
      var n := |evs| - 1;
      CountIsLogged(cfg, rule, evs[..n], id);
      InvAlways(cfg, rule, evs[..n]);
      RejectedKeeps(After(cfg, rule, INIT, evs[..n]), evs[n]);
    }
  }

  /**
   Over any run with atomic fails, stale executions, reopened rows and purges included, `fail` re-queues a run at most
   max_attempts - 1 times.
   */
  lemma RetriesAreBounded(cfg: Config, rule: Rule, evs: seq<Event>, id: RunId)
    requires Legal(cfg, rule, INIT, evs) && AtomicFails(cfg, rule, evs) && id in After(cfg, rule, INIT, evs).log
    ensures FailRequeueCount(cfg, rule, evs, id) <= After(cfg, rule, INIT, evs).log[id].spec.maxAttempts - 1
  {
    BudgetAlways(cfg, rule, evs);
    CountIsLogged(cfg, rule, evs, id);
  }

  // ---- what the two last steps of a row do ----

  /** A failure that is written: one row, with its retry time. */
  lemma FailWriteRows(cfg: Config, s: Sys, x: ExecId, backoff: Option<int>)
    requires Enabled(s, FailWrite(x, backoff)) && Commits(cfg, s, FailWrite(x, backoff))
    ensures var id, p, t := s.execs[x].run, s.execs[x].phase, Next(cfg, s, FailWrite(x, backoff)).rows;
            if id in s.rows
            then t == s.rows[id := t[id]] &&
                 FailsTo(s.rows[id], t[id], s.clock, p.attempts, p.maxAttempts, p.retryable, backoff)
            else t == s.rows
  {
    if s.execs[x].run in s.rows {
      var p := s.execs[x].phase;
      FailedRowIs(s.rows[s.execs[x].run], s.clock, p.attempts, p.maxAttempts, p.retryable, backoff);
    }
  }

  lemma PurgeRows(cfg: Config, s: Sys, cutoff: Time)
    requires UniqueActive(s.rows)
    ensures var t := Next(cfg, s, Purge(cutoff)).rows;
            && (forall id :: id in t <==> id in s.rows && StaysBeyond(s.rows[id], cutoff))
            && (forall id | id in t :: t[id] == s.rows[id])
  {
  }

  // ---- jobs with a single attempt ----

  /** What fail() has read of a run is its limit, and a run with a single attempt was never put back. */
  ghost predicate SingleAttempts(s: Sys) {
    && (forall x | x in s.execs && s.execs[x].phase.FailReady? ::
          s.execs[x].run in s.log && s.execs[x].phase.maxAttempts == s.log[s.execs[x].run].spec.maxAttempts)
    && (forall id | id in s.rows :: id in s.log && s.log[id].spec == s.rows[id].spec)
    && (forall id | id in s.log && s.log[id].spec.maxAttempts <= 1 :: s.log[id].failRequeues == 0)
  }

  lemma LogKept(s: Sys, e: Event, id: RunId)
    requires Enabled(s, e) && SingleAttempts(s) && id in s.log
    ensures id in Logged(s, e) && Logged(s, e)[id].spec == s.log[id].spec
    ensures s.log[id].spec.maxAttempts <= 1 ==> Logged(s, e)[id] == s.log[id]
  {
  }

  lemma SingleExec(cfg: Config, s: Sys, e: Event, n: Sys, x: ExecId)
    requires Enabled(s, e) && SingleAttempts(s) && (n == Control(cfg, s, e) || n == Rejected(s, e))
    requires x in n.execs && n.execs[x].phase.FailReady?
    ensures n.execs[x].run in s.log && n.execs[x].phase.maxAttempts == s.log[n.execs[x].run].spec.maxAttempts
  {
    SpecsKept(cfg, s, e, n, x);
    if e != FailRead(x) { FailReadyBefore(cfg, s, e, n, x); }
  }

  lemma SingleAttemptsStep(cfg: Config, s: Sys, e: Event)
    requires Enabled(s, e) && SingleAttempts(s)
    ensures SingleAttempts(Next(cfg, s, e))
  {
    var n := Next(cfg, s, e);
    RejectedKeeps(s, e);
    forall id | id in s.log ensures id in n.log && n.log[id].spec == s.log[id].spec { LogKept(s, e, id); }
    forall x | x in n.execs && n.execs[x].phase.FailReady?
      ensures n.execs[x].run in s.log && n.execs[x].phase.maxAttempts == s.log[n.execs[x].run].spec.maxAttempts
    {
      SingleExec(cfg, s, e, if Commits(cfg, s, e) then Control(cfg, s, e) else Rejected(s, e), x);
    }
    if Commits(cfg, s, e) {
      forall id | id in n.rows ensures id in n.log && n.log[id].spec == n.rows[id].spec { AttemptStep(cfg, s, e, id); }
      forall id | id in n.log && n.log[id].spec.maxAttempts <= 1 ensures n.log[id].failRequeues == 0 {
        if id in s.log { LogKept(s, e, id); }
      }
    }
  }

  lemma {:induction false} SingleAttemptsAlways(cfg: Config, rule: Rule, evs: seq<Event>)
    requires Legal(cfg, rule, INIT, evs)
    ensures SingleAttempts(After(cfg, rule, INIT, evs))
    decreases |evs|
  {
    if evs != [] {
      SingleAttemptsAlways(cfg, rule, evs[..|evs| - 1]);
      SingleAttemptsStep(cfg, After(cfg, rule, INIT, evs[..|evs| - 1]), evs[|evs| - 1]);
    }
  }

  // ---- owned runs have atomic fails ----

  /** An execution that owns its run and has read the attempt state has read the row's. */
  ghost predicate ReadsCurrent(s: Sys, x: ExecId) {
    x in s.execs && s.execs[x].phase.FailReady? && Owns(s, x) ==>
      s.execs[x].phase.attempts == s.rows[s.execs[x].run].attempts
      && s.execs[x].phase.maxAttempts == s.rows[s.execs[x].run].spec.maxAttempts
  }

  lemma ReadsCurrentStep(cfg: Config, s: Sys, e: Event, x: ExecId)
    requires Enabled(s, e) && Owned(s, e) && ReadsCurrent(s, x)
    ensures ReadsCurrent(Next(cfg, s, e), x)
  {
    var n := Next(cfg, s, e);
    RejectedKeeps(s, e);
    if x in n.execs && n.execs[x].phase.FailReady? && Owns(n, x) && e != FailRead(x) {
      OwnsBefore(cfg, s, e, x);
    }
  }

  lemma FailReadyBefore(cfg: Config, s: Sys, e: Event, n: Sys, x: ExecId)
    requires Enabled(s, e) && e != FailRead(x) && (n == Control(cfg, s, e) || n == Rejected(s, e))
    requires x in n.execs && n.execs[x].phase.FailReady?
    ensures x in s.execs && s.execs[x].run == n.execs[x].run && s.execs[x].phase == n.execs[x].phase
    ensures Finishing(e) ==> e.x != x
    ensures n.owner != s.owner ==> e.Acquire? && e.x != x
  {
    SpecsKept(cfg, s, e, n, x);
    match e
    case Heartbeat(_, _) =>
    case Acquire(_, _, _, _) =>
    case Requeue(_, _) =>
    case FailWrite(_, _) =>
    case _ =>
  }

  /** Ownership begins with an acquire only, and while it lasts nobody else counts an attempt. */
  lemma OwnsBefore(cfg: Config, s: Sys, e: Event, x: ExecId)
    requires Enabled(s, e) && Owned(s, e) && e != FailRead(x)
    requires var n := Next(cfg, s, e); Owns(n, x) && n.execs[x].phase.FailReady?
    ensures Owns(s, x) && var n := Next(cfg, s, e);
      && s.execs[x].run == n.execs[x].run && s.execs[x].phase == n.execs[x].phase
      && s.rows[s.execs[x].run].attempts == n.rows[s.execs[x].run].attempts
      && s.rows[s.execs[x].run].spec == n.rows[s.execs[x].run].spec
  {
    RejectedKeeps(s, e);
    if Commits(cfg, s, e) {
      FailReadyBefore(cfg, s, e, Control(cfg, s, e), x);
      RowStep(cfg, s, e, s.execs[x].run);
      RunningBefore(cfg, s, e, s.execs[x].run);
    } else {
      FailReadyBefore(cfg, s, e, Rejected(s, e), x);
    }
  }

  /** So nothing has to be assumed about fails where finishing writes are owned. */
  lemma {:induction false} OwnedFailsAreAtomic(cfg: Config, evs: seq<Event>)
    requires Legal(cfg, OwnedSteps, INIT, evs)
    ensures AtomicFails(cfg, OwnedSteps, evs)
    ensures forall x :: ReadsCurrent(After(cfg, OwnedSteps, INIT, evs), x)
    decreases |evs|
  {
    if evs != [] {
      var n := |evs| - 1;
      OwnedFailsAreAtomic(cfg, evs[..n]);
      var m := After(cfg, OwnedSteps, INIT, evs[..n]);
      if evs[n].FailWrite? { assert ReadsCurrent(m, evs[n].x); }
      forall x ensures ReadsCurrent(After(cfg, OwnedSteps, INIT, evs), x) {
        ReadsCurrentStep(cfg, m, evs[n], x);
      }
    }
  }

  lemma OwnedRetriesAreBounded(cfg: Config, evs: seq<Event>, id: RunId)
    requires Legal(cfg, OwnedSteps, INIT, evs) && id in After(cfg, OwnedSteps, INIT, evs).log
    ensures FailRequeueCount(cfg, OwnedSteps, evs, id) <= After(cfg, OwnedSteps, INIT, evs).log[id].spec.maxAttempts - 1
  {
    OwnedFailsAreAtomic(cfg, evs);
    RetriesAreBounded(cfg, OwnedSteps, evs, id);
  }
}
