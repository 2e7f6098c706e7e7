/** Concrete runs in which the protocol does what the hypotheses of the theorems exclude. */
module QueueRuns {
  import opened Wrappers
  import opened JobRuns
  import opened QueueProtocol
  import opened QueueSafety
  import opened QueueAttempts

  lemma Extend(cfg: Config, rule: Rule, evs: seq<Event>, s: Sys, e: Event)
    requires Legal(cfg, rule, INIT, evs) && After(cfg, rule, INIT, evs) == s && Enabled(s, e)
             && Permits(cfg, rule, s, e)
    ensures Legal(cfg, rule, INIT, evs + [e]) && After(cfg, rule, INIT, evs + [e]) == Next(cfg, s, e)
  {
    var more := evs + [e];
    assert more[..|more| - 1] == evs && more[|more| - 1] == e;
  }

  /** A table with one row never conflicts with itself. */
  lemma OneRowCommits(t: Table, id: RunId)
    requires t.Keys <= {id}
    ensures UniqueActive(t)
  {
  }

  /** Where a step whose write goes through leads. */
  ghost function Done(cfg: Config, s: Sys, e: Event): Sys
    requires Enabled(s, e)
  {
    Control(cfg, s, e).(rows := Asked(cfg, s, e), log := Logged(s, e))
  }

  lemma Step(cfg: Config, rule: Rule, evs: seq<Event>, s: Sys, e: Event, id: RunId) returns (n: Sys)
    requires Legal(cfg, rule, INIT, evs) && After(cfg, rule, INIT, evs) == s
    requires Enabled(s, e) && Permits(cfg, rule, s, e) && Asked(cfg, s, e).Keys <= {id}
    ensures Legal(cfg, rule, INIT, evs + [e]) && After(cfg, rule, INIT, evs + [e]) == n
    ensures n == Done(cfg, s, e)
  {
    Extend(cfg, rule, evs, s, e);
    OneRowCommits(Asked(cfg, s, e), id);
    n := Next(cfg, s, e);
  }

  ghost function JustQueued(id: RunId, spec: JobSpec): Sys {
    Sys(map[id := NewRow(spec, 0)], 0, map[], map[], map[], map[id := History(spec, 0)])
  }

  lemma ReachQueued(cfg: Config, rule: Rule, id: RunId, spec: JobSpec) returns (evs: seq<Event>)
    requires (rule.AnyStep? || rule.PacedSteps?) && spec.maxAttempts >= 1
    ensures Legal(cfg, rule, INIT, evs) && After(cfg, rule, INIT, evs) == JustQueued(id, spec)
  {
    var s := Step(cfg, rule, [], INIT, Enqueue(id, spec), id);
    evs := [] + [Enqueue(id, spec)];
  }

  /** The first execution has acquired the run. */
  ghost function JustAcquired(cfg: Config, id: RunId, w: string, spec: JobSpec): Sys {
    Sys(map[id := Acquired(NewRow(spec, 0), 0, w, cfg.lease)], 0,
        map[0 := Exec(id, w, spec, None, Claimed, 0, 0, 0)], map[], map[id := 0],
        map[id := History(spec, 0)])
  }

  lemma AcquireState(cfg: Config, id: RunId, w: string, spec: JobSpec)
    requires spec.maxAttempts >= 1 && spec.concurrencyKey.None?
    ensures var s, e := JustQueued(id, spec), Acquire(0, id, w, {});
            && Enabled(s, e) && Asked(cfg, s, e).Keys <= {id}
            && Done(cfg, s, e) == JustAcquired(cfg, id, w, spec)
  {
  }

  lemma ReachAcquired(cfg: Config, rule: Rule, id: RunId, w: string, spec: JobSpec) returns (evs: seq<Event>)
    requires (rule.AnyStep? || rule.PacedSteps?) && spec.concurrencyKey.None? && spec.maxAttempts >= 1
    ensures Legal(cfg, rule, INIT, evs) && After(cfg, rule, INIT, evs) == JustAcquired(cfg, id, w, spec)
  {
    var before := ReachQueued(cfg, rule, id, spec);
    AcquireState(cfg, id, w, spec);
    var s := Step(cfg, rule, before, JustQueued(id, spec), Acquire(0, id, w, {}), id);
    evs := before + [Acquire(0, id, w, {})];
  }

  // ---- executions that stall between the two transactions of fail() ----

  /** An execution that has read that no attempt was counted yet. */
  ghost predicate ReadAtZero(ex: Exec, id: RunId, spec: JobSpec) {
    ex.run == id && ex.phase == FailReady(0, spec.maxAttempts, true)
  }

  /**
   `k` executions of the run have read its attempts and not written them; the run is queued again each time.
   */
  ghost predicate Stalled(s: Sys, k: nat, id: RunId, spec: JobSpec) {
    && s.rows.Keys == {id} && s.rows[id].spec == spec && s.rows[id].attempts == 0 && Eligible(s.rows[id], s.clock)
    && (forall x: ExecId :: x in s.execs <==> x < k) && (forall x: ExecId | x < k :: ReadAtZero(s.execs[x], id, spec))
    && (forall j | j in s.owner :: s.owner[j] < k)
    && s.locks == map[] && s.log == map[id := History(spec, 0)]
  }

  /** The next execution of the run is at `phase`, and holds its lock, if it has one, exactly inside the lock block. */
  ghost predicate Working(cfg: Config, s: Sys, k: nat, id: RunId, spec: JobSpec, phase: Phase) {
    && s.rows.Keys == {id} && s.rows[id].spec == spec && s.rows[id].attempts == 0 && s.rows[id].status == Running
    && s.rows[id].lockedUntil.Some?
    && (forall x: ExecId :: x in s.execs <==> x <= k) && (forall x: ExecId | x < k :: ReadAtZero(s.execs[x], id, spec))
    && (forall j | j in s.owner :: s.owner[j] <= k)
    && s.execs[k].run == id && s.execs[k].phase == phase && s.execs[k].lock == LockNo(cfg, spec)
    && s.locks == (if phase.Holding() && LockNo(cfg, spec).Some? then map[LockNo(cfg, spec).value := k] else map[])
    && s.log == map[id := History(spec, 0)]
  }

  lemma QueuedIsStalled(cfg: Config, id: RunId, spec: JobSpec) returns (evs: seq<Event>)
    requires spec.maxAttempts >= 1
    ensures Legal(cfg, AnyStep, INIT, evs) && Stalled(After(cfg, AnyStep, INIT, evs), 0, id, spec)
  {
    evs := ReachQueued(cfg, AnyStep, id, spec);
    assert Stalled(JustQueued(id, spec), 0, id, spec);
  }

  lemma BeginState(cfg: Config, s: Sys, k: nat, id: RunId, w: string, spec: JobSpec)
    requires Stalled(s, k, id, spec)
    ensures var e := Acquire(k, id, w, {});
            Enabled(s, e) && Asked(cfg, s, e).Keys <= {id}
            && Working(cfg, Done(cfg, s, e), k, id, spec, Claimed)
  {
  }

  lemma WorkBegins(cfg: Config, evs: seq<Event>, s: Sys, k: nat, id: RunId, w: string, spec: JobSpec) returns (n: Sys)
    requires Legal(cfg, AnyStep, INIT, evs) && After(cfg, AnyStep, INIT, evs) == s && Stalled(s, k, id, spec)
    ensures Working(cfg, n, k, id, spec, Claimed)
    ensures var e := Acquire(k, id, w, {});
            Legal(cfg, AnyStep, INIT, evs + [e]) && After(cfg, AnyStep, INIT, evs + [e]) == n
  {
    BeginState(cfg, s, k, id, w, spec);
    n := Step(cfg, AnyStep, evs, s, Acquire(k, id, w, {}), id);
  }

  lemma DispatchState(cfg: Config, s: Sys, k: nat, id: RunId, spec: JobSpec)
    requires Working(cfg, s, k, id, spec, Claimed)
    ensures var e := TryLock(k);
            Enabled(s, e) && Asked(cfg, s, e).Keys <= {id}
            && Working(cfg, Done(cfg, s, e), k, id, spec, Dispatching)
  {
  }

  lemma WorkDispatches(cfg: Config, evs: seq<Event>, s: Sys, k: nat, id: RunId, spec: JobSpec) returns (n: Sys)
    requires Legal(cfg, AnyStep, INIT, evs) && After(cfg, AnyStep, INIT, evs) == s
    requires Working(cfg, s, k, id, spec, Claimed)
    ensures Working(cfg, n, k, id, spec, Dispatching)
    ensures Legal(cfg, AnyStep, INIT, evs + [TryLock(k)]) && After(cfg, AnyStep, INIT, evs + [TryLock(k)]) == n
  {
    DispatchState(cfg, s, k, id, spec);
    n := Step(cfg, AnyStep, evs, s, TryLock(k), id);
  }

  lemma RaiseState(cfg: Config, s: Sys, k: nat, id: RunId, spec: JobSpec)
    requires Working(cfg, s, k, id, spec, Dispatching)
    ensures var e := Raise(k, true);
            Enabled(s, e) && Asked(cfg, s, e).Keys <= {id}
            && Working(cfg, Done(cfg, s, e), k, id, spec, Phase.Raised(true))
  {
  }

  lemma WorkRaises(cfg: Config, evs: seq<Event>, s: Sys, k: nat, id: RunId, spec: JobSpec) returns (n: Sys)
    requires Legal(cfg, AnyStep, INIT, evs) && After(cfg, AnyStep, INIT, evs) == s
    requires Working(cfg, s, k, id, spec, Dispatching)
    ensures Working(cfg, n, k, id, spec, Phase.Raised(true))
    ensures Legal(cfg, AnyStep, INIT, evs + [Raise(k, true)]) && After(cfg, AnyStep, INIT, evs + [Raise(k, true)]) == n
  {
    RaiseState(cfg, s, k, id, spec);
    n := Step(cfg, AnyStep, evs, s, Raise(k, true), id);
  }

  lemma ReadState(cfg: Config, s: Sys, k: nat, id: RunId, spec: JobSpec)
    requires Working(cfg, s, k, id, spec, Phase.Raised(true))
    ensures var e := FailRead(k);
            Enabled(s, e) && Asked(cfg, s, e).Keys <= {id}
            && Working(cfg, Done(cfg, s, e), k, id, spec, FailReady(0, spec.maxAttempts, true))
  {
  }

  lemma WorkIsRead(cfg: Config, evs: seq<Event>, s: Sys, k: nat, id: RunId, spec: JobSpec) returns (n: Sys)
    requires Legal(cfg, AnyStep, INIT, evs) && After(cfg, AnyStep, INIT, evs) == s
    requires Working(cfg, s, k, id, spec, Phase.Raised(true))
    ensures Working(cfg, n, k, id, spec, FailReady(0, spec.maxAttempts, true))
    ensures Legal(cfg, AnyStep, INIT, evs + [FailRead(k)]) && After(cfg, AnyStep, INIT, evs + [FailRead(k)]) == n
  {
    ReadState(cfg, s, k, id, spec);
    n := Step(cfg, AnyStep, evs, s, FailRead(k), id);
  }

  ghost predicate Lapsed(cfg: Config, s: Sys, k: nat, id: RunId, spec: JobSpec) {
    Working(cfg, s, k, id, spec, FailReady(0, spec.maxAttempts, true)) && Stale(s.rows[id], s.clock)
    && (s.rows[id].nextRetryAt.Some? ==> s.rows[id].nextRetryAt.value <= s.clock)
  }

  lemma RecoverState(cfg: Config, s: Sys, k: nat, id: RunId, spec: JobSpec)
    requires Lapsed(cfg, s, k, id, spec)
    ensures Asked(cfg, s, Recover).Keys <= {id} && Stalled(Done(cfg, s, Recover), k + 1, id, spec)
  {
    assert ReadAtZero(s.execs[k], id, spec);
  }

  lemma LapseState(cfg: Config, s: Sys, k: nat, id: RunId, spec: JobSpec, dt: nat)
    requires Working(cfg, s, k, id, spec, FailReady(0, spec.maxAttempts, true)) && Shape(s.rows[id], s.clock)
    requires s.clock + dt > s.rows[id].lockedUntil.value
    ensures Asked(cfg, s, Tick(dt)).Keys <= {id} && Lapsed(cfg, Done(cfg, s, Tick(dt)), k, id, spec)
  {
  }

  /** The execution stalls until its lease has run out, and the recovery takes the run away from it. */
  lemma WorkIsLost(cfg: Config, evs: seq<Event>, s: Sys, k: nat, id: RunId, spec: JobSpec) returns (more: seq<Event>)
    requires Legal(cfg, AnyStep, INIT, evs) && After(cfg, AnyStep, INIT, evs) == s
    requires Working(cfg, s, k, id, spec, FailReady(0, spec.maxAttempts, true))
    ensures Legal(cfg, AnyStep, INIT, more) && Stalled(After(cfg, AnyStep, INIT, more), k + 1, id, spec)
  {
    InvAlways(cfg, AnyStep, evs);
    var dt: nat := Max(0, s.rows[id].lockedUntil.value + 1 - s.clock);
    LapseState(cfg, s, k, id, spec, dt);
    var n := Step(cfg, AnyStep, evs, s, Tick(dt), id);
    RecoverState(cfg, n, k, id, spec);
    n := Step(cfg, AnyStep, evs + [Tick(dt)], n, Recover, id);
    more := evs + [Tick(dt)] + [Recover];
  }

  lemma {:induction false} ReachStalled(cfg: Config, k: nat, id: RunId, w: string, spec: JobSpec)
    returns (evs: seq<Event>)
    requires spec.maxAttempts >= 1
    ensures Legal(cfg, AnyStep, INIT, evs) && Stalled(After(cfg, AnyStep, INIT, evs), k, id, spec)
  {
    if k == 0 {
      evs := QueuedIsStalled(cfg, id, spec);
    } else {
      var before := ReachStalled(cfg, k - 1, id, w, spec);
      evs := StallAgain(cfg, before, k - 1, id, w, spec);
    }
  }

  lemma StallAgain(cfg: Config, before: seq<Event>, k: nat, id: RunId, w: string, spec: JobSpec)
    returns (evs: seq<Event>)
    requires Legal(cfg, AnyStep, INIT, before) && Stalled(After(cfg, AnyStep, INIT, before), k, id, spec)
    ensures Legal(cfg, AnyStep, INIT, evs) && Stalled(After(cfg, AnyStep, INIT, evs), k + 1, id, spec)
  {
    var begun, s := Redispatch(cfg, before, k, id, w, spec);
    var failed;
    failed, s := FailAndRead(cfg, begun, s, k, id, spec);
    evs := WorkIsLost(cfg, failed, s, k, id, spec);
  }

  lemma FailAndRead(cfg: Config, before: seq<Event>, s: Sys, k: nat, id: RunId, spec: JobSpec)
    returns (evs: seq<Event>, n: Sys)
    requires Legal(cfg, AnyStep, INIT, before) && After(cfg, AnyStep, INIT, before) == s
    requires Working(cfg, s, k, id, spec, Dispatching)
    ensures Legal(cfg, AnyStep, INIT, evs) && After(cfg, AnyStep, INIT, evs) == n
    ensures Working(cfg, n, k, id, spec, FailReady(0, spec.maxAttempts, true))
  {
    n := WorkRaises(cfg, before, s, k, id, spec);
    n := WorkIsRead(cfg, before + [Raise(k, true)], n, k, id, spec);
    evs := before + [Raise(k, true)] + [FailRead(k)];
  }

  lemma Redispatch(cfg: Config, before: seq<Event>, k: nat, id: RunId, w: string, spec: JobSpec)
    returns (evs: seq<Event>, s: Sys)
    requires Legal(cfg, AnyStep, INIT, before) && Stalled(After(cfg, AnyStep, INIT, before), k, id, spec)
    ensures Legal(cfg, AnyStep, INIT, evs) && After(cfg, AnyStep, INIT, evs) == s
    ensures Working(cfg, s, k, id, spec, Dispatching)
  {
    s := WorkBegins(cfg, before, After(cfg, AnyStep, INIT, before), k, id, w, spec);
    evs := before + [Acquire(k, id, w, {})];
    s := WorkDispatches(cfg, evs, s, k, id, spec);
    evs := evs + [TryLock(k)];
  }

  // ---- terminal rows ----

  lemma CompleteState(cfg: Config, s: Sys, k: nat, id: RunId, spec: JobSpec)
    requires Working(cfg, s, k, id, spec, Dispatching)
    ensures Asked(cfg, s, Complete(k)).Keys <= {id}
    ensures Completing(Done(cfg, s, Complete(k)), k, id, spec)
  {
  }

  ghost predicate Completing(s: Sys, k: nat, id: RunId, spec: JobSpec) {
    && k in s.execs && s.execs[k].phase.Closing? && Writing(s.(execs := s.execs - {k}), k, 0, id, spec)
    && s.rows[id].status == Succeeded
  }

  lemma ReleaseState(cfg: Config, s: Sys, k: nat, id: RunId, spec: JobSpec)
    requires Completing(s, k, id, spec)
    ensures Asked(cfg, s, Release(k)).Keys <= {id}
    ensures var n := Done(cfg, s, Release(k)); Writing(n, k, 0, id, spec) && n.rows == s.rows
  {
    assert Gone(s, k).execs == s.execs - {k};
  }

  /** The run is done, and the lock block is left; `k` executions are still going to write their failures. */
  lemma Finish(cfg: Config, before: seq<Event>, s: Sys, k: nat, id: RunId, spec: JobSpec)
    returns (evs: seq<Event>, n: Sys)
    requires Legal(cfg, AnyStep, INIT, before) && After(cfg, AnyStep, INIT, before) == s
    requires Working(cfg, s, k, id, spec, Dispatching)
    ensures Legal(cfg, AnyStep, INIT, evs) && After(cfg, AnyStep, INIT, evs) == n
    ensures Writing(n, k, 0, id, spec) && n.rows[id].status == Succeeded
  {
    CompleteState(cfg, s, k, id, spec);
    n := Step(cfg, AnyStep, before, s, Complete(k), id);
    ReleaseState(cfg, n, k, id, spec);
    n := Step(cfg, AnyStep, before + [Complete(k)], n, Release(k), id);
    evs := before + [Complete(k)] + [Release(k)];
  }

  /**
   The ownership hypothesis is needed, whatever the job: an execution that stalls in fail() while another worker takes
   its run over and completes it puts the succeeded run back into the queue.
   */
  lemma StaleExecutionReopens(cfg: Config, id: RunId, w: string, spec: JobSpec)
    returns (evs: seq<Event>, late: seq<Event>)
    requires spec.maxAttempts >= 2
    ensures Legal(cfg, AnyStep, INIT, evs) && Legal(cfg, AnyStep, INIT, evs + late)
    ensures var t := After(cfg, AnyStep, INIT, evs).rows; id in t && t[id].spec == spec && t[id].status == Succeeded
    ensures var t := After(cfg, AnyStep, INIT, evs + late).rows; id in t && t[id].status == Queued
  {
    var before := ReachStalled(cfg, 1, id, w, spec);
    var s;
    evs, s := Redispatch(cfg, before, 1, id, w, spec);
    evs, s := Finish(cfg, evs, s, 1, id, spec);
    s := LateWrite(cfg, evs, s, 0, 1, id, spec);
    late := [FailWrite(0, None)];
  }

  // ---- the retry bound ----

  /** `k` executions are still going to write their failures over what they read, and `c` have done so. */
  ghost predicate Writing(s: Sys, k: nat, c: nat, id: RunId, spec: JobSpec) {
    && s.rows.Keys == {id} && s.rows[id].spec == spec
    && s.log.Keys == {id} && s.log[id].spec == spec && s.log[id].failRequeues == c
    && (forall x: ExecId :: x in s.execs <==> x < k) && (forall x: ExecId | x < k :: ReadAtZero(s.execs[x], id, spec))
  }

  lemma WriteState(cfg: Config, s: Sys, k: nat, c: nat, id: RunId, spec: JobSpec)
    requires c >= 1 && Writing(s, k + 1, c - 1, id, spec) && spec.maxAttempts >= 2
    ensures var e := FailWrite(k, None);
            && Enabled(s, e) && Asked(cfg, s, e).Keys <= {id}
            && Writing(Done(cfg, s, e), k, c, id, spec) && Done(cfg, s, e).rows[id].status == Queued
  {
    assert ReadAtZero(s.execs[k], id, spec);
  }

  lemma LateWrite(cfg: Config, evs: seq<Event>, s: Sys, k: nat, c: nat, id: RunId, spec: JobSpec) returns (n: Sys)
    requires Legal(cfg, AnyStep, INIT, evs) && After(cfg, AnyStep, INIT, evs) == s
    requires c >= 1 && Writing(s, k + 1, c - 1, id, spec) && spec.maxAttempts >= 2
    ensures Writing(n, k, c, id, spec) && n.rows[id].status == Queued
    ensures var e := FailWrite(k, None);
            Legal(cfg, AnyStep, INIT, evs + [e]) && After(cfg, AnyStep, INIT, evs + [e]) == n
  {
    WriteState(cfg, s, k, c, id, spec);
    n := Step(cfg, AnyStep, evs, s, FailWrite(k, None), id);
  }

  lemma ReachWriting(cfg: Config, k: nat, id: RunId, w: string, spec: JobSpec) returns (evs: seq<Event>, s: Sys)
    requires spec.maxAttempts >= 2
    ensures Legal(cfg, AnyStep, INIT, evs) && After(cfg, AnyStep, INIT, evs) == s && Writing(s, k, 0, id, spec)
  {
    evs := ReachStalled(cfg, k, id, w, spec);
    s := After(cfg, AnyStep, INIT, evs);
  }

  /** Of `rest + c` executions all but `rest` write. */
  lemma {:induction false} AllWrite(cfg: Config, rest: nat, c: nat, id: RunId, w: string, spec: JobSpec)
    returns (evs: seq<Event>, s: Sys)
    requires spec.maxAttempts >= 2
    ensures Legal(cfg, AnyStep, INIT, evs) && After(cfg, AnyStep, INIT, evs) == s
    ensures Writing(s, rest, c, id, spec)
    decreases c
  {
    if c == 0 {
      evs, s := ReachWriting(cfg, rest, id, w, spec);
    } else {
      var before, m := AllWrite(cfg, rest + 1, c - 1, id, w, spec);
      s := LateWrite(cfg, before, m, rest, c, id, spec);
      evs := before + [FailWrite(rest, None)];
    }
  }

  /**
   Without atomic fails nothing bounds the retries of a job that may be attempted twice: for every `k` there is a run in
   which fail() puts it back into the queue `k` times.
   */
  lemma RequeuedAnyNumberOfTimes(cfg: Config, k: nat, id: RunId, w: string, spec: JobSpec) returns (evs: seq<Event>)
    requires spec.maxAttempts >= 2
    ensures Legal(cfg, AnyStep, INIT, evs)
    ensures var s := After(cfg, AnyStep, INIT, evs); id in s.log && s.log[id].spec == spec
    ensures FailRequeueCount(cfg, AnyStep, evs, id) == k
  {
    var s;
    evs, s := AllWrite(cfg, 0, k, id, w, spec);
    CountIsLogged(cfg, AnyStep, evs, id);
  }

  /** In every run of the protocol, fail() puts every job of this kind back into the queue at most `b` times. */
  ghost predicate RequeuedAtMost(cfg: Config, spec: JobSpec, b: int) {
    forall evs, id :: Legal(cfg, AnyStep, INIT, evs) && LoggedAs(After(cfg, AnyStep, INIT, evs), id, spec) ==>
      FailRequeueCount(cfg, AnyStep, evs, id) <= b
  }

  ghost predicate LoggedAs(s: Sys, id: RunId, spec: JobSpec) { id in s.log && s.log[id].spec == spec }

  /** The retry bound holds in every run exactly for the jobs that may be attempted once; the others have no bound. */
  lemma RetriesAreBoundedIff(cfg: Config, spec: JobSpec)
    requires spec.maxAttempts >= 1
    ensures RequeuedAtMost(cfg, spec, spec.maxAttempts - 1) <==> spec.maxAttempts == 1
    ensures (exists b :: RequeuedAtMost(cfg, spec, b)) <==> spec.maxAttempts == 1
  {
    if spec.maxAttempts == 1 {
      forall evs, id | Legal(cfg, AnyStep, INIT, evs) && LoggedAs(After(cfg, AnyStep, INIT, evs), id, spec)
        ensures FailRequeueCount(cfg, AnyStep, evs, id) <= 0
      {
        SingleAttemptsAlways(cfg, AnyStep, evs);
        CountIsLogged(cfg, AnyStep, evs, id);
      }
      assert RequeuedAtMost(cfg, spec, 0);
    } else {
      forall b: int ensures !RequeuedAtMost(cfg, spec, b) {
        var evs := RequeuedAnyNumberOfTimes(cfg, Max(b, 0) + 1, "run", "worker", spec);
        assert LoggedAs(After(cfg, AnyStep, INIT, evs), "run", spec);
      }
    }
  }

  /** Every job of the service may be attempted more than once, so none of them has a bound. */
  lemma NoServiceJobIsBounded(cfg: Config, jobType: string, date: Option<string>, dedupeKey: string, b: int)
    ensures !RequeuedAtMost(cfg, ServiceSpec(jobType, date, dedupeKey), b)
  {
    RetriesAreBoundedIff(cfg, ServiceSpec(jobType, date, dedupeKey));
  }
}
