/**
 Heartbeats in the protocol: which delays and how many lost heartbeats in a row a lease can take. Runs that keep a pace
 are timely, and so owned, exactly when the pace fits into the lease.
 */
module QueueHeartbeats {
  import opened Wrappers
  import opened JobRuns
  import opened QueueProtocol
  import opened QueueSafety
  import opened QueueLeases
  import opened QueueRuns

  /** The longest wait from one heartbeat to the next. */
  ghost function BeatWait(cfg: Config, pace: Pace): nat { HeartbeatInterval(cfg.lease) + pace.latency }

  /** The longest time `n` heartbeats take after the acquire. */
  ghost function Late(cfg: Config, pace: Pace, n: nat): nat
  {
    if n == 0 then pace.setup else Late(cfg, pace, n - 1) + BeatWait(cfg, pace)
  }

  /** What a pace asks of the lease: time to set up, for the lost heartbeats and one more, and to fail. */
  ghost predicate Fits(cfg: Config, pace: Pace) { Late(cfg, pace, pace.lost + 1) + pace.failing <= cfg.lease }

  lemma {:induction false} LateIs(cfg: Config, pace: Pace, n: nat)
    ensures Late(cfg, pace, n) == pace.setup + n * BeatWait(cfg, pace)
  {
    if n > 0 {
      LateIs(cfg, pace, n - 1);
      assert n * BeatWait(cfg, pace) == (n - 1) * BeatWait(cfg, pace) + BeatWait(cfg, pace);
    }
  }

  lemma {:induction false} LateGrows(cfg: Config, pace: Pace, m: nat, n: nat)
    requires m <= n
    ensures pace.setup <= Late(cfg, pace, m) <= Late(cfg, pace, n)
    decreases n
  {
    if n > 0 { LateGrows(cfg, pace, if m < n then m else m - 1, n - 1); }
  }

  // ---- a pace that fits keeps every lease alive ----

  /** How long after the last lease the present wait of an execution began at the latest. */
  ghost function Behind(cfg: Config, pace: Pace, ex: Exec): nat {
    match ex.phase
    case Claimed | Waiting => 0
    case Dispatching => Late(cfg, pace, ex.lost)
    case _ => Late(cfg, pace, ex.lost + 1)
  }

  ghost predicate OnPace(cfg: Config, pace: Pace, s: Sys, x: ExecId)
    requires x in s.execs
  {
    var ex := s.execs[x];
    ex.phase.Closing? ||
    (&& ex.lost <= pace.lost && ex.renewed <= s.clock && ex.mark <= s.clock <= Deadline(cfg, pace, ex)
     && ex.mark <= ex.renewed + Behind(cfg, pace, ex))
  }

  ghost predicate AllOnPace(cfg: Config, pace: Pace, s: Sys) { forall x | x in s.execs :: OnPace(cfg, pace, s, x) }

  /** No deadline lies beyond the lease. */
  lemma DeadlineInLease(cfg: Config, pace: Pace, s: Sys, x: ExecId)
    requires Fits(cfg, pace) && x in s.execs && OnPace(cfg, pace, s, x) && !s.execs[x].phase.Closing?
    ensures Deadline(cfg, pace, s.execs[x]) <= s.execs[x].renewed + cfg.lease
  {
    var ex := s.execs[x];
    LateGrows(cfg, pace, ex.lost, pace.lost);
    LateGrows(cfg, pace, ex.lost + 1, pace.lost + 1);
    assert Late(cfg, pace, ex.lost + 1) == Late(cfg, pace, ex.lost) + BeatWait(cfg, pace);
  }

  lemma PacedStepsAreTimely(cfg: Config, pace: Pace, s: Sys, e: Event)
    requires Fits(cfg, pace) && Enabled(s, e) && AllOnPace(cfg, pace, s) && Paced(cfg, pace, s, e)
    ensures Timely(cfg, s, e)
  {
    if e.Tick? {
      forall x | x in s.execs && !s.execs[x].phase.Closing? ensures s.clock + e.dt <= s.execs[x].renewed + cfg.lease {
        assert OnPace(cfg, pace, s, x);
        DeadlineInLease(cfg, pace, s, x);
      }
    }
  }

  lemma TryStep(cfg: Config, pace: Pace, s: Sys, e: Event, x: ExecId)
    requires Enabled(s, e) && e.TryLock? && AllOnPace(cfg, pace, s) && x in s.execs && !s.execs[x].phase.Closing?
    ensures x in Control(cfg, s, e).execs && OnPace(cfg, pace, Control(cfg, s, e), x)
  {
    assert OnPace(cfg, pace, s, x);
  }

  lemma RaiseStep(cfg: Config, pace: Pace, s: Sys, e: Event, x: ExecId)
    requires Enabled(s, e) && e.Raise? && AllOnPace(cfg, pace, s) && x in s.execs && !s.execs[x].phase.Closing?
    ensures x in Control(cfg, s, e).execs && OnPace(cfg, pace, Control(cfg, s, e), x)
  {
    assert OnPace(cfg, pace, s, x);
    LateGrows(cfg, pace, 0, s.execs[x].lost);
    assert Late(cfg, pace, s.execs[x].lost + 1) == Late(cfg, pace, s.execs[x].lost) + BeatWait(cfg, pace);
  }

  /** The other steps of an execution begin no new wait. */
  lemma QuietStep(cfg: Config, pace: Pace, s: Sys, e: Event, x: ExecId)
    requires Enabled(s, e) && Paced(cfg, pace, s, e) && AllOnPace(cfg, pace, s)
    requires x in s.execs && x in Control(cfg, s, e).execs && !Control(cfg, s, e).execs[x].phase.Closing?
    requires !e.Tick? && !e.Heartbeat? && !e.Acquire? && !e.Beat? && !e.TryLock? && !e.Raise?
    ensures OnPace(cfg, pace, Control(cfg, s, e), x)
  {
    assert OnPace(cfg, pace, s, x);
  }

  lemma BeatStep(cfg: Config, pace: Pace, s: Sys, e: Event, x: ExecId)
    requires Enabled(s, e) && Paced(cfg, pace, s, e) && AllHeld(cfg, s) && AllOnPace(cfg, pace, s)
    requires x in s.execs && e.Beat? && !s.execs[x].phase.Closing?
    ensures x in Control(cfg, s, e).execs && OnPace(cfg, pace, Control(cfg, s, e), x)
  {
    assert OnPace(cfg, pace, s, x) && Held(cfg, s, x) && Held(cfg, s, e.x);
    LateGrows(cfg, pace, 0, s.execs[x].lost);
  }

  lemma OtherStep(cfg: Config, pace: Pace, s: Sys, e: Event, x: ExecId)
    requires Enabled(s, e) && Paced(cfg, pace, s, e) && AllHeld(cfg, s) && AllOnPace(cfg, pace, s)
    requires x in s.execs && (e.Tick? || e.Heartbeat? || e.Acquire?) && !s.execs[x].phase.Closing?
    ensures x in Control(cfg, s, e).execs && OnPace(cfg, pace, Control(cfg, s, e), x)
  {
    assert OnPace(cfg, pace, s, x);
  }

  lemma PaceControl(cfg: Config, pace: Pace, s: Sys, e: Event, x: ExecId)
    requires Enabled(s, e) && Paced(cfg, pace, s, e) && AllHeld(cfg, s) && AllOnPace(cfg, pace, s)
    requires x in Control(cfg, s, e).execs
    ensures OnPace(cfg, pace, Control(cfg, s, e), x)
  {
    SpecsKept(cfg, s, e, Control(cfg, s, e), x);
    if x in s.execs {
      assert OnPace(cfg, pace, s, x);
      if Control(cfg, s, e).execs[x].phase.Closing? {
      } else if e.Beat? {
        BeatStep(cfg, pace, s, e, x);
      } else if e.TryLock? {
        TryStep(cfg, pace, s, e, x);
      } else if e.Raise? {
        RaiseStep(cfg, pace, s, e, x);
      } else if e.Tick? || e.Heartbeat? || e.Acquire? {
        OtherStep(cfg, pace, s, e, x);
      } else {
        QuietStep(cfg, pace, s, e, x);
      }
    }
  }

  /** A step the unique index rejects is not about a held execution. */
  lemma PaceRejected(cfg: Config, pace: Pace, s: Sys, e: Event, x: ExecId)
    requires Enabled(s, e) && Inv(cfg, s) && Owned(s, e) && !Commits(cfg, s, e) && AllOnPace(cfg, pace, s)
    requires x in Rejected(s, e).execs
    ensures OnPace(cfg, pace, Rejected(s, e), x)
  {
    OnlyInsertsHitTheIndex(cfg, s, e);
    assert OnPace(cfg, pace, s, x);
  }

  lemma PaceStep(cfg: Config, pace: Pace, s: Sys, e: Event, x: ExecId)
    requires Fits(cfg, pace) && Enabled(s, e) && Inv(cfg, s) && Paced(cfg, pace, s, e)
    requires AllHeld(cfg, s) && AllOnPace(cfg, pace, s) && x in Next(cfg, s, e).execs
    ensures OnPace(cfg, pace, Next(cfg, s, e), x)
  {
    if Commits(cfg, s, e) {
      PaceControl(cfg, pace, s, e, x);
    } else {
      PacedStepsAreTimely(cfg, pace, s, e);
      TimelyStepsAreOwned(cfg, s, e);
      PaceRejected(cfg, pace, s, e, x);
    }
  }

  /** Every run that keeps a fitting pace is a timely run. */
  lemma {:induction false} PacedRunsAreTimely(cfg: Config, pace: Pace, evs: seq<Event>)
    requires Fits(cfg, pace) && Legal(cfg, PacedSteps(pace), INIT, evs)
    ensures Legal(cfg, TimelySteps, INIT, evs)
    ensures After(cfg, TimelySteps, INIT, evs) == After(cfg, PacedSteps(pace), INIT, evs)
    ensures AllOnPace(cfg, pace, After(cfg, PacedSteps(pace), INIT, evs))
    decreases |evs|
  {
    if evs != [] {
      var n := |evs| - 1;
      PacedRunsAreTimely(cfg, pace, evs[..n]);
      var m := After(cfg, PacedSteps(pace), INIT, evs[..n]);
      AllHeldAlways(cfg, evs[..n]);
      InvAlways(cfg, PacedSteps(pace), evs[..n]);
      PacedStepsAreTimely(cfg, pace, m, evs[n]);
      forall x | x in Next(cfg, m, evs[n]).execs ensures OnPace(cfg, pace, Next(cfg, m, evs[n]), x) {
        PaceStep(cfg, pace, m, evs[n], x);
      }
    }
  }

  // ---- a pace that does not fit loses a lease ----

  /** The execution has dispatched after the whole setup time, and its first `k` heartbeats were late and lost. */
  ghost function BeatsLost(cfg: Config, pace: Pace, k: nat, id: RunId, w: string, spec: JobSpec): Sys {
    JustAcquired(cfg, id, w, spec).(clock := Late(cfg, pace, k),
      execs := map[0 := Exec(id, w, spec, None, Dispatching, 0, Late(cfg, pace, k), k)])
  }

  lemma ReachSetUp(cfg: Config, pace: Pace, id: RunId, w: string, spec: JobSpec) returns (evs: seq<Event>)
    requires spec.concurrencyKey.None? && spec.maxAttempts >= 1
    ensures Legal(cfg, PacedSteps(pace), INIT, evs)
    ensures After(cfg, PacedSteps(pace), INIT, evs) == JustAcquired(cfg, id, w, spec).(clock := pace.setup)
  {
    evs := ReachAcquired(cfg, PacedSteps(pace), id, w, spec);
    var s := Step(cfg, PacedSteps(pace), evs, JustAcquired(cfg, id, w, spec), Tick(pace.setup), id);
    evs := evs + [Tick(pace.setup)];
  }

  lemma ReachDispatched(cfg: Config, pace: Pace, id: RunId, w: string, spec: JobSpec) returns (evs: seq<Event>)
    requires spec.concurrencyKey.None? && spec.maxAttempts >= 1
    ensures Legal(cfg, PacedSteps(pace), INIT, evs)
    ensures After(cfg, PacedSteps(pace), INIT, evs) == BeatsLost(cfg, pace, 0, id, w, spec)
  {
    evs := ReachSetUp(cfg, pace, id, w, spec);
    var s := Step(cfg, PacedSteps(pace), evs, JustAcquired(cfg, id, w, spec).(clock := pace.setup), TryLock(0), id);
    evs := evs + [TryLock(0)];
  }

  /** Nothing happens until the next heartbeat is due, at the latest. */
  lemma WaitForBeat(cfg: Config, pace: Pace, before: seq<Event>, k: nat, id: RunId, w: string, spec: JobSpec)
    returns (s: Sys)
    requires spec.concurrencyKey.None? && spec.maxAttempts >= 1
    requires Legal(cfg, PacedSteps(pace), INIT, before)
    requires After(cfg, PacedSteps(pace), INIT, before) == BeatsLost(cfg, pace, k, id, w, spec)
    ensures s == BeatsLost(cfg, pace, k, id, w, spec).(clock := Late(cfg, pace, k + 1))
    ensures var wait := Tick(BeatWait(cfg, pace));
            && Legal(cfg, PacedSteps(pace), INIT, before + [wait])
            && After(cfg, PacedSteps(pace), INIT, before + [wait]) == s
  {
    s := Step(cfg, PacedSteps(pace), before, BeatsLost(cfg, pace, k, id, w, spec), Tick(BeatWait(cfg, pace)), id);
  }

  lemma LostBeatState(cfg: Config, pace: Pace, s: Sys, k: nat, id: RunId, w: string, spec: JobSpec)
    requires k < pace.lost && s == BeatsLost(cfg, pace, k, id, w, spec).(clock := Late(cfg, pace, k + 1))
    ensures Enabled(s, Beat(0, false)) && Paced(cfg, pace, s, Beat(0, false))
            && Asked(cfg, s, Beat(0, false)).Keys <= {id}
    ensures Control(cfg, s, Beat(0, false)).(rows := Asked(cfg, s, Beat(0, false)), log := Logged(s, Beat(0, false)))
         == BeatsLost(cfg, pace, k + 1, id, w, spec)
  {
    assert s.execs[0 := s.execs[0].(mark := s.clock, lost := k + 1)] == BeatsLost(cfg, pace, k + 1, id, w, spec).execs;
  }

  lemma LoseBeat(cfg: Config, pace: Pace, before: seq<Event>, k: nat, id: RunId, w: string, spec: JobSpec)
    requires k < pace.lost && Legal(cfg, PacedSteps(pace), INIT, before)
    requires After(cfg, PacedSteps(pace), INIT, before) ==
               BeatsLost(cfg, pace, k, id, w, spec).(clock := Late(cfg, pace, k + 1))
    ensures Legal(cfg, PacedSteps(pace), INIT, before + [Beat(0, false)])
    ensures After(cfg, PacedSteps(pace), INIT, before + [Beat(0, false)]) == BeatsLost(cfg, pace, k + 1, id, w, spec)
  {
    var s := After(cfg, PacedSteps(pace), INIT, before);
    LostBeatState(cfg, pace, s, k, id, w, spec);
    var n := Step(cfg, PacedSteps(pace), before, s, Beat(0, false), id);
  }

  lemma {:induction false} ReachBeatsLost(cfg: Config, pace: Pace, k: nat, id: RunId, w: string, spec: JobSpec)
    returns (evs: seq<Event>)
    requires k <= pace.lost && spec.concurrencyKey.None? && spec.maxAttempts >= 1
    ensures Legal(cfg, PacedSteps(pace), INIT, evs)
    ensures After(cfg, PacedSteps(pace), INIT, evs) == BeatsLost(cfg, pace, k, id, w, spec)
    decreases k
  {
    if k == 0 {
      evs := ReachDispatched(cfg, pace, id, w, spec);
    } else {
      evs := ReachBeatsLost(cfg, pace, k - 1, id, w, spec);
      var s := WaitForBeat(cfg, pace, evs, k - 1, id, w, spec);
      evs := evs + [Tick(BeatWait(cfg, pace))];
      LoseBeat(cfg, pace, evs, k - 1, id, w, spec);
      evs := evs + [Beat(0, false)];
    }
  }

  /** Just before the next heartbeat an exception ended the dispatch. */
  ghost function LateRaised(cfg: Config, pace: Pace, id: RunId, w: string, spec: JobSpec): Sys {
    var t := Late(cfg, pace, pace.lost + 1);
    JustAcquired(cfg, id, w, spec).(clock := t,
      execs := map[0 := Exec(id, w, spec, None, Phase.Raised(false), 0, t, pace.lost)])
  }

  lemma RaiseState(cfg: Config, pace: Pace, s: Sys, id: RunId, w: string, spec: JobSpec)
    requires s == BeatsLost(cfg, pace, pace.lost, id, w, spec).(clock := Late(cfg, pace, pace.lost + 1))
    ensures var e := Raise(0, false);
            && Enabled(s, e) && Paced(cfg, pace, s, e) && Asked(cfg, s, e).Keys <= {id}
            && Done(cfg, s, e) == LateRaised(cfg, pace, id, w, spec)
  {
  }

  lemma ReachLateRaised(cfg: Config, pace: Pace, id: RunId, w: string, spec: JobSpec) returns (evs: seq<Event>)
    requires spec.concurrencyKey.None? && spec.maxAttempts >= 1
    ensures Legal(cfg, PacedSteps(pace), INIT, evs)
    ensures After(cfg, PacedSteps(pace), INIT, evs) == LateRaised(cfg, pace, id, w, spec)
  {
    var before := ReachBeatsLost(cfg, pace, pace.lost, id, w, spec);
    var s := WaitForBeat(cfg, pace, before, pace.lost, id, w, spec);
    var waited := before + [Tick(BeatWait(cfg, pace))];
    RaiseState(cfg, pace, s, id, w, spec);
    s := Step(cfg, PacedSteps(pace), waited, s, Raise(0, false), id);
    evs := waited + [Raise(0, false)];
  }

  /** The failing takes its time as well. */
  lemma ReachLeaseEnd(cfg: Config, pace: Pace, id: RunId, w: string, spec: JobSpec) returns (evs: seq<Event>, s: Sys)
    requires spec.concurrencyKey.None? && spec.maxAttempts >= 1
    ensures Legal(cfg, PacedSteps(pace), INIT, evs) && After(cfg, PacedSteps(pace), INIT, evs) == s
    ensures s == LateRaised(cfg, pace, id, w, spec).(clock := Late(cfg, pace, pace.lost + 1) + pace.failing)
  {
    evs := ReachLateRaised(cfg, pace, id, w, spec);
    s := Step(cfg, PacedSteps(pace), evs, LateRaised(cfg, pace, id, w, spec), Tick(pace.failing), id);
    evs := evs + [Tick(pace.failing)];
  }

  /** The lease has run out before fail() reads the attempts, and the recovery has taken the run away. */
  lemma ReachRecovered(cfg: Config, pace: Pace, id: RunId, w: string, spec: JobSpec) returns (evs: seq<Event>, s: Sys)
    requires !Fits(cfg, pace) && spec.concurrencyKey.None? && spec.maxAttempts >= 1
    ensures Legal(cfg, PacedSteps(pace), INIT, evs) && After(cfg, PacedSteps(pace), INIT, evs) == s
    ensures s.rows.Keys == {id} && s.rows[id].status == Queued && s.execs == LateRaised(cfg, pace, id, w, spec).execs
  {
    evs, s := ReachLeaseEnd(cfg, pace, id, w, spec);
    s := Step(cfg, PacedSteps(pace), evs, s, Recover, id);
    evs := evs + [Recover];
  }

  /** A run that keeps the pace, and whose last step writes to a run its execution does not own any more. */
  lemma TooSlowLosesOwnership(cfg: Config, pace: Pace, id: RunId, w: string, spec: JobSpec) returns (evs: seq<Event>)
    requires !Fits(cfg, pace) && spec.concurrencyKey.None? && spec.maxAttempts >= 1
    ensures Legal(cfg, PacedSteps(pace), INIT, evs) && !Legal(cfg, OwnedSteps, INIT, evs)
  {
    var before, s := ReachRecovered(cfg, pace, id, w, spec);
    var s1 := Step(cfg, PacedSteps(pace), before, s, FailRead(0), id);
    var mid := before + [FailRead(0)];
    var s2 := Step(cfg, PacedSteps(pace), mid, s1, FailWrite(0, None), id);
    evs := mid + [FailWrite(0, None)];
    assert evs[..|mid|] == mid;
    if Legal(cfg, OwnedSteps, INIT, mid) {
      SameStates(cfg, OwnedSteps, PacedSteps(pace), mid);
      assert !Owns(s1, 0);
    }
  }

  /** The rule decides which runs there are, not where they lead. */
  lemma {:induction false} SameStates(cfg: Config, rule: Rule, rule': Rule, evs: seq<Event>)
    requires Legal(cfg, rule, INIT, evs) && Legal(cfg, rule', INIT, evs)
    ensures After(cfg, rule, INIT, evs) == After(cfg, rule', INIT, evs)
    decreases |evs|
  {
    if evs != [] { SameStates(cfg, rule, rule', evs[..|evs| - 1]); }
  }

  /** Ownership is safe in every run that keeps the pace exactly when the pace fits into the lease. */
  lemma PacedRunsAreOwnedIff(cfg: Config, pace: Pace)
    ensures (forall evs :: Legal(cfg, PacedSteps(pace), INIT, evs) ==> Legal(cfg, OwnedSteps, INIT, evs)) <==>
              pace.setup + (pace.lost + 1) * (HeartbeatInterval(cfg.lease) + pace.latency) + pace.failing <= cfg.lease
  {
    LateIs(cfg, pace, pace.lost + 1);
    if Fits(cfg, pace) {
      forall evs | Legal(cfg, PacedSteps(pace), INIT, evs) ensures Legal(cfg, OwnedSteps, INIT, evs) {
        PacedRunsAreTimely(cfg, pace, evs);
        TimelyRunsAreOwned(cfg, evs);
      }
    } else {
      var evs := TooSlowLosesOwnership(cfg, pace, "run", "worker", ServiceSpec("refresh", None, "refresh:{}"));
    }
  }

  // ---- how many heartbeats may be lost ----

  /**
   Two lost heartbeats fit into every lease the configuration can produce when nothing takes any time beside the
   intervals; into the default lease they fit only then, although the real thread waits its interval on top of each
   call.
   */
  lemma TwoLostFits(cfg: Config, configured: Option<int>, pace: Pace)
    requires cfg.lease == JobLeaseSeconds(configured) && pace.lost == 2
    ensures pace.setup == pace.latency == pace.failing == 0 ==> Fits(cfg, pace)
    ensures configured.None? ==> (Fits(cfg, pace) <==> pace.setup == pace.latency == pace.failing == 0)
  {
    LateIs(cfg, pace, 3);
    LeaseCoversThreeBeats(configured);
  }

  /** One lost heartbeat leaves a whole interval of every lease, ten seconds at least, for everything else. */
  lemma OneLostFits(cfg: Config, configured: Option<int>, pace: Pace)
    requires cfg.lease == JobLeaseSeconds(configured) && pace.lost == 1
    requires pace.setup + 2 * pace.latency + pace.failing <= HeartbeatInterval(cfg.lease)
    ensures Fits(cfg, pace) && HeartbeatInterval(cfg.lease) >= 10
  {
    LateIs(cfg, pace, 2);
    LeaseCoversThreeBeats(configured);
  }
}
