/** The lease arithmetic discharges the ownership hypothesis. */
module QueueLeases {
  import opened Wrappers
  import opened JobRuns
  import opened QueueProtocol
  import opened QueueSafety
  import opened QueueTerminal

  /** Three heartbeat intervals fit into every lease the configuration can produce. */
  lemma LeaseCoversThreeBeats(configured: Option<int>)
    ensures var lease := JobLeaseSeconds(configured);
            && (configured.None? ==> lease == 300 && HeartbeatInterval(lease) == 100)
            && (configured.Some? ==> lease == if configured.value < 30 then 30 else configured.value)
            && HeartbeatInterval(lease) == lease / 3
    ensures var lease := JobLeaseSeconds(configured); lease >= 30 && 3 * HeartbeatInterval(lease) <= lease
  {
  }

  /**
   Until its commit, a live execution owns its run and the row carries the lease last written for it, which still runs.
   */
  ghost predicate Held(cfg: Config, s: Sys, x: ExecId)
    requires x in s.execs
  {
    var ex := s.execs[x];
    ex.phase.Closing? ||
    (&& Owns(s, x)
     && s.rows[ex.run].workerId == Some(ex.worker)
     && s.rows[ex.run].lockedUntil == Some(ex.renewed + cfg.lease)
     && s.clock <= ex.renewed + cfg.lease)
  }

  ghost predicate AllHeld(cfg: Config, s: Sys) {
    forall x | x in s.execs :: Held(cfg, s, x)
  }

  lemma TimelyStepsAreOwned(cfg: Config, s: Sys, e: Event)
    requires Enabled(s, e) && AllHeld(cfg, s) && Timely(cfg, s, e)
    ensures Owned(s, e)
  {
    if Finishing(e) { assert Held(cfg, s, e.x); }
  }

  /**
   A step touches the row of a held execution only to renew its lease, unless it is that execution's own finishing
   write.
   */
  lemma RowUntouched(cfg: Config, s: Sys, e: Event, x: ExecId)
    requires Enabled(s, e) && s.rows.Keys <= s.log.Keys
    requires AllHeld(cfg, s) && Timely(cfg, s, e) && x in s.execs && !s.execs[x].phase.Closing?
    requires Finishing(e) ==> e.x != x
    ensures s.execs[x].run in s.rows && s.execs[x].run in Asked(cfg, s, e)
    ensures var id := s.execs[x].run;
            Asked(cfg, s, e)[id] ==
              if BeatOf(s, e) == Some((id, s.execs[x].worker)) then Renewed(s.rows[id], s.clock, cfg.lease)
              else s.rows[id]
  {
    assert Held(cfg, s, x);
    if Finishing(e) { assert Held(cfg, s, e.x); }
  }

  /** The run, the worker and the lease of an execution that is still before its commit. */
  ghost predicate SameLease(s: Sys, n: Sys, x: ExecId)
    requires x in s.execs && x in n.execs
  {
    var ex, ex' := s.execs[x], n.execs[x];
    !ex.phase.Closing? && ex'.run == ex.run && ex'.worker == ex.worker && ex'.renewed == ex.renewed
  }

  lemma MovesKeepLease(cfg: Config, s: Sys, e: Event, x: ExecId)
    requires Enabled(s, e) && Timely(cfg, s, e) && Moves(e) && x in s.execs
    requires x in Control(cfg, s, e).execs && !Control(cfg, s, e).execs[x].phase.Closing?
    ensures SameLease(s, Control(cfg, s, e), x)
  {
    MovesKeep(cfg, s, e, x);
  }

  lemma OthersKeepLease(cfg: Config, s: Sys, e: Event, x: ExecId)
    requires Enabled(s, e) && !Moves(e) && BeatOf(s, e).None? && x in s.execs
    requires x in Control(cfg, s, e).execs && !Control(cfg, s, e).execs[x].phase.Closing?
    ensures SameLease(s, Control(cfg, s, e), x)
  {
  }

  lemma OwnerAfter(cfg: Config, s: Sys, e: Event)
    requires Enabled(s, e)
    ensures var o := Control(cfg, s, e).owner; o == s.owner || (e.Acquire? && o == s.owner[e.id := e.x])
  {
  }

  lemma OtherExecutionsKept(cfg: Config, s: Sys, e: Event, x: ExecId)
    requires Enabled(s, e) && Timely(cfg, s, e) && BeatOf(s, e).None? && x in s.execs
    requires x in Control(cfg, s, e).execs && !Control(cfg, s, e).execs[x].phase.Closing?
    ensures SameLease(s, Control(cfg, s, e), x)
  {
    if Moves(e) { MovesKeepLease(cfg, s, e, x); } else { OthersKeepLease(cfg, s, e, x); }
  }

  lemma BeatExecs(cfg: Config, s: Sys, e: Event, x: ExecId)
    requires Enabled(s, e) && BeatOf(s, e).Some? && x in s.execs
    ensures x in Control(cfg, s, e).execs
    ensures var b, ex, n := BeatOf(s, e).value, s.execs[x], Control(cfg, s, e).execs[x];
            && n.run == ex.run && n.worker == ex.worker && n.phase == ex.phase
            && n.renewed == if b.0 in s.rows && Beats(s.rows[b.0], b.1) && b.0 in s.owner && s.owner[b.0] == x
               && ex.run == b.0
                            then s.clock else ex.renewed
    ensures Control(cfg, s, e).owner == s.owner && Control(cfg, s, e).clock == s.clock
  {
  }

  lemma HeldBeat(cfg: Config, s: Sys, e: Event, x: ExecId)
    requires Enabled(s, e) && BeatOf(s, e).Some? && s.rows.Keys <= s.log.Keys && AllHeld(cfg, s) && x in s.execs
    ensures x in Control(cfg, s, e).execs && Held(cfg, Control(cfg, s, e).(rows := Asked(cfg, s, e)), x)
  {
    assert Held(cfg, s, x);
    BeatExecs(cfg, s, e, x);
    if !s.execs[x].phase.Closing? {
      RowUntouched(cfg, s, e, x);
    }
  }

  lemma HeldOther(cfg: Config, s: Sys, e: Event, n: Sys, x: ExecId)
    requires Enabled(s, e) && s.rows.Keys <= s.log.Keys && AllHeld(cfg, s) && Timely(cfg, s, e)
    requires n == Control(cfg, s, e).(rows := Asked(cfg, s, e))
    requires x in s.execs && x in n.execs && !n.execs[x].phase.Closing? && BeatOf(s, e).None?
    ensures Held(cfg, n, x)
  {
    OtherExecutionsKept(cfg, s, e, x);
    OwnerAfter(cfg, s, e);
    assert Held(cfg, s, x);
    StillGoing(cfg, s, e, x);
    RowUntouched(cfg, s, e, x);
  }

  lemma StillGoing(cfg: Config, s: Sys, e: Event, x: ExecId)
    requires Enabled(s, e) && x in Control(cfg, s, e).execs && !Control(cfg, s, e).execs[x].phase.Closing?
    ensures Finishing(e) ==> e.x != x
  {
  }

  lemma HeldAcquire(cfg: Config, s: Sys, e: Event)
    requires Enabled(s, e) && e.Acquire?
    ensures Held(cfg, Control(cfg, s, e).(rows := Asked(cfg, s, e)), e.x)
  {
  }

  lemma HeldControl(cfg: Config, s: Sys, e: Event, x: ExecId)
    requires Enabled(s, e) && s.rows.Keys <= s.log.Keys && AllHeld(cfg, s) && Timely(cfg, s, e)
    requires x in Control(cfg, s, e).execs
    ensures Held(cfg, Control(cfg, s, e).(rows := Asked(cfg, s, e)), x)
  {
    SpecsKept(cfg, s, e, Control(cfg, s, e), x);
    if x !in s.execs {
      HeldAcquire(cfg, s, e);
    } else if BeatOf(s, e).Some? {
      HeldBeat(cfg, s, e, x);
    } else if !Control(cfg, s, e).execs[x].phase.Closing? {
      HeldOther(cfg, s, e, Control(cfg, s, e).(rows := Asked(cfg, s, e)), x);
    }
  }

  lemma HeldRejected(cfg: Config, s: Sys, e: Event, x: ExecId)
    requires Enabled(s, e) && s.rows.Keys <= s.log.Keys && AllHeld(cfg, s) && Timely(cfg, s, e)
    requires x in Rejected(s, e).execs
    ensures Held(cfg, Rejected(s, e), x)
  {
    RejectedKeeps(s, e);
    SpecsKept(cfg, s, e, Rejected(s, e), x);
    assert Held(cfg, s, x);
  }

  lemma HeldStep(cfg: Config, s: Sys, e: Event, x: ExecId)
    requires Enabled(s, e) && s.rows.Keys <= s.log.Keys && AllHeld(cfg, s) && Timely(cfg, s, e)
    requires x in Next(cfg, s, e).execs
    ensures Held(cfg, Next(cfg, s, e), x)
  {
    if Commits(cfg, s, e) {
      HeldControl(cfg, s, e, x);
    } else {
      HeldRejected(cfg, s, e, x);
    }
  }

  lemma {:induction false} AllHeldAlways(cfg: Config, evs: seq<Event>)
    requires Legal(cfg, TimelySteps, INIT, evs)
    ensures AllHeld(cfg, After(cfg, TimelySteps, INIT, evs))
    decreases |evs|
  {
    if evs != [] {
      var n := |evs| - 1;
      AllHeldAlways(cfg, evs[..n]);
      InvAlways(cfg, TimelySteps, evs[..n]);
      forall x | x in After(cfg, TimelySteps, INIT, evs).execs
        ensures Held(cfg, After(cfg, TimelySteps, INIT, evs), x)
      {
        HeldStep(cfg, After(cfg, TimelySteps, INIT, evs[..n]), evs[n], x);
      }
    }
  }

  /** Every timely run is an owned run: ownership is never stolen, so nothing has to be assumed about it. */
  lemma {:induction false} TimelyRunsAreOwned(cfg: Config, evs: seq<Event>)
    requires Legal(cfg, TimelySteps, INIT, evs)
    ensures Legal(cfg, OwnedSteps, INIT, evs) && After(cfg, OwnedSteps, INIT, evs) == After(cfg, TimelySteps, INIT, evs)
    decreases |evs|
  {
    if evs != [] {
      var n := |evs| - 1;
      TimelyRunsAreOwned(cfg, evs[..n]);
      AllHeldAlways(cfg, evs[..n]);
      TimelyStepsAreOwned(cfg, After(cfg, TimelySteps, INIT, evs[..n]), evs[n]);
    }
  }

  /** In a timely run no two executions that have not committed yet work on the same run. */
  lemma OneExecutionPerRun(cfg: Config, evs: seq<Event>, x: ExecId, y: ExecId)
    requires Legal(cfg, TimelySteps, INIT, evs)
    requires var s := After(cfg, TimelySteps, INIT, evs);
      && x in s.execs && y in s.execs && s.execs[x].run == s.execs[y].run
      && !s.execs[x].phase.Closing? && !s.execs[y].phase.Closing?
    ensures x == y
    ensures var s := After(cfg, TimelySteps, INIT, evs); Owns(s, x) && !Stale(s.rows[s.execs[x].run], s.clock)
  {
    AllHeldAlways(cfg, evs);
    var s := After(cfg, TimelySteps, INIT, evs);
    assert Held(cfg, s, x) && Held(cfg, s, y);
  }

  /** Terminal is final in every timely run. */
  lemma TimelyTerminalIsFinal(cfg: Config, evs: seq<Event>, k: nat, id: RunId)
    requires k <= |evs| && Legal(cfg, TimelySteps, INIT, evs) && Legal(cfg, TimelySteps, INIT, evs[..k])
    requires var t := After(cfg, TimelySteps, INIT, evs[..k]).rows; id in t && t[id].status.Terminal()
    ensures var t := After(cfg, TimelySteps, INIT, evs).rows; id in t ==>
              t[id] == After(cfg, TimelySteps, INIT, evs[..k]).rows[id]
  {
    TimelyRunsAreOwned(cfg, evs);
    TimelyRunsAreOwned(cfg, evs[..k]);
    TerminalIsFinal(cfg, evs, k, id);
  }
}
