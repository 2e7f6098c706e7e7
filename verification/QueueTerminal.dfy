/** Terminal rows: final under the ownership hypothesis, and exactly when a step breaks that. */
module QueueTerminal {
  import opened Wrappers
  import opened JobRuns
  import opened QueueProtocol
  import opened QueueSafety

  /** Under ownership a step leaves a terminal row exactly as it is, or purges it. */
  lemma TerminalStep(cfg: Config, s: Sys, e: Event, id: RunId)
    requires Enabled(s, e) && Owned(s, e) && s.rows.Keys <= s.log.Keys
    requires id in s.rows && s.rows[id].status.Terminal()
    ensures var t := Next(cfg, s, e).rows; id in t ==> t[id] == s.rows[id]
    ensures id in Next(cfg, s, e).log
  {
    RejectedKeeps(s, e);
  }

  lemma PurgedStaysAway(cfg: Config, s: Sys, e: Event, id: RunId)
    requires Enabled(s, e) && id !in s.rows && id in s.log
    ensures id !in Next(cfg, s, e).rows && id in Next(cfg, s, e).log
  {
    RejectedKeeps(s, e);
  }

  lemma StaysOrGoes(cfg: Config, s: Sys, e: Event, id: RunId, row: Row)
    requires Enabled(s, e) && Owned(s, e) && s.rows.Keys <= s.log.Keys && id in s.log
    requires row.status.Terminal() && (id in s.rows ==> s.rows[id] == row)
    ensures var n := Next(cfg, s, e); (id in n.rows ==> n.rows[id] == row) && id in n.log
  {
    if id in s.rows {
      TerminalStep(cfg, s, e, id);
    } else {
      PurgedStaysAway(cfg, s, e, id);
    }
  }

  lemma RunStep(cfg: Config, evs: seq<Event>, id: RunId, row: Row)
    requires evs != [] && Legal(cfg, OwnedSteps, INIT, evs) && row.status.Terminal()
    requires var m := After(cfg, OwnedSteps, INIT, evs[..|evs| - 1]);
             id in m.log && (id in m.rows ==> m.rows[id] == row)
    ensures var n := After(cfg, OwnedSteps, INIT, evs); id in n.log && (id in n.rows ==> n.rows[id] == row)
  {
    InvAlways(cfg, OwnedSteps, evs[..|evs| - 1]);
    StaysOrGoes(cfg, After(cfg, OwnedSteps, INIT, evs[..|evs| - 1]), evs[|evs| - 1], id, row);
  }

  /**
   Terminal is final: over a whole owned run, a row that is terminal after a prefix stays byte for byte the same or is
   purged.
   */
  lemma {:induction false} TerminalIsFinal(cfg: Config, evs: seq<Event>, k: nat, id: RunId)
    requires k <= |evs| && Legal(cfg, OwnedSteps, INIT, evs) && Legal(cfg, OwnedSteps, INIT, evs[..k])
    requires var t := After(cfg, OwnedSteps, INIT, evs[..k]).rows; id in t && t[id].status.Terminal()
    ensures var t := After(cfg, OwnedSteps, INIT, evs).rows; id in t ==>
              t[id] == After(cfg, OwnedSteps, INIT, evs[..k]).rows[id]
    ensures id in After(cfg, OwnedSteps, INIT, evs).log
    decreases |evs|
  {
    InvAlways(cfg, OwnedSteps, evs[..k]);
    if k == |evs| {
      assert evs[..k] == evs;
    } else {
      var n := |evs| - 1;
      assert evs[..n][..k] == evs[..k];
      TerminalIsFinal(cfg, evs[..n], k, id);
      RunStep(cfg, evs, id, After(cfg, OwnedSteps, INIT, evs[..k]).rows[id]);
    }
  }

  /** The one way to change a terminal row's status: an unowned finishing write, or a cancel, that says otherwise. */
  ghost predicate OverwritesTerminal(s: Sys, e: Event)
    requires Enabled(s, e)
  {
    match e
    case Complete(x) => x in s.execs && IsTerminal(s.rows, s.execs[x].run) && s.rows[s.execs[x].run].status != Succeeded
    case Requeue(x, _) => IsTerminal(s.rows, s.execs[x].run)
      && !KeyTaken(s.rows, s.execs[x].run, s.rows[s.execs[x].run].spec.dedupeKey)
    case FailWrite(x, _) =>
      var p := s.execs[x].phase;
      IsTerminal(s.rows, s.execs[x].run) &&
      if Retries(p.attempts, p.maxAttempts, p.retryable)
      then !KeyTaken(s.rows, s.execs[x].run, s.rows[s.execs[x].run].spec.dedupeKey)
      else s.rows[s.execs[x].run].status != Failed
    case Cancel(id) => IsTerminal(s.rows, id) && s.rows[id].status != Cancelled
    case _ => false
  }

  predicate IsTerminal(t: Table, id: RunId) { id in t && t[id].status.Terminal() }

  /** The run a finishing write or a cancel is about. */
  ghost function TargetOf(s: Sys, e: Event): Option<RunId>
    requires Enabled(s, e)
  {
    if Finishing(e) then Some(s.execs[e.x].run) else if e.Cancel? then Some(e.id) else None
  }

  ghost predicate Changes(t: Table, t': Table, id: RunId) {
    IsTerminal(t, id) && id in t' && t'[id].status != t[id].status
  }

  /** Exactly when a single step, owned or not, changes the status of a terminal row it does not purge. */
  lemma TerminalChangesIff(cfg: Config, s: Sys, e: Event)
    requires Enabled(s, e) && Inv(cfg, s)
    ensures OverwritesTerminal(s, e) <==> exists id :: Changes(s.rows, Next(cfg, s, e).rows, id)
  {
    var n := Next(cfg, s, e).rows;
    match TargetOf(s, e)
    case Some(id) =>
      TargetChangesIff(cfg, s, e, id);
      OverwritesTarget(s, e, id);
      forall j ensures Changes(s.rows, n, j) ==> j == id {
        if j in s.rows && j != id { OthersKept(cfg, s, e, id, j); }
      }
    case None =>
      forall id | IsTerminal(s.rows, id) ensures !Changes(s.rows, n, id) {
        QuietKeepsTerminal(cfg, s, e, id);
      }
  }

  lemma OverwritesTarget(s: Sys, e: Event, id: RunId)
    requires Enabled(s, e) && TargetOf(s, e) == Some(id)
    ensures OverwritesTerminal(s, e) ==> IsTerminal(s.rows, id)
  {
  }

  lemma QuietKeepsTerminal(cfg: Config, s: Sys, e: Event, id: RunId)
    requires Enabled(s, e) && TargetOf(s, e).None? && s.rows.Keys <= s.log.Keys && IsTerminal(s.rows, id)
    ensures id in Next(cfg, s, e).rows ==> Next(cfg, s, e).rows[id].status == s.rows[id].status
  {
    RejectedKeeps(s, e);
  }

  /** What a finishing write or a cancel asks for: one row, with its spec kept. */
  lemma AskedTarget(cfg: Config, s: Sys, e: Event, id: RunId)
    requires Enabled(s, e) && TargetOf(s, e) == Some(id)
    ensures id !in s.rows ==> Asked(cfg, s, e) == s.rows
    ensures id in s.rows ==> var t := Asked(cfg, s, e);
      id in t && t == s.rows[id := t[id]] && t[id].spec == s.rows[id].spec
  {
  }

  lemma StatusAsked(cfg: Config, s: Sys, e: Event, id: RunId)
    requires Enabled(s, e) && IsTerminal(s.rows, id) && TargetOf(s, e) == Some(id)
    ensures id in Asked(cfg, s, e)
    ensures var r := Asked(cfg, s, e)[id];
      OverwritesTerminal(s, e) <==>
        if r.status.Active() then !KeyTaken(s.rows, id, r.spec.dedupeKey) else r.status != s.rows[id].status
  {
  }

  /** The table after the step is the one it asked for, or the old one when the index rejected it. */
  lemma NextRows(cfg: Config, s: Sys, e: Event)
    requires Enabled(s, e)
    ensures Next(cfg, s, e).rows == if UniqueActive(Asked(cfg, s, e)) then Asked(cfg, s, e) else s.rows
  {
    RejectedKeeps(s, e);
  }

  lemma OthersKept(cfg: Config, s: Sys, e: Event, id: RunId, j: RunId)
    requires Enabled(s, e) && TargetOf(s, e) == Some(id) && j in s.rows && j != id
    ensures j in Next(cfg, s, e).rows && Next(cfg, s, e).rows[j] == s.rows[j]
  {
    NextRows(cfg, s, e);
    AskedTarget(cfg, s, e, id);
  }

  lemma TargetChangesIff(cfg: Config, s: Sys, e: Event, id: RunId)
    requires Enabled(s, e) && Inv(cfg, s) && TargetOf(s, e) == Some(id)
    ensures IsTerminal(s.rows, id) ==> (Changes(s.rows, Next(cfg, s, e).rows, id) <==> OverwritesTerminal(s, e))
  {
    NextRows(cfg, s, e);
    AskedTarget(cfg, s, e, id);
    if IsTerminal(s.rows, id) {
      StatusAsked(cfg, s, e, id);
      IndexAfterUpdate(s.rows, id, Asked(cfg, s, e)[id]);
    }
  }
}
