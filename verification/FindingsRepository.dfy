/** The tables of findings, generations and reviews, and the methods that write them. */
module FindingsRepository {
  import opened Wrappers
  import opened FindingKeys
  import opened Generations
  import opened Reviews
  import opened Text

  datatype Problem = UnsupportedStatus | ReasonRequired | ReasonTooLong

  datatype Answer =
    | Rejected(problem: Problem)
    | Done(requested: nat, matchedCurrent: nat, updated: nat, missing: set<string>)

  function ParseStatus(text: string): Option<Status> {
    if text == "unhandled" then Some(Unhandled)
    else if text == "investigating" then Some(Investigating)
    else if text == "confirmed_fraud" then Some(ConfirmedFraud)
    else if text == "white" then Some(White)
    else None
  }

  function Check(status: string, reason: Option<string>): Option<Problem> {
    var text := Strip(reason.GetOr(""));
    if ParseStatus(status).None? then Some(UnsupportedStatus)
    else if text == "" then Some(ReasonRequired)
    else if |text| > MAX_REASON then Some(ReasonTooLong)
    else None
  }

  /** `_resolve_review_case_keys`: the explicit keys, or the cases of the current rows that a filter shows. */
  function Requested(s: Store, explicit: seq<string>, shown: Option<Finding -> bool>): set<string> {
    var keys := set k | k in explicit && k != "";
    if keys != {} then keys
    else if shown.None? then {}
    else set k | k in s.findings && s.findings[k].isCurrent && shown.value(s.findings[k]) :: s.findings[k].caseKey
  }

  /** What `Requested` comes to: an empty text is no key, and the filter speaks only where there are no keys. */
  lemma RequestedKeys(s: Store, explicit: seq<string>, shown: Option<Finding -> bool>, key: string)
    ensures key in Requested(s, explicit, shown) <==>
              if exists k :: k in explicit && k != "" then key in explicit && key != ""
              else shown.Some? && exists k :: Shown(s, shown.value, k) && s.findings[k].caseKey == key
  {
    var keys := set k | k in explicit && k != "";
    if k :| k in explicit && k != "" { assert k in keys; }
    if keys == {} && shown.Some? {
      if k :| Shown(s, shown.value, k) && s.findings[k].caseKey == key {
        assert key in Requested(s, explicit, shown);
      }
      if key in Requested(s, explicit, shown) {
        var k :| k in s.findings && s.findings[k].isCurrent && shown.value(s.findings[k])
          && s.findings[k].caseKey == key;
        assert Shown(s, shown.value, k);
      }
    }
  }

  predicate Shown(s: Store, filter: Finding -> bool, k: string) {
    k in s.findings && s.findings[k].isCurrent && filter(s.findings[k])
  }

  const STATUS_TEXTS: set<string> := {"unhandled", "investigating", "confirmed_fraud", "white"}

  /** The first thing wrong with a request, if any. */
  predicate Refused(status: string, reason: string, problem: Option<Problem>) {
    && (problem == Some(UnsupportedStatus) <==> status !in STATUS_TEXTS)
    && (problem == Some(ReasonRequired) <==> status in STATUS_TEXTS && reason == "")
    && (problem == Some(ReasonTooLong) <==> status in STATUS_TEXTS && |reason| > 500)
  }

  lemma CheckRefuses(status: string, reason: Option<string>)
    ensures Refused(status, Strip(reason.GetOr("")), Check(status, reason))
    ensures Check(status, reason).None? ==> ParseStatus(status).Some? && Named(status, ParseStatus(status).value)
  {
  }

  /**
   A request for no keys writes nothing; any other writes its decision for each matched case once. The answer counts the
   keys and the cases, and lists the keys that name no current case.
   */
  ghost predicate Concludes(s: Store, keys: set<string>, text: string, act: Act, d: Desk, d': Desk, answer: Answer) {
    var cases := CaseKeys(s, Matched(s, keys));
    && answer == Done(|keys|, |cases|, |cases|, keys - MatchedInputs(s, keys))
    && if keys == {} then d' == d
       else
         && Decides(d, d', cases, text, act.reason, act.who, act.at)
         && exists rows :: Lists(rows, Matched(s, keys)) && d' == Reviewed(d, s, rows, act)
  }

  /** The rows a retention run deletes, or only counts. */
  function Doomed(findings: map<string, Finding>, cutoff: Date): set<string> {
    set k | k in findings && findings[k].date.Before(cutoff)
  }

  lemma PurgeRemovesDoomed(s: Store, cutoff: Date)
    ensures Purge(s, cutoff).findings == s.findings - Doomed(s.findings, cutoff)
  {
  }

  /** The count a dry run reports is the number of rows an executed purge takes away. */
  lemma DoomedCount(s: Store, cutoff: Date)
    ensures |Doomed(s.findings, cutoff)| == |s.findings| - |Purge(s, cutoff).findings|
  {
    var kept := Purge(s, cutoff).findings;
    assert kept.Keys == s.findings.Keys - Doomed(s.findings, cutoff) && Doomed(s.findings, cutoff) <= s.findings.Keys;
    assert |kept.Keys| == |kept| && |s.findings.Keys| == |s.findings|;
  }

  /** What applying a review to the matched rows comes to. */
  lemma ReviewOutcome(s: Store, d: Desk, keys: set<string>, rows: seq<string>, act: Act)
    requires Generations.Inv(s) && Reviews.Inv(d) && Lists(rows, Matched(s, keys))
    ensures forall k | k in rows :: k in s.findings
    ensures Reviews.Inv(Reviewed(d, s, rows, act)) && |NewEvents(s, rows, act)| == |CaseKeys(s, Matched(s, keys))|
  {
    ReviewedKeepsInv(d, s, rows, act);
    OneEventPerCase(s, keys, rows, act);
  }

  lemma ReplaceOutcome(s: Store, b: Batch)
    requires Generations.Inv(s)
    ensures var s' := Replace(s, b);
            Generations.Inv(s') && Renews(s.findings, s'.findings, b) && Succeeds(s.generations, s'.generations, b)
  {
    ReplaceRenews(s, b);
    ReplaceKeepsInv(s, b);
    ReplaceSucceeds(s, b);
  }

  lemma ReplaceSucceeds(s: Store, b: Batch)
    ensures Succeeds(s.generations, Replace(s, b).generations, b)
  {
  }

  lemma ReplaceShows(s: Store, b: Batch)
    ensures ShowsBatch(Replace(s, b), b.date, b)
  {
    CurrentIsBatch(s, b);
  }

  /** Replacing one date leaves what another one shows, and what has not changed about it. */
  lemma ReplaceLeaves(first: Store, s: Store, b: Batch, d: Date, shown: Batch)
    requires KeysKept(s) && d != b.date
    ensures ShowsBatch(s, d, shown) ==> ShowsBatch(Replace(s, b), d, shown)
    ensures SameDate(first, s, d) ==> SameDate(first, Replace(s, b), d)
  {
    OtherDatesKept(s, b, d);
  }

  class SuspiciousFindingsRepository {
    var findings: map<string, Finding>
    var generations: seq<Generation>
    var states: map<string, Event>
    var events: seq<Event>
    var tasks: map<TaskKey, Task>
    var nextId: nat

    function TheStore(): Store reads this { Store(findings, generations) }

    function TheDesk(): Desk reads this { Desk(states, events, tasks, nextId) }

    ghost predicate Valid() reads this { Generations.Inv(TheStore()) && Reviews.Inv(TheDesk()) }

    constructor ()
      ensures Valid() && TheStore() == EMPTY && TheDesk() == CLEAN_DESK
    {
      findings, generations, states, events, tasks, nextId := map[], [], map[], [], map[], 0;
    }

    method UpsertRows(b: Batch)
      modifies this`findings
      ensures findings == Upserted(old(findings), b, |b.detected|)
    {
      for i := 0 to |b.detected|
        invariant findings == Upserted(old(findings), b, i)
      {
        findings := findings[RowOf(b, i).Key() := RowOf(b, i)];
      }
    }

    method ReplaceConversionFindings(b: Batch)
      requires Valid()
      modifies this`findings, this`generations
      ensures Valid() && TheStore() == Replace(old(TheStore()), b)
      ensures Renews(old(findings), findings, b) && Succeeds(old(generations), generations, b)
    {
      ReplaceOutcome(TheStore(), b);
      ReplaceRows(b);
    }

    /** The statements of the replacement. */
    method ReplaceRows(b: Batch)
      modifies this`findings, this`generations
      ensures TheStore() == Replace(old(TheStore()), b) && TheDesk() == old(TheDesk())
    {
      findings := RetiredFindings(findings, b.date);
      generations := WithGeneration(generations, NewGeneration(b));
      UpsertRows(b);
    }

    /** Every target date is replaced under one generation id; the readers of the other dates see no change. */
    method RecomputeFindingsForDates(dates: seq<Date>, detect: Date -> seq<(IpUa, int)>, rule: RuleVersion,
                                     generationId: string)
      requires Valid()
      modifies this`findings, this`generations
      ensures Valid()
      ensures forall d: Date ::
                if d in dates then ShowsBatch(TheStore(), d, Batch(d, detect(d), rule, generationId))
                else SameDate(old(TheStore()), TheStore(), d)
    {
      var rest: set<Date> := set d | d in dates;
      while rest != {}
        invariant Valid() && rest <= set d | d in dates
        invariant forall d: Date ::
                    if d in dates && d !in rest then ShowsBatch(TheStore(), d, Batch(d, detect(d), rule, generationId))
                    else SameDate(old(TheStore()), TheStore(), d)
        decreases rest
      {
        var d :| d in rest;
        var b := Batch(d, detect(d), rule, generationId);
        ghost var before := TheStore();
        ReplaceConversionFindings(b);
        ReplaceShows(before, b);
        rest := rest - {d};
        forall e: Date
          ensures if e in dates && e !in rest
                  then ShowsBatch(TheStore(), e, Batch(e, detect(e), rule, generationId))
                  else SameDate(old(TheStore()), TheStore(), e)
        {
          if e != d { ReplaceLeaves(old(TheStore()), before, b, e, Batch(e, detect(e), rule, generationId)); }
        }
      }
    }

    /** What a dry run reports: the number of rows an executed purge takes away. */
    method CountFindingsBefore(cutoff: Date) returns (count: nat)
      ensures count == |findings| - |Purge(TheStore(), cutoff).findings|
    {
      DoomedCount(TheStore(), cutoff);
      count := |Doomed(findings, cutoff)|;
    }

    method DeleteFindingsBefore(cutoff: Date)
      requires Valid()
      modifies this`findings
      ensures Valid() && findings == Purge(old(TheStore()), cutoff).findings
    {
      ghost var s, d := TheStore(), TheDesk();
      PurgeKeepsInv(s, cutoff);
      PurgeRemovesDoomed(s, cutoff);
      findings := findings - Doomed(findings, cutoff);
      assert TheDesk() == d && TheStore() == Purge(s, cutoff);
    }

    method PurgeFindingsBefore(cutoff: Date, execute: bool) returns (count: nat)
      requires Valid()
      modifies this`findings
      ensures Valid()
      ensures findings == if execute then Purge(old(TheStore()), cutoff).findings else old(findings)
      ensures forall k :: k in findings <==>
                k in old(findings) && (execute ==> Serial(old(findings)[k].date) >= Serial(cutoff))
      ensures forall k | k in findings :: findings[k] == old(findings)[k]
      ensures count == |old(findings)| - |Purge(old(TheStore()), cutoff).findings|
    {
      count := CountFindingsBefore(cutoff);
      forall d: Date ensures d.Before(cutoff) <==> Serial(d) < Serial(cutoff) { BeforeIsSerial(d, cutoff); }
      if execute { DeleteFindingsBefore(cutoff); }
    }

    method SyncFollowupTasks(cases: seq<string>, act: Act)
      modifies this`tasks, this`nextId
      ensures tasks == Synced(Desk(states, events, old(tasks), old(nextId)), cases, act)
      ensures nextId == if act.status.ConfirmedFraud? then old(nextId) + |TaskKeys(cases)| else old(nextId)
    {
      if act.status.ConfirmedFraud? {
        var keys := TaskKeys(cases);
        for i := 0 to |keys|
          invariant tasks == OpenedAll(old(tasks), keys[..i], old(nextId), act) && nextId == old(nextId) + i
        {
          assert keys[..i + 1][..i] == keys[..i];
          tasks := Opened(tasks, keys[i], nextId, act);
          nextId := nextId + 1;
        }
        assert keys[..|keys|] == keys;
      } else if act.status.White? || act.status.Unhandled? {
        tasks := CancelledAll(tasks, cases);
      }
    }

    method WriteEvents(added: seq<Event>)
      modifies this`states, this`events
      ensures states == Recorded(old(states), added) && events == old(events) + added
    {
      for i := 0 to |added|
        invariant states == Recorded(old(states), added[..i])
        modifies this`states
      {
        assert added[..i + 1][..i] == added[..i];
        states := states[added[i].caseKey := added[i]];
      }
      assert added[..|added|] == added;
      events := events + added;
    }

    /** States, events and tasks of the matched rows. */
    method WriteReviews(matched: seq<string>, act: Act) returns (updated: nat)
      requires forall k | k in matched :: k in findings
      modifies this`states, this`events, this`tasks, this`nextId
      ensures TheDesk() == Reviewed(old(TheDesk()), TheStore(), matched, act)
      ensures updated == |NewEvents(TheStore(), matched, act)|
    {
      var added := NewEvents(TheStore(), matched, act);
      WriteEvents(added);
      SyncFollowupTasks(CasesOf(TheStore(), matched), act);
      updated := |added|;
    }

    method ApplyAlertReviews(keys: set<string>, act: Act, ghost text: string)
      returns (updated: nat, ghost rows: seq<string>)
      requires Valid() && Named(text, act.status)
      modifies this`states, this`events, this`tasks, this`nextId
      ensures Valid() && updated == |CaseKeys(TheStore(), Matched(TheStore(), keys))|
      ensures Lists(rows, Matched(TheStore(), keys)) && TheDesk() == Reviewed(old(TheDesk()), TheStore(), rows, act)
      ensures Decides(old(TheDesk()), TheDesk(), CaseKeys(TheStore(), Matched(TheStore(), keys)), text, act.reason,
                      act.who, act.at)
    {
      ghost var s, d := TheStore(), TheDesk();
      var matched := Fetch(Matched(TheStore(), keys));
      rows := matched;
      ReviewOutcome(s, d, keys, rows, act);
      ReviewDecides(d, s, keys, rows, act, text);
      updated := WriteReviews(matched, act);
      assert TheStore() == s;
    }

    /** No row has the id exactly when the answer is not found; otherwise that one row has the new status. */
    method UpdateFollowupTaskStatus(id: nat, completed: bool, who: string, at: Reviews.Time) returns (found: bool)
      requires Valid()
      modifies this`tasks
      ensures Valid() && TheDesk() == TaskSet(old(TheDesk()), id, completed, who, at)
      ensures found <==> exists key :: key in tasks && tasks[key].id == id
      ensures tasks.Keys == old(tasks).Keys && forall key | key in tasks ::
                tasks[key] == if old(tasks)[key].id != id then old(tasks)[key]
                              else if completed
                              then old(tasks)[key].(status := Completed, completedBy := Some(who),
                                                    completedAt := Some(at))
                              else old(tasks)[key].(status := Open, completedBy := None, completedAt := None)
    {
      TaskSetKeepsInv(TheDesk(), id, completed, who, at);
      found := exists key :: key in tasks && tasks[key].id == id;
      tasks := TaskSet(TheDesk(), id, completed, who, at).tasks;
      assert forall key :: key in tasks && tasks[key].id == id <==> key in old(tasks) && old(tasks)[key].id == id;
    }

    /** The part of the request behind its checks. */
    method ReviewKeys(keys: set<string>, act: Act, ghost text: string) returns (answer: Answer)
      requires Valid() && Named(text, act.status)
      modifies this`states, this`events, this`tasks, this`nextId
      ensures Valid()
      ensures Concludes(TheStore(), keys, text, act, old(TheDesk()), TheDesk(), answer)
    {
      if keys == {} {
        assert Matched(TheStore(), keys) == {} && CaseKeys(TheStore(), {}) == {};
        return Done(0, 0, 0, {});
      }
      var matched, inputs := CaseKeys(TheStore(), Matched(TheStore(), keys)), MatchedInputs(TheStore(), keys);
      var updated, rows := ApplyAlertReviews(keys, act, text);
      return Done(|keys|, |matched|, updated, keys - inputs);
    }

    /** A refused or empty request writes nothing; any other writes each matched case once and reports exactly that. */
    method ApplyReviewAction(explicit: seq<string>, shown: Option<Finding -> bool>, status: string,
                             reason: Option<string>,
                             who: string, at: Reviews.Time)
      returns (answer: Answer)
      requires Valid()
      modifies this`states, this`events, this`tasks, this`nextId
      ensures Valid()
      ensures Refused(status, Strip(reason.GetOr("")), if answer.Rejected? then Some(answer.problem) else None)
      ensures answer.Rejected? ==> TheDesk() == old(TheDesk())
      ensures answer.Done? ==>
                && ParseStatus(status).Some?
                && Concludes(TheStore(), Requested(TheStore(), explicit, shown), status,
                             Act(ParseStatus(status).value, Strip(reason.GetOr("")), who, at),
                             old(TheDesk()), TheDesk(), answer)
    {
      CheckRefuses(status, reason);
      if Check(status, reason).Some? {
        return Rejected(Check(status, reason).value);
      }
      var act := Act(ParseStatus(status).value, Strip(reason.GetOr("")), who, at);
      answer := ReviewKeys(Requested(TheStore(), explicit, shown), act, status);
    }
  }
}
