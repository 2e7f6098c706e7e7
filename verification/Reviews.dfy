/** Review decisions on cases, the history they leave and the follow-up tasks they open and close. */
module Reviews {
  import opened Wrappers
  import opened Generations

  type Time = int  // seconds

  const HOUR: int := 3600
  const MAX_REASON: nat := 500

  datatype Status = Unhandled | Investigating | ConfirmedFraud | White

  /** A decision as one call records it for every case it matches. */
  datatype Act = Act(status: Status, reason: string, who: string, at: Time)

  /** A row of fraud_alert_review_events; the state table holds the same fields under the case key. */
  datatype Event = Event(caseKey: string, findingKey: string, act: Act)

  datatype TaskType = PayoutHold | PartnerNotice | EvidencePreservation

  datatype TaskStatus = Open | Completed | Cancelled

  datatype Task = Task(
    id: nat, status: TaskStatus, createdBy: string, createdAt: Time, due: Time,
    completedBy: Option<string>, completedAt: Option<Time>)

  type TaskKey = (string, TaskType)

  /** The review tables; a fresh task id is the next number. */
  datatype Desk = Desk(states: map<string, Event>, events: seq<Event>, tasks: map<TaskKey, Task>, nextId: nat)

  const CLEAN_DESK: Desk := Desk(map[], [], map[], 0)

  function DueHours(t: TaskType): nat {
    match t case PayoutHold => 1 case PartnerNotice => 4 case EvidencePreservation => 24
  }

  // ---- which findings a request means ----

  /** The current findings whose finding key or case key was requested. */
  function Matched(s: Store, keys: set<string>): set<string> {
    set k | k in s.findings && s.findings[k].isCurrent && (k in keys || s.findings[k].caseKey in keys)
  }

  function CaseKeys(s: Store, ks: set<string>): set<string>
    requires ks <= s.findings.Keys
  {
    set k | k in ks :: s.findings[k].caseKey
  }

  /** `_fetch_matching_case_keys`: the requested keys that are the finding key or case key of a current finding. */
  function MatchedInputs(s: Store, keys: set<string>): set<string> {
    (Matched(s, keys) + CaseKeys(s, Matched(s, keys))) * keys
  }

  // ---- the writes of one call ----

  function CasesOf(s: Store, rows: seq<string>): seq<string>
    requires forall k | k in rows :: k in s.findings
  {
    seq(|rows|, i requires 0 <= i < |rows| => s.findings[rows[i]].caseKey)
  }

  /** The payload of the call: one event for each row. */
  function NewEvents(s: Store, rows: seq<string>, act: Act): seq<Event>
    requires forall k | k in rows :: k in s.findings
  {
    seq(|rows|, i requires 0 <= i < |rows| => Event(s.findings[rows[i]].caseKey, rows[i], act))
  }

  /** The upserts into the state table. */
  function Recorded(states: map<string, Event>, added: seq<Event>): map<string, Event>
    decreases |added|
  {
    if added == [] then states
    else Recorded(states, added[..|added| - 1])[added[|added| - 1].caseKey := added[|added| - 1]]
  }

  /** The task rows a confirmation writes: every type for every case. */
  function TaskKeys(cases: seq<string>): seq<TaskKey> {
    if cases == [] then []
    else
      var c := cases[|cases| - 1];
      TaskKeys(cases[..|cases| - 1]) + [(c, PayoutHold), (c, PartnerNotice), (c, EvidencePreservation)]
  }

  /** Insert the task, or refresh it: a completed one stays completed, any other becomes open. */
  function Opened(tasks: map<TaskKey, Task>, key: TaskKey, id: nat, act: Act): map<TaskKey, Task> {
    var due := act.at + DueHours(key.1) * HOUR;
    tasks[key := if key in tasks
                 then tasks[key].(due := due, status := if tasks[key].status.Completed? then Completed else Open)
                 else Task(id, Open, act.who, act.at, due, None, None)]
  }

  function OpenedAll(tasks: map<TaskKey, Task>, keys: seq<TaskKey>, id: nat, act: Act): map<TaskKey, Task>
    decreases |keys|
  {
    if keys == [] then tasks
    else
      var n := |keys| - 1;
      Opened(OpenedAll(tasks, keys[..n], id, act), keys[n], id + n, act)
  }

  function CancelledAll(tasks: map<TaskKey, Task>, cases: seq<string>): map<TaskKey, Task> {
    map key | key in tasks ::
      if key.0 in cases && !tasks[key].status.Completed? then tasks[key].(status := Cancelled) else tasks[key]
  }

  /** `_sync_followup_tasks`. */
  function Synced(d: Desk, cases: seq<string>, act: Act): map<TaskKey, Task> {
    match act.status
    case ConfirmedFraud => OpenedAll(d.tasks, TaskKeys(cases), d.nextId, act)
    case White | Unhandled => CancelledAll(d.tasks, cases)
    case Investigating => d.tasks
  }

  /** `apply_alert_reviews` for the matched rows, in the order the query gave them. */
  function Reviewed(d: Desk, s: Store, rows: seq<string>, act: Act): Desk
    requires forall k | k in rows :: k in s.findings
  {
    var cases, added := CasesOf(s, rows), NewEvents(s, rows, act);
    Desk(Recorded(d.states, added), d.events + added, Synced(d, cases, act),
         if act.status.ConfirmedFraud? then d.nextId + |TaskKeys(cases)| else d.nextId)
  }

  /** `update_followup_task_status`, called with open or completed only. */
  function TaskSet(d: Desk, id: nat, completed: bool, who: string, at: Time): Desk {
    d.(tasks := map key | key in d.tasks ::
      if d.tasks[key].id != id then d.tasks[key]
      else if completed then d.tasks[key].(status := Completed, completedBy := Some(who), completedAt := Some(at))
      else d.tasks[key].(status := Open, completedBy := None, completedAt := None))
  }

  // ---- the invariant ----

  /** The case's last event in the history. */
  function Latest(events: seq<Event>, c: string): Option<Event>
    decreases |events|
  {
    if events == [] then None
    else if events[|events| - 1].caseKey == c then Some(events[|events| - 1])
    else Latest(events[..|events| - 1], c)
  }

  function StateOf(states: map<string, Event>, c: string): Option<Event> {
    if c in states then Some(states[c]) else None
  }

  ghost predicate StatesAreLatest(d: Desk) {
    forall c :: StateOf(d.states, c) == Latest(d.events, c)
  }

  predicate TaskOk(t: Task) { t.completedAt.Some? == t.completedBy.Some? == t.status.Completed? }

  predicate TasksOk(tasks: map<TaskKey, Task>, nextId: nat) {
    && (forall key | key in tasks :: TaskOk(tasks[key]) && tasks[key].id < nextId)
    && (forall key, key' | key in tasks && key' in tasks && tasks[key].id == tasks[key'].id :: key == key')
  }

  /** What the latest decision says about the three tasks of a case. */
  predicate TasksFollow(tasks: map<TaskKey, Task>, c: string, state: Option<Event>) {
    forall t: TaskType ::
      && ((c, t) in tasks ==> state.Some?)
      && (state.Some? && state.value.act.status.ConfirmedFraud? ==> (c, t) in tasks && !tasks[(c, t)].status.Cancelled?)
  }

  ghost predicate Inv(d: Desk) {
    StatesAreLatest(d) && TasksOk(d.tasks, d.nextId) && forall c :: TasksFollow(d.tasks, c, StateOf(d.states, c))
  }

  // ---- states and events ----

  lemma {:induction false} RecordedIsLatest(states: map<string, Event>, events: seq<Event>, added: seq<Event>,
                                            c: string)
    requires StateOf(states, c) == Latest(events, c)
    ensures StateOf(Recorded(states, added), c) == Latest(events + added, c)
    decreases |added|
  {
    if added == [] {
      assert events + added == events;
    } else {
      var n := |added| - 1;
      RecordedIsLatest(states, events, added[..n], c);
      assert (events + added)[..|events + added| - 1] == events + added[..n];
    }
  }

  /** After a call the matched cases have the call's decision as their state, and no other case has a new state. */
  lemma {:induction false} RecordedStates(states: map<string, Event>, added: seq<Event>, c: string)
    ensures (forall i | 0 <= i < |added| :: added[i].caseKey != c) ==>
              StateOf(Recorded(states, added), c) == StateOf(states, c)
    ensures forall i | 0 <= i < |added| && added[i].caseKey == c ::
              exists j ::
                0 <= j < |added| && added[j].caseKey == c && StateOf(Recorded(states, added), c) == Some(added[j])
    decreases |added|
  {
    if added != [] {
      var n := |added| - 1;
      RecordedStates(states, added[..n], c);
      if i :| 0 <= i < n && added[..n][i].caseKey == c {
        var j :|
          0 <= j < n && added[..n][j].caseKey == c && StateOf(Recorded(states, added[..n]), c) == Some(added[..n][j]);
        assert added[j].caseKey == c;
      }
      assert added[n].caseKey == c ==> StateOf(Recorded(states, added), c) == Some(added[n]);
    }
  }

  /** Current case keys are unique, so no two matched rows are of one case. */
  lemma CasesDistinct(s: Store, keys: set<string>, rows: seq<string>)
    requires Generations.Inv(s) && Lists(rows, Matched(s, keys))
    ensures NoRepeat(CasesOf(s, rows)) && Elems(CasesOf(s, rows)) == CaseKeys(s, Matched(s, keys))
  {
    var cases := CasesOf(s, rows);
    forall i, j | 0 <= i < j < |rows| ensures cases[i] != cases[j] {
      assert rows[i] in rows && rows[j] in rows;
      if cases[i] == cases[j] { OneCurrentPerCase(s, rows[i], rows[j]); }
    }
    forall c ensures c in Elems(cases) <==> c in CaseKeys(s, Matched(s, keys)) {
      if c in CaseKeys(s, Matched(s, keys)) {
        var k :| k in Matched(s, keys) && s.findings[k].caseKey == c;
        var i :| 0 <= i < |rows| && rows[i] == k;
        assert cases[i] == c;
      }
    }
  }

  /** A call appends one event for each matched current case and none for any other, and counts them. */
  lemma OneEventPerCase(s: Store, keys: set<string>, rows: seq<string>, act: Act)
    requires Generations.Inv(s) && Lists(rows, Matched(s, keys))
    ensures var added, cases := NewEvents(s, rows, act), CaseKeys(s, Matched(s, keys));
            && |added| == |cases|
            && (forall c | c in cases :: exists i :: 0 <= i < |added| && added[i].caseKey == c)
            && (forall i | 0 <= i < |added| :: added[i].caseKey in cases && added[i].act == act)
            && (forall i, j | 0 <= i < j < |added| :: added[i].caseKey != added[j].caseKey)
  {
    var cases, added := CasesOf(s, rows), NewEvents(s, rows, act);
    CasesDistinct(s, keys, rows);
    ElemsSize(cases);
    EventsOfCases(s, rows, act);
    forall c | c in Elems(cases) ensures exists i :: 0 <= i < |added| && added[i].caseKey == c {
      EventOf(s, rows, act, c);
    }
  }

  lemma EventsOfCases(s: Store, rows: seq<string>, act: Act)
    requires forall k | k in rows :: k in s.findings
    ensures var cases, added := CasesOf(s, rows), NewEvents(s, rows, act);
            |added| == |cases| && forall i | 0 <= i < |added| ::
              added[i].caseKey == cases[i] && added[i].caseKey in Elems(cases) && added[i].act == act
  {
  }

  lemma EventOf(s: Store, rows: seq<string>, act: Act, c: string)
    requires forall k | k in rows :: k in s.findings
    requires c in CasesOf(s, rows)
    ensures exists i :: 0 <= i < |NewEvents(s, rows, act)| && NewEvents(s, rows, act)[i].caseKey == c
  {
    var i :| 0 <= i < |CasesOf(s, rows)| && CasesOf(s, rows)[i] == c;
    assert NewEvents(s, rows, act)[i].caseKey == c;
  }

  /** Requested keys split into those that name a current finding or case and the missing ones. */
  lemma MissingNamesNothing(s: Store, keys: set<string>, key: string)
    requires key in keys
    ensures key !in MatchedInputs(s, keys) <==>
            forall k | k in s.findings && s.findings[k].isCurrent :: k != key && s.findings[k].caseKey != key
  {
    if k :| k in s.findings && s.findings[k].isCurrent && (k == key || s.findings[k].caseKey == key) {
      assert k in Matched(s, keys);
    }
  }

  // ---- tasks ----

  lemma OpenedKeepsTasks(tasks: map<TaskKey, Task>, key: TaskKey, id: nat, act: Act)
    requires TasksOk(tasks, id)
    ensures TasksOk(Opened(tasks, key, id, act), id + 1)
  {
  }

  /** No task is dropped, gets another id or creator, or leaves the completed state. */
  predicate Extends(tasks': map<TaskKey, Task>, tasks: map<TaskKey, Task>) {
    forall key | key in tasks :: key in tasks' && SameTask(tasks'[key], tasks[key])
  }

  predicate SameTask(t': Task, t: Task) {
    && t'.id == t.id && t'.createdBy == t.createdBy && t'.createdAt == t.createdAt
    && (t.status.Completed? ==> t'.(due := t.due) == t)
  }

  /** A confirmation sets the due time; it creates an open task, or reopens one that is not completed. */
  predicate Refreshed(tasks': map<TaskKey, Task>, tasks: map<TaskKey, Task>, key: TaskKey, act: Act) {
    && key in tasks' && tasks'[key].due == act.at + DueHours(key.1) * HOUR
    && if key in tasks
       then
         tasks'[key].(due := tasks[key].due)
         == tasks[key].(status := if tasks[key].status.Completed? then Completed else Open)
       else tasks'[key] == Task(tasks'[key].id, Open, act.who, act.at, tasks'[key].due, None, None)
  }

  /** A clearing cancels a task that is not completed. */
  predicate Closed(tasks': map<TaskKey, Task>, tasks: map<TaskKey, Task>, key: TaskKey) {
    && (key in tasks' <==> key in tasks)
    && (key in tasks ==>
          tasks'[key] == tasks[key].(status := if tasks[key].status.Completed? then Completed else Cancelled))
  }

  predicate Live(tasks: map<TaskKey, Task>, key: TaskKey) { key in tasks && !tasks[key].status.Cancelled? }

  lemma {:induction false} OpenedAllKeepsTasks(tasks: map<TaskKey, Task>, keys: seq<TaskKey>, id: nat, act: Act)
    requires TasksOk(tasks, id)
    ensures TasksOk(OpenedAll(tasks, keys, id, act), id + |keys|)
    decreases |keys|
  {
    if keys != [] {
      var n := |keys| - 1;
      OpenedAllKeepsTasks(tasks, keys[..n], id, act);
      OpenedKeepsTasks(OpenedAll(tasks, keys[..n], id, act), keys[n], id + n, act);
    }
  }

  /** What a confirmation makes of one task row: kept and live if it was to be opened, untouched otherwise. */
  lemma {:induction false} OpenedAllAt(tasks: map<TaskKey, Task>, keys: seq<TaskKey>, id: nat, act: Act, key: TaskKey)
    ensures var tasks' := OpenedAll(tasks, keys, id, act);
            && (key in tasks ==> key in tasks' && SameTask(tasks'[key], tasks[key]))
            && (key in keys ==> Refreshed(tasks', tasks, key, act))
            && (key !in keys ==> (key in tasks' <==> key in tasks) && (key in tasks ==> tasks'[key] == tasks[key]))
    decreases |keys|
  {
    if keys != [] {
      var n := |keys| - 1;
      OpenedAllAt(tasks, keys[..n], id, act, key);
      assert key in keys <==> key in keys[..n] || key == keys[n];
    }
  }

  lemma {:induction false} AllTypes(cases: seq<string>, key: TaskKey)
    ensures key in TaskKeys(cases) <==> key.0 in cases
  {
    if cases != [] {
      var n := |cases| - 1;
      AllTypes(cases[..n], key);
      assert key.0 in cases <==> key.0 in cases[..n] || key.0 == cases[n];
      assert key.1 == PayoutHold || key.1 == PartnerNotice || key.1 == EvidencePreservation;
      var last := [(cases[n], PayoutHold), (cases[n], PartnerNotice), (cases[n], EvidencePreservation)];
      assert last[0] in last && last[1] in last && last[2] in last;
    }
  }

  predicate Untouched(tasks': map<TaskKey, Task>, tasks: map<TaskKey, Task>, key: TaskKey) {
    (key in tasks' <==> key in tasks) && (key in tasks ==> tasks'[key] == tasks[key])
  }

  predicate Decided(tasks': map<TaskKey, Task>, tasks: map<TaskKey, Task>, cases: seq<string>, key: TaskKey, act: Act) {
    if key.0 !in cases || act.status.Investigating? then Untouched(tasks', tasks, key)
    else if act.status.ConfirmedFraud? then Refreshed(tasks', tasks, key, act)
    else Closed(tasks', tasks, key)
  }

  /**
   What one call does to the tasks: the three of each matched case are refreshed by a confirmation and closed by a
   clearing, all others are left alone.
   */
  lemma SyncedTasks(d: Desk, cases: seq<string>, act: Act)
    ensures Extends(Synced(d, cases, act), d.tasks)
    ensures forall key: TaskKey :: Decided(Synced(d, cases, act), d.tasks, cases, key, act)
  {
    if act.status.ConfirmedFraud? {
      var tasks' := Synced(d, cases, act);
      forall key: TaskKey
        ensures key in d.tasks ==> key in tasks' && SameTask(tasks'[key], d.tasks[key])
        ensures Decided(tasks', d.tasks, cases, key, act)
      {
        AllTypes(cases, key);
        OpenedAllAt(d.tasks, TaskKeys(cases), d.nextId, act, key);
      }
    }
  }

  /**
   So confirming leaves all three tasks of a matched case in place and none cancelled, and clearing leaves none open.
   */
  lemma DecisionTasks(d: Desk, cases: seq<string>, act: Act, key: TaskKey)
    requires key.0 in cases
    ensures act.status.ConfirmedFraud? ==> Live(Synced(d, cases, act), key)
    ensures (act.status.White? || act.status.Unhandled?) && key in Synced(d, cases, act) ==>
              !Synced(d, cases, act)[key].status.Open?
  {
    SyncedTasks(d, cases, act);
    assert Decided(Synced(d, cases, act), d.tasks, cases, key, act);
  }

  /** After a call the matched cases have its decision as their state, and no other case's state changed. */
  lemma StateAfterReview(d: Desk, s: Store, rows: seq<string>, act: Act, c: string)
    requires forall k | k in rows :: k in s.findings
    ensures var before, after := StateOf(d.states, c), StateOf(Reviewed(d, s, rows, act).states, c);
            if c in CasesOf(s, rows) then after.Some? && after.value.act == act else after == before
  {
    var cases, added := CasesOf(s, rows), NewEvents(s, rows, act);
    RecordedStates(d.states, added, c);
    assert forall j | 0 <= j < |added| :: added[j].caseKey == cases[j] && added[j].act == act;
    if c in cases {
      var i :| 0 <= i < |cases| && cases[i] == c;
      assert added[i].caseKey == c;
    }
  }

  // ---- a whole call, in the texts and times of the request ----

  /** The status a request text stands for. */
  predicate Named(text: string, status: Status) {
    || (text == "unhandled" && status == Unhandled)
    || (text == "investigating" && status == Investigating)
    || (text == "confirmed_fraud" && status == ConfirmedFraud)
    || (text == "white" && status == White)
  }

  /** How long after the decision a task is due: one hour, four, or a day. */
  predicate DueAt(t: TaskType, at: Time, due: Time) {
    match t
    case PayoutHold => due == at + 3600
    case PartnerNotice => due == at + 14400
    case EvidencePreservation => due == at + 86400
  }

  /** The task of a case after the decision `text`. */
  predicate TaskAfter(tasks: map<TaskKey, Task>, tasks': map<TaskKey, Task>, key: TaskKey, text: string, who: string,
                      at: Time)
  {
    if text == "confirmed_fraud"
    then
      && key in tasks' && DueAt(key.1, at, tasks'[key].due)
      && if key in tasks
         then
           && tasks'[key].status == (if tasks[key].status == Completed then Completed else Open)
           && tasks'[key].id == tasks[key].id && tasks'[key].createdBy == tasks[key].createdBy
           && tasks'[key].createdAt == tasks[key].createdAt && tasks'[key].completedBy == tasks[key].completedBy
           && tasks'[key].completedAt == tasks[key].completedAt
         else
           && tasks'[key].status == Open && tasks'[key].createdBy == who && tasks'[key].createdAt == at
           && tasks'[key].completedBy.None? && tasks'[key].completedAt.None?
    else if text == "investigating" then Untouched(tasks', tasks, key)
    else
      && (key in tasks' <==> key in tasks)
      && (key in tasks && tasks[key].status == Completed ==> tasks'[key] == tasks[key])
      && (key in tasks && tasks[key].status != Completed ==> tasks'[key] == tasks[key].(status := Cancelled))
  }

  /** The case's state is the decision just made. */
  ghost predicate StateIs(states: map<string, Event>, c: string, text: string, reason: string, who: string, at: Time) {
    && c in states && states[c].caseKey == c && Named(text, states[c].act.status)
    && states[c].act.reason == reason && states[c].act.who == who && states[c].act.at == at
  }

  /** The call writes the decision for the cases, and nothing about any other. */
  ghost predicate Decides(d: Desk, d': Desk, cases: set<string>, text: string, reason: string, who: string, at: Time) {
    && (forall c | c in cases :: StateIs(d'.states, c, text, reason, who, at))
    && (forall c | c !in cases :: StateOf(d'.states, c) == StateOf(d.states, c))
    && (forall key: TaskKey :: if key.0 in cases then TaskAfter(d.tasks, d'.tasks, key, text, who, at)
                               else Untouched(d'.tasks, d.tasks, key))
    && d.events <= d'.events && |d'.events| == |d.events| + |cases|
    && (forall i | |d.events| <= i < |d'.events| ::
          var e := d'.events[i]; e.caseKey in cases && StateOf(d'.states, e.caseKey) == Some(e))
  }

  lemma TasksAfter(d: Desk, cases: seq<string>, act: Act, text: string, key: TaskKey)
    requires Named(text, act.status)
    ensures if key.0 in cases then TaskAfter(d.tasks, Synced(d, cases, act), key, text, act.who, act.at)
            else Untouched(Synced(d, cases, act), d.tasks, key)
  {
    SyncedTasks(d, cases, act);
    assert Decided(Synced(d, cases, act), d.tasks, cases, key, act);
  }

  /** Distinct cases: each new event is what its case's state becomes. */
  lemma {:induction false} RecordedEach(states: map<string, Event>, added: seq<Event>, i: nat)
    requires i < |added| && forall m, n | 0 <= m < n < |added| :: added[m].caseKey != added[n].caseKey
    ensures StateOf(Recorded(states, added), added[i].caseKey) == Some(added[i])
    decreases |added|
  {
    var n := |added| - 1;
    if i < n { RecordedEach(states, added[..n], i); }
  }

  lemma ReviewDecides(d: Desk, s: Store, keys: set<string>, rows: seq<string>, act: Act, text: string)
    requires Generations.Inv(s) && Lists(rows, Matched(s, keys)) && Named(text, act.status)
    ensures forall k | k in rows :: k in s.findings
    ensures Decides(d, Reviewed(d, s, rows, act), CaseKeys(s, Matched(s, keys)), text, act.reason, act.who, act.at)
  {
    var cases, d' := CasesOf(s, rows), Reviewed(d, s, rows, act);
    CasesDistinct(s, keys, rows);
    EventsDecide(d, s, keys, rows, act);
    forall c
      ensures c in Elems(cases) ==> StateIs(d'.states, c, text, act.reason, act.who, act.at)
      ensures c !in Elems(cases) ==> StateOf(d'.states, c) == StateOf(d.states, c)
    {
      StateIsAfter(d, s, rows, act, text, c);
    }
    forall key: TaskKey
      ensures if key.0 in Elems(cases) then TaskAfter(d.tasks, d'.tasks, key, text, act.who, act.at)
              else Untouched(d'.tasks, d.tasks, key)
    {
      TasksAfter(d, cases, act, text, key);
    }
  }

  lemma EventsDecide(d: Desk, s: Store, keys: set<string>, rows: seq<string>, act: Act)
    requires Generations.Inv(s) && Lists(rows, Matched(s, keys))
    ensures forall k | k in rows :: k in s.findings
    ensures var d', cases := Reviewed(d, s, rows, act), CaseKeys(s, Matched(s, keys));
            && d.events <= d'.events && |d'.events| == |d.events| + |cases|
            && forall i | |d.events| <= i < |d'.events| ::
                 var e := d'.events[i]; e.caseKey in cases && StateOf(d'.states, e.caseKey) == Some(e)
  {
    OneEventPerCase(s, keys, rows, act);
    EventsRecorded(d.states, d.events, NewEvents(s, rows, act), CaseKeys(s, Matched(s, keys)));
  }

  lemma EventsRecorded(states: map<string, Event>, events: seq<Event>, added: seq<Event>, cases: set<string>)
    requires |added| == |cases| && forall i | 0 <= i < |added| :: added[i].caseKey in cases
    requires forall i, j | 0 <= i < j < |added| :: added[i].caseKey != added[j].caseKey
    ensures forall i | |events| <= i < |events + added| ::
              var e := (events + added)[i]; e.caseKey in cases && StateOf(Recorded(states, added), e.caseKey) == Some(e)
  {
    forall i | |events| <= i < |events + added|
      ensures var e := (events + added)[i];
              e.caseKey in cases && StateOf(Recorded(states, added), e.caseKey) == Some(e)
    {
      RecordedEach(states, added, i - |events|);
    }
  }

  lemma StateIsAfter(d: Desk, s: Store, rows: seq<string>, act: Act, text: string, c: string)
    requires (forall k | k in rows :: k in s.findings) && Named(text, act.status)
    ensures var states := Reviewed(d, s, rows, act).states;
            && (c in CasesOf(s, rows) ==> StateIs(states, c, text, act.reason, act.who, act.at))
            && (c !in CasesOf(s, rows) ==> StateOf(states, c) == StateOf(d.states, c))
  {
    var added := NewEvents(s, rows, act);
    StateAfterReview(d, s, rows, act, c);
    RecordedStates(d.states, added, c);
    if c in CasesOf(s, rows) {
      var i :| 0 <= i < |CasesOf(s, rows)| && CasesOf(s, rows)[i] == c;
      assert added[i].caseKey == c;
    }
  }

  lemma FollowAfterReview(d: Desk, cases: seq<string>, act: Act, c: string, before: Option<Event>, after: Option<Event>)
    requires TasksFollow(d.tasks, c, before)
    requires if c in cases then after.Some? && after.value.act == act else after == before
    ensures TasksFollow(Synced(d, cases, act), c, after)
  {
    SyncedTasks(d, cases, act);
    forall t: TaskType
      ensures (c, t) in Synced(d, cases, act) ==> after.Some?
      ensures after.Some? && after.value.act.status.ConfirmedFraud? ==> Live(Synced(d, cases, act), (c, t))
    {
      assert Decided(Synced(d, cases, act), d.tasks, cases, (c, t), act);
    }
  }

  lemma ReviewedKeepsInv(d: Desk, s: Store, rows: seq<string>, act: Act)
    requires Inv(d) && forall k | k in rows :: k in s.findings
    ensures Inv(Reviewed(d, s, rows, act))
  {
    var cases, added, d' := CasesOf(s, rows), NewEvents(s, rows, act), Reviewed(d, s, rows, act);
    ReviewedKeepsTasks(d, cases, act);
    forall c
      ensures StateOf(d'.states, c) == Latest(d'.events, c)
      ensures TasksFollow(d'.tasks, c, StateOf(d'.states, c))
    {
      RecordedIsLatest(d.states, d.events, added, c);
      StateAfterReview(d, s, rows, act, c);
      FollowAfterReview(d, cases, act, c, StateOf(d.states, c), StateOf(d'.states, c));
    }
  }

  lemma ReviewedKeepsTasks(d: Desk, cases: seq<string>, act: Act)
    requires TasksOk(d.tasks, d.nextId)
    ensures TasksOk(Synced(d, cases, act),
                    if act.status.ConfirmedFraud? then d.nextId + |TaskKeys(cases)| else d.nextId)
  {
    if act.status.ConfirmedFraud? { OpenedAllKeepsTasks(d.tasks, TaskKeys(cases), d.nextId, act); }
  }

  lemma TaskSetKeepsInv(d: Desk, id: nat, completed: bool, who: string, at: Time)
    requires Inv(d)
    ensures Inv(TaskSet(d, id, completed, who, at))
  {
  }
}
