/** Reviews, task updates, recomputes and retention in any order: what holds after every run. */
module ReviewRuns {
  import opened Wrappers
  import opened Generations
  import opened Reviews

  datatype World = World(store: Store, desk: Desk)

  datatype Step =
    | Findings(op: Op)
    | Review(keys: set<string>, rows: seq<string>, act: Act)
    | SetTask(id: nat, completed: bool, who: string, at: Reviews.Time)

  /** A review writes the rows its query matched, in any order. */
  ghost predicate Allowed(w: World, step: Step) { step.Review? ==> Lists(step.rows, Matched(w.store, step.keys)) }

  function After(w: World, step: Step): World
    requires step.Review? ==> forall k | k in step.rows :: k in w.store.findings
  {
    match step
    case Findings(op) => w.(store := Apply(w.store, op))
    case Review(_, rows, act) => w.(desk := Reviewed(w.desk, w.store, rows, act))
    case SetTask(id, completed, who, at) => w.(desk := TaskSet(w.desk, id, completed, who, at))
  }

  /** `worlds` is a run of `steps` from empty tables. */
  ghost predicate IsRun(worlds: seq<World>, steps: seq<Step>) {
    && |worlds| == |steps| + 1 && worlds[0] == World(EMPTY, CLEAN_DESK)
    && forall i | 0 <= i < |steps| :: Moves(worlds[i], steps[i], worlds[i + 1])
  }

  ghost predicate Moves(w: World, step: Step, w': World) { Allowed(w, step) && w' == After(w, step) }

  ghost predicate Good(w: World) { Generations.Inv(w.store) && Reviews.Inv(w.desk) }

  lemma MoveKeepsGood(w: World, step: Step, w': World)
    requires Good(w) && Moves(w, step, w')
    ensures Good(w')
  {
    match step
    case Findings(Recompute(b)) => ReplaceKeepsInv(w.store, b);
    case Findings(Retain(cutoff)) => PurgeKeepsInv(w.store, cutoff);
    case Review(_, rows, act) => ReviewedKeepsInv(w.desk, w.store, rows, act);
    case SetTask(id, completed, who, at) => TaskSetKeepsInv(w.desk, id, completed, who, at);
  }

  /** In every reachable state each case's state is its latest event, and the tasks agree with it. */
  lemma {:induction false} GoodAlways(worlds: seq<World>, steps: seq<Step>, i: nat)
    requires IsRun(worlds, steps) && i < |worlds|
    ensures Good(worlds[i])
  {
    if i == 0 {
      assert Good(World(EMPTY, CLEAN_DESK));
    } else {
      GoodAlways(worlds, steps, i - 1);
      assert Moves(worlds[i - 1], steps[i - 1], worlds[i]);
      MoveKeepsGood(worlds[i - 1], steps[i - 1], worlds[i]);
    }
  }

  predicate HasEvent(events: seq<Event>, from: nat, c: string) {
    exists j :: from <= j < |events| && events[j].caseKey == c
  }

  /**
   What one step does to the history: a review appends one event for each current case it matched, anything else
   nothing.
   */
  ghost predicate Appends(w: World, step: Step, events': seq<Event>) {
    if step.Review?
    then
      var cases := CaseKeys(w.store, Matched(w.store, step.keys));
      && w.desk.events <= events' && |events'| == |w.desk.events| + |cases|
      && (forall c | c in cases :: HasEvent(events', |w.desk.events|, c))
      && (forall j | |w.desk.events| <= j < |events'| :: events'[j].caseKey in cases && events'[j].act == step.act)
    else events' == w.desk.events
  }

  lemma MoveAppends(w: World, step: Step, w': World)
    requires Good(w) && Moves(w, step, w')
    ensures Appends(w, step, w'.desk.events)
  {
    if step.Review? {
      var n, added := |w.desk.events|, NewEvents(w.store, step.rows, step.act);
      OneEventPerCase(w.store, step.keys, step.rows, step.act);
      forall c | c in CaseKeys(w.store, Matched(w.store, step.keys)) ensures HasEvent(w'.desk.events, n, c) {
        var j :| 0 <= j < |added| && added[j].caseKey == c;
        assert w'.desk.events[n + j].caseKey == c;
      }
    }
  }

  lemma HistoryGrows(worlds: seq<World>, steps: seq<Step>, i: nat)
    requires IsRun(worlds, steps) && i < |steps|
    ensures Appends(worlds[i], steps[i], worlds[i + 1].desk.events)
  {
    GoodAlways(worlds, steps, i);
    assert Moves(worlds[i], steps[i], worlds[i + 1]);
    MoveAppends(worlds[i], steps[i], worlds[i + 1]);
  }

  /** A task keeps its row, id and creator; it leaves the completed state only when it is itself set to open. */
  predicate Keeps(tasks': map<TaskKey, Task>, tasks: map<TaskKey, Task>, step: Step, key: TaskKey)
    requires key in tasks
  {
    && key in tasks' && tasks'[key].id == tasks[key].id
    && tasks'[key].createdBy == tasks[key].createdBy && tasks'[key].createdAt == tasks[key].createdAt
    && (tasks[key].status.Completed? && !tasks'[key].status.Completed? ==>
          Reopens(step, tasks[key].id))
  }

  predicate Reopens(step: Step, id: nat) { step.SetTask? && step.id == id && !step.completed }

  lemma MoveKeepsTask(w: World, step: Step, w': World, key: TaskKey)
    requires Moves(w, step, w') && key in w.desk.tasks
    ensures Keeps(w'.desk.tasks, w.desk.tasks, step, key)
  {
    if step.Review? { SyncedTasks(w.desk, CasesOf(w.store, step.rows), step.act); }
  }

  predicate Reopened(steps: seq<Step>, i: nat, j: nat, id: nat)
    requires i <= j <= |steps|
  {
    exists n :: i <= n < j && Reopens(steps[n], id)
  }

  /** Over a whole run: one row per case and type, under one id, completed until somebody reopens it. */
  lemma {:induction false} TaskIsStable(worlds: seq<World>, steps: seq<Step>, i: nat, j: nat, key: TaskKey)
    requires IsRun(worlds, steps) && i <= j < |worlds| && key in worlds[i].desk.tasks
    ensures key in worlds[j].desk.tasks && worlds[j].desk.tasks[key].id == worlds[i].desk.tasks[key].id
    ensures worlds[i].desk.tasks[key].status.Completed? && !Reopened(steps, i, j, worlds[i].desk.tasks[key].id)
            ==> worlds[j].desk.tasks[key].status.Completed?
    decreases j - i
  {
    if i < j {
      TaskIsStable(worlds, steps, i, j - 1, key);
      assert Moves(worlds[j - 1], steps[j - 1], worlds[j]);
      MoveKeepsTask(worlds[j - 1], steps[j - 1], worlds[j], key);
    }
  }
}
