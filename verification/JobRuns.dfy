/** Rows of the `job_runs` table, and one function per statement that writes them. */
module JobRuns {
  import opened Wrappers

  type RunId = string
  type Time = int

  datatype Status = Queued | Running | Succeeded | Failed | Cancelled
  {
    predicate Active() { Queued? || Running? }

    predicate Terminal() { !Active() }
  }

  /** The columns fixed at insertion; `date` is the "date" entry of the job parameters. */
  datatype JobSpec = JobSpec(
    jobType: string, date: Option<string>,
    dedupeKey: Option<string>, concurrencyKey: Option<string>,
    priority: int, maxAttempts: nat)

  datatype Row = Row(
    spec: JobSpec, status: Status, attempts: nat,
    queuedAt: Time, startedAt: Option<Time>, finishedAt: Option<Time>, heartbeatAt: Option<Time>,
    nextRetryAt: Option<Time>, lockedUntil: Option<Time>, workerId: Option<string>)

  type Table = map<RunId, Row>

  const RETRY_BASE_SECONDS := 30
  const MAX_RETRY_BACKOFF_SECONDS := 900

  /** The partial unique index on `dedupe_key` over the active rows. */
  ghost predicate UniqueActive(t: Table) {
    forall i, j :: i in t && j in t && SameActiveKey(t[i], t[j]) ==> i == j
  }

  predicate SameActiveKey(a: Row, b: Row) {
    a.status.Active() && b.status.Active() && a.spec.dedupeKey.Some? && a.spec.dedupeKey == b.spec.dedupeKey
  }

  /** Some active row other than `id` carries the dedupe key. */
  predicate KeyTaken(t: Table, id: RunId, key: Option<string>) {
    key.Some? && exists j | j in t :: j != id && t[j].status.Active() && t[j].spec.dedupeKey == key
  }

  /** What every row keeps: the columns that must, or must not, be set in each status. */
  predicate Shape(r: Row, now: Time) {
    match r.status
    case Queued => r.workerId.None? && r.lockedUntil.None?
    case Running =>
      && r.workerId.Some? && r.lockedUntil.Some? && r.startedAt.Some?
      && (r.nextRetryAt.Some? ==> r.nextRetryAt.value <= now)
    case _ => r.finishedAt.Some? && r.lockedUntil.None? && r.nextRetryAt.None?
  }

  // ---- INSERT ----

  function NewRow(spec: JobSpec, now: Time): Row {
    Row(spec.(maxAttempts := if spec.maxAttempts < 1 then 1 else spec.maxAttempts), Queued, 0,
        now, None, None, None, None, None, None)
  }

  // ---- UPDATE ... WHERE status = 'running' AND locked_until < now ----

  predicate Stale(r: Row, now: Time) {
    r.status == Running && r.lockedUntil.Some? && r.lockedUntil.value < now
  }

  function Recovered(r: Row, now: Time): Row {
    r.(status := Queued, workerId := None, lockedUntil := None,
       nextRetryAt := Some(r.nextRetryAt.GetOr(now)))
  }

  function RecoverAll(t: Table, now: Time): Table {
    map id | id in t :: if Stale(t[id], now) then Recovered(t[id], now) else t[id]
  }

  // ---- claim of the next eligible row ----

  predicate Eligible(r: Row, now: Time) {
    r.status == Queued && (r.nextRetryAt.Some? ==> r.nextRetryAt.value <= now)
  }

  /** The order `priority ASC, queued_at ASC`. */
  predicate Before(a: Row, b: Row) {
    a.spec.priority < b.spec.priority || (a.spec.priority == b.spec.priority && a.queuedAt <= b.queuedAt)
  }

  /** `id` is first among the eligible rows that no concurrent transaction has locked. */
  predicate Candidate(t: Table, id: RunId, now: Time, skipped: set<RunId>) {
    && id in t && id !in skipped && Eligible(t[id], now)
    && forall j | j in t && j !in skipped && Eligible(t[j], now) :: Before(t[id], t[j])
  }

  function Acquired(r: Row, now: Time, worker: string, lease: int): Row {
    r.(status := Running, startedAt := Some(r.startedAt.GetOr(now)), heartbeatAt := Some(now),
       lockedUntil := Some(now + lease), workerId := Some(worker))
  }

  // ---- heartbeat ----

  predicate Beats(r: Row, worker: string) { r.status == Running && r.workerId == Some(worker) }

  function Renewed(r: Row, now: Time, lease: int): Row {
    r.(heartbeatAt := Some(now), lockedUntil := Some(now + lease))
  }

  // ---- the finishing statements, guarded by the id alone ----

  function Blocked(r: Row, now: Time, delay: int): Row {
    var retryAt := now + Max(1, delay);
    r.(status := Queued, workerId := None, lockedUntil := None,
       heartbeatAt := Some(retryAt), nextRetryAt := Some(retryAt))
  }

  function Completed(r: Row, now: Time): Row {
    r.(status := Succeeded, finishedAt := Some(now), heartbeatAt := Some(now),
       lockedUntil := None, nextRetryAt := None)
  }

  function CancelledRow(r: Row, now: Time): Row {
    r.(status := Cancelled, finishedAt := Some(now), heartbeatAt := Some(now),
       lockedUntil := None, nextRetryAt := None)
  }

  function Pow2(n: nat): nat { if n == 0 then 1 else 2 * Pow2(n - 1) }

  function RetryBackoff(nextAttempt: int): int {
    Min(MAX_RETRY_BACKOFF_SECONDS, RETRY_BASE_SECONDS * Pow2(Max(0, nextAttempt - 1)))
  }

  /** `backoff_seconds or self._retry_backoff_seconds(...)`: zero counts as not given. */
  function Backoff(given: Option<int>, nextAttempt: int): int {
    if given.Some? && given.value != 0 then given.value else RetryBackoff(nextAttempt)
  }

  predicate Retries(attempts: nat, maxAttempts: nat, retryable: bool) {
    retryable && attempts + 1 < Max(1, maxAttempts)
  }

  /** `attempts` and `maxAttempts` are the values read by the earlier transaction. */
  function FailedRow(r: Row, now: Time, attempts: nat, maxAttempts: nat, retryable: bool, backoff: Option<int>): Row {
    var retry := Retries(attempts, maxAttempts, retryable);
    r.(status := if retry then Queued else Failed,
       attempts := attempts + 1,
       finishedAt := if retry then None else Some(now),
       heartbeatAt := Some(now), lockedUntil := None, workerId := None,
       nextRetryAt := if retry then Some(now + Backoff(backoff, attempts + 1)) else None)
  }

  // ---- DELETE of old terminal rows ----

  predicate Purgeable(r: Row, cutoff: Time) {
    r.status.Terminal() && r.finishedAt.Some? && r.finishedAt.value < cutoff
  }

  function Purged(t: Table, cutoff: Time): Table {
    map id | id in t && !Purgeable(t[id], cutoff) :: t[id]
  }

  /** Retention keeps active rows, and those that finished at the cutoff or later. */
  predicate StaysBeyond(r: Row, cutoff: Time) {
    r.status == Queued || r.status == Running || r.finishedAt.None? || r.finishedAt.value >= cutoff
  }

  // ---- keys ----

  predicate WritesDate(jobType: string) {
    jobType == "ingest_clicks" || jobType == "ingest_conversions" || jobType == "recompute_findings_date"
  }

  /** `_job_concurrency_key`: one key per date for the jobs that write that date. */
  function JobConcurrencyKey(jobType: string, date: Option<string>): Option<string> {
    if WritesDate(jobType) && date.Some? && date.value != "" then Some("date-write:" + date.value)
    else if jobType == "master_sync" then Some("master-sync")
    else None
  }

  // ---- what the job service inserts ----

  /** `JOB_MAX_ATTEMPTS`. */
  function JobMaxAttempts(jobType: string): nat {
    if jobType == "refresh" || jobType == "recompute_findings_date" then 4
    else if jobType == "master_sync" then 2
    else 3
  }

  /** `JOB_PRIORITIES`. */
  function JobPriority(jobType: string): int {
    if jobType == "refresh" then 10
    else if jobType == "ingest_clicks" || jobType == "ingest_conversions" then 20
    else if jobType == "recompute_findings_date" then 30
    else if jobType == "master_sync" then 50
    else 100
  }

  function ServiceSpec(jobType: string, date: Option<string>, dedupeKey: string): JobSpec {
    JobSpec(jobType, date, Some(dedupeKey), JobConcurrencyKey(jobType, date), JobPriority(jobType),
            JobMaxAttempts(jobType))
  }

  /** The five kinds of jobs: their lock, their priority and how often they may be attempted. */
  lemma ServiceSpecs(date: string, key: string)
    requires date != ""
    ensures ServiceSpec("refresh", None, key) == JobSpec("refresh", None, Some(key), None, 10, 4)
    ensures ServiceSpec("ingest_clicks", Some(date), key) ==
              JobSpec("ingest_clicks", Some(date), Some(key), Some("date-write:" + date), 20, 3)
    ensures ServiceSpec("ingest_conversions", Some(date), key) ==
              JobSpec("ingest_conversions", Some(date), Some(key), Some("date-write:" + date), 20, 3)
    ensures ServiceSpec("recompute_findings_date", Some(date), key) ==
              JobSpec("recompute_findings_date", Some(date), Some(key), Some("date-write:" + date), 30, 4)
    ensures ServiceSpec("master_sync", None, key) ==
              JobSpec("master_sync", None, Some(key), Some("master-sync"), 50, 2)
  {
  }

  function RecomputeKey(date: string): string { "recompute_findings_date:" + date }

  function RecomputeSpec(date: string): JobSpec {
    ServiceSpec("recompute_findings_date", Some(date), RecomputeKey(date))
  }

  // ---- properties of single statements ----

  /** The default back-off never shrinks with the attempt number and stays within its two constants. */
  lemma {:induction false} BackoffBounds(m: int, n: int)
    requires m <= n
    ensures 30 <= RetryBackoff(m) <= RetryBackoff(n) <= 900
  {
    Pow2Monotone(Max(0, m - 1), Max(0, n - 1));
    Pow2Monotone(0, Max(0, m - 1));
  }

  /** The seconds between a failure and the retry after so many attempts, in a table of its own. */
  function RetryDelay(attempts: nat): int {
    match attempts
    case 0 => 30
    case 1 => 60
    case 2 => 120
    case 3 => 240
    case 4 => 480
    case _ => 900
  }

  lemma BackoffIsTable(given: Option<int>, attempts: nat)
    ensures Backoff(given, attempts + 1) ==
              if given.Some? && given.value != 0 then given.value else RetryDelay(attempts)
  {
    assert Pow2(5) == 32 && Pow2(4) == 16 && Pow2(3) == 8 && Pow2(2) == 4 && Pow2(1) == 2;
    if attempts >= 5 { Pow2Monotone(5, attempts); }
  }

  /** What a failure with `attempts` counted so far makes of a row: `o` before, `n` after. */
  ghost predicate FailsTo(o: Row, n: Row, now: Time, attempts: nat, maxAttempts: nat, retryable: bool,
                          backoff: Option<int>)
  {
    && n.spec == o.spec && n.queuedAt == o.queuedAt && n.startedAt == o.startedAt
    && n.attempts == attempts + 1 && n.heartbeatAt == Some(now) && n.lockedUntil.None? && n.workerId.None?
    && if retryable && attempts + 1 < maxAttempts
       then n.status == Queued && n.finishedAt.None? && RetriesAt(n, now, attempts, backoff)
       else n.status == Failed && n.finishedAt == Some(now) && n.nextRetryAt.None?
  }

  /** A given back-off is the delay; without one nobody takes the run for half a minute, and all may after fifteen. */
  ghost predicate RetriesAt(n: Row, now: Time, attempts: nat, backoff: Option<int>) {
    if backoff.Some? && backoff.value != 0 then n.nextRetryAt == Some(now + backoff.value)
    else
      && n.nextRetryAt == Some(now + RetryDelay(attempts))
      && (forall t | t < now + 30 :: !Eligible(n, t)) && (forall t | t >= now + 900 :: Eligible(n, t))
  }

  lemma FailedRowIs(o: Row, now: Time, attempts: nat, maxAttempts: nat, retryable: bool, backoff: Option<int>)
    ensures FailsTo(o, FailedRow(o, now, attempts, maxAttempts, retryable, backoff), now, attempts, maxAttempts,
                    retryable, backoff)
  {
    BackoffIsTable(backoff, attempts);
  }

  lemma {:induction false} Pow2Monotone(m: nat, n: nat)
    requires m <= n
    ensures 1 <= Pow2(m) <= Pow2(n)
    decreases n
  {
    if m < n {
      Pow2Monotone(m, n - 1);
    } else if n > 0 {
      Pow2Monotone(m - 1, n - 1);
    }
  }

  /** A recovered row is eligible for every acquire that reads its clock afterwards, and it is stale no more. */
  lemma RecoveredIsEligible(t: Table, id: RunId, now: Time, later: Time)
    requires id in t && Shape(t[id], now) && Stale(t[id], now) && now <= later
    ensures Eligible(RecoverAll(t, now)[id], later)
    ensures RecoverAll(t, now)[id].spec == t[id].spec && RecoverAll(t, now)[id].attempts == t[id].attempts
    ensures forall j | j in t && !Stale(t[j], now) :: RecoverAll(t, now)[j] == t[j]
  {
  }

  /** An update of one row violates the unique index exactly when it re-activates a row whose key is taken. */
  lemma IndexAfterUpdate(t: Table, id: RunId, r: Row)
    requires UniqueActive(t) && id in t && r.spec == t[id].spec
    ensures UniqueActive(t[id := r]) <==>
      !(r.status.Active() && t[id].status.Terminal() && KeyTaken(t, id, r.spec.dedupeKey))
  {
    var t' := t[id := r];
    if r.status.Active() && t[id].status.Terminal() && KeyTaken(t, id, r.spec.dedupeKey) {
      var j :| j in t && j != id && t[j].status.Active() && t[j].spec.dedupeKey == r.spec.dedupeKey;
      assert SameActiveKey(t'[id], t'[j]);
    } else {
      forall i, j | i in t' && j in t' && SameActiveKey(t'[i], t'[j]) ensures i == j {
        if t[id].status.Active() || (i != id && j != id) { assert SameActiveKey(t[i], t[j]); }
      }
    }
  }

  /** Some eligible row comes first, so the claim finds one whenever one is visible. */
  lemma {:induction false} CandidateExists(t: Table, now: Time, skipped: set<RunId>, pool: set<RunId>)
    returns (best: RunId)
    requires pool != {} && forall j | j in pool :: j in t && j !in skipped && Eligible(t[j], now)
    ensures best in pool && forall j | j in pool :: Before(t[best], t[j])
    decreases pool
  {
    best :| best in pool;
    var rest := pool - {best};
    if rest != {} {
      var other := CandidateExists(t, now, skipped, rest);
      if !Before(t[best], t[other]) {
        best := other;
      }
    }
  }
}
