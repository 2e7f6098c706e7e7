/**
 Are the current findings of a date computed from the aggregates stored now? Computations read the watermark, then the
 rows in any number of queries, then replace the generation, while other transactions change the aggregates in between.
 */
module Freshness {
  import opened Wrappers
  import opened Aggregates
  import opened Rollups

  type JobId = nat
  type DateRows = map<GroupKey, Agg>

  /**
   A computation, or the generation it became: the watermark it read and the rows of each of its queries. `touched` is
   history: whether a write has changed the day's rows since the watermark was read.
   */
  datatype Compute = Compute(day: Day, watermark: Option<Time>, seen: seq<DateRows>, settings: Option<string>,
                             touched: bool)

  /**
   The conversion tables, the last stamp written, the computations under way and the current generation of each day.
   */
  datatype World = World(t: Tables, clock: Time, jobs: map<JobId, Compute>, current: map<Day, Compute>)

  function DayRows(agg: map<GroupKey, Agg>, d: Day): DateRows { map k | k in agg && k.day == d :: agg[k] }

  function Stamps(rows: DateRows): set<Time> { set k | k in rows :: rows[k].updatedAt }

  /** MAX(updated_at) over the day's rows, NULL when there are none. */
  ghost function Watermark(rows: DateRows): (w: Option<Time>)
    ensures w.None? <==> rows == map[]
    ensures w.Some? ==> IsMax(w.value, Stamps(rows))
  {
    if rows == map[] then None
    else
      assert Stamps(rows) != {} by { var k :| k in rows; assert rows[k].updatedAt in Stamps(rows); }
      Some(MaxOf(Stamps(rows)))
  }

  /** `bool(SUM(conversion_count))`. */
  predicate HasConversionData(agg: map<GroupKey, Agg>, d: Day) {
    exists k :: k in agg && k.day == d && agg[k].count > 0
  }

  datatype StaleReason = FindingsMissing | SourceAdvanced | SettingsChanged

  /** What the reasons say, given what the report has read. */
  predicate Reports(reasons: seq<StaleReason>, hasData: bool, lineage: Option<Compute>, watermark: Option<Time>,
                    latestSettings: Option<string>, settingsUpdated: bool) {
    && (FindingsMissing in reasons <==> hasData && lineage.None?)
    && (SourceAdvanced in reasons <==>
          hasData && watermark != (if lineage.Some? then lineage.value.watermark else None))
    && (SettingsChanged in reasons <==>
          hasData && if latestSettings.GetOr("") != ""
                     then lineage.None? || lineage.value.settings != latestSettings
                     else settingsUpdated)
  }

  /** `_build_findings_freshness`; the lineage read returns the current generation. */
  method BuildFindingsFreshness(hasData: bool, lineage: Option<Compute>, watermark: Option<Time>,
                                latestSettings: Option<string>, settingsUpdated: bool)
    returns (reasons: seq<StaleReason>)
    ensures Reports(reasons, hasData, lineage, watermark, latestSettings, settingsUpdated)
  {
    reasons := [];
    if hasData {
      if lineage.None? {
        reasons := reasons + [FindingsMissing];
      }
      var source := if lineage.Some? then lineage.value.watermark else None;
      if source != watermark {
        reasons := reasons + [SourceAdvanced];
      }
      if latestSettings.GetOr("") != "" {
        if lineage.None? || lineage.value.settings != latestSettings {
          reasons := reasons + [SettingsChanged];
        }
      } else if settingsUpdated {
        reasons := reasons + [SettingsChanged];
      }
    }
  }

  // ---- the steps ----

  datatype Event =
    | Write(op: Op, stamp: Time)
    | ReadWatermark(job: JobId, day: Day, settings: Option<string>)
    | ReadRows(job: JobId)
    | Install(job: JobId)
    | Crash(job: JobId)

  /** The stamps of a write lie above every earlier stamp and not above the clock after it. */
  predicate Stamped(batch: seq<Entry>, clock: Time, stamp: Time) {
    clock <= stamp && forall e | e in batch :: clock < e.now <= stamp
  }

  predicate StampedOp(op: Op, clock: Time, stamp: Time) {
    match op
    case MergeLogs(batch) => Stamped(batch, clock, stamp)
    case StoreDate(_, batch) => Stamped(batch, clock, stamp)
    case ReplaceDate(_, batch) => Stamped(batch, clock, stamp)
    case _ => clock <= stamp
  }

  predicate Enabled(w: World, e: Event) {
    match e
    case Write(op, stamp) => StampedOp(op, w.clock, stamp)
    case ReadWatermark(job, _, _) => job !in w.jobs
    case ReadRows(job) => job in w.jobs
    case Install(job) => job in w.jobs && w.jobs[job].seen != []
    case Crash(job) => job in w.jobs
  }

  function Touch(c: Compute, t: Tables, t': Tables): Compute {
    c.(touched := c.touched || DayRows(t.agg, c.day) != DayRows(t'.agg, c.day))
  }

  ghost function After(w: World, e: Event): World
    requires Enabled(w, e)
  {
    match e
    case Write(op, stamp) =>
      var t' := Apply(w.t, op);
      World(t', stamp, map j | j in w.jobs :: Touch(w.jobs[j], w.t, t'),
            map d | d in w.current :: Touch(w.current[d], w.t, t'))
    case ReadWatermark(job, day, settings) =>
      w.(jobs := w.jobs[job := Compute(day, Watermark(DayRows(w.t.agg, day)), [], settings, false)])
    case ReadRows(job) =>
      var c := w.jobs[job];
      w.(jobs := w.jobs[job := c.(seen := c.seen + [DayRows(w.t.agg, c.day)])])
    case Install(job) =>
      w.(jobs := w.jobs - {job}, current := w.current[w.jobs[job].day := w.jobs[job]])
    case Crash(job) => w.(jobs := w.jobs - {job})
  }

  const START: World := World(EMPTY_TABLES, 0, map[], map[])

  ghost predicate Legal(events: seq<Event>)
    decreases |events|, 0
  {
    events == [] || (Legal(events[..|events| - 1]) && Enabled(Run(events[..|events| - 1]), events[|events| - 1]))
  }

  ghost function Run(events: seq<Event>): World
    requires Legal(events)
    decreases |events|, 1
  {
    if events == [] then START else After(Run(events[..|events| - 1]), events[|events| - 1])
  }

  // ---- what a write does to a day ----

  /** Rows kept, grown with new stamps or added with new stamps. */
  predicate Grown(agg: map<GroupKey, Agg>, agg': map<GroupKey, Agg>, d: Day, clock: Time) {
    && (forall k | k in agg && k.day == d :: k in agg')
    && (forall k | k in agg' && k.day == d :: (k in agg && agg'[k] == agg[k]) || clock < agg'[k].updatedAt)
  }

  /** Whatever is left of the day was written now. */
  predicate Renewed(agg': map<GroupKey, Agg>, d: Day, clock: Time) {
    forall k | k in agg' && k.day == d :: clock < agg'[k].updatedAt
  }

  lemma CountedGrows(agg0: map<GroupKey, Agg>, agg: map<GroupKey, Agg>, e: Entry, d: Day, clock: Time)
    requires clock < e.now
    ensures Grown(agg0, agg, d, clock) ==> Grown(agg0, Counted(agg, e), d, clock)
    ensures Renewed(agg, d, clock) ==> Renewed(Counted(agg, e), d, clock)
  {
  }

  lemma {:induction false} MergeGrows(t: Tables, batch: seq<Entry>, d: Day, clock: Time, stamp: Time)
    requires Stamped(batch, clock, stamp)
    ensures Grown(t.agg, Merge(t, batch).agg, d, clock)
    decreases |batch|
  {
    if batch != [] {
      var rest, e := batch[..|batch| - 1], batch[|batch| - 1];
      MergeGrows(t, rest, d, clock, stamp);
      CountedGrows(t.agg, Merge(t, rest).agg, e, d, clock);
    }
  }

  lemma {:induction false} StoreDayGrows(t: Tables, day: Day, batch: seq<Entry>, d: Day, clock: Time, stamp: Time)
    requires Stamped(batch, clock, stamp)
    ensures Grown(t.agg, StoreDay(t, day, batch).agg, d, clock)
    ensures Renewed(t.agg, d, clock) ==> Renewed(StoreDay(t, day, batch).agg, d, clock)
    decreases |batch|
  {
    if batch != [] {
      var rest, e := batch[..|batch| - 1], batch[|batch| - 1];
      StoreDayGrows(t, day, rest, d, clock, stamp);
      CountedGrows(t.agg, StoreDay(t, day, rest).agg, e, d, clock);
      CountedGrows(StoreDay(t, day, rest).agg, StoreDay(t, day, rest).agg, e, d, clock);
    }
  }

  lemma WriteGrowsOrRenews(t: Tables, op: Op, d: Day, clock: Time, stamp: Time)
    requires StampedOp(op, clock, stamp)
    ensures Grown(t.agg, Apply(t, op).agg, d, clock) || Renewed(Apply(t, op).agg, d, clock)
  {
    match op
    case MergeLogs(batch) => MergeGrows(t, batch, d, clock, stamp);
    case StoreDate(day, batch) => StoreDayGrows(t, day, batch, d, clock, stamp);
    case ReplaceDate(day, batch) => StoreDayGrows(ClearDay(t, day), day, batch, d, clock, stamp);
    case _ =>
  }

  /** A day whose rows changed has no rows left, or a watermark above every earlier stamp. */
  lemma ChangeAdvances(t: Tables, op: Op, d: Day, clock: Time, stamp: Time)
    requires StampedOp(op, clock, stamp)
    ensures var rows, rows' := DayRows(t.agg, d), DayRows(Apply(t, op).agg, d);
            rows == rows' || Watermark(rows').None? || clock < Watermark(rows').value
  {
    var rows, rows' := DayRows(t.agg, d), DayRows(Apply(t, op).agg, d);
    WriteGrowsOrRenews(t, op, d, clock, stamp);
    if rows != rows' && rows' != map[] {
      var agg' := Apply(t, op).agg;
      if Renewed(agg', d, clock) {
        var k :| k in rows';
        assert k in agg' && clock < agg'[k].updatedAt && rows'[k].updatedAt in Stamps(rows');
      } else {
        assert forall k | k in rows :: k in rows';
        var k :| k in rows' && (k !in rows || rows[k] != rows'[k]);
        assert k in agg' && clock < agg'[k].updatedAt && rows'[k].updatedAt in Stamps(rows');
      }
    }
  }

  // ---- the invariant ----

  /** No stored stamp is above the clock. */
  predicate StampsBelow(agg: map<GroupKey, Agg>, clock: Time) { forall k | k in agg :: agg[k].updatedAt <= clock }

  /**
   Untouched: the watermark and every read are those of the rows now. Touched: the watermark has moved on, or the rows
   are gone.
   */
  ghost predicate Tracks(c: Compute, agg: map<GroupKey, Agg>, clock: Time) {
    var rows := DayRows(agg, c.day);
    && (c.watermark.Some? ==> c.watermark.value <= clock)
    && if !c.touched
       then c.watermark == Watermark(rows) && forall i | 0 <= i < |c.seen| :: c.seen[i] == rows
       else Watermark(rows).None? || c.watermark.None? || c.watermark.value < Watermark(rows).value
  }

  ghost predicate Inv(w: World) {
    && StampsBelow(w.t.agg, w.clock)
    && (forall j | j in w.jobs :: Tracks(w.jobs[j], w.t.agg, w.clock))
    && (forall d | d in w.current :: Tracks(w.current[d], w.t.agg, w.clock))
    && (forall d | d in w.current :: w.current[d].day == d && w.current[d].seen != [])
  }

  lemma WatermarkBelow(agg: map<GroupKey, Agg>, clock: Time, d: Day)
    requires StampsBelow(agg, clock)
    ensures Watermark(DayRows(agg, d)).Some? ==> Watermark(DayRows(agg, d)).value <= clock
  {
  }

  lemma TouchTracks(c: Compute, t: Tables, op: Op, clock: Time, stamp: Time)
    requires Tracks(c, t.agg, clock) && StampedOp(op, clock, stamp)
    ensures Tracks(Touch(c, t, Apply(t, op)), Apply(t, op).agg, stamp)
  {
    ChangeAdvances(t, op, c.day, clock, stamp);
  }

  lemma CountedBelow(agg: map<GroupKey, Agg>, e: Entry, stamp: Time)
    requires StampsBelow(agg, stamp) && e.now <= stamp
    ensures StampsBelow(Counted(agg, e), stamp)
  {
  }

  lemma {:induction false} MergeBelow(t: Tables, batch: seq<Entry>, clock: Time, stamp: Time)
    requires StampsBelow(t.agg, stamp) && Stamped(batch, clock, stamp)
    ensures StampsBelow(Merge(t, batch).agg, stamp)
    decreases |batch|
  {
    if batch != [] {
      MergeBelow(t, batch[..|batch| - 1], clock, stamp);
      CountedBelow(Merge(t, batch[..|batch| - 1]).agg, batch[|batch| - 1], stamp);
    }
  }

  lemma {:induction false} StoreDayBelow(t: Tables, d: Day, batch: seq<Entry>, clock: Time, stamp: Time)
    requires StampsBelow(t.agg, stamp) && Stamped(batch, clock, stamp)
    ensures StampsBelow(StoreDay(t, d, batch).agg, stamp)
    decreases |batch|
  {
    if batch != [] {
      StoreDayBelow(t, d, batch[..|batch| - 1], clock, stamp);
      CountedBelow(StoreDay(t, d, batch[..|batch| - 1]).agg, batch[|batch| - 1], stamp);
    }
  }

  lemma WriteBelow(t: Tables, op: Op, clock: Time, stamp: Time)
    requires StampsBelow(t.agg, clock) && StampedOp(op, clock, stamp)
    ensures StampsBelow(Apply(t, op).agg, stamp)
  {
    match op
    case MergeLogs(batch) => MergeBelow(t, batch, clock, stamp);
    case StoreDate(d, batch) => StoreDayBelow(t, d, batch, clock, stamp);
    case ReplaceDate(d, batch) => StoreDayBelow(ClearDay(t, d), d, batch, clock, stamp);
    case _ =>
  }

  lemma StepKeepsInv(w: World, e: Event)
    requires Inv(w) && Enabled(w, e)
    ensures Inv(After(w, e))
  {
    match e
    case Write(op, stamp) =>
      WriteBelow(w.t, op, w.clock, stamp);
      forall j | j in w.jobs ensures Tracks(After(w, e).jobs[j], Apply(w.t, op).agg, stamp) {
        TouchTracks(w.jobs[j], w.t, op, w.clock, stamp);
      }
      forall d | d in w.current ensures Tracks(After(w, e).current[d], Apply(w.t, op).agg, stamp) {
        TouchTracks(w.current[d], w.t, op, w.clock, stamp);
      }
    case ReadWatermark(_, day, _) => WatermarkBelow(w.t.agg, w.clock, day);
    case _ =>
  }

  lemma {:induction false} InvAlways(events: seq<Event>)
    requires Legal(events)
    ensures Inv(Run(events))
    decreases |events|
  {
    if events != [] {
      InvAlways(events[..|events| - 1]);
      StepKeepsInv(Run(events[..|events| - 1]), events[|events| - 1]);
    }
  }

  // ---- the report ----

  /**
   In every run: for a day with conversions and a current generation, the watermarks agree exactly when no write has
   changed the day's rows since that generation's computation read its watermark.
   */
  lemma SourceAdvancedIff(events: seq<Event>, d: Day)
    requires Legal(events) && d in Run(events).current && HasConversionData(Run(events).t.agg, d)
    ensures Watermark(DayRows(Run(events).t.agg, d)) == Run(events).current[d].watermark <==>
              !Run(events).current[d].touched
  {
    InvAlways(events);
    var k :| k in Run(events).t.agg && k.day == d;
    assert k in DayRows(Run(events).t.agg, d);
  }

  /** And then every query of that computation saw exactly the rows stored now. */
  lemma FreshIsCurrent(events: seq<Event>, d: Day)
    requires Legal(events) && d in Run(events).current && HasConversionData(Run(events).t.agg, d)
    requires Watermark(DayRows(Run(events).t.agg, d)) == Run(events).current[d].watermark
    ensures Run(events).current[d].seen != []
    ensures forall rows | rows in Run(events).current[d].seen :: rows == DayRows(Run(events).t.agg, d)
  {
    SourceAdvancedIff(events, d);
    InvAlways(events);
  }

  /** `get_conversion_findings_lineage`. */
  function Lineage(w: World, d: Day): Option<Compute> { if d in w.current then Some(w.current[d]) else None }

  /**
   The report about a day with conversions, whatever the settings: neither missing nor advanced means that every query
   of the current generation saw exactly the rows stored now; advanced, with a generation, that a write has changed them
   since.
   */
  lemma ReportIsRight(events: seq<Event>, d: Day, reasons: seq<StaleReason>, latestSettings: Option<string>,
                      settingsUpdated: bool)
    requires Legal(events) && HasConversionData(Run(events).t.agg, d)
    requires var w := Run(events);
             Reports(reasons, true, Lineage(w, d), Watermark(DayRows(w.t.agg, d)), latestSettings, settingsUpdated)
    ensures var w := Run(events);
            FindingsMissing !in reasons && SourceAdvanced !in reasons ==>
              d in w.current && w.current[d].seen != [] && forall rows | rows in w.current[d].seen ::
                rows == DayRows(w.t.agg, d)
    ensures d in Run(events).current ==> (SourceAdvanced in reasons <==> Run(events).current[d].touched)
  {
    if d in Run(events).current {
      SourceAdvancedIff(events, d);
      if SourceAdvanced !in reasons { FreshIsCurrent(events, d); }
    }
  }

  // ---- together with the ingestion and the rollups ----

  function Writes(events: seq<Event>): seq<Op>
    decreases |events|
  {
    if events == [] then []
    else
      var rest := Writes(events[..|events| - 1]);
      match events[|events| - 1]
      case Write(op, _) => rest + [op]
      case _ => rest
  }

  lemma {:induction false} TablesAreWrites(events: seq<Event>)
    requires Legal(events)
    ensures Run(events).t == Aggregates.Run(Writes(events))
    decreases |events|
  {
    if events != [] {
      var before := events[..|events| - 1];
      TablesAreWrites(before);
      if events[|events| - 1].Write? {
        assert Writes(events)[..|Writes(events)| - 1] == Writes(before);
      }
    }
  }

  /** The rollups of a day depend on the day's rows alone. */
  lemma RollupsAreLocal(agg: map<GroupKey, Agg>, d: Day)
    ensures FetchRollups(DayRows(agg, d), d) == FetchRollups(agg, d)
  {
    var rows := DayRows(agg, d);
    assert Pairs(rows, d) == Pairs(agg, d);
    forall p | p in Pairs(agg, d) ensures RollupOf(rows, d, p) == RollupOf(agg, d, p) {
      var ks := Rows(agg, d, p);
      SomeRow(agg, d, p);
      assert Rows(rows, d, p) == ks;
      SumSame(rows, agg, ks);
      assert Firsts(rows, ks) == Firsts(agg, ks) && Lasts(rows, ks) == Lasts(agg, ks);
    }
  }

  /**
   A day above the purge horizon that is not reported missing or advanced: the rollups every query of the computation
   could form are those of the raw conversions stored now.
   */
  lemma FreshRollupsAreRaw(events: seq<Event>, d: Day, origin: Day)
    requires Legal(events) && CollisionFree(Writes(events), origin) && d >= Horizon(Writes(events), origin)
    requires d in Run(events).current && HasConversionData(Run(events).t.agg, d)
    requires Watermark(DayRows(Run(events).t.agg, d)) == Run(events).current[d].watermark
    ensures forall rows | rows in Run(events).current[d].seen ::
              FetchRollups(rows, d) == RawRollups(Run(events).t.raw, d)
  {
    FreshIsCurrent(events, d);
    TablesAreWrites(events);
    RollupsRefineRawAlways(Writes(events), origin, d);
    RollupsAreLocal(Run(events).t.agg, d);
  }
}
