/** What makes a pair suspicious: the rules, the reasons they give and the numbers those are about. */
module DetectorRules {
  import opened Wrappers
  import opened Aggregates
  import opened Rollups
  import opened ClickPadding

  const MICROS: int := 1_000_000
  const EXTRA_WINDOW_SECONDS: nat := 1800
  const EXTRA_WINDOW_THRESHOLD: nat := 10

  datatype Rules = Rules(
    conversionThreshold: int, mediaThreshold: int, programThreshold: int,
    burstThreshold: int, burstWindowSeconds: int,
    minGapSeconds: Option<int>, maxGapSeconds: Option<int>)

  /** Least and greatest time from click to conversion, in microseconds. */
  datatype Gap = Gap(min: int, max: int)

  /** The click-padding numbers the reasons depend on. */
  datatype Padding = Padding(linked: nat, extra: nat, nonBrowser: nat)

  datatype Reason =
    | VolumeReason(threshold: int)
    | MediaReason(threshold: int)
    | ProgramReason(threshold: int)
    | BurstReason(count: nat, seconds: int, window: int)
    | FastReason(threshold: int, seconds: int)
    | SlowReason(threshold: int, seconds: int)
    | LinkedRatioReason(linked: nat, conversions: nat)
    | ExtraWindowReason(extra: nat)
    | NonBrowserReason(nonBrowser: nat, extra: nat)
  {
    predicate AboutPadding() { LinkedRatioReason? || ExtraWindowReason? || NonBrowserReason? }
  }

  datatype Finding = Finding(rollup: Rollup, reasons: seq<Reason>, gap: Option<Gap>, padding: Option<Padding>)

  // ---- gaps ----

  function GapIds(conv: Raw, day: Day, p: IpUa): set<LogId> {
    set id | id in conv && IsConversionOf(conv[id], day, p) && conv[id].clickTime.Some?
  }

  function GapsOf(conv: Raw, ids: set<LogId>): set<int> {
    set id | id in ids && id in conv && conv[id].Conversion? && conv[id].clickTime.Some? ::
      conv[id].time - conv[id].clickTime.value
  }

  // ---- reasons ----

  predicate Prefilter(rules: Rules, r: Rollup) {
    || r.count >= rules.conversionThreshold || r.mediaCount >= rules.mediaThreshold
    || r.programCount >= rules.programThreshold || r.count >= rules.burstThreshold
  }

  predicate GapRules(rules: Rules) { rules.minGapSeconds.Some? || rules.maxGapSeconds.Some? }

  function When(c: bool, r: Reason): seq<Reason> { if c then [r] else [] }

  /** Whole seconds of a duration; `int()` truncates toward zero. */
  function Seconds(micros: int): int { if micros >= 0 then micros / MICROS else -((-micros) / MICROS) }

  function VolumeReasons(rules: Rules, r: Rollup): seq<Reason> {
    When(r.count >= rules.conversionThreshold, VolumeReason(rules.conversionThreshold))
    + When(r.mediaCount >= rules.mediaThreshold, MediaReason(rules.mediaThreshold))
    + When(r.programCount >= rules.programThreshold, ProgramReason(rules.programThreshold))
    + When(r.count >= rules.burstThreshold && r.last - r.first <= rules.burstWindowSeconds * MICROS,
           BurstReason(r.count, Seconds(r.last - r.first), rules.burstWindowSeconds))
  }

  function TimingReasons(rules: Rules, gap: Option<Gap>): seq<Reason> {
    if gap.None? then []
    else
      (if rules.minGapSeconds.Some?
       then When(gap.value.min < rules.minGapSeconds.value * MICROS,
                 FastReason(rules.minGapSeconds.value, Seconds(gap.value.min))) else [])
      + (if rules.maxGapSeconds.Some?
         then When(gap.value.max > rules.maxGapSeconds.value * MICROS,
                   SlowReason(rules.maxGapSeconds.value, Seconds(gap.value.max))) else [])
  }

  /** The ratios compare with 2.0 and 0.7; cross-multiplied they compare integers. */
  function PaddingReasons(r: Rollup, padding: Option<Padding>): seq<Reason> {
    if padding.None? then []
    else
      var m := padding.value;
      When(r.count > 0 && m.linked >= 2 * r.count, LinkedRatioReason(m.linked, r.count))
      + When(m.extra >= EXTRA_WINDOW_THRESHOLD, ExtraWindowReason(m.extra))
      + When(m.extra >= EXTRA_WINDOW_THRESHOLD && 10 * m.nonBrowser >= 7 * m.extra,
             NonBrowserReason(m.nonBrowser, m.extra))
  }

  /** `_reasons_for_rollup`. */
  function ReasonsFor(rules: Rules, r: Rollup, gap: Option<Gap>, padding: Option<Padding>): seq<Reason> {
    VolumeReasons(rules, r) + TimingReasons(rules, gap) + PaddingReasons(r, padding)
  }

  // ---- what the detector is about ----

  /** Everything `find_for_date` reads; `keep` is the browser and datacenter filter, `browser` the useragent test. */
  datatype Source = Source(agg: map<GroupKey, Agg>, conv: Raw, clicks: Raw, day: Day, keep: IpUa -> bool,
                           browser: string -> bool)

  ghost function GapFor(src: Source, rules: Rules, p: IpUa): Option<Gap> {
    var ids := GapIds(src.conv, src.day, p);
    if GapRules(rules) && ids != {} && GapsOf(src.conv, ids) != {}
    then Some(Gap(MinOf(GapsOf(src.conv, ids)), MaxOf(GapsOf(src.conv, ids)))) else None
  }

  ghost function PaddingFor(src: Source, p: IpUa): Option<Padding> {
    if Converts(src.conv, src.day, p)
    then
      var extra := ExtraOf(src.conv, src.clicks, src.day, EXTRA_WINDOW_SECONDS * MICROS, p);
      Some(Padding(|LinkedOf(src.conv, src.clicks, src.day, p)|, |extra|,
                   |OfKind(src.clicks, extra, ua => !src.browser(ua))|))
    else None
  }

  /** The finding a full scan over all rollups would report for the pair, if its reasons are not empty. */
  ghost function FindingFor(src: Source, rules: Rules, p: IpUa): Finding
    requires p in Pairs(src.agg, src.day)
  {
    var r, gap, padding := RollupOf(src.agg, src.day, p), GapFor(src, rules, p), PaddingFor(src, p);
    Finding(r, ReasonsFor(rules, r, gap, padding), gap, padding)
  }

  ghost predicate FullScan(src: Source, rules: Rules, p: IpUa) {
    p in Pairs(src.agg, src.day) && src.keep(p) && FindingFor(src, rules, p).reasons != []
  }

  ghost function FullFindings(src: Source, rules: Rules): map<IpUa, Finding> {
    map p | p in Pairs(src.agg, src.day) && FullScan(src, rules, p) :: FindingFor(src, rules, p)
  }

  /** The pairs the two stages look at. */
  ghost predicate Candidate(src: Source, rules: Rules, p: IpUa) {
    p in Pairs(src.agg, src.day) && (Prefilter(rules, RollupOf(src.agg, src.day, p)) || GapFor(src, rules, p).Some?)
  }

  /**
   No volume, spread, burst or timing reason is missed: what a full scan finds beyond the candidates is about padding
   alone.
   */
  lemma NothingMissed(src: Source, rules: Rules, p: IpUa)
    requires FullScan(src, rules, p) && !Candidate(src, rules, p)
    ensures forall reason | reason in FindingFor(src, rules, p).reasons :: reason.AboutPadding()
  {
    var r := RollupOf(src.agg, src.day, p);
    assert VolumeReasons(rules, r) == [] && TimingReasons(rules, GapFor(src, rules, p)) == [];
  }

  // ---- the same, written out over the logs ----

  /** A conversion of the pair on the day. */
  ghost predicate ConvertsAt(src: Source, p: IpUa, id: LogId) {
    && id in src.conv && src.conv[id].Conversion? && DayOf(src.conv[id].time) == src.day
    && src.conv[id].entryIp == Some(p.ip) && src.conv[id].entryUa == Some(p.ua)
  }

  ghost predicate HasConversion(src: Source, p: IpUa) { exists id :: ConvertsAt(src, p, id) }

  /** One that knows its click. */
  ghost predicate TimedAt(src: Source, p: IpUa, id: LogId) {
    ConvertsAt(src, p, id) && src.conv[id].clickTime.Some?
  }

  ghost predicate GapAt(src: Source, p: IpUa, id: LogId, gap: int) {
    TimedAt(src, p, id) && gap == src.conv[id].time - src.conv[id].clickTime.value
  }

  ghost predicate HasGap(src: Source, p: IpUa, gap: int) { exists id :: GapAt(src, p, id, gap) }

  /** The time from click to conversion that no conversion of the pair undercuts. */
  ghost predicate LeastGap(src: Source, p: IpUa, gap: int) {
    HasGap(src, p, gap) && forall g | HasGap(src, p, g) :: gap <= g
  }

  ghost predicate GreatestGap(src: Source, p: IpUa, gap: int) {
    HasGap(src, p, gap) && forall g | HasGap(src, p, g) :: g <= gap
  }

  /** A click that names one of the pair's conversions, by its id or by its cid. */
  ghost predicate Names(src: Source, p: IpUa, c: LogId, id: LogId) {
    && c in src.clicks && src.clicks[c].Click? && ConvertsAt(src, p, id)
    && (|| (id != "" && src.clicks[c].actionLog == Some(id))
        || (src.clicks[c].trackCid.Some? && src.clicks[c].trackCid.value != ""
            && src.conv[id].cid == src.clicks[c].trackCid))
  }

  ghost predicate IsLinked(src: Source, p: IpUa, c: LogId) { exists id :: Names(src, p, c, id) }

  /** A click of the day for the affiliate and the promotion of one of the pair's conversions. */
  ghost predicate SameOffer(src: Source, p: IpUa, c: LogId, id: LogId) {
    && c in src.clicks && src.clicks[c].Click? && DayOf(src.clicks[c].time) == src.day && ConvertsAt(src, p, id)
    && src.conv[id].user.Some? && src.conv[id].user.value != "" && src.clicks[c].affiliate == src.conv[id].user
    && src.conv[id].program != "" && src.clicks[c].promotion == Some(src.conv[id].program)
  }

  /** The click comes at most half an hour before some conversion of the pair, and after some. */
  ghost predicate Around(src: Source, p: IpUa, t: Time) {
    && (exists id :: ConvertsAt(src, p, id) && src.conv[id].time - 1_800_000_000 <= t)
    && (exists id :: ConvertsAt(src, p, id) && t <= src.conv[id].time + 1_800_000_000)
  }

  ghost predicate IsExtra(src: Source, p: IpUa, c: LogId) {
    (exists id :: SameOffer(src, p, c, id)) && Around(src, p, src.clicks[c].time) && !IsLinked(src, p, c)
  }

  ghost function LinkedClicks(src: Source, p: IpUa): set<LogId> { set c | c in src.clicks && IsLinked(src, p, c) }

  ghost function ExtraClicks(src: Source, p: IpUa): set<LogId> { set c | c in src.clicks && IsExtra(src, p, c) }

  ghost function NonBrowserClicks(src: Source, p: IpUa): set<LogId> {
    set c | c in ExtraClicks(src, p) && c in src.clicks && src.clicks[c].Click? && !src.browser(src.clicks[c].clickUa)
  }

  /** `int()` of a number of seconds: cut toward zero. */
  predicate CutTo(micros: int, seconds: int) {
    if micros >= 0 then 1_000_000 * seconds <= micros < 1_000_000 * (seconds + 1)
    else 1_000_000 * (seconds - 1) < micros <= 1_000_000 * seconds
  }

  /** When each of the nine reasons is given, with which numbers, for a pair with the rollup `r`. */
  ghost predicate Says(src: Source, rules: Rules, r: Rollup, reason: Reason) {
    match reason
    case VolumeReason(t) => t == rules.conversionThreshold && r.count >= t
    case MediaReason(t) => t == rules.mediaThreshold && r.mediaCount >= t
    case ProgramReason(t) => t == rules.programThreshold && r.programCount >= t
    case BurstReason(n, s, w) =>
      && n == r.count && n >= rules.burstThreshold && w == rules.burstWindowSeconds
      && r.last - r.first <= 1_000_000 * w && CutTo(r.last - r.first, s)
    case FastReason(t, s) =>
      rules.minGapSeconds == Some(t) && exists gap :: LeastGap(src, r.pair, gap) && gap < 1_000_000 * t && CutTo(gap, s)
    case SlowReason(t, s) =>
      rules.maxGapSeconds == Some(t)
      && exists gap :: GreatestGap(src, r.pair, gap) && gap > 1_000_000 * t && CutTo(gap, s)
    case LinkedRatioReason(n, of) =>
      HasConversion(src, r.pair) && n == |LinkedClicks(src, r.pair)| && of == r.count && of > 0 && n >= 2 * of
    case ExtraWindowReason(n) => HasConversion(src, r.pair) && n == |ExtraClicks(src, r.pair)| && n >= 10
    case NonBrowserReason(n, of) =>
      && HasConversion(src, r.pair) && n == |NonBrowserClicks(src, r.pair)| && of == |ExtraClicks(src, r.pair)|
      && of >= 10 && 10 * n >= 7 * of
  }

  /** What the two stages look at, and what is worth reporting of it. */
  ghost predicate Suspect(src: Source, rules: Rules, r: Rollup) {
    && src.keep(r.pair)
    && (|| r.count >= rules.conversionThreshold || r.mediaCount >= rules.mediaThreshold
        || r.programCount >= rules.programThreshold || r.count >= rules.burstThreshold
        || ((rules.minGapSeconds.Some? || rules.maxGapSeconds.Some?) && exists id :: TimedAt(src, r.pair, id)))
    && exists reason :: Says(src, rules, r, reason)
  }

  /** The reasons of a finding are those that are given, in a fixed order, each once. */
  ghost predicate SaysExactly(src: Source, rules: Rules, f: Finding) {
    && (forall reason :: reason in f.reasons <==> Says(src, rules, f.rollup, reason))
    && forall i, j | 0 <= i < j < |f.reasons| :: Rank(f.reasons[i]) < Rank(f.reasons[j])
  }

  /** The gap and padding numbers a finding shows. */
  ghost predicate Shows(src: Source, rules: Rules, f: Finding) {
    var p := f.rollup.pair;
    && (f.gap.Some? <==>
          (rules.minGapSeconds.Some? || rules.maxGapSeconds.Some?) && exists id :: TimedAt(src, p, id))
    && (f.gap.Some? ==> LeastGap(src, p, f.gap.value.min) && GreatestGap(src, p, f.gap.value.max))
    && (f.padding.Some? <==> HasConversion(src, p))
    && (f.padding.Some? ==>
          f.padding.value == Padding(|LinkedClicks(src, p)|, |ExtraClicks(src, p)|, |NonBrowserClicks(src, p)|))
  }

  function Rank(reason: Reason): nat {
    match reason
    case VolumeReason(_) => 0
    case MediaReason(_) => 1
    case ProgramReason(_) => 2
    case BurstReason(_, _, _) => 3
    case FastReason(_, _) => 4
    case SlowReason(_, _) => 5
    case LinkedRatioReason(_, _) => 6
    case ExtraWindowReason(_) => 7
    case NonBrowserReason(_, _) => 8
  }

  // ---- both say the same ----

  lemma SecondsCut(micros: int, s: int)
    ensures CutTo(micros, s) <==> s == Seconds(micros)
  {
  }

  lemma GapsAre(src: Source, p: IpUa, gap: int)
    ensures gap in GapsOf(src.conv, GapIds(src.conv, src.day, p)) <==> HasGap(src, p, gap)
  {
    var ids := GapIds(src.conv, src.day, p);
    if gap in GapsOf(src.conv, ids) {
      var id :| id in ids && id in src.conv && gap == src.conv[id].time - src.conv[id].clickTime.value;
      assert GapAt(src, p, id, gap);
    }
    if HasGap(src, p, gap) {
      var id :| GapAt(src, p, id, gap);
      assert id in ids;
    }
  }

  lemma GapExtremes(src: Source, p: IpUa, gap: int)
    ensures var gaps := GapsOf(src.conv, GapIds(src.conv, src.day, p));
            (LeastGap(src, p, gap) <==> IsMin(gap, gaps)) && (GreatestGap(src, p, gap) <==> IsMax(gap, gaps))
  {
    var gaps := GapsOf(src.conv, GapIds(src.conv, src.day, p));
    forall g ensures g in gaps ==> HasGap(src, p, g) { GapsAre(src, p, g); }
    forall g ensures HasGap(src, p, g) ==> g in gaps { GapsAre(src, p, g); }
  }

  lemma SomeGap(src: Source, p: IpUa)
    ensures GapsOf(src.conv, GapIds(src.conv, src.day, p)) != {} <==> exists id :: TimedAt(src, p, id)
  {
    var gaps := GapsOf(src.conv, GapIds(src.conv, src.day, p));
    if id :| TimedAt(src, p, id) {
      var gap := src.conv[id].time - src.conv[id].clickTime.value;
      assert GapAt(src, p, id, gap);
      GapsAre(src, p, gap);
    }
    if gaps != {} {
      var gap :| gap in gaps;
      GapsAre(src, p, gap);
      var id :| GapAt(src, p, id, gap);
      assert TimedAt(src, p, id);
    }
  }

  /** The gap numbers are the extremes, and are there when a gap rule is set and some conversion is timed. */
  lemma GapForIs(src: Source, rules: Rules, p: IpUa)
    ensures var gap := GapFor(src, rules, p);
            && (gap.Some? <==> GapRules(rules) && exists id :: TimedAt(src, p, id))
            && (gap.Some? ==> (forall g :: LeastGap(src, p, g) <==> g == gap.value.min)
                              && (forall g :: GreatestGap(src, p, g) <==> g == gap.value.max))
  {
    var ids := GapIds(src.conv, src.day, p);
    SomeGap(src, p);
    forall g
      ensures LeastGap(src, p, g) <==> IsMin(g, GapsOf(src.conv, ids))
      ensures GreatestGap(src, p, g) <==> IsMax(g, GapsOf(src.conv, ids))
    {
      GapExtremes(src, p, g);
    }
    if GapsOf(src.conv, ids) != {} {
      var g :| g in GapsOf(src.conv, ids);
      var id :| id in ids && id in src.conv && g == src.conv[id].time - src.conv[id].clickTime.value;
      assert ids != {};
    }
  }

  lemma ConversionIdsAre(src: Source, p: IpUa)
    ensures forall id :: id in ConversionIds(src.conv, src.day, p) <==> ConvertsAt(src, p, id)
    ensures Converts(src.conv, src.day, p) <==> HasConversion(src, p)
  {
    var ids := ConversionIds(src.conv, src.day, p);
    if id :| ConvertsAt(src, p, id) { assert src.conv[id].time in Times(src.conv, ids); }
  }

  lemma LinkedIs(src: Source, p: IpUa)
    ensures LinkedOf(src.conv, src.clicks, src.day, p) == LinkedClicks(src, p)
  {
    var ids := ConversionIds(src.conv, src.day, p);
    var cids := CidsOf(src.conv, ids);
    ConversionIdsAre(src, p);
    forall c | c in src.clicks ensures LinksTo(src.clicks[c], ids, cids) <==> IsLinked(src, p, c) {
      if LinksTo(src.clicks[c], ids, cids) {
        if Given(src.clicks[c].actionLog) && src.clicks[c].actionLog.value in ids {
          assert Names(src, p, c, src.clicks[c].actionLog.value);
        } else {
          var id :| id in ids && id in src.conv && src.conv[id].Conversion? && Given(src.conv[id].cid)
            && src.conv[id].cid.value == src.clicks[c].trackCid.value;
          assert Names(src, p, c, id);
        }
      }
      if id :| Names(src, p, c, id) {
        if src.clicks[c].actionLog != Some(id) || id == "" { assert src.conv[id].cid.value in cids; }
      }
    }
  }

  lemma BucketsAre(src: Source, p: IpUa, c: LogId)
    requires c in src.clicks
    ensures DayOf(src.clicks[c].time) == src.day
            && InBuckets(src.clicks[c], BucketsOf(src.conv, ConversionIds(src.conv, src.day, p)))
       <==> exists id :: SameOffer(src, p, c, id)
  {
    var ids := ConversionIds(src.conv, src.day, p);
    var click := src.clicks[c];
    ConversionIdsAre(src, p);
    if DayOf(click.time) == src.day && InBuckets(click, BucketsOf(src.conv, ids)) {
      var id :| id in ids && id in src.conv && src.conv[id].Conversion? && Given(src.conv[id].user)
        && src.conv[id].program != ""
        && Bucket(src.conv[id].user.value, src.conv[id].program) ==
           Bucket(click.affiliate.value, click.promotion.value);
      assert SameOffer(src, p, c, id);
    }
    if id :| SameOffer(src, p, c, id) {
      assert Bucket(src.conv[id].user.value, src.conv[id].program) in BucketsOf(src.conv, ids);
    }
  }

  lemma WindowIs(src: Source, p: IpUa, t: Time)
    requires Converts(src.conv, src.day, p)
    ensures var times, w := Times(src.conv, ConversionIds(src.conv, src.day, p)), EXTRA_WINDOW_SECONDS * MICROS;
            Around(src, p, t) <==> MinOf(times) - w <= t <= MaxOf(times) + w
  {
    var ids := ConversionIds(src.conv, src.day, p);
    var times := Times(src.conv, ids);
    ConversionIdsAre(src, p);
    var lo :| lo in ids && lo in src.conv && src.conv[lo].time == MinOf(times);
    var hi :| hi in ids && hi in src.conv && src.conv[hi].time == MaxOf(times);
    assert ConvertsAt(src, p, lo) && ConvertsAt(src, p, hi);
    forall id | ConvertsAt(src, p, id) ensures src.conv[id].time in times { assert id in ids; }
  }

  lemma ExtraIs(src: Source, p: IpUa)
    requires Converts(src.conv, src.day, p)
    ensures ExtraOf(src.conv, src.clicks, src.day, EXTRA_WINDOW_SECONDS * MICROS, p) == ExtraClicks(src, p)
  {
    LinkedIs(src, p);
    forall c | c in src.clicks
      ensures c in ExtraOf(src.conv, src.clicks, src.day, EXTRA_WINDOW_SECONDS * MICROS, p) <==> IsExtra(src, p, c)
    {
      BucketsAre(src, p, c);
      WindowIs(src, p, src.clicks[c].time);
      assert c in LinkedClicks(src, p) <==> IsLinked(src, p, c);
    }
  }

  lemma PaddingForIs(src: Source, p: IpUa)
    ensures PaddingFor(src, p) ==
              if HasConversion(src, p)
              then Some(Padding(|LinkedClicks(src, p)|, |ExtraClicks(src, p)|, |NonBrowserClicks(src, p)|))
              else None
  {
    ConversionIdsAre(src, p);
    if Converts(src.conv, src.day, p) {
      LinkedIs(src, p);
      ExtraIs(src, p);
      assert OfKind(src.clicks, ExtraClicks(src, p), ua => !src.browser(ua)) == NonBrowserClicks(src, p);
    }
  }

  lemma VolumeSays(src: Source, rules: Rules, r: Rollup, reason: Reason)
    ensures reason in VolumeReasons(rules, r) <==> Rank(reason) <= 3 && Says(src, rules, r, reason)
  {
    SecondsCut(r.last - r.first, Seconds(r.last - r.first));
    if reason.BurstReason? { SecondsCut(r.last - r.first, reason.seconds); }
  }

  lemma TimingSays(src: Source, rules: Rules, r: Rollup, reason: Reason)
    ensures reason in TimingReasons(rules, GapFor(src, rules, r.pair)) <==>
              4 <= Rank(reason) <= 5 && Says(src, rules, r, reason)
  {
    var gap := GapFor(src, rules, r.pair);
    GapForIs(src, rules, r.pair);
    match reason
    case FastReason(_, s) => FastSays(src, rules, r, reason);
    case SlowReason(_, s) => SlowSays(src, rules, r, reason);
    case _ =>
  }

  lemma FastSays(src: Source, rules: Rules, r: Rollup, reason: Reason)
    requires reason.FastReason?
    ensures reason in TimingReasons(rules, GapFor(src, rules, r.pair)) <==> Says(src, rules, r, reason)
  {
    var gap := GapFor(src, rules, r.pair);
    GapForIs(src, rules, r.pair);
    if gap.Some? {
      SecondsCut(gap.value.min, reason.seconds);
      assert LeastGap(src, r.pair, gap.value.min);
    } else if rules.minGapSeconds.Some? {
      NoTimedNoGap(src, r.pair);
    }
  }

  lemma SlowSays(src: Source, rules: Rules, r: Rollup, reason: Reason)
    requires reason.SlowReason?
    ensures reason in TimingReasons(rules, GapFor(src, rules, r.pair)) <==> Says(src, rules, r, reason)
  {
    var gap := GapFor(src, rules, r.pair);
    GapForIs(src, rules, r.pair);
    if gap.Some? {
      SecondsCut(gap.value.max, reason.seconds);
      assert GreatestGap(src, r.pair, gap.value.max);
    } else if rules.maxGapSeconds.Some? {
      NoTimedNoGap(src, r.pair);
    }
  }

  lemma GapIsTimed(src: Source, p: IpUa, gap: int)
    requires HasGap(src, p, gap)
    ensures exists id :: TimedAt(src, p, id)
  {
    var id :| GapAt(src, p, id, gap);
    assert TimedAt(src, p, id);
  }

  lemma NoTimedNoGap(src: Source, p: IpUa)
    requires !exists id :: TimedAt(src, p, id)
    ensures forall gap :: !LeastGap(src, p, gap) && !GreatestGap(src, p, gap)
  {
    forall gap ensures HasGap(src, p, gap) ==> exists id :: TimedAt(src, p, id) {
      if HasGap(src, p, gap) { GapIsTimed(src, p, gap); }
    }
  }

  lemma PaddingSays(src: Source, rules: Rules, r: Rollup, reason: Reason)
    ensures reason in PaddingReasons(r, PaddingFor(src, r.pair)) <==>
              6 <= Rank(reason) && Says(src, rules, r, reason)
  {
    PaddingForIs(src, r.pair);
  }

  /** Ascending, and all ranks from `lo` to `hi`. */
  ghost predicate Ascends(reasons: seq<Reason>, lo: nat, hi: nat) {
    && (forall reason | reason in reasons :: lo <= Rank(reason) <= hi)
    && forall i, j | 0 <= i < j < |reasons| :: Rank(reasons[i]) < Rank(reasons[j])
  }

  lemma AscendsJoin(a: seq<Reason>, b: seq<Reason>, lo: nat, m: nat, n: nat, hi: nat)
    requires Ascends(a, lo, m) && Ascends(b, n, hi) && lo <= m < n <= hi
    ensures Ascends(a + b, lo, hi)
  {
    forall i, j | 0 <= i < j < |a + b| ensures Rank((a + b)[i]) < Rank((a + b)[j]) {
      assert (a + b)[i] in a || i >= |a|;
      assert (a + b)[j] in b || j < |a|;
    }
  }

  lemma WhenAscends(c: bool, reason: Reason)
    ensures Ascends(When(c, reason), Rank(reason), Rank(reason))
  {
  }

  lemma FourAscend(a: bool, b: bool, c: bool, d: bool, volume: Reason, media: Reason, program: Reason, burst: Reason)
    requires Rank(volume) == 0 && Rank(media) == 1 && Rank(program) == 2 && Rank(burst) == 3
    ensures Ascends(When(a, volume) + When(b, media) + When(c, program) + When(d, burst), 0, 3)
  {
    WhenAscends(a, volume);
    WhenAscends(b, media);
    WhenAscends(c, program);
    WhenAscends(d, burst);
    AscendsJoin(When(a, volume), When(b, media), 0, 0, 1, 1);
    AscendsJoin(When(a, volume) + When(b, media), When(c, program), 0, 1, 2, 2);
    AscendsJoin(When(a, volume) + When(b, media) + When(c, program), When(d, burst), 0, 2, 3, 3);
  }

  lemma VolumeAscends(rules: Rules, r: Rollup)
    ensures Ascends(VolumeReasons(rules, r), 0, 3)
  {
    FourAscend(r.count >= rules.conversionThreshold, r.mediaCount >= rules.mediaThreshold,
               r.programCount >= rules.programThreshold,
               r.count >= rules.burstThreshold && r.last - r.first <= rules.burstWindowSeconds * MICROS,
               VolumeReason(rules.conversionThreshold), MediaReason(rules.mediaThreshold),
               ProgramReason(rules.programThreshold),
               BurstReason(r.count, Seconds(r.last - r.first), rules.burstWindowSeconds));
  }

  lemma TimingAscends(rules: Rules, gap: Option<Gap>)
    ensures Ascends(TimingReasons(rules, gap), 4, 5)
  {
  }

  lemma PaddingAscends(r: Rollup, padding: Option<Padding>)
    ensures Ascends(PaddingReasons(r, padding), 6, 8)
  {
    if padding.Some? {
      var m := padding.value;
      ThreeAscend(r.count > 0 && m.linked >= 2 * r.count, m.extra >= EXTRA_WINDOW_THRESHOLD,
                  m.extra >= EXTRA_WINDOW_THRESHOLD && 10 * m.nonBrowser >= 7 * m.extra,
                  LinkedRatioReason(m.linked, r.count), ExtraWindowReason(m.extra),
                  NonBrowserReason(m.nonBrowser, m.extra));
    }
  }

  lemma ThreeAscend(a: bool, b: bool, c: bool, linked: Reason, extra: Reason, nonBrowser: Reason)
    requires Rank(linked) == 6 && Rank(extra) == 7 && Rank(nonBrowser) == 8
    ensures Ascends(When(a, linked) + When(b, extra) + When(c, nonBrowser), 6, 8)
  {
    WhenAscends(a, linked);
    WhenAscends(b, extra);
    WhenAscends(c, nonBrowser);
    AscendsJoin(When(a, linked), When(b, extra), 6, 6, 7, 7);
    AscendsJoin(When(a, linked) + When(b, extra), When(c, nonBrowser), 6, 7, 8, 8);
  }

  lemma PartsInOrder(rules: Rules, r: Rollup, gap: Option<Gap>, padding: Option<Padding>)
    ensures Ascends(ReasonsFor(rules, r, gap, padding), 0, 8)
  {
    VolumeAscends(rules, r);
    TimingAscends(rules, gap);
    PaddingAscends(r, padding);
    AscendsJoin(VolumeReasons(rules, r), TimingReasons(rules, gap), 0, 3, 4, 5);
    AscendsJoin(VolumeReasons(rules, r) + TimingReasons(rules, gap), PaddingReasons(r, padding), 0, 5, 6, 8);
  }

  /** The reasons of a finding are exactly the given ones. */
  lemma FindingSays(src: Source, rules: Rules, p: IpUa)
    requires p in Pairs(src.agg, src.day)
    ensures SaysExactly(src, rules, FindingFor(src, rules, p)) && Shows(src, rules, FindingFor(src, rules, p))
  {
    GapForIs(src, rules, p);
    PaddingForIs(src, p);
    var f := FindingFor(src, rules, p);
    forall reason ensures reason in f.reasons <==> Says(src, rules, f.rollup, reason) {
      VolumeSays(src, rules, f.rollup, reason);
      TimingSays(src, rules, f.rollup, reason);
      PaddingSays(src, rules, f.rollup, reason);
    }
    PartsInOrder(rules, f.rollup, f.gap, f.padding);
  }

  /** Who is reported, in the same terms. */
  lemma SuspectIs(src: Source, rules: Rules, p: IpUa)
    requires p in Pairs(src.agg, src.day)
    ensures FullScan(src, rules, p) && Candidate(src, rules, p) <==> Suspect(src, rules, RollupOf(src.agg, src.day, p))
  {
    FindingSays(src, rules, p);
    GapForIs(src, rules, p);
    var f := FindingFor(src, rules, p);
    if f.reasons != [] { assert f.reasons[0] in f.reasons; }
  }

  // ---- the timing reasons, once more ----

  /** A finding is called fast exactly when some timed conversion of the pair comes sooner than the rule allows. */
  lemma FastIff(src: Source, rules: Rules, f: Finding)
    requires SaysExactly(src, rules, f)
    ensures (exists t, s :: FastReason(t, s) in f.reasons) <==>
              rules.minGapSeconds.Some?
              && exists gap :: HasGap(src, f.rollup.pair, gap) && gap < 1_000_000 * rules.minGapSeconds.value
  {
    var p := f.rollup.pair;
    if t, s :| FastReason(t, s) in f.reasons { assert Says(src, rules, f.rollup, FastReason(t, s)); }
    if rules.minGapSeconds.Some? {
      if gap :| HasGap(src, p, gap) && gap < 1_000_000 * rules.minGapSeconds.value {
        var least, _ := Extremes(src, p, gap);
        SecondsCut(least, Seconds(least));
        assert Says(src, rules, f.rollup, FastReason(rules.minGapSeconds.value, Seconds(least)));
      }
    }
  }

  lemma SlowIff(src: Source, rules: Rules, f: Finding)
    requires SaysExactly(src, rules, f)
    ensures (exists t, s :: SlowReason(t, s) in f.reasons) <==>
              rules.maxGapSeconds.Some?
              && exists gap :: HasGap(src, f.rollup.pair, gap) && gap > 1_000_000 * rules.maxGapSeconds.value
  {
    var p := f.rollup.pair;
    if t, s :| SlowReason(t, s) in f.reasons { assert Says(src, rules, f.rollup, SlowReason(t, s)); }
    if rules.maxGapSeconds.Some? {
      if gap :| HasGap(src, p, gap) && gap > 1_000_000 * rules.maxGapSeconds.value {
        var _, greatest := Extremes(src, p, gap);
        SecondsCut(greatest, Seconds(greatest));
        assert Says(src, rules, f.rollup, SlowReason(rules.maxGapSeconds.value, Seconds(greatest)));
      }
    }
  }

  lemma Extremes(src: Source, p: IpUa, gap: int) returns (least: int, greatest: int)
    requires HasGap(src, p, gap)
    ensures LeastGap(src, p, least) && GreatestGap(src, p, greatest) && least <= gap <= greatest
  {
    var gaps := GapsOf(src.conv, GapIds(src.conv, src.day, p));
    GapsAre(src, p, gap);
    ExtremesExist(gaps);
    least :| IsMin(least, gaps);
    greatest :| IsMax(greatest, gaps);
    GapExtremes(src, p, least);
    GapExtremes(src, p, greatest);
  }
}
