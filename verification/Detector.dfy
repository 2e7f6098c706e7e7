/** The two-stage detector: thresholded rollups first, gap candidates second, then the reasons. */
module Detector {
  import opened Wrappers
  import opened Aggregates
  import opened Rollups
  import opened ClickPadding
  import opened DetectorRules
  import PaddingQueries

  // ---- gaps ----

  function OfPairIds(conv: Raw, ids: set<LogId>, p: IpUa): set<LogId> {
    set id | id in ids && id in conv && PaddingQueries.PairOf(conv[id]) == p
  }

  /** The conversions of the day with a click time and both entry addresses present. */
  function TimedIds(conv: Raw, day: Day): set<LogId> {
    set id | id in conv && conv[id].Conversion? && conv[id].entryIp.Some? && conv[id].entryUa.Some?
      && conv[id].clickTime.Some? && DayOf(conv[id].time) == day
  }

  lemma GapStep(conv: Raw, ids: set<LogId>, id: LogId)
    requires id in conv && conv[id].Conversion? && conv[id].clickTime.Some?
    ensures GapsOf(conv, ids + {id}) == GapsOf(conv, ids) + {conv[id].time - conv[id].clickTime.value}
  {
    assert id in ids + {id};
  }

  lemma OfPairStep(conv: Raw, ids: set<LogId>, id: LogId, p: IpUa)
    requires id in conv
    ensures PaddingQueries.PairOf(conv[id]) == p ==> OfPairIds(conv, ids + {id}, p) == OfPairIds(conv, ids, p) + {id}
    ensures PaddingQueries.PairOf(conv[id]) != p ==> OfPairIds(conv, ids + {id}, p) == OfPairIds(conv, ids, p)
  {
  }

  function AddGap(stats: map<IpUa, Gap>, p: IpUa, gap: int): map<IpUa, Gap> {
    stats[p := if p in stats then Gap(Min(stats[p].min, gap), Max(stats[p].max, gap)) else Gap(gap, gap)]
  }

  ghost predicate GapStat(stats: map<IpUa, Gap>, conv: Raw, ids: set<LogId>, p: IpUa) {
    && (p in stats <==> ids != {})
    && (p in stats ==> IsMin(stats[p].min, GapsOf(conv, ids)) && IsMax(stats[p].max, GapsOf(conv, ids)))
  }

  lemma AddGapStat(stats: map<IpUa, Gap>, conv: Raw, ids: set<LogId>, id: LogId, p: IpUa)
    requires id in conv && conv[id].Conversion? && conv[id].clickTime.Some? && GapStat(stats, conv, ids, p)
    ensures GapStat(AddGap(stats, p, conv[id].time - conv[id].clickTime.value), conv, ids + {id}, p)
  {
    GapStep(conv, ids, id);
    assert ids + {id} != {} by { assert id in ids + {id}; }
    if ids == {} { assert GapsOf(conv, ids) == {}; }
  }

  /** `fetch_click_to_conversion_gaps`: minimum and maximum per pair, updated row by row. */
  method FetchGaps(conv: Raw, day: Day) returns (stats: map<IpUa, Gap>)
    ensures forall p :: GapStat(stats, conv, GapIds(conv, day, p), p)
  {
    stats := map[];
    var rest := TimedIds(conv, day);
    while rest != {}
      invariant rest <= TimedIds(conv, day)
      invariant forall p :: GapStat(stats, conv, OfPairIds(conv, TimedIds(conv, day) - rest, p), p)
      decreases rest
    {
      var id :| id in rest;
      ghost var done, before := TimedIds(conv, day) - rest, stats;
      var p := PaddingQueries.PairOf(conv[id]);
      stats := AddGap(stats, p, conv[id].time - conv[id].clickTime.value);
      rest := rest - {id};
      assert TimedIds(conv, day) - rest == done + {id};
      forall q ensures GapStat(stats, conv, OfPairIds(conv, done + {id}, q), q) {
        OfPairStep(conv, done, id, q);
        assert GapStat(before, conv, OfPairIds(conv, done, q), q);
        if q == p { AddGapStat(before, conv, OfPairIds(conv, done, p), id, p); }
      }
    }
    forall p ensures OfPairIds(conv, TimedIds(conv, day) - rest, p) == GapIds(conv, day, p) {
      assert forall id :: id in OfPairIds(conv, TimedIds(conv, day) - rest, p) <==> id in GapIds(conv, day, p);
    }
  }

  // ---- the loops of find_for_date ----

  /** A query answer: the rollups of exactly the pairs in `s`, each once, in any order. */
  ghost predicate Answers(rs: seq<Rollup>, src: Source, s: set<IpUa>) {
    && (forall i | 0 <= i < |rs| ::
         rs[i].pair in s && rs[i].pair in Pairs(src.agg, src.day) && rs[i] == RollupOf(src.agg, src.day, rs[i].pair))
    && (forall p | p in s :: Listed(rs, p))
    && (forall i, j | 0 <= i < j < |rs| :: rs[i].pair != rs[j].pair)
  }

  predicate Listed(rs: seq<Rollup>, p: IpUa) { exists i :: 0 <= i < |rs| && rs[i].pair == p }

  lemma ListedMore(rs: seq<Rollup>, r: Rollup, p: IpUa)
    requires Listed(rs, p) || r.pair == p
    ensures Listed(rs + [r], p)
  {
    if Listed(rs, p) {
      var i :| 0 <= i < |rs| && rs[i].pair == p;
      assert (rs + [r])[i].pair == p;
    } else {
      assert (rs + [r])[|rs|].pair == p;
    }
  }

  ghost function SuspiciousPairs(src: Source, rules: Rules): set<IpUa> {
    set p | p in Pairs(src.agg, src.day) && src.keep(p) && Prefilter(rules, RollupOf(src.agg, src.day, p))
  }

  /** The gap candidates among the first `n` rollups of the unfiltered query. */
  ghost function GapPairs(src: Source, all: seq<Rollup>, n: nat, gaps: map<IpUa, Gap>): set<IpUa>
    requires n <= |all|
  {
    set i | 0 <= i < n && all[i].pair in gaps && src.keep(all[i].pair) :: all[i].pair
  }

  lemma GapPairsMore(src: Source, all: seq<Rollup>, n: nat, gaps: map<IpUa, Gap>)
    requires n < |all|
    ensures GapPairs(src, all, n + 1, gaps) == GapPairs(src, all, n, gaps)
              + if all[n].pair in gaps && src.keep(all[n].pair) then {all[n].pair} else {}
  {
  }

  function PairsOfList(rs: seq<Rollup>): seq<IpUa> { seq(|rs|, i requires 0 <= i < |rs| => rs[i].pair) }

  lemma AnswersAppend(rs: seq<Rollup>, src: Source, s: set<IpUa>, r: Rollup)
    requires Answers(rs, src, s) && r.pair !in s && r.pair in Pairs(src.agg, src.day)
             && r == RollupOf(src.agg, src.day, r.pair)
    ensures Answers(rs + [r], src, s + {r.pair})
  {
    forall p | p in s + {r.pair} ensures Listed(rs + [r], p) {
      ListedMore(rs, r, p);
    }
  }

  /** The second stage: rollups with gap data that pass the filter and are not in the list yet. */
  method AddGapCandidates(src: Source, suspicious: seq<Rollup>, all: seq<Rollup>, gaps: map<IpUa, Gap>,
                          ghost s: set<IpUa>)
    returns (rollups: seq<Rollup>)
    requires Answers(suspicious, src, s) && Answers(all, src, Pairs(src.agg, src.day))
    ensures Answers(rollups, src, s + GapPairs(src, all, |all|, gaps))
  {
    rollups := suspicious;
    var known := set r | r in suspicious :: r.pair;
    assert known == s by {
      forall p | p in s ensures p in known {
        assert Listed(suspicious, p);
        var i :| 0 <= i < |suspicious| && suspicious[i].pair == p;
        assert suspicious[i] in suspicious;
      }
    }
    for i := 0 to |all|
      invariant known == s + GapPairs(src, all, i, gaps) && Answers(rollups, src, known)
    {
      var candidate := all[i];
      GapPairsMore(src, all, i, gaps);
      if candidate.pair !in gaps || candidate.pair in known || !src.keep(candidate.pair) {
        continue;
      }
      AnswersAppend(rollups, src, known, candidate);
      rollups := rollups + [candidate];
      known := known + {candidate.pair};
    }
  }

  /** The gap dictionary answers every pair like the definition. */
  lemma GapLookup(src: Source, rules: Rules, gaps: map<IpUa, Gap>, p: IpUa)
    requires GapRules(rules) && GapStat(gaps, src.conv, GapIds(src.conv, src.day, p), p)
    ensures GapFor(src, rules, p) == if p in gaps then Some(gaps[p]) else None
  {
    var ids := GapIds(src.conv, src.day, p);
    if p in gaps {
      assert gaps[p].min in GapsOf(src.conv, ids);
    }
  }

  method PaddingNumbers(src: Source, metrics: map<IpUa, Metrics>, p: IpUa) returns (padding: Option<Padding>)
    requires p in metrics <==> ConversionIds(src.conv, src.day, p) != {}
    requires p in metrics ==> IsMetrics(metrics[p], src.conv, src.clicks, src.day, EXTRA_WINDOW_SECONDS * MICROS, p)
    ensures padding == PaddingFor(src, p)
  {
    if p in metrics {
      var m := metrics[p];
      MetricsMeaning(m, src.conv, src.clicks, src.day, EXTRA_WINDOW_SECONDS * MICROS, p, ua => !src.browser(ua));
      padding := Some(Padding(m.linkedClicks, m.extraClicks, CountIf(m.extraUseragents, ua => !src.browser(ua))));
    } else {
      assert Times(src.conv, ConversionIds(src.conv, src.day, p)) == {};
      padding := None;
    }
  }

  /**
   The findings are exactly the filtered candidates with a non-empty reason list, each pair once, each as the full scan
   would report it.
   */
  method FindForDate(src: Source, rules: Rules, suspicious: seq<Rollup>, all: seq<Rollup>)
    returns (findings: seq<Finding>)
    requires Answers(suspicious, src, SuspiciousPairs(src, rules)) && Answers(all, src, Pairs(src.agg, src.day))
    ensures Exact(src, rules, findings)
  {
    var gaps: map<IpUa, Gap> := map[];
    var rollups := suspicious;
    ghost var pairs := SuspiciousPairs(src, rules);
    if GapRules(rules) {
      gaps := FetchGaps(src.conv, src.day);
      if gaps != map[] {
        rollups := AddGapCandidates(src, suspicious, all, gaps, pairs);
        pairs := pairs + GapPairs(src, all, |all|, gaps);
      }
    }
    CandidatesComplete(src, rules, all, gaps, pairs);
    var metrics := PaddingQueries.FetchMetrics(src.conv, src.clicks, src.day,
      EXTRA_WINDOW_SECONDS * MICROS, PairsOfList(rollups), PaddingQueries.CHUNK_SIZE);
    findings := Report(src, rules, rollups, gaps, metrics, pairs);
    ScanIsExact(src, rules, rollups, pairs, findings);
  }

  ghost predicate Exact(src: Source, rules: Rules, findings: seq<Finding>) {
    && Distinct(findings)
    && (forall i | 0 <= i < |findings| :: Reported(src, rules, findings[i]) && Said(src, rules, findings[i]))
    && (forall p :: Reports(findings, p) <==>
          p in Pairs(src.agg, src.day) && Suspect(src, rules, RollupOf(src.agg, src.day, p)))
  }

  /** The finding shows the numbers of its pair, and exactly the reasons they give. */
  ghost predicate Said(src: Source, rules: Rules, f: Finding) {
    f.rollup.pair in Pairs(src.agg, src.day) && f.rollup == RollupOf(src.agg, src.day, f.rollup.pair)
    && SaysExactly(src, rules, f) && Shows(src, rules, f)
  }

  ghost predicate Reported(src: Source, rules: Rules, f: Finding) {
    var p := f.rollup.pair;
    FullScan(src, rules, p) && Candidate(src, rules, p) && f == FindingFor(src, rules, p)
  }

  /** After the second stage the list holds exactly the candidates that pass the filter. */
  lemma CandidatesComplete(src: Source, rules: Rules, all: seq<Rollup>, gaps: map<IpUa, Gap>, pairs: set<IpUa>)
    requires Answers(all, src, Pairs(src.agg, src.day))
    requires GapRules(rules) ==> forall p :: GapStat(gaps, src.conv, GapIds(src.conv, src.day, p), p)
    requires !GapRules(rules) ==> gaps == map[]
    requires pairs == SuspiciousPairs(src, rules) + GapPairs(src, all, |all|, gaps)
            || (gaps == map[] && pairs == SuspiciousPairs(src, rules))
    ensures forall p :: p in pairs <==> src.keep(p) && Candidate(src, rules, p)
  {
    forall p ensures p in pairs <==> src.keep(p) && Candidate(src, rules, p) {
      if GapRules(rules) { GapLookup(src, rules, gaps, p); }
      if p in Pairs(src.agg, src.day) {
        assert Listed(all, p);
        var i :| 0 <= i < |all| && all[i].pair == p;
        assert p in gaps && src.keep(p) ==> all[i].pair in GapPairs(src, all, |all|, gaps);
      }
    }
  }

  /** The findings after the first `i` rollups: of their pairs only, each once, none left out. */
  ghost predicate Scanned(full: map<IpUa, Finding>, rollups: seq<Rollup>, i: nat, findings: seq<Finding>)
    requires i <= |rollups|
  {
    && Distinct(findings)
    && (forall j | 0 <= j < |findings| :: Expected(full, findings[j]) && Among(rollups, i, findings[j].rollup.pair))
    && (forall k | 0 <= k < i && rollups[k].pair in full :: Reports(findings, rollups[k].pair))
  }

  predicate Distinct(findings: seq<Finding>) {
    forall j, k | 0 <= j < k < |findings| :: findings[j].rollup.pair != findings[k].rollup.pair
  }

  predicate Expected(full: map<IpUa, Finding>, f: Finding) { f.rollup.pair in full && f == full[f.rollup.pair] }

  ghost predicate Reports(findings: seq<Finding>, p: IpUa) {
    exists j :: 0 <= j < |findings| && findings[j].rollup.pair == p
  }

  predicate Among(rollups: seq<Rollup>, i: nat, p: IpUa)
    requires i <= |rollups|
  {
    exists k :: 0 <= k < i && rollups[k].pair == p
  }

  lemma AmongMore(rollups: seq<Rollup>, i: nat, p: IpUa)
    requires i < |rollups|
    ensures Among(rollups, i + 1, p) <==> Among(rollups, i, p) || rollups[i].pair == p
  {
  }

  lemma ReportsMore(findings: seq<Finding>, f: Finding, p: IpUa)
    requires Reports(findings, p) || f.rollup.pair == p
    ensures Reports(findings + [f], p)
  {
    if Reports(findings, p) {
      var j :| 0 <= j < |findings| && findings[j].rollup.pair == p;
      assert (findings + [f])[j].rollup.pair == p;
    } else {
      assert (findings + [f])[|findings|].rollup.pair == p;
    }
  }

  lemma ScanSkip(full: map<IpUa, Finding>, rollups: seq<Rollup>, i: nat, findings: seq<Finding>)
    requires i < |rollups| && Scanned(full, rollups, i, findings) && rollups[i].pair !in full
    ensures Scanned(full, rollups, i + 1, findings)
  {
    forall j | 0 <= j < |findings| ensures Among(rollups, i + 1, findings[j].rollup.pair) {
      AmongMore(rollups, i, findings[j].rollup.pair);
    }
  }

  lemma ScanAdd(full: map<IpUa, Finding>, rollups: seq<Rollup>, i: nat, findings: seq<Finding>, f: Finding)
    requires i < |rollups| && Scanned(full, rollups, i, findings) && f.rollup.pair == rollups[i].pair
             && Expected(full, f)
    requires !Among(rollups, i, f.rollup.pair)
    ensures Scanned(full, rollups, i + 1, findings + [f])
  {
    var findings' := findings + [f];
    forall j | 0 <= j < |findings'| ensures Among(rollups, i + 1, findings'[j].rollup.pair) {
      AmongMore(rollups, i, findings'[j].rollup.pair);
    }
    forall k | 0 <= k < i + 1 && rollups[k].pair in full ensures Reports(findings', rollups[k].pair) {
      ReportsMore(findings, f, rollups[k].pair);
    }
  }

  lemma NotAmongBefore(rollups: seq<Rollup>, i: nat)
    requires i < |rollups| && forall j, k | 0 <= j < k < |rollups| :: rollups[j].pair != rollups[k].pair
    ensures !Among(rollups, i, rollups[i].pair)
  {
  }

  /** One turn of the last loop: gap and padding looked up, reasons formed. */
  method OneFinding(src: Source, rules: Rules, rollup: Rollup, gaps: map<IpUa, Gap>, metrics: map<IpUa, Metrics>)
    returns (f: Finding)
    requires rollup.pair in Pairs(src.agg, src.day) && rollup == RollupOf(src.agg, src.day, rollup.pair)
    requires GapRules(rules) ==> GapStat(gaps, src.conv, GapIds(src.conv, src.day, rollup.pair), rollup.pair)
    requires !GapRules(rules) ==> gaps == map[]
    requires rollup.pair in metrics <==> ConversionIds(src.conv, src.day, rollup.pair) != {}
    requires rollup.pair in metrics ==>
               IsMetrics(metrics[rollup.pair], src.conv, src.clicks, src.day, EXTRA_WINDOW_SECONDS * MICROS,
                         rollup.pair)
    ensures f == FindingFor(src, rules, rollup.pair)
  {
    var gap := if rollup.pair in gaps then Some(gaps[rollup.pair]) else None;
    if GapRules(rules) { GapLookup(src, rules, gaps, rollup.pair); }
    var padding := PaddingNumbers(src, metrics, rollup.pair);
    f := Finding(rollup, ReasonsFor(rules, rollup, gap, padding), gap, padding);
  }

  method Report(src: Source, rules: Rules, rollups: seq<Rollup>, gaps: map<IpUa, Gap>,
                metrics: map<IpUa, Metrics>, ghost pairs: set<IpUa>)
    returns (findings: seq<Finding>)
    requires Answers(rollups, src, pairs) && forall p :: p in pairs <==> src.keep(p) && Candidate(src, rules, p)
    requires GapRules(rules) ==> forall p :: GapStat(gaps, src.conv, GapIds(src.conv, src.day, p), p)
    requires !GapRules(rules) ==> gaps == map[]
    requires PaddingQueries.Complete(metrics, src.conv, src.clicks, src.day, EXTRA_WINDOW_SECONDS * MICROS,
                                     Elems(PairsOfList(rollups)))
    ensures Scanned(FullFindings(src, rules), rollups, |rollups|, findings)
  {
    ghost var full := FullFindings(src, rules);
    findings := [];
    for i := 0 to |rollups|
      invariant Scanned(full, rollups, i, findings)
    {
      assert rollups[i].pair == PairsOfList(rollups)[i];
      var f := OneFinding(src, rules, rollups[i], gaps, metrics);
      if f.reasons == [] {
        ScanSkip(full, rollups, i, findings);
      } else {
        NotAmongBefore(rollups, i);
        ScanAdd(full, rollups, i, findings, f);
        findings := findings + [f];
      }
    }
  }

  /** The finished scan reports what the two stages promise. */
  lemma ScanIsExact(src: Source, rules: Rules, rollups: seq<Rollup>, pairs: set<IpUa>, findings: seq<Finding>)
    requires Answers(rollups, src, pairs) && forall p :: p in pairs <==> src.keep(p) && Candidate(src, rules, p)
    requires Scanned(FullFindings(src, rules), rollups, |rollups|, findings)
    ensures Exact(src, rules, findings)
  {
    var full := FullFindings(src, rules);
    forall i | 0 <= i < |findings| ensures Reported(src, rules, findings[i]) && Said(src, rules, findings[i]) {
      var p := findings[i].rollup.pair;
      assert Expected(full, findings[i]) && Among(rollups, |rollups|, p);
      FindingSays(src, rules, p);
    }
    ReportsSuspects(src, rules, rollups, pairs, findings);
  }

  lemma ReportsSuspects(src: Source, rules: Rules, rollups: seq<Rollup>, pairs: set<IpUa>, findings: seq<Finding>)
    requires Answers(rollups, src, pairs) && forall p :: p in pairs <==> src.keep(p) && Candidate(src, rules, p)
    requires Scanned(FullFindings(src, rules), rollups, |rollups|, findings)
    requires forall i | 0 <= i < |findings| :: Reported(src, rules, findings[i])
    ensures forall p :: Reports(findings, p) <==>
              p in Pairs(src.agg, src.day) && Suspect(src, rules, RollupOf(src.agg, src.day, p))
  {
    ReportsCandidates(src, rules, rollups, pairs, findings);
    forall p ensures Reports(findings, p) <==>
      p in Pairs(src.agg, src.day) && Suspect(src, rules, RollupOf(src.agg, src.day, p)) {
      if p in Pairs(src.agg, src.day) { SuspectIs(src, rules, p); }
    }
  }

  lemma ReportsCandidates(src: Source, rules: Rules, rollups: seq<Rollup>, pairs: set<IpUa>, findings: seq<Finding>)
    requires Answers(rollups, src, pairs) && forall p :: p in pairs <==> src.keep(p) && Candidate(src, rules, p)
    requires Scanned(FullFindings(src, rules), rollups, |rollups|, findings)
    requires forall i | 0 <= i < |findings| :: Reported(src, rules, findings[i])
    ensures forall p :: Reports(findings, p) <==> FullScan(src, rules, p) && Candidate(src, rules, p)
  {
    var full := FullFindings(src, rules);
    forall p | FullScan(src, rules, p) && Candidate(src, rules, p) ensures Reports(findings, p) {
      assert p in pairs && p in full;
      assert Listed(rollups, p);
      var k :| 0 <= k < |rollups| && rollups[k].pair == p;
    }
  }

  // ---- from the raw logs to the findings ----

  /** The logs a pair's rollup counts: a conversion needs both addresses. */
  predicate RollsUp(log: Log, day: Day, p: IpUa) {
    && DayOf(log.time) == day
    && match log
       case Click(_, _, _, ip, ua, _, _, _, _) => ip == p.ip && ua == p.ua
       case Conversion(_, _, _, ip, ua, _, _, _) => p.ip != "" && p.ua != "" && ip == Some(p.ip) && ua == Some(p.ua)
  }

  ghost function CountedIds(src: Source, p: IpUa): set<LogId> {
    set id | id in src.conv && RollsUp(src.conv[id], src.day, p)
  }

  /** The rollup of the pair as the raw logs have it. */
  ghost predicate RawNumbers(src: Source, r: Rollup) {
    var ids := CountedIds(src, r.pair);
    && r.day == src.day && r.count == |ids| && r.count >= 1
    && r.mediaCount == |set id | id in ids && id in src.conv :: src.conv[id].media|
    && r.programCount == |set id | id in ids && id in src.conv :: src.conv[id].program|
    && (forall id | id in ids && id in src.conv :: r.first <= src.conv[id].time <= r.last)
    && (exists id :: id in ids && id in src.conv && src.conv[id].time == r.first)
    && (exists id :: id in ids && id in src.conv && src.conv[id].time == r.last)
  }

  /** The tables the detector reads after a run of ingestion steps. */
  ghost predicate Reads(src: Source, ops: seq<Op>, origin: Day) {
    && CollisionFree(ops, origin) && src.day >= Horizon(ops, origin)
    && src.agg == Run(ops).agg && src.conv == Run(ops).raw
  }

  lemma CountedIdsAre(src: Source, p: IpUa)
    ensures RawIds(src.conv, src.day, p) == CountedIds(src, p)
    ensures p in RawPairs(src.conv, src.day) <==> CountedIds(src, p) != {}
  {
    forall id | id in src.conv
      ensures RollsUp(src.conv[id], src.day, p) <==>
                src.conv[id].Key().Some? && OfPair(src.conv[id].Key().value, src.day, p)
    {
    }
    if p in RawPairs(src.conv, src.day) {
      var id :| id in src.conv && src.conv[id].Key().Some? && src.conv[id].Key().value.day == src.day
        && IpUa(src.conv[id].Key().value.ip, src.conv[id].Key().value.ua) == p;
      assert id in CountedIds(src, p);
    }
    if CountedIds(src, p) != {} {
      var id :| id in CountedIds(src, p);
      assert src.conv[id].Key().value.day == src.day
             && IpUa(src.conv[id].Key().value.ip, src.conv[id].Key().value.ua) == p;
    }
  }

  lemma RawRollupIs(src: Source, p: IpUa)
    requires p in RawPairs(src.conv, src.day)
    ensures RawNumbers(src, RawRollupOf(src.conv, src.day, p))
  {
    var ids, r := CountedIds(src, p), RawRollupOf(src.conv, src.day, p);
    CountedIdsAre(src, p);
    SomeRaw(src.conv, src.day, p);
    assert r.first in Times(src.conv, ids) && r.last in Times(src.conv, ids);
    forall id | id in ids && id in src.conv ensures r.first <= src.conv[id].time <= r.last {
      assert src.conv[id].time in Times(src.conv, ids);
    }
    assert RawMedia(src.conv, ids) == set id | id in ids && id in src.conv :: src.conv[id].media;
    assert RawPrograms(src.conv, ids) == set id | id in ids && id in src.conv :: src.conv[id].program;
  }

  lemma RollupIsRaw(src: Source, ops: seq<Op>, origin: Day, p: IpUa)
    requires Reads(src, ops, origin)
    ensures p in Pairs(src.agg, src.day) <==> CountedIds(src, p) != {}
    ensures p in Pairs(src.agg, src.day) ==> RawNumbers(src, RollupOf(src.agg, src.day, p))
  {
    RollupsRefineRawAlways(ops, origin, src.day);
    CountedIdsAre(src, p);
    assert p in FetchRollups(src.agg, src.day) <==> p in RawRollups(src.conv, src.day);
    if p in Pairs(src.agg, src.day) { RawRollupIs(src, p); }
  }

  /** The raw logs leave no choice about the rollup. */
  lemma RawNumbersDetermine(src: Source, r: Rollup, r': Rollup)
    requires RawNumbers(src, r) && RawNumbers(src, r') && r.pair == r'.pair
    ensures r == r'
  {
  }

  /** The raw logs make the pair suspect. */
  ghost predicate RawSuspect(src: Source, rules: Rules, p: IpUa) {
    exists r: Rollup :: r.pair == p && RawNumbers(src, r) && Suspect(src, rules, r)
  }

  /**
   After any run of ingestion steps whose stores do not collide, however the logs came in, the detector reports for a
   day above the purge horizon exactly the pairs the raw logs make suspect, each once, with the numbers of the raw logs
   and exactly the reasons these give.
   */
  lemma FindingsAreOfRawLogs(src: Source, rules: Rules, ops: seq<Op>, origin: Day, findings: seq<Finding>)
    requires Reads(src, ops, origin) && Exact(src, rules, findings)
    ensures Distinct(findings)
    ensures forall p :: Reports(findings, p) <==> RawSuspect(src, rules, p)
    ensures forall i | 0 <= i < |findings| ::
              RawNumbers(src, findings[i].rollup) && SaysExactly(src, rules, findings[i])
              && Shows(src, rules, findings[i])
  {
    forall i | 0 <= i < |findings|
      ensures RawNumbers(src, findings[i].rollup) && SaysExactly(src, rules, findings[i])
              && Shows(src, rules, findings[i])
    {
      assert Said(src, rules, findings[i]);
      RollupIsRaw(src, ops, origin, findings[i].rollup.pair);
    }
    forall p ensures Reports(findings, p) <==> RawSuspect(src, rules, p) {
      SuspectIsRaw(src, rules, ops, origin, p);
    }
  }

  lemma SuspectIsRaw(src: Source, rules: Rules, ops: seq<Op>, origin: Day, p: IpUa)
    requires Reads(src, ops, origin)
    ensures RawSuspect(src, rules, p) <==>
              p in Pairs(src.agg, src.day) && Suspect(src, rules, RollupOf(src.agg, src.day, p))
  {
    RollupIsRaw(src, ops, origin, p);
    if RawSuspect(src, rules, p) {
      var r: Rollup :| r.pair == p && RawNumbers(src, r) && Suspect(src, rules, r);
      assert CountedIds(src, p) != {};
      RawNumbersDetermine(src, r, RollupOf(src.agg, src.day, p));
    }
  }
}
