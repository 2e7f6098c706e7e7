/** The damage snapshot of one finding: priced evidence rows, a total and the source of the prices. */
module Damage {
  import opened Wrappers
  import opened Aggregates
  import opened Rollups

  const DEFAULT_REWARD_YEN: int := 3000

  datatype Source = ProgramObserved | FallbackDefault

  datatype Label = Single(source: Source) | Mixed

  /** One grouped aggregate row of the pair; an absent program is the empty text. */
  datatype Detail = Detail(program: string, count: int)

  datatype Evidence = Evidence(program: Option<string>, count: int, price: int, source: Source)

  function Priced(prices: map<string, int>, d: Detail): Evidence {
    var program := if d.program != "" then Some(d.program) else None;
    if d.program != "" && d.program in prices
    then Evidence(program, d.count, prices[d.program], ProgramObserved)
    else Evidence(program, d.count, DEFAULT_REWARD_YEN, FallbackDefault)
  }

  function Value(rows: seq<Evidence>): int
    decreases |rows|
  {
    if rows == [] then 0 else Value(rows[..|rows| - 1]) + rows[|rows| - 1].count * rows[|rows| - 1].price
  }

  function Count(rows: seq<Evidence>): int
    decreases |rows|
  {
    if rows == [] then 0 else Count(rows[..|rows| - 1]) + rows[|rows| - 1].count
  }

  function PositiveTotal(details: seq<Detail>): nat
    decreases |details|
  {
    if details == [] then 0
    else PositiveTotal(details[..|details| - 1]) + Max(details[|details| - 1].count, 0)
  }

  predicate AllFrom(rows: seq<Evidence>, source: Source) { forall i | 0 <= i < |rows| :: rows[i].source == source }

  /** The details with a positive count, priced, in their order. */
  function PricedDetails(prices: map<string, int>, details: seq<Detail>): seq<Evidence>
    decreases |details|
  {
    if details == [] then []
    else
      var rest := PricedDetails(prices, details[..|details| - 1]);
      if details[|details| - 1].count > 0 then rest + [Priced(prices, details[|details| - 1])] else rest
  }

  /** The details that count, in their order. */
  function Positive(details: seq<Detail>): seq<Detail>
    decreases |details|
  {
    if details == [] then []
    else
      var rest := Positive(details[..|details| - 1]);
      if details[|details| - 1].count > 0 then rest + [details[|details| - 1]] else rest
  }

  /** The row counts the detail at the price observed for its program, or at 3000 yen when none was. */
  predicate PricedAs(row: Evidence, d: Detail, prices: map<string, int>) {
    && row.count == d.count && (row.program == if d.program == "" then None else Some(d.program))
    && if d.program != "" && d.program in prices
       then row.price == prices[d.program] && row.source == ProgramObserved
       else row.price == 3000 && row.source == FallbackDefault
  }

  lemma {:induction false} PricedRows(prices: map<string, int>, details: seq<Detail>)
    ensures |PricedDetails(prices, details)| == |Positive(details)|
    ensures forall i | 0 <= i < |Positive(details)| ::
              PricedAs(PricedDetails(prices, details)[i], Positive(details)[i], prices)
    ensures Positive(details) == [] <==> PositiveTotal(details) == 0
    decreases |details|
  {
    if details != [] { PricedRows(prices, details[..|details| - 1]); }
  }

  /** The evidence row by row: the priced details, and at most one row for conversions no detail explains. */
  ghost predicate Evidences(evidence: seq<Evidence>, total: int, details: seq<Detail>, prices: map<string, int>) {
    var n, explained := |Positive(details)|, PositiveTotal(details);
    && |evidence| == n + (if total > explained || n == 0 then 1 else 0)
    && (forall i | 0 <= i < n :: PricedAs(evidence[i], Positive(details)[i], prices))
    && (|evidence| > n ==> evidence[n] == Evidence(None, total - explained, 3000, FallbackDefault))
  }

  lemma EvidencesAre(total: int, details: seq<Detail>, prices: map<string, int>)
    ensures Evidences(PricedDetails(prices, details) + Unexplained(total, details), total, details, prices)
  {
    PricedRows(prices, details);
  }

  const FILLER: Evidence := Evidence(None, 0, DEFAULT_REWARD_YEN, FallbackDefault)

  /** What the total leaves unexplained, or the whole total when nothing explains any of it. */
  function Unexplained(total: int, details: seq<Detail>): seq<Evidence> {
    var missing := total - PositiveTotal(details);
    if missing > 0 then [FILLER.(count := missing)]
    else if PositiveTotal(details) == 0 then [FILLER.(count := total)]
    else []
  }

  method PriceDetails(details: seq<Detail>, prices: map<string, int>)
    returns (evidence: seq<Evidence>, estimate: int, detailTotal: nat)
    ensures evidence == PricedDetails(prices, details) && estimate == Value(evidence)
    ensures detailTotal == PositiveTotal(details) == Count(evidence)
    ensures evidence == [] <==> detailTotal == 0
  {
    evidence, estimate, detailTotal := [], 0, 0;
    for i := 0 to |details|
      invariant evidence == PricedDetails(prices, details[..i]) && estimate == Value(evidence)
      invariant detailTotal == PositiveTotal(details[..i]) == Count(evidence)
      invariant evidence == [] <==> detailTotal == 0
    {
      assert details[..i + 1][..i] == details[..i];
      var row := Priced(prices, details[i]);
      if details[i].count > 0 {
        AppendRow(evidence, row);
        evidence, estimate, detailTotal := evidence + [row], estimate + row.count * row.price, detailTotal + row.count;
      }
    }
    assert details[..|details|] == details;
  }

  function LabelOf(sources: set<Source>): Label {
    if sources == {ProgramObserved} then Single(ProgramObserved)
    else if sources == {FallbackDefault} then Single(FallbackDefault)
    else Mixed
  }

  /**
   `_estimate_damage_snapshot`. The estimate is the value of the evidence; the evidence counts every positive detail and
   fills up to the total; the label is single exactly when all rows share their price source.
   */
  method EstimateDamage(total: int, details: seq<Detail>, prices: map<string, int>)
    returns (estimate: int, origin: Label, evidence: seq<Evidence>)
    ensures evidence == PricedDetails(prices, details) + Unexplained(total, details) && evidence != []
    ensures Evidences(evidence, total, details, prices)
    ensures estimate == Value(evidence)
    ensures Count(evidence) ==
              if PositiveTotal(details) == 0 || total > PositiveTotal(details) then total else PositiveTotal(details)
    ensures origin == Single(ProgramObserved) <==> AllFrom(evidence, ProgramObserved)
    ensures origin == Single(FallbackDefault) <==> AllFrom(evidence, FallbackDefault)
  {
    var detailTotal;
    evidence, estimate, detailTotal := PriceDetails(details, prices);
    evidence, estimate := FillUp(total, details, evidence, estimate, detailTotal);
    EvidencesAre(total, details, prices);
    OneSource(evidence, ProgramObserved);
    OneSource(evidence, FallbackDefault);
    origin := LabelOf(Sources(evidence));
  }

  /** The row for what the details leave unexplained; without any row the whole total, at the price of the fallback. */
  method FillUp(total: int, details: seq<Detail>, priced: seq<Evidence>, worth: int, detailTotal: nat)
    returns (evidence: seq<Evidence>, estimate: int)
    requires worth == Value(priced) && detailTotal == PositiveTotal(details) == Count(priced)
    requires priced == [] <==> detailTotal == 0
    ensures evidence == priced + Unexplained(total, details) && evidence != [] && estimate == Value(evidence)
    ensures Count(evidence) ==
              if PositiveTotal(details) == 0 || total > PositiveTotal(details) then total else PositiveTotal(details)
  {
    evidence, estimate := priced, worth;
    var missing := if total - detailTotal > 0 then total - detailTotal else 0;
    if missing > 0 {
      AppendRow(evidence, FILLER.(count := missing));
      evidence, estimate := evidence + [FILLER.(count := missing)], estimate + missing * DEFAULT_REWARD_YEN;
    }
    if evidence == [] {
      AppendRow([], FILLER.(count := total));
      evidence, estimate := [] + [FILLER.(count := total)], total * DEFAULT_REWARD_YEN;
    }
  }

  lemma AppendRow(rows: seq<Evidence>, row: Evidence)
    ensures Value(rows + [row]) == Value(rows) + row.count * row.price
    ensures Count(rows + [row]) == Count(rows) + row.count
  {
    assert (rows + [row])[..|rows|] == rows;
  }

  function Sources(rows: seq<Evidence>): set<Source> { set i | 0 <= i < |rows| :: rows[i].source }

  lemma OneSource(rows: seq<Evidence>, source: Source)
    requires rows != []
    ensures Sources(rows) == {source} <==> AllFrom(rows, source)
  {
    forall i | 0 <= i < |rows| ensures rows[i].source in Sources(rows) {
    }
    if AllFrom(rows, source) { assert rows[0].source in Sources(rows); }
  }

  // ---- details from the aggregates ----

  /** `get_suspicious_conversion_details_bulk` for one pair: one detail for each of its rows, in the order of `rows`. */
  function DetailsOf(agg: map<GroupKey, Agg>, rows: seq<GroupKey>): seq<Detail>
    requires forall k | k in rows :: k in agg
  {
    seq(|rows|, i requires 0 <= i < |rows| => Detail(rows[i].program, agg[rows[i]].count))
  }

  lemma {:induction false} DetailsSum(agg: map<GroupKey, Agg>, rows: seq<GroupKey>)
    requires forall k | k in rows :: k in agg
    requires NoRepeat(rows)
    ensures Elems(rows) <= agg.Keys && PositiveTotal(DetailsOf(agg, rows)) == SumCounts(agg, Elems(rows))
    decreases |rows|
  {
    if rows != [] {
      var n := |rows| - 1;
      DetailsSum(agg, rows[..n]);
      assert DetailsOf(agg, rows)[..n] == DetailsOf(agg, rows[..n]);
      ElemsWithoutLast(rows);
      SumRemove(agg, Elems(rows), rows[n]);
    }
  }

  lemma ElemsWithoutLast(rows: seq<GroupKey>)
    requires NoRepeat(rows) && rows != []
    ensures var n := |rows| - 1; rows[n] in Elems(rows) && Elems(rows) - {rows[n]} == Elems(rows[..n])
  {
  }

  /**
   When total and details come from the same aggregates they agree, and every evidence row is a priced detail as soon as
   there is a conversion at all.
   */
  lemma FillerNeverNeeded(agg: map<GroupKey, Agg>, day: Day, p: IpUa, rows: seq<GroupKey>)
    requires p in Pairs(agg, day) && Elems(rows) == Rows(agg, day, p)
    requires NoRepeat(rows)
    ensures forall k | k in rows :: k in agg
    ensures forall i | 0 <= i < |rows| ::
              DetailsOf(agg, rows)[i].program == rows[i].program && DetailsOf(agg, rows)[i].count == agg[rows[i]].count
    ensures PositiveTotal(DetailsOf(agg, rows)) == RollupOf(agg, day, p).count
    ensures Unexplained(RollupOf(agg, day, p).count, DetailsOf(agg, rows)) == [] <==> RollupOf(agg, day, p).count > 0
  {
    forall k | k in rows ensures k in agg {
      assert k in Elems(rows);
    }
    DetailsSum(agg, rows);
  }

  /** In every state the ingestion can reach, for every pair with a rollup, the filler row is not needed. */
  lemma FillerNeverNeededAlways(ops: seq<Op>, day: Day, p: IpUa, rows: seq<GroupKey>)
    requires p in Pairs(Run(ops).agg, day) && Elems(rows) == Rows(Run(ops).agg, day, p)
    requires NoRepeat(rows)
    ensures forall k | k in rows :: k in Run(ops).agg
    ensures RollupOf(Run(ops).agg, day, p).count > 0
    ensures Unexplained(RollupOf(Run(ops).agg, day, p).count, DetailsOf(Run(ops).agg, rows)) == []
  {
    var agg := Run(ops).agg;
    CountsAlways(ops);
    SomeRow(agg, day, p);
    var k :| k in Rows(agg, day, p);
    SumRemove(agg, Rows(agg, day, p), k);
    FillerNeverNeeded(agg, day, p, rows);
  }
}
