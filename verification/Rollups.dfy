/** Grouping queries over the aggregate table, and the same grouping taken straight from the raw conversions. */
module Rollups {
  import opened Wrappers
  import opened Aggregates

  datatype Rollup = Rollup(
    day: Day, pair: IpUa, count: nat, mediaCount: nat, programCount: nat, first: Time, last: Time)

  // ---- MIN, MAX and SUM over finite sets ----

  ghost predicate IsMin(m: int, s: set<int>) { m in s && forall x | x in s :: m <= x }

  ghost predicate IsMax(m: int, s: set<int>) { m in s && forall x | x in s :: x <= m }

  lemma {:induction false} ExtremesExist(s: set<int>)
    requires s != {}
    ensures (exists m :: IsMin(m, s)) && (exists m :: IsMax(m, s))
    decreases s
  {
    var x := Pick(s);
    var rest := s - {x};
    assert forall y | y in s :: y == x || y in rest;
    if rest == {} {
      assert IsMin(x, s) && IsMax(x, s);
    } else {
      ExtremesExist(rest);
      var lo :| IsMin(lo, rest);
      var hi :| IsMax(hi, rest);
      assert IsMin(Min(lo, x), s) && IsMax(Max(hi, x), s);
    }
  }

  ghost function MinOf(s: set<int>): (m: int)
    requires s != {}
    ensures IsMin(m, s)
  {
    ExtremesExist(s);
    var m :| IsMin(m, s); m
  }

  ghost function MaxOf(s: set<int>): (m: int)
    requires s != {}
    ensures IsMax(m, s)
  {
    ExtremesExist(s);
    var m :| IsMax(m, s); m
  }

  ghost function SumCounts(agg: map<GroupKey, Agg>, ks: set<GroupKey>): nat
    requires ks <= agg.Keys
    decreases ks
  {
    if ks == {} then 0 else var k :| k in ks; agg[k].count + SumCounts(agg, ks - {k})
  }

  lemma {:induction false} SumRemove(agg: map<GroupKey, Agg>, ks: set<GroupKey>, k: GroupKey)
    requires ks <= agg.Keys && k in ks
    ensures SumCounts(agg, ks) == agg[k].count + SumCounts(agg, ks - {k})
    decreases ks
  {
    var j :| j in ks && SumCounts(agg, ks) == agg[j].count + SumCounts(agg, ks - {j});
    if j != k {
      SumRemove(agg, ks - {j}, k);
      SumRemove(agg, ks - {k}, j);
      assert ks - {j} - {k} == ks - {k} - {j};
    }
  }

  // ---- the query over the aggregates ----

  predicate OfPair(k: GroupKey, day: Day, p: IpUa) { k.day == day && k.ip == p.ip && k.ua == p.ua }

  function Rows(agg: map<GroupKey, Agg>, day: Day, p: IpUa): set<GroupKey> {
    set k | k in agg && OfPair(k, day, p)
  }

  /** GROUP BY date, ipaddress, useragent. */
  function Pairs(agg: map<GroupKey, Agg>, day: Day): set<IpUa> {
    set k | k in agg && k.day == day :: IpUa(k.ip, k.ua)
  }

  function Media(ks: set<GroupKey>): set<string> { set k | k in ks :: k.media }

  function Programs(ks: set<GroupKey>): set<string> { set k | k in ks :: k.program }

  function Firsts(agg: map<GroupKey, Agg>, ks: set<GroupKey>): set<Time> { set k | k in ks && k in agg :: agg[k].first }

  function Lasts(agg: map<GroupKey, Agg>, ks: set<GroupKey>): set<Time> { set k | k in ks && k in agg :: agg[k].last }

  ghost function RollupOf(agg: map<GroupKey, Agg>, day: Day, p: IpUa): Rollup
    requires p in Pairs(agg, day)
  {
    var ks := Rows(agg, day, p);
    SomeRow(agg, day, p);
    Rollup(day, p, SumCounts(agg, ks),
           |Media(ks)|, |Programs(ks)|, MinOf(Firsts(agg, ks)), MaxOf(Lasts(agg, ks)))
  }

  lemma SomeRow(agg: map<GroupKey, Agg>, day: Day, p: IpUa)
    requires p in Pairs(agg, day)
    ensures Rows(agg, day, p) != {}
    ensures Firsts(agg, Rows(agg, day, p)) != {} && Lasts(agg, Rows(agg, day, p)) != {}
  {
    var k :| k in agg && k.day == day && IpUa(k.ip, k.ua) == p;
    assert k in Rows(agg, day, p);
    assert agg[k].first in Firsts(agg, Rows(agg, day, p));
    assert agg[k].last in Lasts(agg, Rows(agg, day, p));
  }

  /** `fetch_conversion_rollups`. */
  ghost function FetchRollups(agg: map<GroupKey, Agg>, day: Day): map<IpUa, Rollup> {
    map p | p in Pairs(agg, day) :: RollupOf(agg, day, p)
  }

  // ---- the same, straight from the raw table ----

  function RawIds(raw: map<LogId, Log>, day: Day, p: IpUa): set<LogId> {
    set id | id in raw && raw[id].Key().Some? && OfPair(raw[id].Key().value, day, p)
  }

  function RawPairs(raw: map<LogId, Log>, day: Day): set<IpUa> {
    set id | id in raw && raw[id].Key().Some? && raw[id].Key().value.day == day
      :: IpUa(raw[id].Key().value.ip, raw[id].Key().value.ua)
  }

  function RawMedia(raw: map<LogId, Log>, ids: set<LogId>): set<string> {
    set id | id in ids && id in raw :: raw[id].media
  }

  function RawPrograms(raw: map<LogId, Log>, ids: set<LogId>): set<string> {
    set id | id in ids && id in raw :: raw[id].program
  }

  function Times(raw: map<LogId, Log>, ids: set<LogId>): set<Time> { set id | id in ids && id in raw :: raw[id].time }

  ghost function RawRollupOf(raw: map<LogId, Log>, day: Day, p: IpUa): Rollup
    requires p in RawPairs(raw, day)
  {
    var ids := RawIds(raw, day, p);
    SomeRaw(raw, day, p);
    Rollup(day, p, |ids|, |RawMedia(raw, ids)|, |RawPrograms(raw, ids)|, MinOf(Times(raw, ids)), MaxOf(Times(raw, ids)))
  }

  /** The grouping taken straight from the raw table. */
  ghost function RawRollups(raw: map<LogId, Log>, day: Day): map<IpUa, Rollup> {
    map p | p in RawPairs(raw, day) :: RawRollupOf(raw, day, p)
  }

  lemma SomeRaw(raw: map<LogId, Log>, day: Day, p: IpUa)
    requires p in RawPairs(raw, day)
    ensures Times(raw, RawIds(raw, day, p)) != {}
  {
    var id :| id in raw && raw[id].Key().Some? && raw[id].Key().value.day == day
      && IpUa(raw[id].Key().value.ip, raw[id].Key().value.ua) == p;
    assert id in RawIds(raw, day, p);
    assert raw[id].time in Times(raw, RawIds(raw, day, p));
  }

  // ---- two-level grouping loses nothing ----

  function InGroups(raw: map<LogId, Log>, ks: set<GroupKey>): set<LogId> {
    set id | id in raw && raw[id].Key().Some? && raw[id].Key().value in ks
  }

  /** The groups of distinct keys are disjoint, so their counts add up to the number of raw rows in all of them. */
  lemma {:induction false} SumIsUnion(t: Tables, ks: set<GroupKey>)
    requires ks <= t.agg.Keys && forall k | k in ks :: Matches(t, k)
    ensures SumCounts(t.agg, ks) == |InGroups(t.raw, ks)|
    decreases ks
  {
    if ks == {} {
      assert InGroups(t.raw, ks) == {};
    } else {
      var k :| k in ks;
      SumRemove(t.agg, ks, k);
      SumIsUnion(t, ks - {k});
      GroupsSplit(t.raw, ks, k);
    }
  }

  lemma GroupsSplit(raw: map<LogId, Log>, ks: set<GroupKey>, k: GroupKey)
    requires k in ks
    ensures |InGroups(raw, ks)| == |InGroups(raw, ks - {k})| + |Group(raw, k)|
  {
    assert InGroups(raw, ks) == InGroups(raw, ks - {k}) + Group(raw, k);
    assert InGroups(raw, ks - {k}) !! Group(raw, k);
  }

  lemma KeyFields(log: Log)
    requires log.Key().Some?
    ensures log.Key().value.media == log.media && log.Key().value.program == log.program
            && log.Key().value.day == DayOf(log.time)
  {
  }

  lemma PairsAgree(t: Tables, h: Day, day: Day)
    requires Consistent(t, h) && day >= h
    ensures Pairs(t.agg, day) == RawPairs(t.raw, day)
  {
    forall p | p in Pairs(t.agg, day) ensures p in RawPairs(t.raw, day) {
      var k :| k in t.agg && k.day == day && IpUa(k.ip, k.ua) == p;
      assert Matches(t, k);
      var id :| id in Group(t.raw, k);
      assert t.raw[id].Key() == Some(k);
    }
    forall p | p in RawPairs(t.raw, day) ensures p in Pairs(t.agg, day) {
      var id :| id in t.raw && t.raw[id].Key().Some? && t.raw[id].Key().value.day == day
        && IpUa(t.raw[id].Key().value.ip, t.raw[id].Key().value.ua) == p;
      var k := t.raw[id].Key().value;
      assert Matches(t, k);
      assert id in Group(t.raw, k);
    }
  }

  /** The raw rows `ids` are exactly those behind the aggregate rows `ks`, which bound their times tightly. */
  ghost predicate Behind(t: Tables, ks: set<GroupKey>, ids: set<LogId>) {
    && ks <= t.agg.Keys && ids <= t.raw.Keys
    && (forall id {:trigger Belongs(t, ks, id)} | id in ids :: Belongs(t, ks, id))
    && (forall k {:trigger Tight(t, ids, k)} | k in ks :: Tight(t, ids, k))
  }

  ghost predicate Belongs(t: Tables, ks: set<GroupKey>, id: LogId)
    requires id in t.raw && ks <= t.agg.Keys
  {
    t.raw[id].Key().Some? && var k := t.raw[id].Key().value;
    k in ks && t.agg[k].first <= t.raw[id].time <= t.agg[k].last
  }

  ghost predicate Tight(t: Tables, ids: set<LogId>, k: GroupKey)
    requires k in t.agg && ids <= t.raw.Keys
  {
    && t.agg[k].first in Times(t.raw, ids) && t.agg[k].last in Times(t.raw, ids)
    && exists id :: id in ids && t.raw[id].Key() == Some(k)
  }

  lemma RowsCover(t: Tables, h: Day, day: Day, p: IpUa)
    requires Consistent(t, h) && day >= h
    ensures RawIds(t.raw, day, p) == InGroups(t.raw, Rows(t.agg, day, p))
    ensures forall k | k in Rows(t.agg, day, p) :: Matches(t, k)
    ensures Behind(t, Rows(t.agg, day, p), RawIds(t.raw, day, p))
  {
    var ks, ids := Rows(t.agg, day, p), RawIds(t.raw, day, p);
    forall id | id in ids ensures Belongs(t, ks, id) {
      var k := t.raw[id].Key().value;
      assert Matches(t, k);
      assert id in Group(t.raw, k);
    }
    forall k | k in ks
      ensures Matches(t, k) && Tight(t, ids, k)
    {
      assert Matches(t, k);
      BoundsAreTimes(t, k);
      assert Group(t.raw, k) <= ids;
      var id :| id in Group(t.raw, k) && t.raw[id].time == t.agg[k].first;
      assert id in ids && t.raw[id].Key() == Some(k);
    }
  }

  lemma BoundsAreTimes(t: Tables, k: GroupKey)
    requires Matches(t, k) && k in t.agg
    ensures t.agg[k].first in Times(t.raw, Group(t.raw, k)) && t.agg[k].last in Times(t.raw, Group(t.raw, k))
  {
    var lo :| lo in Group(t.raw, k) && t.raw[lo].time == t.agg[k].first;
    var hi :| hi in Group(t.raw, k) && t.raw[hi].time == t.agg[k].last;
  }

  lemma DistinctAgree(t: Tables, ks: set<GroupKey>, ids: set<LogId>)
    requires Behind(t, ks, ids)
    ensures Media(ks) == RawMedia(t.raw, ids) && Programs(ks) == RawPrograms(t.raw, ids)
  {
    forall k | k in ks ensures k.media in RawMedia(t.raw, ids) && k.program in RawPrograms(t.raw, ids) {
      RowIsRaw(t, ks, ids, k);
    }
    forall id | id in ids ensures id in t.raw && t.raw[id].media in Media(ks) && t.raw[id].program in Programs(ks) {
      RawIsRow(t, ks, ids, id);
    }
  }

  lemma RowIsRaw(t: Tables, ks: set<GroupKey>, ids: set<LogId>, k: GroupKey)
    requires Behind(t, ks, ids) && k in ks
    ensures k.media in RawMedia(t.raw, ids) && k.program in RawPrograms(t.raw, ids)
  {
    assert Tight(t, ids, k);
    var id :| id in ids && t.raw[id].Key() == Some(k);
    KeyFields(t.raw[id]);
  }

  lemma RawIsRow(t: Tables, ks: set<GroupKey>, ids: set<LogId>, id: LogId)
    requires Behind(t, ks, ids) && id in ids
    ensures id in t.raw && t.raw[id].media in Media(ks) && t.raw[id].program in Programs(ks)
  {
    assert Belongs(t, ks, id);
    KeyFields(t.raw[id]);
  }

  lemma ExtremesAgree(t: Tables, ks: set<GroupKey>, ids: set<LogId>)
    requires Behind(t, ks, ids) && Firsts(t.agg, ks) != {} && Lasts(t.agg, ks) != {} && Times(t.raw, ids) != {}
    ensures MinOf(Firsts(t.agg, ks)) == MinOf(Times(t.raw, ids))
    ensures MaxOf(Lasts(t.agg, ks)) == MaxOf(Times(t.raw, ids))
  {
    var firsts, lasts, times := Firsts(t.agg, ks), Lasts(t.agg, ks), Times(t.raw, ids);
    forall k | k in ks ensures t.agg[k].first in times && t.agg[k].last in times {
      assert Tight(t, ids, k);
    }
    forall x | x in times ensures MinOf(firsts) <= x <= MaxOf(lasts) {
      var id :| id in ids && t.raw[id].time == x;
      assert Belongs(t, ks, id);
      assert t.agg[t.raw[id].Key().value].first in firsts && t.agg[t.raw[id].Key().value].last in lasts;
    }
  }

  lemma RollupAgrees(t: Tables, h: Day, day: Day, p: IpUa)
    requires Consistent(t, h) && day >= h && p in Pairs(t.agg, day) && p in RawPairs(t.raw, day)
    ensures RollupOf(t.agg, day, p) == RawRollupOf(t.raw, day, p)
  {
    RowsCover(t, h, day, p);
    SumIsUnion(t, Rows(t.agg, day, p));
    DistinctAgree(t, Rows(t.agg, day, p), RawIds(t.raw, day, p));
    SomeRow(t.agg, day, p);
    SomeRaw(t.raw, day, p);
    ExtremesAgree(t, Rows(t.agg, day, p), RawIds(t.raw, day, p));
  }

  /** Rollups over incrementally kept aggregates are the rollups of the raw conversions. */
  lemma RollupsRefineRaw(t: Tables, h: Day, day: Day)
    requires Consistent(t, h) && day >= h
    ensures FetchRollups(t.agg, day) == RawRollups(t.raw, day)
  {
    PairsAgree(t, h, day);
    forall p | p in RawPairs(t.raw, day) ensures RollupOf(t.agg, day, p) == RawRollupOf(t.raw, day, p) {
      RollupAgrees(t, h, day, p);
    }
  }

  /**
   After any serial run of ingestion steps: a rollup above the purge horizon never depends on how its rows came in.
   */
  lemma RollupsRefineRawAlways(ops: seq<Op>, origin: Day, day: Day)
    requires CollisionFree(ops, origin) && day >= Horizon(ops, origin)
    ensures FetchRollups(Run(ops).agg, day) == RawRollups(Run(ops).raw, day)
  {
    ConsistentAlways(ops, origin);
    RollupsRefineRaw(Run(ops), Horizon(ops, origin), day);
  }

  // ---- the thresholded query ----

  /** Filtering rows before the grouping is filtering pairs after it, because the filter looks at the pair alone. */
  lemma FilterCommutes(agg: map<GroupKey, Agg>, day: Day, keep: IpUa -> bool, p: IpUa)
    ensures var kept := map k | k in agg && keep(IpUa(k.ip, k.ua)) :: agg[k];
      && (p in Pairs(kept, day) <==> p in Pairs(agg, day) && keep(p))
      && (p in Pairs(kept, day) ==> RollupOf(kept, day, p) == RollupOf(agg, day, p))
  {
    var kept := map k | k in agg && keep(IpUa(k.ip, k.ua)) :: agg[k];
    if p in Pairs(agg, day) && keep(p) {
      var k :| k in agg && k.day == day && IpUa(k.ip, k.ua) == p;
      assert k in kept;
    }
    if p in Pairs(kept, day) {
      var ks := Rows(agg, day, p);
      assert Rows(kept, day, p) == ks;
      SumSame(agg, kept, ks);
      assert Firsts(kept, ks) == Firsts(agg, ks) && Lasts(kept, ks) == Lasts(agg, ks);
    }
  }

  lemma {:induction false} SumSame(a: map<GroupKey, Agg>, b: map<GroupKey, Agg>, ks: set<GroupKey>)
    requires ks <= a.Keys && ks <= b.Keys && forall k | k in ks :: a[k] == b[k]
    ensures SumCounts(a, ks) == SumCounts(b, ks)
    decreases ks
  {
    if ks != {} {
      var k :| k in ks;
      SumRemove(a, ks, k);
      SumRemove(b, ks, k);
      SumSame(a, b, ks - {k});
    }
  }
}
