/** Raw logs and the daily aggregates the ingestion keeps in step with them. */
module Aggregates {
  import opened Wrappers

  type Time = int  // microseconds of local time
  type Day = int
  type LogId = string

  const DAY: int := 86_400_000_000

  function DayOf(t: Time): Day { t / DAY }

  /** The first day that lies entirely at or after `t`. */
  function DayAfter(t: Time): Day { (t + DAY - 1) / DAY }

  /** The days from there on are those a purge of everything before `t` leaves whole. */
  lemma DayAfterIs(t: Time, d: Day)
    ensures d >= DayAfter(t) <==> forall u: Time | DayOf(u) == d :: u >= t
  {
    assert DayOf(d * DAY) == d;
  }

  /** The primary key of the aggregate tables. */
  datatype GroupKey = GroupKey(day: Day, media: string, program: string, ip: string, ua: string)

  /**
   A click, or a conversion; payload entries that the queries read are fields, empty strings already read as absent.
   */
  datatype Log =
    | Click(time: Time, media: string, program: string, clickIp: string, clickUa: string,
            actionLog: Option<string>, trackCid: Option<string>, affiliate: Option<string>, promotion: Option<string>)
    | Conversion(time: Time, media: string, program: string, entryIp: Option<string>, entryUa: Option<string>,
                 clickTime: Option<Time>, cid: Option<string>, user: Option<string>)
  {
    /** The aggregate row this log counts for; a conversion without a usable entry address counts for none. */
    function Key(): Option<GroupKey> {
      match this
      case Click(t, m, p, ip, ua, _, _, _, _) => Some(GroupKey(DayOf(t), m, p, ip, ua))
      case Conversion(t, m, p, ip, ua, _, _, _) =>
        if ip.Some? && ip.value != "" && ua.Some? && ua.value != ""
        then Some(GroupKey(DayOf(t), m, p, ip.value, ua.value)) else None
    }
  }

  datatype Agg = Agg(count: nat, first: Time, last: Time, updatedAt: Time)

  /** A raw table and its aggregate table. */
  datatype Tables = Tables(raw: map<LogId, Log>, agg: map<GroupKey, Agg>)

  /** One log of a batch, under its id, with the clock reading its insertion uses. */
  datatype Entry = Entry(id: LogId, log: Log, now: Time)

  /** INSERT ... ON CONFLICT DO UPDATE on the aggregate table. */
  function Counted(agg: map<GroupKey, Agg>, e: Entry): map<GroupKey, Agg> {
    match e.log.Key()
    case None => agg
    case Some(k) =>
      var t := e.log.time;
      agg[k := if k in agg
               then Agg(agg[k].count + 1, Min(agg[k].first, t), Max(agg[k].last, t), e.now)
               else Agg(1, t, t, e.now)]
  }

  /** ON CONFLICT DO NOTHING: an id that is already stored is skipped. */
  function MergeOne(t: Tables, e: Entry): Tables {
    if e.id in t.raw then t else Tables(t.raw[e.id := e.log], Counted(t.agg, e))
  }

  /** ON CONFLICT DO UPDATE: an id that is already stored is overwritten, and the aggregate counts it all the same. */
  function StoreOne(t: Tables, e: Entry): Tables {
    Tables(t.raw[e.id := e.log], Counted(t.agg, e))
  }

  function Merge(t: Tables, batch: seq<Entry>): Tables
    decreases |batch|
  {
    if batch == [] then t else MergeOne(Merge(t, batch[..|batch| - 1]), batch[|batch| - 1])
  }

  function ClearDay(t: Tables, d: Day): Tables {
    Tables(map id | id in t.raw && DayOf(t.raw[id].time) != d :: t.raw[id],
           map k | k in t.agg && k.day != d :: t.agg[k])
  }

  /** The logs of the day, stored one by one; the others are passed over. */
  function StoreDay(t: Tables, d: Day, batch: seq<Entry>): Tables
    decreases |batch|
  {
    if batch == [] then t
    else
      var e := batch[|batch| - 1];
      var rest := StoreDay(t, d, batch[..|batch| - 1]);
      if DayOf(e.log.time) != d then rest else StoreOne(rest, e)
  }

  function Replace(t: Tables, d: Day, batch: seq<Entry>): Tables { StoreDay(ClearDay(t, d), d, batch) }

  function PurgeRaw(t: Tables, cutoff: Time): Tables {
    t.(raw := map id | id in t.raw && t.raw[id].time >= cutoff :: t.raw[id])
  }

  function PurgeAgg(t: Tables, cutoff: Day): Tables {
    t.(agg := map k | k in t.agg && k.day >= cutoff :: t.agg[k])
  }

  // ---- what the aggregates mean ----

  /** The raw rows that belong to one aggregate row. */
  function Group(raw: map<LogId, Log>, k: GroupKey): set<LogId> {
    set id | id in raw && raw[id].Key() == Some(k)
  }

  /** The aggregate row `a` is the count, least and greatest time of the raw rows `g`. */
  ghost predicate Summarises(a: Agg, raw: map<LogId, Log>, g: set<LogId>)
    requires g <= raw.Keys
  {
    && a.count == |g|
    && (forall id | id in g :: a.first <= raw[id].time <= a.last)
    && (exists id :: id in g && raw[id].time == a.first)
    && (exists id :: id in g && raw[id].time == a.last)
  }

  ghost predicate Matches(t: Tables, k: GroupKey) {
    if k in t.agg then Summarises(t.agg[k], t.raw, Group(t.raw, k)) else Group(t.raw, k) == {}
  }

  /** Every aggregate row dated on or after the horizon is the one a fresh grouping of the raw table would give. */
  ghost predicate Consistent(t: Tables, horizon: Day) {
    forall k: GroupKey | k.day >= horizon :: Matches(t, k)
  }

  // ---- one log ----

  /** What storing a log makes of a group: the overwritten row leaves it, the new one joins it. */
  lemma GroupAfterStore(t: Tables, e: Entry, k: GroupKey)
    ensures Group(StoreOne(t, e).raw, k) == Group(t.raw, k) - {e.id} + if e.log.Key() == Some(k) then {e.id} else {}
    ensures e.id in Group(t.raw, k) <==> e.id in t.raw && t.raw[e.id].Key() == Some(k)
  {
  }

  lemma SummarySame(a: Agg, raw: map<LogId, Log>, raw': map<LogId, Log>, g: set<LogId>)
    requires g <= raw.Keys && g <= raw'.Keys && Summarises(a, raw, g) && forall id | id in g :: raw'[id] == raw[id]
    ensures Summarises(a, raw', g)
  {
    var lo :| lo in g && raw[lo].time == a.first;
    var hi :| hi in g && raw[hi].time == a.last;
    assert raw'[lo].time == a.first && raw'[hi].time == a.last;
  }

  lemma SummaryMore(a: Agg, raw: map<LogId, Log>, g: set<LogId>, id: LogId, now: Time)
    requires g <= raw.Keys && id in raw && id !in g && Summarises(a, raw, g)
    ensures Summarises(Agg(a.count + 1, Min(a.first, raw[id].time), Max(a.last, raw[id].time), now), raw, g + {id})
  {
    var lo :| lo in g && raw[lo].time == a.first;
    var hi :| hi in g && raw[hi].time == a.last;
    var g' := g + {id};
    assert lo in g' && hi in g' && id in g' && |g'| == |g| + 1;
  }

  lemma SummaryOne(raw: map<LogId, Log>, id: LogId, now: Time)
    requires id in raw
    ensures Summarises(Agg(1, raw[id].time, raw[id].time, now), raw, {id})
  {
    assert id in {id};
  }

  /** Storing a log in a place where no row of group `k` is overwritten keeps group `k` in step. */
  lemma StoreMatches(t: Tables, e: Entry, k: GroupKey)
    requires Matches(t, k) && (e.id in t.raw ==> t.raw[e.id].Key() != Some(k))
    ensures Matches(StoreOne(t, e), k)
  {
    var raw', g := StoreOne(t, e).raw, Group(t.raw, k);
    GroupAfterStore(t, e, k);
    assert g - {e.id} == g;
    if k in t.agg { SummarySame(t.agg[k], t.raw, raw', g); }
    if e.log.Key() == Some(k) {
      if k in t.agg {
        SummaryMore(t.agg[k], raw', g, e.id, e.now);
      } else {
        assert g + {e.id} == {e.id};
        SummaryOne(raw', e.id, e.now);
      }
    } else {
      assert Group(raw', k) == g;
    }
  }

  lemma MergeOneConsistent(t: Tables, e: Entry, h: Day)
    requires Consistent(t, h)
    ensures Consistent(MergeOne(t, e), h)
  {
    if e.id !in t.raw {
      forall k: GroupKey | k.day >= h ensures Matches(StoreOne(t, e), k) {
        assert Matches(t, k);
        StoreMatches(t, e, k);
      }
    }
  }

  // ---- what an overwrite costs ----

  /** How much the aggregate counts for `k` beyond the raw rows there are. */
  ghost function Excess(t: Tables, k: GroupKey): int {
    (if k in t.agg then t.agg[k].count else 0) - |Group(t.raw, k)|
  }

  /** Each overwritten row of group `k` leaves its count behind. */
  lemma ExcessStep(t: Tables, e: Entry, k: GroupKey)
    ensures Excess(StoreOne(t, e), k) == Excess(t, k) + if e.id in t.raw && t.raw[e.id].Key() == Some(k) then 1 else 0
  {
    GroupSize(t, e, k);
  }

  lemma GroupSize(t: Tables, e: Entry, k: GroupKey)
    ensures |Group(StoreOne(t, e).raw, k)| ==
              |Group(t.raw, k)| + (if e.log.Key() == Some(k) then 1 else 0)
              - if e.id in t.raw && t.raw[e.id].Key() == Some(k) then 1 else 0
  {
    var g := Group(t.raw, k);
    GroupAfterStore(t, e, k);
    SizeWithout(g, e.id);
    if e.log.Key() == Some(k) {
      SizeWith(g - {e.id}, e.id);
    } else {
      assert g - {e.id} + {} == g - {e.id};
    }
  }

  lemma SizeWithout(g: set<LogId>, id: LogId)
    ensures |g - {id}| == |g| - if id in g then 1 else 0
  {
    if id !in g { assert g - {id} == g; }
  }

  lemma SizeWith(g: set<LogId>, id: LogId)
    requires id !in g
    ensures |g + {id}| == |g| + 1
  {
  }

  /** Some aggregated row dated on or after the horizon is overwritten while the day's logs are stored. */
  ghost predicate OverwritesCounted(t: Tables, d: Day, batch: seq<Entry>, h: Day)
    decreases |batch|
  {
    batch != [] &&
    var e := batch[|batch| - 1];
    var rest := batch[..|batch| - 1];
    OverwritesCounted(t, d, rest, h) || (DayOf(e.log.time) == d && HitsCounted(StoreDay(t, d, rest), e.id, h))
  }

  predicate HitsCounted(t: Tables, id: LogId, h: Day) {
    id in t.raw && t.raw[id].Key().Some? && t.raw[id].Key().value.day >= h
  }

  lemma {:induction false} StoreDayConsistent(t: Tables, d: Day, batch: seq<Entry>, h: Day)
    requires Consistent(t, h) && !OverwritesCounted(t, d, batch, h)
    ensures Consistent(StoreDay(t, d, batch), h)
    decreases |batch|
  {
    if batch != [] {
      var e, rest := batch[|batch| - 1], batch[..|batch| - 1];
      StoreDayConsistent(t, d, rest, h);
      var m := StoreDay(t, d, rest);
      if DayOf(e.log.time) == d {
        forall k: GroupKey | k.day >= h ensures Matches(StoreOne(m, e), k) {
          assert Matches(m, k);
          StoreMatches(m, e, k);
        }
      }
    }
  }

  /** The excess never shrinks while logs are stored, and an overwrite of a counted row makes some group's positive. */
  lemma {:induction false} StoreDayExcess(t: Tables, d: Day, batch: seq<Entry>, h: Day) returns (k: GroupKey)
    requires forall j: GroupKey | j.day >= h :: Excess(t, j) >= 0
    ensures forall j: GroupKey | j.day >= h :: Excess(StoreDay(t, d, batch), j) >= 0
    ensures OverwritesCounted(t, d, batch, h) ==> k.day >= h && Excess(StoreDay(t, d, batch), k) > 0
    decreases |batch|
  {
    k := GroupKey(h, "", "", "", "");
    if batch != [] {
      var e, rest := batch[|batch| - 1], batch[..|batch| - 1];
      var k' := StoreDayExcess(t, d, rest, h);
      var m := StoreDay(t, d, rest);
      if DayOf(e.log.time) == d {
        forall j: GroupKey | j.day >= h ensures Excess(StoreOne(m, e), j) >= Excess(m, j) {
          ExcessStep(m, e, j);
        }
        if HitsCounted(m, e.id, h) {
          k := m.raw[e.id].Key().value;
          ExcessStep(m, e, k);
        } else {
          k := k';
        }
      } else {
        k := k';
      }
    }
  }

  // ---- the condition a caller can check ----

  predicate OfDay(e: Entry, d: Day) { DayOf(e.log.time) == d }

  /** Two logs of the day come under one id, the earlier one of them with an aggregate row. */
  predicate Repeats(batch: seq<Entry>, d: Day) {
    exists i, j :: 0 <= i < j < |batch| && OfDay(batch[i], d) && OfDay(batch[j], d) && batch[i].id == batch[j].id
      && batch[i].log.Key().Some?
  }

  predicate HitsTable(t: Tables, d: Day, batch: seq<Entry>, h: Day) {
    exists i :: 0 <= i < |batch| && OfDay(batch[i], d) && HitsCounted(t, batch[i].id, h)
  }

  /** A log of the day meets a counted row of the table, or a counted log before it in the batch. */
  predicate Collides(t: Tables, d: Day, batch: seq<Entry>, h: Day) {
    HitsTable(t, d, batch, h) || (d >= h && Repeats(batch, d))
  }

  /** What is stored under an id afterwards: the last log of the day that carries it, otherwise what was there. */
  lemma {:induction false} StoredUnder(t: Tables, d: Day, batch: seq<Entry>, id: LogId) returns (last: int)
    ensures -1 <= last < |batch|
    ensures forall j | last < j < |batch| :: !(OfDay(batch[j], d) && batch[j].id == id)
    ensures last >= 0 ==> OfDay(batch[last], d) && batch[last].id == id
    ensures var raw := StoreDay(t, d, batch).raw;
            if last >= 0 then id in raw && raw[id] == batch[last].log
            else (id in raw <==> id in t.raw) && (id in raw ==> raw[id] == t.raw[id])
    decreases |batch|
  {
    if batch == [] {
      last := -1;
    } else {
      var n := |batch| - 1;
      last := StoredUnder(t, d, batch[..n], id);
      if OfDay(batch[n], d) && batch[n].id == id { last := n; }
    }
  }

  lemma KeyDay(log: Log)
    ensures log.Key().Some? ==> log.Key().value.day == DayOf(log.time)
  {
  }

  predicate KeyedBefore(batch: seq<Entry>, d: Day, id: LogId) {
    exists i :: 0 <= i < |batch| && OfDay(batch[i], d) && batch[i].id == id && batch[i].log.Key().Some?
  }

  lemma HitsTableMore(t: Tables, d: Day, rest: seq<Entry>, e: Entry, h: Day)
    ensures HitsTable(t, d, rest + [e], h) <==> HitsTable(t, d, rest, h) || (OfDay(e, d) && HitsCounted(t, e.id, h))
  {
    var batch := rest + [e];
    if i :| 0 <= i < |rest| && OfDay(rest[i], d) && HitsCounted(t, rest[i].id, h) { assert batch[i] == rest[i]; }
    if OfDay(e, d) && HitsCounted(t, e.id, h) { assert batch[|rest|] == e; }
  }

  lemma RepeatsMore(d: Day, rest: seq<Entry>, e: Entry)
    ensures Repeats(rest + [e], d) <==> Repeats(rest, d) || (OfDay(e, d) && KeyedBefore(rest, d, e.id))
  {
    var batch := rest + [e];
    if Repeats(rest, d) {
      var i, j :| 0 <= i < j < |rest| && OfDay(rest[i], d) && OfDay(rest[j], d) && rest[i].id == rest[j].id
        && rest[i].log.Key().Some?;
      assert batch[i] == rest[i] && batch[j] == rest[j];
    }
    if i :| 0 <= i < |rest| && OfDay(rest[i], d) && rest[i].id == e.id && rest[i].log.Key().Some? {
      assert OfDay(e, d) ==> batch[i] == rest[i] && batch[|rest|] == e;
    }
  }

  /** A log of the day overwrites a counted row exactly when it meets one, unless an earlier log collided already. */
  lemma LastCollides(t: Tables, d: Day, rest: seq<Entry>, e: Entry, h: Day)
    requires OfDay(e, d) && !Collides(t, d, rest, h)
    ensures HitsCounted(StoreDay(t, d, rest), e.id, h) <==>
              HitsCounted(t, e.id, h) || (d >= h && KeyedBefore(rest, d, e.id))
  {
    var last := StoredUnder(t, d, rest, e.id);
    if last >= 0 {
      KeyDay(rest[last].log);
      assert !HitsCounted(t, rest[last].id, h);
      assert d >= h ==> forall i | 0 <= i < last && OfDay(rest[i], d) && rest[i].id == e.id :: rest[i].log.Key().None?;
    }
  }

  /** The closed form says exactly whether storing the logs one by one overwrites a counted row. */
  lemma {:induction false} CollidesIff(t: Tables, d: Day, batch: seq<Entry>, h: Day)
    ensures OverwritesCounted(t, d, batch, h) <==> Collides(t, d, batch, h)
    decreases |batch|
  {
    if batch != [] {
      var rest, e := batch[..|batch| - 1], batch[|batch| - 1];
      assert batch == rest + [e];
      CollidesIff(t, d, rest, h);
      HitsTableMore(t, d, rest, e, h);
      RepeatsMore(d, rest, e);
      if OfDay(e, d) && !Collides(t, d, rest, h) { LastCollides(t, d, rest, e, h); }
    }
  }

  /** Storing a day's logs keeps the aggregates in step exactly when none of them collides. */
  lemma StoreConsistentIff(t: Tables, d: Day, batch: seq<Entry>, h: Day)
    requires Consistent(t, h)
    ensures Consistent(StoreDay(t, d, batch), h) <==> !Collides(t, d, batch, h)
  {
    CollidesIff(t, d, batch, h);
    if Collides(t, d, batch, h) {
      forall j: GroupKey | j.day >= h ensures Excess(t, j) == 0 { assert Matches(t, j); }
      var k := StoreDayExcess(t, d, batch, h);
      assert !Matches(StoreDay(t, d, batch), k);
    } else {
      StoreDayConsistent(t, d, batch, h);
    }
  }

  /**
   A date replacement keeps the aggregates in step exactly when none of the day's logs comes under the id of a counted
   row of another date, or of a counted log before it in the batch.
   */
  lemma ReplaceConsistentIff(t: Tables, d: Day, batch: seq<Entry>, h: Day)
    requires Consistent(t, h)
    ensures Consistent(Replace(t, d, batch), h) <==> !Collides(ClearDay(t, d), d, batch, h)
  {
    ClearConsistent(t, d, h);
    StoreConsistentIff(ClearDay(t, d), d, batch, h);
  }

  /** Enough for that: distinct ids, none of them stored under another date. */
  predicate FreshIds(t: Tables, d: Day, batch: seq<Entry>) {
    && (forall i, j | 0 <= i < j < |batch| && OfDay(batch[i], d) && OfDay(batch[j], d) :: batch[i].id != batch[j].id)
    && (forall i | 0 <= i < |batch| && OfDay(batch[i], d) && batch[i].id in t.raw ::
          DayOf(t.raw[batch[i].id].time) == d)
  }

  lemma FreshIdsNeverOverwrite(t: Tables, d: Day, batch: seq<Entry>, h: Day)
    requires FreshIds(t, d, batch)
    ensures !Collides(ClearDay(t, d), d, batch, h) && !OverwritesCounted(ClearDay(t, d), d, batch, h)
  {
    CollidesIff(ClearDay(t, d), d, batch, h);
  }

  // ---- what the writes leave in the tables, row by row ----

  /** The positions of the batch that hold a log of the day for the aggregate row. */
  function Positions(batch: seq<Entry>, d: Day, k: GroupKey): set<int> {
    set i | 0 <= i < |batch| && DayOf(batch[i].log.time) == d && batch[i].log.Key() == Some(k)
  }

  predicate LastOfDay(batch: seq<Entry>, d: Day, id: LogId, j: int) {
    && 0 <= j < |batch| && DayOf(batch[j].log.time) == d && batch[j].id == id
    && forall i | j < i < |batch| :: DayOf(batch[i].log.time) != d || batch[i].id != id
  }

  predicate SameRaw(t: Tables, t': Tables, id: LogId) {
    (id in t'.raw <==> id in t.raw) && (id in t.raw ==> t'.raw[id] == t.raw[id])
  }

  predicate SameAgg(t: Tables, t': Tables, k: GroupKey) {
    (k in t'.agg <==> k in t.agg) && (k in t.agg ==> t'.agg[k] == t.agg[k])
  }

  /** Nothing of the day is left, and everything of the other days. */
  ghost predicate Cleared(t: Tables, t': Tables, d: Day) {
    && (forall id :: id in t'.raw <==> id in t.raw && DayOf(t.raw[id].time) != d)
    && (forall id | id in t'.raw :: t'.raw[id] == t.raw[id])
    && (forall k :: k in t'.agg <==> k in t.agg && k.day != d)
    && (forall k | k in t'.agg :: t'.agg[k] == t.agg[k])
  }

  /**
   Under each id the last log of the day that has it; ids no log of the day has keep their row. Each aggregate row has
   been counted once for each of its logs, and the others stay.
   */
  ghost predicate Stored(t: Tables, t': Tables, d: Day, batch: seq<Entry>) {
    && (forall id, j | LastOfDay(batch, d, id, j) :: id in t'.raw && t'.raw[id] == batch[j].log)
    && (forall id :: (exists j :: LastOfDay(batch, d, id, j)) || SameRaw(t, t', id))
    && (forall k: GroupKey :: CountedMore(t, t', k, |Positions(batch, d, k)|))
  }

  predicate CountedMore(t: Tables, t': Tables, k: GroupKey, n: nat) {
    if n == 0 then SameAgg(t, t', k)
    else k in t'.agg && t'.agg[k].count == (if k in t.agg then t.agg[k].count else 0) + n
  }

  lemma ClearIsCleared(t: Tables, d: Day)
    ensures Cleared(t, ClearDay(t, d), d)
  {
  }

  lemma PositionsMore(rest: seq<Entry>, e: Entry, d: Day, k: GroupKey)
    ensures |Positions(rest + [e], d, k)| ==
              |Positions(rest, d, k)| + if DayOf(e.log.time) == d && e.log.Key() == Some(k) then 1 else 0
  {
    var more := DayOf(e.log.time) == d && e.log.Key() == Some(k);
    assert Positions(rest + [e], d, k) == Positions(rest, d, k) + if more then {|rest|} else {};
  }

  lemma {:induction false} StoreCounts(t: Tables, d: Day, batch: seq<Entry>, k: GroupKey)
    ensures CountedMore(t, StoreDay(t, d, batch), k, |Positions(batch, d, k)|)
    decreases |batch|
  {
    if batch == [] {
      assert Positions(batch, d, k) == {};
    } else {
      var rest, e := batch[..|batch| - 1], batch[|batch| - 1];
      assert batch == rest + [e];
      StoreCounts(t, d, rest, k);
      PositionsMore(rest, e, d, k);
      CountStep(t, StoreDay(t, d, rest), e, k, |Positions(rest, d, k)|);
    }
  }

  lemma StoreIsStored(t: Tables, d: Day, batch: seq<Entry>)
    ensures Stored(t, StoreDay(t, d, batch), d, batch)
  {
    var t' := StoreDay(t, d, batch);
    forall id
      ensures forall j | LastOfDay(batch, d, id, j) :: id in t'.raw && t'.raw[id] == batch[j].log
      ensures (exists j :: LastOfDay(batch, d, id, j)) || SameRaw(t, t', id)
    {
      var last := StoredUnder(t, d, batch, id);
      if last >= 0 { assert LastOfDay(batch, d, id, last); }
    }
    forall k: GroupKey ensures CountedMore(t, t', k, |Positions(batch, d, k)|) { StoreCounts(t, d, batch, k); }
  }

  /**
   A replaced date: its raw rows are the last log of the date under each id, its aggregate rows count the date's logs,
   and all other rows stay, but for a row of another date whose id a log of this one has.
   */
  ghost predicate Replaced(t: Tables, t': Tables, d: Day, batch: seq<Entry>) {
    && (forall id, j | LastOfDay(batch, d, id, j) :: id in t'.raw && t'.raw[id] == batch[j].log)
    && (forall id :: (exists j :: LastOfDay(batch, d, id, j)) ||
          ((id in t'.raw <==> id in t.raw && DayOf(t.raw[id].time) != d)
           && (id in t'.raw ==> t'.raw[id] == t.raw[id])))
    && (forall k: GroupKey | k.day != d :: SameAgg(t, t', k))
    && (forall k: GroupKey | k.day == d :: (k in t'.agg <==> Positions(batch, d, k) != {})
          && (k in t'.agg ==> t'.agg[k].count == |Positions(batch, d, k)|))
  }

  lemma ReplaceIsReplaced(t: Tables, d: Day, batch: seq<Entry>)
    ensures Replaced(t, Replace(t, d, batch), d, batch)
  {
    var c, t' := ClearDay(t, d), Replace(t, d, batch);
    StoreIsStored(c, d, batch);
    forall id ensures (exists j :: LastOfDay(batch, d, id, j)) ||
      ((id in t'.raw <==> id in t.raw && DayOf(t.raw[id].time) != d) && (id in t'.raw ==> t'.raw[id] == t.raw[id])) {
      assert (exists j :: LastOfDay(batch, d, id, j)) || SameRaw(c, t', id);
    }
    forall k: GroupKey
      ensures k.day != d ==> SameAgg(t, t', k)
      ensures k.day == d ==> (k in t'.agg <==> Positions(batch, d, k) != {})
      ensures k.day == d && k in t'.agg ==> t'.agg[k].count == |Positions(batch, d, k)|
    {
      assert CountedMore(c, t', k, |Positions(batch, d, k)|);
      if k.day != d { NoPositions(batch, d, k); }
    }
  }

  lemma NoPositions(batch: seq<Entry>, d: Day, k: GroupKey)
    requires k.day != d
    ensures Positions(batch, d, k) == {}
  {
    forall i | 0 <= i < |batch| ensures i !in Positions(batch, d, k) { KeyDay(batch[i].log); }
  }

  predicate FirstOf(batch: seq<Entry>, id: LogId, j: int) {
    0 <= j < |batch| && batch[j].id == id && forall i | 0 <= i < j :: batch[i].id != id
  }

  /**
   A stored id keeps its log, a new one has the first log of the batch; an aggregate row gains as many counts as its
   group gains raw rows, and stays as it is when it gains none.
   */
  ghost predicate Merged(t: Tables, t': Tables, batch: seq<Entry>) {
    && (forall id | id in t.raw :: id in t'.raw && t'.raw[id] == t.raw[id])
    && (forall id, j | FirstOf(batch, id, j) && id !in t.raw :: id in t'.raw && t'.raw[id] == batch[j].log)
    && (forall id | id in t'.raw :: id in t.raw || exists j :: FirstOf(batch, id, j))
    && (forall k: GroupKey :: CountedMore(t, t', k, |Group(t'.raw, k) - Group(t.raw, k)|))
  }

  lemma {:induction false} MergeRaw(t: Tables, batch: seq<Entry>, id: LogId)
    ensures var raw := Merge(t, batch).raw;
            if id in t.raw then id in raw && raw[id] == t.raw[id]
            else if id in raw then exists j :: FirstOf(batch, id, j) && raw[id] == batch[j].log
            else forall i | 0 <= i < |batch| :: batch[i].id != id
    decreases |batch|
  {
    if batch != [] {
      var rest, n := batch[..|batch| - 1], |batch| - 1;
      MergeRaw(t, rest, id);
      assert forall i | 0 <= i < n :: batch[i] == rest[i];
      if id !in t.raw && id in Merge(t, rest).raw {
        var j :| FirstOf(rest, id, j) && Merge(t, rest).raw[id] == rest[j].log;
        assert FirstOf(batch, id, j);
      } else if id !in t.raw && batch[n].id == id {
        assert FirstOf(batch, id, n);
      }
    }
  }

  lemma CountStep(t: Tables, m: Tables, e: Entry, k: GroupKey, n: nat)
    requires CountedMore(t, m, k, n)
    ensures CountedMore(t, StoreOne(m, e), k, n + if e.log.Key() == Some(k) then 1 else 0)
  {
  }

  /** A new log joins its own group and no other. */
  lemma GainStep(m: Tables, e: Entry, k: GroupKey, g: set<LogId>)
    requires e.id !in m.raw && g <= Group(m.raw, k)
    ensures g <= Group(StoreOne(m, e).raw, k)
    ensures |Group(StoreOne(m, e).raw, k) - g| ==
              |Group(m.raw, k) - g| + if e.log.Key() == Some(k) then 1 else 0
  {
    var before := Group(m.raw, k);
    NewGroup(m, e, k);
    if e.log.Key() == Some(k) {
      assert (before + {e.id}) - g == (before - g) + {e.id};
      SizeWith(before - g, e.id);
    }
  }

  lemma NewGroup(m: Tables, e: Entry, k: GroupKey)
    requires e.id !in m.raw
    ensures e.id !in Group(m.raw, k)
    ensures Group(StoreOne(m, e).raw, k) == if e.log.Key() == Some(k) then Group(m.raw, k) + {e.id} else Group(m.raw, k)
  {
    GroupAfterStore(m, e, k);
  }

  lemma {:induction false} GroupGains(t: Tables, batch: seq<Entry>, k: GroupKey)
    ensures Group(t.raw, k) <= Group(Merge(t, batch).raw, k)
    ensures CountedMore(t, Merge(t, batch), k, |Group(Merge(t, batch).raw, k) - Group(t.raw, k)|)
    decreases |batch|
  {
    if batch == [] {
      assert Group(t.raw, k) - Group(t.raw, k) == {};
    } else {
      var rest, e := batch[..|batch| - 1], batch[|batch| - 1];
      GroupGains(t, rest, k);
      var m := Merge(t, rest);
      if e.id !in m.raw {
        GainStep(m, e, k, Group(t.raw, k));
        CountStep(t, m, e, k, |Group(m.raw, k) - Group(t.raw, k)|);
      }
    }
  }

  lemma MergeIsMerged(t: Tables, batch: seq<Entry>)
    ensures Merged(t, Merge(t, batch), batch)
  {
    forall id, j | FirstOf(batch, id, j) && id !in t.raw
      ensures id in Merge(t, batch).raw && Merge(t, batch).raw[id] == batch[j].log
    {
      MergeRaw(t, batch, id);
    }
    forall id | id in Merge(t, batch).raw ensures id in t.raw || exists j :: FirstOf(batch, id, j) {
      MergeRaw(t, batch, id);
    }
    forall id | id in t.raw ensures id in Merge(t, batch).raw && Merge(t, batch).raw[id] == t.raw[id] {
      MergeRaw(t, batch, id);
    }
    forall k: GroupKey ensures CountedMore(t, Merge(t, batch), k, |Group(Merge(t, batch).raw, k) - Group(t.raw, k)|) {
      GroupGains(t, batch, k);
    }
  }

  // ---- removals ----

  lemma ClearConsistent(t: Tables, d: Day, h: Day)
    requires Consistent(t, h)
    ensures Consistent(ClearDay(t, d), h)
  {
    forall k: GroupKey | k.day >= h ensures Matches(ClearDay(t, d), k) {
      assert Matches(t, k);
      var c := ClearDay(t, d);
      if k.day == d {
        assert Group(c.raw, k) == {};
      } else {
        GroupKept(t.raw, c.raw, k);
        if k in t.agg { SummaryKept(t.agg[k], t.raw, c.raw, k); }
      }
    }
  }

  lemma GroupKept(raw: map<LogId, Log>, less: map<LogId, Log>, k: GroupKey)
    requires forall id | id in less :: id in raw && less[id] == raw[id]
    requires forall id | id in raw && raw[id].Key() == Some(k) :: id in less
    ensures Group(less, k) == Group(raw, k)
  {
  }

  lemma SummaryKept(a: Agg, raw: map<LogId, Log>, less: map<LogId, Log>, k: GroupKey)
    requires forall id | id in less :: id in raw && less[id] == raw[id]
    requires Group(less, k) == Group(raw, k) && Summarises(a, raw, Group(raw, k))
    ensures Summarises(a, less, Group(less, k))
  {
    var g := Group(raw, k);
    var lo :| lo in g && raw[lo].time == a.first;
    var hi :| hi in g && raw[hi].time == a.last;
    assert lo in Group(less, k) && less[lo].time == a.first && hi in Group(less, k) && less[hi].time == a.last;
  }

  lemma PurgeRawConsistent(t: Tables, cutoff: Time, h: Day)
    requires Consistent(t, h) && h >= DayAfter(cutoff)
    ensures Consistent(PurgeRaw(t, cutoff), h)
  {
    var p := PurgeRaw(t, cutoff);
    forall k: GroupKey | k.day >= h ensures Matches(p, k) {
      assert Matches(t, k);
      GroupKept(t.raw, p.raw, k);
      if k in t.agg { SummaryKept(t.agg[k], t.raw, p.raw, k); }
    }
  }

  // ---- whole runs ----

  datatype Op =
    | MergeLogs(batch: seq<Entry>)
    | ClearDate(day: Day)
    | StoreDate(day: Day, batch: seq<Entry>)
    | ReplaceDate(day: Day, batch: seq<Entry>)
    | PurgeRawBefore(cutoff: Time)
    | PurgeAggregatesBefore(cutoffDay: Day)

  function Apply(t: Tables, op: Op): Tables {
    match op
    case MergeLogs(batch) => Merge(t, batch)
    case ClearDate(d) => ClearDay(t, d)
    case StoreDate(d, batch) => StoreDay(t, d, batch)
    case ReplaceDate(d, batch) => Replace(t, d, batch)
    case PurgeRawBefore(cutoff) => PurgeRaw(t, cutoff)
    case PurgeAggregatesBefore(d) => PurgeAgg(t, d)
  }

  /** The day before which purges may have removed something. */
  function Horizon(ops: seq<Op>, origin: Day): Day
    decreases |ops|
  {
    if ops == [] then origin
    else
      var h := Horizon(ops[..|ops| - 1], origin);
      match ops[|ops| - 1]
      case PurgeRawBefore(cutoff) => Max(h, DayAfter(cutoff))
      case PurgeAggregatesBefore(d) => Max(h, d)
      case _ => h
  }

  const EMPTY_TABLES: Tables := Tables(map[], map[])

  /** The tables after a series of transactions. */
  function From(t: Tables, ops: seq<Op>): Tables
    decreases |ops|
  {
    if ops == [] then t else Apply(From(t, ops[..|ops| - 1]), ops[|ops| - 1])
  }

  function Run(ops: seq<Op>): Tables { From(EMPTY_TABLES, ops) }

  /** A click replacement clears the date in a transaction of its own, so others may come before its store. */
  lemma {:induction false} ClearThenStore(t: Tables, d: Day, others: seq<Op>, batch: seq<Entry>)
    ensures From(t, [ClearDate(d)] + others + [StoreDate(d, batch)]) == StoreDay(From(ClearDay(t, d), others), d, batch)
  {
    var all := [ClearDate(d)] + others + [StoreDate(d, batch)];
    assert all[..|all| - 1] == [ClearDate(d)] + others;
    ClearFirst(t, d, others);
  }

  lemma {:induction false} ClearFirst(t: Tables, d: Day, others: seq<Op>)
    ensures From(t, [ClearDate(d)] + others) == From(ClearDay(t, d), others)
    decreases |others|
  {
    var all := [ClearDate(d)] + others;
    if others == [] {
      assert all == [ClearDate(d)] && all[..0] == [];
    } else {
      assert all[..|all| - 1] == [ClearDate(d)] + others[..|others| - 1];
      ClearFirst(t, d, others[..|others| - 1]);
    }
  }

  /** No store or replacement of the run collides where it happens; merges are not restricted. */
  predicate CollisionFree(ops: seq<Op>, origin: Day)
    decreases |ops|
  {
    ops == [] ||
    (CollisionFree(ops[..|ops| - 1], origin) &&
     var t, h := Run(ops[..|ops| - 1]), Horizon(ops[..|ops| - 1], origin);
     match ops[|ops| - 1]
     case StoreDate(d, batch) => !Collides(t, d, batch, h)
     case ReplaceDate(d, batch) => !Collides(ClearDay(t, d), d, batch, h)
     case _ => true)
  }

  // ---- runs that collide ----

  /** One raw row, counted twice. */
  ghost predicate CountedTwice(t: Tables, e: Entry, k: GroupKey) {
    t.raw == map[e.id := e.log] && k in t.agg && t.agg[k].count == 2
  }

  lemma TwiceIsInconsistent(t: Tables, e: Entry, k: GroupKey, h: Day)
    requires CountedTwice(t, e, k) && k.day >= h
    ensures !Consistent(t, h)
  {
    assert |Group(t.raw, k)| <= 1 by {
      assert Group(t.raw, k) == {} || Group(t.raw, k) == {e.id};
    }
    assert !Matches(t, k);
  }

  lemma RunMore(ops: seq<Op>, op: Op)
    ensures Run(ops + [op]) == Apply(Run(ops), op)
  {
    assert (ops + [op])[..|ops|] == ops;
  }

  lemma StoreTwice(e: Entry, k: GroupKey)
    requires e.log.Key() == Some(k)
    ensures CountedTwice(StoreDay(EMPTY_TABLES, k.day, [e, e]), e, k)
    ensures CountedTwice(StoreDay(Merge(EMPTY_TABLES, [e]), k.day, [e]), e, k)
  {
    KeyDay(e.log);
    assert [e][..0] == [] && [e, e][..1] == [e];
    assert StoreDay(EMPTY_TABLES, k.day, [e]) == StoreOne(EMPTY_TABLES, e) == Merge(EMPTY_TABLES, [e]);
    assert StoreOne(EMPTY_TABLES, e).agg == map[k := Agg(1, e.log.time, e.log.time, e.now)];
  }

  /** A replacement whose batch has a log twice counts it twice, whatever the log. */
  lemma RepeatedLogBreaks(e: Entry, k: GroupKey, h: Day)
    requires e.log.Key() == Some(k) && k.day >= h
    ensures var t := Run([ReplaceDate(k.day, [e, e])]); CountedTwice(t, e, k) && !Consistent(t, h)
    ensures Collides(ClearDay(EMPTY_TABLES, k.day), k.day, [e, e], h)
  {
    assert ClearDay(EMPTY_TABLES, k.day) == EMPTY_TABLES;
    RunMore([], ReplaceDate(k.day, [e, e]));
    assert [] + [ReplaceDate(k.day, [e, e])] == [ReplaceDate(k.day, [e, e])];
    StoreTwice(e, k);
    TwiceIsInconsistent(Run([ReplaceDate(k.day, [e, e])]), e, k, h);
    KeyDay(e.log);
    assert [e, e][0] == e && [e, e][1] == e;
  }

  lemma ClearedAndMerged(e: Entry, k: GroupKey)
    requires e.log.Key() == Some(k)
    ensures Run([ClearDate(k.day), MergeLogs([e])]) == Merge(EMPTY_TABLES, [e])
  {
    assert ClearDay(EMPTY_TABLES, k.day) == EMPTY_TABLES;
    RunMore([], ClearDate(k.day));
    assert [] + [ClearDate(k.day)] == [ClearDate(k.day)];
    RunMore([ClearDate(k.day)], MergeLogs([e]));
    assert [ClearDate(k.day)] + [MergeLogs([e])] == [ClearDate(k.day), MergeLogs([e])];
  }

  /** A click merged between the two transactions of a replacement that has it too is counted twice. */
  lemma MergeBetweenBreaks(e: Entry, k: GroupKey, h: Day)
    requires e.log.Key() == Some(k) && k.day >= h
    ensures var t := Run([ClearDate(k.day), MergeLogs([e]), StoreDate(k.day, [e])]);
            CountedTwice(t, e, k) && !Consistent(t, h)
    ensures Collides(Run([ClearDate(k.day), MergeLogs([e])]), k.day, [e], h)
  {
    var before := [ClearDate(k.day), MergeLogs([e])];
    ClearedAndMerged(e, k);
    RunMore(before, StoreDate(k.day, [e]));
    assert before + [StoreDate(k.day, [e])] == [ClearDate(k.day), MergeLogs([e]), StoreDate(k.day, [e])];
    StoreTwice(e, k);
    TwiceIsInconsistent(Run(before + [StoreDate(k.day, [e])]), e, k, h);
    KeyDay(e.log);
    assert [e][..0] == [] && Run(before) == StoreOne(EMPTY_TABLES, e);
    assert OfDay([e][0], k.day) && HitsCounted(Run(before), [e][0].id, h);
  }

  lemma {:induction false} MergeConsistent(t: Tables, batch: seq<Entry>, h: Day)
    requires Consistent(t, h)
    ensures Consistent(Merge(t, batch), h)
    decreases |batch|
  {
    if batch != [] {
      MergeConsistent(t, batch[..|batch| - 1], h);
      MergeOneConsistent(Merge(t, batch[..|batch| - 1]), batch[|batch| - 1], h);
    }
  }

  lemma ConsistentLater(t: Tables, h: Day, h': Day)
    requires Consistent(t, h) && h <= h'
    ensures Consistent(t, h')
  {
  }

  /**
   Over any serial run of merges, clears, stores, date replacements and purges, every aggregate row on or after the
   purge horizon is the count, least and greatest time of its raw rows.
   */
  lemma {:induction false} ConsistentAlways(ops: seq<Op>, origin: Day)
    requires CollisionFree(ops, origin)
    ensures Consistent(Run(ops), Horizon(ops, origin))
    decreases |ops|
  {
    if ops == [] {
      forall k: GroupKey ensures Matches(EMPTY_TABLES, k) { assert Group(EMPTY_TABLES.raw, k) == {}; }
    } else {
      var before, op := ops[..|ops| - 1], ops[|ops| - 1];
      ConsistentAlways(before, origin);
      var t, h := Run(before), Horizon(before, origin);
      match op
      case MergeLogs(batch) => MergeConsistent(t, batch, h);
      case ClearDate(d) => ClearConsistent(t, d, h);
      case StoreDate(d, batch) => StoreConsistentIff(t, d, batch, h);
      case ReplaceDate(d, batch) => ReplaceConsistentIff(t, d, batch, h);
      case PurgeRawBefore(cutoff) =>
        ConsistentLater(t, h, Horizon(ops, origin));
        PurgeRawConsistent(t, cutoff, Horizon(ops, origin));
      case PurgeAggregatesBefore(d) =>
        var h' := Horizon(ops, origin);
        forall k: GroupKey | k.day >= h' ensures Matches(PurgeAgg(t, d), k) { assert Matches(t, k); }
    }
  }

  // ---- no aggregate row is empty ----

  predicate Counts(agg: map<GroupKey, Agg>) { forall k | k in agg :: agg[k].count >= 1 }

  lemma {:induction false} MergeCounts(t: Tables, batch: seq<Entry>)
    requires Counts(t.agg)
    ensures Counts(Merge(t, batch).agg)
    decreases |batch|
  {
    if batch != [] { MergeCounts(t, batch[..|batch| - 1]); }
  }

  lemma {:induction false} StoreDayCounts(t: Tables, d: Day, batch: seq<Entry>)
    requires Counts(t.agg)
    ensures Counts(StoreDay(t, d, batch).agg)
    decreases |batch|
  {
    if batch != [] { StoreDayCounts(t, d, batch[..|batch| - 1]); }
  }

  /** In every reachable state an aggregate row counts at least one log, collisions or not. */
  lemma {:induction false} CountsAlways(ops: seq<Op>)
    ensures Counts(Run(ops).agg)
    decreases |ops|
  {
    if ops != [] {
      var before := Run(ops[..|ops| - 1]);
      CountsAlways(ops[..|ops| - 1]);
      match ops[|ops| - 1]
      case MergeLogs(batch) => MergeCounts(before, batch);
      case StoreDate(d, batch) => StoreDayCounts(before, d, batch);
      case ReplaceDate(d, batch) => StoreDayCounts(ClearDay(before, d), d, batch);
      case _ =>
    }
  }

  // ---- affected dates ----

  /** The dates of the logs a merge really inserts. */
  function MergedDates(t: Tables, batch: seq<Entry>): set<Day>
    decreases |batch|
  {
    if batch == [] then {}
    else
      var e, rest := batch[|batch| - 1], batch[..|batch| - 1];
      MergedDates(t, rest) + if e.id in Merge(t, rest).raw then {} else {DayOf(e.log.time)}
  }

  /** The reported dates cover every date with a changed aggregate row, and each of them did get a new raw row. */
  lemma {:induction false} MergedDatesCover(t: Tables, batch: seq<Entry>)
    ensures forall k: GroupKey | k.day !in MergedDates(t, batch) ::
      (k in Merge(t, batch).agg <==> k in t.agg) && (k in t.agg ==> Merge(t, batch).agg[k] == t.agg[k])
    ensures forall id | id in t.raw :: id in Merge(t, batch).raw && Merge(t, batch).raw[id] == t.raw[id]
    ensures forall d :: d in MergedDates(t, batch) <==>
      exists id :: id in Merge(t, batch).raw && id !in t.raw && DayOf(Merge(t, batch).raw[id].time) == d
    decreases |batch|
  {
    if batch != [] {
      var e, rest := batch[|batch| - 1], batch[..|batch| - 1];
      MergedDatesCover(t, rest);
      var m := Merge(t, rest);
      var n := Merge(t, batch);
      if e.id !in m.raw {
        assert n.raw == m.raw[e.id := e.log];
        forall d | d in MergedDates(t, batch) ensures exists id ::
          id in n.raw && id !in t.raw && DayOf(n.raw[id].time) == d {
          if d in MergedDates(t, rest) {
            var id :| id in m.raw && id !in t.raw && DayOf(m.raw[id].time) == d;
            assert n.raw[id] == m.raw[id];
          } else {
            assert n.raw[e.id] == e.log;
          }
        }
      }
    }
  }
}
