/** The ingestion repository: its loops update a raw table and an aggregate table log by log. */
module IngestionRepository {
  import opened Aggregates

  class Repository {
    var clicks: Tables
    var conversions: Tables
    var lastMergedClickDates: set<Day>
    var lastMergedConversionDates: set<Day>

    constructor ()
      ensures clicks == EMPTY_TABLES && conversions == EMPTY_TABLES
    {
      clicks, conversions, lastMergedClickDates, lastMergedConversionDates := EMPTY_TABLES, EMPTY_TABLES, {}, {};
    }

    /** With the raw table on (`store_raw`); ids are already resolved, a click without one gets a fresh one. */
    method MergeClicks(batch: seq<Entry>) returns (newCount: nat, skipCount: nat)
      modifies this`clicks, this`lastMergedClickDates
      ensures clicks == Merge(old(clicks), batch) && Merged(old(clicks), clicks, batch)
      ensures lastMergedClickDates == MergedDates(old(clicks), batch)
      ensures newCount + skipCount == |batch| && newCount == |clicks.raw| - |old(clicks).raw|
    {
      var dates;
      ghost var before := clicks;
      MergeIsMerged(clicks, batch);
      newCount, skipCount, dates := 0, 0, {};
      for i := 0 to |batch|
        invariant newCount + skipCount == i && newCount == |clicks.raw| - |before.raw|
        invariant clicks == Merge(before, batch[..i]) && dates == MergedDates(before, batch[..i])
      {
        assert batch[..i + 1][..i] == batch[..i];
        var e := batch[i];
        if e.id in clicks.raw {
          skipCount := skipCount + 1;
          continue;
        }
        clicks := Tables(clicks.raw[e.id := e.log], Counted(clicks.agg, e));
        newCount := newCount + 1;
        dates := dates + {DayOf(e.log.time)};
      }
      assert batch[..|batch|] == batch;
      lastMergedClickDates := dates;
    }

    method MergeConversions(batch: seq<Entry>) returns (newCount: nat, skipCount: nat)
      modifies this`conversions, this`lastMergedConversionDates
      ensures conversions == Merge(old(conversions), batch) && Merged(old(conversions), conversions, batch)
      ensures lastMergedConversionDates == MergedDates(old(conversions), batch)
      ensures newCount + skipCount == |batch| && newCount == |conversions.raw| - |old(conversions).raw|
    {
      var dates;
      ghost var before := conversions;
      MergeIsMerged(conversions, batch);
      newCount, skipCount, dates := 0, 0, {};
      for i := 0 to |batch|
        invariant newCount + skipCount == i && newCount == |conversions.raw| - |before.raw|
        invariant conversions == Merge(before, batch[..i]) && dates == MergedDates(before, batch[..i])
      {
        assert batch[..i + 1][..i] == batch[..i];
        var e := batch[i];
        if e.id in conversions.raw {
          skipCount := skipCount + 1;
          continue;
        }
        conversions := conversions.(raw := conversions.raw[e.id := e.log]);
        if e.log.Key().Some? {
          conversions := conversions.(agg := Counted(conversions.agg, e));
        }
        newCount := newCount + 1;
        dates := dates + {DayOf(e.log.time)};
      }
      assert batch[..|batch|] == batch;
      lastMergedConversionDates := dates;
    }

    method ClearDate(day: Day)
      modifies this`clicks
      ensures clicks == ClearDay(old(clicks), day) && Cleared(old(clicks), clicks, day)
    {
      clicks := ClearDay(clicks, day);
    }

    /**
     The date is cleared in one transaction and its logs are stored in a second one; `others` are the transactions that
     other sessions commit in between.
     */
    method IngestClicks(batch: seq<Entry>, day: Day, others: seq<Op>) returns (count: nat)
      modifies this`clicks
      ensures clicks == StoreDay(From(ClearDay(old(clicks), day), others), day, batch)
      ensures clicks == From(old(clicks), [Op.ClearDate(day)] + others + [StoreDate(day, batch)])
      ensures Stored(From(ClearDay(old(clicks), day), others), clicks, day, batch)
      ensures others == [] ==> clicks == Replace(old(clicks), day, batch) && Replaced(old(clicks), clicks, day, batch)
      ensures count == |set i | 0 <= i < |batch| && DayOf(batch[i].log.time) == day|
    {
      ClearThenStore(clicks, day, others, batch);
      ReplaceIsReplaced(clicks, day, batch);
      StoreIsStored(From(ClearDay(clicks, day), others), day, batch);
      ClearDate(day);
      clicks := From(clicks, others);
      ghost var before := clicks;
      count := 0;
      for i := 0 to |batch|
        invariant clicks == StoreDay(before, day, batch[..i])
        invariant count == |OnDay(batch, day, i)|
      {
        assert batch[..i + 1][..i] == batch[..i];
        OnDayStep(batch, day, i);
        var e := batch[i];
        if DayOf(e.log.time) != day {
          continue;
        }
        clicks := Tables(clicks.raw[e.id := e.log], Counted(clicks.agg, e));
        count := count + 1;
      }
      assert batch[..|batch|] == batch;
    }

    method IngestConversions(batch: seq<Entry>, day: Day) returns (count: nat)
      modifies this`conversions
      ensures conversions == Replace(old(conversions), day, batch)
      ensures Replaced(old(conversions), conversions, day, batch)
      ensures count == |set i | 0 <= i < |batch| && DayOf(batch[i].log.time) == day|
    {
      ReplaceIsReplaced(conversions, day, batch);
      conversions := ClearDay(conversions, day);
      ghost var cleared := conversions;
      count := 0;
      for i := 0 to |batch|
        invariant conversions == StoreDay(cleared, day, batch[..i])
        invariant count == |OnDay(batch, day, i)|
      {
        assert batch[..i + 1][..i] == batch[..i];
        OnDayStep(batch, day, i);
        var e := batch[i];
        if DayOf(e.log.time) != day {
          continue;
        }
        conversions := conversions.(raw := conversions.raw[e.id := e.log]);
        if e.log.Key().Some? {
          conversions := conversions.(agg := Counted(conversions.agg, e));
        }
        count := count + 1;
      }
      assert batch[..|batch|] == batch;
    }

    method PurgeRawBefore(cutoff: Time)
      modifies this`clicks, this`conversions
      ensures clicks == PurgeRaw(old(clicks), cutoff) && conversions == PurgeRaw(old(conversions), cutoff)
      ensures RawFrom(old(clicks), clicks, cutoff) && RawFrom(old(conversions), conversions, cutoff)
    {
      clicks, conversions := PurgeRaw(clicks, cutoff), PurgeRaw(conversions, cutoff);
    }

    method PurgeAggregatesBefore(cutoff: Day)
      modifies this`clicks, this`conversions
      ensures clicks == PurgeAgg(old(clicks), cutoff) && conversions == PurgeAgg(old(conversions), cutoff)
      ensures AggFrom(old(clicks), clicks, cutoff) && AggFrom(old(conversions), conversions, cutoff)
    {
      clicks, conversions := PurgeAgg(clicks, cutoff), PurgeAgg(conversions, cutoff);
    }
  }

  /** The raw rows from the cutoff on are left, and all aggregate rows. */
  ghost predicate RawFrom(t: Tables, t': Tables, cutoff: Time) {
    && (forall id :: id in t'.raw <==> id in t.raw && t.raw[id].time >= cutoff)
    && (forall id | id in t'.raw :: t'.raw[id] == t.raw[id]) && t'.agg == t.agg
  }

  /** The aggregate rows from the cutoff on are left, and all raw rows. */
  ghost predicate AggFrom(t: Tables, t': Tables, cutoff: Day) {
    && (forall k :: k in t'.agg <==> k in t.agg && k.day >= cutoff)
    && (forall k | k in t'.agg :: t'.agg[k] == t.agg[k]) && t'.raw == t.raw
  }

  /** The positions before `n` whose logs fall on the day. */
  ghost function OnDay(batch: seq<Entry>, day: Day, n: nat): set<int>
    requires n <= |batch|
  {
    set i | 0 <= i < n && DayOf(batch[i].log.time) == day
  }

  lemma OnDayStep(batch: seq<Entry>, day: Day, n: nat)
    requires n < |batch|
    ensures |OnDay(batch, day, n + 1)| == |OnDay(batch, day, n)| + if DayOf(batch[n].log.time) == day then 1 else 0
  {
    var s, s' := OnDay(batch, day, n), OnDay(batch, day, n + 1);
    assert s' == if DayOf(batch[n].log.time) == day then s + {n} else s;
  }
}
