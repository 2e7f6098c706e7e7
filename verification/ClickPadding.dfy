/** Click-padding metrics: the definition per IP/UA pair, and the chunked, indexed computation that equals it. */
module ClickPadding {
  import opened Wrappers
  import opened Aggregates
  import opened Rollups

  type Raw = map<LogId, Log>

  /** SQL's NULLIF(x, '') and Python's truth of an optional string. */
  predicate Given(o: Option<string>) { o.Some? && o.value != "" }

  datatype Bucket = Bucket(user: string, program: string)

  datatype Metrics = Metrics(linkedClicks: nat, extraClicks: nat, extraUseragents: seq<string>)

  // ---- the definition for one pair ----

  predicate IsConversionOf(log: Log, day: Day, p: IpUa) {
    log.Conversion? && DayOf(log.time) == day && log.entryIp == Some(p.ip) && log.entryUa == Some(p.ua)
  }

  function ConversionIds(conv: Raw, day: Day, p: IpUa): set<LogId> {
    set id | id in conv && IsConversionOf(conv[id], day, p)
  }

  function CidsOf(conv: Raw, ids: set<LogId>): set<string> {
    set id | id in ids && id in conv && conv[id].Conversion? && Given(conv[id].cid) :: conv[id].cid.value
  }

  function BucketsOf(conv: Raw, ids: set<LogId>): set<Bucket> {
    set id | id in ids && id in conv && conv[id].Conversion? && Given(conv[id].user) && conv[id].program != ""
      :: Bucket(conv[id].user.value, conv[id].program)
  }

  predicate LinksTo(click: Log, ids: set<LogId>, cids: set<string>) {
    && click.Click?
    && (|| (Given(click.actionLog) && click.actionLog.value in ids)
        || (Given(click.trackCid) && click.trackCid.value in cids))
  }

  /** The clicks that carry one of the conversion ids or cids, on any date. */
  function Linked(clicks: Raw, ids: set<LogId>, cids: set<string>): set<LogId> {
    set c | c in clicks && LinksTo(clicks[c], ids, cids)
  }

  predicate InBuckets(click: Log, buckets: set<Bucket>) {
    && click.Click? && Given(click.affiliate) && Given(click.promotion)
    && Bucket(click.affiliate.value, click.promotion.value) in buckets
  }

  /** The clicks of the day in the pair's buckets, inside the widened window, that are not linked. */
  function Extra(clicks: Raw, day: Day, buckets: set<Bucket>, from: Time, to: Time, linked: set<LogId>): set<LogId> {
    set c | c in clicks && DayOf(clicks[c].time) == day && InBuckets(clicks[c], buckets)
      && from <= clicks[c].time <= to && c !in linked
  }

  predicate AreUseragents(uas: seq<string>, clicks: Raw, order: seq<LogId>) {
    |uas| == |order| && forall i | 0 <= i < |order| ::
      order[i] in clicks && clicks[order[i]].Click? && uas[i] == clicks[order[i]].clickUa
  }

  ghost predicate Measures(m: Metrics, clicks: Raw, linked: set<LogId>, extra: set<LogId>) {
    && m.linkedClicks == |linked| && m.extraClicks == |extra|
    && exists order: seq<LogId> :: Lists(order, extra) && AreUseragents(m.extraUseragents, clicks, order)
  }

  function LinkedOf(conv: Raw, clicks: Raw, day: Day, p: IpUa): set<LogId> {
    var ids := ConversionIds(conv, day, p);
    Linked(clicks, ids, CidsOf(conv, ids))
  }

  ghost predicate Converts(conv: Raw, day: Day, p: IpUa) { Times(conv, ConversionIds(conv, day, p)) != {} }

  ghost function ExtraOf(conv: Raw, clicks: Raw, day: Day, window: nat, p: IpUa): set<LogId>
    requires Converts(conv, day, p)
  {
    var ids := ConversionIds(conv, day, p);
    Extra(clicks, day, BucketsOf(conv, ids), MinOf(Times(conv, ids)) - window, MaxOf(Times(conv, ids)) + window,
          LinkedOf(conv, clicks, day, p))
  }

  /** What the metrics of a pair with at least one conversion on the day have to be. */
  ghost predicate IsMetrics(m: Metrics, conv: Raw, clicks: Raw, day: Day, window: nat, p: IpUa) {
    Converts(conv, day, p) && Measures(m, clicks, LinkedOf(conv, clicks, day, p), ExtraOf(conv, clicks, day, window, p))
  }

  // ---- what the definition gives ----

  lemma ListInit<T>(order: seq<T>, s: set<T>)
    requires Lists(order, s) && order != []
    ensures Lists(order[..|order| - 1], s - {order[|order| - 1]})
  {
    assert order == order[..|order| - 1] + [order[|order| - 1]];
  }

  lemma {:induction false} ListLength<T>(order: seq<T>, s: set<T>)
    requires Lists(order, s)
    ensures |order| == |s|
    decreases |order|
  {
    if order == [] {
      assert s == {};
    } else {
      ListInit(order, s);
      ListLength(order[..|order| - 1], s - {order[|order| - 1]});
    }
  }

  /** The clicks of the set whose useragent is of some kind. */
  function OfKind(clicks: Raw, s: set<LogId>, kind: string -> bool): set<LogId> {
    set c | c in s && c in clicks && clicks[c].Click? && kind(clicks[c].clickUa)
  }

  function CountIf(uas: seq<string>, kind: string -> bool): nat
    decreases |uas|
  {
    if uas == [] then 0 else CountIf(uas[..|uas| - 1], kind) + if kind(uas[|uas| - 1]) then 1 else 0
  }

  lemma {:induction false} CountInList(order: seq<LogId>, s: set<LogId>, uas: seq<string>, clicks: Raw,
                                       kind: string -> bool)
    requires Lists(order, s) && AreUseragents(uas, clicks, order)
    ensures CountIf(uas, kind) == |OfKind(clicks, s, kind)|
    decreases |order|
  {
    if order == [] {
      assert OfKind(clicks, s, kind) == {};
    } else {
      var n := |order| - 1;
      var last := order[n];
      ListInit(order, s);
      CountInList(order[..n], s - {last}, uas[..n], clicks, kind);
      KindWithLast(clicks, s, last, uas[n], kind);
    }
  }

  lemma KindWithLast(clicks: Raw, s: set<LogId>, last: LogId, ua: string, kind: string -> bool)
    requires last in s && last in clicks && clicks[last].Click? && clicks[last].clickUa == ua
    ensures |OfKind(clicks, s, kind)| == |OfKind(clicks, s - {last}, kind)| + if kind(ua) then 1 else 0
  {
    var before := OfKind(clicks, s - {last}, kind);
    assert last !in before;
    assert OfKind(clicks, s, kind) == if kind(ua) then before + {last} else before;
  }

  /**
   Linked and extra clicks are disjoint, the useragent list has exactly the extra count, and how many of its entries
   are of some kind depends on the clicks alone, not on the order in which they were found.
   */
  lemma MetricsMeaning(m: Metrics, conv: Raw, clicks: Raw, day: Day, window: nat, p: IpUa, kind: string -> bool)
    requires IsMetrics(m, conv, clicks, day, window, p)
    ensures |m.extraUseragents| == m.extraClicks
    ensures LinkedOf(conv, clicks, day, p) !! ExtraOf(conv, clicks, day, window, p)
    ensures CountIf(m.extraUseragents, kind) == |OfKind(clicks, ExtraOf(conv, clicks, day, window, p), kind)|
  {
    var extra := ExtraOf(conv, clicks, day, window, p);
    var order: seq<LogId> :| Lists(order, extra) && AreUseragents(m.extraUseragents, clicks, order);
    ListLength(order, extra);
    CountInList(order, extra, m.extraUseragents, clicks, kind);
  }

  // ---- the state gathered per pair ----

  datatype State = State(ids: set<LogId>, cids: set<string>, buckets: set<Bucket>, first: Time, last: Time)

  ghost predicate Gathers(st: State, conv: Raw, ids: set<LogId>) {
    && st.ids == ids && st.cids == CidsOf(conv, ids) && st.buckets == BucketsOf(conv, ids)
    && IsMin(st.first, Times(conv, ids)) && IsMax(st.last, Times(conv, ids))
  }

  function Gather(st: State, conv: Raw, id: LogId): State
    requires id in conv && conv[id].Conversion?
  {
    var row := conv[id];
    State(st.ids + {id},
          if Given(row.cid) then st.cids + {row.cid.value} else st.cids,
          if Given(row.user) && row.program != "" then st.buckets + {Bucket(row.user.value, row.program)}
          else st.buckets,
          Min(st.first, row.time), Max(st.last, row.time))
  }

  lemma CidsStep(conv: Raw, ids: set<LogId>, id: LogId)
    requires id in conv && conv[id].Conversion?
    ensures CidsOf(conv, ids + {id}) == CidsOf(conv, ids) + if Given(conv[id].cid) then {conv[id].cid.value} else {}
  {
    assert id in ids + {id};
  }

  lemma BucketsStep(conv: Raw, ids: set<LogId>, id: LogId)
    requires id in conv && conv[id].Conversion?
    ensures BucketsOf(conv, ids + {id}) == BucketsOf(conv, ids) +
      if Given(conv[id].user) && conv[id].program != "" then {Bucket(conv[id].user.value, conv[id].program)} else {}
  {
    assert id in ids + {id};
  }

  lemma TimesStep(conv: Raw, ids: set<LogId>, id: LogId)
    requires id in conv
    ensures Times(conv, ids + {id}) == Times(conv, ids) + {conv[id].time}
  {
    assert id in ids + {id};
  }

  lemma GatherFirst(conv: Raw, id: LogId)
    requires id in conv && conv[id].Conversion?
    ensures Gathers(Gather(State({}, {}, {}, conv[id].time, conv[id].time), conv, id), conv, {id})
  {
    CidsStep(conv, {}, id);
    BucketsStep(conv, {}, id);
    TimesStep(conv, {}, id);
    assert {} + {id} == {id};
  }

  lemma GatherStep(st: State, conv: Raw, ids: set<LogId>, id: LogId)
    requires id in conv && conv[id].Conversion? && Gathers(st, conv, ids)
    ensures Gathers(Gather(st, conv, id), conv, ids + {id})
  {
    CidsStep(conv, ids, id);
    BucketsStep(conv, ids, id);
    TimesStep(conv, ids, id);
  }
}
