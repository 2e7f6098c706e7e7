/** The chunked computation of the click-padding metrics, with its dictionaries and loops. */
module PaddingQueries {
  import opened Wrappers
  import opened Aggregates
  import opened Rollups
  import opened ClickPadding

  const CHUNK_SIZE: nat := 200

  function Lookup<V>(m: map<string, set<V>>, key: string): set<V> { if key in m then m[key] else {} }

  function ActionLogOf(log: Log): Option<string> { if log.Click? then log.actionLog else None }

  function TrackCidOf(log: Log): Option<string> { if log.Click? then log.trackCid else None }

  /** The index answers for every non-empty key with exactly the fetched clicks that carry it. */
  ghost predicate Indexes(index: map<string, set<LogId>>, fetched: set<LogId>, clicks: Raw,
                          field: Log -> Option<string>)
    requires fetched <= clicks.Keys
  {
    forall v | v != "" :: Lookup(index, v) == set c | c in fetched && field(clicks[c]) == Some(v)
  }

  /** `setdefault(key, set()).add(click_id)` over the rows. */
  method IndexClicks(rows: seq<LogId>, clicks: Raw, field: Log -> Option<string>)
    returns (index: map<string, set<LogId>>)
    requires forall c | c in rows :: c in clicks
    ensures forall v | v != "" :: Lookup(index, v) == set c | c in rows && field(clicks[c]) == Some(v)
  {
    index := map[];
    for i := 0 to |rows|
      invariant forall v | v != "" :: Lookup(index, v) == set c | c in rows[..i] && field(clicks[c]) == Some(v)
    {
      assert rows[..i + 1] == rows[..i] + [rows[i]];
      ghost var before := index;
      var value := field(clicks[rows[i]]);
      if Given(value) {
        index := index[value.value := Lookup(index, value.value) + {rows[i]}];
      }
      forall v | v != "" ensures Lookup(index, v) == set c | c in rows[..i + 1] && field(clicks[c]) == Some(v) {
        assert Lookup(index, v) == Lookup(before, v) + if value == Some(v) then {rows[i]} else {};
      }
    }
    assert rows[..|rows|] == rows;
  }

  /** The union of the indexed sets of all keys. */
  method UnionOf(index: map<string, set<LogId>>, keys: set<string>) returns (found: set<LogId>)
    ensures forall c :: c in found <==> exists k :: k in keys && c in Lookup(index, k)
  {
    found := {};
    var rest := keys;
    while rest != {}
      invariant rest <= keys
      invariant forall c :: c in found <==> exists k :: k in keys - rest && c in Lookup(index, k)
      decreases rest
    {
      var k :| k in rest;
      ghost var before, done := found, keys - rest;
      found := found + Lookup(index, k);
      rest := rest - {k};
      assert keys - rest == done + {k};
      forall c ensures c in found <==> exists j :: j in keys - rest && c in Lookup(index, j) {
        if c in Lookup(index, k) { assert k in keys - rest; }
        if c in before { var j :| j in done && c in Lookup(index, j); assert j in keys - rest; }
      }
    }
    assert keys - rest == keys;
  }

  /** The clicks linked to one pair, found through the two indexes built for the whole chunk. */
  method LinkedClicks(clicks: Raw, st: State, byAction: map<string, set<LogId>>, byCid: map<string, set<LogId>>,
                      ghost allIds: set<LogId>, ghost allCids: set<string>)
    returns (linked: set<LogId>)
    requires st.ids <= allIds && st.cids <= allCids && "" !in st.cids
    requires Indexes(byAction, Linked(clicks, allIds, allCids), clicks, ActionLogOf)
    requires Indexes(byCid, Linked(clicks, allIds, allCids), clicks, TrackCidOf)
    ensures linked == Linked(clicks, st.ids, st.cids)
  {
    // the empty id is not a key of the index: its rows are read as absent
    var a := UnionOf(byAction, st.ids - {""});
    var b := UnionOf(byCid, st.cids);
    linked := a + b;
    forall c ensures c in linked <==> c in Linked(clicks, st.ids, st.cids) {
      if c in a {
        var k :| k in st.ids - {""} && c in Lookup(byAction, k);
        assert ActionLogOf(clicks[c]) == Some(k);
      }
      if c in b {
        var k :| k in st.cids && c in Lookup(byCid, k);
        assert TrackCidOf(clicks[c]) == Some(k);
      }
      if c in Linked(clicks, st.ids, st.cids) {
        assert c in Linked(clicks, allIds, allCids);
        if Given(clicks[c].actionLog) && clicks[c].actionLog.value in st.ids {
          assert c in Lookup(byAction, clicks[c].actionLog.value);
        } else {
          assert c in Lookup(byCid, clicks[c].trackCid.value);
        }
      }
    }
  }

  // ---- extra clicks ----

  function BucketOf(log: Log): Option<Bucket> {
    if log.Click? && Given(log.affiliate) && Given(log.promotion)
    then Some(Bucket(log.affiliate.value, log.promotion.value)) else None
  }

  function RowsFor(m: map<Bucket, seq<LogId>>, b: Bucket): seq<LogId> { if b in m then m[b] else [] }

  /** The clicks of the day in any of the buckets. */
  function BucketClicks(clicks: Raw, day: Day, buckets: set<Bucket>): set<LogId> {
    set c | c in clicks && DayOf(clicks[c].time) == day && InBuckets(clicks[c], buckets)
  }

  method IndexBuckets(rows: seq<LogId>, clicks: Raw) returns (index: map<Bucket, seq<LogId>>)
    requires forall c | c in rows :: c in clicks && BucketOf(clicks[c]).Some?
    ensures forall b, c :: c in RowsFor(index, b) <==> c in rows && BucketOf(clicks[c]) == Some(b)
  {
    index := map[];
    for i := 0 to |rows|
      invariant forall b, c :: c in RowsFor(index, b) <==> c in rows[..i] && BucketOf(clicks[c]) == Some(b)
    {
      assert rows[..i + 1] == rows[..i] + [rows[i]];
      ghost var before := index;
      var bucket := BucketOf(clicks[rows[i]]).value;
      index := index[bucket := RowsFor(index, bucket) + [rows[i]]];
      assert forall b | b != bucket :: RowsFor(index, b) == RowsFor(before, b);
    }
    assert rows[..|rows|] == rows;
  }

  predicate Passes(click: Log, c: LogId, from: Time, to: Time, linked: set<LogId>) {
    c !in linked && from <= click.time <= to
  }

  function Passing(clicks: Raw, rows: seq<LogId>, from: Time, to: Time, linked: set<LogId>): set<LogId> {
    set c | c in rows && c in clicks && Passes(clicks[c], c, from, to, linked)
  }

  /** One bucket's rows: the passing ones that are not listed yet are appended. */
  method AddExtras(clicks: Raw, rows: seq<LogId>, from: Time, to: Time, linked: set<LogId>, before: seq<LogId>,
                   ghost s: set<LogId>)
    returns (order: seq<LogId>)
    requires Lists(before, s) && forall c | c in rows :: c in clicks
    ensures Lists(order, s + Passing(clicks, rows, from, to, linked))
  {
    order := before;
    for i := 0 to |rows|
      invariant Lists(order, s + Passing(clicks, rows[..i], from, to, linked))
    {
      var c := rows[i];
      assert rows[..i + 1] == rows[..i] + [c];
      assert Passing(clicks, rows[..i + 1], from, to, linked) ==
        Passing(clicks, rows[..i], from, to, linked) + if Passes(clicks[c], c, from, to, linked) then {c} else {};
      if Passes(clicks[c], c, from, to, linked) && c !in order {
        order := order + [c];
      }
    }
    assert rows[..|rows|] == rows;
  }

  /** The bucket index of a chunk: each bucket's rows are the fetched clicks of that bucket. */
  ghost predicate BucketIndex(index: map<Bucket, seq<LogId>>, fetched: set<LogId>, clicks: Raw)
    requires fetched <= clicks.Keys
  {
    forall b, c :: c in RowsFor(index, b) <==> c in fetched && BucketOf(clicks[c]) == Some(b)
  }

  lemma ExtraStep(clicks: Raw, day: Day, done: set<Bucket>, b: Bucket, from: Time, to: Time, linked: set<LogId>,
                  index: map<Bucket, seq<LogId>>, all: set<Bucket>)
    requires b in all && BucketIndex(index, BucketClicks(clicks, day, all), clicks)
    ensures Extra(clicks, day, done + {b}, from, to, linked)
      == Extra(clicks, day, done, from, to, linked) + Passing(clicks, RowsFor(index, b), from, to, linked)
    ensures forall c | c in RowsFor(index, b) :: c in clicks
  {
    forall c ensures c in RowsFor(index, b) <==>
      c in clicks && DayOf(clicks[c].time) == day && BucketOf(clicks[c]) == Some(b) {
      assert c in RowsFor(index, b) <==> c in BucketClicks(clicks, day, all) && BucketOf(clicks[c]) == Some(b);
    }
    forall c | c in clicks ensures InBuckets(clicks[c], done + {b}) <==>
      InBuckets(clicks[c], done) || BucketOf(clicks[c]) == Some(b) {
    }
  }

  /** The extra clicks of one pair, in the order the loops meet them, each once. */
  method ExtraClicks(clicks: Raw, day: Day, buckets: set<Bucket>, from: Time, to: Time, linked: set<LogId>,
                     index: map<Bucket, seq<LogId>>, ghost all: set<Bucket>)
    returns (order: seq<LogId>)
    requires buckets <= all && BucketIndex(index, BucketClicks(clicks, day, all), clicks)
    ensures Lists(order, Extra(clicks, day, buckets, from, to, linked))
  {
    order := [];
    var rest := buckets;
    while rest != {}
      invariant rest <= buckets && Lists(order, Extra(clicks, day, buckets - rest, from, to, linked))
      decreases rest
    {
      var b :| b in rest;
      ghost var done := buckets - rest;
      ExtraStep(clicks, day, done, b, from, to, linked, index, all);
      order := AddExtras(clicks, RowsFor(index, b), from, to, linked, order,
                         Extra(clicks, day, done, from, to, linked));
      rest := rest - {b};
      assert buckets - rest == done + {b};
    }
    assert buckets - rest == buckets;
  }

  // ---- one chunk ----

  function PairOf(log: Log): IpUa {
    if log.Conversion? then IpUa(log.entryIp.GetOr(""), log.entryUa.GetOr("")) else IpUa("", "")
  }

  /** The conversions of the day for any pair of the chunk. */
  function ChunkIds(conv: Raw, day: Day, chunk: seq<IpUa>): set<LogId> {
    set id | id in conv && conv[id].Conversion? && conv[id].entryIp.Some? && conv[id].entryUa.Some?
      && DayOf(conv[id].time) == day && PairOf(conv[id]) in chunk
  }

  ghost function Seen(conv: Raw, rows: seq<LogId>, p: IpUa): set<LogId> {
    set id | id in rows && id in conv && PairOf(conv[id]) == p
  }

  /** After some rows: one state per pair met, holding just that pair's rows. */
  ghost predicate Grouped(grouped: map<IpUa, State>, conv: Raw, rows: seq<LogId>) {
    && (forall p :: p in grouped <==> Seen(conv, rows, p) != {})
    && (forall p | p in grouped :: Gathers(grouped[p], conv, Seen(conv, rows, p)))
  }

  method GroupRows(conv: Raw, rows: seq<LogId>) returns (grouped: map<IpUa, State>)
    requires forall id | id in rows :: id in conv && conv[id].Conversion?
    ensures Grouped(grouped, conv, rows)
  {
    grouped := map[];
    for i := 0 to |rows|
      invariant Grouped(grouped, conv, rows[..i])
    {
      var id := rows[i];
      var p := PairOf(conv[id]);
      assert rows[..i + 1] == rows[..i] + [id];
      SeenStep(conv, rows[..i], id);
      if p in grouped {
        GatherStep(grouped[p], conv, Seen(conv, rows[..i], p), id);
        grouped := grouped[p := Gather(grouped[p], conv, id)];
      } else {
        GatherFirst(conv, id);
        assert Seen(conv, rows[..i], p) + {id} == {id};
        grouped := grouped[p := Gather(State({}, {}, {}, conv[id].time, conv[id].time), conv, id)];
      }
    }
    assert rows[..|rows|] == rows;
  }

  lemma SeenStep(conv: Raw, rows: seq<LogId>, id: LogId)
    requires id in conv
    ensures forall p ::
              Seen(conv, rows + [id], p) ==
                if PairOf(conv[id]) == p then Seen(conv, rows, p) + {id} else Seen(conv, rows, p)
  {
  }

  /** Every pair of the chunk with a conversion has its metrics, and no other pair does. */
  ghost predicate Complete(metrics: map<IpUa, Metrics>, conv: Raw, clicks: Raw, day: Day, window: nat,
                           pairs: set<IpUa>) {
    && (forall p :: p in metrics <==> p in pairs && ConversionIds(conv, day, p) != {})
    && (forall p | p in metrics :: IsMetrics(metrics[p], conv, clicks, day, window, p))
  }

  lemma SeenIsAll(conv: Raw, rows: seq<LogId>, day: Day, chunk: seq<IpUa>, p: IpUa)
    requires Lists(rows, ChunkIds(conv, day, chunk))
    ensures Seen(conv, rows, p) == if p in chunk then ConversionIds(conv, day, p) else {}
  {
    forall id ensures id in Seen(conv, rows, p) <==> p in chunk && id in ConversionIds(conv, day, p) {
      if p in chunk && id in ConversionIds(conv, day, p) {
        assert PairOf(conv[id]) == p && id in ChunkIds(conv, day, chunk);
        assert id in rows;
      }
    }
  }

  /** The metrics of one pair from its gathered state and the chunk's indexes. */
  method PairMetrics(conv: Raw, clicks: Raw, day: Day, window: nat, p: IpUa, st: State,
                     byAction: map<string, set<LogId>>,
                     byCid: map<string, set<LogId>>, byBucket: map<Bucket, seq<LogId>>, ghost all: set<LogId>)
    returns (m: Metrics)
    requires ConversionIds(conv, day, p) != {} && Gathers(st, conv, ConversionIds(conv, day, p))
             && ConversionIds(conv, day, p) <= all
    requires Indexes(byAction, Linked(clicks, all, CidsOf(conv, all)), clicks, ActionLogOf)
    requires Indexes(byCid, Linked(clicks, all, CidsOf(conv, all)), clicks, TrackCidOf)
    requires BucketIndex(byBucket, BucketClicks(clicks, day, BucketsOf(conv, all)), clicks)
    ensures IsMetrics(m, conv, clicks, day, window, p)
  {
    ghost var ids := ConversionIds(conv, day, p);
    assert st.first in Times(conv, ids);
    var linked := LinkedClicks(clicks, st, byAction, byCid, all, CidsOf(conv, all));
    var order := ExtraClicks(clicks, day, st.buckets, st.first - window, st.last + window, linked, byBucket,
                             BucketsOf(conv, all));
    assert Lists(order, ExtraOf(conv, clicks, day, window, p));
    ListLength(order, ExtraOf(conv, clicks, day, window, p));
    var uas := seq(|order|, i requires 0 <= i < |order| =>
      if order[i] in clicks && clicks[order[i]].Click? then clicks[order[i]].clickUa else "");
    forall i | 0 <= i < |order| ensures order[i] in clicks && clicks[order[i]].Click? {
      assert order[i] in order;
    }
    m := Metrics(|linked|, |order|, uas);
  }

  /** The indexes of one chunk, from its conversions. */
  method BuildIndexes(conv: Raw, clicks: Raw, day: Day, all: set<LogId>)
    returns (byAction: map<string, set<LogId>>, byCid: map<string, set<LogId>>, byBucket: map<Bucket, seq<LogId>>)
    ensures Indexes(byAction, Linked(clicks, all, CidsOf(conv, all)), clicks, ActionLogOf)
    ensures Indexes(byCid, Linked(clicks, all, CidsOf(conv, all)), clicks, TrackCidOf)
    ensures BucketIndex(byBucket, BucketClicks(clicks, day, BucketsOf(conv, all)), clicks)
  {
    var fetched := Linked(clicks, all, CidsOf(conv, all));
    var linkedRows := Fetch(fetched);
    byAction := IndexClicks(linkedRows, clicks, ActionLogOf);
    IndexOfFetched(byAction, linkedRows, fetched, clicks, ActionLogOf);
    byCid := IndexClicks(linkedRows, clicks, TrackCidOf);
    IndexOfFetched(byCid, linkedRows, fetched, clicks, TrackCidOf);
    var bucketRows := Fetch(BucketClicks(clicks, day, BucketsOf(conv, all)));
    byBucket := IndexBuckets(bucketRows, clicks);
  }

  lemma IndexOfFetched(index: map<string, set<LogId>>, rows: seq<LogId>, fetched: set<LogId>,
                       clicks: Raw, field: Log -> Option<string>)
    requires Lists(rows, fetched) && fetched <= clicks.Keys
    requires forall v | v != "" :: Lookup(index, v) == set c | c in rows && field(clicks[c]) == Some(v)
    ensures Indexes(index, fetched, clicks, field)
  {
    forall v | v != "" ensures Lookup(index, v) == set c | c in fetched && field(clicks[c]) == Some(v) {
      assert forall c :: c in rows <==> c in fetched;
    }
  }

  /** The states of a chunk's rows are the states of its pairs' conversions. */
  ghost predicate GroupedPairs(grouped: map<IpUa, State>, conv: Raw, day: Day, chunk: seq<IpUa>) {
    && (forall p :: p in grouped <==> p in chunk && ConversionIds(conv, day, p) != {})
    && (forall p | p in grouped :: Gathers(grouped[p], conv, ConversionIds(conv, day, p)))
  }

  lemma GroupedRowsArePairs(grouped: map<IpUa, State>, conv: Raw, day: Day, rows: seq<LogId>, chunk: seq<IpUa>)
    requires Lists(rows, ChunkIds(conv, day, chunk)) && Grouped(grouped, conv, rows)
    ensures GroupedPairs(grouped, conv, day, chunk)
    ensures forall p | p in grouped :: ConversionIds(conv, day, p) <= ChunkIds(conv, day, chunk)
  {
    forall p ensures p in grouped <==> p in chunk && ConversionIds(conv, day, p) != {} {
      SeenIsAll(conv, rows, day, chunk, p);
    }
    forall p | p in grouped
      ensures Gathers(grouped[p], conv, ConversionIds(conv, day, p))
              && ConversionIds(conv, day, p) <= ChunkIds(conv, day, chunk)
    {
      SeenIsAll(conv, rows, day, chunk, p);
    }
  }

  /** The metrics of every grouped pair, one after the other. */
  method MeasureAll(conv: Raw, clicks: Raw, day: Day, window: nat, grouped: map<IpUa, State>,
                    byAction: map<string, set<LogId>>,
                    byCid: map<string, set<LogId>>, byBucket: map<Bucket, seq<LogId>>, ghost all: set<LogId>)
    returns (metrics: map<IpUa, Metrics>)
    requires forall p | p in grouped :: Ready(conv, day, p, grouped[p], all)
    requires Indexes(byAction, Linked(clicks, all, CidsOf(conv, all)), clicks, ActionLogOf)
    requires Indexes(byCid, Linked(clicks, all, CidsOf(conv, all)), clicks, TrackCidOf)
    requires BucketIndex(byBucket, BucketClicks(clicks, day, BucketsOf(conv, all)), clicks)
    ensures metrics.Keys == grouped.Keys && forall p | p in metrics ::
              IsMetrics(metrics[p], conv, clicks, day, window, p)
  {
    metrics := map[];
    var rest := grouped.Keys;
    while rest != {}
      invariant rest <= grouped.Keys && metrics.Keys == grouped.Keys - rest
      invariant forall p | p in metrics :: IsMetrics(metrics[p], conv, clicks, day, window, p)
      decreases rest
    {
      var p :| p in rest;
      assert Ready(conv, day, p, grouped[p], all);
      var m := PairMetrics(conv, clicks, day, window, p, grouped[p], byAction, byCid, byBucket, all);
      metrics := metrics[p := m];
      rest := rest - {p};
    }
  }

  ghost predicate Ready(conv: Raw, day: Day, p: IpUa, st: State, all: set<LogId>) {
    var ids := ConversionIds(conv, day, p);
    ids != {} && Gathers(st, conv, ids) && ids <= all
  }

  method BuildMetrics(conv: Raw, clicks: Raw, day: Day, window: nat, rows: seq<LogId>, ghost chunk: seq<IpUa>)
    returns (metrics: map<IpUa, Metrics>)
    requires Lists(rows, ChunkIds(conv, day, chunk))
    ensures Complete(metrics, conv, clicks, day, window, Elems(chunk))
  {
    var grouped := GroupRows(conv, rows);
    var all := set id | id in rows;
    var byAction, byCid, byBucket := BuildIndexes(conv, clicks, day, all);
    GroupedRowsArePairs(grouped, conv, day, rows, chunk);
    assert all == ChunkIds(conv, day, chunk);
    metrics := MeasureAll(conv, clicks, day, window, grouped, byAction, byCid, byBucket, all);
    assert forall p :: p in metrics <==> p in grouped.Keys;
  }

  lemma CompleteUnion(a: map<IpUa, Metrics>, b: map<IpUa, Metrics>, conv: Raw, clicks: Raw,
                      day: Day, window: nat, s: set<IpUa>, t: set<IpUa>)
    requires Complete(a, conv, clicks, day, window, s) && Complete(b, conv, clicks, day, window, t)
    ensures Complete(a + b, conv, clicks, day, window, s + t)
  {
  }

  /**
   The metrics of all requested pairs are the per-pair definition, whatever the chunk size and the order of the pairs.
   */
  method FetchMetrics(conv: Raw, clicks: Raw, day: Day, window: nat, pairs: seq<IpUa>, chunkSize: nat)
    returns (metrics: map<IpUa, Metrics>)
    requires chunkSize > 0
    ensures Complete(metrics, conv, clicks, day, window, Elems(pairs))
  {
    metrics := map[];
    var index := 0;
    while index < |pairs|
      invariant index <= |pairs| && Complete(metrics, conv, clicks, day, window, Elems(pairs[..index]))
    {
      var end := if index + chunkSize < |pairs| then index + chunkSize else |pairs|;
      var chunk := pairs[index..end];
      var rows := Fetch(ChunkIds(conv, day, chunk));
      var built := BuildMetrics(conv, clicks, day, window, rows, chunk);
      CompleteUnion(metrics, built, conv, clicks, day, window, Elems(pairs[..index]), Elems(chunk));
      assert pairs[..end] == pairs[..index] + chunk;
      assert Elems(pairs[..end]) == Elems(pairs[..index]) + Elems(chunk);
      metrics := metrics + built;
      index := end;
    }
    assert pairs[..|pairs|] == pairs;
  }
}
