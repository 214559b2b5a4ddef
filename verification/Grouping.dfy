/** `aggregate_counts` and the stored rollup. */
module Grouping {
  import opened Events
  import opened Mongo
  import opened Pipeline
  import opened Mirror
  import opened Filters

  /** How many documents have key `k`. */
  function CountKey<K(==)>(docs: seq<Event>, key: Event -> K, k: K): nat {
    if docs == [] then 0
    else CountKey(docs[..|docs| - 1], key, k) + (if key(docs[|docs| - 1]) == k then 1 else 0)
  }

  /** How many documents have a key that satisfies `keep`. */
  function Selected<K>(docs: seq<Event>, key: Event -> K, keep: K -> bool): nat {
    if docs == [] then 0
    else Selected(docs[..|docs| - 1], key, keep) + (if keep(key(docs[|docs| - 1])) then 1 else 0)
  }

  /** `$group` by `key`, counting: one row per key that occurs. */
  function Group<K>(docs: seq<Event>, key: Event -> K): map<K, nat> {
    if docs == [] then map[]
    else
      var rows := Group(docs[..|docs| - 1], key);
      var k := key(docs[|docs| - 1]);
      rows[k := (if k in rows then rows[k] else 0) + 1]
  }

  /** The sum of the counts of the rows whose key satisfies `keep`. */
  ghost function SumRows<K>(rows: map<K, nat>, keep: K -> bool): nat
    decreases |rows|
  {
    if rows == map[] then 0
    else
      var k :| k in rows;
      (if keep(k) then rows[k] else 0) + SumRows(rows - {k}, keep)
  }

  lemma {:induction false} SumRowsAt<K>(rows: map<K, nat>, keep: K -> bool, j: K)
    requires j in rows
    ensures SumRows(rows, keep) == (if keep(j) then rows[j] else 0) + SumRows(rows - {j}, keep)
    decreases |rows|
  {
    var k :| k in rows && SumRows(rows, keep) == (if keep(k) then rows[k] else 0) + SumRows(rows - {k}, keep);
    if k != j {
      SumRowsAt(rows - {k}, keep, j);
      SumRowsAt(rows - {j}, keep, k);
      assert (rows - {k}) - {j} == (rows - {j}) - {k};
    }
  }

  lemma SumRowsUpdate<K>(rows: map<K, nat>, keep: K -> bool, j: K)
    ensures SumRows(rows[j := (if j in rows then rows[j] else 0) + 1], keep) == SumRows(rows, keep) + if keep(j) then 1 else 0
  {
    var rows' := rows[j := (if j in rows then rows[j] else 0) + 1];
    SumRowsAt(rows', keep, j);
    assert rows' - {j} == rows - {j};
    if j in rows {
      SumRowsAt(rows, keep, j);
    } else {
      assert rows - {j} == rows;
    }
  }

  /** Rows partition the documents: summing any selection of rows counts the documents it selects. */
  lemma {:induction false} RowsPartition<K>(docs: seq<Event>, key: Event -> K, keep: K -> bool)
    ensures SumRows(Group(docs, key), keep) == Selected(docs, key, keep)
  {
    if docs != [] {
      var n := |docs| - 1;
      RowsPartition(docs[..n], key, keep);
      SumRowsUpdate(Group(docs[..n], key), keep, key(docs[n]));
    }
  }

  /** A row exists exactly for the keys that occur, with their number of occurrences. */
  lemma {:induction false} RowCounts<K>(docs: seq<Event>, key: Event -> K, k: K)
    ensures (k in Group(docs, key) <==> CountKey(docs, key, k) > 0)
    ensures k in Group(docs, key) ==> Group(docs, key)[k] == CountKey(docs, key, k)
  {
    if docs != [] {
      RowCounts(docs[..|docs| - 1], key, k);
    }
  }

  function Any<K>(): K -> bool {
    (k: K) => true
  }

  lemma {:induction false} SelectedAny<K>(docs: seq<Event>, key: Event -> K)
    ensures Selected(docs, key, Any()) == |docs|
  {
    if docs != [] {
      SelectedAny(docs[..|docs| - 1], key);
    }
  }

  // ---------------------------------------------------------------------------
  // aggregate_counts
  // ---------------------------------------------------------------------------

  /** `$match` on the timestamp range, when there is one. */
  function InWindow(docs: seq<Event>, range: Option<Range>): seq<Event> {
    if docs == [] then []
    else
      var rest := InWindow(docs[..|docs| - 1], range);
      var e := docs[|docs| - 1];
      if range.Some? && !InRange(range.value, e.timestamp) then rest else rest + [e]
  }

  function ByType(): Event -> string {
    (e: Event) => e.eventType
  }

  /** Type and truncated timestamp; `trunc` is `$dateTrunc` for the requested unit. */
  function ByTypeAndBucket(trunc: int -> int): Event -> (string, int) {
    (e: Event) => (e.eventType, trunc(e.timestamp))
  }

  function CountsByType(docs: seq<Event>, range: Option<Range>): map<string, nat> {
    Group(InWindow(docs, range), ByType())
  }

  function CountsByBucket(docs: seq<Event>, range: Option<Range>, trunc: int -> int): map<(string, int), nat> {
    Group(InWindow(docs, range), ByTypeAndBucket(trunc))
  }

  function OfType(t: string): ((string, int)) -> bool {
    (k: (string, int)) => k.0 == t
  }

  /** For every truncation: summing a type's bucketed counts over its buckets gives its unbucketed count. */
  lemma BucketsAddUp(docs: seq<Event>, range: Option<Range>, trunc: int -> int, t: string)
    ensures SumRows(CountsByBucket(docs, range, trunc), OfType(t))
         == if t in CountsByType(docs, range) then CountsByType(docs, range)[t] else 0
  {
    var matched := InWindow(docs, range);
    RowsPartition(matched, ByTypeAndBucket(trunc), OfType(t));
    RowCounts(matched, ByType(), t);
    SelectedOfType(matched, trunc, t);
  }

  lemma {:induction false} SelectedOfType(docs: seq<Event>, trunc: int -> int, t: string)
    ensures Selected(docs, ByTypeAndBucket(trunc), OfType(t)) == CountKey(docs, ByType(), t)
  {
    if docs != [] {
      SelectedOfType(docs[..|docs| - 1], trunc, t);
    }
  }

  /** Both totals are the number of matching events. */
  lemma {:induction false} TotalsAgree(docs: seq<Event>, range: Option<Range>, trunc: int -> int)
    ensures SumRows(CountsByType(docs, range), Any()) == |InWindow(docs, range)|
    ensures SumRows(CountsByBucket(docs, range, trunc), Any()) == |InWindow(docs, range)|
  {
    var matched := InWindow(docs, range);
    RowsPartition(matched, ByType(), Any());
    RowsPartition(matched, ByTypeAndBucket(trunc), Any());
    SelectedAny(matched, ByType());
    SelectedAny(matched, ByTypeAndBucket(trunc));
  }

  /** The window keeps exactly the documents in range. */
  lemma {:induction false} WindowExact(docs: seq<Event>, range: Option<Range>, e: Event)
    ensures e in InWindow(docs, range) <==> e in docs && (range.Some? ==> InRange(range.value, e.timestamp))
  {
    if docs != [] {
      var n := |docs| - 1;
      WindowExact(docs[..n], range, e);
      assert docs == docs[..n] + [docs[n]];
    }
  }

  // ---------------------------------------------------------------------------
  // The rollup against the live collection
  // ---------------------------------------------------------------------------

  /** A scan of the collection: every stored event once, in some order. */
  ghost predicate IsScan(c: Collection, docs: seq<Event>) {
    && (forall i, j :: 0 <= i < j < |docs| ==> docs[i].id != docs[j].id)
    && (forall i :: 0 <= i < |docs| ==> docs[i].id in c && c[docs[i].id].event == docs[i])
    && Ids(docs) == c.Keys
  }

  /** Not before the lower bound and not after the upper one, where given. */
  predicate InSpan(range: Option<Range>, t: int) {
    range.Some? ==> (range.value.gte.Some? ==> range.value.gte.value <= t) && (range.value.lte.Some? ==> t <= range.value.lte.value)
  }

  function StoredInSpan(c: Collection, range: Option<Range>): set<EventId> {
    set id | id in c && InSpan(range, c[id].event.timestamp)
  }

  function StoredOfType(c: Collection, range: Option<Range>, t: string): set<EventId> {
    set id | id in c && c[id].event.eventType == t && InSpan(range, c[id].event.timestamp)
  }

  function StoredInBucket(c: Collection, range: Option<Range>, trunc: int -> int, t: string, b: int): set<EventId> {
    set id | id in c && c[id].event.eventType == t && trunc(c[id].event.timestamp) == b && InSpan(range, c[id].event.timestamp)
  }

  function StoredWith<K(==)>(c: Collection, range: Option<Range>, key: Event -> K, k: K): set<EventId> {
    set id | id in c && key(c[id].event) == k && InSpan(range, c[id].event.timestamp)
  }

  function IdsWith<K(==)>(docs: seq<Event>, key: Event -> K, k: K): set<EventId> {
    set e | e in docs && key(e) == k :: e.id
  }

  ghost predicate DistinctDocs(docs: seq<Event>) {
    forall i, j :: 0 <= i < j < |docs| ==> docs[i].id != docs[j].id
  }

  lemma {:induction false} CountIsCardinality<K>(docs: seq<Event>, key: Event -> K, k: K)
    requires DistinctDocs(docs)
    ensures CountKey(docs, key, k) == |IdsWith(docs, key, k)|
  {
    if docs != [] {
      var n := |docs| - 1;
      CountIsCardinality(docs[..n], key, k);
      LastWith(docs, key, k);
      hide IdsWith;
    }
  }

  lemma {:induction false} LastWith<K>(docs: seq<Event>, key: Event -> K, k: K)
    requires docs != [] && DistinctDocs(docs)
    ensures var n := |docs| - 1;
      && docs[n].id !in IdsWith(docs[..n], key, k)
      && IdsWith(docs, key, k) == IdsWith(docs[..n], key, k) + if key(docs[n]) == k then {docs[n].id} else {}
  {
    var n := |docs| - 1;
    assert docs == docs[..n] + [docs[n]];
  }

  lemma {:induction false} WindowDistinct(docs: seq<Event>, range: Option<Range>)
    requires DistinctDocs(docs)
    ensures DistinctDocs(InWindow(docs, range))
  {
    if docs != [] {
      var n := |docs| - 1;
      var rest := InWindow(docs[..n], range);
      WindowDistinct(docs[..n], range);
      forall i | 0 <= i < |rest| ensures rest[i].id != docs[n].id {
        WindowExact(docs[..n], range, rest[i]);
      }
    }
  }

  /** What a scan leaves after `$match`: the stored events in range, each once. */
  lemma {:induction false} ScanInWindow(c: Collection, docs: seq<Event>, range: Option<Range>, e: Event)
    requires IsScan(c, docs)
    ensures e in InWindow(docs, range) <==> e.id in c && c[e.id].event == e && InSpan(range, e.timestamp)
  {
    WindowExact(docs, range, e);
    if e.id in c {
      assert e.id in Ids(docs);
      var i :| 0 <= i < |docs| && docs[i].id == e.id;
    }
  }

  lemma {:induction false} StoredIsKeyed(c: Collection, docs: seq<Event>)
    requires IsScan(c, docs)
    ensures WellKeyed(c)
  {
    forall id | id in c ensures c[id].event.id == id {
      assert id in Ids(docs);
      var i :| 0 <= i < |docs| && docs[i].id == id;
    }
  }

  /** A row counts the stored events in range that have its key. */
  lemma {:induction false} RowIsStored<K>(c: Collection, docs: seq<Event>, range: Option<Range>, key: Event -> K, k: K)
    requires IsScan(c, docs)
    ensures var rows := Group(InWindow(docs, range), key);
      (if k in rows then rows[k] else 0)
        == |StoredWith(c, range, key, k)|
  {
    hide InSpan, InWindow, Group, CountKey;
    var matched := InWindow(docs, range);
    RowCounts(matched, key, k);
    WindowDistinct(docs, range);
    CountIsCardinality(matched, key, k);
    StoredIsKeyed(c, docs);
    var stored := StoredWith(c, range, key, k);
    forall id ensures id in IdsWith(matched, key, k) <==> id in stored {
      if id in stored {
        ScanInWindow(c, docs, range, c[id].event);
      }
      if id in IdsWith(matched, key, k) {
        var e :| e in matched && key(e) == k && e.id == id;
        ScanInWindow(c, docs, range, e);
      }
    }
    assert IdsWith(matched, key, k) == stored;
  }

  /** Whatever the scan order, the row for a type is the number of stored events of that type in range. */
  lemma {:induction false} AggregationCountsTheCollection(c: Collection, docs: seq<Event>, range: Option<Range>, t: string)
    requires IsScan(c, docs)
    ensures var rows := CountsByType(docs, range);
      (if t in rows then rows[t] else 0) == |StoredOfType(c, range, t)|
  {
    RowIsStored(c, docs, range, ByType(), t);
    assert StoredOfType(c, range, t) == StoredWith(c, range, ByType(), t);
  }

  /** And the row for a type and bucket is the number of those whose own timestamp truncates to the bucket. */
  lemma {:induction false} BucketsCountTheCollection(c: Collection, docs: seq<Event>, range: Option<Range>, trunc: int -> int, t: string, b: int)
    requires IsScan(c, docs)
    ensures var rows := CountsByBucket(docs, range, trunc);
      (if (t, b) in rows then rows[(t, b)] else 0) == |StoredInBucket(c, range, trunc, t, b)|
  {
    var key := ByTypeAndBucket(trunc);
    RowIsStored(c, docs, range, key, (t, b));
    assert StoredInBucket(c, range, trunc, t, b) == StoredWith(c, range, key, (t, b));
  }

  /** Both totals are the number of stored events in range. */
  lemma {:induction false} TotalsCountTheCollection(c: Collection, docs: seq<Event>, range: Option<Range>, trunc: int -> int)
    requires IsScan(c, docs)
    ensures SumRows(CountsByType(docs, range), Any()) == |StoredInSpan(c, range)|
    ensures SumRows(CountsByBucket(docs, range, trunc), Any()) == |StoredInSpan(c, range)|
  {
    hide InSpan, InWindow, CountsByType, CountsByBucket, SumRows;
    var matched := InWindow(docs, range);
    TotalsAgree(docs, range, trunc);
    WindowDistinct(docs, range);
    DistinctIds(matched);
    StoredIsKeyed(c, docs);
    forall id ensures id in Ids(matched) <==> id in StoredInSpan(c, range) {
      if id in StoredInSpan(c, range) {
        ScanInWindow(c, docs, range, c[id].event);
      }
      if id in Ids(matched) {
        var e :| e in matched && e.id == id;
        ScanInWindow(c, docs, range, e);
      }
    }
    assert Ids(matched) == StoredInSpan(c, range);
  }

  /**
   * A rollup computed at any point of any run is, for every type, at most the live count at every later
   * point: it is the aggregation of an earlier state of a collection that only grows.
   */
  lemma {:induction false} RollupNeverOvercounts(c: Config, s: State, steps: seq<Step>, s': State, docs: seq<Event>, docs': seq<Event>, t: string)
    requires MirrorInv(s) && Run(c, s, steps, s') && IsScan(s.events, docs) && IsScan(s'.events, docs')
    ensures var rollup, live := CountsByType(docs, None), CountsByType(docs', None);
      && (if t in rollup then rollup[t] else 0) <= (if t in live then live[t] else 0)
      && (t in rollup ==> t in live)
  {
    hide Run, MirrorInv, CountsByType, IsScan;
    MirrorSafety(c, s, steps, s');
    AggregationCountsTheCollection(s.events, docs, None, t);
    AggregationCountsTheCollection(s'.events, docs', None, t);
    RowsArePositive(docs, t);
    RowsArePositive(docs', t);
    assert StoredOfType(s.events, None, t) <= StoredOfType(s'.events, None, t);
    SubsetCount(StoredOfType(s.events, None, t), StoredOfType(s'.events, None, t));
  }

  lemma RowsArePositive(docs: seq<Event>, t: string)
    ensures t in CountsByType(docs, None) ==> CountsByType(docs, None)[t] > 0
  {
    RowCounts(InWindow(docs, None), ByType(), t);
  }
}
