/** `ElasticsearchStore.bulk_index` and the outbox loop `EsIndexer`. */
module EsIndexers {
  import opened Events
  import opened Mongo
  import opened MongoClient
  import opened Elastic
  import Metadata
  import opened Arithmetic

  // ---------------------------------------------------------------------------
  // Bulk indexing
  // ---------------------------------------------------------------------------

  /** What the cluster does to a bulk request. */
  datatype BulkFault =
    | PerDocument(refused: set<EventId>)                    // these documents are refused, the call returns
    | Unreachable(indexed: set<EventId>, reason: string)    // the call raises after these were indexed

  datatype Action = Action(id: EventId, source: EsDoc)

  /** The actions whose id lies in `ids` take effect, in order. */
  function Upload(index: Index, actions: seq<Action>, ids: set<EventId>): Index
    decreases |actions|
  {
    if actions == [] then index
    else Upload(if actions[0].id in ids then index[actions[0].id := actions[0].source] else index, actions[1..], ids)
  }

  lemma {:induction false} UploadIsIndexing(index: Index, events: seq<Event>, actions: seq<Action>, ids: set<EventId>)
    requires |actions| == |events|
    requires forall i :: 0 <= i < |events| ==> actions[i] == Action(events[i].id, ToEs(events[i]))
    ensures Upload(index, actions, ids) == IndexOnly(index, events, ids)
    decreases |events|
  {
    if events != [] {
      var index' := if events[0].id in ids then index[events[0].id := ToEs(events[0])] else index;
      UploadIsIndexing(index', events[1..], actions[1..], ids);
    }
  }

  /** The ids a bulk request leaves indexed. */
  function Reached(events: seq<Event>, fault: BulkFault): set<EventId> {
    match fault
    case PerDocument(refused) => Ids(events) - refused
    case Unreachable(indexed, _) => indexed
  }

  /** Not refused when the call returns; among those indexed before it raises. */
  predicate GetsThrough(id: EventId, fault: BulkFault) {
    match fault
    case PerDocument(refused) => id !in refused
    case Unreachable(indexed, _) => id in indexed
  }

  /** What a bulk request leaves, document by document. */
  lemma {:induction false} IndexedAt(index: Index, events: seq<Event>, fault: BulkFault)
    ensures var r := IndexOnly(index, events, Reached(events, fault));
      && (forall k :: 0 <= k < |events| && GetsThrough(events[k].id, fault) && (forall j :: k < j < |events| ==> events[j].id != events[k].id) ==>
            events[k].id in r && Shows(r[events[k].id], events[k]))
      && (forall id :: id in index && (id !in Ids(events) || !GetsThrough(id, fault)) ==> id in r && r[id] == index[id])
      && (forall id :: id in r && id !in index ==> id in Ids(events) && GetsThrough(id, fault))
  {
    var ids := Reached(events, fault);
    var r := IndexOnly(index, events, ids);
    IndexOnlySpec(index, events, ids);
    forall k | 0 <= k < |events| && GetsThrough(events[k].id, fault) && (forall j :: k < j < |events| ==> events[j].id != events[k].id)
      ensures events[k].id in r && Shows(r[events[k].id], events[k])
    {
      LastWins(index, events, ids, k);
    }
  }

  class ElasticsearchStore {
    var index: Index

    constructor ()
      ensures index == map[]
    {
      index := map[];
    }

    /** A refused document is tolerated; only an unreachable cluster raises. */
    method BulkIndex(events: seq<Event>, fault: BulkFault) returns (r: CallResult)
      modifies this
      ensures index == IndexOnly(old(index), events, Reached(events, fault))
      ensures forall k :: 0 <= k < |events| && GetsThrough(events[k].id, fault) && (forall j :: k < j < |events| ==> events[j].id != events[k].id) ==>
        events[k].id in index && Shows(index[events[k].id], events[k])
      ensures forall id :: id in old(index) && (id !in Ids(events) || !GetsThrough(id, fault)) ==>
        id in index && index[id] == old(index)[id]
      ensures forall id :: id in index && id !in old(index) ==> id in Ids(events) && GetsThrough(id, fault)
      ensures r == if events != [] && fault.Unreachable? then Raised(fault.reason) else Returned
    {
      hide Shows, Metadata.Text, Metadata.Leaves;
      if events == [] {
        return Returned;
      }
      var actions: seq<Action> := [];
      for i := 0 to |events|
        invariant |actions| == i
        invariant forall k :: 0 <= k < i ==> actions[k] == Action(events[k].id, ToEs(events[k]))
        invariant index == old(index)
      {
        var text := Metadata.MetadataText(events[i].metadata);
        actions := actions + [Action(events[i].id, EsDoc(events[i], text))];
      }
      IndexedAt(index, events, fault);
      UploadIsIndexing(index, events, actions, Reached(events, fault));
      index := Upload(index, actions, Reached(events, fault));
      r := if fault.Unreachable? then Raised(fault.reason) else Returned;
    }
  }

  // ---------------------------------------------------------------------------
  // Fetching
  // ---------------------------------------------------------------------------

  lemma FetchedArePending(c: Collection, limit: nat, docs: seq<Event>)
    requires IsFetch(c, limit, docs)
    ensures Ids(docs) <= Pending(c) && |Ids(docs)| == |docs|
    ensures |docs| < limit ==> Ids(docs) == Pending(c)
  {
    DistinctIds(docs);
    assert Ids(docs) <= Pending(c);
    if |docs| < limit {
      forall id | id in Pending(c) ensures id in Ids(docs) {
      }
    }
  }

  /** A fetch takes as many pending events as it may, and marking them takes them out. */
  lemma FetchSize(c: Collection, limit: nat, docs: seq<Event>)
    requires IsFetch(c, limit, docs)
    ensures Ids(docs) <= Pending(c)
    ensures |docs| == if |Pending(c)| < limit then |Pending(c)| else limit
    ensures |Pending(Mark(c, Ids(docs)))| == |Pending(c)| - |docs|
  {
    assert |docs| <= limit;
    FetchedArePending(c, limit, docs);
    MarkPending(c, Ids(docs));
    hide *;
    assert Pending(c) == Ids(docs) + (Pending(c) - Ids(docs));
    assert |Pending(c)| == |Ids(docs)| + |Pending(c) - Ids(docs)|;
  }

  lemma MarkPending(c: Collection, ids: set<EventId>)
    ensures Pending(Mark(c, ids)) == Pending(c) - ids
    ensures Contents(Mark(c, ids)) == Contents(c)
    ensures WellKeyed(c) ==> WellKeyed(Mark(c, ids))
  {
  }

  /** The oldest of a non-empty set of documents. */
  lemma {:induction false} OldestExists(c: Collection, ids: set<EventId>) returns (oldest: EventId)
    requires ids != {} && ids <= c.Keys
    ensures oldest in ids && forall id :: id in ids ==> c[oldest].event.receivedAt <= c[id].event.receivedAt
    decreases ids
  {
    var some :| some in ids;
    if ids == {some} {
      oldest := some;
    } else {
      assert ids - {some} != {};
      var other := OldestExists(c, ids - {some});
      oldest := if c[some].event.receivedAt <= c[other].event.receivedAt then some else other;
    }
  }

  /** Whatever the collection, some answer to the outbox query exists. */
  lemma {:induction false} SomeFetch(c: Collection, limit: nat) returns (docs: seq<Event>)
    requires WellKeyed(c)
    ensures IsFetch(c, limit, docs)
  {
    if limit == 0 || Pending(c) == {} {
      docs := [];
    } else {
      var oldest := OldestExists(c, Pending(c));
      var c' := Mark(c, {oldest});
      MarkPending(c, {oldest});
      var rest := SomeFetch(c', limit - 1);
      docs := [c[oldest].event] + rest;
      OldestFirst(c, c', limit, oldest, rest);
    }
  }

  lemma OldestFirst(c: Collection, c': Collection, limit: nat, oldest: EventId, rest: seq<Event>)
    requires WellKeyed(c) && oldest in Pending(c) && limit > 0
    requires forall id :: id in Pending(c) ==> c[oldest].event.receivedAt <= c[id].event.receivedAt
    requires c' == Mark(c, {oldest}) && Pending(c') == Pending(c) - {oldest} && IsFetch(c', limit - 1, rest)
    ensures IsFetch(c, limit, [c[oldest].event] + rest)
  {
    hide Mark;
    MarkKeepsEvents(c, {oldest});
    var docs := [c[oldest].event] + rest;
    OldestFirstOrder(c, c', limit, oldest, rest);
    OldestFirstCut(c, c', limit, oldest, rest);
  }

  lemma OldestFirstOrder(c: Collection, c': Collection, limit: nat, oldest: EventId, rest: seq<Event>)
    requires WellKeyed(c) && oldest in Pending(c) && limit > 0
    requires forall id :: id in Pending(c) ==> c[oldest].event.receivedAt <= c[id].event.receivedAt
    requires forall id :: id in c ==> id in c' && c'[id].event == c[id].event
    requires Pending(c') == Pending(c) - {oldest} && IsFetch(c', limit - 1, rest)
    ensures var docs := [c[oldest].event] + rest;
      && (forall i :: 0 <= i < |docs| ==> docs[i].id in Pending(c) && c[docs[i].id].event == docs[i])
      && (forall i, j :: 0 <= i < j < |docs| ==> docs[i].id != docs[j].id && docs[i].receivedAt <= docs[j].receivedAt)
  {
    var docs := [c[oldest].event] + rest;
    forall i | 0 < i < |docs| ensures docs[i] == rest[i - 1] && docs[i].id in Pending(c) - {oldest} {
      assert rest[i - 1].id in Pending(c');
    }
  }

  lemma OldestFirstCut(c: Collection, c': Collection, limit: nat, oldest: EventId, rest: seq<Event>)
    requires WellKeyed(c) && oldest in Pending(c) && limit > 0
    requires forall id :: id in Pending(c) ==> c[oldest].event.receivedAt <= c[id].event.receivedAt
    requires forall id :: id in c ==> id in c' && c'[id].event == c[id].event
    requires Pending(c') == Pending(c) - {oldest} && IsFetch(c', limit - 1, rest)
    ensures var docs := [c[oldest].event] + rest;
      forall id :: id in Pending(c) && id !in Ids(docs) ==>
        |docs| == limit && forall i :: 0 <= i < |docs| ==> docs[i].receivedAt <= c[id].event.receivedAt
  {
    var docs := [c[oldest].event] + rest;
    assert docs[1..] == rest;
    IdsFirst(docs);
    forall id | id in Pending(c) && id !in Ids(docs)
      ensures |docs| == limit && forall i :: 0 <= i < |docs| ==> docs[i].receivedAt <= c[id].event.receivedAt
    {
      assert id in Pending(c') && id !in Ids(rest);
      forall i | 0 <= i < |docs| ensures docs[i].receivedAt <= c[id].event.receivedAt {
        if i > 0 {
          assert docs[i] == rest[i - 1];
        }
      }
    }
  }

  lemma MarkKeepsEvents(c: Collection, ids: set<EventId>)
    ensures forall id :: id in c ==> id in Mark(c, ids) && Mark(c, ids)[id].event == c[id].event
  {
  }

  // ---------------------------------------------------------------------------
  // The loop
  // ---------------------------------------------------------------------------

  /** The documents under `ids` show the stored events, and the index is otherwise as it was. */
  ghost predicate OnlyMirrored(before: Index, after: Index, c: Collection, ids: set<EventId>) {
    && after.Keys == before.Keys + ids
    && (forall id :: id in ids ==> id in c && Shows(after[id], c[id].event))
    && (forall id :: id in before && id !in ids ==> after[id] == before[id])
  }

  lemma {:induction false} NothingMirrored(index: Index, c: Collection)
    ensures OnlyMirrored(index, index, c, {})
  {
  }

  lemma {:induction false} PassMirrors(index: Index, c: Collection, limit: int, docs: seq<Event>)
    requires IsFetch(c, limit, docs)
    ensures OnlyMirrored(index, IndexOnly(index, docs, Ids(docs) - {}), Mark(c, Ids(docs)), Ids(docs))
  {
    hide IndexOnly, Mark;
    MarkKeepsEvents(c, Ids(docs));
    IndexedAt(index, docs, PerDocument({}));
    IndexOnlySpec(index, docs, Ids(docs) - {});
    forall id | id in Ids(docs)
      ensures id in c && Shows(IndexOnly(index, docs, Ids(docs) - {})[id], c[id].event)
    {
      var k :| 0 <= k < |docs| && docs[k].id == id;
    }
  }

  lemma {:induction false} MirrorMore(a: Index, b: Index, d: Index, c: Collection, c': Collection, ids: set<EventId>, more: set<EventId>)
    requires OnlyMirrored(a, b, c, ids) && OnlyMirrored(b, d, c', more) && Contents(c) == Contents(c')
    ensures OnlyMirrored(a, d, c', ids + more)
  {
    hide Shows;
    assert c.Keys == Contents(c).Keys == Contents(c').Keys == c'.Keys;
    forall id | id in c ensures c[id].event == c'[id].event {
      assert Contents(c)[id] == Contents(c')[id];
    }
  }

  datatype PassResult = Done(more: bool) | Failed(reason: string)

  class EsIndexer {
    const mongo: MongoStore
    const es: ElasticsearchStore
    const batchSize: int
    var eventsIndexed: nat
    var indexFailures: nat

    constructor (mongo: MongoStore, es: ElasticsearchStore, batchSize: int)
      ensures this.mongo == mongo && this.es == es && this.batchSize == batchSize
      ensures eventsIndexed == 0 && indexFailures == 0
    {
      this.mongo, this.es, this.batchSize := mongo, es, batchSize;
      eventsIndexed, indexFailures := 0, 0;
    }

    /**
     * `_index_pending`: index a fetched batch, then mark it, in that order. `fetched` is the answer to
     * the outbox query, or None when it raised. Nothing is marked unless the bulk call returned; a
     * refused document is marked like the others.
     */
    method IndexPending(fetched: Option<seq<Event>>, bulk: BulkFault, markFails: bool, marked: set<EventId>)
      returns (r: PassResult)
      requires fetched.Some? ==> IsFetch(mongo.events, batchSize, fetched.value)
      modifies this`eventsIndexed, mongo`events, es
      ensures fetched.None? ==> r.Failed?
      ensures fetched == Some([]) ==> r == Done(false)
      ensures fetched.None? || fetched.value == [] ==> mongo.events == old(mongo.events) && es.index == old(es.index)
      ensures fetched.Some? ==> es.index == IndexOnly(old(es.index), fetched.value, Reached(fetched.value, bulk))
      ensures fetched.Some? && fetched.value != [] && bulk.Unreachable? ==> r.Failed? && mongo.events == old(mongo.events)
      ensures fetched.Some? && fetched.value != [] && !bulk.Unreachable? ==>
        && mongo.events == Mark(old(mongo.events), if markFails then Ids(fetched.value) * marked else Ids(fetched.value))
        && (r.Failed? <==> markFails)
        && (!markFails ==> r == Done(|fetched.value| == batchSize))
      ensures eventsIndexed == old(eventsIndexed) + if r.Done? then |fetched.value| else 0
    {
      if fetched.None? {
        return Failed("find");
      }
      var docs := fetched.value;
      if docs == [] {
        return Done(false);
      }
      var indexed := es.BulkIndex(docs, bulk);
      if indexed.Raised? {
        return Failed(indexed.reason);
      }
      var ids := seq(|docs|, i requires 0 <= i < |docs| => docs[i].id);
      assert (set id | id in ids) == Ids(docs) by {
        forall id | id in Ids(docs) ensures id in ids {
          var i :| 0 <= i < |docs| && docs[i].id == id;
          assert ids[i] == id;
        }
      }
      var wrote := mongo.MarkIndexed(ids, marked, markFails);
      if wrote.Raised? {
        return Failed(wrote.reason);
      }
      eventsIndexed := eventsIndexed + |docs|;
      r := Done(|docs| == batchSize);
    }

    /** One turn of `_run`: a failed pass is counted and retried later, with nothing more to do now. */
    method RunOnce(fetched: Option<seq<Event>>, bulk: BulkFault, markFails: bool, marked: set<EventId>) returns (more: bool)
      requires fetched.Some? ==> IsFetch(mongo.events, batchSize, fetched.value)
      modifies this, mongo`events, es
      ensures Grows(old(mongo.events), mongo.events)
      ensures indexFailures == old(indexFailures) +
        if fetched.None? || (fetched.value != [] && (bulk.Unreachable? || markFails)) then 1 else 0
      ensures es.index == if fetched.None? then old(es.index) else IndexOnly(old(es.index), fetched.value, Reached(fetched.value, bulk))
      ensures mongo.events ==
        if fetched.None? || fetched.value == [] || bulk.Unreachable? then old(mongo.events)
        else Mark(old(mongo.events), if markFails then Ids(fetched.value) * marked else Ids(fetched.value))
      ensures eventsIndexed == old(eventsIndexed) +
        if fetched.None? || (fetched.value != [] && (bulk.Unreachable? || markFails)) then 0 else |fetched.value|
      ensures more <==> fetched.Some? && fetched.value != [] && |fetched.value| == batchSize && !bulk.Unreachable? && !markFails
      ensures more ==> Ids(fetched.value) !! Pending(mongo.events)
    {
      var r := IndexPending(fetched, bulk, markFails, marked);
      if r.Failed? {
        indexFailures := indexFailures + 1;
        more := false;
      } else {
        more := r.more;
      }
    }

    /** A pass in which nothing fails takes the oldest `batch_size` pending events out of the outbox. */
    method PassWithoutFaults(docs: seq<Event>) returns (more: bool)
      requires batchSize >= 1 && WellKeyed(mongo.events) && IsFetch(mongo.events, batchSize, docs)
      modifies this`eventsIndexed, mongo`events, es
      ensures var m := |Pending(old(mongo.events))|;
        && more == (m >= batchSize)
        && |Pending(mongo.events)| == (if m < batchSize then 0 else m - batchSize)
        && eventsIndexed == old(eventsIndexed) + (if m < batchSize then m else batchSize)
      ensures WellKeyed(mongo.events) && Contents(mongo.events) == old(Contents(mongo.events))
      ensures Pending(mongo.events) <= Pending(old(mongo.events))
      ensures OnlyMirrored(old(es.index), es.index, mongo.events, Pending(old(mongo.events)) - Pending(mongo.events))
    {
      hide Mark, Pending, Contents, Ids, IsFetch, WellKeyed, IndexOnly, OnlyMirrored;
      FetchSize(mongo.events, batchSize, docs);
      MarkPending(mongo.events, Ids(docs));
      PassMirrors(es.index, mongo.events, batchSize, docs);
      NoMarks(mongo.events);
      assert Pending(mongo.events) - (Pending(mongo.events) - Ids(docs)) == Ids(docs);
      NoIds();
      assert Reached(docs, PerDocument({})) == Ids(docs) - {};
      var r := IndexPending(Some(docs), PerDocument({}), false, {});
      more := r.more;
    }

    /**
     * The backlog loop of `_run` when nothing fails and nothing new is stored: with `n` pending events
     * it makes exactly `n / batch_size + 1` passes, the last being the first that reports no more, and
     * leaves every one of them marked and indexed.
     */
    method CatchUp(fetch: Collection -> seq<Event>) returns (passes: nat)
      requires batchSize >= 1 && WellKeyed(mongo.events)
      requires forall c :: WellKeyed(c) ==> IsFetch(c, batchSize, fetch(c))
      modifies this, mongo`events, es
      ensures passes == |Pending(old(mongo.events))| / batchSize + 1
      ensures Pending(mongo.events) == {} && Contents(mongo.events) == old(Contents(mongo.events))
      ensures eventsIndexed == old(eventsIndexed) + |Pending(old(mongo.events))|
      ensures OnlyMirrored(old(es.index), es.index, mongo.events, Pending(old(mongo.events)))
    {
      hide Mark, Pending, Contents, Ids, IsFetch, WellKeyed, IndexOnly, OnlyMirrored, Splits;
      ghost var all := Pending(mongo.events);
      ghost var covered, indexed := 0, {};
      NothingMirrored(es.index, mongo.events);
      SplitsEnds(all, {}, all);
      passes := 0;
      var more := true;
      while more
        invariant covered == batchSize * passes
        invariant more ==> |Pending(mongo.events)| == |all| - covered
        invariant !more ==> |Pending(mongo.events)| == 0 && passes >= 1 && covered - batchSize <= |all| < covered
        invariant WellKeyed(mongo.events) && Contents(mongo.events) == old(Contents(mongo.events))
        invariant Splits(all, indexed, Pending(mongo.events))
        invariant eventsIndexed == old(eventsIndexed) + |all| - |Pending(mongo.events)|
        invariant OnlyMirrored(old(es.index), es.index, mongo.events, indexed)
        decreases |Pending(mongo.events)|, more
      {
        ghost var events, index := mongo.events, es.index;
        more := PassWithoutFaults(fetch(mongo.events));
        ghost var taken := Pending(events) - Pending(mongo.events);
        MirrorMore(old(es.index), index, es.index, events, mongo.events, indexed, taken);
        Onward(all, indexed, Pending(events), Pending(mongo.events));
        indexed := indexed + taken;
        Spread(batchSize, passes);
        covered := covered + batchSize;
        passes := passes + 1;
      }
      SplitsEnds(all, indexed, Pending(mongo.events));
      Spread(batchSize, passes - 1);
      Quotient(|all|, batchSize, passes - 1);
    }
  }

  ghost predicate Splits(all: set<EventId>, done: set<EventId>, left: set<EventId>) {
    all == done + left
  }

  lemma {:induction false} Onward(all: set<EventId>, done: set<EventId>, before: set<EventId>, after: set<EventId>)
    requires Splits(all, done, before) && after <= before
    ensures Splits(all, done + (before - after), after)
  {
  }

  lemma {:induction false} SplitsEnds(all: set<EventId>, done: set<EventId>, left: set<EventId>)
    ensures Splits(all, {}, all)
    ensures Splits(all, done, left) && |left| == 0 ==> done == all && left == {}
  {
  }
}
