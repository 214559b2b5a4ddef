/** The Mongo side of Acheron: idempotent inserts, the outbox marker and the dead-letter sink. */
module Mongo {
  import opened Events

  // ---------------------------------------------------------------------------
  // The `events` collection as a value
  // ---------------------------------------------------------------------------

  /** One insert: a repeated `_id` is skipped, a new document starts un-indexed. */
  function Insert(c: Collection, e: Event): Collection {
    if e.id in c then c else c[e.id := Stored(e, false)]
  }

  /** Inserting one by one, in order, skipping every `_id` already present. */
  function InsertAll(c: Collection, events: seq<Event>): Collection
    decreases |events|
  {
    if events == [] then c else InsertAll(Insert(c, events[0]), events[1..])
  }

  lemma {:induction false} InsertAllSpec(c: Collection, events: seq<Event>)
    ensures var r := InsertAll(c, events);
      && r.Keys == c.Keys + Ids(events)
      && (forall id :: id in c ==> r[id] == c[id])
      && (forall id :: id in r && id !in c ==> r[id].event in events && r[id].event.id == id && !r[id].esIndexed)
    decreases |events|
  {
    if events != [] {
      IdsFirst(events);
      hide Ids;
      InsertAllSpec(Insert(c, events[0]), events[1..]);
    }
  }

  /** The events whose id lies in `ids`, in order. */
  function Only(events: seq<Event>, ids: set<EventId>): seq<Event> {
    if events == [] then []
    else if events[0].id in ids then [events[0]] + Only(events[1..], ids)
    else Only(events[1..], ids)
  }

  lemma {:induction false} OnlySpec(events: seq<Event>, ids: set<EventId>)
    ensures forall e :: e in Only(events, ids) <==> e in events && e.id in ids
    ensures Ids(Only(events, ids)) == Ids(events) * ids
  {
    if events != [] {
      OnlySpec(events[1..], ids);
      assert events == [events[0]] + events[1..];
    }
  }

  /** An insert that reached the server for the given ids only. */
  function InsertOnly(c: Collection, events: seq<Event>, ids: set<EventId>): Collection {
    InsertAll(c, Only(events, ids))
  }

  /** `update_many({_id: {$in: ids}}, {es_indexed: True})`. */
  function Mark(c: Collection, ids: set<EventId>): Collection {
    map id | id in c :: if id in ids then c[id].(esIndexed := true) else c[id]
  }

  lemma NoMarks(c: Collection)
    ensures Mark(c, {}) == c
  {
  }

  /** The documents without their outbox marker. */
  function Contents(c: Collection): map<EventId, Event> {
    map id | id in c :: c[id].event
  }

  /** `after` extends `before`: nothing removed, nothing rewritten, no marker cleared. */
  ghost predicate Grows(before: Collection, after: Collection) {
    forall id :: id in before ==>
      id in after && after[id].event == before[id].event && (before[id].esIndexed ==> after[id].esIndexed)
  }

  ghost predicate WellKeyed(c: Collection) {
    forall id :: id in c ==> c[id].event.id == id
  }

  /** The documents still waiting in the outbox. */
  function Pending(c: Collection): set<EventId> {
    set id | id in c && !c[id].esIndexed
  }

  /**
   * A possible answer of `find({es_indexed: False}).sort(received_at).limit(limit)`: distinct
   * pending events, oldest first, cut off only when `limit` is reached. Ties come in any order.
   */
  ghost predicate IsFetch(c: Collection, limit: int, docs: seq<Event>) {
    && |docs| <= limit
    && (forall i :: 0 <= i < |docs| ==> docs[i].id in Pending(c) && c[docs[i].id].event == docs[i])
    && (forall i, j :: 0 <= i < j < |docs| ==> docs[i].id != docs[j].id && docs[i].receivedAt <= docs[j].receivedAt)
    && (forall id :: id in Pending(c) && id !in Ids(docs) ==>
          |docs| == limit && forall i :: 0 <= i < |docs| ==> docs[i].receivedAt <= c[id].event.receivedAt)
  }

  // ---------------------------------------------------------------------------
  // The `dead_letter` collection as a value
  // ---------------------------------------------------------------------------

  /** `insert_many(ordered=False)` of dead-letter records: a repeated `_id` is skipped. */
  function Persist(d: DeadLetters, entries: seq<Entry>): DeadLetters
    decreases |entries|
  {
    if entries == [] then d
    else Persist(if entries[0].event.id in d then d else d[entries[0].event.id := entries[0]], entries[1..])
  }

  lemma {:induction false} PersistSpec(d: DeadLetters, entries: seq<Entry>)
    ensures var r := Persist(d, entries);
      && r.Keys == d.Keys + EntryIds(entries)
      && (forall id :: id in d ==> r[id] == d[id])
      && (forall id :: id in r && id !in d ==> r[id] in entries && r[id].event.id == id)
    decreases |entries|
  {
    if entries != [] {
      var x := entries[0];
      assert entries == [x] + entries[1..];
      EntryIdsAppend([x], entries[1..]);
      assert EntryIds([x]) == {x.event.id};
      hide EntryIds;
      PersistSpec(if x.event.id in d then d else d[x.event.id := x], entries[1..]);
    }
  }

  /** Of several entries with one new id, the first is kept. */
  lemma {:induction false} FirstIsPersisted(d: DeadLetters, entries: seq<Entry>, k: nat)
    requires k < |entries| && entries[k].event.id !in d
    requires forall j :: 0 <= j < k ==> entries[j].event.id != entries[k].event.id
    ensures entries[k].event.id in Persist(d, entries) && Persist(d, entries)[entries[k].event.id] == entries[k]
    decreases |entries|
  {
    var d' := if entries[0].event.id in d then d else d[entries[0].event.id := entries[0]];
    if k == 0 {
      PersistSpec(d', entries[1..]);
    } else {
      FirstIsPersisted(d', entries[1..], k - 1);
    }
  }

  function OnlyEntries(entries: seq<Entry>, ids: set<EventId>): seq<Entry> {
    if entries == [] then []
    else if entries[0].event.id in ids then [entries[0]] + OnlyEntries(entries[1..], ids)
    else OnlyEntries(entries[1..], ids)
  }

  lemma {:induction false} OnlyEntriesSpec(entries: seq<Entry>, ids: set<EventId>)
    ensures forall x :: x in OnlyEntries(entries, ids) <==> x in entries && x.event.id in ids
    ensures EntryIds(OnlyEntries(entries, ids)) == EntryIds(entries) * ids
  {
    if entries != [] {
      OnlyEntriesSpec(entries[1..], ids);
      assert entries == [entries[0]] + entries[1..];
    }
  }

  /** A dead-letter insert that reached the server for the given ids only. */
  function PersistOnly(d: DeadLetters, entries: seq<Entry>, ids: set<EventId>): DeadLetters {
    Persist(d, OnlyEntries(entries, ids))
  }

  /** The records `push_many` makes for a batch. */
  function Entries(batch: seq<Event>, reason: string, now: int): seq<Entry> {
    seq(|batch|, i requires 0 <= i < |batch| => Entry(batch[i], reason, now))
  }

  lemma EntriesSpec(batch: seq<Event>, reason: string, now: int)
    ensures var r := Entries(batch, reason, now);
      && |r| == |batch|
      && (forall i :: 0 <= i < |r| ==> r[i].event == batch[i] && r[i].reason == reason && r[i].failedAt == now)
    ensures EntryIds(Entries(batch, reason, now)) == Ids(batch)
  {
    var r := Entries(batch, reason, now);
    forall id | id in Ids(batch) ensures id in EntryIds(r) {
      var i :| 0 <= i < |batch| && batch[i].id == id;
      assert r[i] in r;
    }
  }

  // ---------------------------------------------------------------------------
  // Within-batch deduplication
  // ---------------------------------------------------------------------------

  /** Position `i` holds the first event with its id. */
  predicate IsFirst(events: seq<Event>, i: nat)
    requires i < |events|
  {
    forall j :: 0 <= j < i ==> events[j].id != events[i].id
  }

  function FirstOccurrences(events: seq<Event>): seq<Event> {
    if events == [] then []
    else
      var n := |events| - 1;
      var before := FirstOccurrences(events[..n]);
      if events[n].id in Ids(before) then before else before + [events[n]]
  }

  lemma {:induction false} FirstOccurrencesIds(events: seq<Event>)
    ensures Ids(FirstOccurrences(events)) == Ids(events)
  {
    if events != [] {
      var n := |events| - 1;
      FirstOccurrencesIds(events[..n]);
      assert events == events[..n] + [events[n]];
      IdsAppend(events[..n], [events[n]]);
      IdsAppend(FirstOccurrences(events[..n]), [events[n]]);
    }
  }

  /** `kept` is what stands at the increasing positions `at`. */
  ghost predicate Picks(events: seq<Event>, kept: seq<Event>, at: seq<nat>) {
    && |at| == |kept|
    && (forall k :: 0 <= k < |at| ==> at[k] < |events| && kept[k] == events[at[k]])
    && (forall k, l :: 0 <= k < l < |at| ==> at[k] < at[l])
  }

  lemma PicksMore(events: seq<Event>, kept: seq<Event>, at: seq<nat>)
    requires events != [] && Picks(events[..|events| - 1], kept, at)
    ensures Picks(events, kept, at)
    ensures Picks(events, kept + [events[|events| - 1]], at + [|events| - 1])
  {
  }

  /** The result keeps exactly the first occurrences, in their original order. */
  lemma {:induction false} FirstOccurrencesSpec(events: seq<Event>) returns (at: seq<nat>)
    ensures Picks(events, FirstOccurrences(events), at)
    ensures forall i :: 0 <= i < |events| ==> (i in at <==> IsFirst(events, i))
  {
    if events == [] {
      at := [];
    } else {
      var n := |events| - 1;
      at := FirstOccurrencesSpec(events[..n]);
      assert n !in at;
      hide IsFirst, Ids, Picks;
      PicksMore(events, FirstOccurrences(events[..n]), at);
      FirstOccurrencesIds(events[..n]);
      LastIsFirst(events);
      forall i | 0 <= i < n ensures IsFirst(events, i) <==> IsFirst(events[..n], i) {
        EarlierFirst(events, i);
      }
      if events[n].id !in Ids(events[..n]) {
        at := at + [n];
      }
    }
  }

  /** No id is kept twice. */
  lemma {:induction false} FirstOccurrencesDistinct(events: seq<Event>)
    ensures var kept := FirstOccurrences(events);
      forall k, l :: 0 <= k < l < |kept| ==> kept[k].id != kept[l].id
  {
    hide FirstOccurrences;
    var kept := FirstOccurrences(events);
    var at := FirstOccurrencesSpec(events);
    forall k, l | 0 <= k < l < |kept| ensures kept[k].id != kept[l].id {
      assert at[l] in at && IsFirst(events, at[l]);
    }
  }

  lemma LastIsFirst(events: seq<Event>)
    requires events != []
    ensures var n := |events| - 1; IsFirst(events, n) <==> events[n].id !in Ids(events[..n])
  {
    var n := |events| - 1;
    IdsAt(events[..n]);
    assert forall j :: 0 <= j < n ==> events[..n][j] == events[j];
  }

  lemma EarlierFirst(events: seq<Event>, i: nat)
    requires i < |events| - 1
    ensures IsFirst(events, i) <==> IsFirst(events[..|events| - 1], i)
  {
    assert forall j :: 0 <= j <= i ==> events[..|events| - 1][j] == events[j];
  }

  lemma IdsAt(events: seq<Event>)
    ensures forall k :: 0 <= k < |events| ==> events[k].id in Ids(events)
  {
  }

  /** `_dedupe_by_id`: a seen-set and an output list, both grown in one pass. */
  method DedupeById(docs: seq<Event>) returns (unique: seq<Event>)
    ensures unique == FirstOccurrences(docs)
  {
    var seen: set<EventId> := {};
    unique := [];
    for i := 0 to |docs|
      invariant seen == Ids(unique)
      invariant unique == FirstOccurrences(docs[..i])
    {
      assert docs[..i + 1][..i] == docs[..i];
      if docs[i].id !in seen {
        IdsAppend(unique, [docs[i]]);
        seen := seen + {docs[i].id};
        unique := unique + [docs[i]];
      }
    }
    assert docs[..|docs|] == docs;
  }

  // ---------------------------------------------------------------------------
  // Retried writes refine one write
  // ---------------------------------------------------------------------------

  /** The event a fresh id ends up with: the first one in the batch that carries it. */
  function FirstWith(events: seq<Event>, id: EventId): Event
    requires id in Ids(events)
  {
    if events[0].id == id then events[0]
    else
      IdsFirst(events);
      FirstWith(events[1..], id)
  }

  /** What an insert leaves under an id: the document already there, else the batch's first event. */
  function Inserted(c: Collection, events: seq<Event>, id: EventId): Stored
    requires id in c.Keys + Ids(events)
  {
    if id in c then c[id] else Stored(FirstWith(events, id), false)
  }

  lemma {:induction false} InsertedAt(c: Collection, events: seq<Event>, id: EventId)
    requires id in c.Keys + Ids(events)
    ensures id in InsertAll(c, events) && InsertAll(c, events)[id] == Inserted(c, events, id)
    decreases |events|
  {
    if events != [] {
      IdsFirst(events);
      InsertedAt(Insert(c, events[0]), events[1..], id);
    }
  }

  lemma {:induction false} FirstWithOnly(events: seq<Event>, ids: set<EventId>, id: EventId)
    requires id in Ids(events) && id in ids
    ensures id in Ids(Only(events, ids)) && FirstWith(Only(events, ids), id) == FirstWith(events, id)
  {
    OnlySpec(events, ids);
    if events[0].id != id {
      IdsFirst(events);
      FirstWithOnly(events[1..], ids, id);
      var rest := Only(events[1..], ids);
      if events[0].id in ids {
        assert ([events[0]] + rest)[1..] == rest;
      }
    }
  }

  lemma {:induction false} FirstWithAppend(a: seq<Event>, b: seq<Event>, id: EventId)
    requires id in Ids(a + b)
    ensures id in Ids(a) ==> FirstWith(a + b, id) == FirstWith(a, id)
    ensures id !in Ids(a) ==> id in Ids(b) && FirstWith(a + b, id) == FirstWith(b, id)
  {
    IdsAppend(a, b);
    if a == [] {
      assert a + b == b;
    } else {
      assert (a + b)[0] == a[0];
      IdsFirst(a);
      if a[0].id != id {
        assert (a + b)[1..] == a[1..] + b;
        IdsFirst(a + b);
        FirstWithAppend(a[1..], b, id);
      }
    }
  }

  lemma {:induction false} FirstWithDeduped(events: seq<Event>, id: EventId)
    requires id in Ids(events)
    ensures id in Ids(FirstOccurrences(events)) && FirstWith(FirstOccurrences(events), id) == FirstWith(events, id)
  {
    FirstOccurrencesIds(events);
    var n := |events| - 1;
    var shorter := events[..n];
    var before := FirstOccurrences(shorter);
    FirstOccurrencesIds(shorter);
    assert events == shorter + [events[n]];
    IdsAppend(shorter, [events[n]]);
    FirstWithAppend(shorter, [events[n]], id);
    if id in Ids(shorter) {
      FirstWithDeduped(shorter, id);
    }
    if events[n].id !in Ids(before) {
      IdsAppend(before, [events[n]]);
      FirstWithAppend(before, [events[n]], id);
    }
  }

  /** Inserts that leave the same document under every id leave the same collection. */
  lemma {:induction false} SameInserts(c: Collection, a: seq<Event>, d: Collection, b: seq<Event>)
    requires c.Keys + Ids(a) == d.Keys + Ids(b)
    requires forall id :: id in c.Keys + Ids(a) ==> Inserted(c, a, id) == Inserted(d, b, id)
    ensures InsertAll(c, a) == InsertAll(d, b)
  {
    InsertAllSpec(c, a);
    InsertAllSpec(d, b);
    var left, right := InsertAll(c, a), InsertAll(d, b);
    forall id | id in c.Keys + Ids(a) ensures left[id] == right[id] {
      InsertedAt(c, a, id);
      InsertedAt(d, b, id);
    }
  }

  /** Deduplicating first changes nothing about what an insert leaves behind. */
  lemma {:induction false} DedupeThenInsert(c: Collection, events: seq<Event>)
    ensures InsertAll(c, FirstOccurrences(events)) == InsertAll(c, events)
  {
    FirstOccurrencesIds(events);
    forall id | id in c.Keys + Ids(events)
      ensures Inserted(c, FirstOccurrences(events), id) == Inserted(c, events, id)
    {
      if id in Ids(events) {
        FirstWithDeduped(events, id);
      }
    }
    SameInserts(c, FirstOccurrences(events), c, events);
  }

  /** Nor does it when only some ids reach the server. */
  lemma {:induction false} DedupeThenInsertOnly(c: Collection, events: seq<Event>, ids: set<EventId>)
    ensures InsertOnly(c, FirstOccurrences(events), ids) == InsertOnly(c, events, ids)
  {
    var unique := FirstOccurrences(events);
    FirstOccurrencesIds(events);
    OnlySpec(unique, ids);
    OnlySpec(events, ids);
    forall id | id in c.Keys + Ids(Only(events, ids))
      ensures Inserted(c, Only(unique, ids), id) == Inserted(c, Only(events, ids), id)
    {
      if id in Ids(Only(events, ids)) {
        FirstWithDeduped(events, id);
        FirstWithOnly(unique, ids, id);
        FirstWithOnly(events, ids, id);
      }
    }
    SameInserts(c, Only(unique, ids), c, Only(events, ids));
  }

  /** What may happen to the collection before an attempt finally succeeds. */
  datatype StoreOp =
    | FailedAttempt(inserted: set<EventId>)   // the write raised after these ids of the batch went in
    | MarkIndexed(ids: set<EventId>)          // the outbox indexer flipped these markers
    | Foreign(others: seq<Event>)             // another writer inserted other events

  function Perform(c: Collection, batch: seq<Event>, ops: seq<StoreOp>): Collection
    decreases |ops|
  {
    if ops == [] then c
    else
      var c' := match ops[0]
        case FailedAttempt(inserted) => InsertOnly(c, FirstOccurrences(batch), inserted)
        case MarkIndexed(ids) => Mark(c, ids)
        case Foreign(others) => InsertAll(c, others);
      Perform(c', batch, ops[1..])
  }

  /** Everything the other writers inserted, in order. */
  function Others(ops: seq<StoreOp>): seq<Event> {
    if ops == [] then []
    else if ops[0].Foreign? then ops[0].others + Others(ops[1..])
    else Others(ops[1..])
  }

  lemma {:induction false} InsertAllAppend(c: Collection, a: seq<Event>, b: seq<Event>)
    ensures InsertAll(c, a + b) == InsertAll(InsertAll(c, a), b)
    decreases |a|
  {
    if a == [] {
      assert a + b == b;
    } else {
      assert (a + b)[1..] == a[1..] + b;
      InsertAllAppend(Insert(c, a[0]), a[1..], b);
    }
  }

  /** Two collections that hold the same events hold the same events after the same insert. */
  lemma {:induction false} ContentsOfInsert(c: Collection, d: Collection, events: seq<Event>)
    requires Contents(c) == Contents(d)
    ensures Contents(InsertAll(c, events)) == Contents(InsertAll(d, events))
  {
    InsertAllSpec(c, events);
    InsertAllSpec(d, events);
    assert c.Keys == Contents(c).Keys == Contents(d).Keys == d.Keys;
    forall id | id in InsertAll(c, events)
      ensures InsertAll(c, events)[id].event == InsertAll(d, events)[id].event
    {
      InsertedAt(c, events, id);
      InsertedAt(d, events, id);
      if id in c {
        assert Contents(c)[id] == Contents(d)[id];
      }
    }
  }

  /** A partial attempt, then later the whole batch: same as the whole batch alone. */
  lemma {:induction false} PartialThenWhole(c: Collection, batch: seq<Event>, ids: set<EventId>)
    ensures InsertAll(InsertOnly(c, batch, ids), batch) == InsertAll(c, batch)
  {
    var partial := InsertAll(c, Only(batch, ids));
    InsertAllSpec(c, Only(batch, ids));
    OnlySpec(batch, ids);
    forall id | id in partial.Keys + Ids(batch)
      ensures Inserted(partial, batch, id) == Inserted(c, batch, id)
    {
      if id in partial {
        InsertedAt(c, Only(batch, ids), id);
        if id !in c {
          FirstWithOnly(batch, ids, id);
        }
      }
    }
    SameInserts(partial, batch, c, batch);
  }

  /** Inserts of disjoint ids commute. */
  lemma {:induction false} DisjointInsertsCommute(c: Collection, a: seq<Event>, b: seq<Event>)
    requires Ids(a) !! Ids(b)
    ensures InsertAll(InsertAll(c, a), b) == InsertAll(InsertAll(c, b), a)
  {
    var ca, cb := InsertAll(c, a), InsertAll(c, b);
    InsertAllSpec(c, a);
    InsertAllSpec(c, b);
    forall id | id in ca.Keys + Ids(b)
      ensures Inserted(ca, b, id) == Inserted(cb, a, id)
    {
      if id in Ids(a) {
        InsertedAt(c, a, id);
      }
      if id in Ids(b) {
        InsertedAt(c, b, id);
      }
    }
    SameInserts(ca, b, cb, a);
  }

  /**
   * Any mix of failed attempts that each inserted an arbitrary subset, marker flips and inserts of
   * other ids, followed by one attempt that succeeds, leaves the same events as the other inserts
   * followed by a single one-by-one insert of the batch.
   */
  lemma {:induction false} RetriesRefineOneWrite(c: Collection, batch: seq<Event>, ops: seq<StoreOp>)
    requires Ids(Others(ops)) !! Ids(batch)
    ensures Contents(InsertAll(Perform(c, batch, ops), FirstOccurrences(batch)))
         == Contents(InsertAll(InsertAll(c, Others(ops)), batch))
    decreases |ops|
  {
    if ops == [] {
      DedupeThenInsert(c, batch);
    } else {
      var rest := ops[1..];
      match ops[0]
      case FailedAttempt(inserted) =>
        var c' := InsertOnly(c, FirstOccurrences(batch), inserted);
        RetriesRefineOneWrite(c', batch, rest);
        DedupeThenInsertOnly(c, batch, inserted);
        DisjointInsertsCommute(c', Others(rest), batch);
        PartialThenWhole(c, batch, inserted);
        DisjointInsertsCommute(c, Others(rest), batch);
      case MarkIndexed(ids) =>
        var c' := Mark(c, ids);
        RetriesRefineOneWrite(c', batch, rest);
        assert Contents(c') == Contents(c);
        ContentsOfInsert(c', c, Others(rest));
        ContentsOfInsert(InsertAll(c', Others(rest)), InsertAll(c, Others(rest)), batch);
      case Foreign(others) =>
        IdsAppend(others, Others(rest));
        RetriesRefineOneWrite(InsertAll(c, others), batch, rest);
        InsertAllAppend(c, others, Others(rest));
    }
  }

  /** Without concurrent marker flips the collections agree outright, markers included. */
  lemma {:induction false} RetriesAloneRefineOneWrite(c: Collection, batch: seq<Event>, ops: seq<StoreOp>)
    requires forall i :: 0 <= i < |ops| ==> ops[i].FailedAttempt?
    ensures InsertAll(Perform(c, batch, ops), FirstOccurrences(batch)) == InsertAll(c, batch)
    decreases |ops|
  {
    if ops == [] {
      DedupeThenInsert(c, batch);
    } else {
      assert ops[0].FailedAttempt?;
      RetriesAloneRefineOneWrite(InsertOnly(c, FirstOccurrences(batch), ops[0].inserted), batch, ops[1..]);
      DedupeThenInsertOnly(c, batch, ops[0].inserted);
      PartialThenWhole(c, batch, ops[0].inserted);
    }
  }
}
