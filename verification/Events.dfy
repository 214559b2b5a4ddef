/** The values that flow through Acheron: events, stored documents and dead-letter entries. */
module Events {

  datatype Option<+T> = None | Some(value: T)

  /** `event_id`, which is also the `_id` of the Mongo document and of the ES document. */
  type EventId = string

  /** Event metadata. A scalar carries the text `str(value)` gives for it. */
  datatype Json =
    | Null
    | Scalar(text: string)
    | List(items: seq<Json>)
    | Dict(fields: seq<(string, Json)>)

  /** `EventDocument`: client fields plus the two fields the server assigns. */
  datatype Event = Event(
    id: EventId,
    receivedAt: int,
    eventType: string,
    timestamp: int,
    userId: string,
    sourceUrl: string,
    metadata: Json,
    schemaVersion: int)

  /** A document of the `events` collection: the event and its outbox marker. */
  datatype Stored = Stored(event: Event, esIndexed: bool)

  /** A dead-letter entry; the `dead_letter` collection stores it under the event's id. */
  datatype Entry = Entry(event: Event, reason: string, failedAt: int)

  type Collection = map<EventId, Stored>
  type DeadLetters = map<EventId, Entry>

  function Ids(events: seq<Event>): set<EventId> {
    set e | e in events :: e.id
  }

  function EntryIds(entries: seq<Entry>): set<EventId> {
    set x | x in entries :: x.event.id
  }

  lemma IdsAppend(a: seq<Event>, b: seq<Event>)
    ensures Ids(a + b) == Ids(a) + Ids(b)
  {
    forall id | id in Ids(a) + Ids(b) ensures id in Ids(a + b) {
      if id in Ids(a) {
        var e :| e in a && e.id == id;
        assert e in a + b;
      } else {
        var e :| e in b && e.id == id;
        assert e in a + b;
      }
    }
  }

  lemma IdsFirst(events: seq<Event>)
    requires events != []
    ensures Ids(events) == {events[0].id} + Ids(events[1..])
  {
    assert events == [events[0]] + events[1..];
    IdsAppend([events[0]], events[1..]);
  }

  lemma EntryIdsAppend(a: seq<Entry>, b: seq<Entry>)
    ensures EntryIds(a + b) == EntryIds(a) + EntryIds(b)
  {
    forall id | id in EntryIds(a) + EntryIds(b) ensures id in EntryIds(a + b) {
      if id in EntryIds(a) {
        var x :| x in a && x.event.id == id;
        assert x in a + b;
      } else {
        var x :| x in b && x.event.id == id;
        assert x in a + b;
      }
    }
  }

  lemma NoIds()
    ensures Ids([]) == {} && EntryIds([]) == {}
  {
  }

  lemma {:induction false} DistinctIds(docs: seq<Event>)
    requires forall i, j :: 0 <= i < j < |docs| ==> docs[i].id != docs[j].id
    ensures |Ids(docs)| == |docs|
  {
    if docs != [] {
      IdsFirst(docs);
      DistinctIds(docs[1..]);
      assert docs[0].id !in Ids(docs[1..]);
    }
  }

  lemma SubsetCount(a: set<EventId>, b: set<EventId>)
    requires a <= b
    ensures |a| <= |b|
    ensures |b - a| == |b| - |a|
  {
    assert b == a + (b - a);
  }
}
