/** `MongoStore` as the rest of the program sees it: an object whose calls may fail part-way. */
module MongoClient {
  import opened Events
  import opened Mongo

  /** How a store call ends, as its caller sees it. */
  datatype CallResult = Returned | Raised(reason: string)

  /** What the environment does to a bulk insert. */
  datatype Fault =
    | NoFault
    | Swallowed(lost: set<EventId>)                         // a BulkWriteError: logged, not raised
    | Transport(inserted: set<EventId>, reason: string)     // any other error, after these ids went in

  function Reported(fault: Fault): CallResult {
    if fault.Transport? then Raised(fault.reason) else Returned
  }

  /** The `events` collection after one `bulk_write`. */
  function AfterWrite(c: Collection, batch: seq<Event>, fault: Fault): Collection {
    match fault
    case NoFault => InsertAll(c, batch)
    case Swallowed(lost) => InsertOnly(c, batch, Ids(batch) - lost)
    case Transport(inserted, _) => InsertOnly(c, batch, inserted)
  }

  /** The `dead_letter` collection after one `persist_dead_letters`. */
  function AfterPersist(d: DeadLetters, entries: seq<Entry>, fault: Fault): DeadLetters {
    match fault
    case NoFault => Persist(d, entries)
    case Swallowed(lost) => PersistOnly(d, entries, EntryIds(entries) - lost)
    case Transport(inserted, _) => PersistOnly(d, entries, inserted)
  }

  /** Every error the call swallows is a duplicate-key error: the id was already `present`. */
  predicate DuplicatesOnly(present: set<EventId>, ids: set<EventId>, fault: Fault) {
    fault.Swallowed? ==> ids * fault.lost <= present
  }

  /** "Returned normally means every id is present" holds exactly when every swallowed error is a duplicate. */
  lemma ReturnedMeansPresent(c: Collection, batch: seq<Event>, fault: Fault)
    requires Reported(fault).Returned?
    ensures Ids(batch) <= AfterWrite(c, batch, fault).Keys <==> DuplicatesOnly(c.Keys, Ids(batch), fault)
  {
    match fault
    case NoFault => InsertAllSpec(c, batch);
    case Swallowed(lost) =>
      OnlySpec(batch, Ids(batch) - lost);
      InsertAllSpec(c, Only(batch, Ids(batch) - lost));
      var after := AfterWrite(c, batch, fault);
      assert after.Keys == c.Keys + (Ids(batch) - lost);
  }

  class MongoStore {
    var events: Collection
    var deadLetters: DeadLetters

    constructor ()
      ensures events == map[] && deadLetters == map[]
    {
      events := map[];
      deadLetters := map[];
    }

    /** Idempotent batch insert: collapse repeated ids, then insert what is new. */
    method BulkWrite(batch: seq<Event>, fault: Fault) returns (r: CallResult)
      modifies this`events
      ensures events == AfterWrite(old(events), batch, fault)
      ensures r == if batch == [] then Returned else Reported(fault)
    {
      if batch == [] {
        return Returned;
      }
      var docs := DedupeById(batch);
      FirstOccurrencesIds(batch);
      match fault {
        case NoFault =>
          DedupeThenInsert(events, batch);
          events := InsertAll(events, docs);
        case Swallowed(lost) =>
          DedupeThenInsertOnly(events, batch, Ids(batch) - lost);
          events := InsertOnly(events, docs, Ids(docs) - lost);
        case Transport(inserted, _) =>
          DedupeThenInsertOnly(events, batch, inserted);
          events := InsertOnly(events, docs, inserted);
      }
      r := Reported(fault);
    }

    /** `update_many` over the given ids. */
    method MarkIndexed(ids: seq<EventId>, marked: set<EventId>, fails: bool) returns (r: CallResult)
      modifies this`events
      ensures events == Mark(old(events), if fails then (set id | id in ids) * marked else set id | id in ids)
      ensures r == if fails && ids != [] then Raised("update_many") else Returned
    {
      if ids == [] {
        NoMarks(events);
        return Returned;
      }
      var all := set id | id in ids;
      events := Mark(events, if fails then all * marked else all);
      r := if fails then Raised("update_many") else Returned;
    }

    method PersistDeadLetters(entries: seq<Entry>, fault: Fault) returns (r: CallResult)
      modifies this`deadLetters
      ensures deadLetters == AfterPersist(old(deadLetters), entries, fault)
      ensures r == if entries == [] then Returned else Reported(fault)
    {
      if entries == [] {
        return Returned;
      }
      deadLetters := AfterPersist(deadLetters, entries, fault);
      r := Reported(fault);
    }

    method GetDeadLetter(id: EventId) returns (r: Option<Entry>)
      ensures r == if id in deadLetters then Some(deadLetters[id]) else None
    {
      r := if id in deadLetters then Some(deadLetters[id]) else None;
    }

    /** `delete_one`; `fails` raises, possibly after the record is already gone. */
    method DeleteDeadLetter(id: EventId, fails: bool, gone: bool) returns (r: CallResult, deleted: bool)
      modifies this`deadLetters
      ensures deadLetters == if fails && !gone then old(deadLetters) else old(deadLetters) - {id}
      ensures r == if fails then Raised("delete_one") else Returned
      ensures deleted == (!fails && id in old(deadLetters))
    {
      deleted := !fails && id in deadLetters;
      if !fails || gone {
        deadLetters := deadLetters - {id};
      }
      r := if fails then Raised("delete_one") else Returned;
    }
  }

  // ---------------------------------------------------------------------------
  // The replay route
  // ---------------------------------------------------------------------------

  datatype ReplayStatus = Replayed | NotFound404 | Unavailable503

  /**
   * `replay_dead_letter`: read the record, rewrite its event, then delete the record. It succeeds exactly
   * when no call raises and the record exists; a delete that raises leaves the event stored, and the
   * record gone only if it took effect. Whatever fails, an id that was dead-lettered is still
   * dead-lettered or stored, and stored documents are untouched.
   */
  method ReplayDeadLetter(mongo: MongoStore, id: EventId, getFails: bool, write: Fault, deleteFails: bool, gone: bool)
    returns (status: ReplayStatus)
    requires forall k :: k in mongo.deadLetters ==> mongo.deadLetters[k].event.id == k
    modifies mongo
    ensures status.Replayed? <==> !getFails && id in old(mongo.deadLetters) && !write.Transport? && !deleteFails
    ensures status.NotFound404? <==> !getFails && id !in old(mongo.deadLetters)
    ensures getFails || id !in old(mongo.deadLetters) ==>
      mongo.events == old(mongo.events) && mongo.deadLetters == old(mongo.deadLetters)
    ensures !getFails && id in old(mongo.deadLetters) ==>
      && mongo.events == AfterWrite(old(mongo.events), [old(mongo.deadLetters)[id].event], write)
      && mongo.deadLetters == if !write.Transport? && (!deleteFails || gone) then old(mongo.deadLetters) - {id} else old(mongo.deadLetters)
    ensures !getFails && id in old(mongo.deadLetters) && !write.Transport? && DuplicatesOnly(old(mongo.events).Keys, {id}, write) ==>
      && id in mongo.events
      && mongo.events[id] == if id in old(mongo.events) then old(mongo.events)[id] else Stored(old(mongo.deadLetters)[id].event, false)
    ensures DuplicatesOnly(old(mongo.events).Keys, {id}, write) ==>
      old(mongo.events).Keys + old(mongo.deadLetters).Keys <= mongo.events.Keys + mongo.deadLetters.Keys
    ensures forall k :: k in old(mongo.events) ==> k in mongo.events && mongo.events[k] == old(mongo.events)[k]
    ensures forall k :: k in mongo.events && k !in old(mongo.events) ==> k == id
  {
    if getFails {
      return Unavailable503;
    }
    var record := mongo.GetDeadLetter(id);
    if record.None? {
      return NotFound404;
    }
    var event := record.value.event;
    ghost var before := mongo.events;
    var wrote := mongo.BulkWrite([event], write);
    SingleWrite(before, event, write);
    if wrote.Raised? {
      return Unavailable503;
    }
    var deleted, found := mongo.DeleteDeadLetter(id, deleteFails, gone);
    if deleted.Raised? {
      return Unavailable503;
    }
    status := Replayed;
  }

  lemma SingleWrite(c: Collection, e: Event, fault: Fault)
    ensures AfterWrite(c, [e], fault) == c || AfterWrite(c, [e], fault) == Insert(c, e)
    ensures !fault.Transport? && DuplicatesOnly(c.Keys, {e.id}, fault) ==> AfterWrite(c, [e], fault) == Insert(c, e)
  {
    assert [e][1..] == [];
    assert InsertAll(c, [e]) == Insert(c, e);
    assert forall ids :: Only([e], ids) == if e.id in ids then [e] else [];
    assert Ids([e]) == {e.id};
  }
}
