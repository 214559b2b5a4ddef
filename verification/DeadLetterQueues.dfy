/** `DeadLetterQueue`: record, then flush the buffer together with the new entries. */
module DeadLetterQueues {
  import opened Events
  import opened Mongo
  import opened MongoClient

  class DeadLetterQueue {
    const sink: MongoStore?
    var unpersisted: seq<Entry>
    var recorded: nat

    constructor (sink: MongoStore?)
      ensures this.sink == sink && unpersisted == [] && recorded == 0
    {
      this.sink := sink;
      unpersisted := [];
      recorded := 0;
    }

    ghost function Sunk(): set<EventId>
      reads this, sink
    {
      if sink == null then {} else sink.deadLetters.Keys
    }

    /**
     * One push with nothing interleaved. On success the buffer is empty and everything pending is in
     * the sink; on failure everything pending is in the buffer. Either way no entry is dropped.
     */
    method PushMany(events: seq<Event>, reason: string, now: int, fault: Fault)
      modifies this, sink
      ensures recorded == old(recorded) + |events|
      ensures sink != null ==> sink.events == old(sink.events)
      ensures events == [] ==> unpersisted == old(unpersisted) && (sink != null ==> sink.deadLetters == old(sink.deadLetters))
      ensures events != [] ==>
        var pending := old(unpersisted) + Entries(events, reason, now);
        if sink == null then unpersisted == pending
        else && sink.deadLetters == AfterPersist(old(sink.deadLetters), pending, fault)
             && unpersisted == if Reported(fault).Returned? then [] else pending
      ensures DuplicatesOnly(old(Sunk()), old(EntryIds(unpersisted)) + Ids(events), fault) ==>
        old(Sunk() + EntryIds(unpersisted)) + Ids(events) <= Sunk() + EntryIds(unpersisted)
    {
      if events == [] {
        NoIds();
        return;
      }
      var entries := Entries(events, reason, now);
      recorded := recorded + |entries|;
      var pending := unpersisted + entries;
      EntriesSpec(events, reason, now);
      EntryIdsAppend(unpersisted, entries);
      if sink == null {
        unpersisted := pending;
        return;
      }
      ghost var before := sink.deadLetters;
      var r := sink.PersistDeadLetters(pending, fault);
      PersistCovers(before, pending, fault);
      if r.Returned? {
        unpersisted := [];
      } else {
        unpersisted := pending;
      }
    }
  }

  lemma PersistCovers(d: DeadLetters, entries: seq<Entry>, fault: Fault)
    ensures d.Keys <= AfterPersist(d, entries, fault).Keys
    ensures !fault.Transport? && DuplicatesOnly(d.Keys, EntryIds(entries), fault) ==>
      EntryIds(entries) <= AfterPersist(d, entries, fault).Keys
  {
    match fault
    case NoFault => PersistSpec(d, entries);
    case Swallowed(lost) =>
      OnlyEntriesSpec(entries, EntryIds(entries) - lost);
      PersistSpec(d, OnlyEntries(entries, EntryIds(entries) - lost));
    case Transport(inserted, _) => PersistSpec(d, OnlyEntries(entries, inserted));
  }
}
