/** The sequential methods of the consumer and of the indexer are runs of the step machine. */
module Refinement {
  import opened Events
  import opened Mongo
  import opened MongoClient
  import opened Elastic
  import opened EsIndexers
  import opened Consumer
  import opened Pipeline

  // ---------------------------------------------------------------------------
  // A consumer's write loop
  // ---------------------------------------------------------------------------

  /** The steps of worker `w` from attempt `i` on, up to the end of its write loop. */
  function LoopSteps(maxRetries: nat, w: nat, faults: nat -> Fault, now: int, i: nat): seq<Step>
    requires i <= maxRetries
    decreases maxRetries - i
  {
    match faults(i)
    case NoFault => [Work(w, WriteReturns({}))]
    case Swallowed(lost) => [Work(w, WriteReturns(lost))]
    case Transport(inserted, reason) =>
      [Work(w, WriteRaises(inserted, reason, now))] +
      if i == maxRetries then [] else [Work(w, WakeUp)] + LoopSteps(maxRetries, w, faults, now, i + 1)
  }

  lemma {:induction false} OnlyAll(batch: seq<Event>, ids: set<EventId>)
    requires Ids(batch) <= ids
    ensures Only(batch, ids) == batch
  {
    if batch != [] {
      IdsFirst(batch);
      OnlyAll(batch[1..], ids);
    }
  }

  /** What an attempt leaves in `events` is the same in the step machine and in the store object. */
  lemma {:induction false} SameWrite(events: Collection, batch: seq<Event>, attempt: nat, fault: Fault, a: WorkAct)
    requires match fault
      case NoFault => a == WriteReturns({})
      case Swallowed(lost) => a == WriteReturns(lost)
      case Transport(inserted, _) => a.WriteRaises? && a.inserted == inserted
    ensures InsertAll(events, WorkerWrites(Writing(batch, attempt), a)) == AfterWrite(events, batch, fault)
  {
    if fault.NoFault? {
      OnlyAll(batch, Ids(batch) - {});
    }
  }

  /** The worker's state, the counters and the collection at the end of the loop, as `ProcessBatch` promises them. */
  ghost predicate LoopEnd(s: State, s': State, w: nat, batch: seq<Event>, faults: nat -> Fault, now: int, i: nat, n: nat)
    requires w < |s.pool.workers| && i < n
  {
    && s'.events == AfterAttempts(s.events, batch, faults, i, n)
    && s'.pool.retries == s.pool.retries + (n - 1 - i)
    && s'.pool.buffer == s.pool.buffer && s'.deadLetters == s.deadLetters && s'.pool.queue == s.pool.queue
    && s'.pool.unfinished == s.pool.unfinished - (if faults(n - 1).Transport? then 0 else |batch|)
    && s'.pool.batchesProcessed == s.pool.batchesProcessed + (if faults(n - 1).Transport? then 0 else 1)
    && if faults(n - 1).Transport?
       then && s'.pool.workers == s.pool.workers[w := Pushing(batch, s.pool.buffer + Entries(batch, faults(n - 1).reason, now))]
            && s'.pool.recordedCount == s.pool.recordedCount + |batch| && s'.pool.eventsProcessed == s.pool.eventsProcessed
       else && s'.pool.workers == s.pool.workers[w := Idle]
            && s'.pool.eventsProcessed == s.pool.eventsProcessed + |batch| && s'.pool.recordedCount == s.pool.recordedCount
  }

  lemma LastAttempt(c: Config, s: State, w: nat, batch: seq<Event>, faults: nat -> Fault, now: int, i: nat) returns (s': State)
    requires w < |s.pool.workers| && s.pool.workers[w] == Writing(batch, i) && c.maxRetries >= 0 && i <= c.maxRetries
    requires !faults(i).Transport? || i == c.maxRetries
    ensures Run(c, s, LoopSteps(c.maxRetries, w, faults, now, i), s')
    ensures LoopEnd(s, s', w, batch, faults, now, i, i + 1)
  {
    hide InsertAll, Entries, WorkerWrites, AfterWrite;
    var steps := LoopSteps(c.maxRetries, w, faults, now, i);
    var a := steps[0].work;
    assert steps == [Work(w, a)];
    s' := ApplyWork(c, s, w, a);
    assert Run(c, s', steps[1..], s');
    SameWrite(s.events, batch, i, faults(i), a);
    assert AfterAttempts(s.events, batch, faults, i, i + 1) == AfterWrite(s.events, batch, faults(i));
  }

  /**
   * Running one worker's loop in the step machine with nothing interleaved ends exactly where the
   * sequential method ends: same attempts, same collection, same counters, same snapshot to push.
   */
  lemma {:induction false} LoopIsARun(c: Config, s: State, w: nat, batch: seq<Event>, faults: nat -> Fault, now: int, i: nat)
    returns (s': State)
    requires w < |s.pool.workers| && s.pool.workers[w] == Writing(batch, i) && c.maxRetries >= 0 && i <= c.maxRetries
    ensures AttemptsFrom(c.maxRetries, faults, i) > i
    ensures Run(c, s, LoopSteps(c.maxRetries, w, faults, now, i), s')
    ensures LoopEnd(s, s', w, batch, faults, now, i, AttemptsFrom(c.maxRetries, faults, i))
    decreases c.maxRetries - i
  {
    hide Entries, AfterWrite, Apply, Enabled, Run;
    AttemptsStopAtFirstSuccess(c.maxRetries, faults, i);
    if !faults(i).Transport? || i == c.maxRetries {
      s' := LastAttempt(c, s, w, batch, faults, now, i);
    } else {
      var s1, s2 := FailedOnce(c, s, w, batch, faults(i), now, i);
      s' := LoopIsARun(c, s2, w, batch, faults, now, i + 1);
      assert s2.pool.workers[w := s'.pool.workers[w]] == s.pool.workers[w := s'.pool.workers[w]];
      var rest := LoopSteps(c.maxRetries, w, faults, now, i + 1);
      RunCons(c, s1, Work(w, WakeUp), rest, s');
      RunCons(c, s, Work(w, WriteRaises(faults(i).inserted, faults(i).reason, now)), [Work(w, WakeUp)] + rest, s');
    }
  }

  /** One failed attempt that is not the last, and the wake-up after its backoff. */
  lemma FailedOnce(c: Config, s: State, w: nat, batch: seq<Event>, fault: Fault, now: int, i: nat) returns (s1: State, s2: State)
    requires w < |s.pool.workers| && s.pool.workers[w] == Writing(batch, i) && i < c.maxRetries && fault.Transport?
    ensures var step := Work(w, WriteRaises(fault.inserted, fault.reason, now));
      Enabled(c, s, step) && s1 == Apply(c, s, step)
    ensures Enabled(c, s1, Work(w, WakeUp)) && s2 == Apply(c, s1, Work(w, WakeUp))
    ensures s2 == s.(events := AfterWrite(s.events, batch, fault),
                     pool := s.pool.(workers := s.pool.workers[w := Writing(batch, i + 1)], retries := s.pool.retries + 1))
  {
    hide Entries, WorkerWrites, AfterWrite;
    var a := WriteRaises(fault.inserted, fault.reason, now);
    s1 := ApplyWork(c, s, w, a);
    s2 := ApplyWork(c, s1, w, WakeUp);
    SameWrite(s.events, batch, i, fault, a);
    NoWrites(s1.pool.workers[w]);
    assert s.pool.workers[w := Backoff(batch, i)][w := Writing(batch, i + 1)] == s.pool.workers[w := Writing(batch, i + 1)];
    assert s2.persisted == s.persisted;
  }

  lemma NoWrites(worker: Worker)
    requires worker.Backoff?
    ensures WorkerWrites(worker, WakeUp) == []
  {
  }

  // ---------------------------------------------------------------------------
  // A whole batch, from the queue to the acknowledgement
  // ---------------------------------------------------------------------------

  /** How a dead-letter push ends in the step machine. */
  function PushAct(fault: Fault): WorkAct {
    match fault
    case NoFault => PushReturns({})
    case Swallowed(lost) => PushReturns(lost)
    case Transport(inserted, _) => PushRaises(inserted)
  }

  lemma {:induction false} OnlyAllEntries(entries: seq<Entry>, ids: set<EventId>)
    requires EntryIds(entries) <= ids
    ensures OnlyEntries(entries, ids) == entries
  {
    if entries != [] {
      assert entries == [entries[0]] + entries[1..];
      EntryIdsAppend([entries[0]], entries[1..]);
      assert entries[0].event.id in EntryIds([entries[0]]);
      OnlyAllEntries(entries[1..], ids);
    }
  }

  /** What a push leaves in `dead_letter` is the same in the step machine and in the store object. */
  lemma {:induction false} SamePersist(d: DeadLetters, batch: seq<Event>, pending: seq<Entry>, fault: Fault)
    ensures Persist(d, WorkerBuries(Pushing(batch, pending), PushAct(fault))) == AfterPersist(d, pending, fault)
  {
    if fault.NoFault? {
      OnlyAllEntries(pending, EntryIds(pending) - {});
    }
  }

  /** Every allowed attempt raised. */
  predicate AllFailed(maxRetries: nat, faults: nat -> Fault) {
    forall i :: 0 <= i <= maxRetries ==> faults(i).Transport?
  }

  function BatchSteps(maxRetries: nat, w: nat, faults: nat -> Fault, pushFault: Fault, now: int): seq<Step> {
    LoopSteps(maxRetries, w, faults, now, 0) + if AllFailed(maxRetries, faults) then [Work(w, PushAct(pushFault))] else []
  }

  /** The state `ProcessBatch` and the acknowledgements after it promise. */
  ghost predicate BatchEnd(c: Config, s: State, s': State, w: nat, batch: seq<Event>, faults: nat -> Fault, pushFault: Fault, now: int)
    requires w < |s.pool.workers| && c.maxRetries >= 0
  {
    var n := AttemptsFrom(c.maxRetries, faults, 0);
    var p, p' := s.pool, s'.pool;
    && s'.events == AfterAttempts(s.events, batch, faults, 0, n)
    && p'.retries == p.retries + (n - 1)
    && p'.workers == p.workers[w := Idle] && p'.unfinished == p.unfinished - |batch| && p'.queue == p.queue
    && if AllFailed(c.maxRetries, faults)
       then && p'.recordedCount == p.recordedCount + |batch|
            && p'.eventsProcessed == p.eventsProcessed && p'.batchesProcessed == p.batchesProcessed
            && var pending := p.buffer + Entries(batch, faults(c.maxRetries).reason, now);
               && p'.buffer == (if Reported(pushFault).Returned? then [] else pending)
               && s'.deadLetters == AfterPersist(s.deadLetters, pending, pushFault)
       else && p'.recordedCount == p.recordedCount
            && p'.eventsProcessed == p.eventsProcessed + |batch| && p'.batchesProcessed == p.batchesProcessed + 1
            && p'.buffer == p.buffer && s'.deadLetters == s.deadLetters
  }

  lemma PushIsAStep(c: Config, s: State, w: nat, batch: seq<Event>, pending: seq<Entry>, fault: Fault)
    requires w < |s.pool.workers| && s.pool.workers[w] == Pushing(batch, pending)
    ensures var step := Work(w, PushAct(fault));
      && Enabled(c, s, step)
      && var s' := Apply(c, s, step);
      && s'.events == s.events && s'.deadLetters == AfterPersist(s.deadLetters, pending, fault)
      && s'.pool == s.pool.(workers := s.pool.workers[w := Idle], unfinished := s.pool.unfinished - |batch|,
                            buffer := if Reported(fault).Returned? then [] else pending)
  {
    hide Persist, WorkerBuries, AfterPersist;
    SamePersist(s.deadLetters, batch, pending, fault);
  }

  /** A batch processed with nothing interleaved: the method and the step machine end in the same state. */
  lemma BatchIsARun(c: Config, s: State, w: nat, batch: seq<Event>, faults: nat -> Fault, pushFault: Fault, now: int)
    returns (s': State)
    requires w < |s.pool.workers| && s.pool.workers[w] == Writing(batch, 0) && c.maxRetries >= 0
    ensures Run(c, s, BatchSteps(c.maxRetries, w, faults, pushFault, now), s')
    ensures BatchEnd(c, s, s', w, batch, faults, pushFault, now)
  {
    hide Run, Apply, Enabled, AfterAttempts, AttemptsFrom, Entries, LoopSteps, AfterPersist;
    var steps := LoopSteps(c.maxRetries, w, faults, now, 0);
    var mid := LoopIsARun(c, s, w, batch, faults, now, 0);
    AttemptsStopAtFirstSuccess(c.maxRetries, faults, 0);
    if AllFailed(c.maxRetries, faults) {
      var pending := s.pool.buffer + Entries(batch, faults(c.maxRetries).reason, now);
      PushIsAStep(c, mid, w, batch, pending, pushFault);
      s' := Apply(c, mid, Work(w, PushAct(pushFault)));
      assert s.pool.workers[w := mid.pool.workers[w]][w := Idle] == s.pool.workers[w := Idle];
      RunOne(c, mid, Work(w, PushAct(pushFault)));
      RunThen(c, s, steps, mid, [Work(w, PushAct(pushFault))], s');
    } else {
      s' := mid;
      assert steps + [] == steps;
    }
  }

  lemma {:induction false} RunOne(c: Config, s: State, step: Step)
    requires Enabled(c, s, step)
    ensures Run(c, s, [step], Apply(c, s, step))
  {
    hide Apply, Enabled;
    var s' := Apply(c, s, step);
    assert Run(c, s', [], s');
    RunCons(c, s, step, [], s');
    assert [step] + [] == [step];
  }

  /** One round of `_consume`: the oldest events up to the batch size leave the queue, then `BatchIsARun`. */
  lemma RoundIsARun(c: Config, s: State, w: nat, faults: nat -> Fault, pushFault: Fault, now: int) returns (s': State)
    requires w < |s.pool.workers| && s.pool.workers[w].Idle? && s.pool.queue != [] && c.maxRetries >= 0
    ensures var n, limit := TakeSize(c, s.pool), if c.batchSize < 1 then 1 else c.batchSize;
      && n == (if |s.pool.queue| < limit then |s.pool.queue| else limit)
      && Run(c, s, [Work(w, Take)] + BatchSteps(c.maxRetries, w, faults, pushFault, now), s')
      && BatchEnd(c, s.(pool := s.pool.(queue := s.pool.queue[n..])), s', w, s.pool.queue[..n], faults, pushFault, now)
  {
    hide Run, BatchSteps, AfterAttempts, AttemptsFrom, Entries, AfterPersist, AllFailed;
    var n := TakeSize(c, s.pool);
    var batch := s.pool.queue[..n];
    var mid := ApplyWork(c, s, w, Take);
    TakeOnly(c, s, w);
    s' := BatchIsARun(c, mid, w, batch, faults, pushFault, now);
    assert s.pool.workers[w := Writing(batch, 0)][w := Idle] == s.pool.workers[w := Idle];
    RunCons(c, s, Work(w, Take), BatchSteps(c.maxRetries, w, faults, pushFault, now), s');
  }

  lemma TakeOnly(c: Config, s: State, w: nat)
    requires w < |s.pool.workers| && s.pool.workers[w].Idle? && s.pool.queue != [] && c.maxRetries >= 0
    ensures var n := TakeSize(c, s.pool);
      ApplyWork(c, s, w, Take) == s.(pool := s.pool.(
        queue := s.pool.queue[n..], taken := s.pool.taken + s.pool.queue[..n],
        workers := s.pool.workers[w := Writing(s.pool.queue[..n], 0)]))
  {
    var s' := ApplyWork(c, s, w, Take);
    assert s'.persisted == s.persisted;
  }

  // ---------------------------------------------------------------------------
  // A replay request
  // ---------------------------------------------------------------------------

  /** The steps of request `r`, given how its calls end; a lookup that raises takes no step. */
  function ReplaySteps(d: DeadLetters, r: nat, id: EventId, getFails: bool, write: Fault, deleteFails: bool, gone: bool): seq<Step> {
    if getFails then []
    else if id !in d then [Redrive(r, Get(id))]
    else match write
      case Transport(inserted, _) => [Redrive(r, Get(id)), Redrive(r, RewriteRaises(id in inserted))]
      case _ => [Redrive(r, Get(id)), Redrive(r, RewriteReturns(Loses(write, id))),
                 Redrive(r, if deleteFails then DeleteRaises(gone) else DeleteReturns)]
  }

  predicate Loses(write: Fault, id: EventId) {
    write.Swallowed? && id in write.lost
  }

  /** The stores `ReplayDeadLetter` promises; the request is over. */
  ghost predicate ReplayEnd(s: State, s': State, id: EventId, getFails: bool, write: Fault, deleteFails: bool, gone: bool) {
    var found := !getFails && id in s.deadLetters;
    && s'.pool == s.pool && s'.mirror == s.mirror && s'.phase == s.phase && s'.replays == s.replays
    && s'.events == (if found then AfterWrite(s.events, [s.deadLetters[id].event], write) else s.events)
    && s'.deadLetters == (if found && !write.Transport? && (!deleteFails || gone) then s.deadLetters - {id} else s.deadLetters)
  }

  /** The insert a rewrite makes is the one `bulk_write` makes for the one event. */
  lemma {:induction false} SameRewrite(c: Collection, e: Event, write: Fault)
    ensures AfterWrite(c, [e], write) == InsertAll(c, if (write.Transport? && e.id !in write.inserted) || Loses(write, e.id) then [] else [e])
  {
    assert [e][1..] == [];
    assert Ids([e]) == {e.id};
    assert forall ids :: Only([e], ids) == if e.id in ids then [e] else [];
  }

  /** The three calls of a replay of an existing record, with nothing interleaved. */
  lemma {:induction false} ReplayIsARun(c: Config, s: State, r: nat, id: EventId, getFails: bool, write: Fault, deleteFails: bool, gone: bool)
    returns (s': State)
    requires r !in s.replays && forall k :: k in s.deadLetters ==> s.deadLetters[k].event.id == k
    ensures Run(c, s, ReplaySteps(s.deadLetters, r, id, getFails, write, deleteFails, gone), s')
    ensures ReplayEnd(s, s', id, getFails, write, deleteFails, gone)
  {
    hide Run, AfterWrite, InsertAll;
    var steps := ReplaySteps(s.deadLetters, r, id, getFails, write, deleteFails, gone);
    if getFails {
      s' := s;
      RunNothing(c, s);
    } else {
      var s1 := ApplyRedrive(s, r, Get(id));
      NothingInserted(s.events);
      assert s1 == s.(replays := s1.replays);
      if id !in s.deadLetters {
        s' := s1;
        RunOne(c, s, Redrive(r, Get(id)));
      } else {
        s' := ReplayAfterGet(c, s1, r, id, write, deleteFails, gone);
        RunCons(c, s, Redrive(r, Get(id)), steps[1..], s');
        assert steps == [Redrive(r, Get(id))] + steps[1..];
        assert s'.replays == s.replays;
      }
    }
  }

  lemma {:induction false} RunNothing(c: Config, s: State)
    ensures Run(c, s, [], s)
  {
  }

  lemma {:induction false} NothingInserted(c: Collection)
    ensures InsertAll(c, []) == c
  {
  }

  lemma {:induction false} ReplayAfterGet(c: Config, s: State, r: nat, id: EventId, write: Fault, deleteFails: bool, gone: bool)
    returns (s': State)
    requires id in s.deadLetters && s.deadLetters[id].event.id == id
    requires r in s.replays && s.replays[r] == Rewriting(id, s.deadLetters[id].event)
    ensures Run(c, s, ReplaySteps(s.deadLetters, r, id, false, write, deleteFails, gone)[1..], s')
    ensures ReplayEnd(s, s'.(replays := s.replays), id, false, write, deleteFails, gone) && s'.replays == s.replays - {r}
  {
    hide Run, AfterWrite, InsertAll;
    var rest := ReplaySteps(s.deadLetters, r, id, false, write, deleteFails, gone)[1..];
    SameRewrite(s.events, s.deadLetters[id].event, write);
    if write.Transport? {
      var a := RewriteRaises(id in write.inserted);
      s' := ApplyRedrive(s, r, a);
      RunOne(c, s, Redrive(r, a));
      assert rest == [Redrive(r, a)];
    } else {
      var a := RewriteReturns(Loses(write, id));
      var b := if deleteFails then DeleteRaises(gone) else DeleteReturns;
      var s1 := ApplyRedrive(s, r, a);
      s' := ApplyRedrive(s1, r, b);
      NothingInserted(s1.events);
      RunOne(c, s1, Redrive(r, b));
      RunCons(c, s, Redrive(r, a), [Redrive(r, b)], s');
      assert rest == [Redrive(r, a)] + [Redrive(r, b)];
    }
  }

  // ---------------------------------------------------------------------------
  // An indexer pass
  // ---------------------------------------------------------------------------

  /** The steps of one pass, given how its three calls end. */
  function PassSteps(fetched: Option<seq<Event>>, bulk: BulkFault, markFails: bool, marked: set<EventId>): seq<Step> {
    match fetched
    case None => [Index(FetchRaises)]
    case Some(docs) =>
      [Index(Fetch(docs))] +
      if docs == [] then []
      else match bulk
        case Unreachable(indexed, _) => [Index(BulkRaises(indexed))]
        case PerDocument(refused) => [Index(BulkReturns(refused)), Index(if markFails then MarkRaises(marked) else MarkReturns)]
  }

  predicate PassFails(fetched: Option<seq<Event>>, bulk: BulkFault, markFails: bool) {
    fetched.None? || (fetched.value != [] && (bulk.Unreachable? || markFails))
  }

  /** The stores and counters `IndexPending` and `RunOnce` promise at the end of a pass. */
  ghost predicate PassEnd(s: State, s': State, fetched: Option<seq<Event>>, bulk: BulkFault, markFails: bool, marked: set<EventId>) {
    var m, m' := s.mirror, s'.mirror;
    && m'.indexer.Resting? && s'.pool == s.pool && s'.deadLetters == s.deadLetters
    && m'.rejected == m.rejected + (if fetched.Some? && bulk.PerDocument? then Ids(fetched.value) * bulk.refused else {})
    && m'.es == (if fetched.None? then m.es else IndexOnly(m.es, fetched.value, Reached(fetched.value, bulk)))
    && s'.events == (if fetched.None? || fetched.value == [] || bulk.Unreachable? then s.events
                     else Mark(s.events, if markFails then Ids(fetched.value) * marked else Ids(fetched.value)))
    && m'.indexFailures == m.indexFailures + (if PassFails(fetched, bulk, markFails) then 1 else 0)
    && m'.eventsIndexed == m.eventsIndexed + (if PassFails(fetched, bulk, markFails) then 0 else |fetched.value|)
  }

  /** A pass with nothing interleaved: the method and the step machine end in the same state. */
  lemma PassIsARun(c: Config, s: State, fetched: Option<seq<Event>>, bulk: BulkFault, markFails: bool, marked: set<EventId>)
    returns (s': State)
    requires s.mirror.indexer.Resting? && (fetched.Some? ==> IsFetch(s.events, c.batchSize, fetched.value))
    ensures Run(c, s, PassSteps(fetched, bulk, markFails, marked), s')
    ensures PassEnd(s, s', fetched, bulk, markFails, marked)
  {
    hide Run, IsFetch, Mark, Ids, Apply;
    NoMarks(s.events);
    NoIds();
    if fetched.None? {
      s' := IndexStep(c, s, FetchRaises);
      RunOne(c, s, Index(FetchRaises));
    } else {
      var docs := fetched.value;
      var s1 := IndexStep(c, s, Fetch(docs));
      if docs == [] {
        s' := s1;
        assert [Index(Fetch(docs))] + [] == [Index(Fetch(docs))];
        RunOne(c, s, Index(Fetch(docs)));
      } else {
        s' := PassAfterFetch(c, s1, docs, bulk, markFails, marked);
        RunCons(c, s, Index(Fetch(docs)), PassSteps(fetched, bulk, markFails, marked)[1..], s');
        assert PassSteps(fetched, bulk, markFails, marked)
            == [Index(Fetch(docs))] + PassSteps(fetched, bulk, markFails, marked)[1..];
      }
    }
  }

  lemma IndexStep(c: Config, s: State, a: IndexAct) returns (s': State)
    requires IndexEnabled(c, s, a)
    ensures Enabled(c, s, Index(a)) && s' == Apply(c, s, Index(a))
    ensures s' == s.(mirror := IndexPass(s.mirror, a), events := Mark(s.events, Marks(s.mirror.indexer, a)))
  {
    s' := Apply(c, s, Index(a));
  }

  lemma PassAfterFetch(c: Config, s: State, docs: seq<Event>, bulk: BulkFault, markFails: bool, marked: set<EventId>)
    returns (s': State)
    requires s.mirror.indexer == Fetched(docs) && docs != []
    ensures Run(c, s, PassSteps(Some(docs), bulk, markFails, marked)[1..], s')
    ensures PassEnd(s, s', Some(docs), bulk, markFails, marked)
  {
    hide Run, Mark, Ids, Apply;
    NoMarks(s.events);
    match bulk
    case Unreachable(indexed, _) =>
      s' := IndexStep(c, s, BulkRaises(indexed));
      RunOne(c, s, Index(BulkRaises(indexed)));
      assert PassSteps(Some(docs), bulk, markFails, marked)[1..] == [Index(BulkRaises(indexed))];
    case PerDocument(refused) =>
      var last := if markFails then MarkRaises(marked) else MarkReturns;
      var s1 := IndexStep(c, s, BulkReturns(refused));
      s' := IndexStep(c, s1, last);
      RunOne(c, s1, Index(last));
      RunCons(c, s, Index(BulkReturns(refused)), [Index(last)], s');
      assert PassSteps(Some(docs), bulk, markFails, marked)[1..] == [Index(BulkReturns(refused))] + [Index(last)];
  }
}
