/** `WorkerPool`: batching, the retry loop, and the acknowledgements. */
module Consumer {
  import opened Events
  import opened Mongo
  import opened MongoClient
  import opened EventQueues
  import opened DeadLetterQueues

  /** The number of attempts made when the loop stands at attempt `i`. */
  function AttemptsFrom(maxRetries: nat, faults: nat -> Fault, i: nat): nat
    requires i <= maxRetries
    decreases maxRetries - i
  {
    if !faults(i).Transport? || i == maxRetries then i + 1 else AttemptsFrom(maxRetries, faults, i + 1)
  }

  /** The first attempt that does not raise ends the loop; otherwise every allowed attempt is made. */
  lemma {:induction false} AttemptsStopAtFirstSuccess(maxRetries: nat, faults: nat -> Fault, i: nat)
    requires i <= maxRetries
    ensures var n := AttemptsFrom(maxRetries, faults, i);
      && i < n <= maxRetries + 1
      && (forall k :: i <= k < n - 1 ==> faults(k).Transport?)
      && (faults(n - 1).Transport? <==> forall k :: i <= k <= maxRetries ==> faults(k).Transport?)
      && (faults(n - 1).Transport? ==> n == maxRetries + 1)
    decreases maxRetries - i
  {
    if faults(i).Transport? && i < maxRetries {
      AttemptsStopAtFirstSuccess(maxRetries, faults, i + 1);
    }
  }

  /** The collection after the attempts `from`, ..., `upTo - 1`. */
  function AfterAttempts(c: Collection, batch: seq<Event>, faults: nat -> Fault, from: nat, upTo: nat): Collection
    requires from <= upTo
    decreases upTo - from
  {
    if from == upTo then c else AfterAttempts(AfterWrite(c, batch, faults(from)), batch, faults, from + 1, upTo)
  }

  lemma {:induction false} OneMoreAttempt(c: Collection, batch: seq<Event>, faults: nat -> Fault, from: nat, upTo: nat)
    requires from <= upTo
    ensures AfterAttempts(c, batch, faults, from, upTo + 1)
         == AfterWrite(AfterAttempts(c, batch, faults, from, upTo), batch, faults(upTo))
    decreases upTo - from
  {
    if from < upTo {
      OneMoreAttempt(AfterWrite(c, batch, faults(from)), batch, faults, from + 1, upTo);
    }
  }

  /** Failed attempts, however much each inserted, followed by a clean one: one plain insert of the batch. */
  lemma {:induction false} RetriedBatchIsWrittenOnce(c: Collection, batch: seq<Event>, faults: nat -> Fault, from: nat, upTo: nat)
    requires from < upTo && faults(upTo - 1).NoFault?
    requires forall k :: from <= k < upTo - 1 ==> faults(k).Transport?
    ensures AfterAttempts(c, batch, faults, from, upTo) == InsertAll(c, batch)
    decreases upTo - from
  {
    if from < upTo - 1 {
      RetriedBatchIsWrittenOnce(AfterWrite(c, batch, faults(from)), batch, faults, from + 1, upTo);
      PartialThenWhole(c, batch, faults(from).inserted);
    }
  }

  function Pow2(n: nat): real {
    if n == 0 then 1.0 else 2.0 * Pow2(n - 1)
  }

  lemma {:induction false} Pow2Monotone(m: nat, n: nat)
    requires m <= n
    ensures 1.0 <= Pow2(m) <= Pow2(n)
    decreases n
  {
    if m < n {
      Pow2Monotone(m, n - 1);
    } else if m > 0 {
      Pow2Monotone(m - 1, n - 1);
    }
  }

  /** The backoff before attempts 1, ..., `n`: delay `i` is a fraction of `base * 2^i`. */
  function TotalDelay(base: real, jitter: nat -> real, n: nat): real {
    if n == 0 then 0.0 else TotalDelay(base, jitter, n - 1) + jitter(n - 1) * (base * Pow2(n - 1))
  }

  /** With the largest jitter the delays double and sum to `base * (2^n - 1)`; with the smallest there is none. */
  lemma {:induction false} DelayExtremes(base: real, jitter: nat -> real, n: nat)
    ensures (forall i :: jitter(i) == 1.0) ==> TotalDelay(base, jitter, n) == base * (Pow2(n) - 1.0)
    ensures (forall i :: jitter(i) == 0.0) ==> TotalDelay(base, jitter, n) == 0.0
  {
    if n > 0 {
      DelayExtremes(base, jitter, n - 1);
    }
  }

  /** Total backoff never exceeds the geometric sum. */
  lemma {:induction false} DelayAtMost(base: real, jitter: nat -> real, n: nat)
    requires base >= 0.0 && forall i :: 0.0 <= jitter(i) <= 1.0
    ensures 0.0 <= TotalDelay(base, jitter, n) <= base * (Pow2(n) - 1.0)
  {
    if n > 0 {
      DelayAtMost(base, jitter, n - 1);
      DelayBound(base, TotalDelay(base, jitter, n - 1), jitter(n - 1), n - 1);
    }
  }

  /** One more full-jitter delay keeps the total under the geometric sum. */
  lemma DelayBound(base: real, slept: real, jitter: real, n: nat)
    requires base >= 0.0 && 0.0 <= jitter <= 1.0
    requires 0.0 <= slept <= base * (Pow2(n) - 1.0)
    ensures 0.0 <= slept + jitter * (base * Pow2(n)) <= base * (Pow2(n + 1) - 1.0)
  {
    Pow2Monotone(0, n);
    var p := Pow2(n);
    var step := base * p;
    var delay := jitter * step;
    assert 0.0 <= delay <= step by { FractionOf(jitter, step); }
    Geometric(base, p, slept, delay);
    assert Pow2(n + 1) == 2.0 * p;
  }

  lemma Geometric(base: real, p: real, slept: real, delay: real)
    requires slept <= base * (p - 1.0) && delay <= base * p
    ensures slept + delay <= base * (2.0 * p - 1.0)
  {
  }

  lemma FractionOf(jitter: real, step: real)
    requires 0.0 <= jitter <= 1.0 && step >= 0.0
    ensures 0.0 <= jitter * step <= step
  {
  }

  lemma {:induction false} BoundGrows(base: real, slept: real, m: nat, n: nat)
    requires base >= 0.0 && m <= n && slept <= base * (Pow2(m) - 1.0)
    ensures slept <= base * (Pow2(n) - 1.0)
  {
    Pow2Monotone(m, n);
    assert base * (Pow2(m) - 1.0) <= base * (Pow2(n) - 1.0);
  }

  class WorkerPool {
    const queue: EventQueue
    const dlq: DeadLetterQueue
    const mongo: MongoStore
    const batchSize: int
    const maxRetries: int
    const baseDelay: real
    var eventsProcessed: nat
    var batchesProcessed: nat
    var retries: nat

    constructor (queue: EventQueue, dlq: DeadLetterQueue, mongo: MongoStore, batchSize: int, maxRetries: int, baseDelay: real)
      ensures this.queue == queue && this.dlq == dlq && this.mongo == mongo
      ensures this.batchSize == batchSize && this.maxRetries == maxRetries && this.baseDelay == baseDelay
      ensures eventsProcessed == 0 && batchesProcessed == 0 && retries == 0
    {
      this.queue, this.dlq, this.mongo := queue, dlq, mongo;
      this.batchSize, this.maxRetries, this.baseDelay := batchSize, maxRetries, baseDelay;
      eventsProcessed, batchesProcessed, retries := 0, 0, 0;
    }

    /** `get()` has an event, then `get_nowait()` until the batch is full or the queue is empty. */
    method CollectBatch() returns (batch: seq<Event>)
      requires queue.items != []
      modifies queue`items
      ensures batch + queue.items == old(queue.items)
      ensures var limit := if batchSize < 1 then 1 else batchSize;
        |batch| == if |old(queue.items)| < limit then |old(queue.items)| else limit
    {
      var first := queue.GetNowait();
      batch := [first.value];
      while |batch| < batchSize
        invariant batch + queue.items == old(queue.items)
        invariant 1 <= |batch| && (|batch| == 1 || |batch| <= batchSize)
        decreases batchSize - |batch|
      {
        var next := queue.GetNowait();
        if next.None? {
          break;
        }
        batch := batch + [next.value];
      }
    }

    /**
     * The retry loop of `_process_batch` with nothing interleaved. `faults(i)` is what the store does
     * to attempt `i`, `jitter(i)` the fraction of the backoff interval drawn for it.
     */
    method WriteWithRetries(batch: seq<Event>, faults: nat -> Fault, jitter: nat -> real)
      returns (attempts: nat, slept: real, lastExc: Option<string>)
      requires batch != []
      requires forall i :: 0.0 <= jitter(i) <= 1.0
      modifies this`retries, mongo`events
      ensures maxRetries >= 0 ==> attempts == AttemptsFrom(maxRetries, faults, 0)
      ensures maxRetries < 0 ==> attempts == 0
      ensures mongo.events == AfterAttempts(old(mongo.events), batch, faults, 0, attempts)
      ensures retries == old(retries) + if attempts == 0 then 0 else attempts - 1
      ensures slept == TotalDelay(baseDelay, jitter, if attempts == 0 then 0 else attempts - 1)
      ensures baseDelay >= 0.0 && maxRetries >= 0 ==> 0.0 <= slept <= baseDelay * (Pow2(maxRetries) - 1.0)
      ensures lastExc == if attempts > 0 && faults(attempts - 1).Transport? then Some(faults(attempts - 1).reason) else None
    {
      hide AfterWrite;
      lastExc := None;
      var attempt: int := 0;
      attempts, slept := 0, 0.0;
      while attempt <= maxRetries
        invariant 0 <= attempt && (attempt <= maxRetries || (maxRetries < 0 && attempt == 0))
        invariant attempts == attempt
        invariant attempts > 0 ==> faults(attempts - 1).Transport?
        invariant lastExc == if attempts > 0 then Some(faults(attempts - 1).reason) else None
        invariant maxRetries >= 0 ==> AttemptsFrom(maxRetries, faults, attempt) == AttemptsFrom(maxRetries, faults, 0)
        invariant mongo.events == AfterAttempts(old(mongo.events), batch, faults, 0, attempts)
        invariant retries == old(retries) + attempt
        invariant slept == TotalDelay(baseDelay, jitter, attempt)
        decreases maxRetries - attempt
      {
        OneMoreAttempt(old(mongo.events), batch, faults, 0, attempts);
        var r := mongo.BulkWrite(batch, faults(attempt));
        attempts := attempts + 1;
        if r.Returned? {
          lastExc := None;
          break;
        }
        lastExc := Some(r.reason);
        if attempt == maxRetries {
          break;
        }
        retries := retries + 1;
        slept := slept + jitter(attempt) * (baseDelay * Pow2(attempt));
        attempt := attempt + 1;
      }
      if baseDelay >= 0.0 && maxRetries >= 0 {
        DelayAtMost(baseDelay, jitter, attempt);
        BoundGrows(baseDelay, slept, attempt, maxRetries);
      }
    }

    /** The batch went to the dead-letter queue, as one uninterrupted push. */
    twostate predicate DeadLettered(batch: seq<Event>, reason: string, pushFault: Fault, now: int)
      reads this, dlq, dlq.sink
    {
      && dlq.recorded == old(dlq.recorded) + |batch|
      && eventsProcessed == old(eventsProcessed) && batchesProcessed == old(batchesProcessed)
      && var pending := old(dlq.unpersisted) + Entries(batch, reason, now);
         if dlq.sink == null then dlq.unpersisted == pending
         else && dlq.unpersisted == (if Reported(pushFault).Returned? then [] else pending)
              && dlq.sink.deadLetters == AfterPersist(old(dlq.sink.deadLetters), pending, pushFault)
    }

    /** The batch was counted as processed and the dead-letter queue left alone. */
    twostate predicate CountedProcessed(batch: seq<Event>)
      reads this, dlq, dlq.sink
    {
      && eventsProcessed == old(eventsProcessed) + |batch| && batchesProcessed == old(batchesProcessed) + 1
      && dlq.recorded == old(dlq.recorded) && dlq.unpersisted == old(dlq.unpersisted)
      && (dlq.sink != null ==> dlq.sink.deadLetters == old(dlq.sink.deadLetters))
    }

    /**
     * `_process_batch` with nothing interleaved: the batch goes to the dead-letter queue exactly when
     * every allowed attempt raised, and is counted as processed otherwise.
     */
    method ProcessBatch(batch: seq<Event>, faults: nat -> Fault, jitter: nat -> real, pushFault: Fault, now: int)
      returns (attempts: nat, slept: real)
      requires batch != []
      requires forall i :: 0.0 <= jitter(i) <= 1.0
      modifies this, mongo, dlq, dlq.sink
      ensures maxRetries >= 0 ==> attempts == AttemptsFrom(maxRetries, faults, 0)
      ensures maxRetries < 0 ==> attempts == 0
      ensures mongo.events == AfterAttempts(old(mongo.events), batch, faults, 0, attempts)
      ensures retries == old(retries) + if attempts == 0 then 0 else attempts - 1
      ensures slept == TotalDelay(baseDelay, jitter, if attempts == 0 then 0 else attempts - 1)
      ensures baseDelay >= 0.0 && maxRetries >= 0 ==> 0.0 <= slept <= baseDelay * (Pow2(maxRetries) - 1.0)
      ensures if maxRetries >= 0 && (forall i :: 0 <= i <= maxRetries ==> faults(i).Transport?)
              then DeadLettered(batch, faults(maxRetries).reason, pushFault, now)
              else CountedProcessed(batch)
      ensures dlq.sink != mongo ==>
        mongo.deadLetters == old(mongo.deadLetters) && (dlq.sink != null ==> dlq.sink.events == old(dlq.sink.events))
    {
      hide AfterAttempts, AttemptsFrom, Entries, AfterPersist, Pow2, TotalDelay, EntryIds, Ids;
      var lastExc;
      attempts, slept, lastExc := WriteWithRetries(batch, faults, jitter);
      if maxRetries >= 0 {
        AttemptsStopAtFirstSuccess(maxRetries, faults, 0);
      }
      if lastExc.Some? {
        dlq.PushMany(batch, lastExc.value, now, pushFault);
        return;
      }
      batchesProcessed := batchesProcessed + 1;
      eventsProcessed := eventsProcessed + |batch|;
    }

    /**
     * One round of `_consume`: take a batch, process it, acknowledge every event of it. The attempts stop
     * at the first that does not raise; a batch no allowed attempt wrote is dead-lettered, any other
     * is counted as processed, and is in `events` when the deciding attempt met no error.
     */
    method ConsumeOnce(faults: nat -> Fault, jitter: nat -> real, pushFault: Fault, now: int)
      returns (batch: seq<Event>, attempts: nat)
      requires queue.items != [] && queue.unfinished >= |queue.items|
      requires forall i :: 0.0 <= jitter(i) <= 1.0
      modifies this, mongo, dlq, dlq.sink, queue
      ensures batch != [] && batch + queue.items == old(queue.items)
      ensures var limit := if batchSize < 1 then 1 else batchSize;
        |batch| == if |old(queue.items)| < limit then |old(queue.items)| else limit
      ensures queue.unfinished == old(queue.unfinished) - |batch|
      ensures maxRetries < 0 ==> attempts == 0
      ensures maxRetries >= 0 ==> 1 <= attempts <= maxRetries + 1
      ensures forall i :: 0 <= i < attempts - 1 ==> faults(i).Transport?
      ensures maxRetries >= 0 && faults(attempts - 1).Transport? ==> attempts == maxRetries + 1
      ensures retries == old(retries) + if attempts == 0 then 0 else attempts - 1
      ensures mongo.events == AfterAttempts(old(mongo.events), batch, faults, 0, attempts)
      ensures attempts > 0 && faults(attempts - 1).NoFault? ==>
        mongo.events == InsertAll(old(mongo.events), batch) && Ids(batch) <= mongo.events.Keys
      ensures if attempts > 0 && faults(attempts - 1).Transport?
              then DeadLettered(batch, faults(attempts - 1).reason, pushFault, now)
              else CountedProcessed(batch)
      ensures dlq.sink != mongo ==>
        mongo.deadLetters == old(mongo.deadLetters) && (dlq.sink != null ==> dlq.sink.events == old(dlq.sink.events))
    {
      hide AfterAttempts, AttemptsFrom, Entries, InsertAll;
      batch := CollectBatch();
      var slept;
      attempts, slept := ProcessBatch(batch, faults, jitter, pushFault, now);
      if maxRetries >= 0 {
        AttemptsStopAtFirstSuccess(maxRetries, faults, 0);
        if faults(attempts - 1).NoFault? {
          RetriedBatchIsWrittenOnce(old(mongo.events), batch, faults, 0, attempts);
          InsertAllSpec(old(mongo.events), batch);
        }
      }
      Acknowledge(batch);
    }

    /** `task_done()` once per event of the batch. */
    method Acknowledge(batch: seq<Event>)
      requires queue.unfinished >= |batch|
      modifies queue`unfinished
      ensures queue.unfinished == old(queue.unfinished) - |batch|
    {
      for i := 0 to |batch|
        invariant queue.unfinished == old(queue.unfinished) - i
      {
        var ok := queue.TaskDone();
        assert ok;
      }
    }
  }
}
