/**
 * Acheron's ingest pipeline as one interleaved step machine.
 *
 * Every step is the code one task runs between two awaits. A step carries what the environment
 * decides: which task moves, whether a store call returns or raises, and which ids a failing call
 * had already written.
 */
module Pipeline {
  import opened Events
  import opened Mongo
  import opened Elastic

  /** The settings the pipeline reads. */
  datatype Config = Config(maxSize: int, batchSize: int, concurrency: nat, maxRetries: int)

  /** Where a consumer task is suspended. */
  datatype Worker =
    | Idle                                                  // awaiting queue.get()
    | Writing(batch: seq<Event>, attempt: nat)              // awaiting bulk_write
    | Backoff(batch: seq<Event>, attempt: nat)              // awaiting sleep(delay)
    | Pushing(batch: seq<Event>, pending: seq<Entry>)       // awaiting persist_dead_letters
    | Exited

  datatype Indexer =
    | Resting
    | Fetched(docs: seq<Event>)                             // awaiting bulk_index
    | Indexed(docs: seq<Event>)                             // awaiting mark_indexed

  datatype Replay =
    | Rewriting(id: EventId, event: Event)                  // awaiting bulk_write
    | Deleting(id: EventId)                                 // awaiting delete_dead_letter

  /** The shutdown half of `lifespan`. */
  datatype Phase = Open | Closed | Draining | Joined | TimedOut

  /** What lives in the process's memory: the queue, the consumers, the DLQ buffer, the counters. */
  datatype Pool = Pool(
    queue: seq<Event>,
    unfinished: int,
    workers: seq<Worker>,
    buffer: seq<Entry>,
    eventsProcessed: nat,
    batchesProcessed: nat,
    retries: nat,
    recordedCount: nat,
    // History, read by no step.
    accepted: seq<Event>,         // every event answered with 202, in order
    taken: seq<Event>,            // every event a worker took off the queue, in order
    processed: seq<Event>,        // counted by events_processed
    recorded: seq<Event>,         // handed to push_many
    dropped: seq<Event>)          // in a batch cancelled before it was written or recorded

  /** The indexer and the mirror it feeds; `rejected` remembers the ids ES refused per document. */
  datatype MirrorSide = MirrorSide(
    es: Index, indexer: Indexer, rejected: set<EventId>, eventsIndexed: nat, indexFailures: nat)

  /** `persisted` remembers the recorded ids that were in `dead_letter` when a push of theirs ended. */
  datatype State = State(
    phase: Phase,
    pool: Pool,
    events: Collection,
    deadLetters: DeadLetters,
    persisted: set<EventId>,
    replays: map<nat, Replay>,
    mirror: MirrorSide)

  datatype IngestAct = Accept(e: Event) | RefuseFull(e: Event) | RefuseClosed(e: Event)

  datatype WorkAct =
    | Take
    | IdleExit
    | WriteReturns(lost: set<EventId>)                      // `lost`: swallowed non-duplicate write errors
    | WriteRaises(inserted: set<EventId>, reason: string, now: int)
    | WakeUp
    | PushReturns(lost: set<EventId>)
    | PushRaises(inserted: set<EventId>)
    | Cancel(inserted: set<EventId>)

  datatype ShutdownAct = StopAccepting | SignalStop | JoinReturns | JoinTimesOut

  datatype ReplayAct =
    | Get(id: EventId)
    | RewriteReturns(lostIt: bool)
    | RewriteRaises(insertedIt: bool)
    | DeleteReturns
    | DeleteRaises(deletedIt: bool)

  datatype IndexAct =
    | Fetch(docs: seq<Event>)
    | FetchRaises
    | BulkReturns(refused: set<EventId>)
    | BulkRaises(indexed: set<EventId>)
    | MarkReturns
    | MarkRaises(marked: set<EventId>)

  datatype Step =
    | Ingest(ingest: IngestAct)
    | Work(w: nat, work: WorkAct)
    | Shutdown(shutdown: ShutdownAct)
    | Redrive(r: nat, replay: ReplayAct)
    | Index(index: IndexAct)

  // ---------------------------------------------------------------------------
  // Ingestion and shutdown
  // ---------------------------------------------------------------------------

  /** `asyncio.Queue.full()`: a non-positive bound means no bound. */
  predicate QueueFull(c: Config, p: Pool) {
    c.maxSize > 0 && |p.queue| >= c.maxSize
  }

  predicate IngestEnabled(c: Config, s: State, a: IngestAct) {
    match a
    case Accept(_) => s.phase.Open? && !QueueFull(c, s.pool)
    case RefuseFull(_) => s.phase.Open? && QueueFull(c, s.pool)
    case RefuseClosed(_) => !s.phase.Open?
  }

  /** `ingest`: enqueue, or raise and leave everything as it was. */
  function Intake(p: Pool, a: IngestAct): Pool {
    match a
    case Accept(e) => p.(queue := p.queue + [e], unfinished := p.unfinished + 1, accepted := p.accepted + [e])
    case _ => p
  }

  predicate Stopping(p: Phase) {
    p.Draining? || p.Joined? || p.TimedOut?
  }

  predicate ShutdownEnabled(s: State, a: ShutdownAct) {
    match a
    case StopAccepting => s.phase.Open?
    case SignalStop => s.phase.Closed?
    case JoinReturns => s.phase.Draining? && s.pool.unfinished == 0
    case JoinTimesOut => s.phase.Draining?
  }

  function NextPhase(a: ShutdownAct): Phase {
    match a
    case StopAccepting => Closed
    case SignalStop => Draining
    case JoinReturns => Joined
    case JoinTimesOut => TimedOut
  }

  // ---------------------------------------------------------------------------
  // Consumers
  // ---------------------------------------------------------------------------

  function BatchOf(w: Worker): seq<Event> {
    if w.Idle? || w.Exited? then [] else w.batch
  }

  /** `first`, plus whatever `get_nowait` yields up to the batch size. */
  function BatchLimit(c: Config): nat {
    if c.batchSize < 1 then 1 else c.batchSize
  }

  function TakeSize(c: Config, p: Pool): nat {
    if |p.queue| < BatchLimit(c) then |p.queue| else BatchLimit(c)
  }

  /** The await that `a` ends is the one the consumer is suspended in. */
  predicate Awaits(worker: Worker, a: WorkAct) {
    match a
    case Take => worker.Idle?
    case IdleExit => worker.Idle?
    case WriteReturns(_) => worker.Writing?
    case WriteRaises(_, _, _) => worker.Writing?
    case WakeUp => worker.Backoff?
    case PushReturns(_) => worker.Pushing?
    case PushRaises(_) => worker.Pushing?
    case Cancel(_) => !worker.Exited?
  }

  predicate WorkEnabled(phase: Phase, p: Pool, w: nat, a: WorkAct) {
    && w < |p.workers| && Awaits(p.workers[w], a)
    && (a.Take? ==> p.queue != [])
    && (a.IdleExit? ==> p.queue == [] && Stopping(phase))   // the one-second poll expires only on an empty queue
    && (a.Cancel? ==> phase.Joined? || phase.TimedOut?)
  }

  /** What a consumer's call puts into `events`; a swallowed or failing call reaches only some ids. */
  function WorkerWrites(worker: Worker, a: WorkAct): seq<Event> {
    if !worker.Writing? then []
    else match a
      case WriteReturns(lost) => Only(worker.batch, Ids(worker.batch) - lost)
      case WriteRaises(inserted, _, _) => Only(worker.batch, inserted)
      case Cancel(inserted) => Only(worker.batch, inserted)
      case _ => []
  }

  /** What a consumer's call puts into `dead_letter`. */
  function WorkerBuries(worker: Worker, a: WorkAct): seq<Entry> {
    if !worker.Pushing? then []
    else match a
      case PushReturns(lost) => OnlyEntries(worker.pending, EntryIds(worker.pending) - lost)
      case PushRaises(inserted) => OnlyEntries(worker.pending, inserted)
      case Cancel(inserted) => OnlyEntries(worker.pending, inserted)
      case _ => []
  }

  /** `finally: task_done()` once per event of the batch, then on to `next`. */
  function Release(p: Pool, w: nat, next: Worker): Pool
    requires w < |p.workers|
  {
    p.(workers := p.workers[w := next], unfinished := p.unfinished - |BatchOf(p.workers[w])|)
  }

  /** The batch is counted as processed. */
  function CountProcessed(p: Pool, batch: seq<Event>): Pool {
    p.(processed := p.processed + batch,
       eventsProcessed := p.eventsProcessed + |batch|,
       batchesProcessed := p.batchesProcessed + 1)
  }

  function TakeBatch(c: Config, p: Pool, w: nat): Pool
    requires w < |p.workers|
  {
    var batch := p.queue[..TakeSize(c, p)];
    var p' := p.(queue := p.queue[TakeSize(c, p)..], taken := p.taken + batch);
    if c.maxRetries < 0 then
      // The attempt loop has no iteration: nothing is written and no error is remembered.
      CountProcessed(p', batch).(unfinished := p.unfinished - |batch|)
    else p'.(workers := p.workers[w := Writing(batch, 0)])
  }

  /** A failed attempt: back off, or after the last one start the dead-letter push. */
  function FailAttempt(c: Config, p: Pool, w: nat, reason: string, now: int): Pool
    requires w < |p.workers| && p.workers[w].Writing?
  {
    var batch, attempt := p.workers[w].batch, p.workers[w].attempt;
    if attempt >= c.maxRetries then
      p.(workers := p.workers[w := Pushing(batch, p.buffer + Entries(batch, reason, now))],
         recorded := p.recorded + batch,
         recordedCount := p.recordedCount + |batch|)
    else
      p.(workers := p.workers[w := Backoff(batch, attempt)], retries := p.retries + 1)
  }

  /** What a consumer does in memory once its await is over. */
  function Resume(c: Config, p: Pool, w: nat, a: WorkAct): Pool
    requires w < |p.workers| && Awaits(p.workers[w], a)
  {
    match a
    case Take => TakeBatch(c, p, w)
    case IdleExit => p.(workers := p.workers[w := Exited])
    case WriteReturns(_) => CountProcessed(Release(p, w, Idle), p.workers[w].batch)
    case WriteRaises(_, reason, now) => FailAttempt(c, p, w, reason, now)
    case WakeUp => p.(workers := p.workers[w := Writing(p.workers[w].batch, p.workers[w].attempt + 1)])
    case PushReturns(_) => Release(p, w, Idle).(buffer := [])
    case PushRaises(_) => Release(p, w, Idle).(buffer := p.workers[w].pending)
    case Cancel(_) =>
      Release(p, w, Exited).(dropped := if p.workers[w].Pushing? then p.dropped else p.dropped + BatchOf(p.workers[w]))
  }

  /** The ids a step's push was about. */
  function Pushed(worker: Worker, a: WorkAct): set<EventId> {
    if worker.Pushing? && (a.PushReturns? || a.PushRaises? || a.Cancel?) then EntryIds(worker.pending) else {}
  }

  function ApplyWork(c: Config, s: State, w: nat, a: WorkAct): State
    requires WorkEnabled(s.phase, s.pool, w, a)
  {
    var deadLetters := Persist(s.deadLetters, WorkerBuries(s.pool.workers[w], a));
    s.(pool := Resume(c, s.pool, w, a),
       events := InsertAll(s.events, WorkerWrites(s.pool.workers[w], a)),
       deadLetters := deadLetters,
       persisted := s.persisted + Pushed(s.pool.workers[w], a) * deadLetters.Keys)
  }

  // ---------------------------------------------------------------------------
  // Dead-letter replay requests
  // ---------------------------------------------------------------------------

  predicate RedriveEnabled(s: State, r: nat, a: ReplayAct) {
    match a
    case Get(_) => r !in s.replays
    case RewriteReturns(_) => r in s.replays && s.replays[r].Rewriting?
    case RewriteRaises(_) => r in s.replays && s.replays[r].Rewriting?
    case DeleteReturns => r in s.replays && s.replays[r].Deleting?
    case DeleteRaises(_) => r in s.replays && s.replays[r].Deleting?
  }

  /** What a replay request puts into `events`. */
  function ReplayWrites(s: State, r: nat, a: ReplayAct): seq<Event> {
    if (r in s.replays && s.replays[r].Rewriting?) && ((a.RewriteReturns? && !a.lostIt) || (a.RewriteRaises? && a.insertedIt))
    then [s.replays[r].event] else []
  }

  /** The dead-letter records a replay request removes. */
  function ReplayDeletes(s: State, r: nat, a: ReplayAct): set<EventId> {
    if (r in s.replays && s.replays[r].Deleting?) && (a.DeleteReturns? || (a.DeleteRaises? && a.deletedIt))
    then {s.replays[r].id} else {}
  }

  function ReplaysAfter(s: State, r: nat, a: ReplayAct): map<nat, Replay>
    requires RedriveEnabled(s, r, a)
  {
    match a
    case Get(id) =>
      // Without a record the request is answered with 404.
      if id in s.deadLetters then s.replays[r := Rewriting(id, s.deadLetters[id].event)] else s.replays
    case RewriteReturns(_) => s.replays[r := Deleting(s.replays[r].id)]
    case _ => s.replays - {r}
  }

  function ApplyRedrive(s: State, r: nat, a: ReplayAct): State
    requires RedriveEnabled(s, r, a)
  {
    s.(events := InsertAll(s.events, ReplayWrites(s, r, a)),
       deadLetters := s.deadLetters - ReplayDeletes(s, r, a),
       replays := ReplaysAfter(s, r, a))
  }

  // ---------------------------------------------------------------------------
  // The outbox indexer
  // ---------------------------------------------------------------------------

  ghost predicate IndexEnabled(c: Config, s: State, a: IndexAct) {
    match a
    case Fetch(docs) => s.mirror.indexer.Resting? && IsFetch(s.events, c.batchSize, docs)
    case FetchRaises => s.mirror.indexer.Resting?
    case BulkReturns(_) => s.mirror.indexer.Fetched?
    case BulkRaises(_) => s.mirror.indexer.Fetched?
    case MarkReturns => s.mirror.indexer.Indexed?
    case MarkRaises(_) => s.mirror.indexer.Indexed?
  }

  /** The markers an indexer step sets. */
  function Marks(x: Indexer, a: IndexAct): set<EventId> {
    if !x.Indexed? then {}
    else match a
      case MarkReturns => Ids(x.docs)
      case MarkRaises(marked) => Ids(x.docs) * marked
      case _ => {}
  }

  function GiveUp(m: MirrorSide): MirrorSide {
    m.(indexer := Resting, indexFailures := m.indexFailures + 1)
  }

  /** `_index_pending` between two awaits, and the failure branch of `_run`. */
  function IndexPass(m: MirrorSide, a: IndexAct): MirrorSide
    requires a.Fetch? || a.FetchRaises? || !m.indexer.Resting?
  {
    match a
    case Fetch(docs) => if docs == [] then m else m.(indexer := Fetched(docs))
    case FetchRaises => GiveUp(m)
    case BulkReturns(refused) =>
      var docs := m.indexer.docs;
      m.(es := IndexOnly(m.es, docs, Ids(docs) - refused),
         rejected := m.rejected + Ids(docs) * refused,
         indexer := Indexed(docs))
    case BulkRaises(indexed) => GiveUp(m).(es := IndexOnly(m.es, m.indexer.docs, indexed))
    case MarkReturns => m.(indexer := Resting, eventsIndexed := m.eventsIndexed + |m.indexer.docs|)
    case MarkRaises(_) => GiveUp(m)
  }

  // ---------------------------------------------------------------------------
  // Steps and runs
  // ---------------------------------------------------------------------------

  ghost predicate Enabled(c: Config, s: State, step: Step) {
    match step
    case Ingest(a) => IngestEnabled(c, s, a)
    case Work(w, a) => WorkEnabled(s.phase, s.pool, w, a)
    case Shutdown(a) => ShutdownEnabled(s, a)
    case Redrive(r, a) => RedriveEnabled(s, r, a)
    case Index(a) => IndexEnabled(c, s, a)
  }

  ghost function Apply(c: Config, s: State, step: Step): State
    requires Enabled(c, s, step)
  {
    match step
    case Ingest(a) => s.(pool := Intake(s.pool, a))
    case Work(w, a) => ApplyWork(c, s, w, a)
    case Shutdown(a) => s.(phase := NextPhase(a))
    case Redrive(r, a) => ApplyRedrive(s, r, a)
    case Index(a) => s.(mirror := IndexPass(s.mirror, a), events := Mark(s.events, Marks(s.mirror.indexer, a)))
  }

  /** The stores a process may find at startup: documents under their own ids, ES a mirror of Mongo. */
  ghost predicate StoresOk(s: State) {
    && WellKeyed(s.events)
    && (forall id :: id in s.deadLetters ==> s.deadLetters[id].event.id == id)
    && (forall id :: id in s.mirror.es ==> id in s.events && s.mirror.es[id] == ToEs(s.events[id].event))
    && (forall id :: id in s.events && s.events[id].esIndexed ==> id in s.mirror.es || id in s.mirror.rejected)
  }

  function EmptyPool(c: Config): Pool {
    Pool([], 0, seq(c.concurrency, _ => Idle), [], 0, 0, 0, 0, [], [], [], [], [])
  }

  /** A new process over the stores of `s`. */
  function Fresh(c: Config, s: State): State {
    State(Open, EmptyPool(c), s.events, s.deadLetters, {}, map[],
          MirrorSide(s.mirror.es, Resting, s.mirror.rejected, 0, 0))
  }

  /** A process that has just started, over any stores an earlier one may have left. */
  ghost predicate Init(c: Config, s: State) {
    StoresOk(s) && s == Fresh(c, s)
  }

  /** `steps` leads from `s` to `s'`, each step being possible where it is taken. */
  ghost predicate Run(c: Config, s: State, steps: seq<Step>, s': State)
    decreases |steps|
  {
    if steps == [] then s == s'
    else Enabled(c, s, steps[0]) && Run(c, Apply(c, s, steps[0]), steps[1..], s')
  }

  /** Stored documents are never removed or rewritten, and no marker is cleared. */
  lemma EventsGrow(c: Config, s: State, step: Step)
    requires Enabled(c, s, step)
    ensures Grows(s.events, Apply(c, s, step).events)
  {
    match step
    case Work(w, a) => InsertAllSpec(s.events, WorkerWrites(s.pool.workers[w], a));
    case Redrive(r, a) => InsertAllSpec(s.events, ReplayWrites(s, r, a));
    case _ =>
  }

  lemma {:induction false} RunCons(c: Config, s: State, step: Step, rest: seq<Step>, s': State)
    requires Enabled(c, s, step) && Run(c, Apply(c, s, step), rest, s')
    ensures Run(c, s, [step] + rest, s')
  {
    hide Apply, Enabled;
    assert ([step] + rest)[1..] == rest;
  }

  lemma {:induction false} RunThen(c: Config, s: State, first: seq<Step>, mid: State, rest: seq<Step>, s': State)
    requires Run(c, s, first, mid) && Run(c, mid, rest, s')
    ensures Run(c, s, first + rest, s')
    decreases |first|
  {
    hide Apply, Enabled;
    if first == [] {
      assert first + rest == rest;
    } else {
      RunThen(c, Apply(c, s, first[0]), first[1..], mid, rest, s');
      assert (first + rest)[1..] == first[1..] + rest;
    }
  }
}
