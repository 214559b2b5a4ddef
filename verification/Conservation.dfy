/** Nothing accepted is lost: when exactly a step drops an id, and why disciplined runs never do. */
module Conservation {
  import opened Events
  import opened Mongo
  import opened Pipeline

  // ---------------------------------------------------------------------------
  // Where an accepted id may be
  // ---------------------------------------------------------------------------

  /** The ids in batches the workers hold. */
  function HeldIds(ws: seq<Worker>): set<EventId> {
    set i, e | 0 <= i < |ws| && e in BatchOf(ws[i]) :: e.id
  }

  /** The ids held by the workers other than `w`. */
  function HeldByOthers(ws: seq<Worker>, w: nat): set<EventId>
    requires w < |ws|
  {
    HeldIds(ws[w := Idle])
  }

  lemma HeldUpdate(ws: seq<Worker>, w: nat, x: Worker)
    requires w < |ws|
    ensures HeldIds(ws[w := x]) == HeldByOthers(ws, w) + Ids(BatchOf(x))
  {
    var ws', rest := ws[w := x], ws[w := Idle];
    forall id | id in HeldIds(ws') ensures id in HeldIds(rest) + Ids(BatchOf(x)) {
      var i, e :| 0 <= i < |ws'| && e in BatchOf(ws'[i]) && e.id == id;
      if i != w {
        assert e in BatchOf(rest[i]);
      }
    }
    forall id | id in HeldIds(rest) ensures id in HeldIds(ws') {
      var i, e :| 0 <= i < |rest| && e in BatchOf(rest[i]) && e.id == id;
      assert e in BatchOf(ws'[i]);
    }
    forall id | id in Ids(BatchOf(x)) ensures id in HeldIds(ws') {
      var e :| e in BatchOf(x) && e.id == id;
      assert e in BatchOf(ws'[w]);
    }
  }

  lemma HeldSplit(ws: seq<Worker>, w: nat)
    requires w < |ws|
    ensures HeldIds(ws) == HeldByOthers(ws, w) + Ids(BatchOf(ws[w]))
  {
    HeldUpdate(ws, w, ws[w]);
    assert ws[w := ws[w]] == ws;
  }

  function InMemory(p: Pool): set<EventId> {
    Ids(p.queue) + HeldIds(p.workers) + EntryIds(p.buffer)
  }

  function Durable(s: State): set<EventId> {
    s.events.Keys + s.deadLetters.Keys
  }

  function Homes(s: State): set<EventId> {
    InMemory(s.pool) + Durable(s)
  }

  /** Every accepted id is queued, in flight, stored, dead-lettered or buffered. */
  predicate Conserved(s: State) {
    Ids(s.pool.accepted) <= Homes(s)
  }

  // ---------------------------------------------------------------------------
  // What a step lets go of, judged before it is taken
  // ---------------------------------------------------------------------------

  /** The ids a consumer's step no longer holds in memory and does not store. */
  function LetGo(c: Config, p: Pool, w: nat, a: WorkAct): set<EventId>
    requires w < |p.workers| && Awaits(p.workers[w], a)
  {
    var batch := Ids(BatchOf(p.workers[w]));
    match a
    case Take => if c.maxRetries < 0 then Ids(p.queue[..TakeSize(c, p)]) else {}
    case WriteReturns(lost) => batch * lost
    case PushReturns(lost) => batch + EntryIds(p.buffer) - (EntryIds(p.workers[w].pending) - lost)
    case PushRaises(_) => batch + EntryIds(p.buffer) - EntryIds(p.workers[w].pending)
    case Cancel(inserted) =>
      if p.workers[w].Writing? then batch - inserted
      else if p.workers[w].Pushing? then batch - EntryIds(p.workers[w].pending) * inserted
      else batch
    case _ => {}
  }

  /** The places in memory a consumer's step does not touch. */
  function Untouched(c: Config, p: Pool, w: nat, a: WorkAct): set<EventId>
    requires w < |p.workers|
  {
    match a
    case Take => Ids(p.queue[TakeSize(c, p)..]) + HeldIds(p.workers) + EntryIds(p.buffer)
    case PushReturns(_) => Ids(p.queue) + HeldByOthers(p.workers, w)
    case PushRaises(_) => Ids(p.queue) + HeldByOthers(p.workers, w)
    case _ => Ids(p.queue) + HeldByOthers(p.workers, w) + EntryIds(p.buffer)
  }

  /** The accepted ids that lose their last home in this step. */
  ghost function Orphans(c: Config, s: State, step: Step): set<EventId>
    requires Enabled(c, s, step)
  {
    match step
    case Work(w, a) => (LetGo(c, s.pool, w, a) - Untouched(c, s.pool, w, a) - Durable(s)) * Ids(s.pool.accepted)
    case Redrive(r, a) => (ReplayDeletes(s, r, a) - InMemory(s.pool) - s.events.Keys) * Ids(s.pool.accepted)
    case _ => {}
  }

  // ---------------------------------------------------------------------------
  // Exactness
  // ---------------------------------------------------------------------------

  lemma WritesSpec(worker: Worker, a: WorkAct)
    requires Awaits(worker, a)
    ensures Ids(WorkerWrites(worker, a)) ==
      match a
      case WriteReturns(lost) => Ids(worker.batch) - lost
      case WriteRaises(inserted, _, _) => Ids(worker.batch) * inserted
      case Cancel(inserted) => if worker.Writing? then Ids(worker.batch) * inserted else {}
      case _ => {}
  {
    if worker.Writing? {
      match a
      case WriteReturns(lost) => OnlySpec(worker.batch, Ids(worker.batch) - lost);
      case WriteRaises(inserted, _, _) => OnlySpec(worker.batch, inserted);
      case Cancel(inserted) => OnlySpec(worker.batch, inserted);
    }
  }

  lemma BuriesSpec(worker: Worker, a: WorkAct)
    requires Awaits(worker, a)
    ensures EntryIds(WorkerBuries(worker, a)) ==
      match a
      case PushReturns(lost) => EntryIds(worker.pending) - lost
      case PushRaises(inserted) => EntryIds(worker.pending) * inserted
      case Cancel(inserted) => if worker.Pushing? then EntryIds(worker.pending) * inserted else {}
      case _ => {}
  {
    if worker.Pushing? {
      match a
      case PushReturns(lost) => OnlyEntriesSpec(worker.pending, EntryIds(worker.pending) - lost);
      case PushRaises(inserted) => OnlyEntriesSpec(worker.pending, inserted);
      case Cancel(inserted) => OnlyEntriesSpec(worker.pending, inserted);
    }
  }

  /** The ids in memory after a consumer's step: what it does not touch, plus what it still holds. */
  function StillHeld(c: Config, p: Pool, w: nat, a: WorkAct): set<EventId>
    requires w < |p.workers| && Awaits(p.workers[w], a)
  {
    match a
    case Take => if c.maxRetries < 0 then {} else Ids(p.queue[..TakeSize(c, p)])
    case WriteRaises(_, _, _) => Ids(p.workers[w].batch)
    case WakeUp => Ids(p.workers[w].batch)
    case PushRaises(_) => EntryIds(p.workers[w].pending)
    case _ => {}
  }

  lemma MemoryAfterTake(c: Config, p: Pool, w: nat)
    requires w < |p.workers| && p.workers[w].Idle?
    ensures InMemory(Resume(c, p, w, Take)) == Untouched(c, p, w, Take) + StillHeld(c, p, w, Take)
    ensures InMemory(p) == Untouched(c, p, w, Take) + Ids(p.queue[..TakeSize(c, p)])
  {
    hide HeldIds, Ids, EntryIds;
    var n := TakeSize(c, p);
    var batch := p.queue[..n];
    assert p.queue == batch + p.queue[n..];
    IdsAppend(batch, p.queue[n..]);
    HeldUpdate(p.workers, w, Writing(batch, 0));
    HeldSplit(p.workers, w);
    NoIds();
  }

  lemma MemoryAfter(c: Config, p: Pool, w: nat, a: WorkAct)
    requires w < |p.workers| && Awaits(p.workers[w], a) && !a.Take?
    ensures InMemory(Resume(c, p, w, a)) == Untouched(c, p, w, a) + StillHeld(c, p, w, a)
  {
    hide HeldIds, Ids, EntryIds, Entries;
    HeldUpdate(p.workers, w, Resume(c, p, w, a).workers[w]);
    HeldSplit(p.workers, w);
    NoIds();
  }

  /** A consumer's step takes their last home from exactly the ids it lets go and nothing else holds. */
  lemma WorkLosesExactly(c: Config, s: State, w: nat, a: WorkAct)
    requires WorkEnabled(s.phase, s.pool, w, a)
    ensures Homes(s) - Homes(ApplyWork(c, s, w, a))
         == LetGo(c, s.pool, w, a) - Untouched(c, s.pool, w, a) - Durable(s)
  {
    hide HeldIds, Ids, EntryIds, InMemory, Resume, InsertAll, Persist, WorkerWrites, WorkerBuries, TakeSize, HeldByOthers;
    var p, worker := s.pool, s.pool.workers[w];
    InsertAllSpec(s.events, WorkerWrites(worker, a));
    PersistSpec(s.deadLetters, WorkerBuries(worker, a));
    WritesSpec(worker, a);
    BuriesSpec(worker, a);
    if a.Take? {
      MemoryAfterTake(c, p, w);
    } else {
      MemoryAfter(c, p, w, a);
      MemoryBefore(p, w);
    }
  }

  lemma MemoryBefore(p: Pool, w: nat)
    requires w < |p.workers|
    ensures InMemory(p) == Ids(p.queue) + HeldByOthers(p.workers, w) + Ids(BatchOf(p.workers[w])) + EntryIds(p.buffer)
  {
    HeldSplit(p.workers, w);
  }

  /** Per step: what was conserved stays conserved if and only if the step has no orphans. */
  lemma StepConservesExactly(c: Config, s: State, step: Step)
    requires Conserved(s) && Enabled(c, s, step)
    ensures Conserved(Apply(c, s, step)) <==> Orphans(c, s, step) == {}
  {
    hide HeldIds, Ids, EntryIds, Resume, InsertAll, Persist, LetGo, Untouched, Awaits, ReplaysAfter;
    var s' := Apply(c, s, step);
    match step
    case Ingest(a) =>
      if a.Accept? {
        IdsAppend(s.pool.accepted, [a.e]);
        IdsAppend(s.pool.queue, [a.e]);
      }
    case Work(w, a) =>
      ResumeKeepsAccepted(c, s.pool, w, a);
      WorkLosesExactly(c, s, w, a);
      var lost := LetGo(c, s.pool, w, a) - Untouched(c, s.pool, w, a) - Durable(s);
      LossIsExact(Ids(s.pool.accepted), Homes(s), Homes(s'), lost);
    case Redrive(r, a) =>
      InsertAllSpec(s.events, ReplayWrites(s, r, a));
      ReplayWritesAreSafe(s, r, a);
      LossIsExact(Ids(s.pool.accepted), Homes(s), Homes(s'), ReplayDeletes(s, r, a) - InMemory(s.pool) - s.events.Keys);
    case _ =>
  }

  lemma LossIsExact(accepted: set<EventId>, before: set<EventId>, after: set<EventId>, lost: set<EventId>)
    requires accepted <= before
    requires before - after == lost * before
    ensures accepted <= after <==> lost * accepted == {}
  {
    forall id | id in accepted ensures id in after <==> id !in lost {
      assert id in before - after <==> id in lost * before;
    }
    if lost * accepted != {} {
      var id :| id in lost * accepted;
      assert id in accepted && id !in after;
    } else {
      forall id | id in accepted ensures id in after {
        assert id !in lost * accepted;
      }
    }
  }

  lemma ReplayWritesAreSafe(s: State, r: nat, a: ReplayAct)
    requires RedriveEnabled(s, r, a)
    ensures ReplayDeletes(s, r, a) != {} ==> ReplayWrites(s, r, a) == []
    ensures Ids([]) == {}
  {
  }

  lemma ResumeKeepsAccepted(c: Config, p: Pool, w: nat, a: WorkAct)
    requires w < |p.workers| && Awaits(p.workers[w], a)
    ensures Resume(c, p, w, a).accepted == p.accepted
  {
  }

  /** Conserved at every point of the run. */
  ghost predicate AlwaysConserved(c: Config, s: State, steps: seq<Step>)
    decreases |steps|
  {
    Conserved(s) &&
    (steps != [] && Enabled(c, s, steps[0]) ==> AlwaysConserved(c, Apply(c, s, steps[0]), steps[1..]))
  }

  /** No step of the run has an orphan. */
  ghost predicate NoOrphans(c: Config, s: State, steps: seq<Step>)
    decreases |steps|
  {
    steps != [] && Enabled(c, s, steps[0]) ==>
      Orphans(c, s, steps[0]) == {} && NoOrphans(c, Apply(c, s, steps[0]), steps[1..])
  }

  /** Over whole runs, and with no assumption on the environment: conservation is exactly the absence of orphans. */
  lemma {:induction false} ConservedExactlyWithoutOrphans(c: Config, s: State, steps: seq<Step>, s': State)
    requires Conserved(s) && Run(c, s, steps, s')
    ensures AlwaysConserved(c, s, steps) <==> NoOrphans(c, s, steps)
    decreases |steps|
  {
    hide Conserved, Orphans, Apply, Enabled;
    if steps != [] {
      StepConservesExactly(c, s, steps[0]);
      if Orphans(c, s, steps[0]) == {} {
        ConservedExactlyWithoutOrphans(c, Apply(c, s, steps[0]), steps[1..], s');
      } else {
        assert !Conserved(Apply(c, s, steps[0]));
        assert !AlwaysConserved(c, Apply(c, s, steps[0]), steps[1..]);
      }
    }
  }
}
