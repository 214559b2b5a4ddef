/** Every event the pipeline holds or stores was accepted, or was in the stores when the process started. */
module Provenance {
  import opened Events
  import opened Mongo
  import opened Pipeline

  ghost predicate AllFrom(events: seq<Event>, known: iset<Event>) {
    forall e :: e in events ==> e in known
  }

  ghost predicate EntriesFrom(entries: seq<Entry>, known: iset<Event>) {
    forall x :: x in entries ==> x.event in known
  }

  ghost predicate WorkerFrom(w: Worker, known: iset<Event>) {
    AllFrom(BatchOf(w), known) && (w.Pushing? ==> EntriesFrom(w.pending, known))
  }

  ghost predicate PoolFrom(p: Pool, known: iset<Event>) {
    && AllFrom(p.accepted, known) && AllFrom(p.queue, known) && EntriesFrom(p.buffer, known)
    && forall w :: 0 <= w < |p.workers| ==> WorkerFrom(p.workers[w], known)
  }

  ghost predicate StoresFrom(s: State, known: iset<Event>) {
    && (forall id :: id in s.events ==> s.events[id].event in known)
    && (forall id :: id in s.deadLetters ==> s.deadLetters[id].event in known)
    && (forall r :: r in s.replays && s.replays[r].Rewriting? ==> s.replays[r].event in known)
  }

  ghost predicate Sourced(s: State, known: iset<Event>) {
    PoolFrom(s.pool, known) && StoresFrom(s, known)
  }

  /** Every event the run accepts is in `known`. */
  ghost predicate AcceptsOnly(steps: seq<Step>, known: iset<Event>) {
    forall i :: 0 <= i < |steps| && steps[i].Ingest? && steps[i].ingest.Accept? ==> steps[i].ingest.e in known
  }

  lemma ResumeKeepsSource(c: Config, p: Pool, w: nat, a: WorkAct, known: iset<Event>)
    requires PoolFrom(p, known) && w < |p.workers| && Awaits(p.workers[w], a)
    ensures PoolFrom(Resume(c, p, w, a), known)
  {
    assert WorkerFrom(p.workers[w], known);
    var p' := Resume(c, p, w, a);
    if a.Take? {
      assert AllFrom(p.queue[..TakeSize(c, p)], known) && AllFrom(p.queue[TakeSize(c, p)..], known);
    }
    if a.WriteRaises? {
      var entries := Entries(p.workers[w].batch, a.reason, a.now);
      assert EntriesFrom(entries, known);
      assert EntriesFrom(p.buffer + entries, known);
    }
    assert WorkerFrom(p'.workers[w], known);
    forall v | 0 <= v < |p'.workers| ensures WorkerFrom(p'.workers[v], known) {
      if v != w {
        assert WorkerFrom(p.workers[v], known);
      }
    }
  }

  lemma WorkStoresKeepSource(c: Config, s: State, w: nat, a: WorkAct, known: iset<Event>)
    requires Sourced(s, known) && WorkEnabled(s.phase, s.pool, w, a)
    ensures StoresFrom(ApplyWork(c, s, w, a), known)
  {
    hide InsertAll, Persist, Resume, Only, OnlyEntries, Ids, EntryIds;
    var worker := s.pool.workers[w];
    assert WorkerFrom(worker, known);
    InsertAllSpec(s.events, WorkerWrites(worker, a));
    PersistSpec(s.deadLetters, WorkerBuries(worker, a));
    if worker.Writing? {
      match a
      case WriteReturns(lost) => OnlySpec(worker.batch, Ids(worker.batch) - lost);
      case WriteRaises(inserted, _, _) => OnlySpec(worker.batch, inserted);
      case Cancel(inserted) => OnlySpec(worker.batch, inserted);
    }
    if worker.Pushing? {
      match a
      case PushReturns(lost) => OnlyEntriesSpec(worker.pending, EntryIds(worker.pending) - lost);
      case PushRaises(inserted) => OnlyEntriesSpec(worker.pending, inserted);
      case Cancel(inserted) => OnlyEntriesSpec(worker.pending, inserted);
    }
  }

  lemma SourceStep(c: Config, s: State, step: Step, known: iset<Event>)
    requires Sourced(s, known) && Enabled(c, s, step)
    requires step.Ingest? && step.ingest.Accept? ==> step.ingest.e in known
    ensures Sourced(Apply(c, s, step), known)
  {
    hide InsertAll, Persist, Resume, WorkerWrites, WorkerBuries, Pushed, IndexPass, Ids;
    match step
    case Work(w, a) =>
      ResumeKeepsSource(c, s.pool, w, a, known);
      WorkStoresKeepSource(c, s, w, a, known);
    case Redrive(r, a) => InsertAllSpec(s.events, ReplayWrites(s, r, a));
    case _ =>
  }

  /** Nothing is invented: documents, records, buffers and batches only ever hold known events. */
  lemma {:induction false} NothingInvented(c: Config, s: State, steps: seq<Step>, s': State, known: iset<Event>)
    requires Sourced(s, known) && Run(c, s, steps, s') && AcceptsOnly(steps, known)
    ensures Sourced(s', known)
    decreases |steps|
  {
    hide Sourced, Apply, Enabled;
    if steps != [] {
      assert steps[0].Ingest? && steps[0].ingest.Accept? ==> steps[0].ingest.e in known;
      SourceStep(c, s, steps[0], known);
      NothingInvented(c, Apply(c, s, steps[0]), steps[1..], s', known);
    }
  }

  /** Over empty stores, every stored document is an accepted event under its own id. */
  lemma {:induction false} StoredWasAccepted(c: Config, s: State, steps: seq<Step>, s': State, known: iset<Event>)
    requires Init(c, s) && s.events == map[] && s.deadLetters == map[]
    requires Run(c, s, steps, s') && AcceptsOnly(steps, known)
    ensures forall id :: id in s'.events ==> s'.events[id].event in known
  {
    NothingInvented(c, s, steps, s', known);
  }
}
