/**
 * Runs of the pipeline in which nothing accepted is lost.
 *
 * A run is clean when every bulk-write error that is swallowed is a duplicate-key error, no
 * dead-letter push fails while another one is between its snapshot and its assignment, and the
 * drain does not time out.
 */
module Delivery {
  import opened Events
  import opened Mongo
  import opened Pipeline
  import opened Accounting
  import opened Conservation

  /** No other worker is between the snapshot and the assignment of the DLQ buffer. */
  predicate AloneInWindow(ws: seq<Worker>, w: nat) {
    forall v :: 0 <= v < |ws| && v != w ==> !ws[v].Pushing?
  }

  predicate CleanWork(s: State, w: nat, a: WorkAct)
    requires w < |s.pool.workers| && Awaits(s.pool.workers[w], a)
  {
    match a
    case WriteReturns(lost) => Ids(s.pool.workers[w].batch) * lost <= s.events.Keys
    case PushReturns(lost) => EntryIds(s.pool.workers[w].pending) * lost <= s.deadLetters.Keys
    case PushRaises(_) => AloneInWindow(s.pool.workers, w)
    case _ => true
  }

  predicate CleanRedrive(s: State, r: nat, a: ReplayAct)
    requires RedriveEnabled(s, r, a)
  {
    a.RewriteReturns? && a.lostIt ==> s.replays[r].event.id in s.events
  }

  ghost predicate Clean(c: Config, s: State, step: Step)
    requires Enabled(c, s, step)
  {
    match step
    case Work(w, a) => CleanWork(s, w, a)
    case Redrive(r, a) => CleanRedrive(s, r, a)
    case Shutdown(a) => !a.JoinTimesOut?
    case _ => true
  }

  ghost predicate CleanRun(c: Config, s: State, steps: seq<Step>)
    decreases |steps|
  {
    steps != [] && Enabled(c, s, steps[0]) ==>
      Clean(c, s, steps[0]) && CleanRun(c, Apply(c, s, steps[0]), steps[1..])
  }

  // ---------------------------------------------------------------------------
  // Replays: a record is deleted only once its event is stored
  // ---------------------------------------------------------------------------

  ghost predicate ReplayOk(s: State, r: nat)
    requires r in s.replays
  {
    match s.replays[r]
    case Rewriting(id, event) => event.id == id
    case Deleting(id) => id in s.events
  }

  ghost predicate ReplaysOk(s: State) {
    && (forall id :: id in s.deadLetters ==> s.deadLetters[id].event.id == id)
    && (forall r :: r in s.replays ==> ReplayOk(s, r))
  }

  lemma ReplaysStep(c: Config, s: State, step: Step)
    requires ReplaysOk(s) && Enabled(c, s, step)
    requires step.Redrive? ==> CleanRedrive(s, step.r, step.replay)
    ensures ReplaysOk(Apply(c, s, step))
  {
    hide InsertAll, Persist, Resume, WorkerWrites, WorkerBuries, Pushed, IndexPass, Marks;
    var s' := Apply(c, s, step);
    match step
    case Work(w, a) =>
      InsertAllSpec(s.events, WorkerWrites(s.pool.workers[w], a));
      PersistSpec(s.deadLetters, WorkerBuries(s.pool.workers[w], a));
      assert forall r :: r in s'.replays ==> ReplayOk(s, r) && ReplayOk(s', r);
    case Redrive(r, a) => RedriveKeepsReplays(s, r, a);
    case _ =>
      assert forall r :: r in s'.replays ==> ReplayOk(s, r) && ReplayOk(s', r);
  }

  lemma RedriveKeepsReplays(s: State, r: nat, a: ReplayAct)
    requires ReplaysOk(s) && RedriveEnabled(s, r, a) && CleanRedrive(s, r, a)
    ensures ReplaysOk(ApplyRedrive(s, r, a))
  {
    hide InsertAll;
    var s' := ApplyRedrive(s, r, a);
    InsertAllSpec(s.events, ReplayWrites(s, r, a));
    forall q | q in s'.replays ensures ReplayOk(s', q) {
      if q != r {
        assert ReplayOk(s, q);
      } else if a.RewriteReturns? {
        assert ReplayOk(s, r);
        assert !a.lostIt ==> s.replays[r].event in ReplayWrites(s, r, a);
      }
    }
  }

  /** A step removes an id from the stores only by deleting the record of a replay that stored nothing. */
  lemma DurableGrows(c: Config, s: State, step: Step)
    requires ReplaysOk(s) && Enabled(c, s, step)
    ensures Durable(s) <= Durable(Apply(c, s, step))
  {
    hide InsertAll, Persist, Resume, WorkerWrites, WorkerBuries, Pushed, IndexPass, Marks, ReplaysAfter;
    match step
    case Work(w, a) =>
      InsertAllSpec(s.events, WorkerWrites(s.pool.workers[w], a));
      PersistSpec(s.deadLetters, WorkerBuries(s.pool.workers[w], a));
    case Redrive(r, a) =>
      InsertAllSpec(s.events, ReplayWrites(s, r, a));
      if r in s.replays {
        assert ReplayOk(s, r);
      }
    case _ =>
  }

  /** Every rewrite a replay reports as done really left its event in `events`. */
  ghost predicate HonestReplays(c: Config, s: State, steps: seq<Step>)
    decreases |steps|
  {
    steps != [] && Enabled(c, s, steps[0]) ==>
      && (steps[0].Redrive? ==> CleanRedrive(s, steps[0].r, steps[0].replay))
      && HonestReplays(c, Apply(c, s, steps[0]), steps[1..])
  }

  /**
   * Replay safety: under any interleaving of replays that fail at any step, with workers losing
   * writes, timeouts and cancellations around them, an id that is dead-lettered or stored stays so.
   */
  lemma {:induction false} ReplaySafety(c: Config, s: State, steps: seq<Step>, s': State)
    requires ReplaysOk(s) && Run(c, s, steps, s') && HonestReplays(c, s, steps)
    ensures ReplaysOk(s') && Durable(s) <= Durable(s')
    decreases |steps|
  {
    hide Apply, Enabled, ReplaysOk, Durable;
    if steps != [] {
      ReplaysStep(c, s, steps[0]);
      DurableGrows(c, s, steps[0]);
      ReplaySafety(c, Apply(c, s, steps[0]), steps[1..], s');
    }
  }

  /** A completed replay leaves the id in `events` and nowhere in `dead_letter`; it never touches a stored document. */
  lemma CompletedReplay(c: Config, s: State, r: nat, a: ReplayAct)
    requires ReplaysOk(s) && RedriveEnabled(s, r, a)
    ensures var s' := ApplyRedrive(s, r, a);
      && (a.DeleteReturns? ==> s.replays[r].id in s'.events && s'.events == s.events && s'.deadLetters == s.deadLetters - {s.replays[r].id})
      && (forall id :: id in s.events ==> id in s'.events && s'.events[id] == s.events[id])
      && (a.RewriteReturns? && !a.lostIt && s.replays[r].id !in s.events ==>
            s'.events == s.events[s.replays[r].id := Stored(s.replays[r].event, false)])
  {
    hide ReplaysAfter;
    InsertAllSpec(s.events, ReplayWrites(s, r, a));
    if !a.Get? {
      assert ReplayOk(s, r);
    }
    if a.RewriteReturns? && !a.lostIt {
      assert ReplayWrites(s, r, a) == [s.replays[r].event];
      assert InsertAll(s.events, [s.replays[r].event]) == Insert(s.events, s.replays[r].event);
    }
  }

  // ---------------------------------------------------------------------------
  // The dead-letter buffer under interleaving
  // ---------------------------------------------------------------------------

  /** A push in its window: its snapshot covers the batch and whatever the buffer holds that is not persisted. */
  ghost predicate WindowOk(s: State, w: nat)
    requires w < |s.pool.workers| && s.pool.workers[w].Pushing?
  {
    var pending := EntryIds(s.pool.workers[w].pending);
    && Ids(s.pool.workers[w].batch) <= pending
    && EntryIds(s.pool.buffer) <= pending + s.persisted
    && pending <= Ids(s.pool.recorded)
  }

  ghost predicate WindowsOk(s: State) {
    forall w :: 0 <= w < |s.pool.workers| && s.pool.workers[w].Pushing? ==> WindowOk(s, w)
  }

  /** The ids whose push is in its window. */
  function PushingIds(ws: seq<Worker>): set<EventId> {
    set i, e | 0 <= i < |ws| && ws[i].Pushing? && e in ws[i].batch :: e.id
  }

  /** Every recorded id is persisted, buffered or in a push under way, and nothing else is. */
  ghost predicate DlqExact(s: State) {
    Ids(s.pool.recorded) == s.persisted + EntryIds(s.pool.buffer) + PushingIds(s.pool.workers)
  }

  ghost predicate DlqInv(s: State) {
    WindowsOk(s) && DlqExact(s) && s.persisted <= Durable(s)
  }

  lemma PushingUpdate(ws: seq<Worker>, w: nat, x: Worker)
    requires w < |ws|
    ensures PushingIds(ws[w := x]) == PushingIds(ws[w := Idle]) + (if x.Pushing? then Ids(x.batch) else {})
  {
    var ws', rest := ws[w := x], ws[w := Idle];
    forall id | id in PushingIds(ws') ensures id in PushingIds(rest) + (if x.Pushing? then Ids(x.batch) else {}) {
      var i, e :| 0 <= i < |ws'| && ws'[i].Pushing? && e in ws'[i].batch && e.id == id;
      if i != w {
        assert rest[i].Pushing? && e in rest[i].batch;
      }
    }
    forall id | id in PushingIds(rest) ensures id in PushingIds(ws') {
      var i, e :| 0 <= i < |rest| && rest[i].Pushing? && e in rest[i].batch && e.id == id;
      assert ws'[i].Pushing? && e in ws'[i].batch;
    }
    if x.Pushing? {
      forall id | id in Ids(x.batch) ensures id in PushingIds(ws') {
        var e :| e in x.batch && e.id == id;
        assert ws'[w].Pushing? && e in ws'[w].batch;
      }
    }
  }

  lemma PushingSplit(ws: seq<Worker>, w: nat)
    requires w < |ws|
    ensures PushingIds(ws) == PushingIds(ws[w := Idle]) + (if ws[w].Pushing? then Ids(ws[w].batch) else {})
  {
    PushingUpdate(ws, w, ws[w]);
    assert ws[w := ws[w]] == ws;
  }

  lemma AloneMeansNoOtherIds(ws: seq<Worker>, w: nat)
    requires w < |ws| && AloneInWindow(ws, w)
    ensures PushingIds(ws[w := Idle]) == {}
  {
  }

  /** Starting a push: the snapshot is the buffer itself. */
  lemma PushStartKeepsDlq(c: Config, s: State, w: nat, a: WorkAct)
    requires DlqInv(s) && WorkEnabled(s.phase, s.pool, w, a) && a.WriteRaises?
    ensures WindowsOk(ApplyWork(c, s, w, a)) && DlqExact(ApplyWork(c, s, w, a))
  {
    hide InsertAll, Persist, Ids, EntryIds, PushingIds, Entries, WorkerWrites, WorkerBuries;
    var s' := ApplyWork(c, s, w, a);
    var worker, next := s.pool.workers[w], s'.pool.workers[w];
    assert s'.persisted == s.persisted;
    PushingUpdate(s.pool.workers, w, next);
    PushingSplit(s.pool.workers, w);
    IdsAppend(s.pool.recorded, worker.batch);
    EntriesSpec(worker.batch, a.reason, a.now);
    EntryIdsAppend(s.pool.buffer, Entries(worker.batch, a.reason, a.now));
    forall v | 0 <= v < |s'.pool.workers| && s'.pool.workers[v].Pushing? ensures WindowOk(s', v) {
      if v != w {
        assert WindowOk(s, v);
      }
    }
  }

  /** Ending a push, in either way a clean run allows. */
  lemma PushEndKeepsDlq(c: Config, s: State, w: nat, a: WorkAct)
    requires DlqInv(s) && WorkEnabled(s.phase, s.pool, w, a) && CleanWork(s, w, a)
    requires a.PushReturns? || a.PushRaises?
    ensures WindowsOk(ApplyWork(c, s, w, a)) && DlqExact(ApplyWork(c, s, w, a))
  {
    hide InsertAll, Persist, Ids, EntryIds, PushingIds, WorkerWrites, WorkerBuries;
    var s' := ApplyWork(c, s, w, a);
    var worker := s.pool.workers[w];
    assert WindowOk(s, w);
    PersistSpec(s.deadLetters, WorkerBuries(worker, a));
    BuriesSpec(worker, a);
    PushingUpdate(s.pool.workers, w, Idle);
    PushingSplit(s.pool.workers, w);
    NoIds();
    if a.PushReturns? {
      assert EntryIds(worker.pending) <= s'.persisted;
    } else {
      AloneMeansNoOtherIds(s.pool.workers, w);
    }
    forall v | 0 <= v < |s'.pool.workers| && s'.pool.workers[v].Pushing? ensures WindowOk(s', v) {
      assert v != w && s'.pool.workers[v] == s.pool.workers[v];
      assert WindowOk(s, v);
    }
  }

  /** Steps of a worker that is not pushing and does not start to. */
  lemma OtherWorkKeepsDlq(c: Config, s: State, w: nat, a: WorkAct)
    requires DlqInv(s) && WorkEnabled(s.phase, s.pool, w, a) && !s.pool.workers[w].Pushing? && !a.WriteRaises?
    ensures WindowsOk(ApplyWork(c, s, w, a)) && DlqExact(ApplyWork(c, s, w, a))
  {
    hide InsertAll, Persist, Ids, EntryIds, PushingIds, WorkerWrites, WorkerBuries, TakeSize;
    var s' := ApplyWork(c, s, w, a);
    assert s'.persisted == s.persisted && s'.pool.recorded == s.pool.recorded && s'.pool.buffer == s.pool.buffer;
    PushingUpdate(s.pool.workers, w, s'.pool.workers[w]);
    PushingSplit(s.pool.workers, w);
    assert s'.pool.workers == s.pool.workers[w := s'.pool.workers[w]];
    forall v | 0 <= v < |s'.pool.workers| && s'.pool.workers[v].Pushing? ensures WindowOk(s', v) {
      assert WindowOk(s, v);
    }
  }

  // ---------------------------------------------------------------------------
  // Shutdown
  // ---------------------------------------------------------------------------

  lemma BatchFits(p: Pool, w: nat)
    requires w < |p.workers|
    ensures |BatchOf(p.workers[w])| <= |Bag(p.workers, true)|
  {
    BagHolds(p.workers, w, true);
    var held := multiset(PartOf(p.workers[w], true));
    assert Bag(p.workers, true) == held + (Bag(p.workers, true) - held);
  }

  /** `join` returned: with balanced books, nothing is queued and no worker holds a batch. */
  lemma DrainedMeansQuiet(c: Config, p: Pool)
    requires Books(c, p) && Sizes(c, p) && p.unfinished == 0
    ensures p.queue == [] && Quiet(p)
  {
    forall i | 0 <= i < |p.workers| ensures p.workers[i].Idle? || p.workers[i].Exited? {
      BatchFits(p, i);
    }
  }

  predicate SomeoneExited(p: Pool) {
    exists w :: 0 <= w < |p.workers| && p.workers[w].Exited?
  }

  /** The drain did not time out; once it is over nothing is unfinished; nobody left a queued event behind. */
  ghost predicate DrainOk(s: State) {
    && !s.phase.TimedOut?
    && (s.phase.Joined? ==> s.pool.unfinished == 0)
    && (SomeoneExited(s.pool) ==> s.pool.queue == [] && (s.phase.Draining? || s.phase.Joined?))
  }

  lemma DrainStep(c: Config, s: State, step: Step)
    requires DrainOk(s) && Books(c, s.pool) && Sizes(c, s.pool) && Enabled(c, s, step) && Clean(c, s, step)
    ensures DrainOk(Apply(c, s, step))
  {
    hide InsertAll, Persist, Ids, EntryIds, WorkerWrites, WorkerBuries, Pushed, Entries, IndexPass, Marks, ReplaysAfter, Books, Sizes, ReplayWrites, ReplayDeletes;
    if step.Work? {
      WorkKeepsDrain(c, s, step.w, step.work);
    }
  }

  lemma WorkKeepsDrain(c: Config, s: State, w: nat, a: WorkAct)
    requires DrainOk(s) && Books(c, s.pool) && Sizes(c, s.pool) && WorkEnabled(s.phase, s.pool, w, a)
    ensures DrainOk(ApplyWork(c, s, w, a))
  {
    hide InsertAll, Persist, Ids, EntryIds, WorkerWrites, WorkerBuries, Pushed, Entries, Books, Sizes, TakeSize, BatchLimit;
    var p, p' := s.pool, Resume(c, s.pool, w, a);
    if s.phase.Joined? {
      DrainedMeansQuiet(c, p);
    }
    if SomeoneExited(p') {
      var v :| 0 <= v < |p'.workers| && p'.workers[v].Exited?;
      if v != w {
        assert p.workers[v].Exited?;
      }
    }
  }

  // ---------------------------------------------------------------------------
  // Clean runs
  // ---------------------------------------------------------------------------

  ghost predicate Orderly(c: Config, s: State) {
    Books(c, s.pool) && Sizes(c, s.pool) && ReplaysOk(s) && DlqInv(s) && DrainOk(s)
  }

  lemma InitIsOrderly(c: Config, s: State)
    requires Init(c, s)
    ensures Orderly(c, s) && Conserved(s)
  {
    InitBooks(c, s);
    assert PushingIds(s.pool.workers) == {};
  }

  lemma DlqStep(c: Config, s: State, step: Step)
    requires Orderly(c, s) && Enabled(c, s, step) && Clean(c, s, step)
    ensures DlqInv(Apply(c, s, step))
  {
    hide InsertAll, Persist, Ids, EntryIds, PushingIds, Resume, WorkerWrites, WorkerBuries, Pushed, IndexPass, Marks, ReplaysAfter, Books, Sizes, ReplaysOk, DrainOk;
    var s' := Apply(c, s, step);
    DurableGrows(c, s, step);
    if step.Work? {
      WorkKeepsDlq(c, s, step.w, step.work);
    } else {
      assert s'.pool.workers == s.pool.workers && s'.pool.buffer == s.pool.buffer;
      assert forall w :: 0 <= w < |s.pool.workers| && s.pool.workers[w].Pushing? ==> WindowOk(s, w) && WindowOk(s', w);
    }
  }

  lemma WorkKeepsDlq(c: Config, s: State, w: nat, a: WorkAct)
    requires Orderly(c, s) && WorkEnabled(s.phase, s.pool, w, a) && CleanWork(s, w, a)
    requires Durable(s) <= Durable(ApplyWork(c, s, w, a))
    ensures DlqInv(ApplyWork(c, s, w, a))
  {
    hide InsertAll, Persist, Ids, EntryIds, PushingIds, Resume, WorkerWrites, WorkerBuries, Books, Sizes, ReplaysOk, DlqExact, WindowsOk;
    if a.WriteRaises? {
      PushStartKeepsDlq(c, s, w, a);
    } else if a.PushReturns? || a.PushRaises? {
      PushEndKeepsDlq(c, s, w, a);
    } else {
      if s.pool.workers[w].Pushing? {
        DrainedMeansQuiet(c, s.pool);
      }
      OtherWorkKeepsDlq(c, s, w, a);
    }
  }

  lemma OrderlyStep(c: Config, s: State, step: Step)
    requires Orderly(c, s) && Enabled(c, s, step) && Clean(c, s, step)
    ensures Orderly(c, Apply(c, s, step))
  {
    hide Apply, Books, Sizes, ReplaysOk, DlqInv, DrainOk, Enabled;
    BooksStep(c, s, step);
    ReplaysStep(c, s, step) by {
      CleanImpliesCleanRedrive(c, s, step);
    }
    DlqStep(c, s, step);
    DrainStep(c, s, step);
  }

  lemma CleanImpliesCleanRedrive(c: Config, s: State, step: Step)
    requires Enabled(c, s, step) && Clean(c, s, step)
    ensures step.Redrive? ==> RedriveEnabled(s, step.r, step.replay) && CleanRedrive(s, step.r, step.replay)
  {
  }

  /** In an orderly state a clean step has no orphans. */
  lemma CleanMeansNoOrphans(c: Config, s: State, step: Step)
    requires c.maxRetries >= 0
    requires Orderly(c, s) && Enabled(c, s, step) && Clean(c, s, step)
    ensures Orphans(c, s, step) == {}
  {
    hide HeldIds, Ids, EntryIds, Books, Sizes, PushingIds, DlqExact, TakeSize, InMemory, HeldByOthers;
    match step
    case Work(w, a) =>
      if s.pool.workers[w].Pushing? {
        assert WindowOk(s, w);
      }
      if a.Cancel? {
        DrainedMeansQuiet(c, s.pool);
        NoIds();
      }
    case Redrive(r, a) =>
      if r in s.replays {
        assert ReplayOk(s, r);
      }
    case _ =>
  }

  lemma {:induction false} CleanRunsAreOrderly(c: Config, s: State, steps: seq<Step>, s': State)
    requires Orderly(c, s) && Run(c, s, steps, s') && CleanRun(c, s, steps)
    ensures Orderly(c, s')
    decreases |steps|
  {
    hide Orderly, Apply, Enabled, Clean;
    if steps != [] {
      OrderlyStep(c, s, steps[0]);
      CleanRunsAreOrderly(c, Apply(c, s, steps[0]), steps[1..], s');
    }
  }

  lemma {:induction false} CleanRunsConserve(c: Config, s: State, steps: seq<Step>, s': State)
    requires c.maxRetries >= 0
    requires Orderly(c, s) && Conserved(s) && Run(c, s, steps, s') && CleanRun(c, s, steps)
    ensures Conserved(s')
    decreases |steps|
  {
    hide Orderly, Apply, Enabled, Clean, Conserved, Orphans;
    if steps != [] {
      OrderlyStep(c, s, steps[0]);
      CleanMeansNoOrphans(c, s, steps[0]);
      StepConservesExactly(c, s, steps[0]);
      CleanRunsConserve(c, Apply(c, s, steps[0]), steps[1..], s');
    }
  }

  /** Conservation: in every clean run each accepted id is queued, in flight, stored, dead-lettered or buffered. */
  lemma {:induction false} NothingAcceptedIsLost(c: Config, s: State, steps: seq<Step>, s': State)
    requires c.maxRetries >= 0
    requires Init(c, s) && Run(c, s, steps, s') && CleanRun(c, s, steps)
    ensures Conserved(s')
  {
    InitIsOrderly(c, s);
    CleanRunsConserve(c, s, steps, s');
  }

  /**
   * The DLQ over clean runs: the recorded ids are exactly those persisted, buffered or in a push
   * under way; between pushes nothing is anywhere else; and what was persisted is still stored.
   */
  lemma {:induction false} DeadLettersAccountedFor(c: Config, s: State, steps: seq<Step>, s': State)
    requires Init(c, s) && Run(c, s, steps, s') && CleanRun(c, s, steps)
    ensures Ids(s'.pool.recorded) == s'.persisted + EntryIds(s'.pool.buffer) + PushingIds(s'.pool.workers)
    ensures Quiet(s'.pool) ==> Ids(s'.pool.recorded) == s'.persisted + EntryIds(s'.pool.buffer)
    ensures s'.persisted <= s'.events.Keys + s'.deadLetters.Keys
    ensures s'.pool.recordedCount == |s'.pool.recorded|
  {
    InitIsOrderly(c, s);
    CleanRunsAreOrderly(c, s, steps, s');
    if Quiet(s'.pool) {
      assert PushingIds(s'.pool.workers) == {};
    }
  }

  /**
   * Graceful drain: a worker only leaves once told to stop, an empty queue that stays empty, and once `join` has
   * returned every accepted id is in `events`, in `dead_letter` or in the DLQ buffer.
   */
  lemma {:induction false} GracefulDrain(c: Config, s: State, steps: seq<Step>, s': State)
    requires c.maxRetries >= 0
    requires Init(c, s) && Run(c, s, steps, s') && CleanRun(c, s, steps)
    ensures SomeoneExited(s'.pool) ==> s'.pool.queue == [] && (s'.phase.Draining? || s'.phase.Joined?)
    ensures s'.phase.Joined? ==>
      && s'.pool.queue == [] && Quiet(s'.pool)
      && Ids(s'.pool.accepted) <= s'.events.Keys + s'.deadLetters.Keys + EntryIds(s'.pool.buffer)
  {
    InitIsOrderly(c, s);
    CleanRunsAreOrderly(c, s, steps, s');
    NothingAcceptedIsLost(c, s, steps, s');
    if s'.phase.Joined? {
      DrainedMeansQuiet(c, s'.pool);
      assert HeldIds(s'.pool.workers) == {};
    }
  }
}
