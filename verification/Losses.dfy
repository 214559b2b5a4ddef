/** The ways the pipeline does lose an accepted event, for every state in which they apply. */
module Losses {
  import opened Events
  import opened Mongo
  import opened Elastic
  import opened Pipeline
  import opened Conservation
  import opened Delivery

  /**
   * A push that fails while another one is in its window puts its entries into the buffer, and the
   * other push then overwrites the buffer from its older snapshot, whether it succeeds or fails.
   * Every id of the failed push that nothing else holds is gone.
   */
  lemma OverlappingPushesLose(c: Config, s: State, w: nat, v: nat, a: WorkAct, id: EventId)
    requires w != v && w < |s.pool.workers| && v < |s.pool.workers|
    requires s.pool.workers[w].Pushing? && s.pool.workers[v].Pushing?
    requires a == PushReturns({}) || a == PushRaises({})
    requires id in Ids(s.pool.workers[w].batch) && id !in EntryIds(s.pool.workers[v].pending)
    requires id !in Ids(s.pool.queue) && id !in HeldByOthers(s.pool.workers, w) && id !in Durable(s)
    ensures var mid := ApplyWork(c, s, w, PushRaises({}));
      WorkEnabled(mid.phase, mid.pool, v, a) && id !in Homes(ApplyWork(c, mid, v, a))
  {
    hide HeldIds, Ids, EntryIds, Persist, InsertAll, WorkerWrites, WorkerBuries, Pushed;
    var mid := ApplyWork(c, s, w, PushRaises({}));
    var end := ApplyWork(c, mid, v, a);
    PersistSpec(s.deadLetters, WorkerBuries(s.pool.workers[w], PushRaises({})));
    BuriesSpec(s.pool.workers[w], PushRaises({}));
    InsertAllSpec(s.events, WorkerWrites(s.pool.workers[w], PushRaises({})));
    WritesSpec(s.pool.workers[w], PushRaises({}));
    PersistSpec(mid.deadLetters, WorkerBuries(s.pool.workers[v], a));
    BuriesSpec(s.pool.workers[v], a);
    InsertAllSpec(mid.events, WorkerWrites(s.pool.workers[v], a));
    WritesSpec(s.pool.workers[v], a);
    HeldUpdate(mid.pool.workers, v, Idle);
    HeldSplit(mid.pool.workers, v);
    NoIds();
  }

  /** With a negative `max_retries` every batch is counted as processed and written nowhere. */
  lemma NegativeRetriesLose(c: Config, s: State, w: nat, id: EventId)
    requires c.maxRetries < 0 && WorkEnabled(s.phase, s.pool, w, Take)
    requires id in Ids(s.pool.queue[..TakeSize(c, s.pool)])
    requires id !in Ids(s.pool.queue[TakeSize(c, s.pool)..]) && id !in HeldIds(s.pool.workers)
    requires id !in EntryIds(s.pool.buffer) && id !in Durable(s)
    ensures id !in Homes(ApplyWork(c, s, w, Take))
    ensures ApplyWork(c, s, w, Take).pool.eventsProcessed == s.pool.eventsProcessed + TakeSize(c, s.pool)
  {
    hide HeldIds, Ids, EntryIds, Persist, InsertAll, InMemory;
    MemoryAfterTake(c, s.pool, w);
    WorkLosesExactly(c, s, w, Take);
  }

  // ---------------------------------------------------------------------------
  // A reachable loss
  // ---------------------------------------------------------------------------

  function Sample(id: EventId): Event {
    Event(id, 0, "page_view", 0, "u", "https://example.test", Null, 1)
  }

  function EmptyStart(c: Config): State {
    State(Open, EmptyPool(c), map[], map[], {}, map[], MirrorSide(map[], Resting, {}, 0, 0))
  }

  /** Two workers whose pushes are both under way, each with one event, over empty stores. */
  function BothPushing(c: Config): State {
    var x, y := Sample("a"), Sample("b");
    EmptyStart(c).(pool := EmptyPool(c).(
      unfinished := 2,
      workers := [Pushing([x], [Entry(x, "down", 0)]), Pushing([y], [Entry(y, "down", 0)])],
      recordedCount := 2, accepted := [x, y], taken := [x, y], recorded := [x, y]))
  }

  function TwoFailedBatches(): seq<Step> {
    [Ingest(Accept(Sample("a"))), Ingest(Accept(Sample("b"))), Work(0, Take), Work(1, Take),
     Work(0, WriteRaises({}, "down", 0)), Work(1, WriteRaises({}, "down", 0))]
  }

  /** The pool after each of those steps. */
  function Trail(c: Config): (r: seq<Pool>)
    ensures |r| == 6
  {
    var x, y := Sample("a"), Sample("b");
    var p1 := EmptyPool(c).(queue := [x], unfinished := 1, accepted := [x]);
    var p2 := p1.(queue := [x, y], unfinished := 2, accepted := [x, y]);
    var p3 := p2.(queue := [y], taken := [x], workers := [Writing([x], 0), Idle]);
    var p4 := p3.(queue := [], taken := [x, y], workers := [Writing([x], 0), Writing([y], 0)]);
    var p5 := p4.(workers := [Pushing([x], [Entry(x, "down", 0)]), Writing([y], 0)], recorded := [x], recordedCount := 1);
    [p1, p2, p3, p4, p5, BothPushing(c).pool]
  }

  lemma TrailTakes(c: Config)
    requires c == Config(10, 1, 2, 0)
    ensures var t := Trail(c);
      && Intake(EmptyPool(c), Accept(Sample("a"))) == t[0] && Intake(t[0], Accept(Sample("b"))) == t[1]
      && t[1].workers == [Idle, Idle] && Resume(c, t[1], 0, Take) == t[2]
      && Resume(c, t[2], 1, Take) == t[3]
  {
    var t, x, y := Trail(c), Sample("a"), Sample("b");
    assert EmptyPool(c).workers == [Idle, Idle];
    assert [x] + [y] == [x, y];
    assert t[1].queue[..1] == [x] && t[1].queue[1..] == [y];
    assert t[2].queue[..1] == [y] && t[2].queue[1..] == [];
    assert [Idle, Idle][0 := Writing([x], 0)] == [Writing([x], 0), Idle];
    assert [x] + [y] == [x, y];
  }

  lemma TrailFails(c: Config)
    requires c == Config(10, 1, 2, 0)
    ensures var t := Trail(c);
      && Resume(c, t[3], 0, WriteRaises({}, "down", 0)) == t[4]
      && Resume(c, t[4], 1, WriteRaises({}, "down", 0)) == t[5]
  {
    var t, x, y := Trail(c), Sample("a"), Sample("b");
    assert [] + Entries([x], "down", 0) == [Entry(x, "down", 0)];
    assert [] + Entries([y], "down", 0) == [Entry(y, "down", 0)];
    assert [x] + [y] == [x, y];
  }

  /** A take, or a failed write that inserted nothing, leaves the stores alone. */
  lemma QuietWork(c: Config, s: State, w: nat, a: WorkAct)
    requires WorkEnabled(s.phase, s.pool, w, a)
    requires a.Take? || (a.WriteRaises? && a.inserted == {} && |s.pool.workers[w].batch| == 1)
    ensures ApplyWork(c, s, w, a) == s.(pool := Resume(c, s.pool, w, a))
  {
    hide Resume;
    if a.WriteRaises? {
      var batch := s.pool.workers[w].batch;
      assert Only(batch[1..], {}) == [];
      assert Only(batch, {}) == [];
    }
  }

  /** The process after step `k` of the trail; the stores stay empty. */
  function After(c: Config, k: nat): State
    requires k < 6
  {
    EmptyStart(c).(pool := Trail(c)[k])
  }

  lemma {:induction false} BothFail(c: Config)
    requires c == Config(10, 1, 2, 0)
    ensures Run(c, After(c, 3), TwoFailedBatches()[4..], BothPushing(c))
  {
    hide Resume, ApplyWork;
    var steps := TwoFailedBatches();
    TrailFails(c);
    QuietWork(c, After(c, 4), 1, WriteRaises({}, "down", 0));
    RunCons(c, After(c, 4), steps[5], [], BothPushing(c));
    QuietWork(c, After(c, 3), 0, WriteRaises({}, "down", 0));
    RunCons(c, After(c, 3), steps[4], [steps[5]], BothPushing(c));
    assert steps[4..] == [steps[4]] + [steps[5]];
  }

  lemma {:induction false} BothTake(c: Config)
    requires c == Config(10, 1, 2, 0)
    ensures Run(c, After(c, 1), TwoFailedBatches()[2..], BothPushing(c))
  {
    hide Resume, ApplyWork, Run;
    var steps := TwoFailedBatches();
    TrailTakes(c);
    BothFail(c);
    QuietWork(c, After(c, 2), 1, Take);
    RunCons(c, After(c, 2), steps[3], steps[4..], BothPushing(c));
    assert steps[3..] == [steps[3]] + steps[4..];
    QuietWork(c, After(c, 1), 0, Take);
    RunCons(c, After(c, 1), steps[2], steps[3..], BothPushing(c));
    assert steps[2..] == [steps[2]] + steps[3..];
  }

  lemma {:induction false} BothPushingIsReachable(c: Config)
    requires c == Config(10, 1, 2, 0)
    ensures Init(c, EmptyStart(c)) && Run(c, EmptyStart(c), TwoFailedBatches(), BothPushing(c))
  {
    hide Intake, Run;
    var steps := TwoFailedBatches();
    TrailTakes(c);
    BothTake(c);
    RunCons(c, After(c, 0), steps[1], steps[2..], BothPushing(c));
    assert steps[1..] == [steps[1]] + steps[2..];
    RunCons(c, EmptyStart(c), steps[0], steps[1..], BothPushing(c));
    assert steps == [steps[0]] + steps[1..];
  }

  /** Of the two events, only the first worker holds the first one. */
  lemma OnlyOneHolds(c: Config)
    ensures var ws := BothPushing(c).pool.workers;
      "a" in Ids(ws[0].batch) && "a" !in EntryIds(ws[1].pending) && "a" !in HeldByOthers(ws, 0)
  {
    var ws := BothPushing(c).pool.workers;
    assert ws[0].batch[0].id == "a" && ws[0].batch[0] in ws[0].batch;
    var others := ws[0 := Idle];
    forall id | id in HeldByOthers(ws, 0) ensures id == "b" {
      var i, e :| 0 <= i < |others| && e in BatchOf(others[i]) && e.id == id;
    }
  }

  /** The two pushes end: the first raises having persisted nothing, the second returns. */
  lemma ThenOneIsLost(c: Config) returns (s': State)
    ensures Run(c, BothPushing(c), [Work(0, PushRaises({})), Work(1, PushReturns({}))], s')
    ensures !Conserved(s')
  {
    hide Homes, HeldByOthers, EntryIds, Resume;
    var s := BothPushing(c);
    OnlyOneHolds(c);
    NoIds();
    OverlappingPushesLose(c, s, 0, 1, PushReturns({}), "a");
    var mid := ApplyWork(c, s, 0, PushRaises({}));
    s' := ApplyWork(c, mid, 1, PushReturns({}));
    ResumeKeepsAccepted(c, s.pool, 0, PushRaises({}));
    ResumeKeepsAccepted(c, mid.pool, 1, PushReturns({}));
    assert s.pool.accepted[0].id in Ids(s.pool.accepted);
    hide ApplyWork;
    RunCons(c, mid, Work(1, PushReturns({})), [], s');
    RunCons(c, s, Work(0, PushRaises({})), [Work(1, PushReturns({}))], s');
  }

  /**
   * From an empty start, with two workers, an accepted event ends up nowhere although no write error
   * was swallowed, nothing timed out and nothing was cancelled: one push fails inside the window of
   * another that succeeds.
   */
  lemma AnAcceptedEventCanVanish(c: Config) returns (s': State)
    requires c == Config(10, 1, 2, 0)
    ensures Init(c, EmptyStart(c))
    ensures Run(c, EmptyStart(c), TwoFailedBatches() + [Work(0, PushRaises({})), Work(1, PushReturns({}))], s')
    ensures !Conserved(s')
  {
    hide Run, Conserved;
    BothPushingIsReachable(c);
    s' := ThenOneIsLost(c);
    RunThen(c, EmptyStart(c), TwoFailedBatches(), BothPushing(c), [Work(0, PushRaises({})), Work(1, PushReturns({}))], s');
  }
}
