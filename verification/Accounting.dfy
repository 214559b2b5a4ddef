/** Where every accepted event is counted, in every run and without any assumption on failures. */
module Accounting {
  import opened Events
  import opened Mongo
  import opened Pipeline
  import opened Arithmetic

  /** The part of a batch a worker holds; with `all` false, only what is not yet recorded as dead. */
  function PartOf(w: Worker, all: bool): seq<Event> {
    if w.Pushing? && !all then [] else BatchOf(w)
  }

  function Bag(ws: seq<Worker>, all: bool): multiset<Event> {
    if ws == [] then multiset{} else multiset(PartOf(ws[0], all)) + Bag(ws[1..], all)
  }

  /** Changing one worker moves exactly its part in or out of the bag. */
  lemma {:induction false} BagUpdate(ws: seq<Worker>, i: nat, x: Worker, all: bool)
    requires i < |ws|
    ensures Bag(ws[i := x], all) + multiset(PartOf(ws[i], all)) == Bag(ws, all) + multiset(PartOf(x, all))
    ensures |Bag(ws[i := x], all)| + |PartOf(ws[i], all)| == |Bag(ws, all)| + |PartOf(x, all)|
  {
    var ws' := ws[i := x];
    var was, now := multiset(PartOf(ws[i], all)), multiset(PartOf(x, all));
    assert Bag(ws', all) == multiset(PartOf(ws'[0], all)) + Bag(ws'[1..], all);
    if i == 0 {
      assert ws'[1..] == ws[1..];
      Exchange(Bag(ws[1..], all), was, now);
    } else {
      assert ws'[1..] == ws[1..][i - 1 := x];
      BagUpdate(ws[1..], i - 1, x, all);
      Shift(multiset(PartOf(ws[0], all)), Bag(ws'[1..], all), was, Bag(ws[1..], all), now);
    }
    assert |Bag(ws', all) + was| == |Bag(ws, all) + now|;
  }

  lemma Exchange(m: multiset<Event>, a: multiset<Event>, b: multiset<Event>)
    ensures (b + m) + a == (a + m) + b
  {
  }

  lemma Shift(m: multiset<Event>, x': multiset<Event>, a: multiset<Event>, x: multiset<Event>, b: multiset<Event>)
    requires x' + a == x + b
    ensures (m + x') + a == (m + x) + b
  {
    assert (m + x') + a == m + (x' + a);
  }

  lemma {:induction false} BagHolds(ws: seq<Worker>, i: nat, all: bool)
    requires i < |ws|
    ensures multiset(PartOf(ws[i], all)) <= Bag(ws, all)
  {
    if i != 0 {
      BagHolds(ws[1..], i - 1, all);
    }
  }

  lemma {:induction false} BagEmpty(ws: seq<Worker>, all: bool)
    requires forall i :: 0 <= i < |ws| ==> PartOf(ws[i], all) == []
    ensures Bag(ws, all) == multiset{}
  {
    if ws != [] {
      BagEmpty(ws[1..], all);
    }
  }

  lemma {:induction false} BagBounded(ws: seq<Worker>, limit: nat)
    requires forall i :: 0 <= i < |ws| ==> |BatchOf(ws[i])| <= limit
    ensures |Bag(ws, true)| <= limit * |ws|
  {
    if ws != [] {
      BagBounded(ws[1..], limit);
      var rest := Bag(ws[1..], true);
      assert |Bag(ws, true)| == |BatchOf(ws[0])| + |rest|;
      Spread(limit, |ws| - 1);
    }
  }

  /** A worker that is not polling holds a batch of admissible size. */
  ghost predicate BatchesOk(c: Config, ws: seq<Worker>) {
    forall i :: 0 <= i < |ws| ==>
      |BatchOf(ws[i])| <= BatchLimit(c) && (BatchOf(ws[i]) == [] ==> ws[i].Idle? || ws[i].Exited?)
  }

  /** Each taken event is in exactly one column, with multiplicity. */
  ghost predicate Columns(p: Pool) {
    multiset(p.taken) == Settled(p) + Bag(p.workers, false)
  }

  /** The events that left their worker: written, dead-lettered, or cancelled before either. */
  function Settled(p: Pool): multiset<Event> {
    multiset(p.processed) + multiset(p.recorded) + multiset(p.dropped)
  }

  /** `x` more taken, `y` more settled, and a worker's part going from `m` to `n`, keeps the balance. */
  lemma Transfer(t: multiset<Event>, o: multiset<Event>, b: multiset<Event>, b': multiset<Event>,
                 x: multiset<Event>, y: multiset<Event>, m: multiset<Event>, n: multiset<Event>)
    requires t == o + b && b' + m == b + n && x + m == y + n
    ensures t + x == (o + y) + b'
  {
    forall e ensures (t + x)[e] == ((o + y) + b')[e] {
      assert (b' + m)[e] == (b + n)[e] && (x + m)[e] == (y + n)[e];
    }
  }

  ghost predicate Tallies(p: Pool) {
    && p.unfinished == |p.queue| + |Bag(p.workers, true)|
    && p.eventsProcessed == |p.processed| && p.recordedCount == |p.recorded|
  }

  /** The books of the pool. */
  ghost predicate Books(c: Config, p: Pool) {
    p.accepted == p.taken + p.queue && Columns(p) && Tallies(p)
  }

  ghost predicate Sizes(c: Config, p: Pool) {
    && |p.workers| == c.concurrency
    && BatchesOk(c, p.workers)
    && (c.maxSize > 0 ==> |p.queue| <= c.maxSize)
  }

  lemma IntakeKeepsBooks(c: Config, p: Pool, e: Event)
    requires Books(c, p)
    ensures Books(c, Intake(p, Accept(e)))
  {
    hide Bag;
    var p' := Intake(p, Accept(e));
    assert p'.taken + p'.queue == (p.taken + p.queue) + [e];
  }

  lemma ResumeKeepsSizes(c: Config, p: Pool, w: nat, a: WorkAct)
    requires Sizes(c, p) && w < |p.workers| && Awaits(p.workers[w], a) && (a.Take? ==> p.queue != [])
    ensures Sizes(c, Resume(c, p, w, a))
  {
  }

  lemma TakeKeepsBooks(c: Config, p: Pool, w: nat)
    requires Books(c, p) && w < |p.workers| && p.workers[w].Idle?
    ensures Books(c, TakeBatch(c, p, w))
  {
    hide Bag, TakeSize;
    var p' := TakeBatch(c, p, w);
    var n := TakeSize(c, p);
    assert n <= |p.queue| by { TakeSizeFits(c, p); }
    var batch := p.queue[..n];
    assert p.queue == batch + p.queue[n..];
    assert p'.accepted == p'.taken + p'.queue by {
      assert p.taken + p.queue == (p.taken + batch) + p.queue[n..];
    }
    if c.maxRetries >= 0 {
      BagUpdate(p.workers, w, Writing(batch, 0), true);
      BagUpdate(p.workers, w, Writing(batch, 0), false);
    }
    assert Columns(p') by {
      var some, none: multiset<Event> := multiset(batch), multiset{};
      assert multiset(p'.taken) == multiset(p.taken) + some;
      var settled, now := if c.maxRetries < 0 then some else none, if c.maxRetries < 0 then none else some;
      assert c.maxRetries < 0 ==> multiset(p'.processed) == multiset(p.processed) + some;
      assert Settled(p') == Settled(p) + settled;
      Transfer(multiset(p.taken), Settled(p), Bag(p.workers, false), Bag(p'.workers, false), some, settled, none, now);
    }
    assert Tallies(p');
  }

  lemma TakeSizeFits(c: Config, p: Pool)
    ensures TakeSize(c, p) <= |p.queue|
  {
  }

  /** A batch that leaves its worker moves to the column its step writes to. */
  lemma ReleaseKeepsBooks(c: Config, p: Pool, w: nat, a: WorkAct)
    requires Books(c, p) && w < |p.workers| && Awaits(p.workers[w], a)
    requires a.WriteReturns? || a.PushReturns? || a.PushRaises? || a.Cancel?
    ensures Books(c, Resume(c, p, w, a))
  {
    hide Bag, Resume, Settled;
    var p' := Resume(c, p, w, a);
    ReleaseSettles(c, p, w, a);
    BagUpdate(p.workers, w, p'.workers[w], true);
    BagUpdate(p.workers, w, p'.workers[w], false);
    var part, none: multiset<Event> := multiset(PartOf(p.workers[w], false)), multiset{};
    Transfer(multiset(p.taken), Settled(p), Bag(p.workers, false), Bag(p'.workers, false), none, part, part, none);
    assert Columns(p') && Tallies(p');
  }

  /** What a worker had not recorded yet is settled when it lets go of its batch. */
  lemma ReleaseSettles(c: Config, p: Pool, w: nat, a: WorkAct)
    requires w < |p.workers| && Awaits(p.workers[w], a)
    requires p.eventsProcessed == |p.processed| && p.recordedCount == |p.recorded|
    requires a.WriteReturns? || a.PushReturns? || a.PushRaises? || a.Cancel?
    ensures var p' := Resume(c, p, w, a);
      && p'.workers == p.workers[w := if a.Cancel? then Exited else Idle]
      && p'.accepted == p.accepted && p'.taken == p.taken && p'.queue == p.queue
      && p'.unfinished == p.unfinished - |BatchOf(p.workers[w])|
      && p'.eventsProcessed == |p'.processed| && p'.recordedCount == |p'.recorded|
      && Settled(p') == Settled(p) + multiset(PartOf(p.workers[w], false))
  {
    var p' := Resume(c, p, w, a);
    var batch := multiset(BatchOf(p.workers[w]));
    assert a.WriteReturns? ==> multiset(p'.processed) == multiset(p.processed) + batch;
    assert a.Cancel? && !p.workers[w].Pushing? ==> multiset(p'.dropped) == multiset(p.dropped) + batch;
  }

  /** The last failed attempt records the batch as dead. */
  predicate StartsPush(c: Config, worker: Worker, a: WorkAct) {
    worker.Writing? && a.WriteRaises? && worker.attempt >= c.maxRetries
  }

  /** A worker that goes on with its batch changes no column. */
  lemma ContinueKeepsBooks(c: Config, p: Pool, w: nat, a: WorkAct)
    requires Books(c, p) && w < |p.workers| && Awaits(p.workers[w], a)
    requires (a.WriteRaises? && !StartsPush(c, p.workers[w], a)) || a.WakeUp? || a.IdleExit?
    ensures Books(c, Resume(c, p, w, a))
  {
    hide Bag, Entries;
    var p' := Resume(c, p, w, a);
    var next := p'.workers[w];
    assert p' == p.(workers := p.workers[w := next], retries := p'.retries);
    SameBag(p.workers, w, next);
  }

  lemma {:induction false} SameBag(ws: seq<Worker>, w: nat, next: Worker)
    requires w < |ws| && BatchOf(next) == BatchOf(ws[w]) && next.Pushing? == ws[w].Pushing?
    ensures forall all :: Bag(ws[w := next], all) == Bag(ws, all)
  {
    hide Bag;
    forall all ensures Bag(ws[w := next], all) == Bag(ws, all) {
      var part := multiset(PartOf(next, all));
      BagUpdate(ws, w, next, all);
      assert (Bag(ws[w := next], all) + part) - part == Bag(ws[w := next], all);
      assert (Bag(ws, all) + part) - part == Bag(ws, all);
    }
  }

  lemma StartPushKeepsBooks(c: Config, p: Pool, w: nat, a: WorkAct)
    requires Books(c, p) && w < |p.workers| && StartsPush(c, p.workers[w], a)
    ensures Books(c, Resume(c, p, w, a))
  {
    hide Bag, Entries;
    var p' := Resume(c, p, w, a);
    var next := p'.workers[w];
    BagUpdate(p.workers, w, next, true);
    BagUpdate(p.workers, w, next, false);
    assert Columns(p') by {
      var part, none: multiset<Event> := multiset(p.workers[w].batch), multiset{};
      assert multiset(p'.recorded) == multiset(p.recorded) + part;
      assert Settled(p') == Settled(p) + part;
      Transfer(multiset(p.taken), Settled(p), Bag(p.workers, false), Bag(p'.workers, false), none, part, part, none);
    }
    assert Tallies(p');
  }

  lemma BooksStep(c: Config, s: State, step: Step)
    requires Books(c, s.pool) && Sizes(c, s.pool) && Enabled(c, s, step)
    ensures Books(c, Apply(c, s, step).pool) && Sizes(c, Apply(c, s, step).pool)
  {
    hide Resume, Books, Sizes;
    match step
    case Ingest(a) =>
      if a.Accept? {
        IntakeKeepsBooks(c, s.pool, a.e);
        IntakeKeepsSizes(c, s, a);
      }
    case Work(w, a) =>
      ResumeKeepsSizes(c, s.pool, w, a);
      ResumeKeepsBooks(c, s.pool, w, a);
    case _ =>
  }

  lemma ResumeKeepsBooks(c: Config, p: Pool, w: nat, a: WorkAct)
    requires Books(c, p) && w < |p.workers| && Awaits(p.workers[w], a)
    ensures Books(c, Resume(c, p, w, a))
  {
    if a.Take? {
      TakeKeepsBooks(c, p, w);
    } else if a.WriteReturns? || a.PushReturns? || a.PushRaises? || a.Cancel? {
      ReleaseKeepsBooks(c, p, w, a);
    } else if StartsPush(c, p.workers[w], a) {
      StartPushKeepsBooks(c, p, w, a);
    } else {
      ContinueKeepsBooks(c, p, w, a);
    }
  }

  lemma IntakeKeepsSizes(c: Config, s: State, a: IngestAct)
    requires Sizes(c, s.pool) && IngestEnabled(c, s, a)
    ensures Sizes(c, Intake(s.pool, a))
  {
  }

  /** The books balance in every reachable state, whatever fails, times out or is cancelled. */
  lemma {:induction false} BooksBalance(c: Config, s: State, steps: seq<Step>, s': State)
    requires Books(c, s.pool) && Sizes(c, s.pool) && Run(c, s, steps, s')
    ensures Books(c, s'.pool) && Sizes(c, s'.pool)
    decreases |steps|
  {
    hide Books, Sizes, Apply, Enabled;
    if steps != [] {
      BooksStep(c, s, steps[0]);
      BooksBalance(c, Apply(c, s, steps[0]), steps[1..], s');
    }
  }

  lemma InitBooks(c: Config, s: State)
    requires Init(c, s)
    ensures Books(c, s.pool) && Sizes(c, s.pool)
  {
    BagEmpty(s.pool.workers, true);
    BagEmpty(s.pool.workers, false);
  }

  predicate Quiet(p: Pool) {
    forall i :: 0 <= i < |p.workers| ==> p.workers[i].Idle? || p.workers[i].Exited?
  }

  /**
   * Accounting: `unfinished` is the queue plus the batches in flight, acknowledging a batch never
   * takes it below zero, and with no batch in flight and none cancelled the three counters add up
   * to the number of accepted events.
   */
  lemma {:induction false} CountersAddUp(c: Config, s: State, steps: seq<Step>, s': State)
    requires Init(c, s) && Run(c, s, steps, s')
    ensures var p := s'.pool;
      && p.unfinished == |p.queue| + |Bag(p.workers, true)|
      && (forall w :: 0 <= w < |p.workers| ==> |BatchOf(p.workers[w])| <= p.unfinished)
      && (Quiet(p) ==> p.unfinished == |p.queue|)
      && (Quiet(p) && p.dropped == [] ==> p.eventsProcessed + p.recordedCount + |p.queue| == |p.accepted|)
  {
    hide Init, Run;
    InitBooks(c, s);
    BooksBalance(c, s, steps, s');
    var p := s'.pool;
    forall w | 0 <= w < |p.workers| ensures |BatchOf(p.workers[w])| <= p.unfinished {
      BagHolds(p.workers, w, true);
      var held := multiset(PartOf(p.workers[w], true));
      assert Bag(p.workers, true) == held + (Bag(p.workers, true) - held);
    }
    if Quiet(p) {
      BagEmpty(p.workers, true);
      BagEmpty(p.workers, false);
      assert |multiset(p.taken)| == |p.taken|;
    }
  }

  /** FIFO: workers take events in the order of acceptance, each once. */
  lemma {:induction false} TakenInOrder(c: Config, s: State, steps: seq<Step>, s': State)
    requires Init(c, s) && Run(c, s, steps, s')
    ensures s'.pool.taken <= s'.pool.accepted
    ensures s'.pool.queue == s'.pool.accepted[|s'.pool.taken|..]
  {
    InitBooks(c, s);
    BooksBalance(c, s, steps, s');
  }

  /** Memory bound: accepted but unfinished events never exceed the queue bound plus one batch per worker. */
  lemma {:induction false} MemoryBound(c: Config, s: State, steps: seq<Step>, s': State)
    requires Init(c, s) && Run(c, s, steps, s')
    requires c.maxSize > 0
    ensures s'.pool.unfinished <= c.maxSize + c.concurrency * BatchLimit(c)
  {
    InitBooks(c, s);
    BooksBalance(c, s, steps, s');
    BagBounded(s'.pool.workers, BatchLimit(c));
  }

  /**
   * A refused event leaves the state as it was, an accepted one is queued last and counted; which of the
   * three happens is decided by the gate and the bound alone.
   */
  lemma RefusalsChangeNothing(c: Config, s: State, e: Event)
    ensures Enabled(c, s, Ingest(RefuseFull(e))) ==> Apply(c, s, Ingest(RefuseFull(e))) == s
    ensures Enabled(c, s, Ingest(RefuseClosed(e))) ==> Apply(c, s, Ingest(RefuseClosed(e))) == s
    ensures Enabled(c, s, Ingest(Accept(e))) ==>
      var p := s.pool;
      Apply(c, s, Ingest(Accept(e)))
        == s.(pool := p.(queue := p.queue + [e], unfinished := p.unfinished + 1, accepted := p.accepted + [e]))
    ensures Enabled(c, s, Ingest(Accept(e))) <==> s.phase == Open && (c.maxSize <= 0 || |s.pool.queue| < c.maxSize)
    ensures Enabled(c, s, Ingest(RefuseClosed(e))) <==> s.phase != Open
    ensures Enabled(c, s, Ingest(Accept(e))) <==>
      !Enabled(c, s, Ingest(RefuseFull(e))) && !Enabled(c, s, Ingest(RefuseClosed(e)))
  {
  }

  /** Once ingestion has stopped it stays stopped: nothing is accepted any more while the queue drains. */
  lemma {:induction false} StoppedStaysStopped(c: Config, s: State, steps: seq<Step>, s': State)
    requires !s.phase.Open? && Run(c, s, steps, s')
    ensures !s'.phase.Open? && s'.pool.accepted == s.pool.accepted
    decreases |steps|
  {
    if steps != [] {
      StoppedStep(c, s, steps[0]);
      hide Apply, Enabled;
      StoppedStaysStopped(c, Apply(c, s, steps[0]), steps[1..], s');
    }
  }

  lemma {:induction false} StoppedStep(c: Config, s: State, step: Step)
    requires !s.phase.Open? && Enabled(c, s, step)
    ensures !Apply(c, s, step).phase.Open? && Apply(c, s, step).pool.accepted == s.pool.accepted
  {
  }
}
