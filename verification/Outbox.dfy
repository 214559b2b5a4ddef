/** The outbox drains: how soon a stored event is marked, over runs of the whole pipeline. */
module Outbox {
  import opened Events
  import opened Mongo
  import opened Pipeline
  import opened Arithmetic

  /** The pending events that may be fetched before `x`. */
  function Ahead(c: Collection, x: Event): set<EventId> {
    set id | id in c && !c[id].esIndexed && id != x.id && c[id].event.receivedAt <= x.receivedAt
  }

  /** `x` is stored as it was received. */
  predicate Holds(c: Collection, x: Event) {
    x.id in c && c[x.id].event == x
  }

  predicate IsMarked(c: Collection, x: Event) {
    Holds(c, x) && c[x.id].esIndexed
  }

  /** Everything stored by the step was received after `x`. */
  predicate LateArrivals(before: Collection, after: Collection, x: Event) {
    forall id :: id in after && id !in before ==> after[id].event.receivedAt > x.receivedAt
  }

  ghost predicate OnlyLateArrivals(c: Config, s: State, steps: seq<Step>, x: Event)
    decreases |steps|
  {
    steps != [] && Enabled(c, s, steps[0]) ==>
      && LateArrivals(s.events, Apply(c, s, steps[0]).events, x)
      && OnlyLateArrivals(c, Apply(c, s, steps[0]), steps[1..], x)
  }

  /** The passes that ran to completion. */
  function Passes(steps: seq<Step>): nat {
    if steps == [] then 0
    else (if steps[0] == Index(MarkReturns) then 1 else 0) + Passes(steps[1..])
  }

  /** A pass under way either carries `x` or a full batch of events ahead of it. */
  ghost predicate PassHelps(c: Config, events: Collection, indexer: Indexer, x: Event) {
    indexer.Resting? ||
    x.id in Ids(indexer.docs) || (Ids(indexer.docs) <= Ahead(events, x) && |Ids(indexer.docs)| == c.batchSize)
  }

  /** `x` is marked, or still chased by passes that make progress towards it. */
  ghost predicate Chased(c: Config, s: State, x: Event) {
    Holds(s.events, x) && (IsMarked(s.events, x) || PassHelps(c, s.events, s.mirror.indexer, x))
  }

  lemma FetchHelps(c: Config, events: Collection, docs: seq<Event>, x: Event)
    requires c.batchSize >= 1 && Holds(events, x) && !events[x.id].esIndexed && IsFetch(events, c.batchSize, docs)
    ensures docs != [] && PassHelps(c, events, Fetched(docs), x)
  {
    assert x.id in Pending(events);
    if x.id !in Ids(docs) {
      DistinctIds(docs);
      forall id | id in Ids(docs) ensures id in Ahead(events, x) {
        var i :| 0 <= i < |docs| && docs[i].id == id;
      }
    }
  }

  /** New documents that arrive later leave the events ahead as they are. */
  lemma {:induction false} InsertKeepsAhead(before: Collection, docs: seq<Event>, x: Event)
    requires LateArrivals(before, InsertAll(before, docs), x)
    ensures Ahead(InsertAll(before, docs), x) == Ahead(before, x)
  {
    InsertAllSpec(before, docs);
  }

  lemma MarkShrinksAhead(events: Collection, ids: set<EventId>, x: Event)
    ensures Ahead(Mark(events, ids), x) == Ahead(events, x) - ids
  {
  }

  /** One step: `x` gets marked, or the events ahead of it do not grow, and shrink by a batch when a pass completes. */
  lemma ProgressStep(c: Config, s: State, step: Step, x: Event)
    requires c.batchSize >= 1 && Chased(c, s, x) && !IsMarked(s.events, x) && Enabled(c, s, step)
    requires LateArrivals(s.events, Apply(c, s, step).events, x)
    ensures var s' := Apply(c, s, step);
      && Chased(c, s', x)
      && (IsMarked(s'.events, x) ||
          |Ahead(s'.events, x)| + (if step == Index(MarkReturns) then c.batchSize else 0) <= |Ahead(s.events, x)|)
  {
    hide InsertAll, Ahead, Resume, Persist, WorkerWrites, WorkerBuries, Pushed, ReplayWrites, ReplaysAfter, Ids, IsFetch;
    var s' := Apply(c, s, step);
    EventsGrow(c, s, step);
    match step
    case Work(w, a) => InsertKeepsAhead(s.events, WorkerWrites(s.pool.workers[w], a), x);
    case Redrive(r, a) => InsertKeepsAhead(s.events, ReplayWrites(s, r, a), x);
    case Index(a) => IndexProgress(c, s, a, x);
    case _ =>
  }

  lemma IndexProgress(c: Config, s: State, a: IndexAct, x: Event)
    requires c.batchSize >= 1 && Chased(c, s, x) && !IsMarked(s.events, x) && IndexEnabled(c, s, a)
    ensures var s' := Apply(c, s, Index(a));
      && Chased(c, s', x)
      && (IsMarked(s'.events, x) ||
          |Ahead(s'.events, x)| + (if a == MarkReturns then c.batchSize else 0) <= |Ahead(s.events, x)|)
  {
    hide Ahead, Ids, IsFetch, Elastic.IndexOnly;
    match a
    case Fetch(docs) =>
      NoMarks(s.events);
      FetchHelps(c, s.events, docs, x);
    case MarkReturns => MarkingHelps(c, s.events, s.mirror.indexer, Ids(s.mirror.indexer.docs), x);
    case MarkRaises(marked) => MarkingHelps(c, s.events, s.mirror.indexer, Ids(s.mirror.indexer.docs) * marked, x);
    case _ => NoMarks(s.events);
  }

  /** Marking all of a pass marks `x` or takes a full batch out of its way; marking some of it adds nothing. */
  lemma MarkingHelps(c: Config, events: Collection, pass: Indexer, ids: set<EventId>, x: Event)
    requires c.batchSize >= 1 && Holds(events, x) && !pass.Resting? && PassHelps(c, events, pass, x) && ids <= Ids(pass.docs)
    ensures var after := Mark(events, ids);
      && Holds(after, x)
      && (IsMarked(after, x) ||
          |Ahead(after, x)| + (if ids == Ids(pass.docs) then c.batchSize else 0) <= |Ahead(events, x)|)
  {
    hide Ahead, Ids;
    MarkShrinksAhead(events, ids, x);
    if x.id !in Ids(pass.docs) {
      SubsetCount(ids, Ahead(events, x));
    } else {
      SubsetCount(Ahead(events, x) - ids, Ahead(events, x));
    }
  }

  lemma {:induction false} AheadShrinks(c: Config, s: State, steps: seq<Step>, s': State, x: Event)
    requires c.batchSize >= 1 && Chased(c, s, x)
    requires Run(c, s, steps, s') && OnlyLateArrivals(c, s, steps, x)
    ensures IsMarked(s'.events, x) || |Ahead(s'.events, x)| + c.batchSize * Passes(steps) <= |Ahead(s.events, x)|
    decreases |steps|
  {
    hide Ahead, Apply, Enabled, PassHelps;
    if steps != [] {
      var mid := Apply(c, s, steps[0]);
      EventsGrow(c, s, steps[0]);
      if !IsMarked(s.events, x) {
        ProgressStep(c, s, steps[0], x);
      }
      if IsMarked(mid.events, x) {
        MarkedStays(c, mid, steps[1..], s', x);
      } else {
        AheadShrinks(c, mid, steps[1..], s', x);
        assert Passes(steps) == (if steps[0] == Index(MarkReturns) then 1 else 0) + Passes(steps[1..]);
        Spread(c.batchSize, Passes(steps[1..]));
      }
    }
  }

  lemma {:induction false} MarkedStays(c: Config, s: State, steps: seq<Step>, s': State, x: Event)
    requires IsMarked(s.events, x) && Run(c, s, steps, s')
    ensures IsMarked(s'.events, x)
    decreases |steps|
  {
    hide Apply, Enabled;
    if steps != [] {
      EventsGrow(c, s, steps[0]);
      MarkedStays(c, Apply(c, s, steps[0]), steps[1..], s', x);
    }
  }

  /**
   * Outbox progress: take any run, with workers, replays and failing passes interleaved, whose later
   * arrivals were all received after `x`. If `r` other events are pending at or before `x`, then `x`
   * is marked once `r / batch_size + 1` passes have completed.
   */
  lemma {:induction false} MarkedWithinPasses(c: Config, s: State, steps: seq<Step>, s': State, x: Event)
    requires c.batchSize >= 1
    requires Holds(s.events, x) && s.mirror.indexer.Resting?
    requires Run(c, s, steps, s') && OnlyLateArrivals(c, s, steps, x)
    requires Passes(steps) >= |Ahead(s.events, x)| / c.batchSize + 1
    ensures IsMarked(s'.events, x)
  {
    hide Ahead, Run, OnlyLateArrivals;
    AheadShrinks(c, s, steps, s', x);
    EnoughPasses(|Ahead(s.events, x)|, c.batchSize, Passes(steps));
  }

  lemma EnoughPasses(r: nat, b: nat, passes: nat)
    requires b >= 1 && passes >= r / b + 1
    ensures b * passes > r
  {
    assert r == b * (r / b) + r % b;
    Spread(b, r / b);
    Scale(b, r / b + 1, passes);
  }
}
