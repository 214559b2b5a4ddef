/** Elasticsearch never disagrees with Mongo, whatever fails and however tasks interleave. */
module Mirror {
  import opened Events
  import opened Mongo
  import opened Elastic
  import opened Pipeline

  /** The documents a pass carries are stored, unchanged, in Mongo. */
  ghost predicate PassOk(s: State) {
    match s.mirror.indexer
    case Resting => true
    case Fetched(docs) => Carried(s, docs)
    case Indexed(docs) => Carried(s, docs) && forall id :: id in Ids(docs) ==> id in s.mirror.es || id in s.mirror.rejected
  }

  ghost predicate Carried(s: State, docs: seq<Event>) {
    forall e :: e in docs ==> e.id in s.events && s.events[e.id].event == e
  }

  ghost predicate MirrorInv(s: State) {
    StoresOk(s) && PassOk(s)
  }

  /** New documents start un-marked, so the mirror owes them nothing yet. */
  lemma {:induction false} InsertKeepsMirror(s: State, s': State, docs: seq<Event>)
    requires MirrorInv(s) && s'.events == InsertAll(s.events, docs) && s'.mirror == s.mirror
    requires forall id :: id in s'.deadLetters ==> s'.deadLetters[id].event.id == id
    ensures MirrorInv(s')
  {
    InsertAllSpec(s.events, docs);
  }

  lemma {:induction false} RecordsStayKeyed(s: State, s': State, entries: seq<Entry>)
    requires StoresOk(s) && s'.deadLetters == Persist(s.deadLetters, entries)
    ensures forall id :: id in s'.deadLetters ==> s'.deadLetters[id].event.id == id
  {
    PersistSpec(s.deadLetters, entries);
  }

  lemma BulkKeepsMirror(c: Config, s: State, a: IndexAct)
    requires MirrorInv(s) && IndexEnabled(c, s, a) && (a.BulkReturns? || a.BulkRaises?)
    ensures MirrorInv(Apply(c, s, Index(a)))
  {
    var docs := s.mirror.indexer.docs;
    var ids := if a.BulkReturns? then Ids(docs) - a.refused else a.indexed;
    NoMarks(s.events);
    IndexingKeepsMirror(s, Apply(c, s, Index(a)), docs, ids);
  }

  lemma {:induction false} IndexingKeepsMirror(s: State, s': State, docs: seq<Event>, ids: set<EventId>)
    requires MirrorInv(s) && Carried(s, docs)
    requires s'.mirror.es == IndexOnly(s.mirror.es, docs, ids) && s'.events == s.events && s'.deadLetters == s.deadLetters
    requires s.mirror.rejected <= s'.mirror.rejected
    ensures StoresOk(s')
    ensures forall id :: id in Ids(docs) && id in ids ==> id in s'.mirror.es
  {
    IndexOnlySpec(s.mirror.es, docs, ids);
    forall id | id in s'.mirror.es ensures id in s'.events && s'.mirror.es[id] == ToEs(s'.events[id].event) {
      if !(id in s.mirror.es && s'.mirror.es[id] == s.mirror.es[id]) {
        var e :| e in docs && e.id == id && s'.mirror.es[id] == ToEs(e);
      }
    }
  }

  lemma MirrorStep(c: Config, s: State, step: Step)
    requires MirrorInv(s) && Enabled(c, s, step)
    ensures MirrorInv(Apply(c, s, step))
  {
    hide InsertAll, Persist, Resume, WorkerWrites, WorkerBuries, ReplayWrites, ReplaysAfter, IndexOnly, Mark, IndexPass, PassOk;
    var s' := Apply(c, s, step);
    match step
    case Work(w, a) =>
      RecordsStayKeyed(s, s', WorkerBuries(s.pool.workers[w], a));
      InsertKeepsMirror(s, s', WorkerWrites(s.pool.workers[w], a));
    case Redrive(r, a) => InsertKeepsMirror(s, s', ReplayWrites(s, r, a));
    case Index(a) => PassKeepsMirror(c, s, a);
    case _ => SameStores(s, s');
  }

  lemma PassKeepsMirror(c: Config, s: State, a: IndexAct)
    requires MirrorInv(s) && IndexEnabled(c, s, a)
    ensures MirrorInv(Apply(c, s, Index(a)))
  {
    hide Apply, MirrorInv;
    match a
    case Fetch(_) => FetchKeepsMirror(c, s, a);
    case FetchRaises => FetchKeepsMirror(c, s, a);
    case BulkReturns(_) => BulkKeepsMirror(c, s, a);
    case BulkRaises(_) => BulkKeepsMirror(c, s, a);
    case _ => MarkKeepsMirror(c, s, a);
  }

  lemma SameStores(s: State, s': State)
    requires MirrorInv(s) && s'.events == s.events && s'.deadLetters == s.deadLetters && s'.mirror == s.mirror
    ensures MirrorInv(s')
  {
  }

  lemma FetchKeepsMirror(c: Config, s: State, a: IndexAct)
    requires MirrorInv(s) && IndexEnabled(c, s, a) && (a.Fetch? || a.FetchRaises?)
    ensures MirrorInv(Apply(c, s, Index(a)))
  {
    NoMarks(s.events);
  }

  /** Only documents a pass carried get marked, and those are in ES or were refused. */
  lemma MarkKeepsMirror(c: Config, s: State, a: IndexAct)
    requires MirrorInv(s) && IndexEnabled(c, s, a) && (a.MarkReturns? || a.MarkRaises?)
    ensures MirrorInv(Apply(c, s, Index(a)))
  {
    assert Marks(s.mirror.indexer, a) <= Ids(s.mirror.indexer.docs);
  }

  /**
   * Mirror safety over every run from any admissible stores: each ES document is the projection of
   * the Mongo document with its id; a marked event is in ES or ES refused it; no stored document is
   * ever removed or rewritten, and no marker goes back to False.
   */
  lemma {:induction false} MirrorSafety(c: Config, s: State, steps: seq<Step>, s': State)
    requires MirrorInv(s) && Run(c, s, steps, s')
    ensures MirrorInv(s') && Grows(s.events, s'.events)
    ensures forall id :: id in s'.mirror.es ==> id in s'.events && Shows(s'.mirror.es[id], s'.events[id].event)
    decreases |steps|
  {
    if steps != [] {
      MirrorStep(c, s, steps[0]);
      EventsGrow(c, s, steps[0]);
      MirrorSafety(c, Apply(c, s, steps[0]), steps[1..], s');
    }
  }

  lemma InitIsMirrored(c: Config, s: State)
    requires Init(c, s)
    ensures MirrorInv(s)
  {
  }

  /** A chain of processes, each killed at an arbitrary point and followed by a restart. */
  ghost predicate Lives(c: Config, s: State, lives: seq<seq<Step>>, s': State)
    decreases |lives|
  {
    if lives == [] then s == s'
    else exists died :: Run(c, s, lives[0], died) && Lives(c, Fresh(c, died), lives[1..], s')
  }

  lemma RestartIsInit(c: Config, s: State)
    requires MirrorInv(s)
    ensures Init(c, Fresh(c, s)) && Fresh(c, s).events == s.events
  {
  }

  /** Mirror safety survives any number of crashes: the outbox marker and the documents are durable. */
  lemma {:induction false} MirrorSafetyAcrossCrashes(c: Config, s: State, lives: seq<seq<Step>>, s': State)
    requires Init(c, s) && Lives(c, s, lives, s')
    ensures Init(c, s') && MirrorInv(s') && Grows(s.events, s'.events)
    ensures forall id :: id in s'.mirror.es ==> id in s'.events && Shows(s'.mirror.es[id], s'.events[id].event)
    decreases |lives|
  {
    InitIsMirrored(c, s);
    if lives != [] {
      hide Run, Init, MirrorInv, Fresh;
      var died :| Run(c, s, lives[0], died) && Lives(c, Fresh(c, died), lives[1..], s');
      MirrorSafety(c, s, lives[0], died);
      RestartIsInit(c, died);
      MirrorSafetyAcrossCrashes(c, Fresh(c, died), lives[1..], s');
    }
  }

  /** Once every marker is set and nothing was refused, the index is exactly the projected collection. */
  lemma DrainedMirrorIsExact(s: State)
    requires MirrorInv(s) && Pending(s.events) == {} && s.mirror.rejected == {}
    ensures s.mirror.es.Keys == s.events.Keys
    ensures forall id :: id in s.events ==> Shows(s.mirror.es[id], s.events[id].event)
  {
    forall id | id in s.events ensures id in s.mirror.es {
      assert id !in Pending(s.events);
    }
  }
}
