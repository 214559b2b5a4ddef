/** The two filter compilers, for Mongo and for Elasticsearch, and what they both mean. */
module Filters {
  import opened Events
  import opened Mongo
  import opened Elastic
  import opened Pipeline
  import opened Mirror

  /** The filter arguments of `GET /events` and `GET /events/search`. */
  datatype Query = Query(
    eventType: Option<string>, userId: Option<string>, sourceUrl: Option<string>,
    fromTs: Option<int>, toTs: Option<int>)

  datatype Field = EventType | UserId | SourceUrl

  function FieldOf(e: Event, f: Field): string {
    match f
    case EventType => e.eventType
    case UserId => e.userId
    case SourceUrl => e.sourceUrl
  }

  function Wanted(q: Query, f: Field): Option<string> {
    match f
    case EventType => q.eventType
    case UserId => q.userId
    case SourceUrl => q.sourceUrl
  }

  /** Present and not empty: Python's truth value of an optional string. */
  predicate Given(v: Option<string>) {
    v.Some? && v.value != ""
  }

  predicate FieldOk(q: Query, f: Field, e: Event) {
    Given(Wanted(q, f)) ==> FieldOf(e, f) == Wanted(q, f).value
  }

  /** What a query asks of an event: every filter that is present and not empty, and both bounds. */
  predicate Satisfies(q: Query, e: Event) {
    && (q.eventType.None? || q.eventType.value == "" || e.eventType == q.eventType.value)
    && (q.userId.None? || q.userId.value == "" || e.userId == q.userId.value)
    && (q.sourceUrl.None? || q.sourceUrl.value == "" || e.sourceUrl == q.sourceUrl.value)
    && (q.fromTs.Some? ==> q.fromTs.value <= e.timestamp)
    && (q.toTs.Some? ==> e.timestamp <= q.toTs.value)
  }

  /** An inclusive range clause; absent bounds do not constrain. */
  datatype Range = Range(gte: Option<int>, lte: Option<int>)

  predicate InRange(r: Range, t: int) {
    (r.gte.Some? ==> r.gte.value <= t) && (r.lte.Some? ==> t <= r.lte.value)
  }

  /** `_timestamp_clause` and `_timestamp_range`: no clause at all without a bound. */
  function TimestampClause(fromTs: Option<int>, toTs: Option<int>): (r: Option<Range>)
    ensures r.None? <==> fromTs.None? && toTs.None?
  {
    if fromTs.None? && toTs.None? then None else Some(Range(fromTs, toTs))
  }

  // ---------------------------------------------------------------------------
  // Mongo
  // ---------------------------------------------------------------------------

  /** The filter dict of `find_events`. */
  datatype MongoFilter = MongoFilter(equal: map<Field, string>, timestamp: Option<Range>)

  predicate MongoMatches(filt: MongoFilter, e: Event) {
    && (forall f :: f in filt.equal ==> FieldOf(e, f) == filt.equal[f])
    && (filt.timestamp.Some? ==> InRange(filt.timestamp.value, e.timestamp))
  }

  /** The filter `find_events` hands to Mongo, built entry by entry; an empty string adds none. */
  method BuildMongoFilter(q: Query) returns (filt: MongoFilter)
    ensures filt == MongoFilterOf(q)
  {
    var equal: map<Field, string> := map[];
    if Given(q.eventType) {
      equal := equal[EventType := q.eventType.value];
    }
    if Given(q.userId) {
      equal := equal[UserId := q.userId.value];
    }
    if Given(q.sourceUrl) {
      equal := equal[SourceUrl := q.sourceUrl.value];
    }
    var clause := TimestampClause(q.fromTs, q.toTs);
    filt := MongoFilter(equal, clause);
  }

  function MongoFilterOf(q: Query): MongoFilter {
    MongoFilter(map f: Field | Given(Wanted(q, f)) :: Wanted(q, f).value, TimestampClause(q.fromTs, q.toTs))
  }

  lemma MongoFilterMeans(q: Query, e: Event)
    ensures MongoMatches(MongoFilterOf(q), e) <==> Satisfies(q, e)
  {
    var filt := MongoFilterOf(q);
    assert forall f :: f in filt.equal <==> Given(Wanted(q, f));
    assert MongoMatches(filt, e) ==> FieldOk(q, EventType, e) && FieldOk(q, UserId, e) && FieldOk(q, SourceUrl, e);
  }

  // ---------------------------------------------------------------------------
  // Elasticsearch
  // ---------------------------------------------------------------------------

  datatype Clause = Term(field: Field, value: string) | TimestampIn(range: Range)

  /** `match_all`, or a bool query whose `must` scores free text and whose `filter` narrows. */
  datatype EsQuery = MatchAll | Bool(must: seq<string>, filter: seq<Clause>)

  predicate ClauseMatches(c: Clause, d: EsDoc) {
    match c
    case Term(f, v) => FieldOf(d.source, f) == v
    case TimestampIn(r) => InRange(r, d.source.timestamp)
  }

  /** `text(query, document)` is the engine's full-text match. */
  predicate EsMatches(q: EsQuery, d: EsDoc, text: (string, EsDoc) -> bool) {
    match q
    case MatchAll => true
    case Bool(must, filter) =>
      && (forall i :: 0 <= i < |must| ==> text(must[i], d))
      && (forall i :: 0 <= i < |filter| ==> ClauseMatches(filter[i], d))
  }

  function TermFor(q: Query, f: Field): seq<Clause> {
    if Given(Wanted(q, f)) then [Term(f, Wanted(q, f).value)] else []
  }

  function FilterClauses(q: Query): seq<Clause> {
    var clause := TimestampClause(q.fromTs, q.toTs);
    TermFor(q, EventType) + TermFor(q, UserId) + TermFor(q, SourceUrl) +
    if clause.Some? then [TimestampIn(clause.value)] else []
  }

  function SearchQueryOf(query: Option<string>, q: Query): EsQuery {
    var must := if Given(query) then [query.value] else [];
    if must == [] && FilterClauses(q) == [] then MatchAll else Bool(must, FilterClauses(q))
  }

  /** `search` builds its lists clause by clause and falls back to `match_all` when both stay empty. */
  method BuildSearchQuery(query: Option<string>, q: Query) returns (r: EsQuery)
    ensures r == SearchQueryOf(query, q)
  {
    var must: seq<string> := [];
    if Given(query) {
      must := must + [query.value];
    }
    var filters: seq<Clause> := [];
    hide TimestampClause;
    if Given(q.eventType) {
      filters := filters + [Term(EventType, q.eventType.value)];
    }
    if Given(q.userId) {
      filters := filters + [Term(UserId, q.userId.value)];
    }
    if Given(q.sourceUrl) {
      filters := filters + [Term(SourceUrl, q.sourceUrl.value)];
    }
    assert filters == TermFor(q, EventType) + TermFor(q, UserId) + TermFor(q, SourceUrl);
    var range := TimestampClause(q.fromTs, q.toTs);
    if range.Some? {
      filters := filters + [TimestampIn(range.value)];
    }
    r := if must == [] && filters == [] then MatchAll else Bool(must, filters);
  }

  ghost predicate AllMatch(clauses: seq<Clause>, d: EsDoc) {
    forall i :: 0 <= i < |clauses| ==> ClauseMatches(clauses[i], d)
  }

  lemma AllMatchAppend(a: seq<Clause>, b: seq<Clause>, d: EsDoc)
    ensures AllMatch(a + b, d) <==> AllMatch(a, d) && AllMatch(b, d)
  {
    if AllMatch(a + b, d) {
      forall i | 0 <= i < |a| ensures ClauseMatches(a[i], d) {
        assert (a + b)[i] == a[i];
      }
      forall i | 0 <= i < |b| ensures ClauseMatches(b[i], d) {
        assert (a + b)[|a| + i] == b[i];
      }
    }
  }

  lemma TermMeans(q: Query, f: Field, e: Event)
    ensures AllMatch(TermFor(q, f), ToEs(e)) <==> FieldOk(q, f, e)
  {
    if Given(Wanted(q, f)) {
      assert TermFor(q, f)[0] == Term(f, Wanted(q, f).value);
    }
  }

  lemma FilterClausesMean(q: Query, e: Event)
    ensures AllMatch(FilterClauses(q), ToEs(e)) <==> Satisfies(q, e)
  {
    var d := ToEs(e);
    var clause := TimestampClause(q.fromTs, q.toTs);
    var last := if clause.Some? then [TimestampIn(clause.value)] else [];
    var a, b, s := TermFor(q, EventType), TermFor(q, UserId), TermFor(q, SourceUrl);
    AllMatchAppend(a + b + s, last, d);
    AllMatchAppend(a + b, s, d);
    AllMatchAppend(a, b, d);
    TermMeans(q, EventType, e);
    TermMeans(q, UserId, e);
    TermMeans(q, SourceUrl, e);
    assert AllMatch(last, d) <==> (q.fromTs.Some? ==> q.fromTs.value <= e.timestamp) && (q.toTs.Some? ==> e.timestamp <= q.toTs.value) by {
      if clause.Some? {
        assert last[0] == TimestampIn(clause.value);
      }
    }
  }

  /** On one event the two compilers agree; free text only ever narrows the search further. */
  lemma CompilersAgree(query: Option<string>, q: Query, e: Event, text: (string, EsDoc) -> bool)
    ensures query.None? || query.value == "" ==>
      (EsMatches(SearchQueryOf(query, q), ToEs(e), text) <==> MongoMatches(MongoFilterOf(q), e))
    ensures query.Some? && query.value != "" ==>
      (EsMatches(SearchQueryOf(query, q), ToEs(e), text) <==> MongoMatches(MongoFilterOf(q), e) && text(query.value, ToEs(e)))
    ensures MongoMatches(MongoFilterOf(q), e) <==> Satisfies(q, e)
  {
    FilterClausesMean(q, e);
    MongoFilterMeans(q, e);
    if Given(query) {
      var must := SearchQueryOf(query, q).must;
      assert |must| == 1 && must[0] == query.value;
    }
  }

  // ---------------------------------------------------------------------------
  // Over the stores
  // ---------------------------------------------------------------------------

  function Hits(es: Index, query: Option<string>, q: Query, text: (string, EsDoc) -> bool): set<EventId> {
    set id | id in es && EsMatches(SearchQueryOf(query, q), es[id], text)
  }

  function Matches(c: Collection, q: Query): set<EventId> {
    set id | id in c && MongoMatches(MongoFilterOf(q), c[id].event)
  }

  /**
   * In every reachable state, whatever failed: a search hit is a stored event the Mongo filter matches
   * too, and a query-free search misses a match only while it waits in the outbox or because ES refused it.
   */
  lemma {:induction false} SearchAgreesWithFind(c: Config, s: State, steps: seq<Step>, s': State, query: Option<string>, q: Query, text: (string, EsDoc) -> bool)
    requires Init(c, s) && Run(c, s, steps, s')
    ensures Hits(s'.mirror.es, query, q, text) <= Matches(s'.events, q)
    ensures query.None? || query.value == "" ==>
      forall id :: id in Matches(s'.events, q) && id !in Hits(s'.mirror.es, query, q, text) ==>
        id in Pending(s'.events) || id in s'.mirror.rejected
  {
    hide Run, SearchQueryOf, MongoFilterOf, EsMatches, MongoMatches;
    InitIsMirrored(c, s);
    MirrorSafety(c, s, steps, s');
    forall id | id in s'.mirror.es
      ensures id in Hits(s'.mirror.es, query, q, text) ==> id in Matches(s'.events, q)
      ensures !Given(query) && id in Matches(s'.events, q) ==> id in Hits(s'.mirror.es, query, q, text)
    {
      CompilersAgree(query, q, s'.events[id].event, text);
    }
  }

  /** Over a drained mirror without refusals, a query-free search finds exactly what the Mongo filter finds. */
  lemma {:induction false} DrainedSearchIsExact(c: Config, s: State, steps: seq<Step>, s': State, query: Option<string>, q: Query, text: (string, EsDoc) -> bool)
    requires Init(c, s) && Run(c, s, steps, s')
    requires (query.None? || query.value == "") && Pending(s'.events) == {} && s'.mirror.rejected == {}
    ensures Hits(s'.mirror.es, query, q, text) == Matches(s'.events, q)
    ensures Matches(s'.events, q) == set id | id in s'.events && Satisfies(q, s'.events[id].event)
  {
    hide Run, SearchQueryOf, MongoFilterOf, EsMatches, MongoMatches, Hits, Satisfies;
    SearchAgreesWithFind(c, s, steps, s', query, q, text);
    forall id | id in s'.events ensures id in Matches(s'.events, q) <==> Satisfies(q, s'.events[id].event) {
      MongoFilterMeans(q, s'.events[id].event);
    }
  }
}
