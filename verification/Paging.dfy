/** `find_events`: newest first, one page at a time, with one extra document to detect the next page. */
module Paging {
  import opened Events
  import opened Filters

  /** A full answer to the filter in the cursor's order: newest first, ties in some fixed order. */
  ghost predicate IsListing(c: Collection, q: Query, view: seq<Event>) {
    && (forall i, j :: 0 <= i < j < |view| ==> view[i].id != view[j].id && view[i].timestamp >= view[j].timestamp)
    && (forall e :: e in view <==> e.id in c && c[e.id].event == e && MongoMatches(MongoFilterOf(q), e))
  }

  function Min(a: int, b: int): int {
    if a < b then a else b
  }

  /** `skip(offset)` and `limit(n)` on the sorted cursor. */
  function Cursor(view: seq<Event>, offset: nat, n: nat): seq<Event> {
    view[Min(offset, |view|)..Min(offset + n, |view|)]
  }

  /** Fetch `limit + 1`, report whether the extra one came, return the first `limit`. */
  method FindEvents(view: seq<Event>, limit: nat, offset: nat, withTotal: bool)
    returns (docs: seq<Event>, hasMore: bool, total: Option<nat>)
    ensures hasMore <==> |view| > offset + limit
    ensures docs == view[Min(offset, |view|)..Min(offset + limit, |view|)]
    ensures total == if withTotal then Some(|view|) else None
  {
    docs := Cursor(view, offset, limit + 1);
    hasMore := |docs| > limit;
    docs := if |docs| > limit then docs[..limit] else docs;
    total := if withTotal then Some(|view|) else None;
  }

  /**
   * Following pages until `has_more` is false terminates and returns the whole listing: every matching
   * event exactly once, newest first.
   */
  method FollowPages(ghost c: Collection, ghost q: Query, view: seq<Event>, limit: nat)
    returns (all: seq<Event>, pages: nat)
    requires limit >= 1 && IsListing(c, q, view)
    ensures all == view
    ensures forall id :: id in c && MongoMatches(MongoFilterOf(q), c[id].event) && c[id].event.id == id ==> c[id].event in all
    ensures forall i, j :: 0 <= i < j < |all| ==> all[i].id != all[j].id && all[i].timestamp >= all[j].timestamp
    ensures pages >= 1 && limit * (pages - 1) <= |view| <= limit * pages
    ensures pages > 1 ==> limit * (pages - 1) < |view|
  {
    var offset := 0;
    var hasMore := true;
    all, pages := [], 0;
    while hasMore
      invariant offset == limit * pages
      invariant hasMore ==> offset <= |view| && all == view[..offset] && (pages > 0 ==> offset < |view|)
      invariant !hasMore ==> all == view && pages >= 1 && offset - limit <= |view| <= offset && (pages > 1 ==> offset - limit < |view|)
      decreases |view| + 1 - offset, hasMore
    {
      var docs, more, total := FindEvents(view, limit, offset, false);
      all := all + docs;
      hasMore := more;
      offset := offset + limit;
      pages := pages + 1;
    }
  }
}
