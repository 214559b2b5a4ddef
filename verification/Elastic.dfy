/** The Elasticsearch mirror: the projection of an event. */
module Elastic {
  import opened Events
  import Metadata

  /** An indexed document: the event and the text derived from its metadata. */
  datatype EsDoc = EsDoc(source: Event, metadataText: string)

  type Index = map<EventId, EsDoc>

  /** The projection `bulk_index` sends for an event. */
  function ToEs(e: Event): EsDoc {
    EsDoc(e, Metadata.Text(e.metadata))
  }

  /** The document holds the whole event and the joined listing of its metadata's leaves. */
  predicate Shows(d: EsDoc, e: Event) {
    d.source == e && d.metadataText == Metadata.Join(Metadata.Leaves(e.metadata))
  }

  /** Indexing the events of a batch whose id lies in `ids`; indexing is an upsert by id. */
  function IndexOnly(es: Index, docs: seq<Event>, ids: set<EventId>): Index
    decreases |docs|
  {
    if docs == [] then es
    else IndexOnly(if docs[0].id in ids then es[docs[0].id := ToEs(docs[0])] else es, docs[1..], ids)
  }

  lemma {:induction false} IndexOnlyAt(es: Index, docs: seq<Event>, ids: set<EventId>, id: EventId)
    ensures var r := IndexOnly(es, docs, ids);
      if id in Ids(docs) * ids then id in r && exists e :: e in docs && e.id == id && r[id] == ToEs(e)
      else (id in r <==> id in es) && (id in es ==> r[id] == es[id])
    decreases |docs|
  {
    if docs != [] {
      IdsFirst(docs);
      var es' := if docs[0].id in ids then es[docs[0].id := ToEs(docs[0])] else es;
      hide Ids, ToEs;
      IndexOnlyAt(es', docs[1..], ids, id);
      if id in Ids(docs[1..]) * ids {
        var e :| e in docs[1..] && e.id == id && IndexOnly(es, docs, ids)[id] == ToEs(e);
        assert e in docs;
      } else {
        assert docs[0] in docs;
      }
    }
  }

  lemma {:induction false} IndexOnlySpec(es: Index, docs: seq<Event>, ids: set<EventId>)
    ensures var r := IndexOnly(es, docs, ids);
      && r.Keys == es.Keys + (Ids(docs) * ids)
      && (forall id :: id in es && id !in Ids(docs) * ids ==> r[id] == es[id])
      && (forall id :: id in Ids(docs) * ids ==> exists e :: e in docs && e.id == id && r[id] == ToEs(e))
  {
    hide IndexOnly, Ids, ToEs;
    var r := IndexOnly(es, docs, ids);
    forall id
      ensures id in r <==> id in es || id in Ids(docs) * ids
      ensures id in es && id !in Ids(docs) * ids ==> r[id] == es[id]
      ensures id in Ids(docs) * ids ==> exists e :: e in docs && e.id == id && r[id] == ToEs(e)
    {
      IndexOnlyAt(es, docs, ids, id);
    }
  }

  /** Each document that got through is the one indexed, unless a later one of the batch has its id. */
  lemma {:induction false} LastWins(es: Index, docs: seq<Event>, ids: set<EventId>, k: nat)
    requires k < |docs| && docs[k].id in ids
    requires forall j :: k < j < |docs| ==> docs[j].id != docs[k].id
    ensures docs[k].id in IndexOnly(es, docs, ids) && Shows(IndexOnly(es, docs, ids)[docs[k].id], docs[k])
    decreases |docs|
  {
    var es' := if docs[0].id in ids then es[docs[0].id := ToEs(docs[0])] else es;
    IndexOnlySpec(es', docs[1..], ids);
    if k == 0 {
      assert docs[0].id !in Ids(docs[1..]);
    } else {
      LastWins(es', docs[1..], ids, k - 1);
    }
  }
}
