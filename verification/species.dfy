/** `downloader_utility_data_with_species` (app/main.py:140-152): one term
    query on `_id` per comma-separated entry, hits concatenated in input
    order. */
module Species {
  import opened Wrappers
  import opened Strings
  import opened Query
  import opened Documents

  /** The body sent for one entry: `{"query": {"bool": {"filter": [{"term":
      {"_id": id}}]}}}`. The entry is used as it is, without stripping. */
  function IdQuery(id: string): SearchBody
  {
    SearchBody([], Some([Term("_id", id)]))
  }

  /** The body for an entry selects exactly the document stored under that
      entry, whatever the document holds, and asks for no aggregation. */
  lemma IdQuerySelectsOnlyId(id: string, docId: string, source: Source)
    ensures IdQuery(id).aggs == []
    ensures Selects(IdQuery(id), docId, source) <==> docId == id
  {
    assert IdQuery(id).filter.value[0] == Term("_id", id);
  }

  /** The hits of an entry's query are exactly the stored documents its body
      selects. */
  lemma IdHitsAreSelected(store: Store, id: string, h: Hit)
    ensures h in IdHits(store, id) <==> h.id in store && h.source == store[h.id] && Selects(IdQuery(id), h.id, h.source)
  {
    IdQuerySelectsOnlyId(id, h.id, h.source);
  }

  /** Whether a term clause accepts the document `source` stored under
      `docId`: `_id` is the document's id, any other field a text field of
      its source. */
  predicate TermAccepts(docId: string, source: Source, field: string, value: string)
  {
    if field == "_id" then docId == value else field in source && source[field] == Text(value)
  }

  /** Whether a body made of term clauses selects a document: every clause of
      its filter list accepts it, and a body without one selects all. Other
      kinds of clause select nothing here. */
  predicate Selects(body: SearchBody, docId: string, source: Source)
  {
    body.filter.Some? ==>
      forall i :: 0 <= i < |body.filter.value| ==>
        body.filter.value[i].Term? && TermAccepts(docId, source, body.filter.value[i].field, body.filter.value[i].value)
  }

  /** Reference definition: the hits of the `_id` queries for `ids`, one
      query after the other. */
  function LookupAll(store: Store, ids: seq<string>): (hits: seq<Hit>)
    ensures |hits| <= |ids|
    ensures forall h :: h in hits ==> h.id in ids && h.id in store && h.source == store[h.id]
    ensures forall i :: 0 <= i < |ids| && ids[i] in store ==> Hit(ids[i], store[ids[i]]) in hits
  {
    if |ids| == 0 then [] else IdHits(store, ids[0]) + LookupAll(store, ids[1..])
  }

  /** Looking up a concatenation is concatenating the lookups, so hits keep
      the order of the entries. */
  lemma {:induction false} LookupAllAppend(store: Store, a: seq<string>, b: seq<string>)
    ensures LookupAll(store, a + b) == LookupAll(store, a) + LookupAll(store, b)
    decreases |a|
  {
    if |a| == 0 {
      assert a + b == b;
    } else {
      assert (a + b)[0] == a[0];
      assert (a + b)[1..] == a[1..] + b;
      LookupAllAppend(store, a[1..], b);
    }
  }

  /** Extending the looked-up prefix by one entry adds that entry's hits. */
  lemma LookupAllPrefix(store: Store, ids: seq<string>, i: nat)
    requires i < |ids|
    ensures LookupAll(store, ids[..i + 1]) == LookupAll(store, ids[..i]) + IdHits(store, ids[i])
  {
    assert ids[..i + 1] == ids[..i] + [ids[i]];
    LookupAllAppend(store, ids[..i], [ids[i]]);
    assert LookupAll(store, [ids[i]]) == IdHits(store, ids[i]) + LookupAll(store, []);
  }

  /** The entries of a species list: none for the empty string, else the
      pieces between commas. */
  function Entries(speciesList: string): (ids: seq<string>)
    ensures speciesList == "" <==> ids == []
    ensures speciesList != "" ==> |ids| == Count(speciesList, ',') + 1
    ensures forall i :: 0 <= i < |ids| ==> ',' !in ids[i]
    ensures speciesList != "" ==> Join(ids, ',') == speciesList
  {
    if speciesList == "" then [] else Split(speciesList, ',')
  }

  /** The handler: the queries it sends, in order, and the hits it returns. */
  method DownloadWithSpecies(store: Store, speciesList: string) returns (queries: seq<SearchBody>, result: seq<Hit>)
    ensures speciesList == "" ==> queries == [] && result == []
    ensures |queries| == |Entries(speciesList)|
    ensures forall i :: 0 <= i < |queries| ==> queries[i] == IdQuery(Entries(speciesList)[i])
    ensures result == LookupAll(store, Entries(speciesList))
  {
    queries, result := [], [];
    var ids := Entries(speciesList);
    var i := 0;
    while i < |ids|
      invariant 0 <= i <= |ids|
      invariant |queries| == i
      invariant forall k :: 0 <= k < i ==> queries[k] == IdQuery(ids[k])
      invariant result == LookupAll(store, ids[..i])
    {
      queries := queries + [IdQuery(ids[i])];
      LookupAllPrefix(store, ids, i);
      result := result + IdHits(store, ids[i]);
      i := i + 1;
    }
    assert ids[..i] == ids;
  }

  /** A list written as entries joined by commas queries exactly those
      entries, in that order. */
  lemma EntriesOfJoin(ids: seq<string>)
    requires |ids| >= 1 && Join(ids, ',') != ""
    requires forall i :: 0 <= i < |ids| ==> ',' !in ids[i]
    ensures Entries(Join(ids, ',')) == ids
  {
    SplitJoin(ids, ',');
  }
}
