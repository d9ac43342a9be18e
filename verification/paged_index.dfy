/** The catch-all `/{data_index}` handler `index` (app/main.py:204-239): one
    page of an index, always with three terms aggregations, filtered by the
    optional `articleType`, `journalTitle` and `pubYear` parameters, and
    reshaped into a `{count, results, aggregations}` envelope. */
module PagedIndex {
  import opened Wrappers
  import opened Query
  import opened Documents

  /** One bucket of a terms aggregation. */
  datatype Bucket = Bucket(key: string, docCount: nat)

  /** The `aggregations` part of a response, by aggregation name. */
  type Aggregations = map<string, seq<Bucket>>

  /** `es.search(index=..., from_=..., size=..., body=...)`. */
  datatype SearchRequest = SearchRequest(index: string, offset: int, limit: int, body: SearchBody)

  /** The parts of a response the handler reads. */
  datatype SearchResponse = SearchResponse(total: nat, hits: seq<Hit>, aggregations: Aggregations)

  /** What the handler returns. */
  datatype Envelope = Envelope(count: nat, results: seq<Hit>, aggregations: Aggregations)

  /** The aggregations, in the order they are added to `aggs`. */
  const FacetAggs: seq<TermsAgg> := [
    TermsAgg("journalTitle", "journalTitle"),
    TermsAgg("pubYear", "pubYear"),
    TermsAgg("articleType", "articleType")
  ]

  /** Python truthiness of an optional string: present and non-empty. */
  predicate Truthy(o: Option<string>)
  {
    o.Some? && o.value != ""
  }

  /** The parameter a filter field comes from. */
  function ParamFor(field: string, articleType: Option<string>, journalTitle: Option<string>,
                    pubYear: Option<string>): Option<string>
  {
    if field == "articleType" then articleType
    else if field == "journalTitle" then journalTitle
    else if field == "pubYear" then pubYear
    else None
  }

  /** Position of a filter field in the order the handler appends them. */
  function FieldRank(field: string): nat
  {
    if field == "articleType" then 0
    else if field == "journalTitle" then 1
    else if field == "pubYear" then 2
    else 3
  }

  function TermIf(field: string, param: Option<string>): seq<Clause>
  {
    if Truthy(param) then [Term(field, param.value)] else []
  }

  /** The body the handler sends. */
  function IndexBody(articleType: Option<string>, journalTitle: Option<string>, pubYear: Option<string>): (body: SearchBody)
    // exactly three aggregations, each bucketing the field it is named after
    ensures |body.aggs| == 3
    ensures forall i :: 0 <= i < 3 ==> body.aggs[i].field == body.aggs[i].name
    ensures {body.aggs[0].name, body.aggs[1].name, body.aggs[2].name} == {"journalTitle", "pubYear", "articleType"}
    // `query` exists exactly when some filter parameter is truthy
    ensures body.filter.Some? <==> Truthy(articleType) || Truthy(journalTitle) || Truthy(pubYear)
  {
    var filters := TermIf("articleType", articleType) + TermIf("journalTitle", journalTitle) + TermIf("pubYear", pubYear);
    SearchBody(FacetAggs,
               if Truthy(articleType) || Truthy(journalTitle) || Truthy(pubYear) then Some(filters) else None)
  }

  /** The filter holds one term per truthy parameter, on that parameter's
      field and with its value, in the order articleType, journalTitle,
      pubYear, and nothing else. */
  lemma FilterTermsInOrder(articleType: Option<string>, journalTitle: Option<string>, pubYear: Option<string>)
    requires IndexBody(articleType, journalTitle, pubYear).filter.Some?
    ensures var filters := IndexBody(articleType, journalTitle, pubYear).filter.value;
      && (Truthy(articleType) ==> Term("articleType", articleType.value) in filters)
      && (Truthy(journalTitle) ==> Term("journalTitle", journalTitle.value) in filters)
      && (Truthy(pubYear) ==> Term("pubYear", pubYear.value) in filters)
      && (forall i :: 0 <= i < |filters| ==>
            && filters[i].Term?
            && Truthy(ParamFor(filters[i].field, articleType, journalTitle, pubYear))
            && filters[i].value == ParamFor(filters[i].field, articleType, journalTitle, pubYear).value)
      && (forall i, k :: 0 <= i < k < |filters| ==> FieldRank(filters[i].field) < FieldRank(filters[k].field))
  {
  }

  /** The envelope: the reported total, the page of hits and the
      aggregations, each taken over unchanged. */
  function Shape(response: SearchResponse): (e: Envelope)
    // reading the envelope back gives the response
    ensures Response(e) == response
  {
    Envelope(response.total, response.hits, response.aggregations)
  }

  /** The response an envelope was made from. */
  function Response(e: Envelope): SearchResponse
  {
    SearchResponse(e.count, e.results, e.aggregations)
  }

  /** Nothing of the response is lost in the envelope. */
  lemma ShapeLossless(a: SearchResponse, b: SearchResponse)
    requires Shape(a) == Shape(b)
    ensures a == b
  {
  }

  /** The page the handler serves when `offset` and `limit` are not given. */
  const DefaultOffset: int := 0
  const DefaultLimit: int := 15

  /** A request without `offset` and `limit`: the first 15 hits. */
  function IndexFirstPage(search: SearchRequest -> SearchResponse, dataIndex: string,
                          articleType: Option<string>, journalTitle: Option<string>, pubYear: Option<string>): (e: Envelope)
    ensures var response := search(SearchRequest(dataIndex, 0, 15, IndexBody(articleType, journalTitle, pubYear)));
      && e.count == response.total
      && e.results == response.hits
      && e.aggregations == response.aggregations
  {
    Index(search, dataIndex, DefaultOffset, DefaultLimit, articleType, journalTitle, pubYear)
  }

  /** The handler: one search for the page `offset .. offset + limit` of
      `dataIndex`, answered in an envelope. `search` stands for the search
      backend. */
  function Index(search: SearchRequest -> SearchResponse, dataIndex: string, offset: int, limit: int,
                 articleType: Option<string>, journalTitle: Option<string>, pubYear: Option<string>): (e: Envelope)
    ensures var response := search(SearchRequest(dataIndex, offset, limit, IndexBody(articleType, journalTitle, pubYear)));
      && e.count == response.total
      && e.results == response.hits
      && e.aggregations == response.aggregations
  {
    Shape(search(SearchRequest(dataIndex, offset, limit, IndexBody(articleType, journalTitle, pubYear))))
  }
}
