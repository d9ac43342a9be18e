/** The Elasticsearch request bodies the handlers build: a boolean query tree
    of term, exists and nested clauses, and a list of terms aggregations. */
module Query {
  import opened Wrappers

  /** How the clauses of a `bool` query are combined: the `filter` list or the
      `must` list. Both are AND; neither scores here. */
  datatype Occur = FilterOccur | MustOccur

  /** One clause of a boolean query. */
  datatype Clause =
    | Term(field: string, value: string)
      // `{"term": {field: value}}`: exact match on one field
    | Exists(field: string)
      // `{"exists": {"field": field}}`
    | Nested(path: string, occur: Occur, inner: seq<Clause>)
      // `{"nested": {"path": path, "query": {"bool": {occur: inner}}}}`

  /** `{"terms": {"field": field}}` registered under the key `name` of `aggs`. */
  datatype TermsAgg = TermsAgg(name: string, field: string)

  /** A request body: the `aggs` entries in insertion order, and the list at
      `query.bool.filter`, which is absent when the handler never created the
      `query` key. */
  datatype SearchBody = SearchBody(aggs: seq<TermsAgg>, filter: Option<seq<Clause>>)

  /** The exceptions a builder can raise while filling in a body: a missing
      dictionary key, an index past the end of a list, or a method called on
      a value that lacks it (`.get` on `None` or on a non-dictionary). */
  datatype BuildError = KeyError(key: string) | IndexError | AttributeError

  /** The body `dict()` every handler starts from. */
  const EmptyBody: SearchBody := SearchBody([], None)

  /** `body["query"]["bool"]["filter"].append(c)`: extends an existing filter
      list by `c` and fails with `KeyError('query')` when there is none. */
  function AppendFilter(body: SearchBody, c: Clause): (r: Result<SearchBody, BuildError>)
    ensures body.filter.None? <==> r == Failure(KeyError("query"))
    ensures body.filter.Some? ==>
      r.Success? && r.value.aggs == body.aggs && r.value.filter == Some(body.filter.value + [c])
  {
    match body.filter
    case None => Failure(KeyError("query"))
    case Some(cs) => Success(body.(filter := Some(cs + [c])))
  }
}
