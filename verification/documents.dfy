/** The `data_portal` index seen as a document store keyed by `_id`. */
module Documents {

  /** A JSON value inside a stored document. */
  datatype Value =
    | Null
    | Flag(b: bool)
    | Number(n: int)
    | Text(s: string)
    | Items(elems: seq<Value>)
    | Object(fields: map<string, Value>)

  /** A document's `_source`: its top-level fields. */
  type Source = map<string, Value>

  /** The index: each `_id` holds at most one document. */
  type Store = map<string, Source>

  /** One search hit: the document's `_id` and its `_source`. */
  datatype Hit = Hit(id: string, source: Source)

  /** The hits of a term query on `_id`: the one document stored under `id`,
      or none. */
  function IdHits(store: Store, id: string): (hits: seq<Hit>)
    ensures |hits| <= 1
    ensures |hits| == 1 <==> id in store
    ensures forall h :: h in hits ==> h.id == id && id in store && h.source == store[id]
  {
    if id in store then [Hit(id, store[id])] else []
  }
}
