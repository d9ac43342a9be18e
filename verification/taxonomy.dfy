/** The taxonomy lookup of `downloader_utility_data` (app/main.py:49, 57, 68)
    against the node `NeoFourJ._get_rank` returns (app/neofourj.py:22-26).
    The Cypher query ends in `RETURN parent`, and `result.single()[0]` is that
    node itself. The handler reads it as if it were a record holding a
    `parent` map: `result.get('parent').get('rank')`. A node property is never
    a map, so that chain raises for every node. The intended reading is the
    node's own `rank` and `name`. */
module Taxonomy {
  import opened Wrappers
  import opened Query
  import opened Downloader

  /** A Neo4j property value. Properties are never maps: `PText` is a string
      property, `POther` any other kind (number, boolean, list) given by its
      `str()` text. */
  datatype Property = PText(s: string) | POther(shown: string)

  /** A node as the driver returns it: its properties. */
  datatype Node = Node(properties: map<string, Property>)

  /** `node.get(key)`: the property, or `None`. */
  function Get(node: Node, key: string): Option<Property>
  {
    if key in node.properties then Some(node.properties[key]) else None
  }

  /** `node.get('parent').get(key)` as written: `.get` on `None` or on a
      property value (a string, number, boolean or list) raises
      `AttributeError`, so the chain never yields a value. */
  function ParentGet(node: Node, key: string): (r: Result<Property, BuildError>)
    ensures r == Failure(AttributeError)
  {
    match Get(node, "parent")
    case None => Failure(AttributeError)
    case Some(_) => Failure(AttributeError)
  }

  /** The handler as written: for a non-empty filter, looks the node up and
      reads rank and name through the `parent` chain, then builds the body. */
  function BuildQueryAsWritten(taxonomyFilter: string, dataStatus: string, experimentType: string,
                               lookup: string -> Node): (r: Result<SearchBody, BuildError>)
  {
    if taxonomyFilter == "" then BuildQuery(taxonomyFilter, dataStatus, experimentType, _ => TaxonMatch("", ""))
    else
      var node := lookup(taxonomyFilter);
      match ParentGet(node, "rank")
      case Failure(error) => Failure(error)
      case Success(rank) =>
        match ParentGet(node, "name")
        case Failure(error) => Failure(error)
        case Success(name) =>
          BuildQuery(taxonomyFilter, dataStatus, experimentType, _ => TaxonMatch(Shown(Some(rank)), Shown(Some(name))))
  }

  /** As written, every non-empty taxonomy filter ends in `AttributeError`,
      whatever node the lookup finds; an empty one builds the body the
      corrected handler builds. */
  lemma AccessorChainAlwaysFails(taxonomyFilter: string, dataStatus: string, experimentType: string,
                                 lookup: string -> Node)
    ensures taxonomyFilter != "" ==>
      BuildQueryAsWritten(taxonomyFilter, dataStatus, experimentType, lookup) == Failure(AttributeError)
    ensures taxonomyFilter == "" ==>
      BuildQueryAsWritten(taxonomyFilter, dataStatus, experimentType, lookup)
      == BuildQueryIntended(taxonomyFilter, dataStatus, experimentType, lookup)
  {
  }

  /** Python's `str()` of an optional property, as an f-string renders it. */
  function Shown(p: Option<Property>): string
  {
    match p
    case None => "None"
    case Some(PText(s)) => s
    case Some(POther(shown)) => shown
  }

  /** The rank and name the handler evidently means: the matched node's own
      `rank` and `name` properties. */
  function NodeMatch(node: Node): TaxonMatch
  {
    TaxonMatch(Shown(Get(node, "rank")), Shown(Get(node, "name")))
  }

  /** The corrected handler: the taxonomy clause is built from the node's own
      properties. */
  function BuildQueryIntended(taxonomyFilter: string, dataStatus: string, experimentType: string,
                              lookup: string -> Node): (r: Result<SearchBody, BuildError>)
    // reading the node never raises: the errors are those of the body builder
    ensures r.Failure? ==> r.error != AttributeError
  {
    BuildQuery(taxonomyFilter, dataStatus, experimentType, x => NodeMatch(lookup(x)))
  }

  /** Corrected, a node with text `rank` and `name` yields a first clause
      nested on `taxonomies.<rank>` that matches `<name>` on that rank's
      `scientificName`. */
  lemma IntendedTaxonomyClause(taxonomyFilter: string, dataStatus: string, experimentType: string,
                               lookup: string -> Node, rank: string, name: string)
    requires taxonomyFilter != ""
    requires Get(lookup(taxonomyFilter), "rank") == Some(PText(rank))
    requires Get(lookup(taxonomyFilter), "name") == Some(PText(name))
    ensures var r := BuildQueryIntended(taxonomyFilter, dataStatus, experimentType, lookup);
      r.Success? ==> r.value.filter.value[0]
                     == Nested("taxonomies." + rank, FilterOccur, [Term("taxonomies." + rank + ".scientificName", name)])
  {
    var r := BuildQueryIntended(taxonomyFilter, dataStatus, experimentType, lookup);
    if r.Success? {
      TaxonomyClauseUsesOneRank(taxonomyFilter, dataStatus, experimentType, x => NodeMatch(lookup(x)));
    }
  }
}
