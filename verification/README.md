# dtol-status-tracking request shaping, in Dafny

This project models the pure data-shaping logic of the status-tracking backend of
the Darwin Tree of Life data portal. The backend is a FastAPI service in front of
Elasticsearch. It covers:

- **`downloader_utility_data`**. It turns `taxonomy_filter`, `data_status` and
  `experiment_type` into a `query.bool.filter` list of Elasticsearch clauses. It
  then pages through the hits of the `data_portal` index with an
  offset-pagination loop of 10000-hit pages (`Downloader`, `Pagination`,
  `DownloaderUtility`). The taxonomy lookup it reads the rank and name from is
  in `Taxonomy`.
- **`downloader_utility_data_with_species`**. It runs one `_id` term query per
  comma-separated species and concatenates the hits (`Species`).
- **`status_update`, `app/` revision**. It checks the status against five accepted
  values, then does a read-modify-write on the document stored under the
  species' `_id`, setting the status as a `True` field. Errors are reported
  in-band (`StatusUpdate`).
- **`status_update`, top-level `main.py` revision**. It only validates, against
  four values (`LegacyStatus`).
- **`index`**. It builds one page query with three fixed terms aggregations and
  optional term filters, and reshapes the response into
  `{count, results, aggregations}` (`PagedIndex`).

Supporting modules:

- `Strings` models Python's `str.split(sep)` and `str.strip()`.
- `Query` is the clause tree of a request body.
- `Documents` is the `data_portal` index as a store keyed by `_id`.
- `StatusRequest` is the shared `StatusBody` request model.
- `Wrappers` holds `Option` and `Result`.

Several services outside this code become parameters:

- The Elasticsearch client is a backend value: `Backend` (a reported total and
  the ordered hits it serves), `Store` (a map from `_id` to document), or a
  search function for `index`.
- The Neo4j taxonomy lookup (`NeoFourJ.get_rank`) is an uninterpreted
  `resolve: string -> TaxonMatch`.

Python exceptions raised while a body is built (`KeyError`, `IndexError`,
`AttributeError`) become
`Failure` values of `Result`.

Behaviour modelled as the code has it:

- `data_status` is split on every `-`, not on the delimiter `" - "`. The category
  is the first piece, stripped. The value is the second piece, stripped, so
  anything after a second dash is dropped.
- An unrecognised category adds nothing and raises nothing.
- Only the taxonomy step creates the filter list. A recognised status or a
  non-empty experiment type without a taxonomy filter therefore raises
  `KeyError('query')`.
- A term category with no dash raises `IndexError`. Python looks up
  `body["query"]` before it evaluates `split_array[1]`, so `KeyError` wins when
  both apply.
- The pagination loop has no guard against making no progress. If the backend
  reports more hits than it serves, the loop never ends
  (`Pagination.EmptyPageDiverges`). The handler model reports this outcome as
  `NeverReturns`.
- The handler reads the looked-up taxonomy node through
  `result.get('parent').get(...)`, but the lookup returns the node itself,
  whose properties are never maps. For a non-empty taxonomy filter the handler
  therefore raises `AttributeError` (see "## Findings"). The rest of the model
  uses the evidently intended reading: the node's own `rank` and `name`.
- The status update uses no concurrency control and asks for no refresh. Two
  updates of one record whose searches both come before either write lose a
  flag (`StatusUpdate.InterleavedUpdatesLoseOne`).

## Model

| member | source | states |
|---|---|---|
| `Query.AppendFilter` | app/main.py:76-77 | appending to `body["query"]["bool"]["filter"]` extends the list by exactly the clause and keeps the aggregations; with no `query` key it fails with `KeyError('query')`, and only then |
| `Strings.Split` | app/main.py:74 | `str.split` on one character gives one more piece than separators, no piece holds the separator, and joining the pieces gives back the input |
| `Strings.SplitJoin` | app/main.py:74 | splitting a join of separator-free pieces gives back exactly those pieces |
| `Strings.SplitFirst` | app/main.py:74-75 | the first piece is everything before the first dash, whatever follows, and the remaining pieces are the split of the rest |
| `Strings.Strip` | app/main.py:75 | `strip()` returns the infix of the input that neither starts nor ends with white space; everything cut off either end is white space |
| `Strings.StripIdempotent` | app/main.py:75 | stripping twice is stripping once |
| `Downloader.FieldIn` | app/main.py:75-95 | the category chain finds a field only for a listed category and with that category's field, and finds none exactly when no entry names the category |
| `Downloader.TaxonomyStep` | app/main.py:47-72 | a non-empty taxonomy filter creates the filter list holding only the taxonomy clause; an empty one leaves the body without `query`; no aggregations either way |
| `Downloader.StatusClauses` | app/main.py:73-111 | a data status contributes at most one clause, and one exactly when its category is one of the six term categories or "Genome Notes" |
| `Downloader.StatusStep` | app/main.py:73-111 | without a filter list, a recognised status raises `KeyError` and anything else leaves the body alone; with one, the only failure is `IndexError` for a term category lacking a second piece, and otherwise the status clauses are appended |
| `Downloader.ExperimentStep` | app/main.py:112-127 | a non-empty experiment type appends the nested `experiment.library_construction_protocol.keyword` clause, or raises `KeyError` when there is no filter list |
| `Downloader.BuildQuery` | app/main.py:44-127 | no aggregations; the filter list exists iff the taxonomy filter is non-empty; without taxonomy, a recognised status or an experiment type is `KeyError`, otherwise the body is empty; with taxonomy, the only failure is `IndexError`; clauses appear in the order taxonomy, status, experiment, at most one each, 1 to 3 in all |
| `Downloader.TaxonomyClauseUsesOneRank` | app/main.py:47-72 | the first clause is nested on `taxonomies.<rank>` and its term field is `taxonomies.<rank>.scientificName` for the same looked-up rank, with the looked-up name as value |
| `Downloader.StatusTermClause` | app/main.py:73-95 | a first piece that strips to one of the six term categories yields exactly one term clause, second in the list, on that category's field, valued by the stripped second piece |
| `Downloader.GenomeNotesIgnoresValue` | app/main.py:96-111 | "Genome Notes" appends the same nested `exists genome_notes.url` clause whatever follows the dash |
| `Downloader.UnknownCategoryIgnored` | app/main.py:73-111 | an unrecognised category builds the same body, or raises the same error, as an empty data status |
| `Downloader.MissingValueFails` | app/main.py:74-95 | a term category without a dash raises `IndexError` with any non-empty taxonomy filter and `KeyError('query')` with an empty one |
| `Pagination.Search` | app/main.py:128-133 | a search returns the reported total and the window of hits starting at the offset, at most `size` long |
| `Pagination.Paginate` | app/main.py:132-135 | the loop as written, with fuel bounding the follow-up searches: it stops at once when the collected hits reach the total; whenever it stops, the total is reached and the hits collected before are kept in front |
| `Pagination.EveryPageNonEmptyIff` | app/main.py:132-135 | every request below the reported total gets a non-empty page exactly when the backend serves at least as many hits as it reports |
| `Pagination.ExpectedCallsLeast` | app/main.py:128-135 | the number of searches is the least number of 10000-hit pages covering the total, and never less than one |
| `Pagination.ThreeCallsFor25000` | app/main.py:128-135 | 25000 hits take three searches |
| `Pagination.FetchAll` | app/main.py:128-135 | the i-th search is at offset i*10000, where the hits collected so far end; there are ⌈total/10000⌉ searches (one if total ≤ 10000); the result is the backend's hits in order, all of them when it serves what it reports; it agrees with the fuel-bounded loop `Paginate` |
| `Pagination.PaginateStuck` | app/main.py:132-135 | once the collected hits are a prefix of a backend that serves fewer than it reports, the loop never stops, whatever the fuel |
| `Pagination.EmptyPageDiverges` | app/main.py:132-135 | if some page can come back empty, the loop from the first page never terminates, for any number of follow-up searches |
| `DownloaderUtility.DownloaderUtilityData` | app/main.py:43-137 | a build failure is raised before any search, and nothing is raised after a successful build; the handler never returns exactly when the backend reports more hits than it serves, and then the loop stops for no number of searches; otherwise it returns hits: at least the reported number, what ⌈total/10000⌉ searches collect, and exactly the backend's hits when the backend serves what it reports |
| `Documents.IdHits` | app/main.py:147-149 | an `_id` term query returns the one document stored under that id, or nothing |
| `Species.IdQuerySelectsOnlyId` | app/main.py:147-148 | the body `IdQuery` sends for an entry selects exactly the document stored under that entry, whatever it holds, and asks for no aggregation |
| `Species.IdQuery` | app/main.py:147-148 | the body for one entry: a single `_id` term on the entry as given, unstripped, and no aggregation; its meaning is stated by `Species.IdQuerySelectsOnlyId` |
| `Species.IdHitsAreSelected` | app/main.py:147-149 | the hits of an entry's query are exactly the stored documents its body selects |
| `Species.LookupAll` | app/main.py:146-151 | every returned hit is a stored document for one of the entries, and every entry that is stored contributes its document |
| `Species.LookupAllAppend` | app/main.py:146-151 | looking up a concatenation of entries is concatenating their lookups, so hits follow input order |
| `Species.Entries` | app/main.py:144-145 | an empty list has no entries; otherwise there is one entry more than commas, none containing a comma, and joining the entries with commas gives back the list |
| `Species.DownloadWithSpecies` | app/main.py:140-152 | one `_id` term query per entry in input order (none for an empty list), and the hits are the concatenated lookups of the entries |
| `Species.EntriesOfJoin` | app/main.py:144-146 | a list written as comma-joined entries queries exactly those entries |
| `StatusUpdate.MarkStatus` | app/main.py:168 | the document gains the status key set to `True`, every other field keeps its value |
| `StatusUpdate.UpdateStatus` | app/main.py:155-176 | the request fields pass through; an unknown status is an error "Couldn't recognize status" with no search or write; a known status searches once by `_id`; a missing record is an error "This record doesn't exist in data portal" with no write; an existing record is written back under its `_id` with the status flag set, answered with `success` and the update message |
| `StatusUpdate.SuccessIff` | app/main.py:157-175 | the update succeeds iff the status is accepted and the record exists, and the store changes only on success |
| `StatusUpdate.UpdateChangesOneField` | app/main.py:165-172 | a successful update creates or removes no record and touches no other record; the target gains the status flag `True` and keeps every other field |
| `StatusUpdate.UpdateIdempotent` | app/main.py:165-169 | repeating an update leaves the store as the first one left it |
| `StatusUpdate.InterleavedUpdatesLoseOne` | app/main.py:165-169 | sequential updates of two statuses on one record, with a refresh between them, keep both flags; with both searches before both writes, the first flag is lost |
| `LegacyStatus.ValidateStatus` | main.py:17-27 | the request fields pass through; a status outside the four accepted values gives `error` and "Couldn't recognize status"; one inside gives `success` and leaves `message` unchanged |
| `LegacyStatus.VerdictDependsOnStatusOnly` | main.py:19-26 | two requests with the same status get the same verdict, and the same message when they came with the same message; success iff the status is accepted |
| `LegacyStatus.ValidateIdempotent` | main.py:17-27 | validating a validated body changes nothing |
| `LegacyStatus.AcceptedSetsDiffer` | main.py:19-22 | this revision's accepted set is the `app/` revision's minus `sample_in_sequencing` |
| `LegacyStatus.SequencingRejectedHereOnly` | main.py:19-24 | `sample_in_sequencing` is rejected here, while the `app/` revision goes on to search for the record |
| `PagedIndex.IndexBody` | app/main.py:209-233 | always exactly three terms aggregations, named after and bucketing journalTitle, pubYear and articleType; `query` exists iff at least one filter parameter is truthy |
| `PagedIndex.FilterTermsInOrder` | app/main.py:221-233 | the filter holds a term for each truthy parameter, on its field with its value, nothing else, in the order articleType, journalTitle, pubYear |
| `PagedIndex.Shape` | app/main.py:235-238 | the envelope reads back as the response it was made from |
| `PagedIndex.ShapeLossless` | app/main.py:235-238 | the envelope determines the response: nothing of it is dropped |
| `PagedIndex.Index` | app/main.py:204-239 | one search of `data_index` with the given offset, limit and built body; the envelope's count, results and aggregations are the response's total, hits and aggregations |
| `PagedIndex.IndexFirstPage` | app/main.py:205 | without `offset` and `limit` the handler searches from offset 0 for 15 hits, and answers with that response's total, hits and aggregations |
| `Taxonomy.ParentGet` | app/main.py:57 | `result.get('parent').get(key)` on a node raises `AttributeError` for every node, with or without a `parent` property |
| `Taxonomy.BuildQueryAsWritten` | app/main.py:47-72 | the handler as written: for a non-empty filter it reads rank and name through `result.get('parent')`; its outcome is stated by `Taxonomy.AccessorChainAlwaysFails` |
| `Taxonomy.AccessorChainAlwaysFails` | app/main.py:49-72 | as written, every non-empty taxonomy filter ends in `AttributeError`, whatever node the lookup returns; an empty filter builds what the corrected handler builds |
| `Taxonomy.BuildQueryIntended` | app/main.py:49-72 | reading rank and name from the node itself never raises; the only errors are those of the body builder |
| `Taxonomy.IntendedTaxonomyClause` | app/main.py:55-68 | corrected, a node with text `rank` and `name` yields a first clause nested on `taxonomies.<rank>` that matches `<name>` on `taxonomies.<rank>.scientificName` |

## Left out

- `login`, app/deps.py and schemas.py: JWT encoding and decoding, token expiry against the clock and password hashing are calls into foreign libraries. The pydantic schemas hold no logic.
- app/neofourj.py: the Neo4j driver and the Cypher query built by string concatenation. The lookup is the parameter `resolve` (the returned node's rank and name) or `lookup` (the node itself). Its failures are not modelled: `result.single()` finding no node, a fragment containing `"` that breaks the concatenated Cypher string, and a fragment with regular-expression metacharacters such as `(` that breaks the `=~` pattern (app/neofourj.py:25). Nor is opening or closing the driver.
- Downloader.BuildQuery: its "with taxonomy, the only failure is `IndexError`" holds because `resolve` always gives a rank and name. The handler's accessor chain `result.get('parent').get('rank')` / `.get('name')` on the node from `result.single()[0]` is modelled separately in `Taxonomy`, where it always raises `AttributeError`.
- Taxonomy.NodeMatch: a missing `rank` renders as `taxonomies.None`, as in Python's f-string. A missing or non-text `name` is sent by Python as JSON `null` or as its raw value; the model sends its `str()` text.
- The Elasticsearch client, `async`/`await`, FastAPI routing and CORS are I/O plumbing. Searches and writes are backend values or functions passed in.
- The authenticated user `Depends(get_current_user)` of `status_update` is not modelled: it only gates access.
- The index is assumed unchanged between the requests of one pagination loop. A reported total below the number of hits served is the ordinary case for large result sets, because Elasticsearch by default counts `hits.total.value` only up to 10000 (relation `gte`). Such a loop stops after the first page whose end reaches the reported total, and `Pagination.FetchAll` returns that page-boundary prefix. A `Backend` is one fixed sequence served to every request, and "the backend's hits in order" means that sequence. Deletions between pages, which shift later hits below the next offset, and insertions, which repeat hits, are not modelled.
- Elasticsearch's `max_result_window` (by default `from + size` may not exceed 10000) is not modelled. Backends serve any window.
- The default `size` of 10 for the species and status-update searches is not modelled. An `_id` matches at most one document, so the default never truncates.
- StatusUpdate.UpdateStatus: the lookup `q=_id:<species_name>` is a Lucene query-string search. It is modelled as an exact `_id` lookup, which holds only for names without white space or query syntax. The usual two-word species name is not such a name: `_id:Genus species` reads as `_id:Genus OR species`, with `species` matched on the default fields. The first hit can then be another document, whose `_source` gets the flag and is written under the species name, overwriting the target. Where the model answers "This record doesn't exist", the code can instead create a new record and report success. `StatusUpdate.UpdateChangesOneField` and `StatusUpdate.SuccessIff` hold only for names the query string matches exactly.
- StatusUpdate.InterleavedUpdatesLoseOne: its "sequential updates keep both flags" half assumes that a search sees every earlier write, as the model's `Store` does. Elasticsearch search is near-real-time: a write becomes visible to search only after the next refresh (by default within a second), and the handler's `es.search` and `es.index` (app/main.py:165-169) ask for none. A second update inside that window reads the old `_source` and drops the first flag, as in the interleaved order. `StatusUpdate.UpdateChangesOneField` likewise assumes the search reads the latest write.
- Pagination.FetchAll: requires that every page below the reported total is non-empty, because a Dafny method must terminate. The diverging case is covered by `Pagination.EmptyPageDiverges` on the fuel-bounded `Pagination.Paginate`.
- `data_status is not None` and `experiment_type is not None`: the parameters are required strings, so `None` never arrives and the model takes strings.
- `index`: offset and limit are passed through unchanged. Their defaults (0 and 15) are modelled by `PagedIndex.IndexFirstPage`. Elasticsearch's rejection of negative values, and a response without `aggregations`, are not modelled.
- Features the code does not have are not modelled: generic `field:value` filter lists, configurable facet fields, a `" - "` delimiter, an error on unknown categories, and a no-progress guard on pagination.
- `biosamlpe_id` is an untyped list in the code. It is modelled as a sequence of strings and passed through untouched.

## Findings

| source | as written | input that shows it | evidently intended | confidence | as-written member | corrected member |
|---|---|---|---|---|---|---|
| app/main.py:57-68 | reads the looked-up taxonomy as `result.get('parent').get('rank')` and `.get('name')`, but `result` is the node `RETURN parent` yields (app/neofourj.py:24-26), and a node property is never a map | any non-empty `taxonomy_filter` whose lookup finds a node: `.get` is called on `None` or on a non-dictionary property value | `result.get('rank')` and `result.get('name')`, the matched node's own properties | plausible; not executed | `Taxonomy.AccessorChainAlwaysFails` | `Taxonomy.IntendedTaxonomyClause` |
