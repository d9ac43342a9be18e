/** The whole `downloader_utility_data` handler (app/main.py:43-137): build
    the body, then page through the hits of `data_portal` with it. */
module DownloaderUtility {
  import opened Wrappers
  import opened Query
  import opened Documents
  import opened Downloader
  import opened Pagination

  /** How a call of the handler ends: an exception while the body is built,
      the collected hits, or a pagination loop that never stops. */
  datatype Reply = Raised(error: BuildError) | Hits(hits: seq<Hit>) | NeverReturns

  /** `backend` gives, for each body, what `data_portal` reports and serves
      for it. A build failure is raised before any search; a backend that
      reports more hits than it serves keeps the loop searching forever. */
  method DownloaderUtilityData(taxonomyFilter: string, dataStatus: string, experimentType: string,
                               resolve: string -> TaxonMatch, backend: SearchBody -> Backend<Hit>)
    returns (r: Reply)
    ensures var built := BuildQuery(taxonomyFilter, dataStatus, experimentType, resolve);
      && (built.Failure? ==> r == Raised(built.error))
      && (r.Raised? ==> built.Failure?)
      && (built.Success? ==>
            (r.NeverReturns? <==> |backend(built.value).docs| < backend(built.value).total))
    ensures r.NeverReturns? ==>
      var b := backend(BuildQuery(taxonomyFilter, dataStatus, experimentType, resolve).value);
      forall fuel: nat :: Paginate(b, FirstPage(b), fuel) == None
    ensures r.Hits? ==>
      var b := backend(BuildQuery(taxonomyFilter, dataStatus, experimentType, resolve).value);
      && b.total <= |r.hits|
      && Paginate(b, FirstPage(b), ExpectedCalls(b.total) - 1) == Some(r.hits)
      && (b.total == |b.docs| ==> r.hits == b.docs)
  {
    var built := BuildQuery(taxonomyFilter, dataStatus, experimentType, resolve);
    if built.Failure? {
      return Raised(built.error);
    }
    var b := backend(built.value);
    EveryPageNonEmptyIff(b);
    if |b.docs| < b.total {
      forall fuel: nat
        ensures Paginate(b, FirstPage(b), fuel) == None
      {
        EmptyPageDiverges(b, fuel);
      }
      return NeverReturns;
    }
    var hits, offsets := FetchAll(b);
    r := Hits(hits);
  }
}
