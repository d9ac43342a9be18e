/** The offset pagination loop of `downloader_utility_data`
    (app/main.py:128-135): one search at offset 0, then further searches at
    offset = number of hits collected so far, until that number reaches the
    reported total. */
module Pagination {
  import opened Wrappers

  /** The `size` every request of the loop asks for. */
  const PageSize: nat := 10000

  /** The search backend as seen by one query: the total it reports in
      `hits.total.value`, and the ordered hits it serves from. The same
      sequence answers every request of the loop, so the index is taken to be
      unchanged between pages; a total above `|docs|` stands for a backend
      that reports more hits than it can serve. A total below `|docs|` is the
      ordinary case for large result sets: by default Elasticsearch counts
      `hits.total.value` only up to 10000. */
  datatype Backend<D> = Backend(total: nat, docs: seq<D>)

  /** One response: the reported total and the hits of the requested window. */
  datatype Page<D> = Page(total: nat, hits: seq<D>)

  function Min(a: nat, b: nat): nat
  {
    if a <= b then a else b
  }

  /** `es.search(from_=offset, size=size)`: the window of `size` hits
      starting at `offset`, cut short at the end of the documents. */
  function Search<D>(b: Backend<D>, offset: nat, size: nat): (p: Page<D>)
    ensures p.total == b.total
    ensures |p.hits| == Min(size, |b.docs| - Min(offset, |b.docs|))
    ensures forall i :: 0 <= i < |p.hits| ==> p.hits[i] == b.docs[offset + i]
  {
    var start := Min(offset, |b.docs|);
    Page(b.total, b.docs[start..Min(start + size, |b.docs|)])
  }

  /** The loop as the code runs it, with `fuel` bounding the number of
      follow-up searches: `None` means the loop had not stopped when the fuel
      ran out. `collected` is the result list, whose length the code keeps
      in `results_count`. */
  function Paginate<D>(b: Backend<D>, collected: seq<D>, fuel: nat): (r: Option<seq<D>>)
    // the loop stops at once when the total is already reached
    ensures b.total <= |collected| ==> r == Some(collected)
    // when it stops, the total is reached and the hits collected before are kept in front
    ensures r.Some? ==> b.total <= |r.value| && |collected| <= |r.value| && r.value[..|collected|] == collected
    decreases fuel
  {
    if b.total <= |collected| then Some(collected)
    else if fuel == 0 then None
    else
      var next := collected + Search(b, |collected|, PageSize).hits;
      var r := Paginate(b, next, fuel - 1);
      assert r.Some? ==> r.value[..|collected|] == collected by {
        if r.Some? {
          PrefixOfPrefix(collected, next, r.value);
        }
      }
      r
  }

  /** A prefix of a prefix is a prefix. */
  lemma PrefixOfPrefix<D>(a: seq<D>, b: seq<D>, c: seq<D>)
    requires |a| <= |b| && b[..|a|] == a
    requires |b| <= |c| && c[..|b|] == b
    ensures c[..|a|] == a
  {
    assert c[..|a|] == c[..|b|][..|a|];
  }

  /** The hits of the first request, at offset 0. */
  function FirstPage<D>(b: Backend<D>): seq<D>
  {
    Search(b, 0, PageSize).hits
  }

  /** Every request the loop can make, at an offset below the reported
      total, gets at least one hit. */
  predicate EveryPageNonEmpty<D>(b: Backend<D>)
  {
    forall offset: nat :: offset < b.total ==> Search(b, offset, PageSize).hits != []
  }

  /** Pages are non-empty exactly when the backend serves at least as many
      documents as it reports. */
  lemma EveryPageNonEmptyIff<D>(b: Backend<D>)
    ensures EveryPageNonEmpty(b) <==> b.total <= |b.docs|
  {
    if b.total > |b.docs| {
      assert Search(b, |b.docs|, PageSize).hits == [];
    }
  }

  /** The number of searches the code issues for a reported total: one, and
      one more for every further full page, i.e. the total divided by the
      page size rounded up, and never less than one. */
  function ExpectedCalls(total: nat): nat
  {
    if total <= PageSize then 1 else (total + PageSize - 1) / PageSize
  }

  /** `ExpectedCalls` is the least number of pages that covers the total. */
  lemma ExpectedCallsLeast(total: nat, calls: nat)
    requires calls >= 1
    requires total <= calls * PageSize
    requires calls == 1 || (calls - 1) * PageSize < total
    ensures calls == ExpectedCalls(total)
  {
  }

  /** Worked example: 25000 documents take three searches. */
  lemma ThreeCallsFor25000()
    ensures ExpectedCalls(25000) == 3
  {
  }

  /** The loop, returning the collected hits and the offsets of the searches
      it issued. Each follow-up search starts where the collected hits end;
      when the backend serves all it reports, the result is exactly its
      documents in order. */
  method FetchAll<D>(b: Backend<D>) returns (result: seq<D>, offsets: seq<nat>)
    requires EveryPageNonEmpty(b)
    ensures |offsets| == ExpectedCalls(b.total)
    ensures forall i :: 0 <= i < |offsets| ==> offsets[i] == i * PageSize
    ensures b.total <= |result|
    ensures result == b.docs[..Min(|offsets| * PageSize, |b.docs|)]
    ensures b.total == |b.docs| ==> result == b.docs
    ensures Paginate(b, FirstPage(b), |offsets| - 1) == Some(result)
  {
    EveryPageNonEmptyIff(b);
    ghost var turns := ExpectedCalls(b.total) - 1;
    var page := Search(b, 0, PageSize);
    var totalCount := page.total;
    result := page.hits;
    var resultsCount := |page.hits|;
    offsets := [0];
    while totalCount > resultsCount
      invariant totalCount == b.total
      invariant resultsCount == |result|
      invariant 1 <= |offsets| <= turns + 1
      invariant forall i :: 0 <= i < |offsets| ==> offsets[i] == i * PageSize
      invariant result == b.docs[..Min(|offsets| * PageSize, |b.docs|)]
      invariant |offsets| == 1 || (|offsets| - 1) * PageSize < b.total
      invariant Paginate(b, FirstPage(b), turns) == Paginate(b, result, turns - (|offsets| - 1))
      decreases b.total - resultsCount
    {
      var next := Search(b, resultsCount, PageSize);
      NextPageExtendsPrefix(b, |offsets|, result);
      MoreCallsNeeded(b.total, |offsets|);
      offsets := offsets + [resultsCount];
      result := result + next.hits;
      resultsCount := resultsCount + |next.hits|;
    }
    ExpectedCallsLeast(b.total, |offsets|);
  }

  /** A total the first `calls` pages do not cover needs at least one more
      search. */
  lemma MoreCallsNeeded(total: nat, calls: nat)
    requires calls * PageSize < total
    ensures calls + 1 <= ExpectedCalls(total)
  {
  }

  /** While hits are missing, the collected prefix ends at a page boundary,
      and the next page extends it to the next boundary. */
  lemma NextPageExtendsPrefix<D>(b: Backend<D>, pages: nat, collected: seq<D>)
    requires |collected| < b.total <= |b.docs|
    requires collected == b.docs[..Min(pages * PageSize, |b.docs|)]
    ensures |collected| == pages * PageSize
    ensures collected + Search(b, |collected|, PageSize).hits == b.docs[..Min((pages + 1) * PageSize, |b.docs|)]
  {
  }

  /** While the collected hits are a prefix of the documents and fall short
      of a total the backend cannot reach, no amount of fuel ends the loop. */
  lemma {:induction false} PaginateStuck<D>(b: Backend<D>, collected: seq<D>, fuel: nat)
    requires |b.docs| < b.total
    requires |collected| <= |b.docs| && collected == b.docs[..|collected|]
    ensures Paginate(b, collected, fuel) == None
    decreases fuel
  {
    if fuel > 0 {
      var next := collected + Search(b, |collected|, PageSize).hits;
      assert |next| <= |b.docs| && next == b.docs[..|next|];
      PaginateStuck(b, next, fuel - 1);
    }
  }

  /** A backend that reports more than it serves (so some page comes back
      empty) makes the loop run forever: it never stops, whatever the number
      of follow-up searches allowed. */
  lemma EmptyPageDiverges<D>(b: Backend<D>, fuel: nat)
    requires !EveryPageNonEmpty(b)
    ensures Paginate(b, FirstPage(b), fuel) == None
  {
    EveryPageNonEmptyIff(b);
    PaginateStuck(b, FirstPage(b), fuel);
  }
}
