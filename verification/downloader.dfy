/** The request body `downloader_utility_data` builds from its three query
    parameters (app/main.py:43-127): an optional taxonomy clause, an optional
    data-status clause and an optional experiment clause, appended in that
    order to `query.bool.filter`. The list is created only by the taxonomy
    step, so the later steps raise `KeyError` when the taxonomy filter is
    empty. */
module Downloader {
  import opened Wrappers
  import opened Strings
  import opened Query

  /** The `parent` node the taxonomy graph lookup returns for a free-text
      fragment: its rank (`genus`, `family`, ...) and scientific name. */
  datatype TaxonMatch = TaxonMatch(rank: string, name: string)

  /** The six data-status categories that become a term clause, in the
      order the handler tests them, each with the field it filters on. */
  const StatusTable: seq<(string, string)> := [
    ("Biosamples", "biosamples"),
    ("Raw Data", "raw_data"),
    ("Mapped Reads", "mapped_reads"),
    ("Assemblies", "assemblies_status"),
    ("Annotation Complete", "annotation_complete"),
    ("Annotation", "annotation_status")
  ]

  /** The field of the first entry of `table` named `category`, if any. */
  function FieldIn(table: seq<(string, string)>, category: string): (f: Option<string>)
    ensures f.Some? ==> (category, f.value) in table
    ensures f.None? ==> forall i :: 0 <= i < |table| ==> table[i].0 != category
  {
    if |table| == 0 then None
    else if table[0].0 == category then Some(table[0].1)
    else FieldIn(table[1..], category)
  }

  /** The field a term category filters on; `None` for any other string. */
  function TermField(category: string): Option<string>
  {
    FieldIn(StatusTable, category)
  }

  /** The seventh category, which asks for a genome note instead of a term. */
  const GenomeNotes: string := "Genome Notes"

  /** Some nested `genome_notes` entry has a `url`. */
  const GenomeNotesClause: Clause := Nested("genome_notes", MustOccur, [Exists("genome_notes.url")])

  /** The nested taxonomy clause for a looked-up ancestor: path and term field
      are both built from its rank. */
  function TaxonomyClause(m: TaxonMatch): Clause
  {
    var path := "taxonomies." + m.rank;
    Nested(path, FilterOccur, [Term(path + ".scientificName", m.name)])
  }

  /** Some nested `experiment` entry has exactly this library construction
      protocol. */
  function ExperimentClause(experimentType: string): Clause
  {
    Nested("experiment", MustOccur, [Term("experiment.library_construction_protocol.keyword", experimentType)])
  }

  /** The pieces of `data_status` around each `-`. */
  function StatusParts(dataStatus: string): seq<string>
  {
    Split(dataStatus, '-')
  }

  /** The category a data-status string names: its first piece, stripped. */
  function Category(dataStatus: string): string
  {
    Strip(StatusParts(dataStatus)[0])
  }

  /** A data status that produces a clause at all. */
  predicate Recognized(dataStatus: string)
  {
    dataStatus != "" && (TermField(Category(dataStatus)).Some? || Category(dataStatus) == GenomeNotes)
  }

  /** A data status whose clause needs the value after the first dash. */
  predicate NeedsValue(dataStatus: string)
  {
    dataStatus != "" && TermField(Category(dataStatus)).Some?
  }

  /** The clauses a data status contributes when nothing fails: none for an
      empty or unknown category, the genome-note clause for "Genome Notes",
      and otherwise one term on the category's field whose value is the second
      piece, stripped. */
  function StatusClauses(dataStatus: string): (cs: seq<Clause>)
    requires NeedsValue(dataStatus) ==> |StatusParts(dataStatus)| >= 2
    ensures |cs| <= 1
    ensures |cs| == 1 <==> Recognized(dataStatus)
  {
    if !Recognized(dataStatus) then []
    else if NeedsValue(dataStatus) then
      [Term(TermField(Category(dataStatus)).value, Strip(StatusParts(dataStatus)[1]))]
    else [GenomeNotesClause]
  }

  /** The clauses an experiment type contributes when nothing fails. */
  function ExperimentClauses(experimentType: string): (cs: seq<Clause>)
  {
    if experimentType == "" then [] else [ExperimentClause(experimentType)]
  }

  /** Step 1 (app/main.py:47-72): a non-empty taxonomy filter creates the
      filter list holding the taxonomy clause. */
  function TaxonomyStep(taxonomyFilter: string, resolve: string -> TaxonMatch): (body: SearchBody)
    ensures body.aggs == []
    // the filter list exists exactly for a non-empty filter, holding only the taxonomy clause
    ensures body.filter.Some? <==> taxonomyFilter != ""
    ensures body.filter.Some? ==> body.filter.value == [TaxonomyClause(resolve(taxonomyFilter))]
  {
    if taxonomyFilter != "" then SearchBody([], Some([TaxonomyClause(resolve(taxonomyFilter))]))
    else EmptyBody
  }

  /** Step 2 (app/main.py:73-111). Python looks up `body["query"]` before it
      evaluates `split_array[1]`, so a missing list is reported ahead of a
      missing second piece. */
  function StatusStep(body: SearchBody, dataStatus: string): (r: Result<SearchBody, BuildError>)
    ensures body.filter.None? ==>
      r == if Recognized(dataStatus) then Failure(KeyError("query")) else Success(body)
    ensures body.filter.Some? ==>
      (r.Failure? <==> NeedsValue(dataStatus) && |StatusParts(dataStatus)| < 2)
    ensures body.filter.Some? && r.Failure? ==> r.error == IndexError
    ensures r.Success? && body.filter.Some? ==>
      r.value == body.(filter := Some(body.filter.value + StatusClauses(dataStatus)))
  {
    if dataStatus == "" then
      assert body.filter.Some? ==> body.filter.value + [] == body.filter.value;
      Success(body)
    else
      var parts := StatusParts(dataStatus);
      var category := Strip(parts[0]);
      if TermField(category).Some? then
        if body.filter.None? then Failure(KeyError("query"))
        else if |parts| < 2 then Failure(IndexError)
        else AppendFilter(body, Term(TermField(category).value, Strip(parts[1])))
      else if category == GenomeNotes then AppendFilter(body, GenomeNotesClause)
      else
        assert body.filter.Some? ==> body.filter.value + [] == body.filter.value;
        Success(body)
  }

  /** Step 3 (app/main.py:112-127). */
  function ExperimentStep(body: SearchBody, experimentType: string): (r: Result<SearchBody, BuildError>)
    ensures body.filter.None? ==>
      r == if experimentType != "" then Failure(KeyError("query")) else Success(body)
    ensures body.filter.Some? ==>
      r == Success(body.(filter := Some(body.filter.value + ExperimentClauses(experimentType))))
  {
    if experimentType != "" then AppendFilter(body, ExperimentClause(experimentType))
    else
      assert body.filter.Some? ==> body.filter.value + [] == body.filter.value;
      Success(body)
  }

  /** The body `downloader_utility_data` sends, or the exception it raises
      before sending anything. `resolve` stands for the taxonomy graph lookup,
      consulted only for a non-empty taxonomy filter. */
  function BuildQuery(taxonomyFilter: string, dataStatus: string, experimentType: string,
                      resolve: string -> TaxonMatch): (r: Result<SearchBody, BuildError>)
    // no aggregations are ever requested
    ensures r.Success? ==> r.value.aggs == []
    // the filter list exists exactly when the taxonomy filter is non-empty
    ensures r.Success? ==> (r.value.filter.Some? <==> taxonomyFilter != "")
    // without a taxonomy filter, any clause to add is a KeyError; else the body is empty
    ensures taxonomyFilter == "" ==>
      if Recognized(dataStatus) || experimentType != "" then r == Failure(KeyError("query"))
      else r == Success(EmptyBody)
    // with one, the only failure is a term category lacking the value after the dash
    ensures taxonomyFilter != "" ==>
      (r.Failure? <==> NeedsValue(dataStatus) && |StatusParts(dataStatus)| < 2)
    ensures taxonomyFilter != "" && r.Failure? ==> r.error == IndexError
    // clauses come in the order taxonomy, status, experiment, at most one each
    ensures r.Success? && taxonomyFilter != "" ==>
      && r.value.filter.value
         == [TaxonomyClause(resolve(taxonomyFilter))] + StatusClauses(dataStatus) + ExperimentClauses(experimentType)
      && 1 <= |r.value.filter.value| <= 3
  {
    var afterTaxonomy := TaxonomyStep(taxonomyFilter, resolve);
    var afterStatus :- StatusStep(afterTaxonomy, dataStatus);
    ExperimentStep(afterStatus, experimentType)
  }

  /** The taxonomy clause searches the nested object of the looked-up rank
      and matches that same rank's scientific name. */
  lemma TaxonomyClauseUsesOneRank(taxonomyFilter: string, dataStatus: string, experimentType: string,
                                  resolve: string -> TaxonMatch)
    requires taxonomyFilter != ""
    requires BuildQuery(taxonomyFilter, dataStatus, experimentType, resolve).Success?
    ensures var c := BuildQuery(taxonomyFilter, dataStatus, experimentType, resolve).value.filter.value[0];
      && c.Nested?
      && c.path == "taxonomies." + resolve(taxonomyFilter).rank
      && c.occur == FilterOccur
      && c.inner == [Term(c.path + ".scientificName", resolve(taxonomyFilter).name)]
  {
  }

  /** A recognised data status that does not fail puts its clause right
      after the taxonomy clause. */
  lemma StatusClauseSecond(taxonomyFilter: string, dataStatus: string, experimentType: string,
                           resolve: string -> TaxonMatch)
    requires taxonomyFilter != "" && Recognized(dataStatus)
    requires NeedsValue(dataStatus) ==> |StatusParts(dataStatus)| >= 2
    ensures var r := BuildQuery(taxonomyFilter, dataStatus, experimentType, resolve);
      && r.Success?
      && r.value.filter.value
         == [TaxonomyClause(resolve(taxonomyFilter))] + [StatusClauses(dataStatus)[0]] + ExperimentClauses(experimentType)
  {
    var cs := StatusClauses(dataStatus);
    SingleMiddle([TaxonomyClause(resolve(taxonomyFilter))], cs, ExperimentClauses(experimentType));
  }

  /** A one-element middle part can be written out. */
  lemma SingleMiddle<T>(front: seq<T>, middle: seq<T>, back: seq<T>)
    requires |middle| == 1
    ensures front + middle + back == front + [middle[0]] + back
  {
  }

  /** A term category yields exactly one term clause, right after the
      taxonomy clause, on the category's field with the stripped text between
      the first and second dash as value. */
  lemma StatusTermClause(taxonomyFilter: string, head: string, tail: string, experimentType: string,
                         resolve: string -> TaxonMatch)
    requires taxonomyFilter != ""
    requires '-' !in head && TermField(Strip(head)).Some?
    ensures var dataStatus := head + "-" + tail;
      var r := BuildQuery(taxonomyFilter, dataStatus, experimentType, resolve);
      && r.Success?
      && |StatusClauses(dataStatus)| == 1
      && r.value.filter.value[1] == Term(TermField(Strip(head)).value, Strip(StatusParts(tail)[0]))
  {
    TermCategoryClauses(head, tail);
    StatusClauseSecond(taxonomyFilter, head + "-" + tail, experimentType, resolve);
  }

  /** The clause of "<category>-<rest>" for a term category. */
  lemma TermCategoryClauses(head: string, tail: string)
    requires '-' !in head && TermField(Strip(head)).Some?
    ensures var dataStatus := head + "-" + tail;
      && NeedsValue(dataStatus)
      && |StatusParts(dataStatus)| >= 2
      && StatusClauses(dataStatus) == [Term(TermField(Strip(head)).value, Strip(StatusParts(tail)[0]))]
  {
    var dataStatus := head + "-" + tail;
    SplitFirst(head, '-', tail);
    var parts := StatusParts(dataStatus);
    assert parts == [head] + StatusParts(tail);
    assert parts[0] == head && parts[1] == StatusParts(tail)[0];
    assert Category(dataStatus) == Strip(head);
  }

  /** "Genome Notes" adds the same clause whatever follows the dash. */
  lemma GenomeNotesIgnoresValue(taxonomyFilter: string, head: string, tail: string, experimentType: string,
                                resolve: string -> TaxonMatch)
    requires taxonomyFilter != ""
    requires '-' !in head && Strip(head) == GenomeNotes
    ensures var r := BuildQuery(taxonomyFilter, head + "-" + tail, experimentType, resolve);
      && r.Success?
      && r.value.filter.value
         == [TaxonomyClause(resolve(taxonomyFilter))] + [GenomeNotesClause] + ExperimentClauses(experimentType)
  {
    GenomeNotesCategoryClauses(head, tail);
    StatusClauseSecond(taxonomyFilter, head + "-" + tail, experimentType, resolve);
  }

  /** The clause of "Genome Notes-<rest>". */
  lemma GenomeNotesCategoryClauses(head: string, tail: string)
    requires '-' !in head && Strip(head) == GenomeNotes
    ensures var dataStatus := head + "-" + tail;
      && Recognized(dataStatus)
      && !NeedsValue(dataStatus)
      && StatusClauses(dataStatus) == [GenomeNotesClause]
  {
    SplitFirst(head, '-', tail);
    assert StatusParts(head + "-" + tail)[0] == head;
    GenomeNotesIsNoTermCategory();
  }

  /** "Genome Notes" is not one of the six term categories. */
  lemma GenomeNotesIsNoTermCategory()
    ensures TermField(GenomeNotes) == None
  {
  }

  /** An unknown category is ignored: the body is the one built without any
      data status, with or without a taxonomy filter. */
  lemma UnknownCategoryIgnored(taxonomyFilter: string, dataStatus: string, experimentType: string,
                               resolve: string -> TaxonMatch)
    requires !Recognized(dataStatus)
    ensures BuildQuery(taxonomyFilter, dataStatus, experimentType, resolve)
            == BuildQuery(taxonomyFilter, "", experimentType, resolve)
  {
  }

  /** A term category without a dash reaches `split_array[1]` and raises
      `IndexError` when a taxonomy filter is given, `KeyError` otherwise. */
  lemma MissingValueFails(taxonomyFilter: string, dataStatus: string, experimentType: string,
                          resolve: string -> TaxonMatch)
    requires '-' !in dataStatus && TermField(Strip(dataStatus)).Some?
    ensures BuildQuery(taxonomyFilter, dataStatus, experimentType, resolve)
            == if taxonomyFilter == "" then Failure(KeyError("query")) else Failure(IndexError)
  {
    SplitNoSep(dataStatus, '-');
    assert Category(dataStatus) == Strip(dataStatus);
  }
}
