/** `status_update` of the `app/` revision (app/main.py:155-176): validate
    the status against a fixed list, look the species up by `_id`, set the
    status as a flag on its document and write the whole document back under
    the same `_id`. Failures are reported in the response body. */
module StatusUpdate {
  import opened Wrappers
  import opened Documents
  import opened StatusRequest

  /** The statuses this revision accepts. */
  const Accepted: set<string> := {
    "sample_received", "sample_released_for_lab_processing",
    "sample_in_sequencing", "sample_in_assembly",
    "sample_recollection_required"
  }

  const NotFound: string := "This record doesn't exist in data portal"

  /** The store requests the handler issues: the `_id` search and the
      whole-document write. */
  datatype StoreOp = SearchById(id: string) | IndexDoc(id: string, source: Source)

  /** The response, and the store requests made to produce it. */
  datatype Outcome = Outcome(response: StatusBody, ops: seq<StoreOp>)

  /** The store after one request: a write replaces the whole document. */
  function Perform(store: Store, op: StoreOp): Store
  {
    match op
    case SearchById(_) => store
    case IndexDoc(id, source) => store[id := source]
  }

  /** The store after the requests, in order. */
  function Apply(store: Store, ops: seq<StoreOp>): Store
    decreases |ops|
  {
    if |ops| == 0 then store else Apply(Perform(store, ops[0]), ops[1..])
  }

  /** Two requests in a row. */
  lemma ApplyPair(store: Store, a: StoreOp, b: StoreOp)
    ensures Apply(store, [a, b]) == Perform(Perform(store, a), b)
  {
    assert [a, b][1..] == [b];
    assert [b][1..] == [];
    calc {
      Apply(store, [a, b]);
      Apply(Perform(store, a), [b]);
      Apply(Perform(Perform(store, a), b), []);
    }
  }

  /** The document with the status set as a `True` field. */
  function MarkStatus(source: Source, status: string): (r: Source)
    ensures r.Keys == source.Keys + {status}
    ensures r[status] == Flag(true)
    ensures forall k :: k in source && k != status ==> r[k] == source[k]
  {
    source[status := Flag(true)]
  }

  /** The success message, a one-element list. */
  function Updated(status: string, speciesName: string): Message
  {
    Lines(["status " + status + " was updated for " + speciesName])
  }

  function UpdateStatus(store: Store, body: StatusBody): (out: Outcome)
    ensures SameRequest(out.response, body)
    // an unknown status is answered at once: no search, no write
    ensures body.status !in Accepted ==>
      && out.ops == []
      && out.response.processingStatus == Some("error")
      && out.response.message == Some(Plain(Unrecognized))
    // a known status searches for the species once, by `_id`
    ensures body.status in Accepted ==> |out.ops| >= 1 && out.ops[0] == SearchById(body.speciesName)
    // a missing record is reported and nothing is written
    ensures body.status in Accepted && body.speciesName !in store ==>
      && out.ops == [SearchById(body.speciesName)]
      && out.response.processingStatus == Some("error")
      && out.response.message == Some(Plain(NotFound))
    // an existing record is written back under its `_id`, with the status set
    ensures body.status in Accepted && body.speciesName in store ==>
      && out.ops == [SearchById(body.speciesName),
                     IndexDoc(body.speciesName, MarkStatus(store[body.speciesName], body.status))]
      && out.response.processingStatus == Some("success")
      && out.response.message == Some(Updated(body.status, body.speciesName))
  {
    if body.status !in Accepted then
      Outcome(body.(processingStatus := Some("error"), message := Some(Plain(Unrecognized))), [])
    else if body.speciesName !in store then
      Outcome(body.(processingStatus := Some("error"), message := Some(Plain(NotFound))),
              [SearchById(body.speciesName)])
    else
      var updated := MarkStatus(store[body.speciesName], body.status);
      Outcome(body.(processingStatus := Some("success"), message := Some(Updated(body.status, body.speciesName))),
              [SearchById(body.speciesName), IndexDoc(body.speciesName, updated)])
  }

  /** The update succeeds exactly for an accepted status on an existing
      record, and only then does the store change. */
  lemma SuccessIff(store: Store, body: StatusBody)
    ensures var out := UpdateStatus(store, body);
      && (out.response.processingStatus == Some("success")
          <==> body.status in Accepted && body.speciesName in store)
      && (out.response.processingStatus == Some("success") || Apply(store, out.ops) == store)
  {
  }

  /** What a successful update does to the store: no record is created or
      removed, other records are untouched, and the target record gains the
      status flag while every other field keeps its value. */
  lemma UpdateChangesOneField(store: Store, body: StatusBody)
    requires body.status in Accepted && body.speciesName in store
    ensures var after := Apply(store, UpdateStatus(store, body).ops);
      && after.Keys == store.Keys
      && (forall id :: id in store && id != body.speciesName ==> after[id] == store[id])
      && after[body.speciesName].Keys == store[body.speciesName].Keys + {body.status}
      && after[body.speciesName][body.status] == Flag(true)
      && (forall k :: k in store[body.speciesName] && k != body.status ==>
            after[body.speciesName][k] == store[body.speciesName][k])
  {
    var ops := UpdateStatus(store, body).ops;
    ApplyPair(store, ops[0], ops[1]);
  }

  /** Repeating an update leaves the store as the first one left it. */
  lemma UpdateIdempotent(store: Store, body: StatusBody)
    ensures var once := Apply(store, UpdateStatus(store, body).ops);
      Apply(once, UpdateStatus(once, body).ops) == once
  {
    var ops := UpdateStatus(store, body).ops;
    if body.status in Accepted && body.speciesName in store {
      ApplyPair(store, ops[0], ops[1]);
      var once := Apply(store, ops);
      var ops2 := UpdateStatus(once, body).ops;
      ApplyPair(once, ops2[0], ops2[1]);
      assert MarkStatus(once[body.speciesName], body.status) == once[body.speciesName];
    } else {
      assert ops == [] || ops == [SearchById(body.speciesName)];
      assert ops != [] ==> ops[1..] == [];
    }
  }

  /** There is no concurrency control: run one after the other, with a
      refresh between them so that the second search sees the first write,
      two updates of one record keep both status flags; but when both
      searches happen before either write, the second write carries the
      first read and the first flag is lost. A `Store` is read-after-write
      consistent, which Elasticsearch search is only after a refresh. */
  lemma InterleavedUpdatesLoseOne(store: Store, first: StatusBody, second: StatusBody)
    requires first.status in Accepted && second.status in Accepted
    requires first.speciesName == second.speciesName && first.speciesName in store
    requires first.status != second.status && first.status !in store[first.speciesName]
    ensures var id := first.speciesName;
      var a := UpdateStatus(store, first).ops;
      var b := UpdateStatus(store, second).ops;
      var afterFirst := Apply(store, a);
      var sequential := Apply(afterFirst, UpdateStatus(afterFirst, second).ops);
      var interleaved := Apply(store, [a[0], b[0]] + [a[1], b[1]]);
      && id in sequential && first.status in sequential[id] && second.status in sequential[id]
      && id in interleaved && first.status !in interleaved[id] && second.status in interleaved[id]
  {
    var id := first.speciesName;
    var a := UpdateStatus(store, first).ops;
    var b := UpdateStatus(store, second).ops;
    ApplyPair(store, a[0], a[1]);
    var afterFirst := Apply(store, a);
    var c := UpdateStatus(afterFirst, second).ops;
    ApplyPair(afterFirst, c[0], c[1]);
    var ops := [a[0], b[0]] + [a[1], b[1]];
    assert ops[1..] == [b[0], a[1], b[1]];
    ApplyPair(store, a[1], b[1]);
    assert Apply(store, ops) == Apply(store, [a[1], b[1]]) by {
      assert ops[1..][1..] == [a[1], b[1]];
    }
  }
}
