/** `status_update` of the top-level revision (main.py:17-27): validation
    only, against a four-value list; nothing is looked up or stored. */
module LegacyStatus {
  import opened Wrappers
  import opened StatusRequest
  import StatusUpdate
  import Documents

  /** The statuses this revision accepts. */
  const LegacyAccepted: set<string> := {
    "sample_received", "sample_released_for_lab_processing",
    "sample_in_assembly", "sample_recollection_required"
  }

  function ValidateStatus(body: StatusBody): (r: StatusBody)
    ensures SameRequest(r, body)
    ensures body.status !in LegacyAccepted ==>
      r.processingStatus == Some("error") && r.message == Some(Plain(Unrecognized))
    ensures body.status in LegacyAccepted ==>
      r.processingStatus == Some("success") && r.message == body.message
  {
    if body.status !in LegacyAccepted then
      body.(processingStatus := Some("error"), message := Some(Plain(Unrecognized)))
    else
      body.(processingStatus := Some("success"))
  }

  /** The outcome depends on the status alone: two requests with the same
      status get the same verdict, and the same message unless it was kept. */
  lemma VerdictDependsOnStatusOnly(a: StatusBody, b: StatusBody)
    requires a.status == b.status
    ensures ValidateStatus(a).processingStatus == ValidateStatus(b).processingStatus
    ensures a.message == b.message ==> ValidateStatus(a).message == ValidateStatus(b).message
    ensures ValidateStatus(a).processingStatus == Some("success") <==> a.status in LegacyAccepted
  {
  }

  /** Validating a validated body changes nothing. */
  lemma ValidateIdempotent(body: StatusBody)
    ensures ValidateStatus(ValidateStatus(body)) == ValidateStatus(body)
  {
  }

  /** This revision accepts exactly the statuses of the `app/` revision
      except `sample_in_sequencing`. */
  lemma AcceptedSetsDiffer()
    ensures LegacyAccepted == StatusUpdate.Accepted - {"sample_in_sequencing"}
    ensures "sample_in_sequencing" in StatusUpdate.Accepted
  {
  }

  /** So a `sample_in_sequencing` request is rejected here, while the `app/`
      revision goes on to search for the record. */
  lemma SequencingRejectedHereOnly(body: StatusBody, store: Documents.Store)
    requires body.status == "sample_in_sequencing"
    ensures ValidateStatus(body).processingStatus == Some("error")
    ensures StatusUpdate.UpdateStatus(store, body).ops != []
  {
    AcceptedSetsDiffer();
  }
}
