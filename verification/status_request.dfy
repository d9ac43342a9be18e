/** The `StatusBody` request model both revisions of `/status_update/`
    receive and hand back (app/main.py:19-25, main.py:5-11). */
module StatusRequest {
  import opened Wrappers

  /** `message` is declared as a string, but the `app/` revision stores a
      one-element list in it on success. */
  datatype Message = Plain(text: string) | Lines(lines: seq<string>)

  datatype StatusBody = StatusBody(
    status: string,
    biosampleIds: seq<string>,  // the field is spelled `biosamlpe_id` in the code
    tolId: string,
    speciesName: string,
    processingStatus: Option<string>,
    message: Option<Message>)

  const Unrecognized: string := "Couldn't recognize status"

  /** The request fields a handler only passes through. */
  predicate SameRequest(a: StatusBody, b: StatusBody)
  {
    && a.status == b.status
    && a.biosampleIds == b.biosampleIds
    && a.tolId == b.tolId
    && a.speciesName == b.speciesName
  }
}
