/**
 * HTTP exchanges seen from both ends: the server answers with a status code
 * and a JSON body; the client's request promise resolves with the body of a
 * 2xx answer and rejects otherwise, carrying the body of the answer if one
 * arrived. The JSON bodies of the endpoints the core uses are records of
 * optional fields.
 */
module Responses {
  import opened Wrappers
  import opened Dataset

  datatype Reply<B> = Reply(code: int, body: B)

  datatype Fetched<B> = Resolved(body: B) | Rejected(payload: Option<B>)

  /** How the HTTP client settles a request that got an answer: 2xx resolves. */
  function Fetch<B>(r: Reply<B>): (f: Fetched<B>)
    ensures f.Resolved? <==> 200 <= r.code < 300
    ensures f.Resolved? ==> f.body == r.body
    ensures f.Rejected? ==> f.payload == Some(r.body)
  {
    if 200 <= r.code < 300 then Resolved(r.body) else Rejected(Some(r.body))
  }

  /** A JSON string field that is present and non-empty (truthy). */
  predicate Truthy(s: Option<string>) {
    s.Some? && s.value != ""
  }

  const ErrorOccurred := "Error occurred"

  /** `error.response?.data?.status || 'Error occurred'`. */
  function ErrorStatus(payloadStatus: Option<string>): (s: string)
    ensures s != ""
    ensures Truthy(payloadStatus) ==> s == payloadStatus.value
    ensures !Truthy(payloadStatus) ==> s == ErrorOccurred
  {
    if Truthy(payloadStatus) then payloadStatus.value else ErrorOccurred
  }

  /** Body of the folder-status endpoint. */
  datatype StatusBody = StatusBody(status: Option<string>, files: Option<seq<string>>, error: Option<string>)

  /** Body of the view-data endpoint. */
  datatype ViewBody = ViewBody(status: Option<string>, data: Option<Sheets>, error: Option<string>)

  /** Body of the upload endpoint. */
  datatype UploadBody = UploadBody(message: Option<string>, data: Option<Sheets>, error: Option<string>)

  /** Body of the processing-trigger endpoint. */
  datatype TriggerBody = TriggerBody(
    status: Option<string>, message: Option<string>, filename: Option<string>, error: Option<string>)

  /** The status of a rejected request's payload, when there is one. */
  function PayloadStatus<B>(payload: Option<B>, status: B -> Option<string>): Option<string> {
    if payload.Some? then status(payload.value) else None
  }

  /**
   * The `(status, files)` pair a folder-status check leaves behind, shared
   * by both status views: a resolved check takes the answer's status and
   * file list (an absent list reads as empty); a rejected one takes the
   * payload's status or "Error occurred" and clears the list.
   */
  function CheckOutcome(f: Fetched<StatusBody>): (r: (string, seq<string>))
    ensures f.Rejected? ==> r.1 == [] && r.0 == ErrorStatus(PayloadStatus(f.payload, (b: StatusBody) => b.status))
    ensures f.Resolved? && f.body.status.Some? ==> r.0 == f.body.status.value
    ensures f.Resolved? ==> r.1 == if f.body.files.Some? then f.body.files.value else []
  {
    match f
    case Resolved(b) => (b.status.GetOr(""), b.files.GetOr([]))
    case Rejected(p) => (ErrorStatus(if p.Some? then p.value.status else None), [])
  }
}
