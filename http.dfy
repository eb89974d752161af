/** The outcomes a note handler sends back, with their HTTP status codes. */
module Http {
  import NoteModel

  /** Why a request was refused with 400. */
  datatype BadRequestReason =
    | TitleRequired
    | InvalidNoteId
    | QueryRequired
    | ValidationFailed(paths: seq<NoteModel.Path>)

  /** A refusal: 400 for a bad request or an exceeded quota, 403, 404, and 500 for a thrown error. */
  datatype Failure =
    | BadRequest(reason: BadRequestReason)
    | QuotaExceeded(usedHundredthsMB: nat, limitMB: nat)
    | Forbidden
    | NotFound
    | ServerError

  /** A reply: 200 with a value, 201 with a newly created value, or a refusal. */
  datatype Response<+T> = Ok(value: T) | Created(value: T) | Fail(failure: Failure)
}
