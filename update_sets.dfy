/**
 * What the three PATCH handlers share: the columns an update can write, the
 * values written, the truthiness test on request-body fields, and the
 * outcome of looking up the stored record.
 */
module UpdateSets {
  import opened Wrappers
  import opened Responses

  /** The keys an `updatedData` object can carry. */
  datatype Column = Password | AuthCode | Name | Email | RegNo | StaffNo | Unit | Department

  /** A written value: a bcrypt digest, a plain string, or `{ connect: { id } }` with a possibly missing id. */
  datatype Value = Hashed(digest: string) | Text(text: string) | ConnectUnit(id: Option<string>)

  type UpdateSet = map<Column, Value>

  /** JavaScript truthiness of a body field that is a string or missing. */
  predicate Truthy(v: Option<string>)
  {
    v.Some? && v.value != ""
  }

  /** `body.f && body.f !== record.f` */
  predicate Changed(v: Option<string>, stored: string)
  {
    Truthy(v) && v.value != stored
  }

  /** What `findUnique` gives: the record, `null`, or a thrown failure. */
  datatype Lookup<R> = Found(record: R) | Missing | Threw(failure: Failure)

  const NoDatabase: Reply := Json(false, Some("Database connection not found"), 200)
  const NoDataProvided: Reply := Json(false, Some("No data provided"), 200)
  const UpdateSucceeded: Reply := Json(true, None, 200)

  /** The reply once a non-empty update set has been handed to the store. */
  function WriteReply(writeFault: Option<Failure>): Reply
  {
    if writeFault.None? then UpdateSucceeded else FailureReply(writeFault.value)
  }
}
