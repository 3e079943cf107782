/**
 * The mapping from a Prisma known-request error code to the message and the
 * HTTP status the handlers reply with (app/lib/errors.ts).
 */
module PrismaErrors {

  datatype ErrorInfo = ErrorInfo(message: string, status: int)

  /** Codes answered with 409 Conflict. */
  const ConflictCodes: set<string> := {"P2002"}

  /** Codes answered with 404 Not Found. */
  const NotFoundCodes: set<string> := {"P2001", "P2015", "P2021", "P2022"}

  /** The one listed code answered with 500. */
  const ServerErrorCodes: set<string> := {"P2010"}

  /** Codes answered with 400 Bad Request. */
  const BadRequestCodes: set<string> :=
    {"P2000", "P2003", "P2004", "P2005", "P2006", "P2007", "P2008", "P2009",
     "P2011", "P2012", "P2013", "P2014", "P2016", "P2017", "P2018", "P2019",
     "P2020", "P2023"}

  /** Every code the switch has a case for. */
  const ListedCodes: set<string> := ConflictCodes + NotFoundCodes + ServerErrorCodes + BadRequestCodes

  /** The message of the `default` branch. */
  const UnlistedMessage := "A known error occurred."

  /**
   * `prismaKnownErrorrs`: one switch over the error code. The initial status
   * 500 survives only on the `default` branch and for P2010.
   */
  function KnownRequestError(code: string): (r: ErrorInfo)
    ensures r.status in {400, 404, 409, 500}
    ensures code !in ListedCodes ==> r == ErrorInfo(UnlistedMessage, 500)
  {
    match code
    case "P2002" => ErrorInfo("This Item already exists or email/reg_no already assigned.", 409)
    case "P2000" => ErrorInfo("The provided value for the column is too long.", 400)
    case "P2001" => ErrorInfo("The record to update does not exist.", 404)
    case "P2003" => ErrorInfo("Foreign key constraint failed.", 400)
    case "P2004" => ErrorInfo("A constraint failed on the database.", 400)
    case "P2005" => ErrorInfo("The value is invalid for the given field.", 400)
    case "P2006" => ErrorInfo("The provided value for the field is invalid.", 400)
    case "P2007" => ErrorInfo("Data validation error.", 400)
    case "P2008" => ErrorInfo("Failed to parse query.", 400)
    case "P2009" => ErrorInfo("Failed to validate query.", 400)
    case "P2010" => ErrorInfo("Raw query failed.", 500)
    case "P2011" => ErrorInfo("Null constraint violation.", 400)
    case "P2012" => ErrorInfo("Missing a required value.", 400)
    case "P2013" => ErrorInfo("Missing the required argument.", 400)
    case "P2014" => ErrorInfo("Relation violation.", 400)
    case "P2015" => ErrorInfo("A related record was not found.", 404)
    case "P2016" => ErrorInfo("Query interpretation error.", 400)
    case "P2017" => ErrorInfo("The records for relation are not connected.", 400)
    case "P2018" => ErrorInfo("The required connected records were not found.", 400)
    case "P2019" => ErrorInfo("Input error.", 400)
    case "P2020" => ErrorInfo("Value out of range for the type.", 400)
    case "P2021" => ErrorInfo("Table does not exist.", 404)
    case "P2022" => ErrorInfo("Column does not exist.", 404)
    case "P2023" => ErrorInfo("Inconsistent column data.", 400)
    case _ => ErrorInfo(UnlistedMessage, 500)
  }

  /** P2002, a duplicate record, gives 409 with its own message. */
  lemma ConflictCodeStatus(code: string)
    requires code in ConflictCodes
    ensures KnownRequestError(code) ==
      ErrorInfo("This Item already exists or email/reg_no already assigned.", 409)
  {
  }

  /** The missing-record, missing-relation, missing-table and missing-column codes give 404. */
  lemma NotFoundCodeStatus(code: string)
    requires code in NotFoundCodes
    ensures KnownRequestError(code).status == 404
    ensures KnownRequestError(code).message != UnlistedMessage
  {
  }

  /** P2010, a failed raw query, keeps 500 with its own message. */
  lemma ServerErrorCodeStatus(code: string)
    requires code in ServerErrorCodes
    ensures KnownRequestError(code) == ErrorInfo("Raw query failed.", 500)
  {
  }

  /** Every other listed code gives 400. */
  lemma BadRequestCodeStatus(code: string)
    requires code in BadRequestCodes
    ensures KnownRequestError(code).status == 400
    ensures KnownRequestError(code).message != UnlistedMessage
  {
    if code in {"P2000", "P2003", "P2004", "P2005", "P2006", "P2007", "P2008", "P2009", "P2011"} {
      EarlyBadRequestCodeStatus(code);
    } else if code in {"P2012", "P2013", "P2014"} {
      RelationBadRequestCodeStatus(code);
    } else if code in {"P2016", "P2017", "P2018"} {
      QueryBadRequestCodeStatus(code);
    } else {
      LateBadRequestCodeStatus(code);
    }
  }

  /** The 400 codes below P2012, taken apart to keep each proof small. */
  lemma EarlyBadRequestCodeStatus(code: string)
    requires code in {"P2000", "P2003", "P2004", "P2005", "P2006", "P2007", "P2008", "P2009", "P2011"}
    ensures KnownRequestError(code).status == 400
    ensures KnownRequestError(code).message != UnlistedMessage
  {
  }

  /** The 400 codes P2012 to P2014. */
  lemma RelationBadRequestCodeStatus(code: string)
    requires code in {"P2012", "P2013", "P2014"}
    ensures KnownRequestError(code).status == 400
    ensures KnownRequestError(code).message != UnlistedMessage
  {
  }

  /** The 400 codes P2016 to P2018. */
  lemma QueryBadRequestCodeStatus(code: string)
    requires code in {"P2016", "P2017", "P2018"}
    ensures KnownRequestError(code).status == 400
    ensures KnownRequestError(code).message != UnlistedMessage
  {
  }

  /** The 400 codes P2019, P2020 and P2023. */
  lemma LateBadRequestCodeStatus(code: string)
    requires code in {"P2019", "P2020", "P2023"}
    ensures KnownRequestError(code).status == 400
    ensures KnownRequestError(code).message != UnlistedMessage
  {
  }

  /**
   * The four status groups are exactly the codes answered with each status,
   * and only unlisted codes get the generic message.
   */
  lemma StatusClasses(code: string)
    ensures KnownRequestError(code).status == 409 <==> code in ConflictCodes
    ensures KnownRequestError(code).status == 404 <==> code in NotFoundCodes
    ensures KnownRequestError(code).status == 400 <==> code in BadRequestCodes
    ensures KnownRequestError(code).status == 500 <==> code in ServerErrorCodes || code !in ListedCodes
    ensures KnownRequestError(code).message == UnlistedMessage <==> code !in ListedCodes
  {
    if code in ConflictCodes { ConflictCodeStatus(code); }
    if code in NotFoundCodes { NotFoundCodeStatus(code); }
    if code in ServerErrorCodes { ServerErrorCodeStatus(code); }
    if code in BadRequestCodes { BadRequestCodeStatus(code); }
  }
}
