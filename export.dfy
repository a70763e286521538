/**
 * The export handler, `GET /api/admin/export`: it refuses callers who are not
 * the admin, fetches every entry (most recent first) and sends them as a CSV
 * file. The admin inputs and the query's answer are parameters; the query's
 * answer is read only on the admin path.
 */
module Export {
  import opened Wrappers
  import opened WaitlistTypes
  import opened Http
  import opened Auth
  import opened Csv
  import opened CsvDecode

  /**
   * The answer of the select query: an error (its message) and the rows, as
   * the client returns them; rows arrive already ordered by creation time,
   * newest first.
   */
  datatype QueryResult = QueryResult(error: Option<string>, data: Option<seq<Entry>>)

  function HandleExport(adminEmail: Option<string>, user: Option<User>, query: QueryResult): (r: Response)
    ensures !IsAdmin(adminEmail, user) ==> r == ErrorReply(401, "Unauthorized")
    ensures IsAdmin(adminEmail, user) && (query.error.Some? || query.data.None?) ==> r == ErrorReply(500, "Server error")
    ensures r.Attachment? <==> IsAdmin(adminEmail, user) && query.error.None? && query.data.Some?
    ensures r.Attachment? ==> r.status == 200 && r.text == Document(query.data.value)
                              && ParseDocument(r.text) == Some(Table(query.data.value))
  {
    if !IsAdmin(adminEmail, user) then ErrorReply(401, "Unauthorized")
    else if query.error.Some? || query.data.None? then ErrorReply(500, "Server error")
    else
      DocumentRoundTrip(query.data.value);
      Attachment(200, Document(query.data.value))
  }

  /** A caller who is not the admin gets the same reply whatever the table holds: no entry data reaches them. */
  lemma NonAdminLearnsNothing(adminEmail: Option<string>, user: Option<User>, q1: QueryResult, q2: QueryResult)
    requires !IsAdmin(adminEmail, user)
    ensures HandleExport(adminEmail, user, q1) == HandleExport(adminEmail, user, q2)
  {
  }

  /** A failed query answers a generic 500 that carries nothing of the error or the data. */
  lemma FailureLeaksNothing(adminEmail: Option<string>, user: Option<User>, q1: QueryResult, q2: QueryResult)
    requires IsAdmin(adminEmail, user)
    requires q1.error.Some? || q1.data.None?
    requires q2.error.Some? || q2.data.None?
    ensures HandleExport(adminEmail, user, q1) == HandleExport(adminEmail, user, q2) == ErrorReply(500, "Server error")
  {
  }
}
