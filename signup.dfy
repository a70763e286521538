/**
 * The public signup handler, `POST /api/waitlist`: it parses the body,
 * rejects bots and requests without an email, normalises the fields,
 * inserts one row and classifies the database's answer.
 *
 * The database insert is not performed here: the handler returns the row it
 * would insert, and the database's answer to that insert is a parameter.
 */
module Signup {
  import opened Wrappers
  import opened JsValues
  import opened Text
  import opened WaitlistTypes
  import opened Http

  /** The request body: either it failed to parse as JSON, or it parsed to a value. */
  datatype Request = Malformed | Parsed(body: JsValue)

  /** The row the handler asks the database to insert. */
  datatype NewEntry = NewEntry(email: string, name: Option<string>, referredBy: Option<string>)

  /** The database's answer to the insert: success, or an error with its PostgreSQL code. */
  datatype InsertResult = Inserted | Failed(code: string)

  /** What one request produces: the reply, and the row inserted, if an insert was attempted. */
  datatype Submission = Submission(response: Response, insert: Option<NewEntry>)

  /** PostgreSQL's `unique_violation`: the email is already on the list. */
  const UniqueViolation := "23505"

  /** The JSON value `null` cannot be destructured: the handler throws before any check. */
  const DestructuringError := "TypeError"

  /** The fields of a destructurable body (every parsed value but `null`). */
  function Field(request: Request, key: string): JsValue
    requires request.Parsed? && Destructurable(request.body)
  {
    Property(request.body, key)
  }

  /** Emails are trimmed, then lower-cased. */
  function NormalizeEmail(email: string): (r: string)
    ensures |r| <= |email|
    ensures NoAsciiUpper(r) && NoEdgeWhitespace(r)
    ensures r == [] <==> AllWhitespace(email)
  {
    ToLowerProperties(Trim(email));
    ToLower(Trim(email))
  }

  /** A normalised email normalises to itself. */
  lemma {:induction false} NormalizeEmailIdempotent(email: string)
    ensures NormalizeEmail(NormalizeEmail(email)) == NormalizeEmail(email)
  {
    var t := Trim(email);
    ToLowerProperties(t);
    TrimFixesTrimmed(ToLower(t));
  }

  /**
   * `name` and `referred_by`: a non-empty string is trimmed, and an empty
   * trim becomes null; any other value (missing, falsy, not a string) is null.
   */
  function NormalizeOptional(v: JsValue): (r: Option<string>)
    ensures r.Some? <==> v.Str? && !AllWhitespace(v.s)
    ensures r.Some? ==> r.value != [] && NoEdgeWhitespace(r.value) && Trim(r.value) == r.value
    ensures r.Some? ==> r.value == Trim(v.s)
  {
    if Truthy(v) && v.Str? then
      var t := Trim(v.s);
      TrimFixesTrimmed(t);
      if t == [] then None else Some(t)
    else
      None
  }

  /** The honeypot field `website` is filled: the request comes from a bot. */
  predicate IsBot(request: Request)
    ensures IsBot(request) ==> request.Parsed? && request.body.Obj? && "website" in request.body.props
    ensures IsBot(request) <==> request.Parsed? && Destructurable(request.body)
                                && Field(request, "website") !in {Undefined, Null, Bool(false), Num(0.0), Str([])}
  {
    request.Parsed? && Destructurable(request.body) && Truthy(Field(request, "website"))
  }

  /** A human request whose email is missing, not a string, or only whitespace. */
  predicate LacksEmail(request: Request)
    // the code's two-step test: falsy or not a string, or empty once normalised
    ensures LacksEmail(request) <==>
              && request.Parsed? && Destructurable(request.body) && !IsBot(request)
              && (!Truthy(Field(request, "email")) || !Field(request, "email").Str?
                  || NormalizeEmail(Field(request, "email").s) == [])
  {
    && request.Parsed? && Destructurable(request.body) && !IsBot(request)
    && !(Field(request, "email").Str? && !AllWhitespace(Field(request, "email").s))
  }

  /** A row in the form the handler promises to insert. */
  predicate WellFormed(e: NewEntry) {
    && e.email != [] && NoEdgeWhitespace(e.email) && NoAsciiUpper(e.email)
    && NormalizeEmail(e.email) == e.email
    && (e.name.Some? ==> e.name.value != [] && Trim(e.name.value) == e.name.value)
    && (e.referredBy.Some? ==> e.referredBy.value != [] && Trim(e.referredBy.value) == e.referredBy.value)
  }

  /**
   * The reply to an attempted insert: success is "ok", a uniqueness violation
   * is the benign "already_joined", anything else is a server error.
   */
  function Classify(result: InsertResult): (r: Response)
    ensures r == Json(200, StatusBody(Ok)) <==> result.Inserted?
    ensures r == Json(200, StatusBody(AlreadyJoined)) <==> result.Failed? && result.code == UniqueViolation
    ensures r == ErrorReply(500, "Server error") <==> result.Failed? && result.code != UniqueViolation
  {
    match result
    case Inserted => Json(200, StatusBody(Ok))
    case Failed(code) =>
      if code == UniqueViolation then Json(200, StatusBody(AlreadyJoined))
      else ErrorReply(500, "Server error")
  }

  /** The outcome of the checks that follow parsing: a rejection, or the row to insert. */
  datatype Checked = Rejected(response: Response) | Accepted(row: NewEntry)

  /**
   * The checks on a destructured body, in the handler's order: the honeypot,
   * then the email; the row to insert holds the normalised fields.
   */
  function Validate(body: JsValue): (r: Checked)
    requires Destructurable(body)
    ensures Truthy(Property(body, "website")) ==> r == Rejected(ErrorReply(400, "Invalid request"))
    ensures !Truthy(Property(body, "website")) && !(Property(body, "email").Str? && !AllWhitespace(Property(body, "email").s))
            ==> r == Rejected(ErrorReply(400, "Email is required"))
    ensures r.Accepted? <==> !Truthy(Property(body, "website")) && Property(body, "email").Str? && !AllWhitespace(Property(body, "email").s)
    ensures r.Accepted? ==>
              && WellFormed(r.row)
              && r.row.email == NormalizeEmail(Property(body, "email").s)
              && r.row.name == NormalizeOptional(Property(body, "name"))
              && r.row.referredBy == NormalizeOptional(Property(body, "referred_by"))
  {
    var email := Property(body, "email");
    if Truthy(Property(body, "website")) then
      Rejected(ErrorReply(400, "Invalid request"))
    else if !Truthy(email) || !email.Str? then
      Rejected(ErrorReply(400, "Email is required"))
    else
      var normalizedEmail := NormalizeEmail(email.s);
      if normalizedEmail == [] then
        Rejected(ErrorReply(400, "Email is required"))
      else
        NormalizeEmailIdempotent(email.s);
        Accepted(NewEntry(normalizedEmail,
                          NormalizeOptional(Property(body, "name")),
                          NormalizeOptional(Property(body, "referred_by"))))
  }

  /**
   * The handler. `result` is what the database answers to the insert; it is
   * read only when an insert is attempted.
   */
  function Submit(request: Request, result: InsertResult): (out: Submission)
    ensures request.Malformed? ==> out == Submission(ErrorReply(400, "Invalid JSON"), None)
    ensures request.Parsed? && !Destructurable(request.body) ==> out == Submission(Thrown(DestructuringError), None)
    ensures IsBot(request) ==> out == Submission(ErrorReply(400, "Invalid request"), None)
    ensures LacksEmail(request) ==> out == Submission(ErrorReply(400, "Email is required"), None)
    ensures out.insert.Some? <==> request.Parsed? && Destructurable(request.body) && !IsBot(request) && !LacksEmail(request)
    ensures out.insert.Some? ==>
              && WellFormed(out.insert.value)
              && out.insert.value.email == NormalizeEmail(Field(request, "email").s)
              && out.insert.value.name == NormalizeOptional(Field(request, "name"))
              && out.insert.value.referredBy == NormalizeOptional(Field(request, "referred_by"))
              && out.response == Classify(result)
  {
    match request
    case Malformed => Submission(ErrorReply(400, "Invalid JSON"), None)
    case Parsed(body) =>
      if !Destructurable(body) then Submission(Thrown(DestructuringError), None)
      else
        match Validate(body)
        case Rejected(response) => Submission(response, None)
        case Accepted(row) => Submission(Classify(result), Some(row))
  }

  /** When no insert is attempted, the reply does not depend on the database at all. */
  lemma NoInsertNoDatabase(request: Request, r1: InsertResult, r2: InsertResult)
    requires Submit(request, r1).insert.None?
    ensures Submit(request, r1) == Submit(request, r2)
    ensures Submit(request, r1).response.Json? ==> Submit(request, r1).response.status == 400
  {
  }

  /** The honeypot is checked first: a bot is rejected whatever email it sends, or none. */
  lemma BotRejectedWhateverEmail(props: map<string, JsValue>, email: JsValue, result: InsertResult)
    requires "website" in props && Truthy(props["website"])
    ensures Submit(Parsed(Obj(props)), result) == Submission(ErrorReply(400, "Invalid request"), None)
    ensures Submit(Parsed(Obj(props["email" := email])), result) == Submission(ErrorReply(400, "Invalid request"), None)
    ensures Submit(Parsed(Obj(props - {"email"})), result) == Submission(ErrorReply(400, "Invalid request"), None)
  {
    assert IsBot(Parsed(Obj(props["email" := email])));
    assert IsBot(Parsed(Obj(props - {"email"})));
  }

  /**
   * Emails that differ only in surrounding whitespace and in the case of
   * their letters normalise to the same email.
   */
  lemma CaseAndSpaceVariantsAgree(a: string, b: string)
    requires |Trim(a)| == |Trim(b)|
    requires forall k :: 0 <= k < |Trim(a)| ==> LowerChar(Trim(a)[k]) == LowerChar(Trim(b)[k])
    ensures NormalizeEmail(a) == NormalizeEmail(b)
  {
    assert ToLower(Trim(a)) == ToLower(Trim(b));
  }

  /**
   * Two requests that differ only in their email, where the two emails
   * normalise alike (such as " Foo@x" and "foo@x "), get the same reply and
   * insert the same row, so the database's uniqueness constraint sees one
   * email.
   */
  lemma EmailVariantsCollide(props: map<string, JsValue>, a: string, b: string, result: InsertResult)
    requires NormalizeEmail(a) == NormalizeEmail(b)
    // equal normalised emails: "Email is required" for both, or the same row for both
    ensures Submit(Parsed(Obj(props["email" := Str(a)])), result) == Submit(Parsed(Obj(props["email" := Str(b)])), result)
  {
    var bodyA := Obj(props["email" := Str(a)]);
    var bodyB := Obj(props["email" := Str(b)]);
    EmailSwapped(props, a, b);
    ValidateSeesNormalizedEmail(bodyA, bodyB);
    SameChecksSameOutcome(bodyA, bodyB, result);
  }

  /** Two bodies built from one set of fields with different emails differ only in the email. */
  lemma EmailSwapped(props: map<string, JsValue>, a: string, b: string)
    ensures var x, y := Obj(props["email" := Str(a)]), Obj(props["email" := Str(b)]);
            && Property(x, "website") == Property(y, "website")
            && Property(x, "name") == Property(y, "name")
            && Property(x, "referred_by") == Property(y, "referred_by")
            && Property(x, "email") == Str(a) && Property(y, "email") == Str(b)
  {
    assert "website"[0] != "email"[0] && "name"[0] != "email"[0] && "referred_by"[0] != "email"[0];
  }

  /** Once parsed, the handler's outcome is decided by the checks and the database's answer. */
  lemma SameChecksSameOutcome(x: JsValue, y: JsValue, result: InsertResult)
    requires Destructurable(x) && Destructurable(y) && Validate(x) == Validate(y)
    ensures Submit(Parsed(x), result) == Submit(Parsed(y), result)
  {
  }

  /** Bodies that agree on every field but the email, and whose emails normalise alike, pass or fail the checks alike. */
  lemma ValidateSeesNormalizedEmail(x: JsValue, y: JsValue)
    requires Destructurable(x) && Destructurable(y)
    requires Property(x, "website") == Property(y, "website")
    requires Property(x, "name") == Property(y, "name")
    requires Property(x, "referred_by") == Property(y, "referred_by")
    requires Property(x, "email").Str? && Property(y, "email").Str?
    requires NormalizeEmail(Property(x, "email").s) == NormalizeEmail(Property(y, "email").s)
    ensures Validate(x) == Validate(y)
  {
  }

  /** The general case: any two variants of one email in case and surrounding whitespace get the same reply and insert the same row. */
  lemma VariantsInsertSameRow(props: map<string, JsValue>, a: string, b: string, result: InsertResult)
    requires |Trim(a)| == |Trim(b)|
    requires forall k :: 0 <= k < |Trim(a)| ==> LowerChar(Trim(a)[k]) == LowerChar(Trim(b)[k])
    ensures Submit(Parsed(Obj(props["email" := Str(a)])), result)
            == Submit(Parsed(Obj(props["email" := Str(b)])), result)
  {
    CaseAndSpaceVariantsAgree(a, b);
    EmailVariantsCollide(props, a, b, result);
  }
}
