# Waitlist admin: signup, admin check and CSV export

A Dafny model of the three pieces of logic in the waitlist application:

- the public signup handler (`POST /api/waitlist`). It parses the JSON
  body, rejects bots through the honeypot field `website`, requires an
  email, normalises email, name and referral, and maps the database's answer
  to the insert onto a reply;
- the admin decision `isAdmin`. It is fail-closed over the configured admin
  email and the session's user;
- the admin CSV export (`GET /api/admin/export`): `toCSVField`, the
  row and file assembly, and the 401/500 gating.

All three are pure in the source and are modelled as datatypes, functions
and lemmas. Foreign calls become parameters:

- the database's answer to the insert (`Signup.InsertResult`);
- the answer of the select query (`Export.QueryResult`);
- the `ADMIN_EMAIL` environment variable and the session's user (`Auth.IsAdmin`'s arguments).

Files:
- `wrappers.dfy`: Option.
- `js_value.dfy`: JSON values as JavaScript sees them, with truthiness and property reads.
- `text.dfy`: `trim` over ECMAScript's exact whitespace set, and ASCII `toLowerCase`.
- `waitlist_types.dfy`: the entry record and the reply statuses.
- `http.dfy`: replies.
- `signup.dfy`: the signup handler.
- `auth.dfy`: `isAdmin`.
- `csv.dfy`: the serialiser.
- `csv_decode.dfy`: a reader for the exported format and the round-trip proofs.
- `export.dfy`: the export handler.

The model follows the code, not the intent one might read into it:
- The honeypot test is JavaScript truthiness, not "non-empty". `website: true` or `1` is rejected; `0`, `false` and `""` are not.
- Records are joined with a bare "\n", not the CRLF of section 2 rule 1 of RFC 4180.
- A body that parses to JSON `null` is not answered with a 400. The destructuring at `waitlist/route.ts:12` throws a TypeError before any check. The model returns `Thrown("TypeError")`; the reply the framework then sends is not modelled.

## Model

| member | source | states |
|---|---|---|
| Text.Trim | 01-waitlist-admin/src/app/api/waitlist/route.ts:28 | the result of `trim` has no whitespace at either end, and it is empty exactly when the input is all whitespace |
| Text.TrimIsInfix | 01-waitlist-admin/src/app/api/waitlist/route.ts:28 | the result of `trim` is the infix of the input left after removing only whitespace from both ends |
| Text.TrimFixesTrimmed | 01-waitlist-admin/src/app/api/waitlist/route.ts:28 | a string with no whitespace at either end is its own trim |
| Text.TrimIdempotent | 01-waitlist-admin/src/app/api/waitlist/route.ts:33-39 | trimming twice is trimming once |
| Text.ToLower | 01-waitlist-admin/src/app/api/waitlist/route.ts:28 | `toLowerCase` keeps the length and maps each character on its own ('A'..'Z' to 'a'..'z') |
| Text.ToLowerProperties | 01-waitlist-admin/src/app/api/waitlist/route.ts:28 | after lower-casing no upper-case letter is left; whitespace is untouched, so a trimmed string stays trimmed; lower-casing is idempotent |
| Signup.NormalizeEmail | 01-waitlist-admin/src/app/api/waitlist/route.ts:28-31 | the normalised email has no upper-case letter and no whitespace at either end; it is empty exactly when the input is all whitespace |
| Signup.NormalizeEmailIdempotent | 01-waitlist-admin/src/app/api/waitlist/route.ts:28 | normalising a normalised email leaves it unchanged |
| Signup.NormalizeOptional | 01-waitlist-admin/src/app/api/waitlist/route.ts:33-39 | `name`/`referred_by` become a non-empty, already-trimmed string exactly when the input is a string that is not all whitespace; that string is the input's trim; anything else (missing, falsy, non-string, blank) becomes null |
| Signup.Classify | 01-waitlist-admin/src/app/api/waitlist/route.ts:49-58 | exhaustive and exclusive: no error gives 200 "ok"; code "23505" gives 200 "already_joined"; any other error gives 500 "Server error" |
| JsValues.Truthy | 01-waitlist-admin/src/app/api/waitlist/route.ts:20-37 | a value is falsy exactly when it is undefined, null, false, 0 or the empty string; every other value, an empty array or object included, is truthy |
| JsValues.Destructurable | 01-waitlist-admin/src/app/api/waitlist/route.ts:12-17 | destructuring fails only on null and undefined; every truthy value can be destructured |
| JsValues.Property | 01-waitlist-admin/src/app/api/waitlist/route.ts:12-17 | reading a property gives the value an object holds under that key, and undefined when the key is missing or the value is not an object |
| Signup.IsBot | 01-waitlist-admin/src/app/api/waitlist/route.ts:19-22 | the honeypot fires exactly when the parsed body can be destructured and its `website` is none of undefined, null, false, 0 and ""; it fires only when the body is an object holding `website` |
| Signup.LacksEmail | 01-waitlist-admin/src/app/api/waitlist/route.ts:24-31 | for a body past the honeypot, the email is missing exactly when it is falsy, not a string, or empty once trimmed and lower-cased |
| Signup.Validate | 01-waitlist-admin/src/app/api/waitlist/route.ts:19-47 | after parsing, the honeypot is checked before the email. A truthy `website` gives 400 "Invalid request". A missing, non-string or blank email gives 400 "Email is required". Otherwise the row to insert is well formed and holds the normalised email, name and referral |
| Signup.Submit | 01-waitlist-admin/src/app/api/waitlist/route.ts:4-59 | the checks in order: bad JSON gives 400 "Invalid JSON"; a body that cannot be destructured throws; a truthy `website` gives 400 "Invalid request"; a missing, non-string or blank email gives 400 "Email is required". None of these inserts. An insert is attempted exactly when all checks pass. The inserted row is well formed, holds the normalised fields, and the reply is the classification of the insert result |
| Signup.NoInsertNoDatabase | 01-waitlist-admin/src/app/api/waitlist/route.ts:6-31 | when no insert is attempted, the reply does not depend on the database, and a JSON reply is a 400 |
| Signup.BotRejectedWhateverEmail | 01-waitlist-admin/src/app/api/waitlist/route.ts:19-26 | a truthy honeypot gives "Invalid request" whatever email is sent, and when no email is sent |
| Signup.CaseAndSpaceVariantsAgree | 01-waitlist-admin/src/app/api/waitlist/route.ts:28 | any two emails whose trims have the same length and agree character by character up to ASCII case normalise to the same email |
| Signup.EmailVariantsCollide | 01-waitlist-admin/src/app/api/waitlist/route.ts:12-58 | two requests that differ only in their email, whose emails normalise alike, get the same reply for the same database answer, and either both insert nothing or insert the same row |
| Signup.VariantsInsertSameRow | 01-waitlist-admin/src/app/api/waitlist/route.ts:28-47 | for any two case and surrounding-whitespace variants of one email, with every other field alike, the reply and the inserted row are the same, so the database's uniqueness constraint sees one email |
| Signup.SameChecksSameOutcome | 01-waitlist-admin/src/app/api/waitlist/route.ts:19-58 | once a body is parsed, the reply and the insert depend only on the outcome of the checks and the database's answer |
| Signup.ValidateSeesNormalizedEmail | 01-waitlist-admin/src/app/api/waitlist/route.ts:19-47 | bodies that agree on `website`, `name` and `referred_by`, and whose string emails normalise alike, pass or fail the checks alike |
| Signup.EmailSwapped | 01-waitlist-admin/src/app/api/waitlist/route.ts:12-17 | replacing the email of a body leaves the `website`, `name` and `referred_by` it destructures unchanged, and the email read is the one put in |
| Auth.IsAdmin | 01-waitlist-admin/src/lib/auth/isAdmin.ts:7-17 | true exactly when ADMIN_EMAIL is set and non-empty, a user is signed in, and the user's email equals it character for character |
| Auth.UnconfiguredIgnoresSession | 01-waitlist-admin/src/lib/auth/isAdmin.ts:8-9 | an unset or empty ADMIN_EMAIL gives false whatever the session holds |
| Auth.ExactMatchOnly | 01-waitlist-admin/src/lib/auth/isAdmin.ts:16 | no case folding and no trimming: "Admin@…" and "admin@… " are refused where "admin@…" is accepted |
| Auth.CaseVariantRefused | 01-waitlist-admin/src/lib/auth/isAdmin.ts:16 | for every configured email holding an upper-case letter, a user whose email is its lower-cased form is refused |
| Auth.PaddedVariantRefused | 01-waitlist-admin/src/lib/auth/isAdmin.ts:16 | for every configured email and any non-empty padding (a space included), a user whose email is the configured one padded before or after is refused |
| Csv.Escape | 01-waitlist-admin/src/app/api/admin/export/route.ts:7 | doubling the quotes adds exactly one character per quote |
| Csv.ToCsvField | 01-waitlist-admin/src/app/api/admin/export/route.ts:6-8 | a field starts and ends with `"` and is \|v\| + 2 + (number of `"` in v) long, null counting as "" |
| Csv.NullLooksEmpty | 01-waitlist-admin/src/app/api/admin/export/route.ts:7 | null and "" are both written as the two characters `""` |
| Csv.JoinLength | 01-waitlist-admin/src/app/api/admin/export/route.ts:29-33 | `join` gives a string as long as its parts plus one separator fewer than there are parts, starting with the first part |
| Csv.JoinEndsWithLastPart | 01-waitlist-admin/src/app/api/admin/export/route.ts:29-33 | `join` ends with the last character of its last part |
| Csv.Cells | 01-waitlist-admin/src/app/api/admin/export/route.ts:28 | a record has five cells in the header's column order: id, email, name, referred_by, created_at; only name and referred_by can be null |
| Csv.Fields | 01-waitlist-admin/src/app/api/admin/export/route.ts:29 | every cell is quoted on its own: the i-th field is `toCSVField` of the i-th cell, and there are as many fields as cells |
| Csv.Row | 01-waitlist-admin/src/app/api/admin/export/route.ts:27-31 | a record opens and closes with a quote |
| Csv.RowLength | 01-waitlist-admin/src/app/api/admin/export/route.ts:27-31 | a record is as long as its five values plus one per quote in them plus 14 (ten enclosing quotes and four commas) |
| Csv.Document | 01-waitlist-admin/src/app/api/admin/export/route.ts:26-33 | the file starts with the fixed header `id,email,name,referred_by,created_at`, and is only the header exactly when there are no entries |
| Csv.Rows | 01-waitlist-admin/src/app/api/admin/export/route.ts:27-31 | one record per entry, in the fetched order |
| Csv.NoTrailingNewline | 01-waitlist-admin/src/app/api/admin/export/route.ts:33 | the file has no final newline: it ends with the header's last letter, or with the last record's closing quote |
| CsvDecode.QuotedTailRoundTrip | 01-waitlist-admin/src/app/api/admin/export/route.ts:7 | an escaped value followed by a closing quote reads back as that value, leaving the rest untouched |
| CsvDecode.QuotedTailExact | 01-waitlist-admin/src/app/api/admin/export/route.ts:7 | whatever the reader accepts is an escaped value followed by a lone closing quote, so inside a field quotes occur only in adjacent pairs |
| CsvDecode.FieldRoundTrip | 01-waitlist-admin/src/app/api/admin/export/route.ts:6-8 | stripping the outer quotes of `toCSVField(v)` and collapsing each `""` gives back v (null as "") |
| CsvDecode.FieldExact | 01-waitlist-admin/src/app/api/admin/export/route.ts:6-8 | every quoted field the reader accepts is exactly `toCSVField` of the value it reads |
| CsvDecode.RecordRoundTrip | 01-waitlist-admin/src/app/api/admin/export/route.ts:27-31 | quoted cells joined by commas read back as the cells' values, in order |
| CsvDecode.RowRoundTrip | 01-waitlist-admin/src/app/api/admin/export/route.ts:27-31 | a row reads back as exactly five values: id, email, name, referred_by, created_at |
| CsvDecode.RecordsRoundTrip | 01-waitlist-admin/src/app/api/admin/export/route.ts:27-33 | rows joined by "\n" read back as every entry's values, in order |
| CsvDecode.DocumentRoundTrip | 01-waitlist-admin/src/app/api/admin/export/route.ts:26-33 | the file is the fixed header, then the records; reading it back gives exactly the fetched entries, in order, null as "" |
| Export.HandleExport | 01-waitlist-admin/src/app/api/admin/export/route.ts:10-41 | a non-admin gets 401 "Unauthorized"; for the admin, a query error or missing data gives 500 "Server error"; otherwise the reply is a 200 CSV file, which reads back as the fetched entries |
| Export.NonAdminLearnsNothing | 01-waitlist-admin/src/app/api/admin/export/route.ts:11-13 | a non-admin's reply is the same whatever the query would return, so no entry data reaches them |
| Export.FailureLeaksNothing | 01-waitlist-admin/src/app/api/admin/export/route.ts:21-24 | every failed query gives the same generic 500, with no CSV |

## Left out

- UI: the signup form, the home page, the login page and the dashboard placeholder. They are rendering and `fetch` calls.
- Admin listing, search, pagination and the "today" count. No code implements them (`app/admin/page.tsx` is a placeholder).
- The database and the auth library. The insert and select queries, `getUser`, sign-in and the logout route are not modelled. Their answers are parameters.
- The select query's ordering by `created_at` is done by the database. The model takes the rows in the order given and proves the file keeps that order.
- Email uniqueness is the database's constraint. Concurrent duplicate submissions are left to it too. Only the classification of its error code is modelled.
- Environment reads (`process.env`, `getMissingEnv`) and `console.error` logging are not modelled. They are I/O.
- The export reply's fixed headers and file name are not modelled. They are constants of the reply.
- Text.ToLower: lower-cases ASCII letters only. It does not model Unicode case mapping (one where a character can map to several).
- Signup.Submit: a body that cannot be destructured yields `Thrown`. The framework's reply to the exception is not modelled.
- JSON parsing is not modelled. A number carries the value the parser produced, so a literal that rounds to zero counts as zero.
