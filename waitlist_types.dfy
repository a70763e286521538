/** The record types of the waitlist table and of the signup endpoint's replies. */
module WaitlistTypes {
  import opened Wrappers

  /**
   * One row of the waitlist table as the export query selects it. `id` and
   * `created_at` are assigned by the database; `name` and `referred_by` may
   * be null.
   */
  datatype Entry = Entry(
    id: string,
    email: string,
    name: Option<string>,
    referredBy: Option<string>,
    createdAt: string)

  /** The `status` of a successful signup reply: "ok" or "already_joined". */
  datatype ApiStatus = Ok | AlreadyJoined
}
