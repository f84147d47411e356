/**
 * What the authentication provider supplies to the application. The provider
 * itself is not modelled: the caller's user id and profile are inputs.
 */
module Auth {
  import opened Wrappers
  import opened Text

  /** The signed-in principal's profile attributes as the provider reports them. */
  datatype Profile = Profile(
    emailAddresses: seq<string>,
    firstName: Option<string>,
    lastName: Option<string>,
    username: Option<string>,
    imageUrl: string
  )

  /** `if (!userId)` rejects a missing or empty user id; anything else is a signed-in caller. */
  predicate SignedIn(userId: Option<string>) {
    Truthy(userId)
  }
}
