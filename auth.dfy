/** The current user as the authentication middleware resolves it. Verifying
    tokens is not part of this model: a request arrives with its `User`. */
module Auth {

  type UserId = nat

  /** The resolved requester: its id and its role string. */
  datatype User = User(id: UserId, role: string)

  /** The rejection of the admin-only guard. */
  datatype AuthError = Forbidden

  /** Role check shared by the admin-only routes and the owner filter of the
      expense listing: only the role string "admin" is an administrator. */
  predicate IsAdmin(u: User) {
    u.role == "admin"
  }
}
