/** The two access predicates at the top of src/Connector.js. A permission is
    whatever value the auth provider resolves to; only "read" and "write"
    grant anything, so every other value is the one constructor NoAccess. */
module Permissions {

  datatype Permission = Read | Write | NoAccess

  /** `canRead`: "read" or "write". */
  predicate CanRead(auth: Permission) {
    auth == Read || auth == Write
  }

  /** `canWrite`: "write" only. */
  predicate CanWrite(auth: Permission) {
    auth == Write
  }

  /** The rank of a permission: 0 grants nothing, 1 grants reading, 2 grants
      reading and writing. */
  function Level(auth: Permission): (n: nat)
    ensures n <= 2
    ensures CanRead(auth) <==> n >= 1
    ensures CanWrite(auth) <==> n == 2
  {
    match auth
    case Write => 2
    case Read => 1
    case NoAccess => 0
  }

  /** Write access includes read access. */
  lemma WriteImpliesRead(auth: Permission)
    ensures CanWrite(auth) ==> CanRead(auth)
    ensures CanRead(auth) && !CanWrite(auth) <==> auth == Read
  {
  }
}
