/**
 * The claim sets a request context can hold under the key "claims".
 * `CustomClaims` is the application's own claims record, of which only the
 * role names matter here; `LibraryClaims` stands for any other claims type a
 * token parser may produce (its contents are not modelled).
 */
module Claims {
  /** Key under which the authentication middleware stores the claims. */
  const ClaimsKey := "claims"

  datatype Claims =
    | CustomClaims(roles: seq<string>)
    | LibraryClaims

  /**
   * What the role check needs to find in the context: the key is present and
   * holds the application's claims type. Otherwise the lookup or the type
   * assertion in the role check fails at run time.
   */
  predicate ClaimsReady(keys: map<string, Claims>): (ready: bool)
    ensures ready <==> ClaimsKey in keys && exists roles :: keys[ClaimsKey] == CustomClaims(roles)
  {
    ClaimsKey in keys && keys[ClaimsKey].CustomClaims?
  }
}
