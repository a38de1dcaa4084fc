# Request gate of the academy-management service

This project models the service's two request-gate middlewares and proves
their behaviour. Neither is attached to any route in the code.

- **Bearer authentication** (`JWTAuth`). The Authorization header must be
  non-empty and start with the exact, case-sensitive prefix `"Bearer "`.
  One copy of the prefix is removed and the rest goes to the token parser.
  A parse error or an invalid token aborts the request with 401. Otherwise
  the claims are stored in the request context under `"claims"` and the
  handler chain continues. This follows section 2.1 of RFC 6750, but the
  scheme comparison is stricter than the case-insensitive one of section
  2.1 of RFC 7235.
- **Role check** (`Authorize`). It scans the caller's role names against
  the route's allow-list in two nested loops. It continues at the first
  exact match and aborts with 403 when there is none.

The request context is a class, `Gin.Context`. It has the fields the
middlewares change: stored keys, aborted flag, status, error message and
whether the next handler ran. A ghost `log` records the calls made on it,
in order. The pure `Gin.Run` says what a list of calls does to a
`ContextState`. Each middleware has two parts:

- a pure function listing the calls it makes (`JwtEffects`,
  `AuthorizeEffects`), which carries the properties;
- an imperative handler (`JWTAuth`, `Authorize`), proved to make exactly
  those calls.

The token parser is an oracle object, `JwtAuth.TokenParser`. Its
`verdictOf` gives its answer for each token. Its ghost `consulted` records
the tokens it was handed. This is how the model states that a malformed
header never reaches the parser, and which token exactly does.

The role check reads the stored claims as the application's own claims
type. A missing key or a claims value of another type makes it fail at run
time. The model makes this a precondition, `Claims.ClaimsReady`. The
authentication middleware stores whatever claims value the parser
returned. `JwtAuth.AcceptedClaimsReadyIffCustom` shows that after
authentication this precondition holds exactly when that value is the
application's claims type. The parser call at
middlewares/jwt_auth.go:20 is never given the application's claims type,
so the value stored at line 28 is the library's own claims type
(`LibraryClaims` here). As written, `Authorize` placed after a successful
`JWTAuth` always fails its type assertion at middlewares/rbac.go:20.

`Authorize` scans lists. `Rbac.HasAnyIffCommonRole` and
`Rbac.OutcomeIgnoresOrderAndDuplicates` show that its outcome depends only
on the two role sets. An empty allow-list refuses every caller
(`Rbac.EmptyAllowListForbids`).

## Model

| member | source | states |
|---|---|---|
| `GoStrings.HasPrefix` | middlewares/jwt_auth.go:15 | Holds iff the prefix is no longer than the string and every one of its characters equals the string's character at the same position |
| `GoStrings.TrimPrefix` | middlewares/jwt_auth.go:19 | With the prefix present, prefix + result is the input; without it, the input is returned unchanged |
| `GoStrings.PrefixRoundTrip` | middlewares/jwt_auth.go:19 | `TrimPrefix` undoes prepending the prefix, and the prefixed string passes `HasPrefix` |
| `GoStrings.TrimPrefixOnce` | middlewares/jwt_auth.go:19 | Only one leading copy of the prefix is removed |
| `Gin.Context.constructor` | middlewares/jwt_auth.go:14 | A fresh context holds the Authorization header value ("" when absent), no keys, status 200, not aborted, next not called |
| `Gin.Context.Set` | middlewares/jwt_auth.go:28 | Stores the value under the key, changes nothing else, and logs the call |
| `Gin.Context.Next` | middlewares/jwt_auth.go:29 | Marks the next handler as run, changes nothing else, and logs the call |
| `Gin.Context.AbortWithStatusJSON` | middlewares/jwt_auth.go:16 | Marks the context aborted with the status and error message, keeps keys and the next flag, and logs the call |
| `Claims.ClaimsReady` | middlewares/rbac.go:20 | Holds iff the key "claims" is present and holds the application's claims type with some role list, the condition under which the lookup and type assertion do not fail |
| `JwtAuth.TokenParser.constructor` | middlewares/jwt_auth.go:20-23 | A parser with the given answer per token, which has been handed no tokens yet |
| `JwtAuth.TokenParser.Parse` | middlewares/jwt_auth.go:20-23 | Returns the oracle's answer for the token and records that the token was handed to it |
| `JwtAuth.BearerToken` | middlewares/jwt_auth.go:15-19 | A token exists iff the header is non-empty and starts with "Bearer "; then "Bearer " + token is the header |
| `JwtAuth.JwtEffects` | middlewares/jwt_auth.go:14-30 | Exactly one of continue or abort 401; continue iff the header is well formed and its token is error-free and valid; bad header gives the header error, rejected token gives the token error, no claims stored and next not called; on success the claims are stored first, then next |
| `JwtAuth.JWTAuth` | middlewares/jwt_auth.go:12-31 | The handler makes exactly the calls of `JwtEffects` on the context, the state moves accordingly, and the parser is handed the bearer token, or nothing when the header is malformed |
| `JwtAuth.MalformedHeaderIgnoresParser` | middlewares/jwt_auth.go:15-18 | A header without the prefix gets the same 401 whatever the parser would say, and no token is handed on |
| `JwtAuth.EmptyHeaderUnauthorized` | middlewares/jwt_auth.go:14-18 | An empty header is refused with 401 and the parser is never consulted |
| `JwtAuth.BearerRoundTrip` | middlewares/jwt_auth.go:15-19 | "Bearer " followed by any token yields exactly that token |
| `JwtAuth.HeaderExamples` | middlewares/jwt_auth.go:15-19 | "bearer x", "Bearer" and a Basic header are refused; "Bearer Bearer t" yields "Bearer t"; "Bearer " yields the empty token |
| `JwtAuth.RejectionLeavesContext` | middlewares/jwt_auth.go:24-27 | A refused request ends aborted with 401, with the stored keys and the next flag unchanged |
| `JwtAuth.AcceptanceStoresClaims` | middlewares/jwt_auth.go:28-29 | An accepted request has the parser's claims under "claims", next called, and status and aborted flag unchanged |
| `JwtAuth.AcceptedClaimsReadyIffCustom` | middlewares/jwt_auth.go:28 | After acceptance, the role check's precondition (rbac.go line 20) holds iff the stored claims are the application's claims type |
| `Rbac.FirstGrant` | middlewares/rbac.go:21-28 | The nested scan finds a match iff some caller role equals some allowed role; the pair it returns matches, and no pair scanned before it does |
| `Rbac.AuthorizeEffects` | middlewares/rbac.go:21-29 | One call, exactly one of continue or abort 403; continue iff some caller role equals some allowed role |
| `Rbac.Authorize` | middlewares/rbac.go:18-31 | Given stored application claims, the handler makes exactly the calls of `AuthorizeEffects` for the stored roles, and the state moves accordingly |
| `Rbac.HasAnyIffCommonRole` | middlewares/rbac.go:21-28 | The scan's outcome is whether the caller's role set and the allow-list's set intersect, in both directions |
| `Rbac.OutcomeIgnoresOrderAndDuplicates` | middlewares/rbac.go:21-29 | Lists with the same role sets give the same outcome, whatever their order or repetitions |
| `Rbac.EmptyAllowListForbids` | middlewares/rbac.go:18-29 | An empty allow-list refuses every caller with 403 |
| `Rbac.NoRolesForbidden` | middlewares/rbac.go:21-29 | A caller with no roles is refused with 403 whatever the allow-list |
| `Rbac.SingleRoleMatchesExactly` | middlewares/rbac.go:23 | A single role passes a single-entry allow-list iff the two strings are equal |
| `Rbac.MatchingIsExact` | middlewares/rbac.go:23 | A different case, a trailing space or a mere prefix does not match |
| `Rbac.AuthorizeOutcome` | middlewares/rbac.go:24-29 | Continuing leaves status, aborted flag and keys alone; refusing sets aborted and 403 and does not call next; keys are never changed |

## Left out

- Token verification itself: signature checking with the fixed key, expiry and claim decoding happen inside the JWT library. They are an oracle (`TokenParser.verdictOf`), whose claims are either the application's claims type or some other type.
- What `Next` runs: the rest of the handler chain is code outside the middlewares. `Next` only records that the chain continued.
- The JSON encoding of the error body: only the error message string is kept.
- Header lookup details: the Authorization header is one string, "" when absent. Multiple values and header-name canonicalisation are left to the framework.
- Strings are sequences of characters, not Go's byte strings. Since "Bearer " is ASCII, the prefix test and its removal are the same either way.
- `Authorize` is a function that builds a handler for an allow-list. Here the allow-list is a parameter of the handler.
- Route wiring: no route attaches `JWTAuth` or `Authorize`, so which routes are protected is not modelled.
- Controllers, services, repositories, models, migrations, database connection, configuration and server start-up: HTTP, ORM and database plumbing with no logic of its own. None of these is part of this model.
