/**
 * The authentication middleware: accept a request only when its
 * Authorization header carries "Bearer <token>" and the token verifies;
 * store the verified claims in the context and continue, or abort with 401.
 */
module JwtAuth {
  import opened Wrappers
  import opened Claims
  import opened GoStrings
  import opened Gin

  /** The header prefix, compared case-sensitively and including its one space. */
  const BearerPrefix := "Bearer "

  const MsgBadHeader := "missing or invalid Authorization header"
  const MsgInvalidToken := "invalid token"

  /** What the token parser reports: whether it returned an error, whether the token is valid, and its claims. */
  datatype ParseResult = ParseResult(hasError: bool, valid: bool, claims: Claims)

  /** The middleware lets a parse result through only without error and with a valid token. */
  predicate Accepts(p: ParseResult)
  {
    !p.hasError && p.valid
  }

  /**
   * The token parser (signature and expiry checking with a fixed key), as an
   * oracle: `verdictOf` is its answer for each token; `consulted` records
   * the tokens it was handed, oldest first.
   */
  class TokenParser {
    const verdictOf: string -> ParseResult
    ghost var consulted: seq<string>

    constructor (verdictOf: string -> ParseResult)
      ensures this.verdictOf == verdictOf && consulted == []
    {
      this.verdictOf := verdictOf;
      consulted := [];
    }

    method Parse(token: string) returns (r: ParseResult)
      modifies this
      ensures r == verdictOf(token)
      ensures consulted == old(consulted) + [token]
    {
      r := verdictOf(token);
      consulted := consulted + [token];
    }
  }

  /**
   * The header check and prefix removal: the token the header carries, or
   * None when the header is empty or does not start with "Bearer ".
   */
  function BearerToken(header: string): (token: Option<string>)
    ensures token.Some? <==> header != "" && HasPrefix(header, BearerPrefix)
    ensures token.Some? ==> BearerPrefix + token.value == header
  {
    if header == "" || !HasPrefix(header, BearerPrefix) then None
    else Some(TrimPrefix(header, BearerPrefix))
  }

  /** The tokens handed to the parser for `header`: the bearer token, or nothing. */
  function HandedOn(header: string): seq<string>
  {
    match BearerToken(header)
    case Some(token) => [token]
    case None => []
  }

  /**
   * The calls the middleware makes on the context, given the header and the
   * parser's answers.
   */
  function JwtEffects(header: string, verdictOf: string -> ParseResult): (effects: seq<Action>)
    // exactly one outcome: continue, or abort with 401
    ensures Continues(effects) != AbortsWith(effects, StatusUnauthorized)
    ensures Continues(effects) <==>
              BearerToken(header).Some? && Accepts(verdictOf(BearerToken(header).value))
    // a bad header is refused without looking at any token
    ensures BearerToken(header).None? ==> effects == [Abort(StatusUnauthorized, MsgBadHeader)]
    // a rejected token: one abort, no claims stored, no next handler
    ensures BearerToken(header).Some? && !Accepts(verdictOf(BearerToken(header).value)) ==>
              effects == [Abort(StatusUnauthorized, MsgInvalidToken)]
    // success: the parser's claims are stored first, then the chain continues
    ensures Continues(effects) ==>
              effects == [SetKey(ClaimsKey, verdictOf(BearerToken(header).value).claims), CallNext]
  {
    match BearerToken(header)
    case None =>
      assert [Abort(StatusUnauthorized, MsgBadHeader)][0].Abort?;
      [Abort(StatusUnauthorized, MsgBadHeader)]
    case Some(token) =>
      var p := verdictOf(token);
      if !Accepts(p) then
        assert [Abort(StatusUnauthorized, MsgInvalidToken)][0].Abort?;
        [Abort(StatusUnauthorized, MsgInvalidToken)]
      else
        assert [SetKey(ClaimsKey, p.claims), CallNext][1] == CallNext;
        [SetKey(ClaimsKey, p.claims), CallNext]
  }

  /** The middleware as a handler on `c`, consulting `parser` for the token. */
  method JWTAuth(c: Context, parser: TokenParser)
    modifies c, parser
    ensures c.log == old(c.log) + JwtEffects(c.authorization, parser.verdictOf)
    ensures c.Snapshot() == Run(old(c.Snapshot()), JwtEffects(c.authorization, parser.verdictOf))
    ensures parser.consulted == old(parser.consulted) + HandedOn(c.authorization)
  {
    var header := c.authorization;
    if header == "" || !HasPrefix(header, BearerPrefix) {
      c.AbortWithStatusJSON(StatusUnauthorized, MsgBadHeader);
      RunSnoc(old(c.Snapshot()), [], Abort(StatusUnauthorized, MsgBadHeader));
      return;
    }
    var tokenString := TrimPrefix(header, BearerPrefix);
    var p := parser.Parse(tokenString);
    if p.hasError || !p.valid {
      c.AbortWithStatusJSON(StatusUnauthorized, MsgInvalidToken);
      RunSnoc(old(c.Snapshot()), [], Abort(StatusUnauthorized, MsgInvalidToken));
      return;
    }
    c.Set(ClaimsKey, p.claims);
    c.Next();
    RunSnoc(old(c.Snapshot()), [], SetKey(ClaimsKey, p.claims));
    RunSnoc(old(c.Snapshot()), [SetKey(ClaimsKey, p.claims)], CallNext);
    assert [SetKey(ClaimsKey, p.claims)] + [CallNext] == [SetKey(ClaimsKey, p.claims), CallNext];
  }

  /** A header that fails the check gets the same answer whatever the parser would say. */
  lemma MalformedHeaderIgnoresParser(header: string, v1: string -> ParseResult, v2: string -> ParseResult)
    requires !HasPrefix(header, BearerPrefix)
    ensures JwtEffects(header, v1) == JwtEffects(header, v2) == [Abort(StatusUnauthorized, MsgBadHeader)]
    ensures HandedOn(header) == []
  {
  }

  /** An absent or empty header is refused with 401 and no token is handed on. */
  lemma EmptyHeaderUnauthorized(verdictOf: string -> ParseResult)
    ensures JwtEffects("", verdictOf) == [Abort(StatusUnauthorized, MsgBadHeader)]
    ensures HandedOn("") == []
  {
  }

  /** Any token written after "Bearer " is exactly the token handed on. */
  lemma BearerRoundTrip(token: string)
    ensures BearerToken(BearerPrefix + token) == Some(token)
  {
  }

  /** Other case, a missing space and other schemes fail; one prefix only is removed; "Bearer " yields the empty token. */
  lemma HeaderExamples()
    ensures BearerToken("bearer x") == None
    ensures BearerToken("Bearer") == None
    ensures BearerToken("Basic dXNlcjpwYXNz") == None
    ensures BearerToken("Bearer Bearer t") == Some("Bearer t")
    ensures BearerToken("Bearer ") == Some("")
  {
    assert "bearer x"[..7] != BearerPrefix by { assert "bearer x"[0] != BearerPrefix[0]; }
    assert "Basic dXNlcjpwYXNz"[..7] != BearerPrefix by { assert "Basic dXNlcjpwYXNz"[1] != BearerPrefix[1]; }
    BearerRoundTrip("Bearer t");
    BearerRoundTrip("");
  }

  /** A refused request is aborted with 401; the stored keys and the chain are untouched. */
  lemma RejectionLeavesContext(s: ContextState, header: string, verdictOf: string -> ParseResult)
    requires !Continues(JwtEffects(header, verdictOf))
    ensures Run(s, JwtEffects(header, verdictOf)).aborted
    ensures Run(s, JwtEffects(header, verdictOf)).status == StatusUnauthorized
    ensures Run(s, JwtEffects(header, verdictOf)).keys == s.keys
    ensures Run(s, JwtEffects(header, verdictOf)).nextCalled == s.nextCalled
  {
  }

  /** An accepted request has its claims stored under "claims", continues, and is not aborted. */
  lemma AcceptanceStoresClaims(s: ContextState, header: string, verdictOf: string -> ParseResult)
    requires Continues(JwtEffects(header, verdictOf))
    ensures var s' := Run(s, JwtEffects(header, verdictOf));
      && s'.keys == s.keys[ClaimsKey := verdictOf(BearerToken(header).value).claims]
      && s'.nextCalled
      && s'.aborted == s.aborted
      && s'.status == s.status
  {
    var store := SetKey(ClaimsKey, verdictOf(BearerToken(header).value).claims);
    RunSnoc(s, [], store);
    RunSnoc(s, [store], CallNext);
    assert [store] + [CallNext] == JwtEffects(header, verdictOf);
  }

  /**
   * After an accepted request, the role check's precondition holds exactly
   * when the parser's claims are of the application's claims type.
   */
  lemma AcceptedClaimsReadyIffCustom(s: ContextState, header: string, verdictOf: string -> ParseResult)
    requires Continues(JwtEffects(header, verdictOf))
    ensures ClaimsReady(Run(s, JwtEffects(header, verdictOf)).keys) <==>
              verdictOf(BearerToken(header).value).claims.CustomClaims?
  {
    AcceptanceStoresClaims(s, header, verdictOf);
  }
}
