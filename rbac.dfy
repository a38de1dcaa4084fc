/**
 * The role check: a request continues when some role of the caller equals
 * some role on the route's allow-list, and is aborted with 403 otherwise.
 */
module Rbac {
  import opened Wrappers
  import opened Claims
  import opened Gin

  const MsgInsufficientPermissions := "insufficient permissions"

  /** Some caller role is, character for character, some allowed role. */
  predicate HasAny(roles: seq<string>, allowedRoles: seq<string>)
  {
    exists i, j :: 0 <= i < |roles| && 0 <= j < |allowedRoles| && roles[i] == allowedRoles[j]
  }

  /** The distinct role names of a list. */
  function RoleSet(roles: seq<string>): set<string>
  {
    set r | r in roles
  }

  /** A matching pair of positions: caller role `role` equals allowed role `allowed`. */
  datatype Grant = Grant(role: nat, allowed: nat)

  /** Pair (i, j) is scanned before pair (k, l): caller roles outermost, allowed roles innermost. */
  predicate ScannedBefore(i: int, j: int, k: int, l: int)
  {
    i < k || (i == k && j < l)
  }

  /**
   * The nested scan over the caller's roles and the allow-list, stopping at
   * the first match: the first matching pair in scan order, or None.
   */
  method FirstGrant(roles: seq<string>, allowedRoles: seq<string>) returns (g: Option<Grant>)
    ensures g.Some? <==> HasAny(roles, allowedRoles)
    ensures g.Some? ==>
              && g.value.role < |roles| && g.value.allowed < |allowedRoles|
              && roles[g.value.role] == allowedRoles[g.value.allowed]
    ensures g.Some? ==>
              forall i, j ::
                0 <= i < |roles| && 0 <= j < |allowedRoles| && ScannedBefore(i, j, g.value.role, g.value.allowed)
                ==> roles[i] != allowedRoles[j]
  {
    for i := 0 to |roles|
      invariant forall k, l :: 0 <= k < i && 0 <= l < |allowedRoles| ==> roles[k] != allowedRoles[l]
    {
      for j := 0 to |allowedRoles|
        invariant forall l :: 0 <= l < j ==> roles[i] != allowedRoles[l]
      {
        if roles[i] == allowedRoles[j] {
          return Some(Grant(i, j));
        }
      }
    }
    return None;
  }

  /** The calls the role check makes on the context for these roles and this allow-list. */
  function AuthorizeEffects(roles: seq<string>, allowedRoles: seq<string>): (effects: seq<Action>)
    ensures |effects| == 1
    // exactly one outcome: continue, or abort with 403
    ensures Continues(effects) != AbortsWith(effects, StatusForbidden)
    ensures Continues(effects) <==> HasAny(roles, allowedRoles)
    ensures !Continues(effects) ==> effects == [Abort(StatusForbidden, MsgInsufficientPermissions)]
  {
    if HasAny(roles, allowedRoles) then
      assert [CallNext][0] == CallNext;
      [CallNext]
    else
      assert [Abort(StatusForbidden, MsgInsufficientPermissions)][0].Abort?;
      [Abort(StatusForbidden, MsgInsufficientPermissions)]
  }

  /**
   * The handler the role check builds for `allowedRoles`, run on `c`. The
   * context must already hold the application's claims under "claims".
   */
  method Authorize(c: Context, allowedRoles: seq<string>)
    requires ClaimsReady(c.keys)
    modifies c
    ensures c.log == old(c.log) + AuthorizeEffects(old(c.keys[ClaimsKey].roles), allowedRoles)
    ensures c.Snapshot() == Run(old(c.Snapshot()), AuthorizeEffects(old(c.keys[ClaimsKey].roles), allowedRoles))
  {
    var claims := c.keys[ClaimsKey];
    var g := FirstGrant(claims.roles, allowedRoles);
    if g.Some? {
      c.Next();
      RunSnoc(old(c.Snapshot()), [], CallNext);
      return;
    }
    c.AbortWithStatusJSON(StatusForbidden, MsgInsufficientPermissions);
    RunSnoc(old(c.Snapshot()), [], Abort(StatusForbidden, MsgInsufficientPermissions));
  }

  /** The scan asks only whether the two role sets meet. */
  lemma HasAnyIffCommonRole(roles: seq<string>, allowedRoles: seq<string>)
    ensures HasAny(roles, allowedRoles) <==> RoleSet(roles) * RoleSet(allowedRoles) != {}
  {
    if r :| r in RoleSet(roles) * RoleSet(allowedRoles) {
      var i :| 0 <= i < |roles| && roles[i] == r;
      var j :| 0 <= j < |allowedRoles| && allowedRoles[j] == r;
    }
    if HasAny(roles, allowedRoles) {
      var i, j :| 0 <= i < |roles| && 0 <= j < |allowedRoles| && roles[i] == allowedRoles[j];
      assert roles[i] in RoleSet(roles) * RoleSet(allowedRoles);
    }
  }

  /** Reordering or repeating roles in either list does not change the outcome. */
  lemma OutcomeIgnoresOrderAndDuplicates(roles: seq<string>, allowedRoles: seq<string>,
                                         roles': seq<string>, allowedRoles': seq<string>)
    requires RoleSet(roles) == RoleSet(roles') && RoleSet(allowedRoles) == RoleSet(allowedRoles')
    ensures AuthorizeEffects(roles, allowedRoles) == AuthorizeEffects(roles', allowedRoles')
  {
    HasAnyIffCommonRole(roles, allowedRoles);
    HasAnyIffCommonRole(roles', allowedRoles');
  }

  /** An empty allow-list refuses every caller with 403. */
  lemma EmptyAllowListForbids(roles: seq<string>)
    ensures AuthorizeEffects(roles, []) == [Abort(StatusForbidden, MsgInsufficientPermissions)]
  {
  }

  /** A caller without roles is refused with 403, whatever the allow-list. */
  lemma NoRolesForbidden(allowedRoles: seq<string>)
    ensures AuthorizeEffects([], allowedRoles) == [Abort(StatusForbidden, MsgInsufficientPermissions)]
  {
  }

  /** A single role passes a single-entry allow-list exactly when the two strings are equal. */
  lemma SingleRoleMatchesExactly(role: string, allowed: string)
    ensures HasAny([role], [allowed]) <==> role == allowed
  {
    if role == allowed {
      assert [role][0] == [allowed][0];
    }
  }

  /** Case, surrounding spaces and prefixes all make a role fail to match. */
  lemma MatchingIsExact()
    ensures !HasAny(["Admin"], ["admin"])
    ensures !HasAny(["admin "], ["admin"])
    ensures !HasAny(["admin"], ["administrator"])
  {
  }

  /** Continuing sets no status and stores nothing; refusing sets 403 and stores nothing. */
  lemma AuthorizeOutcome(s: ContextState, roles: seq<string>, allowedRoles: seq<string>)
    ensures var s' := Run(s, AuthorizeEffects(roles, allowedRoles));
      && s'.keys == s.keys
      && (HasAny(roles, allowedRoles) ==> s'.nextCalled && s'.aborted == s.aborted && s'.status == s.status)
      && (!HasAny(roles, allowedRoles) ==> s'.aborted && s'.status == StatusForbidden && s'.nextCalled == s.nextCalled)
  {
  }
}
