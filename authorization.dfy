/** The role gate in front of the admin routes (middlewares/authorization.go). */
module Authorization {

  import opened Base
  import opened ErrCode

  /** The answer for a request without a role. */
  const InvalidRequest := Abort(StatusForbidden, SY_FORBIDDEN_001, "Invalid request, restricted endpoint")
  /** The answer for a role that is not allowed. */
  const NotPermitted := Abort(StatusForbidden, SY_FORBIDDEN_002, "Don't have permission")

  /** `RequireAuthorization(auths...)` applied to the caller's role: `None` lets
      the request through, `Some(e)` aborts it with `e`. The scan stops at the
      first listed auth equal to the role. */
  method RequireAuthorization(role: string, auths: seq<string>) returns (denied: Option<AppError>)
    ensures role == "" ==> denied == Some(InvalidRequest)
    ensures role != "" && role in auths ==> denied == None
    ensures role != "" && role !in auths ==> denied == Some(NotPermitted)
    ensures denied == Decision(role, Members(auths))
  {
    if role == "" {
      return Some(InvalidRequest);
    }
    var isAccessible := false;
    var i := 0;
    while i < |auths|
      invariant 0 <= i <= |auths|
      invariant isAccessible ==> role in auths
      invariant !isAccessible ==> role !in auths[..i]
      decreases |auths| - i, if isAccessible then 0 else 1
    {
      if role == auths[i] {
        isAccessible := true;
        break;
      }
      i := i + 1;
    }
    if !isAccessible {
      return Some(NotPermitted);
    }
    return None;
  }

  /** The set of auths a list names. */
  function Members(auths: seq<string>): (s: set<string>)
    ensures forall a :: a in s <==> a in auths
  {
    set a | a in auths
  }

  /** The gate's decision as a function of the role and the allowed set. */
  function Decision(role: string, allowed: set<string>): (denied: Option<AppError>)
    ensures denied == None <==> role != "" && role in allowed
    ensures denied.Some? ==> denied.value.status == StatusForbidden
  {
    if role == "" then Some(InvalidRequest)
    else if role in allowed then None
    else Some(NotPermitted)
  }

  /** The gate only looks at which auths are listed: any two lists with the same
      members (in any order, with any repetitions) decide every role alike. */
  lemma DecisionDependsOnlyOnMembership(role: string, auths1: seq<string>, auths2: seq<string>)
    requires forall a :: a in auths1 <==> a in auths2
    ensures Decision(role, Members(auths1)) == Decision(role, Members(auths2))
  {
    assert Members(auths1) == Members(auths2);
  }

  /** With no auths listed, every request that has a role is denied. */
  lemma EmptyListDeniesEveryRole(role: string)
    requires role != ""
    ensures Decision(role, {}) == Some(NotPermitted)
  {
  }
}
