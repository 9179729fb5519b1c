/** The two validators of the server configuration: the one that stops at the first error, and the one that
    reports everything. */
module ConfigValidation {
  import opened ConfigFaults
  import opened ConfigMeaning
  import opened ConfigModel
  import opened Text
  import opened WorkflowOverlap
  import opened WorkflowScopes
  import opened Wrappers

  // ---------------------------------------------------------------------------
  // Stopping at the first error
  // ---------------------------------------------------------------------------

  method CountSupported(steps: seq<bool>) returns (n: nat)
    ensures n == 0 <==> true !in steps
  {
    n := 0;
    var i := 0;
    while i < |steps|
      invariant 0 <= i <= |steps|
      invariant n == 0 <==> true !in steps[..i]
    {
      assert steps[..i + 1] == steps[..i] + [steps[i]];
      if steps[i] {
        n := n + 1;
      }
      i := i + 1;
    }
    assert steps[..i] == steps;
  }

  method CheckAutoApprove(ws: seq<Workflow>) returns (ok: bool)
    ensures ok <==> forall id :: !WorkflowsFault(ws, id)
  {
    var i := 0;
    while i < |ws|
      invariant 0 <= i <= |ws|
      invariant forall k, id :: 0 <= k < i ==> !AutoApproveFault(ws[k], id)
    {
      var w := ws[i];
      var n := CountSupported(w.steps);
      if w.autoApprove.None? && n == 0 {
        assert AutoApproveFault(w, WorkflowMissingApproval);
        assert WorkflowsFault(ws, WorkflowMissingApproval);
        return false;
      }
      if w.autoApprove == Some(Always) && n > 0 {
        assert AutoApproveFault(w, WorkflowUnreachableSteps);
        assert WorkflowsFault(ws, WorkflowUnreachableSteps);
        return false;
      }
      if w.autoApprove.Some? && w.autoApprove.value.RiskBased? {
        if n == 0 {
          assert AutoApproveFault(w, WorkflowMissingFallback);
          assert WorkflowsFault(ws, WorkflowMissingFallback);
          return false;
        }
        if w.autoApprove.value.risk !in ["low", "medium", "high"] {
          assert AutoApproveFault(w, WorkflowInvalidRisk);
          assert WorkflowsFault(ws, WorkflowInvalidRisk);
          return false;
        }
      }
      assert forall id :: !AutoApproveFault(w, id);
      i := i + 1;
    }
    return true;
  }

  method CheckWebhooks(ids: seq<string>) returns (ok: bool)
    ensures ok <==> forall id :: !WebhooksFault(ids, id)
  {
    var seen: set<string> := {};
    var i := 0;
    while i < |ids|
      invariant 0 <= i <= |ids|
      invariant forall x :: x in seen <==> x in ids[..i]
      invariant forall k, id :: 0 <= k < i ==> !WebhookFault(ids, k, id)
    {
      if ids[i] == "" {
        assert WebhookFault(ids, i, WebhookIdMissing);
        assert WebhooksFault(ids, WebhookIdMissing);
        return false;
      }
      if |ids[i]| > 64 {
        assert WebhookFault(ids, i, WebhookIdTooLong);
        assert WebhooksFault(ids, WebhookIdTooLong);
        return false;
      }
      if !IdFormat(ids[i]) {
        assert WebhookFault(ids, i, WebhookIdFormat);
        assert WebhooksFault(ids, WebhookIdFormat);
        return false;
      }
      if ids[i] in seen {
        assert WebhookFault(ids, i, WebhookIdDuplicate);
        assert WebhooksFault(ids, WebhookIdDuplicate);
        return false;
      }
      assert forall id :: !WebhookFault(ids, i, id);
      assert ids[..i + 1] == ids[..i] + [ids[i]];
      seen := seen + {ids[i]};
      i := i + 1;
    }
    return true;
  }

  method ElementSet(s: seq<string>) returns (r: set<string>)
    ensures forall x :: x in r <==> x in s
  {
    r := {};
    var i := 0;
    while i < |s|
      invariant 0 <= i <= |s|
      invariant forall x :: x in r <==> x in s[..i]
    {
      assert s[..i + 1] == s[..i] + [s[i]];
      r := r + {s[i]};
      i := i + 1;
    }
    assert s[..i] == s;
  }

  /** Whether all references are known. */
  method CheckKnown(refs: seq<string>, known: set<string>) returns (ok: bool)
    ensures ok <==> forall r :: r in refs ==> r in known
  {
    var i := 0;
    while i < |refs|
      invariant 0 <= i <= |refs|
      invariant forall k :: 0 <= k < i ==> refs[k] in known
    {
      if refs[i] !in known {
        return false;
      }
      i := i + 1;
    }
    return true;
  }

  method CheckNotifications(policies: seq<seq<string>>, ids: seq<string>) returns (ok: bool)
    ensures ok <==> forall id :: !NotificationsFault(policies, ids, id)
  {
    var known := ElementSet(ids);
    var i := 0;
    while i < |policies|
      invariant 0 <= i <= |policies|
      invariant forall k, id :: 0 <= k < i ==> !NotificationFault(policies[k], ids, id)
    {
      var good := CheckKnown(policies[i], known);
      if !good {
        assert NotificationFault(policies[i], ids, NotificationWebhookRef);
        assert NotificationsFault(policies, ids, NotificationWebhookRef);
        return false;
      }
      i := i + 1;
    }
    return true;
  }

  method CheckDeliveryModes(modes: seq<string>) returns (ok: bool)
    ensures ok <==> forall id :: !DeliveriesFault(modes, id)
  {
    var i := 0;
    while i < |modes|
      invariant 0 <= i <= |modes|
      invariant forall k, id :: 0 <= k < i ==> !DeliveryFault(modes[k], id)
    {
      if modes[i] != "both" && modes[i] != "stream" {
        assert DeliveryFault(modes[i], ResultPolicyDeliveryMode);
        assert DeliveriesFault(modes, ResultPolicyDeliveryMode);
        return false;
      }
      i := i + 1;
    }
    return true;
  }

  method CheckExecutions(policies: seq<ExecutionPolicy>) returns (ok: bool)
    ensures ok <==> forall id :: !ExecutionsFault(policies, id)
  {
    var i := 0;
    while i < |policies|
      invariant 0 <= i <= |policies|
      invariant forall k, id :: 0 <= k < i ==> !ExecutionFault(policies[k], id)
    {
      var p := policies[i];
      if p.maxExecutions == Some(0) {
        assert ExecutionFault(p, ExecutionPolicyMax);
        assert ExecutionsFault(policies, ExecutionPolicyMax);
        return false;
      }
      if p.statementTimeout.Some? && p.maxStatementTimeout.Some?
         && p.statementTimeout.value > p.maxStatementTimeout.value {
        assert ExecutionFault(p, ExecutionPolicyTimeout);
        assert ExecutionsFault(policies, ExecutionPolicyTimeout);
        return false;
      }
      if p.migrationStatementTimeout.Some? && p.maxStatementTimeout.Some? && p.migrationStatementTimeout.value > 0
         && p.migrationStatementTimeout.value > p.maxStatementTimeout.value {
        assert ExecutionFault(p, ExecutionPolicyMigrationTimeout);
        assert ExecutionsFault(policies, ExecutionPolicyMigrationTimeout);
        return false;
      }
      i := i + 1;
    }
    return true;
  }

  method CheckPermission(parsers: Parsers, perm: string) returns (ok: bool)
    ensures ok <==> forall id :: !PermissionFault(parsers, perm, id)
  {
    var (name, ownership) := SplitOwnership(perm);
    var parsed := parsers.permission(name);
    if parsed.None? {
      assert PermissionFault(parsers, perm, RoleUnknownPermission);
      return false;
    }
    if ownership.Some? {
      if parsed.value == All {
        assert PermissionFault(parsers, perm, RolePermissionOwnership);
        return false;
      }
      if ownership.value != "own" && ownership.value != "any" {
        assert PermissionFault(parsers, perm, RoleInvalidOwnership);
        return false;
      }
    }
    return true;
  }

  method CheckNames(names: seq<string>, valid: string -> bool) returns (ok: bool)
    ensures ok <==> !NamesFault(names, valid)
  {
    var i := 0;
    while i < |names|
      invariant 0 <= i <= |names|
      invariant forall k :: 0 <= k < i ==> names[k] == ANY || valid(names[k])
    {
      if names[i] != ANY && !valid(names[i]) {
        return false;
      }
      i := i + 1;
    }
    return true;
  }

  method CheckPermissions(parsers: Parsers, perms: seq<string>) returns (ok: bool)
    ensures ok <==> forall id :: !PermissionsFault(parsers, perms, id)
  {
    var i := 0;
    while i < |perms|
      invariant 0 <= i <= |perms|
      invariant forall k, id :: 0 <= k < i ==> !PermissionFault(parsers, perms[k], id)
    {
      var good := CheckPermission(parsers, perms[i]);
      if !good {
        ghost var id :| PermissionFault(parsers, perms[i], id);
        assert PermissionsFault(parsers, perms, id);
        return false;
      }
      i := i + 1;
    }
    return true;
  }

  /** One role's name, given the names seen so far. */
  method CheckRoleHead(roles: seq<Role>, i: nat, seen: set<string>) returns (ok: bool)
    requires i < |roles| && forall x :: x in seen <==> HasRole(roles[..i], x)
    ensures ok <==> forall id :: !RoleHeadFault(roles, i, id)
  {
    if Builtin(roles[i].name) {
      assert RoleHeadFault(roles, i, RoleBuiltinCollision);
      return false;
    }
    if roles[i].name in seen {
      assert RoleHeadFault(roles, i, RoleDuplicate);
      return false;
    }
    if roles[i].permissions == [] {
      assert RoleHeadFault(roles, i, RoleNoPermissions);
      return false;
    }
    return true;
  }

  method CheckRole(parsers: Parsers, roles: seq<Role>, i: nat, seen: set<string>) returns (ok: bool)
    requires i < |roles| && forall x :: x in seen <==> HasRole(roles[..i], x)
    ensures ok <==> forall id :: !RoleFault(parsers, roles, i, id)
  {
    var r := roles[i];
    var good := CheckRoleHead(roles, i, seen);
    if !good {
      ghost var id :| RoleHeadFault(roles, i, id);
      assert RoleFault(parsers, roles, i, id);
      return false;
    }
    good := CheckPermissions(parsers, r.permissions);
    if !good {
      ghost var id :| PermissionsFault(parsers, r.permissions, id);
      assert RoleFault(parsers, roles, i, id);
      return false;
    }
    good := CheckNames(r.databases, parsers.database);
    if !good {
      assert RoleFault(parsers, roles, i, RoleInvalidDatabase);
      return false;
    }
    good := CheckNames(r.environments, parsers.environment);
    if !good {
      assert RoleFault(parsers, roles, i, RoleInvalidEnvironment);
      return false;
    }
    return true;
  }

  lemma HasRoleNext(roles: seq<Role>, i: nat, x: string)
    requires i < |roles|
    ensures HasRole(roles[..i + 1], x) <==> HasRole(roles[..i], x) || roles[i].name == x
  {
    assert forall k :: 0 <= k < i ==> roles[..i][k] == roles[..i + 1][k];
    assert roles[..i + 1][i] == roles[i];
  }

  /** Also returns the names of all roles there are. */
  method CheckRoles(parsers: Parsers, roles: seq<Role>) returns (ok: bool, defined: set<string>)
    ensures ok <==> forall id :: !RolesFault(parsers, roles, id)
    ensures ok ==> forall x :: x in defined <==> Defined(roles, x)
  {
    var names: set<string> := {};
    defined := {};
    var i := 0;
    while i < |roles|
      invariant 0 <= i <= |roles|
      invariant forall x :: x in names <==> HasRole(roles[..i], x)
      invariant forall k, id :: 0 <= k < i ==> !RoleFault(parsers, roles, k, id)
    {
      var good := CheckRole(parsers, roles, i, names);
      if !good {
        ghost var id :| RoleFault(parsers, roles, i, id);
        assert RolesFault(parsers, roles, id);
        return false, defined;
      }
      forall x ensures HasRole(roles[..i + 1], x) <==> HasRole(roles[..i], x) || roles[i].name == x {
        HasRoleNext(roles, i, x);
      }
      names := names + {roles[i].name};
      i := i + 1;
    }
    assert roles[..i] == roles;
    return true, BuiltinRoles() + names;
  }

  lemma HasGroupNext(groups: seq<Group>, i: nat, x: string)
    requires i < |groups|
    ensures HasGroup(groups[..i + 1], x) <==> HasGroup(groups[..i], x) || groups[i].name == x
  {
    assert forall k :: 0 <= k < i ==> groups[..i][k] == groups[..i + 1][k];
    assert groups[..i + 1][i] == groups[i];
  }

  method CheckGroups(roles: seq<Role>, defined: set<string>, groups: seq<Group>) returns (ok: bool)
    requires forall x :: x in defined <==> Defined(roles, x)
    ensures ok <==> forall id :: !GroupsFault(roles, groups, id)
  {
    var seen: set<string> := {};
    var i := 0;
    while i < |groups|
      invariant 0 <= i <= |groups|
      invariant forall x :: x in seen <==> HasGroup(groups[..i], x)
      invariant forall k, id :: 0 <= k < i ==> !GroupFault(roles, groups, k, id)
    {
      var g := groups[i];
      if g.name in seen {
        assert GroupFault(roles, groups, i, GroupDuplicate);
        assert GroupsFault(roles, groups, GroupDuplicate);
        return false;
      }
      if g.roles == [] {
        assert GroupFault(roles, groups, i, GroupNoRoles);
        assert GroupsFault(roles, groups, GroupNoRoles);
        return false;
      }
      var refsOk := CheckKnown(g.roles, defined);
      if !refsOk {
        assert GroupFault(roles, groups, i, GroupRoleRef);
        assert GroupsFault(roles, groups, GroupRoleRef);
        return false;
      }
      assert forall id :: !GroupFault(roles, groups, i, id);
      forall x ensures HasGroup(groups[..i + 1], x) <==> HasGroup(groups[..i], x) || groups[i].name == x {
        HasGroupNext(groups, i, x);
      }
      seen := seen + {g.name};
      i := i + 1;
    }
    return true;
  }

  method CheckAuth(parsers: Parsers, auth: Auth) returns (ok: bool)
    ensures ok <==> forall id :: !AuthFault(parsers, auth, id)
  {
    var rolesOk, defined := CheckRoles(parsers, auth.roles);
    if !rolesOk {
      ghost var id :| RolesFault(parsers, auth.roles, id);
      assert AuthFault(parsers, auth, id);
      return false;
    }
    var groupsOk := CheckGroups(auth.roles, defined, auth.groups);
    if !groupsOk {
      ghost var id :| GroupsFault(auth.roles, auth.groups, id);
      assert AuthFault(parsers, auth, id);
      return false;
    }
    if auth.defaultRole.Some? && auth.defaultRole.value !in defined {
      assert DefaultRoleFault(auth, DefaultRoleRef);
      assert AuthFault(parsers, auth, DefaultRoleRef);
      return false;
    }
    return true;
  }

  lemma HasReviewNext(reviews: seq<SqlReview>, i: nat, p: Pair)
    requires i < |reviews|
    ensures HasReview(reviews[..i + 1], p.0, p.1) <==>
              HasReview(reviews[..i], p.0, p.1) || (reviews[i].database, reviews[i].environment) == p
  {
    assert forall k :: 0 <= k < i ==> reviews[..i][k] == reviews[..i + 1][k];
    assert reviews[..i + 1][i] == reviews[i];
  }

  method CheckReviews(reviews: seq<SqlReview>) returns (ok: bool)
    ensures ok <==> forall id :: !ReviewsFault(reviews, id)
  {
    var seen: set<Pair> := {};
    var i := 0;
    while i < |reviews|
      invariant 0 <= i <= |reviews|
      invariant forall p: Pair :: p in seen <==> HasReview(reviews[..i], p.0, p.1)
      invariant forall k, id :: 0 <= k < i ==> !SqlReviewFault(reviews, k, id)
    {
      var r := reviews[i];
      if r.database == "any" || r.environment == "any" {
        assert SqlReviewFault(reviews, i, SqlReviewReserved);
        assert ReviewsFault(reviews, SqlReviewReserved);
        return false;
      }
      var scope := (r.database, r.environment);
      assert scope in seen <==> HasReview(reviews[..i], scope.0, scope.1);
      if scope in seen {
        assert SqlReviewFault(reviews, i, SqlReviewDuplicate);
        assert ReviewsFault(reviews, SqlReviewDuplicate);
        return false;
      }
      var rulesOk := CheckKnown(Rules(r), Actions());
      if !rulesOk {
        assert SqlReviewFault(reviews, i, SqlReviewInvalidAction);
        assert ReviewsFault(reviews, SqlReviewInvalidAction);
        return false;
      }
      assert forall id :: !SqlReviewFault(reviews, i, id);
      forall p: Pair
        ensures HasReview(reviews[..i + 1], p.0, p.1) <==> HasReview(reviews[..i], p.0, p.1) || scope == p
      {
        HasReviewNext(reviews, i, p);
      }
      seen := seen + {scope};
      i := i + 1;
    }
    return true;
  }

  method DefinedRoles(roles: seq<Role>) returns (defined: set<string>)
    ensures forall x :: x in defined <==> Defined(roles, x)
  {
    defined := BuiltinRoles();
    var i := 0;
    while i < |roles|
      invariant 0 <= i <= |roles|
      invariant forall x :: x in defined <==> Builtin(x) || HasRole(roles[..i], x)
    {
      forall x ensures HasRole(roles[..i + 1], x) <==> HasRole(roles[..i], x) || roles[i].name == x {
        HasRoleNext(roles, i, x);
      }
      defined := defined + {roles[i].name};
      i := i + 1;
    }
    assert roles[..i] == roles;
  }

  method CheckMappings(auth: Auth) returns (ok: bool)
    ensures ok <==> forall id :: !MappingFault(auth, id)
  {
    var defined := DefinedRoles(auth.roles);
    if auth.oidc.Some? {
      ok := CheckKnown(auth.oidc.value.roleMappings, defined);
      assert !ok ==> MappingFault(auth, OidcRoleMappingRef);
      return;
    }
    return true;
  }

  method CheckConnection(auth: Auth) returns (ok: bool)
    ensures ok <==> forall id :: !ConnectionFault(auth, id)
  {
    if auth.oidc.Some? {
      var o := auth.oidc.value;
      ok := CheckUrl(o.issuerUrl);
      if !ok {
        assert ConnectionFault(auth, if Blank(o.issuerUrl) then OidcIssuerEmpty else OidcIssuerScheme);
        return;
      }
      if o.jwksUri.Some? {
        ok := CheckUrl(o.jwksUri.value);
        if !ok {
          assert ConnectionFault(auth, if Blank(o.jwksUri.value) then OidcJwksEmpty else OidcJwksScheme);
          return;
        }
      }
      var hasClientId := o.clientId.Some? && Trim(o.clientId.value) != "";
      var hasAudience := Trim(o.audience) != "";
      if !hasClientId && !hasAudience {
        assert ConnectionFault(auth, OidcNoAudience);
        return false;
      }
    }
    return true;
  }

  method CheckUrl(url: string) returns (ok: bool)
    ensures ok <==> !Blank(url) && !BadScheme(url)
  {
    var trimmed := Trim(url);
    if trimmed == "" {
      return false;
    }
    if !HttpUrl(trimmed) {
      return false;
    }
    return true;
  }

  method ValidateCommon(parsers: Parsers, c: Config) returns (ok: bool)
    ensures ok <==> forall id :: !CommonFault(parsers, c, id)
  {
    if c.approvalTtlSecs == 0 {
      assert CommonFault(parsers, c, ApprovalTtl);
      return false;
    }
    var good := CheckOverlap(c.workflows);
    if !good {
      assert CommonFault(parsers, c, WorkflowOperationsOverlap);
      return false;
    }
    if c.legacyAutoApprove > 0 {
      assert CommonFault(parsers, c, LegacyAutoApprove);
      return false;
    }
    good := CheckAutoApprove(c.workflows);
    if !good {
      ghost var id :| WorkflowsFault(c.workflows, id);
      assert CommonFault(parsers, c, id);
      return false;
    }
    good := CheckWebhooks(c.webhookIds);
    if !good {
      ghost var id :| WebhooksFault(c.webhookIds, id);
      assert CommonFault(parsers, c, id);
      return false;
    }
    good := CheckNotifications(c.notificationWebhooks, c.webhookIds);
    if !good {
      ghost var id :| NotificationsFault(c.notificationWebhooks, c.webhookIds, id);
      assert CommonFault(parsers, c, id);
      return false;
    }
    good := CheckDeliveryModes(c.deliveryModes);
    if !good {
      ghost var id :| DeliveriesFault(c.deliveryModes, id);
      assert CommonFault(parsers, c, id);
      return false;
    }
    good := CheckExecutions(c.executionPolicies);
    if !good {
      ghost var id :| ExecutionsFault(c.executionPolicies, id);
      assert CommonFault(parsers, c, id);
      return false;
    }
    good := CheckAuth(parsers, c.auth);
    if !good {
      ghost var id :| AuthFault(parsers, c.auth, id);
      assert CommonFault(parsers, c, id);
      return false;
    }
    good := CheckReviews(c.sqlReview);
    if !good {
      ghost var id :| ReviewsFault(c.sqlReview, id);
      assert CommonFault(parsers, c, id);
      return false;
    }
    return true;
  }

  /** At startup: accepted exactly when there is no fault at all. */
  method Validate(parsers: Parsers, c: Config) returns (ok: bool)
    ensures ok <==> Acceptable(parsers, c)
    ensures ok <==> forall id :: !Fault(parsers, c, id)
    ensures ok <==> forall x :: Reported(parsers, c, x) && x.severity == Error ==> x.id in {WorkflowCoverage, WorkflowRefs}
  {
    ok := ValidateCommon(parsers, c);
    if !ok {
      ghost var id :| CommonFault(parsers, c, id);
      assert Fault(parsers, c, id);
    }
    if ok {
      ok := CheckConnection(c.auth);
      if !ok {
        ghost var id :| ConnectionFault(c.auth, id);
        assert Fault(parsers, c, id);
      }
    }
    if ok && c.auth.oidc.Some? {
      ok := CheckMappings(c.auth);
      if !ok {
        ghost var id :| MappingFault(c.auth, id);
        assert Fault(parsers, c, id);
      }
    }
    NoFaultMeansNoOtherError(parsers, c);
    AcceptableExactly(parsers, c);
  }

  lemma NoFaultMeansNoOtherError(parsers: Parsers, c: Config)
    ensures (forall id :: !Fault(parsers, c, id)) <==>
              forall x :: Reported(parsers, c, x) && x.severity == Error ==> x.id in {WorkflowCoverage, WorkflowRefs}
  {
    forall id
      ensures Fault(parsers, c, id) <==>
                Reported(parsers, c, Issue(Error, id)) && id != WorkflowCoverage && id != WorkflowRefs
    {
      FaultsAreTheOtherErrors(parsers, c, id);
    }
    forall x: Issue | x.severity == Error ensures x == Issue(Error, x.id) {
    }
  }

  /** On reload the connection fields are not looked at. */
  method ValidateForReload(parsers: Parsers, c: Config) returns (ok: bool)
    ensures ok <==> AcceptableCommon(parsers, c) && MappingsResolve(c.auth)
    ensures ok <==> forall id :: !(CommonFault(parsers, c, id) || MappingFault(c.auth, id))
  {
    ok := ValidateCommon(parsers, c);
    if ok && c.auth.oidc.Some? {
      ok := CheckMappings(c.auth);
    }
    ReloadableExactly(parsers, c);
  }

  // ---------------------------------------------------------------------------
  // Reporting everything
  // ---------------------------------------------------------------------------

  method CollectAutoApprove(ws: seq<Workflow>, issues: seq<Issue>) returns (out: seq<Issue>)
    ensures forall x :: x in out <==> x in issues || (x.severity == Error && WorkflowsFault(ws, x.id))
  {
    out := issues;
    var i := 0;
    while i < |ws|
      invariant 0 <= i <= |ws|
      invariant forall x :: x in out <==>
                              x in issues || (x.severity == Error && exists k :: 0 <= k < i && AutoApproveFault(ws[k], x.id))
    {
      var w := ws[i];
      var n := CountSupported(w.steps);
      if w.autoApprove.None? && n == 0 {
        out := out + [Issue(Error, WorkflowMissingApproval)];
      }
      if w.autoApprove == Some(Always) && n > 0 {
        out := out + [Issue(Error, WorkflowUnreachableSteps)];
      }
      if w.autoApprove.Some? && w.autoApprove.value.RiskBased? {
        if n == 0 {
          out := out + [Issue(Error, WorkflowMissingFallback)];
        }
        if w.autoApprove.value.risk !in ["low", "medium", "high"] {
          out := out + [Issue(Error, WorkflowInvalidRisk)];
        }
      }
      i := i + 1;
    }
  }

  method CollectWebhooks(ids: seq<string>, issues: seq<Issue>) returns (out: seq<Issue>)
    ensures forall x :: x in out <==> x in issues || (x.severity == Error && WebhooksFault(ids, x.id))
  {
    out := issues;
    var seen: set<string> := {};
    var i := 0;
    while i < |ids|
      invariant 0 <= i <= |ids|
      invariant forall y :: y in seen <==> y != "" && y in ids[..i]
      invariant forall x :: x in out <==>
                              x in issues || (x.severity == Error && exists k :: 0 <= k < i && WebhookFault(ids, k, x.id))
    {
      ghost var before := out;
      if ids[i] == "" {
        out := out + [Issue(Error, WebhookIdMissing)];
      } else {
        if |ids[i]| > 64 {
          out := out + [Issue(Error, WebhookIdTooLong)];
        }
        if !IdFormat(ids[i]) {
          out := out + [Issue(Error, WebhookIdFormat)];
        }
        if ids[i] in seen {
          out := out + [Issue(Error, WebhookIdDuplicate)];
        }
        seen := seen + {ids[i]};
      }
      assert forall x :: x in out <==> x in before || (x.severity == Error && WebhookFault(ids, i, x.id));
      assert ids[..i + 1] == ids[..i] + [ids[i]];
      i := i + 1;
    }
  }

  method CollectNotifications(policies: seq<seq<string>>, ids: seq<string>, issues: seq<Issue>)
    returns (out: seq<Issue>)
    ensures forall x :: x in out <==> x in issues || (x.severity == Error && NotificationsFault(policies, ids, x.id))
  {
    out := issues;
    var known := ElementSet(ids);
    var i := 0;
    while i < |policies|
      invariant 0 <= i <= |policies|
      invariant forall x :: x in out <==>
                              x in issues || (x.severity == Error
                                              && exists k :: 0 <= k < i && NotificationFault(policies[k], ids, x.id))
    {
      out := CollectMissing(policies[i], known, NotificationWebhookRef, out);
      i := i + 1;
    }
  }

  /** One issue for each element outside `known`. */
  method CollectMissing(refs: seq<string>, known: set<string>, id: IssueId, issues: seq<Issue>)
    returns (out: seq<Issue>)
    ensures forall x :: x in out <==> x in issues || (x == Issue(Error, id) && exists r :: r in refs && r !in known)
  {
    out := issues;
    var m := 0;
    while m < |refs|
      invariant 0 <= m <= |refs|
      invariant forall x :: x in out <==>
                              x in issues || (x == Issue(Error, id) && exists l :: 0 <= l < m && refs[l] !in known)
    {
      if refs[m] !in known {
        out := out + [Issue(Error, id)];
      }
      m := m + 1;
    }
  }

  method CollectDeliveryModes(modes: seq<string>, issues: seq<Issue>) returns (out: seq<Issue>)
    ensures forall x :: x in out <==> x in issues || (x.severity == Error && DeliveriesFault(modes, x.id))
  {
    out := issues;
    var i := 0;
    while i < |modes|
      invariant 0 <= i <= |modes|
      invariant forall x :: x in out <==>
                              x in issues || (x.severity == Error && exists k :: 0 <= k < i && DeliveryFault(modes[k], x.id))
    {
      if modes[i] != "both" && modes[i] != "stream" {
        out := out + [Issue(Error, ResultPolicyDeliveryMode)];
      }
      i := i + 1;
    }
  }

  method CollectExecutions(policies: seq<ExecutionPolicy>, issues: seq<Issue>) returns (out: seq<Issue>)
    ensures forall x :: x in out <==> x in issues || (x.severity == Error && ExecutionsFault(policies, x.id))
  {
    out := issues;
    var i := 0;
    while i < |policies|
      invariant 0 <= i <= |policies|
      invariant forall x :: x in out <==>
                              x in issues || (x.severity == Error
                                              && exists k :: 0 <= k < i && ExecutionFault(policies[k], x.id))
    {
      var p := policies[i];
      if p.maxExecutions == Some(0) {
        out := out + [Issue(Error, ExecutionPolicyMax)];
      }
      if p.statementTimeout.Some? && p.maxStatementTimeout.Some?
         && p.statementTimeout.value > p.maxStatementTimeout.value {
        out := out + [Issue(Error, ExecutionPolicyTimeout)];
      }
      if p.migrationStatementTimeout.Some? && p.maxStatementTimeout.Some? && p.migrationStatementTimeout.value > 0
         && p.migrationStatementTimeout.value > p.maxStatementTimeout.value {
        out := out + [Issue(Error, ExecutionPolicyMigrationTimeout)];
      }
      i := i + 1;
    }
  }

  method CollectPermission(parsers: Parsers, perm: string, issues: seq<Issue>) returns (out: seq<Issue>)
    ensures forall x :: x in out <==> x in issues || (x.severity == Error && PermissionFault(parsers, perm, x.id))
  {
    out := issues;
    var (name, ownership) := SplitOwnership(perm);
    var parsed := parsers.permission(name);
    if parsed.None? {
      out := out + [Issue(Error, RoleUnknownPermission)];
      return;
    }
    if ownership.Some? {
      if parsed.value == All {
        out := out + [Issue(Error, RolePermissionOwnership)];
      } else if ownership.value != "own" && ownership.value != "any" {
        out := out + [Issue(Error, RoleInvalidOwnership)];
      }
    }
  }

  method CollectPermissions(parsers: Parsers, perms: seq<string>, issues: seq<Issue>) returns (out: seq<Issue>)
    ensures forall x :: x in out <==> x in issues || (x.severity == Error && PermissionsFault(parsers, perms, x.id))
  {
    out := issues;
    var i := 0;
    while i < |perms|
      invariant 0 <= i <= |perms|
      invariant forall x :: x in out <==>
                              x in issues || (x.severity == Error
                                              && exists k :: 0 <= k < i && PermissionFault(parsers, perms[k], x.id))
    {
      out := CollectPermission(parsers, perms[i], out);
      i := i + 1;
    }
  }

  method CollectNames(names: seq<string>, valid: string -> bool, id: IssueId, issues: seq<Issue>)
    returns (out: seq<Issue>)
    ensures forall x :: x in out <==> x in issues || (x == Issue(Error, id) && NamesFault(names, valid))
  {
    out := issues;
    var i := 0;
    while i < |names|
      invariant 0 <= i <= |names|
      invariant forall x :: x in out <==>
                              x in issues || (x == Issue(Error, id)
                                              && exists k :: 0 <= k < i && names[k] != ANY && !valid(names[k]))
    {
      if names[i] != ANY && !valid(names[i]) {
        out := out + [Issue(Error, id)];
      }
      i := i + 1;
    }
  }

  method CollectRoleHead(roles: seq<Role>, i: nat, seen: set<string>, issues: seq<Issue>) returns (out: seq<Issue>)
    requires i < |roles| && forall x :: x in seen <==> HasRole(roles[..i], x)
    ensures forall x :: x in out <==> x in issues || (x.severity == Error && RoleHeadFault(roles, i, x.id))
  {
    out := issues;
    if Builtin(roles[i].name) {
      out := out + [Issue(Error, RoleBuiltinCollision)];
    }
    if roles[i].name in seen {
      out := out + [Issue(Error, RoleDuplicate)];
    }
    if roles[i].permissions == [] {
      out := out + [Issue(Error, RoleNoPermissions)];
    }
  }

  method CollectRole(parsers: Parsers, roles: seq<Role>, i: nat, seen: set<string>, issues: seq<Issue>)
    returns (out: seq<Issue>)
    requires i < |roles| && forall x :: x in seen <==> HasRole(roles[..i], x)
    ensures forall x :: x in out <==> x in issues || (x.severity == Error && RoleFault(parsers, roles, i, x.id))
  {
    var r := roles[i];
    out := CollectRoleHead(roles, i, seen, issues);
    out := CollectPermissions(parsers, r.permissions, out);
    out := CollectNames(r.databases, parsers.database, RoleInvalidDatabase, out);
    out := CollectNames(r.environments, parsers.environment, RoleInvalidEnvironment, out);
  }

  method CollectRoles(parsers: Parsers, roles: seq<Role>, issues: seq<Issue>)
    returns (out: seq<Issue>, defined: set<string>)
    ensures forall x :: x in out <==> x in issues || (x.severity == Error && RolesFault(parsers, roles, x.id))
    ensures forall x :: x in defined <==> Defined(roles, x)
  {
    out := issues;
    var names: set<string> := {};
    var i := 0;
    while i < |roles|
      invariant 0 <= i <= |roles|
      invariant forall x :: x in names <==> HasRole(roles[..i], x)
      invariant forall x :: x in out <==>
                              x in issues || (x.severity == Error
                                              && exists k :: 0 <= k < i && RoleFault(parsers, roles, k, x.id))
    {
      out := CollectRole(parsers, roles, i, names, out);
      forall x ensures HasRole(roles[..i + 1], x) <==> HasRole(roles[..i], x) || roles[i].name == x {
        HasRoleNext(roles, i, x);
      }
      names := names + {roles[i].name};
      i := i + 1;
    }
    assert roles[..i] == roles;
    defined := BuiltinRoles() + names;
  }

  method CollectGroupDef(roles: seq<Role>, defined: set<string>, groups: seq<Group>, i: nat, seen: set<string>,
                       issues: seq<Issue>)
    returns (out: seq<Issue>)
    requires forall x :: x in defined <==> Defined(roles, x)
    requires i < |groups| && forall x :: x in seen <==> HasGroup(groups[..i], x)
    ensures forall x :: x in out <==> x in issues || (x.severity == Error && GroupFault(roles, groups, i, x.id))
  {
    out := issues;
    if groups[i].name in seen {
      out := out + [Issue(Error, GroupDuplicate)];
    }
    if groups[i].roles == [] {
      out := out + [Issue(Error, GroupNoRoles)];
    }
    out := CollectMissing(groups[i].roles, defined, GroupRoleRef, out);
  }

  method CollectGroups(roles: seq<Role>, defined: set<string>, groups: seq<Group>, issues: seq<Issue>)
    returns (out: seq<Issue>)
    requires forall x :: x in defined <==> Defined(roles, x)
    ensures forall x :: x in out <==> x in issues || (x.severity == Error && GroupsFault(roles, groups, x.id))
  {
    out := issues;
    var seen: set<string> := {};
    var i := 0;
    while i < |groups|
      invariant 0 <= i <= |groups|
      invariant forall x :: x in seen <==> HasGroup(groups[..i], x)
      invariant forall x :: x in out <==>
                              x in issues || (x.severity == Error
                                              && exists k :: 0 <= k < i && GroupFault(roles, groups, k, x.id))
    {
      out := CollectGroupDef(roles, defined, groups, i, seen, out);
      forall x ensures HasGroup(groups[..i + 1], x) <==> HasGroup(groups[..i], x) || groups[i].name == x {
        HasGroupNext(groups, i, x);
      }
      seen := seen + {groups[i].name};
      i := i + 1;
    }
  }

  method CollectAuth(parsers: Parsers, auth: Auth, issues: seq<Issue>) returns (out: seq<Issue>)
    ensures forall x :: x in out <==> x in issues || (x.severity == Error && AuthFault(parsers, auth, x.id))
  {
    var defined;
    out, defined := CollectRoles(parsers, auth.roles, issues);
    out := CollectGroups(auth.roles, defined, auth.groups, out);
    if auth.defaultRole.Some? && auth.defaultRole.value !in defined {
      out := out + [Issue(Error, DefaultRoleRef)];
    }
  }

  method CollectReviews(reviews: seq<SqlReview>, issues: seq<Issue>) returns (out: seq<Issue>)
    ensures forall x :: x in out <==> x in issues || (x.severity == Error && ReviewsFault(reviews, x.id))
  {
    out := issues;
    var seen: set<Pair> := {};
    var i := 0;
    while i < |reviews|
      invariant 0 <= i <= |reviews|
      invariant forall p: Pair :: p in seen <==> HasReview(reviews[..i], p.0, p.1)
      invariant forall x :: x in out <==>
                              x in issues || (x.severity == Error
                                              && exists k :: 0 <= k < i && SqlReviewFault(reviews, k, x.id))
    {
      ghost var before := out;
      var r := reviews[i];
      if r.database == "any" || r.environment == "any" {
        out := out + [Issue(Error, SqlReviewReserved)];
      }
      var scope := (r.database, r.environment);
      assert scope in seen <==> HasReview(reviews[..i], scope.0, scope.1);
      if scope in seen {
        out := out + [Issue(Error, SqlReviewDuplicate)];
      }
      out := CollectMissing(Rules(r), Actions(), SqlReviewInvalidAction, out);
      assert forall x :: x in out <==> x in before || (x.severity == Error && SqlReviewFault(reviews, i, x.id));
      forall p: Pair
        ensures HasReview(reviews[..i + 1], p.0, p.1) <==> HasReview(reviews[..i], p.0, p.1) || scope == p
      {
        HasReviewNext(reviews, i, p);
      }
      seen := seen + {scope};
      i := i + 1;
    }
  }

  method CollectMappings(auth: Auth, issues: seq<Issue>) returns (out: seq<Issue>)
    ensures forall x :: x in out <==> x in issues || (x.severity == Error && MappingFault(auth, x.id))
  {
    out := issues;
    var defined := DefinedRoles(auth.roles);
    if auth.oidc.Some? {
      out := CollectMissing(auth.oidc.value.roleMappings, defined, OidcRoleMappingRef, out);
    }
  }

  /** An address that is blank, or not a web address. */
  method CollectUrl(url: string, emptyId: IssueId, schemeId: IssueId, issues: seq<Issue>) returns (out: seq<Issue>)
    ensures forall x :: x in out <==>
                          || x in issues
                          || (x == Issue(Error, emptyId) && Blank(url))
                          || (x == Issue(Error, schemeId) && BadScheme(url))
  {
    out := issues;
    var trimmed := Trim(url);
    if trimmed == "" {
      out := out + [Issue(Error, emptyId)];
    } else if !HttpUrl(trimmed) {
      out := out + [Issue(Error, schemeId)];
    }
  }

  method CollectConnection(auth: Auth, issues: seq<Issue>) returns (out: seq<Issue>)
    ensures forall x :: x in out <==> x in issues || (x.severity == Error && ConnectionFault(auth, x.id))
  {
    out := issues;
    if auth.oidc.Some? {
      var o := auth.oidc.value;
      out := CollectUrl(o.issuerUrl, OidcIssuerEmpty, OidcIssuerScheme, out);
      if o.jwksUri.Some? {
        out := CollectUrl(o.jwksUri.value, OidcJwksEmpty, OidcJwksScheme, out);
      }
      out := CollectAudience(o, out);
    }
  }

  method CollectAudience(o: Oidc, issues: seq<Issue>) returns (out: seq<Issue>)
    ensures forall x :: x in out <==> x in issues || (x == Issue(Error, OidcNoAudience) && NoAudience(o))
  {
    out := issues;
    var hasClientId := o.clientId.Some? && Trim(o.clientId.value) != "";
    var hasAudience := Trim(o.audience) != "";
    if !hasClientId && !hasAudience {
      out := out + [Issue(Error, OidcNoAudience)];
    }
  }

  method CollectStepTypes(ws: seq<Workflow>, issues: seq<Issue>) returns (out: seq<Issue>)
    ensures forall x :: x in out <==> x in issues || StepTypeIssue(ws, x)
  {
    out := issues;
    var i := 0;
    while i < |ws|
      invariant 0 <= i <= |ws|
      invariant forall x :: x in out <==>
                              x in issues || (x == Issue(Warning, WorkflowStepTypeUnknown)
                                              && exists k :: 0 <= k < i && false in ws[k].steps)
    {
      out := CollectSteps(ws[i].steps, out);
      i := i + 1;
    }
  }

  method CollectSteps(steps: seq<bool>, issues: seq<Issue>) returns (out: seq<Issue>)
    ensures forall x :: x in out <==> x in issues || (x == Issue(Warning, WorkflowStepTypeUnknown) && false in steps)
  {
    out := issues;
    var i := 0;
    while i < |steps|
      invariant 0 <= i <= |steps|
      invariant forall x :: x in out <==>
                              x in issues || (x == Issue(Warning, WorkflowStepTypeUnknown)
                                              && exists k :: 0 <= k < i && !steps[k])
    {
      if !steps[i] {
        out := out + [Issue(Warning, WorkflowStepTypeUnknown)];
      }
      i := i + 1;
    }
  }

  /** One warning for all dangerous settings together. */
  method CollectSafety(reviews: seq<SqlReview>, issues: seq<Issue>) returns (out: seq<Issue>)
    ensures forall x :: x in out <==> x in issues || SafetyIssue(reviews, x)
  {
    out := issues;
    var dangerous := 0;
    var i := 0;
    while i < |reviews|
      invariant 0 <= i <= |reviews| && dangerous >= 0
      invariant dangerous > 0 <==> exists k :: 0 <= k < i && Unsafe(reviews[k])
    {
      var r := reviews[i];
      if r.environment == ANY || Contains(r.environment, "prod") {
        if r.dropTable == "off" {
          dangerous := dangerous + 1;
        }
        if r.truncate == "off" {
          dangerous := dangerous + 1;
        }
      }
      i := i + 1;
    }
    if dangerous > 0 {
      out := out + [Issue(Warning, SqlReviewSafety)];
    }
  }

  /** The first half of the report: everything the other validator would stop at. */
  method CollectFaults(parsers: Parsers, c: Config, issues: seq<Issue>) returns (out: seq<Issue>)
    ensures forall x :: x in out <==> x in issues || (x.severity == Error && Fault(parsers, c, x.id))
  {
    out := issues;
    if c.approvalTtlSecs == 0 {
      out := out + [Issue(Error, ApprovalTtl)];
    }
    out := CollectOverlap(c.workflows, out);
    if c.legacyAutoApprove > 0 {
      out := out + [Issue(Error, LegacyAutoApprove)];
    }
    out := CollectAutoApprove(c.workflows, out);
    out := CollectWebhooks(c.webhookIds, out);
    out := CollectNotifications(c.notificationWebhooks, c.webhookIds, out);
    out := CollectDeliveryModes(c.deliveryModes, out);
    out := CollectExecutions(c.executionPolicies, out);
    out := CollectAuth(parsers, c.auth, out);
    out := CollectReviews(c.sqlReview, out);
    if c.auth.oidc.Some? {
      out := CollectMappings(c.auth, out);
    }
    out := CollectConnection(c.auth, out);
  }

  /** The report holds exactly the issues there are. */
  method ValidateCollecting(parsers: Parsers, c: Config, issues: seq<Issue>) returns (out: seq<Issue>)
    ensures forall x :: x in out <==> x in issues || Reported(parsers, c, x)
  {
    out := CollectFaults(parsers, c, issues);
    out := CollectStepTypes(c.workflows, out);
    var entries, dead;
    out, entries := ValidateCoverage(c.databases, c.workflows, out);
    out, dead := ValidateRefs(c.databases, c.workflows, out);
    out := CollectSafety(c.sqlReview, out);
  }
}
