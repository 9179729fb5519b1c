/** What a server configuration that passes validation is like, said without the issues validation looks for. */
module ConfigMeaning {
  import opened ConfigFaults
  import opened ConfigModel
  import opened Text
  import opened WorkflowOverlap
  import opened Wrappers

  // ---------------------------------------------------------------------------
  // Sections
  // ---------------------------------------------------------------------------

  /** Approved without steps, or by steps, or by steps above a risk that exists. */
  predicate HasApproval(w: Workflow) {
    match w.autoApprove
    case Some(Always) => true !in w.steps
    case Some(RiskBased(risk)) => true in w.steps && (risk == "low" || risk == "medium" || risk == "high")
    case None => true in w.steps
  }

  /** No workflow names an operation twice, and no operation of a scope belongs to two workflows. */
  predicate OneTaker(ws: seq<Workflow>) {
    && (forall i, a, b | 0 <= i < |ws| && 0 <= a < b < |ws[i].operations| :: ws[i].operations[a] != ws[i].operations[b])
    && (forall i, j | 0 <= i < j < |ws| && ws[i].database == ws[j].database && ws[i].environment == ws[j].environment ::
          && ws[i].operations != [] && ws[j].operations != []
          && forall op | op in ws[i].operations :: op !in ws[j].operations)
  }

  predicate LowerOrDigit(c: char) {
    'a' <= c <= 'z' || '0' <= c <= '9'
  }

  predicate GoodWebhookId(id: string) {
    && 1 <= |id| <= 64 && id[0] != '-' && id[|id| - 1] != '-'
    && forall i | 0 <= i < |id| :: LowerOrDigit(id[i]) || id[i] == '-'
  }

  predicate GoodWebhooks(ids: seq<string>) {
    (forall i | 0 <= i < |ids| :: GoodWebhookId(ids[i])) && forall i, j | 0 <= i < j < |ids| :: ids[i] != ids[j]
  }

  predicate Resolves(policies: seq<seq<string>>, ids: seq<string>) {
    forall k, h | 0 <= k < |policies| && h in policies[k] :: h in ids
  }

  predicate GoodModes(modes: seq<string>) {
    forall m | m in modes :: m == "both" || m == "stream"
  }

  predicate AtMost(value: Option<nat>, limit: Option<nat>) {
    value.Some? && limit.Some? ==> value.value <= limit.value
  }

  predicate GoodLimits(p: ExecutionPolicy) {
    && (p.maxExecutions.Some? ==> p.maxExecutions.value > 0)
    && AtMost(p.statementTimeout, p.maxStatementTimeout) && AtMost(p.migrationStatementTimeout, p.maxStatementTimeout)
  }

  /** A known permission, or a single one with `:own` or `:any` behind it. */
  ghost predicate GoodPermission(parsers: Parsers, perm: string) {
    || (':' !in perm && parsers.permission(perm).Some?)
    || (exists name :: OwnedBy(parsers, perm, name))
  }

  predicate OwnedBy(parsers: Parsers, perm: string, name: string) {
    parsers.permission(name) == Some(Single) && (perm == name + ":own" || perm == name + ":any")
  }

  predicate GoodNames(names: seq<string>, valid: string -> bool) {
    forall n | n in names :: n == "*" || valid(n)
  }

  ghost predicate GoodRole(parsers: Parsers, r: Role) {
    && r.name !in ["admin", "requester", "approver", "operator", "agent-default"]
    && r.permissions != [] && (forall p | p in r.permissions :: GoodPermission(parsers, p))
    && GoodNames(r.databases, parsers.database) && GoodNames(r.environments, parsers.environment)
  }

  ghost predicate GoodRoles(parsers: Parsers, roles: seq<Role>) {
    && (forall i | 0 <= i < |roles| :: GoodRole(parsers, roles[i]))
    && (forall i, j | 0 <= i < j < |roles| :: roles[i].name != roles[j].name)
  }

  /** A role that comes with the program, or one that is configured. */
  predicate Known(roles: seq<Role>, name: string) {
    || name in ["admin", "requester", "approver", "operator", "agent-default"]
    || exists k | 0 <= k < |roles| :: roles[k].name == name
  }

  predicate AllKnown(roles: seq<Role>, names: seq<string>) {
    forall n | n in names :: Known(roles, n)
  }

  predicate GoodGroups(roles: seq<Role>, groups: seq<Group>) {
    && (forall i | 0 <= i < |groups| :: groups[i].roles != [] && AllKnown(roles, groups[i].roles))
    && (forall i, j | 0 <= i < j < |groups| :: groups[i].name != groups[j].name)
  }

  predicate GoodAction(v: string) {
    v == "block" || v == "warn" || v == "off"
  }

  predicate GoodReview(r: SqlReview) {
    && r.database != "any" && r.environment != "any"
    && GoodAction(r.dropTable) && GoodAction(r.truncate) && forall v | v in r.otherRules :: GoodAction(v)
  }

  predicate GoodReviews(reviews: seq<SqlReview>) {
    && (forall i | 0 <= i < |reviews| :: GoodReview(reviews[i]))
    && (forall i, j | 0 <= i < j < |reviews| ::
          reviews[i].database != reviews[j].database || reviews[i].environment != reviews[j].environment)
  }

  /** White space aside, an address that starts with one of the two schemes. */
  ghost predicate GoodUrl(url: string) {
    exists t :: TrimsTo(url, t) && ("http://" <= t || "https://" <= t)
  }

  predicate HasText(s: string) {
    exists i | 0 <= i < |s| :: !IsWhite(s[i])
  }

  ghost predicate GoodConnection(o: Oidc) {
    && GoodUrl(o.issuerUrl) && (o.jwksUri.Some? ==> GoodUrl(o.jwksUri.value))
    && ((o.clientId.Some? && HasText(o.clientId.value)) || HasText(o.audience))
  }

  // ---------------------------------------------------------------------------
  // The whole configuration
  // ---------------------------------------------------------------------------

  ghost predicate GoodAuth(parsers: Parsers, auth: Auth) {
    && GoodRoles(parsers, auth.roles) && GoodGroups(auth.roles, auth.groups)
    && (auth.defaultRole.Some? ==> Known(auth.roles, auth.defaultRole.value))
  }

  ghost predicate AcceptableCommon(parsers: Parsers, c: Config) {
    && c.approvalTtlSecs > 0 && c.legacyAutoApprove == 0
    && OneTaker(c.workflows) && (forall i | 0 <= i < |c.workflows| :: HasApproval(c.workflows[i]))
    && GoodWebhooks(c.webhookIds) && Resolves(c.notificationWebhooks, c.webhookIds)
    && GoodModes(c.deliveryModes) && (forall i | 0 <= i < |c.executionPolicies| :: GoodLimits(c.executionPolicies[i]))
    && GoodAuth(parsers, c.auth) && GoodReviews(c.sqlReview)
  }

  predicate MappingsResolve(auth: Auth) {
    auth.oidc.Some? ==> AllKnown(auth.roles, auth.oidc.value.roleMappings)
  }

  ghost predicate Acceptable(parsers: Parsers, c: Config) {
    AcceptableCommon(parsers, c) && MappingsResolve(c.auth) && (c.auth.oidc.Some? ==> GoodConnection(c.auth.oidc.value))
  }

  // ---------------------------------------------------------------------------
  // No issue of a section means that the section is good
  // ---------------------------------------------------------------------------

  lemma ApprovalExactly(w: Workflow)
    ensures (forall id :: !AutoApproveFault(w, id)) <==> HasApproval(w)
  {
    if !HasApproval(w) {
      assert || AutoApproveFault(w, WorkflowMissingApproval) || AutoApproveFault(w, WorkflowUnreachableSteps)
             || AutoApproveFault(w, WorkflowMissingFallback) || AutoApproveFault(w, WorkflowInvalidRisk);
    }
  }

  lemma OverlapExactly(ws: seq<Workflow>)
    ensures NoOverlap(ws) <==> OneTaker(ws)
  {
    if OneTaker(ws) {
      forall i, j | 0 <= i < j < |ws| ensures Compatible(ws[i], ws[j]) {
      }
    }
    if NoOverlap(ws) {
      forall i, j | 0 <= i < j < |ws| && ws[i].database == ws[j].database && ws[i].environment == ws[j].environment
        ensures ws[i].operations != [] && ws[j].operations != [] && forall op | op in ws[i].operations :: op !in ws[j].operations
      {
        assert Compatible(ws[i], ws[j]);
      }
      forall i, a, b | 0 <= i < |ws| && 0 <= a < b < |ws[i].operations|
        ensures ws[i].operations[a] != ws[i].operations[b]
      {
        assert Distinct(ws[i].operations);
      }
    }
  }

  lemma WebhooksExactly(ids: seq<string>)
    ensures (forall id :: !WebhooksFault(ids, id)) <==> GoodWebhooks(ids)
  {
    if GoodWebhooks(ids) {
      forall k, id | 0 <= k < |ids| ensures !WebhookFault(ids, k, id) {
        assert GoodWebhookId(ids[k]);
      }
    }
    if forall id :: !WebhooksFault(ids, id) {
      forall k | 0 <= k < |ids| ensures GoodWebhookId(ids[k]) {
        WebhookIsGood(ids, k);
      }
      forall i, j | 0 <= i < j < |ids| ensures ids[i] != ids[j] {
        WebhookIsGood(ids, j);
        assert ids[..j][i] == ids[i];
      }
    }
  }

  lemma WebhookIsGood(ids: seq<string>, k: nat)
    requires k < |ids| && forall id :: !WebhooksFault(ids, id)
    ensures GoodWebhookId(ids[k]) && ids[k] !in ids[..k]
  {
    assert !WebhooksFault(ids, WebhookIdMissing) && !WebhooksFault(ids, WebhookIdTooLong);
    assert !WebhooksFault(ids, WebhookIdFormat) && !WebhooksFault(ids, WebhookIdDuplicate);
    assert !WebhookFault(ids, k, WebhookIdMissing) && !WebhookFault(ids, k, WebhookIdTooLong);
    assert !WebhookFault(ids, k, WebhookIdFormat) && !WebhookFault(ids, k, WebhookIdDuplicate);
  }

  lemma NotificationsExactly(policies: seq<seq<string>>, ids: seq<string>)
    ensures (forall id :: !NotificationsFault(policies, ids, id)) <==> Resolves(policies, ids)
  {
    if !Resolves(policies, ids) {
      var k, h :| 0 <= k < |policies| && h in policies[k] && h !in ids;
      assert NotificationFault(policies[k], ids, NotificationWebhookRef);
      assert NotificationsFault(policies, ids, NotificationWebhookRef);
    }
  }

  lemma ModesExactly(modes: seq<string>)
    ensures (forall id :: !DeliveriesFault(modes, id)) <==> GoodModes(modes)
  {
    if !GoodModes(modes) {
      var m :| m in modes && m != "both" && m != "stream";
      var k :| 0 <= k < |modes| && modes[k] == m;
      assert DeliveryFault(modes[k], ResultPolicyDeliveryMode);
      assert DeliveriesFault(modes, ResultPolicyDeliveryMode);
    } else {
      forall k, id | 0 <= k < |modes| ensures !DeliveryFault(modes[k], id) {
        assert modes[k] in modes;
      }
    }
  }

  lemma LimitsExactly(p: ExecutionPolicy)
    ensures (forall id :: !ExecutionFault(p, id)) <==> GoodLimits(p)
  {
    if !GoodLimits(p) {
      assert || ExecutionFault(p, ExecutionPolicyMax) || ExecutionFault(p, ExecutionPolicyTimeout)
             || ExecutionFault(p, ExecutionPolicyMigrationTimeout);
    }
  }

  lemma LastColonAt(s: string, n: nat)
    requires n < |s| && s[n] == ':' && forall k | n < k < |s| :: s[k] != ':'
    ensures LastColon(s) == Some(n)
  {
    var r := LastColon(s);
    assert r.Some?;
    var after := s[r.value + 1..];
    assert forall k | r.value < k < |s| :: after[k - r.value - 1] == s[k];
  }

  lemma Parts(name: string, ownership: string)
    ensures var perm := name + ":" + ownership;
            && perm[|name|] == ':' && perm[..|name|] == name && perm[|name| + 1..] == ownership
            && forall k | |name| < k < |perm| :: perm[k] == ownership[k - |name| - 1]
  {
  }

  lemma SplitsThere(name: string, ownership: string)
    requires ':' !in ownership
    ensures SplitOwnership(name + ":" + ownership) == (name, Some(ownership))
  {
    Parts(name, ownership);
    LastColonAt(name + ":" + ownership, |name|);
  }

  lemma OwnedIsGood(parsers: Parsers, name: string, ownership: string)
    requires parsers.permission(name) == Some(Single) && (ownership == "own" || ownership == "any")
    ensures forall id :: !PermissionFault(parsers, name + ":" + ownership, id)
  {
    SplitsThere(name, ownership);
  }

  lemma GoodPermissionPasses(parsers: Parsers, perm: string)
    requires GoodPermission(parsers, perm)
    ensures forall id :: !PermissionFault(parsers, perm, id)
  {
    if ':' in perm {
      var name :| OwnedBy(parsers, perm, name);
      var ownership := if perm == name + ":own" then "own" else "any";
      OwnedIsGood(parsers, name, ownership);
      assert perm == name + ":" + ownership;
    }
  }

  lemma PassedPermissionIsGood(parsers: Parsers, perm: string)
    requires forall id :: !PermissionFault(parsers, perm, id)
    ensures GoodPermission(parsers, perm)
  {
    var (name, ownership) := SplitOwnership(perm);
    assert !PermissionFault(parsers, perm, RoleUnknownPermission);
    assert !PermissionFault(parsers, perm, RolePermissionOwnership);
    assert !PermissionFault(parsers, perm, RoleInvalidOwnership);
    if ownership.Some? {
      assert perm == name + ":" + ownership.value;
      assert name + ":" + "own" == name + ":own" && name + ":" + "any" == name + ":any";
      var parsed := parsers.permission(name);
      assert parsed.value == All || parsed.value == Single;
      assert OwnedBy(parsers, perm, name);
    }
  }

  lemma PermissionsExactly(parsers: Parsers, perms: seq<string>)
    ensures (forall id :: !PermissionsFault(parsers, perms, id)) <==> forall p | p in perms :: GoodPermission(parsers, p)
  {
    if forall id :: !PermissionsFault(parsers, perms, id) {
      forall p | p in perms ensures GoodPermission(parsers, p) {
        forall id ensures !PermissionFault(parsers, p, id) {
          assert !PermissionsFault(parsers, perms, id);
        }
        PassedPermissionIsGood(parsers, p);
      }
    }
    if forall p | p in perms :: GoodPermission(parsers, p) {
      forall p, id | p in perms ensures !PermissionFault(parsers, p, id) {
        GoodPermissionPasses(parsers, p);
      }
    }
  }

  lemma KnownExactly(roles: seq<Role>, name: string)
    ensures Defined(roles, name) <==> Known(roles, name)
    ensures Builtin(name) <==> name in ["admin", "requester", "approver", "operator", "agent-default"]
  {
  }

  lemma NamesExactly(names: seq<string>, valid: string -> bool)
    ensures !NamesFault(names, valid) <==> GoodNames(names, valid)
  {
  }

  /** Whether the role is good on its own. */
  lemma RoleExactly(parsers: Parsers, roles: seq<Role>, i: nat)
    requires i < |roles|
    ensures (forall id :: !RoleFault(parsers, roles, i, id)) <==>
              GoodRole(parsers, roles[i]) && !HasRole(roles[..i], roles[i].name)
  {
    var r := roles[i];
    KnownExactly([], r.name);
    PermissionsExactly(parsers, r.permissions);
    NamesExactly(r.databases, parsers.database);
    NamesExactly(r.environments, parsers.environment);
    if forall id :: !RoleFault(parsers, roles, i, id) {
      assert !RoleFault(parsers, roles, i, RoleBuiltinCollision) && !RoleFault(parsers, roles, i, RoleDuplicate);
      assert !RoleFault(parsers, roles, i, RoleNoPermissions);
      assert !RoleFault(parsers, roles, i, RoleInvalidDatabase) && !RoleFault(parsers, roles, i, RoleInvalidEnvironment);
      forall id ensures !PermissionsFault(parsers, r.permissions, id) {
        assert !RoleFault(parsers, roles, i, id);
      }
    }
  }

  lemma RolesExactly(parsers: Parsers, roles: seq<Role>)
    ensures (forall id :: !RolesFault(parsers, roles, id)) <==> GoodRoles(parsers, roles)
  {
    forall i | 0 <= i < |roles|
      ensures (forall id :: !RoleFault(parsers, roles, i, id)) <==>
                GoodRole(parsers, roles[i]) && !HasRole(roles[..i], roles[i].name)
    {
      RoleExactly(parsers, roles, i);
    }
    RoleNamesDiffer(roles);
    if forall id :: !RolesFault(parsers, roles, id) {
      forall i, id | 0 <= i < |roles| ensures !RoleFault(parsers, roles, i, id) {
        assert !RolesFault(parsers, roles, id);
      }
    }
  }

  lemma RoleNamesDiffer(roles: seq<Role>)
    ensures (forall i | 0 <= i < |roles| :: !HasRole(roles[..i], roles[i].name)) <==>
              forall i, j | 0 <= i < j < |roles| :: roles[i].name != roles[j].name
  {
    forall i, j | 0 <= i < j < |roles| ensures roles[i].name == roles[j].name ==> HasRole(roles[..j], roles[j].name) {
      assert roles[..j][i] == roles[i];
    }
  }

  lemma GroupExactly(roles: seq<Role>, groups: seq<Group>, i: nat)
    requires i < |groups|
    ensures (forall id :: !GroupFault(roles, groups, i, id)) <==>
              groups[i].roles != [] && AllKnown(roles, groups[i].roles) && !HasGroup(groups[..i], groups[i].name)
  {
    forall r ensures Defined(roles, r) <==> Known(roles, r) {
      KnownExactly(roles, r);
    }
    if forall id :: !GroupFault(roles, groups, i, id) {
      assert !GroupFault(roles, groups, i, GroupDuplicate) && !GroupFault(roles, groups, i, GroupNoRoles);
      assert !GroupFault(roles, groups, i, GroupRoleRef);
    }
  }

  lemma GroupsExactly(roles: seq<Role>, groups: seq<Group>)
    ensures (forall id :: !GroupsFault(roles, groups, id)) <==> GoodGroups(roles, groups)
  {
    forall i | 0 <= i < |groups|
      ensures (forall id :: !GroupFault(roles, groups, i, id)) <==>
                groups[i].roles != [] && AllKnown(roles, groups[i].roles) && !HasGroup(groups[..i], groups[i].name)
    {
      GroupExactly(roles, groups, i);
    }
    GroupNamesDiffer(groups);
    if forall id :: !GroupsFault(roles, groups, id) {
      forall i, id | 0 <= i < |groups| ensures !GroupFault(roles, groups, i, id) {
        assert !GroupsFault(roles, groups, id);
      }
    }
  }

  lemma GroupNamesDiffer(groups: seq<Group>)
    ensures (forall i | 0 <= i < |groups| :: !HasGroup(groups[..i], groups[i].name)) <==>
              forall i, j | 0 <= i < j < |groups| :: groups[i].name != groups[j].name
  {
    forall i, j | 0 <= i < j < |groups| ensures groups[i].name == groups[j].name ==> HasGroup(groups[..j], groups[j].name) {
      assert groups[..j][i] == groups[i];
    }
  }

  lemma AuthExactly(parsers: Parsers, auth: Auth)
    ensures (forall id :: !AuthFault(parsers, auth, id)) <==> GoodAuth(parsers, auth)
  {
    RolesExactly(parsers, auth.roles);
    GroupsExactly(auth.roles, auth.groups);
    if auth.defaultRole.Some? {
      KnownExactly(auth.roles, auth.defaultRole.value);
    }
    if forall id :: !AuthFault(parsers, auth, id) {
      assert !AuthFault(parsers, auth, DefaultRoleRef);
      forall id ensures !RolesFault(parsers, auth.roles, id) && !GroupsFault(auth.roles, auth.groups, id) {
        assert !AuthFault(parsers, auth, id);
      }
    }
  }

  lemma ActionsExactly(r: SqlReview)
    ensures (forall v :: v in Rules(r) ==> v in Actions()) <==>
              GoodAction(r.dropTable) && GoodAction(r.truncate) && forall v | v in r.otherRules :: GoodAction(v)
  {
    assert forall v :: v in Rules(r) <==> v == r.dropTable || v == r.truncate || v in r.otherRules;
    assert forall v :: v in Actions() <==> GoodAction(v);
  }

  lemma ReviewExactly(reviews: seq<SqlReview>, i: nat)
    requires i < |reviews|
    ensures (forall id :: !SqlReviewFault(reviews, i, id)) <==>
              GoodReview(reviews[i]) && !HasReview(reviews[..i], reviews[i].database, reviews[i].environment)
  {
    ActionsExactly(reviews[i]);
    if forall id :: !SqlReviewFault(reviews, i, id) {
      assert !SqlReviewFault(reviews, i, SqlReviewReserved) && !SqlReviewFault(reviews, i, SqlReviewDuplicate);
      assert !SqlReviewFault(reviews, i, SqlReviewInvalidAction);
    }
  }

  lemma ReviewScopesDiffer(reviews: seq<SqlReview>)
    ensures (forall i | 0 <= i < |reviews| :: !HasReview(reviews[..i], reviews[i].database, reviews[i].environment)) <==>
              forall i, j | 0 <= i < j < |reviews| ::
                reviews[i].database != reviews[j].database || reviews[i].environment != reviews[j].environment
  {
    forall i, j | 0 <= i < j < |reviews| && reviews[i].database == reviews[j].database
                  && reviews[i].environment == reviews[j].environment
      ensures HasReview(reviews[..j], reviews[j].database, reviews[j].environment)
    {
      assert reviews[..j][i] == reviews[i];
    }
  }

  lemma ReviewsExactly(reviews: seq<SqlReview>)
    ensures (forall id :: !ReviewsFault(reviews, id)) <==> GoodReviews(reviews)
  {
    forall i | 0 <= i < |reviews|
      ensures (forall id :: !SqlReviewFault(reviews, i, id)) <==>
                GoodReview(reviews[i]) && !HasReview(reviews[..i], reviews[i].database, reviews[i].environment)
    {
      ReviewExactly(reviews, i);
    }
    ReviewScopesDiffer(reviews);
    if forall id :: !ReviewsFault(reviews, id) {
      forall i, id | 0 <= i < |reviews| ensures !SqlReviewFault(reviews, i, id) {
        assert !ReviewsFault(reviews, id);
      }
    }
  }

  // ---------------------------------------------------------------------------
  // The identity provider
  // ---------------------------------------------------------------------------

  lemma BlankExactly(s: string)
    ensures Blank(s) <==> !HasText(s)
  {
    TrimExactly(s, "");
    if Blank(s) {
      var i: nat, j: nat :| TrimsAt(s, i, j) && "" == s[i..j];
      forall k | 0 <= k < |s| ensures IsWhite(s[k]) {
        assert k < i ==> s[..i][k] == s[k];
        assert k >= j ==> s[j..][k - j] == s[k];
      }
    } else if !HasText(s) {
      assert TrimsAt(s, 0, 0);
    }
  }

  lemma UrlExactly(url: string)
    ensures !Blank(url) && !BadScheme(url) <==> GoodUrl(url)
  {
    TrimExactly(url, Trim(url));
    if GoodUrl(url) {
      var t :| TrimsTo(url, t) && ("http://" <= t || "https://" <= t);
      TrimExactly(url, t);
      assert |t| >= 7;
    }
  }

  lemma AudienceExactly(o: Oidc)
    ensures !NoAudience(o) <==> (o.clientId.Some? && HasText(o.clientId.value)) || HasText(o.audience)
  {
    BlankExactly(o.audience);
    if o.clientId.Some? {
      BlankExactly(o.clientId.value);
    }
  }

  predicate CleanUrl(url: string) {
    !Blank(url) && !BadScheme(url)
  }

  lemma ConnectionParts(auth: Auth)
    requires auth.oidc.Some?
    ensures var o := auth.oidc.value;
            (forall id :: !ConnectionFault(auth, id)) <==>
              CleanUrl(o.issuerUrl) && (o.jwksUri.Some? ==> CleanUrl(o.jwksUri.value)) && !NoAudience(o)
  {
    if forall id :: !ConnectionFault(auth, id) {
      assert !ConnectionFault(auth, OidcIssuerEmpty) && !ConnectionFault(auth, OidcIssuerScheme);
      assert !ConnectionFault(auth, OidcJwksEmpty) && !ConnectionFault(auth, OidcJwksScheme);
      assert !ConnectionFault(auth, OidcNoAudience);
    }
  }

  lemma ConnectionExactly(auth: Auth)
    ensures (forall id :: !ConnectionFault(auth, id)) <==> (auth.oidc.Some? ==> GoodConnection(auth.oidc.value))
  {
    if auth.oidc.Some? {
      var o := auth.oidc.value;
      ConnectionParts(auth);
      UrlExactly(o.issuerUrl);
      AudienceExactly(o);
      if o.jwksUri.Some? {
        UrlExactly(o.jwksUri.value);
      }
    }
  }

  lemma MappingsExactly(auth: Auth)
    ensures (forall id :: !MappingFault(auth, id)) <==> MappingsResolve(auth)
  {
    forall r ensures Defined(auth.roles, r) <==> Known(auth.roles, r) {
      KnownExactly(auth.roles, r);
    }
    if forall id :: !MappingFault(auth, id) {
      assert !MappingFault(auth, OidcRoleMappingRef);
    }
  }

  // ---------------------------------------------------------------------------
  // The whole configuration, exactly
  // ---------------------------------------------------------------------------

  lemma WorkflowsExactly(ws: seq<Workflow>)
    ensures (forall id :: !WorkflowsFault(ws, id)) <==> forall i | 0 <= i < |ws| :: HasApproval(ws[i])
  {
    forall i | 0 <= i < |ws| ensures (forall id :: !AutoApproveFault(ws[i], id)) <==> HasApproval(ws[i]) {
      ApprovalExactly(ws[i]);
    }
    if forall id :: !WorkflowsFault(ws, id) {
      forall i, id | 0 <= i < |ws| ensures !AutoApproveFault(ws[i], id) {
        assert !WorkflowsFault(ws, id);
      }
    }
  }

  lemma ExecutionsExactly(policies: seq<ExecutionPolicy>)
    ensures (forall id :: !ExecutionsFault(policies, id)) <==> forall i | 0 <= i < |policies| :: GoodLimits(policies[i])
  {
    forall i | 0 <= i < |policies| ensures (forall id :: !ExecutionFault(policies[i], id)) <==> GoodLimits(policies[i]) {
      LimitsExactly(policies[i]);
    }
    if forall id :: !ExecutionsFault(policies, id) {
      forall i, id | 0 <= i < |policies| ensures !ExecutionFault(policies[i], id) {
        assert !ExecutionsFault(policies, id);
      }
    }
  }

  /** Every part of the report is empty. */
  ghost predicate PartsClean(parsers: Parsers, c: Config) {
    && c.approvalTtlSecs > 0 && c.legacyAutoApprove == 0 && NoOverlap(c.workflows)
    && (forall id :: !WorkflowsFault(c.workflows, id)) && (forall id :: !WebhooksFault(c.webhookIds, id))
    && (forall id :: !NotificationsFault(c.notificationWebhooks, c.webhookIds, id))
    && (forall id :: !DeliveriesFault(c.deliveryModes, id)) && (forall id :: !ExecutionsFault(c.executionPolicies, id))
    && (forall id :: !AuthFault(parsers, c.auth, id)) && (forall id :: !ReviewsFault(c.sqlReview, id))
  }

  lemma CommonParts(parsers: Parsers, c: Config)
    ensures (forall id :: !CommonFault(parsers, c, id)) <==> PartsClean(parsers, c)
  {
    if forall id :: !CommonFault(parsers, c, id) {
      assert !CommonFault(parsers, c, ApprovalTtl) && !CommonFault(parsers, c, LegacyAutoApprove);
      assert !CommonFault(parsers, c, WorkflowOperationsOverlap);
      forall id
        ensures !WorkflowsFault(c.workflows, id) && !WebhooksFault(c.webhookIds, id)
        ensures !NotificationsFault(c.notificationWebhooks, c.webhookIds, id) && !DeliveriesFault(c.deliveryModes, id)
        ensures !ExecutionsFault(c.executionPolicies, id) && !AuthFault(parsers, c.auth, id) && !ReviewsFault(c.sqlReview, id)
      {
        assert !CommonFault(parsers, c, id);
      }
    }
  }

  lemma CommonExactly(parsers: Parsers, c: Config)
    ensures (forall id :: !CommonFault(parsers, c, id)) <==> AcceptableCommon(parsers, c)
  {
    CommonParts(parsers, c);
    OverlapExactly(c.workflows);
    WorkflowsExactly(c.workflows);
    WebhooksExactly(c.webhookIds);
    NotificationsExactly(c.notificationWebhooks, c.webhookIds);
    ModesExactly(c.deliveryModes);
    ExecutionsExactly(c.executionPolicies);
    AuthExactly(parsers, c.auth);
    ReviewsExactly(c.sqlReview);
  }

  /** There is nothing to report exactly if the configuration is acceptable. */
  lemma AcceptableExactly(parsers: Parsers, c: Config)
    ensures (forall id :: !Fault(parsers, c, id)) <==> Acceptable(parsers, c)
  {
    CommonExactly(parsers, c);
    MappingsExactly(c.auth);
    ConnectionExactly(c.auth);
    if forall id :: !Fault(parsers, c, id) {
      forall id ensures !CommonFault(parsers, c, id) && !MappingFault(c.auth, id) && !ConnectionFault(c.auth, id) {
        assert !Fault(parsers, c, id);
      }
    }
  }

  lemma ReloadableExactly(parsers: Parsers, c: Config)
    ensures (forall id :: !(CommonFault(parsers, c, id) || MappingFault(c.auth, id))) <==>
              AcceptableCommon(parsers, c) && MappingsResolve(c.auth)
  {
    CommonExactly(parsers, c);
    MappingsExactly(c.auth);
  }
}
