/** What is wrong with a server configuration: for each kind of issue, the condition under which it is present. */
module ConfigFaults {
  import opened ConfigModel
  import opened Text
  import opened WorkflowOverlap
  import opened WorkflowScopes
  import opened Wrappers

  datatype Permission = All | Single

  /** The parsers of the domain's own names. */
  datatype Parsers = Parsers(
    permission: string -> Option<Permission>,
    database: string -> bool,
    environment: string -> bool
  )

  predicate AutoApproveFault(w: Workflow, id: IssueId) {
    match id
    case WorkflowMissingApproval => w.autoApprove.None? && true !in w.steps
    case WorkflowUnreachableSteps => w.autoApprove == Some(Always) && true in w.steps
    case WorkflowMissingFallback => w.autoApprove.Some? && w.autoApprove.value.RiskBased? && true !in w.steps
    case WorkflowInvalidRisk =>
      w.autoApprove.Some? && w.autoApprove.value.RiskBased? && w.autoApprove.value.risk !in ["low", "medium", "high"]
    case _ => false
  }

  predicate IsAlphanumeric(c: char) {
    'a' <= c <= 'z' || '0' <= c <= '9'
  }

  /** Lower-case letters, digits and inner dashes. */
  predicate IdFormat(id: string) {
    && id != "" && IsAlphanumeric(id[0]) && IsAlphanumeric(id[|id| - 1])
    && forall i :: 0 <= i < |id| ==> IsAlphanumeric(id[i]) || id[i] == '-'
  }

  predicate WebhookFault(ids: seq<string>, i: nat, id: IssueId)
    requires i < |ids|
  {
    match id
    case WebhookIdMissing => ids[i] == ""
    case WebhookIdTooLong => |ids[i]| > 64
    case WebhookIdFormat => ids[i] != "" && !IdFormat(ids[i])
    case WebhookIdDuplicate => ids[i] != "" && ids[i] in ids[..i]
    case _ => false
  }

  predicate NotificationFault(webhooks: seq<string>, ids: seq<string>, id: IssueId) {
    id == NotificationWebhookRef && exists h :: h in webhooks && h !in ids
  }

  predicate DeliveryFault(mode: string, id: IssueId) {
    id == ResultPolicyDeliveryMode && mode != "both" && mode != "stream"
  }

  predicate Exceeds(value: Option<nat>, limit: Option<nat>) {
    value.Some? && limit.Some? && value.value > limit.value
  }

  predicate ExecutionFault(p: ExecutionPolicy, id: IssueId) {
    match id
    case ExecutionPolicyMax => p.maxExecutions == Some(0)
    case ExecutionPolicyTimeout => Exceeds(p.statementTimeout, p.maxStatementTimeout)
    case ExecutionPolicyMigrationTimeout => Exceeds(p.migrationStatementTimeout, p.maxStatementTimeout)
    case _ => false
  }

  function LastColon(s: string): (r: Option<nat>)
    ensures r.Some? ==> r.value < |s| && s[r.value] == ':' && ':' !in s[r.value + 1..]
    ensures r.None? ==> ':' !in s
  {
    if s == "" then None
    else
      var n := |s| - 1;
      assert s == s[..n] + [s[n]];
      if s[n] == ':' then Some(n)
      else
        var r := LastColon(s[..n]);
        assert r.Some? ==> s[r.value + 1..] == s[..n][r.value + 1..] + [s[n]];
        r
  }

  /** A permission and, after the last colon, whose objects it is for. */
  function SplitOwnership(perm: string): (string, Option<string>) {
    match LastColon(perm)
    case Some(i) => (perm[..i], Some(perm[i + 1..]))
    case None => (perm, None)
  }

  predicate PermissionFault(parsers: Parsers, perm: string, id: IssueId) {
    var (name, ownership) := SplitOwnership(perm);
    var parsed := parsers.permission(name);
    match id
    case RoleUnknownPermission => parsed.None?
    case RolePermissionOwnership => parsed == Some(All) && ownership.Some?
    case RoleInvalidOwnership =>
      parsed == Some(Single) && ownership.Some? && ownership.value != "own" && ownership.value != "any"
    case _ => false
  }

  function BuiltinRoles(): set<string> {
    {"admin", "requester", "approver", "operator", "agent-default"}
  }

  predicate Builtin(role: string) {
    role in BuiltinRoles()
  }

  predicate HasRole(roles: seq<Role>, name: string) {
    exists k :: 0 <= k < |roles| && roles[k].name == name
  }

  predicate Defined(roles: seq<Role>, name: string) {
    Builtin(name) || HasRole(roles, name)
  }

  predicate RoleHeadFault(roles: seq<Role>, i: nat, id: IssueId)
    requires i < |roles|
  {
    match id
    case RoleBuiltinCollision => Builtin(roles[i].name)
    case RoleDuplicate => HasRole(roles[..i], roles[i].name)
    case RoleNoPermissions => roles[i].permissions == []
    case _ => false
  }

  predicate PermissionsFault(parsers: Parsers, perms: seq<string>, id: IssueId) {
    exists p :: p in perms && PermissionFault(parsers, p, id)
  }

  predicate NamesFault(names: seq<string>, valid: string -> bool) {
    exists n :: n in names && n != ANY && !valid(n)
  }

  predicate RoleFault(parsers: Parsers, roles: seq<Role>, i: nat, id: IssueId)
    requires i < |roles|
  {
    || RoleHeadFault(roles, i, id)
    || PermissionsFault(parsers, roles[i].permissions, id)
    || (id == RoleInvalidDatabase && NamesFault(roles[i].databases, parsers.database))
    || (id == RoleInvalidEnvironment && NamesFault(roles[i].environments, parsers.environment))
  }

  predicate HasGroup(groups: seq<Group>, name: string) {
    exists k :: 0 <= k < |groups| && groups[k].name == name
  }

  predicate GroupFault(roles: seq<Role>, groups: seq<Group>, i: nat, id: IssueId)
    requires i < |groups|
  {
    match id
    case GroupDuplicate => HasGroup(groups[..i], groups[i].name)
    case GroupNoRoles => groups[i].roles == []
    case GroupRoleRef => exists r :: r in groups[i].roles && !Defined(roles, r)
    case _ => false
  }

  predicate DefaultRoleFault(auth: Auth, id: IssueId) {
    id == DefaultRoleRef && auth.defaultRole.Some? && !Defined(auth.roles, auth.defaultRole.value)
  }

  predicate HasReview(reviews: seq<SqlReview>, db: string, env: string) {
    exists k :: 0 <= k < |reviews| && reviews[k].database == db && reviews[k].environment == env
  }

  function Rules(r: SqlReview): seq<string> {
    [r.dropTable, r.truncate] + r.otherRules
  }

  function Actions(): set<string> {
    {"block", "warn", "off"}
  }

  predicate SqlReviewFault(reviews: seq<SqlReview>, i: nat, id: IssueId)
    requires i < |reviews|
  {
    var r := reviews[i];
    match id
    case SqlReviewReserved => r.database == "any" || r.environment == "any"
    case SqlReviewDuplicate => HasReview(reviews[..i], r.database, r.environment)
    case SqlReviewInvalidAction => exists v :: v in Rules(r) && v !in Actions()
    case _ => false
  }

  predicate MappingFault(auth: Auth, id: IssueId) {
    && id == OidcRoleMappingRef && auth.oidc.Some?
    && exists r :: r in auth.oidc.value.roleMappings && !Defined(auth.roles, r)
  }

  predicate HttpUrl(url: string) {
    "http://" <= url || "https://" <= url
  }

  predicate Blank(s: string) {
    Trim(s) == ""
  }

  predicate BadScheme(url: string) {
    !Blank(url) && !HttpUrl(Trim(url))
  }

  predicate NoAudience(o: Oidc) {
    !(o.clientId.Some? && !Blank(o.clientId.value)) && Blank(o.audience)
  }

  predicate ConnectionFault(auth: Auth, id: IssueId) {
    && auth.oidc.Some?
    && var o := auth.oidc.value;
       match id
       case OidcIssuerEmpty => Blank(o.issuerUrl)
       case OidcIssuerScheme => BadScheme(o.issuerUrl)
       case OidcJwksEmpty => o.jwksUri.Some? && Blank(o.jwksUri.value)
       case OidcJwksScheme => o.jwksUri.Some? && BadScheme(o.jwksUri.value)
       case OidcNoAudience => NoAudience(o)
       case _ => false
  }

  // ---------------------------------------------------------------------------
  // The whole configuration
  // ---------------------------------------------------------------------------

  predicate WorkflowsFault(ws: seq<Workflow>, id: IssueId) {
    exists k :: 0 <= k < |ws| && AutoApproveFault(ws[k], id)
  }

  predicate WebhooksFault(ids: seq<string>, id: IssueId) {
    exists k :: 0 <= k < |ids| && WebhookFault(ids, k, id)
  }

  predicate NotificationsFault(policies: seq<seq<string>>, ids: seq<string>, id: IssueId) {
    exists k :: 0 <= k < |policies| && NotificationFault(policies[k], ids, id)
  }

  predicate DeliveriesFault(modes: seq<string>, id: IssueId) {
    exists k :: 0 <= k < |modes| && DeliveryFault(modes[k], id)
  }

  predicate ExecutionsFault(policies: seq<ExecutionPolicy>, id: IssueId) {
    exists k :: 0 <= k < |policies| && ExecutionFault(policies[k], id)
  }

  predicate RolesFault(parsers: Parsers, roles: seq<Role>, id: IssueId) {
    exists k :: 0 <= k < |roles| && RoleFault(parsers, roles, k, id)
  }

  predicate GroupsFault(roles: seq<Role>, groups: seq<Group>, id: IssueId) {
    exists k :: 0 <= k < |groups| && GroupFault(roles, groups, k, id)
  }

  predicate AuthFault(parsers: Parsers, auth: Auth, id: IssueId) {
    RolesFault(parsers, auth.roles, id) || GroupsFault(auth.roles, auth.groups, id) || DefaultRoleFault(auth, id)
  }

  predicate ReviewsFault(reviews: seq<SqlReview>, id: IssueId) {
    exists k :: 0 <= k < |reviews| && SqlReviewFault(reviews, k, id)
  }

  /** Everything but the identity provider section. */
  predicate CommonFault(parsers: Parsers, c: Config, id: IssueId) {
    || (id == ApprovalTtl && c.approvalTtlSecs == 0)
    || (id == WorkflowOperationsOverlap && !NoOverlap(c.workflows))
    || (id == LegacyAutoApprove && c.legacyAutoApprove > 0)
    || WorkflowsFault(c.workflows, id)
    || WebhooksFault(c.webhookIds, id)
    || NotificationsFault(c.notificationWebhooks, c.webhookIds, id)
    || DeliveriesFault(c.deliveryModes, id)
    || ExecutionsFault(c.executionPolicies, id)
    || AuthFault(parsers, c.auth, id)
    || ReviewsFault(c.sqlReview, id)
  }

  predicate Fault(parsers: Parsers, c: Config, id: IssueId) {
    CommonFault(parsers, c, id) || MappingFault(c.auth, id) || ConnectionFault(c.auth, id)
  }

  predicate StepTypeIssue(ws: seq<Workflow>, x: Issue) {
    x == Issue(Warning, WorkflowStepTypeUnknown) && exists k :: 0 <= k < |ws| && false in ws[k].steps
  }

  predicate Unsafe(r: SqlReview) {
    (r.environment == ANY || Contains(r.environment, "prod")) && (r.dropTable == "off" || r.truncate == "off")
  }

  predicate SafetyIssue(reviews: seq<SqlReview>, x: Issue) {
    x == Issue(Warning, SqlReviewSafety) && exists k :: 0 <= k < |reviews| && Unsafe(reviews[k])
  }

  /** The complete report. */
  predicate Reported(parsers: Parsers, c: Config, x: Issue) {
    || (x.severity == Error && Fault(parsers, c, x.id))
    || StepTypeIssue(c.workflows, x)
    || CoverageIssue(c.databases, c.workflows, x)
    || RefsIssue(c.databases, c.workflows, x)
    || SafetyIssue(c.sqlReview, x)
  }

  /** The only errors of the report that are no fault are the two about workflow scopes. */
  lemma FaultsAreTheOtherErrors(parsers: Parsers, c: Config, id: IssueId)
    ensures Fault(parsers, c, id) <==>
              Reported(parsers, c, Issue(Error, id)) && id != WorkflowCoverage && id != WorkflowRefs
  {
  }
}
