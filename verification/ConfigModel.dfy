/** The parsed server configuration, as far as its validation looks at it, and the issues validation reports. */
module ConfigModel {
  import opened Wrappers

  datatype AutoApprove = Always | RiskBased(risk: string)

  /** `steps` says of each step whether its type is a supported one. */
  datatype Workflow = Workflow(
    database: string, environment: string, operations: seq<string>,
    autoApprove: Option<AutoApprove>, steps: seq<bool>
  )

  datatype Database = Database(name: string, environments: seq<string>)

  datatype ExecutionPolicy = ExecutionPolicy(
    maxExecutions: Option<nat>,
    statementTimeout: Option<nat>, maxStatementTimeout: Option<nat>, migrationStatementTimeout: Option<nat>
  )

  datatype Role = Role(name: string, permissions: seq<string>, databases: seq<string>, environments: seq<string>)

  datatype Group = Group(name: string, roles: seq<string>)

  datatype Oidc = Oidc(
    issuerUrl: string, jwksUri: Option<string>, clientId: Option<string>, audience: string,
    roleMappings: seq<string>
  )

  datatype Auth = Auth(roles: seq<Role>, groups: seq<Group>, defaultRole: Option<string>, oidc: Option<Oidc>)

  /** `otherRules` holds the values of the twelve rules besides the two that have a safety check. */
  datatype SqlReview = SqlReview(
    database: string, environment: string,
    dropTable: string, truncate: string, otherRules: seq<string>
  )

  datatype Config = Config(
    approvalTtlSecs: nat,
    databases: seq<Database>,
    workflows: seq<Workflow>,
    legacyAutoApprove: nat,
    webhookIds: seq<string>,
    notificationWebhooks: seq<seq<string>>,
    deliveryModes: seq<string>,
    executionPolicies: seq<ExecutionPolicy>,
    auth: Auth,
    sqlReview: seq<SqlReview>
  )

  datatype IssueId =
    | ApprovalTtl
    | WorkflowOperationsOverlap
    | LegacyAutoApprove
    | WorkflowMissingApproval | WorkflowUnreachableSteps | WorkflowMissingFallback | WorkflowInvalidRisk
    | WebhookIdMissing | WebhookIdTooLong | WebhookIdFormat | WebhookIdDuplicate
    | NotificationWebhookRef
    | ResultPolicyDeliveryMode
    | ExecutionPolicyMax | ExecutionPolicyTimeout | ExecutionPolicyMigrationTimeout
    | RoleBuiltinCollision | RoleDuplicate | RoleNoPermissions
    | RoleUnknownPermission | RolePermissionOwnership | RoleInvalidOwnership
    | RoleInvalidDatabase | RoleInvalidEnvironment
    | GroupDuplicate | GroupNoRoles | GroupRoleRef
    | DefaultRoleRef
    | SqlReviewReserved | SqlReviewDuplicate | SqlReviewInvalidAction
    | OidcRoleMappingRef
    | OidcIssuerEmpty | OidcIssuerScheme | OidcJwksEmpty | OidcJwksScheme | OidcNoAudience
    | WorkflowStepTypeUnknown
    | WorkflowCoverage
    | WorkflowRefs
    | SqlReviewSafety

  datatype Severity = Error | Warning

  datatype Issue = Issue(severity: Severity, id: IssueId)

  const ANY: string := "*"
}
