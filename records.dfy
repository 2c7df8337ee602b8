/** The stored rows the services read and write.  Identifiers are uninterpreted strings in
    the system; here they are naturals handed out by the store.  Dates are
    instants (`Common.Time`); the ISO-8601 strings the responses carry are
    their rendered form, which is not modelled. */
module Records {
  import opened Common

  type DealId = nat
  type UserId = nat
  type OrgId = nat
  type EntryId = nat
  type AuditId = nat

  /** A sales opportunity of one organization. */
  datatype Deal = Deal(
    id: DealId,
    title: string,
    amount: real,
    stage: DealStage,
    commissionRate: real,
    closeDate: Option<Time>,
    description: Option<string>,
    organizationId: OrgId,
    createdAt: Time,
    updatedAt: Time)

  /** One row of the commission ledger. */
  datatype CommissionEntry = CommissionEntry(
    id: EntryId,
    dealId: DealId,
    userId: UserId,
    amount: real,
    createdAt: Time)

  /** A user account; `passwordHash` never leaves the service. */
  datatype User = User(
    id: UserId,
    name: string,
    email: string,
    passwordHash: string,
    role: UserRole,
    organizationId: OrgId,
    createdAt: Time,
    updatedAt: Time)

  datatype AuditAction =
    | UserCreated | UserUpdated | UserDeleted
    | DealCreated | DealUpdated | DealDeleted
    | StageChanged | CommissionCalculated
    | UserLoggedIn | UserLoggedOut
    | OrganizationUpdated
    | SubscriptionCreated | SubscriptionUpdated

  /** The wire spelling of each audit action. */
  function ActionName(a: AuditAction): string {
    match a
    case UserCreated => "USER_CREATED"
    case UserUpdated => "USER_UPDATED"
    case UserDeleted => "USER_DELETED"
    case DealCreated => "DEAL_CREATED"
    case DealUpdated => "DEAL_UPDATED"
    case DealDeleted => "DEAL_DELETED"
    case StageChanged => "STAGE_CHANGED"
    case CommissionCalculated => "COMMISSION_CALCULATED"
    case UserLoggedIn => "USER_LOGGED_IN"
    case UserLoggedOut => "USER_LOGGED_OUT"
    case OrganizationUpdated => "ORGANIZATION_UPDATED"
    case SubscriptionCreated => "SUBSCRIPTION_CREATED"
    case SubscriptionUpdated => "SUBSCRIPTION_UPDATED"
  }

  /** One row of the audit log. */
  datatype AuditEntry = AuditEntry(
    id: AuditId,
    organizationId: OrgId,
    userId: UserId,
    action: AuditAction,
    entity: string,
    entityId: string,
    createdAt: Time)

  /** The row of a table with the given id (the first, should several
      share it): the `include` of a related row. */
  function FindById<T>(rows: seq<T>, key: T -> nat, id: nat): (r: Option<T>)
    ensures r.Some? ==> r.value in rows && key(r.value) == id
    ensures r.None? ==> forall i :: 0 <= i < |rows| ==> key(rows[i]) != id
  {
    if rows == [] then None
    else if key(rows[0]) == id then Some(rows[0])
    else FindById(rows[1..], key, id)
  }

  function DealKey(d: Deal): nat { d.id }

  function UserKey(u: User): nat { u.id }
}
