/** Entities, value objects and the error catalogue (internal/core/domain). */
module Domain {
  import opened Wrappers

  // UUIDs and timestamps are opaque numbers: only equality and order matter.
  type Uuid = nat
  type Time = nat

  datatype Department = Department(
    id: Uuid,
    code: string,
    name: string,
    isSystem: bool,
    isActive: bool,
    recordVersion: int,
    createdAt: Time,
    updatedAt: Time)

  // The tenant_plan enum, in declaration order: ORDER BY code follows this order.
  datatype TenantPlan = Starter | Pro | Enterprise

  // The branding_level enum.
  datatype Branding = Plain | Logo

  // The values of float64, as the numbers they are.
  type Float64 = real

  // A number literal: the float64 it rounds to, if one is in range, and its value
  // if it is an integer literal. Go decodes only the latter into an int.
  datatype Literal = Literal(float: Option<Float64>, whole: Option<int>)

  // A JSON text, parsed.
  datatype Json =
    | JNull
    | JBool(b: bool)
    | JNum(n: Literal)
    | JStr(s: string)
    | JArr(items: seq<Json>)
    | JObj(fields: map<string, Json>)

  // What decoding into Go's `any` gives, and what jsonb keeps of it: every number
  // is a float64.
  datatype Any =
    | ANull
    | ABool(b: bool)
    | ANum(f: Float64)
    | AStr(s: string)
    | AArr(items: seq<Any>)
    | AObj(fields: map<string, Any>)

  type Features = map<string, Any>

  predicate IsScalar(a: Any) {
    !a.AArr? && !a.AObj?
  }

  // A limit of None is "unlimited"; zero is a real cap.
  type Limit = Option<int>

  datatype Plan = Plan(
    code: TenantPlan,
    displayName: string,
    workflowLimit: Limit,
    tenderLimit: Limit,
    trialDays: int,
    sso: bool,
    branding: Branding,
    features: Features,
    recordVersion: int,
    createdAt: Time,
    updatedAt: Time)

  // None = field absent; for limits Some(None) = explicit null. A `features`
  // of Some(map[]) clears every key, None leaves them alone.
  datatype PlanPatch = PlanPatch(
    displayName: Option<string>,
    workflowLimit: Option<Limit>,
    tenderLimit: Option<Limit>,
    trialDays: Option<int>,
    sso: Option<bool>,
    branding: Option<string>,
    features: Option<Features>,
    recordVersion: int)

  function ParsePlanCode(s: string): Option<TenantPlan> {
    if s == "starter" then Some(Starter)
    else if s == "pro" then Some(Pro)
    else if s == "enterprise" then Some(Enterprise)
    else None
  }

  function ParseBranding(s: string): Option<Branding> {
    if s == "none" then Some(Plain)
    else if s == "logo" then Some(Logo)
    else None
  }

  // unicode.IsSpace.
  predicate IsSpace(c: char) {
    '\t' <= c <= '\r' || c == ' ' || c == '\U{85}' || c == '\U{A0}' || c == '\U{1680}'
    || '\U{2000}' <= c <= '\U{200A}' || c == '\U{2028}' || c == '\U{2029}' || c == '\U{202F}'
    || c == '\U{205F}' || c == '\U{3000}'
  }

  // Code point by code point.
  lemma SpaceCodePoints(c: char)
    ensures IsSpace(c) <==> c as int in {
      0x9, 0xA, 0xB, 0xC, 0xD, 0x20, 0x85, 0xA0, 0x1680, 0x2000, 0x2001, 0x2002, 0x2003, 0x2004, 0x2005, 0x2006, 0x2007,
      0x2008, 0x2009, 0x200A, 0x2028, 0x2029, 0x202F, 0x205F, 0x3000}
  {
  }

  // strings.TrimSpace(s) == "".
  predicate Blank(s: string) {
    forall i | 0 <= i < |s| :: IsSpace(s[i])
  }

  datatype Sentinel =
    | Validation | MissingIdentity | InsufficientRole | OptimisticLockConflict
    | DependencyUnavailable | NoMutableField | InvalidFeatureValue
    | DepartmentNotFound | PlanNotFound | Conflict
    | FieldImmutable | SystemNameImmutable | SystemDepartmentCannotBeRetired
    | MethodNotAllowed | DBUnavailable | CacheUnavailable

  function WireCode(s: Sentinel): string {
    match s
    case Validation => "validation_error"
    case MissingIdentity => "missing_identity_headers"
    case InsufficientRole => "insufficient_role"
    case OptimisticLockConflict => "optimistic_lock_conflict"
    case DependencyUnavailable => "dependency_unavailable"
    case NoMutableField => "no_mutable_field"
    case InvalidFeatureValue => "invalid_feature_value"
    case DepartmentNotFound => "department_not_found"
    case PlanNotFound => "plan_not_found"
    case Conflict => "conflict"
    case FieldImmutable => "field_immutable"
    case SystemNameImmutable => "system_name_immutable"
    case SystemDepartmentCannotBeRetired => "system_department_cannot_be_retired"
    case MethodNotAllowed => "method_not_allowed"
    case DBUnavailable => "db_unavailable"
    case CacheUnavailable => "cache_unavailable"
  }

  datatype Detail = Text(s: string) | Number(n: int)

  // Every Go error that can reach HandleError: a DomainError, a SQL error the
  // server reported, or one of the driver-side errors.
  datatype Error =
    | DomainError(cause: Sentinel, message: string, details: map<string, Detail>)
    | PgError(sqlstate: string, constraint: string)
    | NoRows
    | ContextDone
    | OtherError

  function NewError(s: Sentinel, message: string): Error {
    DomainError(s, message, map[])
  }

  const CHECK_VIOLATION := "23514"
  const UNIQUE_VIOLATION := "23505"
}
