/** Shared vocabulary of the API: failure-carrying wrappers, the error
    taxonomy the services raise, the two enums every service ranges over
    (packages/dtos/src/common.ts) and the pagination bounds. */
module Common {

  datatype Option<+T> = None | Some(value: T) {
    function GetOr(default: T): T {
      match this
      case Some(v) => v
      case None => default
    }
  }

  /** The exceptions the services throw, by HTTP class. */
  datatype Error =
    | NotFound(message: string)       // 404, NotFoundException
    | BadRequest(message: string)     // 400, BadRequestException
    | Forbidden(message: string)      // 403, ForbiddenException
    | Invalid(field: string)          // 400, a request field failed validation
    | InternalError(message: string)  // 500, an unhandled runtime fault

  datatype Result<+T> = Ok(value: T) | Err(error: Error)

  /** A check that either passes or fails with an error. */
  datatype Outcome = Pass | Fail(error: Error)

  /** Wall-clock instants, in milliseconds since the epoch. */
  type Time = int

  datatype DealStage = Prospect | Active | Closed | Lost

  datatype UserRole = Admin | User

  /** The wire spelling of each stage. */
  function StageName(s: DealStage): string {
    match s
    case Prospect => "PROSPECT"
    case Active => "ACTIVE"
    case Closed => "CLOSED"
    case Lost => "LOST"
  }

  /** `z.nativeEnum(DealStage)` / `@IsEnum(DealStage)`: only the four
      spellings are accepted. */
  function ParseStage(s: string): (r: Option<DealStage>)
    ensures r.Some? ==> StageName(r.value) == s
  {
    if s == "PROSPECT" then Some(Prospect)
    else if s == "ACTIVE" then Some(Active)
    else if s == "CLOSED" then Some(Closed)
    else if s == "LOST" then Some(Lost)
    else None
  }

  function RoleName(r: UserRole): string {
    match r
    case Admin => "ADMIN"
    case User => "USER"
  }

  function ParseRole(s: string): (r: Option<UserRole>)
    ensures r.Some? ==> RoleName(r.value) == s
  {
    if s == "ADMIN" then Some(Admin)
    else if s == "USER" then Some(User)
    else None
  }

  /** The enum has exactly four members, each with its own spelling, and
      parsing inverts spelling. */
  lemma StageNamesRoundTrip(s: DealStage)
    ensures ParseStage(StageName(s)) == Some(s)
    ensures s == Prospect || s == Active || s == Closed || s == Lost
  {
  }

  lemma StageNamesDistinct(a: DealStage, b: DealStage)
    ensures StageName(a) == StageName(b) ==> a == b
  {
    StageNamesRoundTrip(a);
    StageNamesRoundTrip(b);
  }

  lemma RoleNamesRoundTrip(r: UserRole)
    ensures ParseRole(RoleName(r)) == Some(r)
    ensures r == Admin || r == User
  {
  }

  // ---------------------------------------------------------------------
  // PaginationSchema

  const DefaultPage: real := 1.0
  const DefaultLimit: real := 10.0
  const MaxLimit: real := 100.0

  /** A pagination query as sent: either field may be omitted.  The schema
      uses `z.number()` without `.int()`, so fractional values pass. */
  datatype PaginationQuery = PaginationQuery(page: Option<real>, limit: Option<real>)

  datatype Pagination = Pagination(page: real, limit: real)

  predicate ValidPagination(p: Pagination) {
    p.page >= 1.0 && 1.0 <= p.limit <= MaxLimit
  }

  /** PaginationSchema.parse: checks the bounds of the fields present and
      fills in the defaults for the absent ones. */
  function ParsePagination(q: PaginationQuery): (r: Result<Pagination>)
    ensures r.Ok? <==> (q.page.None? || q.page.value >= 1.0)
                       && (q.limit.None? || 1.0 <= q.limit.value <= MaxLimit)
    ensures r.Ok? ==> ValidPagination(r.value)
    ensures r.Ok? && q.page.None? ==> r.value.page == DefaultPage
    ensures r.Ok? && q.limit.None? ==> r.value.limit == DefaultLimit
    ensures r.Err? ==> r.error.Invalid?
  {
    var page := q.page.GetOr(DefaultPage);
    var limit := q.limit.GetOr(DefaultLimit);
    if page < 1.0 then Err(Invalid("page"))
    else if limit < 1.0 || limit > MaxLimit then Err(Invalid("limit"))
    else Ok(Pagination(page, limit))
  }

  /** Every valid pagination is what the schema yields for it when both
      fields are sent, so parsing loses nothing. */
  lemma PaginationRoundTrip(p: Pagination)
    requires ValidPagination(p)
    ensures ParsePagination(PaginationQuery(Some(p.page), Some(p.limit))) == Ok(p)
  {
  }

  lemma PaginationDefaults()
    ensures ParsePagination(PaginationQuery(None, None)) == Ok(Pagination(1.0, 10.0))
  {
  }
}
