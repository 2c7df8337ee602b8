/** Request and response shapes of the deal endpoints
    (packages/dtos/src/deal.dto.ts).  Each request is validated twice over
    in the repository: by a zod schema (shared with the web client) and by
    the class-validator decorators of the DTO class (what the API's
    validation pipe enforces).  The two disagree on `amount`: the schema
    wants it positive, the DTO accepts zero. */
module DealDto {
  import opened Common
  import opened Records

  const MinTitleLength: nat := 2
  const MaxTitleLength: nat := 200
  const MaxCommissionRate: real := 100.0
  const DefaultCommissionRate: real := 10.0
  const DefaultStage: DealStage := Prospect

  /** The length zod's `.min`/`.max` measure (JavaScript's `length`):
      UTF-16 code units, so a character outside the Basic Multilingual
      Plane counts twice. */
  function Utf16Length(t: string): (n: nat)
    ensures |t| <= n <= 2 * |t|
    ensures n == |t| <==> forall i :: 0 <= i < |t| ==> !Astral(t[i])
  {
    if t == [] then 0
    else (if Astral(t[0]) then 2 else 1) + Utf16Length(t[1..])
  }

  predicate Astral(c: char) {
    c as int > 0xFFFF
  }

  /** The variation selectors U+FE0E and U+FE0F. */
  predicate PresentationSelector(c: char) {
    c == '\U{FE0E}' || c == '\U{FE0F}'
  }

  /** The length class-validator's `@MinLength`/`@MaxLength` measure
      (validator.js `isLength`): UTF-16 code units less one per surrogate
      pair and one per variation selector, i.e. the characters other than
      the selectors. */
  function ValidatorLength(t: string): (n: nat)
    ensures n <= |t|
    ensures n == |t| <==> forall i :: 0 <= i < |t| ==> !PresentationSelector(t[i])
  {
    if t == [] then 0
    else (if PresentationSelector(t[0]) then 0 else 1) + ValidatorLength(t[1..])
  }

  /** The title bounds as the zod schemas count. */
  predicate TitleOk(t: string) {
    MinTitleLength <= Utf16Length(t) <= MaxTitleLength
  }

  /** A title of 2 to 100 characters meets the schema's bounds whatever
      its characters. */
  lemma ShortTitleOk(t: string)
    requires MinTitleLength <= |t| && 2 * |t| <= MaxTitleLength
    ensures TitleOk(t)
  {
  }

  /** The title bounds as the DTO classes count. */
  predicate DtoTitleOk(t: string) {
    MinTitleLength <= ValidatorLength(t) <= MaxTitleLength
  }

  /** On titles without astral characters and variation selectors both
      counts are the number of characters, so the two checks agree. */
  lemma {:induction false} TitleChecksAgree(t: string)
    requires forall i :: 0 <= i < |t| ==> !Astral(t[i]) && !PresentationSelector(t[i])
    ensures Utf16Length(t) == ValidatorLength(t) == |t|
    ensures TitleOk(t) <==> DtoTitleOk(t)
  {
    if t != [] {
      TitleChecksAgree(t[1..]);
    }
  }

  /** A single emoji is two code units for zod and one character for
      class-validator: the schema accepts it as a title, the DTO does not. */
  lemma AstralTitleSplitsChecks()
    ensures TitleOk("\U{1F600}") && !DtoTitleOk("\U{1F600}")
  {
  }

  predicate RateOk(rate: real) {
    0.0 <= rate <= MaxCommissionRate
  }

  // ---------------------------------------------------------------------
  // Create

  /** A create request as sent: every field may be missing.  Date strings
      are given as the instants they denote. */
  datatype CreateDealBody = CreateDealBody(
    title: Option<string>,
    amount: Option<real>,
    stage: Option<DealStage>,
    commissionRate: Option<real>,
    closeDate: Option<Time>,
    description: Option<string>)

  /** A create request after validation, defaults filled in. */
  datatype CreateDealRequest = CreateDealRequest(
    title: string,
    amount: real,
    stage: DealStage,
    commissionRate: real,
    closeDate: Option<Time>,
    description: Option<string>)

  /** What CreateDealSchema guarantees of its output. */
  predicate ValidCreateDeal(c: CreateDealRequest) {
    TitleOk(c.title) && c.amount > 0.0 && RateOk(c.commissionRate)
  }

  /** The body as a client sends it when it spells out every field. */
  function BodyOf(c: CreateDealRequest): CreateDealBody {
    CreateDealBody(Some(c.title), Some(c.amount), Some(c.stage), Some(c.commissionRate), c.closeDate, c.description)
  }

  /** CreateDealSchema.parse: title of 2 to 200 characters, a positive
      amount, a rate in [0, 100]; stage defaults to PROSPECT and the rate
      to 10.  The first offending field is reported. */
  function ParseCreateDeal(b: CreateDealBody): (r: Result<CreateDealRequest>)
    ensures r.Ok? <==> b.title.Some? && TitleOk(b.title.value)
                       && b.amount.Some? && b.amount.value > 0.0
                       && (b.commissionRate.None? || RateOk(b.commissionRate.value))
    ensures r.Ok? ==> ValidCreateDeal(r.value)
    ensures r.Ok? ==> r.value.title == b.title.value && r.value.amount == b.amount.value
                      && r.value.closeDate == b.closeDate && r.value.description == b.description
    ensures r.Ok? ==> r.value.stage == (if b.stage.Some? then b.stage.value else DefaultStage)
    ensures r.Ok? ==> r.value.commissionRate == (if b.commissionRate.Some? then b.commissionRate.value else DefaultCommissionRate)
    ensures r.Err? ==> r.error.Invalid?
  {
    if b.title.None? || !TitleOk(b.title.value) then Err(Invalid("title"))
    else if b.amount.None? || b.amount.value <= 0.0 then Err(Invalid("amount"))
    else
      var rate := b.commissionRate.GetOr(DefaultCommissionRate);
      if !RateOk(rate) then Err(Invalid("commissionRate"))
      else Ok(CreateDealRequest(b.title.value, b.amount.value, b.stage.GetOr(DefaultStage), rate, b.closeDate, b.description))
  }

  /** The rules of the CreateDealDto class: the same title and rate
      bounds, but `@Min(0)` on amount.  Stage and rate are optional; when
      absent the stored row takes the same defaults as the schema. */
  function ValidateCreateDealDto(b: CreateDealBody): (r: Result<CreateDealRequest>)
    ensures r.Ok? <==> b.title.Some? && DtoTitleOk(b.title.value)
                       && b.amount.Some? && b.amount.value >= 0.0
                       && (b.commissionRate.None? || RateOk(b.commissionRate.value))
    ensures r.Ok? ==> DtoTitleOk(r.value.title) && r.value.amount >= 0.0 && RateOk(r.value.commissionRate)
    ensures r.Ok? ==> r.value.title == b.title.value && r.value.amount == b.amount.value
                      && r.value.closeDate == b.closeDate && r.value.description == b.description
    ensures r.Ok? ==> r.value.stage == (if b.stage.Some? then b.stage.value else DefaultStage)
    ensures r.Ok? ==> r.value.commissionRate == (if b.commissionRate.Some? then b.commissionRate.value else DefaultCommissionRate)
    ensures r.Err? ==> r.error.Invalid?
  {
    if b.title.None? || !DtoTitleOk(b.title.value) then Err(Invalid("title"))
    else if b.amount.None? || b.amount.value < 0.0 then Err(Invalid("amount"))
    else
      var rate := b.commissionRate.GetOr(DefaultCommissionRate);
      if !RateOk(rate) then Err(Invalid("commissionRate"))
      else Ok(CreateDealRequest(b.title.value, b.amount.value, b.stage.GetOr(DefaultStage), rate, b.closeDate, b.description))
  }

  /** Every valid request survives the schema unchanged. */
  lemma CreateDealRoundTrip(c: CreateDealRequest)
    requires ValidCreateDeal(c)
    ensures ParseCreateDeal(BodyOf(c)) == Ok(c)
  {
  }

  /** A body that only names title and amount gets stage PROSPECT and
      rate 10. */
  lemma CreateDealDefaults(title: string, amount: real)
    requires TitleOk(title) && amount > 0.0
    ensures ParseCreateDeal(CreateDealBody(Some(title), Some(amount), None, None, None, None))
            == Ok(CreateDealRequest(title, amount, Prospect, 10.0, None, None))
  {
  }

  /** Apart from the title, whose length the two count differently, what
      the schema accepts the DTO accepts with the same result, and the DTO
      accepts in addition exactly the zero amount. */
  lemma SchemaStricterThanDto(b: CreateDealBody)
    ensures ParseCreateDeal(b).Ok? && DtoTitleOk(b.title.value) ==> ValidateCreateDealDto(b) == ParseCreateDeal(b)
    ensures ValidateCreateDealDto(b).Ok? && ParseCreateDeal(b).Err? ==> b.amount == Some(0.0) || !TitleOk(b.title.value)
  {
  }

  /** For titles of ordinary characters the schema is strictly stricter
      than the DTO. */
  lemma PlainTitleSchemaStricter(b: CreateDealBody)
    requires b.title.Some?
    requires forall i :: 0 <= i < |b.title.value| ==> !Astral(b.title.value[i]) && !PresentationSelector(b.title.value[i])
    ensures ParseCreateDeal(b).Ok? ==> ValidateCreateDealDto(b) == ParseCreateDeal(b)
    ensures ValidateCreateDealDto(b).Ok? && ParseCreateDeal(b).Err? ==> b.amount == Some(0.0)
  {
    TitleChecksAgree(b.title.value);
  }

  /** An emoji title passes the schema but not the DTO. */
  lemma SchemaAdmitsEmojiTitle()
    ensures var b := CreateDealBody(Some("\U{1F600}"), Some(100.0), None, None, None, None);
            ParseCreateDeal(b).Ok? && ValidateCreateDealDto(b) == Err(Invalid("title"))
  {
    AstralTitleSplitsChecks();
  }

  lemma DtoAdmitsZeroAmount()
    ensures var b := CreateDealBody(Some("Deal"), Some(0.0), None, None, None, None);
            ValidateCreateDealDto(b).Ok? && ParseCreateDeal(b) == Err(Invalid("amount"))
  {
  }

  // ---------------------------------------------------------------------
  // Update

  /** A partial update: only the fields present are written.  `stage` is
      among them, so an update can move a deal to any stage. */
  datatype DealPatch = DealPatch(
    title: Option<string>,
    amount: Option<real>,
    stage: Option<DealStage>,
    commissionRate: Option<real>,
    closeDate: Option<Time>,
    description: Option<string>)

  /** UpdateDealSchema.parse: the create bounds on each field present, and
      no defaults. */
  function ParseUpdateDeal(p: DealPatch): (r: Result<DealPatch>)
    ensures r.Ok? <==> (p.title.None? || TitleOk(p.title.value))
                       && (p.amount.None? || p.amount.value > 0.0)
                       && (p.commissionRate.None? || RateOk(p.commissionRate.value))
    ensures r.Ok? ==> r.value == p
    ensures r.Err? ==> r.error.Invalid?
  {
    if p.title.Some? && !TitleOk(p.title.value) then Err(Invalid("title"))
    else if p.amount.Some? && p.amount.value <= 0.0 then Err(Invalid("amount"))
    else if p.commissionRate.Some? && !RateOk(p.commissionRate.value) then Err(Invalid("commissionRate"))
    else Ok(p)
  }

  /** The UpdateDealDto class: as the schema but `@Min(0)` on amount. */
  function ValidateUpdateDealDto(p: DealPatch): (r: Result<DealPatch>)
    ensures r.Ok? <==> (p.title.None? || DtoTitleOk(p.title.value))
                       && (p.amount.None? || p.amount.value >= 0.0)
                       && (p.commissionRate.None? || RateOk(p.commissionRate.value))
    ensures r.Ok? ==> r.value == p
    ensures r.Err? ==> r.error.Invalid?
  {
    if p.title.Some? && !DtoTitleOk(p.title.value) then Err(Invalid("title"))
    else if p.amount.Some? && p.amount.value < 0.0 then Err(Invalid("amount"))
    else if p.commissionRate.Some? && !RateOk(p.commissionRate.value) then Err(Invalid("commissionRate"))
    else Ok(p)
  }

  /** Every field is optional, and a patch that only names a stage passes
      both validators whatever the stage. */
  lemma UpdateFieldsOptional(s: DealStage)
    ensures ParseUpdateDeal(DealPatch(None, None, None, None, None, None)).Ok?
    ensures ParseUpdateDeal(DealPatch(None, None, Some(s), None, None, None)).Ok?
    ensures ValidateUpdateDealDto(DealPatch(None, None, Some(s), None, None, None)).Ok?
  {
  }

  // ---------------------------------------------------------------------
  // Change stage

  datatype StageChangeBody = StageChangeBody(stage: Option<DealStage>, closeDate: Option<Time>)

  /** A validated stage change.  `closeDate` is `None` when the request
      left it out or sent an empty string (both are falsy in the
      service's test). */
  datatype StageChange = StageChange(stage: DealStage, closeDate: Option<Time>)

  /** ChangeDealStageSchema / ChangeDealStageDto: the stage is required,
      the close date optional. */
  function ParseStageChange(b: StageChangeBody): (r: Result<StageChange>)
    ensures r.Ok? <==> b.stage.Some?
    ensures r.Ok? ==> r.value.stage == b.stage.value && r.value.closeDate == b.closeDate
    ensures r.Err? ==> r.error == Invalid("stage")
  {
    match b.stage
    case None => Err(Invalid("stage"))
    case Some(s) => Ok(StageChange(s, b.closeDate))
  }

  // ---------------------------------------------------------------------
  // List filters

  /** Query filters of the deal list.  Date strings are given as the
      instants they denote; `None` stands for an absent or empty string. */
  datatype DealFilters = DealFilters(
    stage: Option<DealStage>,
    minAmount: Option<real>,
    maxAmount: Option<real>,
    startDate: Option<Time>,
    endDate: Option<Time>)

  const NoFilters := DealFilters(None, None, None, None, None)

  /** The DealFiltersDto class: `@Min(0)` on both amount bounds, so a zero
      bound reaches the service. */
  function ValidateDealFiltersDto(f: DealFilters): (r: Result<DealFilters>)
    ensures r.Ok? <==> (f.minAmount.None? || f.minAmount.value >= 0.0)
                       && (f.maxAmount.None? || f.maxAmount.value >= 0.0)
    ensures r.Ok? ==> r.value == f
  {
    if f.minAmount.Some? && f.minAmount.value < 0.0 then Err(Invalid("minAmount"))
    else if f.maxAmount.Some? && f.maxAmount.value < 0.0 then Err(Invalid("maxAmount"))
    else Ok(f)
  }

  // ---------------------------------------------------------------------
  // Responses

  /** DealWithCommissionResponse: the deal's fields plus the total of its
      commission entries and whether it is closed. */
  datatype DealWithCommission = DealWithCommission(deal: Deal, commissionAmount: real, isClosed: bool)
}
