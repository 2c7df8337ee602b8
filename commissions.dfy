/** CommissionsService (apps/api/src/modules/commissions/commissions.service.ts):
    read-only reports over the commission ledger.  Each report is a function
    of the rows of the tables it reads: the ledger, the deal table and the
    user table, each in the order the database holds them. */
module Commissions {
  import opened Common
  import opened Records
  import opened Ordering
  import opened DealDto
  import DealLifecycle

  // ---------------------------------------------------------------------
  // Joins

  /** The deal an entry belongs to (`include: { deal: true }`). */
  function DealOf(deals: seq<Deal>, e: CommissionEntry): Option<Deal> {
    FindById(deals, DealKey, e.dealId)
  }

  /** The user an entry credits (`include: { user: true }`). */
  function UserOf(users: seq<User>, e: CommissionEntry): Option<User> {
    FindById(users, UserKey, e.userId)
  }

  /** Every entry's deal and user exist, as the ledger's foreign keys
      guarantee. */
  predicate Linked(ledger: seq<CommissionEntry>, deals: seq<Deal>, users: seq<User>) {
    forall e :: e in ledger ==> DealOf(deals, e).Some? && UserOf(users, e).Some?
  }

  /** `where: { deal: { organizationId } }`. */
  predicate OfOrg(deals: seq<Deal>, org: OrgId, e: CommissionEntry) {
    DealOf(deals, e).Some? && DealOf(deals, e).value.organizationId == org
  }

  // ---------------------------------------------------------------------
  // findAll

  /** Query filters of the ledger list; `None` stands for an absent or
      empty parameter. */
  datatype CommissionFilters = CommissionFilters(
    userId: Option<UserId>,
    dealId: Option<DealId>,
    startDate: Option<Time>,
    endDate: Option<Time>)

  /** CommissionResponse: the entry with its deal's title, amount and rate
      and its user's name. */
  datatype CommissionRow = CommissionRow(
    id: EntryId,
    dealId: DealId,
    userId: UserId,
    amount: real,
    dealTitle: string,
    dealAmount: real,
    commissionRate: real,
    userName: string,
    createdAt: Time)

  /** The `where` object of findAll: the organization and every filter
      given, all together. */
  predicate EntryMatches(deals: seq<Deal>, org: OrgId, f: CommissionFilters, e: CommissionEntry) {
    && OfOrg(deals, org, e)
    && (f.userId.None? || e.userId == f.userId.value)
    && (f.dealId.None? || e.dealId == f.dealId.value)
    && (f.startDate.None? || e.createdAt >= f.startDate.value)
    && (f.endDate.None? || e.createdAt <= f.endDate.value)
  }

  /** The entries that pass, in ledger order. */
  function Matching(ledger: seq<CommissionEntry>, deals: seq<Deal>, org: OrgId, f: CommissionFilters): (r: seq<CommissionEntry>)
    ensures forall e :: e in r <==> e in ledger && EntryMatches(deals, org, f, e)
  {
    if ledger == [] then []
    else (if EntryMatches(deals, org, f, ledger[0]) then [ledger[0]] else []) + Matching(ledger[1..], deals, org, f)
  }

  function NewestFirst(e: CommissionEntry): int {
    -e.createdAt
  }

  function ToRow(e: CommissionEntry, deals: seq<Deal>, users: seq<User>): CommissionRow
    requires DealOf(deals, e).Some? && UserOf(users, e).Some?
  {
    var d := DealOf(deals, e).value;
    CommissionRow(e.id, e.dealId, e.userId, e.amount, d.title, d.amount, d.commissionRate,
                  UserOf(users, e).value.name, e.createdAt)
  }

  function ToRows(es: seq<CommissionEntry>, deals: seq<Deal>, users: seq<User>): (r: seq<CommissionRow>)
    requires Linked(es, deals, users)
    ensures |r| == |es|
    ensures forall i :: 0 <= i < |es| ==> r[i] == ToRow(es[i], deals, users)
  {
    if es == [] then [] else [ToRow(es[0], deals, users)] + ToRows(es[1..], deals, users)
  }

  /** `row` is the row of some entry that passes every filter. */
  ghost predicate RowOfMatch(ledger: seq<CommissionEntry>, deals: seq<Deal>, users: seq<User>, org: OrgId, f: CommissionFilters,
                             row: CommissionRow) {
    exists e :: e in ledger && EntryMatches(deals, org, f, e) && UserOf(users, e).Some? && row == ToRow(e, deals, users)
  }

  /** findAll: one row per entry of the organization that passes every
      filter, newest first, carrying its deal's and user's fields. */
  function FindAll(ledger: seq<CommissionEntry>, deals: seq<Deal>, users: seq<User>, org: OrgId, f: CommissionFilters): (r: seq<CommissionRow>)
    requires Linked(ledger, deals, users)
    ensures |r| == |Matching(ledger, deals, org, f)|
    ensures forall i :: 0 <= i < |r| ==> RowOfMatch(ledger, deals, users, org, f, r[i])
    ensures forall e :: e in ledger && EntryMatches(deals, org, f, e) ==>
              exists i :: 0 <= i < |r| && r[i] == ToRow(e, deals, users)
    ensures forall i, j :: 0 <= i < j < |r| ==> r[i].createdAt >= r[j].createdAt
  {
    var found := Matching(ledger, deals, org, f);
    var sorted := SortByRank(found, NewestFirst);
    SortedRows(found, sorted, deals, users);
    MatchingRows(ledger, deals, users, org, f, found, sorted, ToRows(sorted, deals, users));
    ToRows(sorted, deals, users)
  }

  /** Rows built one for one from a sequence holding exactly the matching
      entries are the rows of the matching entries, each at least once. */
  lemma MatchingRows(ledger: seq<CommissionEntry>, deals: seq<Deal>, users: seq<User>, org: OrgId, f: CommissionFilters,
                     found: seq<CommissionEntry>, sorted: seq<CommissionEntry>, rows: seq<CommissionRow>)
    requires Linked(ledger, deals, users)
    requires forall e :: e in found <==> e in ledger && EntryMatches(deals, org, f, e)
    requires forall i :: 0 <= i < |sorted| ==> sorted[i] in found
    requires forall e :: e in found ==> exists i :: 0 <= i < |sorted| && sorted[i] == e
    requires Linked(sorted, deals, users)
    requires |rows| == |sorted| && forall i :: 0 <= i < |sorted| ==> rows[i] == ToRow(sorted[i], deals, users)
    ensures forall i :: 0 <= i < |rows| ==> RowOfMatch(ledger, deals, users, org, f, rows[i])
    ensures forall e :: e in ledger && EntryMatches(deals, org, f, e) ==>
              exists i :: 0 <= i < |rows| && rows[i] == ToRow(e, deals, users)
  {
    forall i | 0 <= i < |rows| ensures RowOfMatch(ledger, deals, users, org, f, rows[i]) {
      assert sorted[i] in found;
    }
    forall e | e in ledger && EntryMatches(deals, org, f, e)
      ensures exists i :: 0 <= i < |rows| && rows[i] == ToRow(e, deals, users)
    {
      assert e in found;
      var i :| 0 <= i < |sorted| && sorted[i] == e;
      assert rows[i] == ToRow(e, deals, users);
    }
  }

  /** The rows of a newest-first permutation of the matching entries. */
  lemma SortedRows(found: seq<CommissionEntry>, sorted: seq<CommissionEntry>, deals: seq<Deal>, users: seq<User>)
    requires Linked(found, deals, users)
    requires multiset(sorted) == multiset(found) && Ascending(sorted, NewestFirst)
    ensures Linked(sorted, deals, users)
    ensures |ToRows(sorted, deals, users)| == |found|
    ensures forall i :: 0 <= i < |sorted| ==> sorted[i] in found
    ensures forall e :: e in found ==> exists i :: 0 <= i < |sorted| && sorted[i] == e
    ensures forall i, j :: 0 <= i < j < |sorted| ==> sorted[i].createdAt >= sorted[j].createdAt
  {
    SameMembers(found, sorted);
    assert |sorted| == |multiset(sorted)| == |found|;
    forall i, j | 0 <= i < j < |sorted| ensures sorted[i].createdAt >= sorted[j].createdAt {
      AscendingAt(sorted, NewestFirst, i, j);
    }
  }

  // ---------------------------------------------------------------------
  // getSummary

  datatype CommissionSummary = CommissionSummary(
    totalCommissions: real,
    totalDeals: nat,
    averageCommissionRate: real,
    commissionsThisMonth: real,
    commissionsThisYear: real)

  /** `_sum: { amount }` over the organization's entries created at or
      after `since` (all of them for `None`); an empty sum is 0. */
  function OrgCommissions(ledger: seq<CommissionEntry>, deals: seq<Deal>, org: OrgId, since: Option<Time>): real {
    if ledger == [] then 0.0
    else
      var e := ledger[0];
      (if OfOrg(deals, org, e) && (since.None? || e.createdAt >= since.value) then e.amount else 0.0)
      + OrgCommissions(ledger[1..], deals, org, since)
  }

  /** `deal.count({ where: { organizationId } })`. */
  function OrgDealCount(deals: seq<Deal>, org: OrgId): nat {
    if deals == [] then 0
    else (if deals[0].organizationId == org then 1 else 0) + OrgDealCount(deals[1..], org)
  }

  /** The sum of the organization's deal rates. */
  function OrgRateSum(deals: seq<Deal>, org: OrgId): real {
    if deals == [] then 0.0
    else (if deals[0].organizationId == org then deals[0].commissionRate else 0.0) + OrgRateSum(deals[1..], org)
  }

  /** `_avg`, or 0 where the database reports no average (`|| 0`). */
  function Mean(sum: real, count: nat): real {
    if count == 0 then 0.0 else sum / count as real
  }

  /** getSummary.  The starts of the current month and year are given. */
  function GetSummary(ledger: seq<CommissionEntry>, deals: seq<Deal>, org: OrgId, monthStart: Time, yearStart: Time): (r: CommissionSummary)
    ensures r.totalDeals == OrgDealCount(deals, org)
    ensures r.totalCommissions == OrgCommissions(ledger, deals, org, None)
    ensures r.commissionsThisMonth == OrgCommissions(ledger, deals, org, Some(monthStart))
    ensures r.commissionsThisYear == OrgCommissions(ledger, deals, org, Some(yearStart))
    ensures r.totalDeals == 0 ==> r.averageCommissionRate == 0.0
    ensures r.totalDeals > 0 ==> r.averageCommissionRate == OrgRateSum(deals, org) / r.totalDeals as real
  {
    var count := OrgDealCount(deals, org);
    CommissionSummary(
      OrgCommissions(ledger, deals, org, None),
      count,
      Mean(OrgRateSum(deals, org), count),
      OrgCommissions(ledger, deals, org, Some(monthStart)),
      OrgCommissions(ledger, deals, org, Some(yearStart)))
  }

  lemma {:induction false} NoOrgDeal(deals: seq<Deal>, org: OrgId)
    requires OrgDealCount(deals, org) == 0
    ensures forall d :: d in deals ==> d.organizationId != org
  {
    if deals != [] {
      NoOrgDeal(deals[1..], org);
    }
  }

  /** An organization without deals has no commissions either, whatever
      the window. */
  lemma {:induction false} NoDealsNoCommissions(ledger: seq<CommissionEntry>, deals: seq<Deal>, org: OrgId, since: Option<Time>)
    requires OrgDealCount(deals, org) == 0
    ensures OrgCommissions(ledger, deals, org, since) == 0.0
  {
    NoOrgDeal(deals, org);
    if ledger != [] {
      NoDealsNoCommissions(ledger[1..], deals, org, since);
    }
  }

  /** Every figure is 0 for an organization without deals. */
  lemma SummaryZeroDefaults(ledger: seq<CommissionEntry>, deals: seq<Deal>, org: OrgId, monthStart: Time, yearStart: Time)
    requires forall d :: d in deals ==> d.organizationId != org
    ensures GetSummary(ledger, deals, org, monthStart, yearStart) == CommissionSummary(0.0, 0, 0.0, 0.0, 0.0)
  {
    NoOrgDealCount(deals, org);
    NoDealsNoCommissions(ledger, deals, org, None);
    NoDealsNoCommissions(ledger, deals, org, Some(monthStart));
    NoDealsNoCommissions(ledger, deals, org, Some(yearStart));
  }

  lemma {:induction false} NoOrgDealCount(deals: seq<Deal>, org: OrgId)
    requires forall d :: d in deals ==> d.organizationId != org
    ensures OrgDealCount(deals, org) == 0
  {
    if deals != [] {
      assert deals[0] in deals;
      NoOrgDealCount(deals[1..], org);
    }
  }

  /** With non-negative amounts, the month's commissions are within the
      year's and the year's within the total, once the month starts no
      earlier than the year. */
  lemma {:induction false} SummaryWindows(ledger: seq<CommissionEntry>, deals: seq<Deal>, org: OrgId, monthStart: Time, yearStart: Time)
    requires forall e :: e in ledger ==> e.amount >= 0.0
    requires yearStart <= monthStart
    ensures var r := GetSummary(ledger, deals, org, monthStart, yearStart);
            0.0 <= r.commissionsThisMonth <= r.commissionsThisYear <= r.totalCommissions
  {
    if ledger != [] {
      assert ledger[0] in ledger;
      SummaryWindows(ledger[1..], deals, org, monthStart, yearStart);
    }
  }

  lemma {:induction false} RateSumBounds(deals: seq<Deal>, org: OrgId)
    requires forall d :: d in deals ==> RateOk(d.commissionRate)
    ensures 0.0 <= OrgRateSum(deals, org) <= MaxCommissionRate * OrgDealCount(deals, org) as real
  {
    if deals != [] {
      assert deals[0] in deals;
      RateSumBounds(deals[1..], org);
    }
  }

  /** With every rate in [0, 100], so is the mean. */
  lemma MeanRateBounds(sum: real, count: nat)
    requires 0.0 <= sum <= MaxCommissionRate * count as real
    ensures 0.0 <= Mean(sum, count) <= MaxCommissionRate
  {
    if count > 0 {
      assert sum / count as real <= (MaxCommissionRate * count as real) / count as real;
    }
  }

  lemma SummaryRateBounds(ledger: seq<CommissionEntry>, deals: seq<Deal>, org: OrgId, monthStart: Time, yearStart: Time)
    requires forall d :: d in deals ==> RateOk(d.commissionRate)
    ensures RateOk(GetSummary(ledger, deals, org, monthStart, yearStart).averageCommissionRate)
  {
    RateSumBounds(deals, org);
    MeanRateBounds(OrgRateSum(deals, org), OrgDealCount(deals, org));
  }

  // ---------------------------------------------------------------------
  // getByUser

  /** CommissionByUserResponse. */
  datatype UserCommissions = UserCommissions(
    userId: UserId,
    userName: string,
    totalCommissions: real,
    totalDeals: nat,
    averageCommissionRate: real)

  /** The sum of the amounts credited to one user, in ledger order. */
  function UserTotal(ledger: seq<CommissionEntry>, u: UserId): real {
    if ledger == [] then 0.0
    else
      var last := ledger[|ledger| - 1];
      UserTotal(ledger[..|ledger| - 1], u) + (if last.userId == u then last.amount else 0.0)
  }

  /** The number of entries crediting one user. */
  function UserEntryCount(ledger: seq<CommissionEntry>, u: UserId): nat {
    if ledger == [] then 0
    else
      var last := ledger[|ledger| - 1];
      UserEntryCount(ledger[..|ledger| - 1], u) + (if last.userId == u then 1 else 0)
  }

  /** The sum of the current rates of the deals of one user's entries. */
  function UserRateSum(ledger: seq<CommissionEntry>, deals: seq<Deal>, u: UserId): real
    requires forall e :: e in ledger ==> DealOf(deals, e).Some?
  {
    if ledger == [] then 0.0
    else
      var last := ledger[|ledger| - 1];
      assert last in ledger;
      assert forall e :: e in ledger[..|ledger| - 1] ==> e in ledger;
      UserRateSum(ledger[..|ledger| - 1], deals, u)
      + (if last.userId == u then DealOf(deals, last).value.commissionRate else 0.0)
  }

  /** `user.findMany({ where: { organizationId } })`, in table order. */
  function OrgUsers(users: seq<User>, org: OrgId): (r: seq<User>)
    ensures forall u :: u in r <==> u in users && u.organizationId == org
    ensures UniqueIds(users) ==> UniqueIds(r)
  {
    if users == [] then []
    else
      var rest := OrgUsers(users[1..], org);
      if users[0].organizationId == org then
        KeepHeadUnique(users, rest);
        [users[0]] + rest
      else
        assert UniqueIds(users) ==> UniqueIds(users[1..]);
        rest
  }

  /** Keeping the head in front of a selection from the rest keeps ids
      unique. */
  lemma KeepHeadUnique(users: seq<User>, rest: seq<User>)
    requires users != [] && forall u :: u in rest ==> u in users[1..]
    requires UniqueIds(users[1..]) ==> UniqueIds(rest)
    ensures UniqueIds(users) ==> UniqueIds([users[0]] + rest)
  {
    if UniqueIds(users) {
      assert UniqueIds(users[1..]);
      forall j | 0 <= j < |rest| ensures users[0].id != rest[j].id {
        assert rest[j] in rest;
        var k :| 0 <= k < |users[1..]| && users[1..][k] == rest[j];
        assert users[k + 1] == rest[j];
      }
    }
  }

  /** User ids are a primary key. */
  ghost predicate UniqueIds(users: seq<User>) {
    forall i, j :: 0 <= i < j < |users| ==> users[i].id != users[j].id
  }

  function UserRow(ledger: seq<CommissionEntry>, deals: seq<Deal>, u: User): UserCommissions
    requires forall e :: e in ledger ==> DealOf(deals, e).Some?
  {
    var count := UserEntryCount(ledger, u.id);
    UserCommissions(u.id, u.name, UserTotal(ledger, u.id), count,
                    if count > 0 then UserRateSum(ledger, deals, u.id) / count as real else 0.0)
  }

  function UserRows(ledger: seq<CommissionEntry>, deals: seq<Deal>, us: seq<User>): (r: seq<UserCommissions>)
    requires forall e :: e in ledger ==> DealOf(deals, e).Some?
    ensures |r| == |us|
    ensures forall i :: 0 <= i < |us| ==> r[i] == UserRow(ledger, deals, us[i])
  {
    if us == [] then [] else [UserRow(ledger, deals, us[0])] + UserRows(ledger, deals, us[1..])
  }

  /** getByUser: one row per user of the organization, in table order,
      users without entries included; total, count, and the mean rate of
      the deals behind the entries (0 without entries). */
  function GetByUser(ledger: seq<CommissionEntry>, deals: seq<Deal>, users: seq<User>, org: OrgId): (r: seq<UserCommissions>)
    requires forall e :: e in ledger ==> DealOf(deals, e).Some?
    ensures |r| == |OrgUsers(users, org)|
    ensures forall i :: 0 <= i < |r| ==>
              var u := OrgUsers(users, org)[i];
              && r[i].userId == u.id && r[i].userName == u.name
              && r[i].totalCommissions == UserTotal(ledger, u.id)
              && r[i].totalDeals == UserEntryCount(ledger, u.id)
              && (r[i].totalDeals == 0 ==> r[i].totalCommissions == 0.0 && r[i].averageCommissionRate == 0.0)
              && (r[i].totalDeals > 0 ==> r[i].averageCommissionRate == UserRateSum(ledger, deals, u.id) / r[i].totalDeals as real)
  {
    var us := OrgUsers(users, org);
    var r := UserRows(ledger, deals, us);
    forall i | 0 <= i < |r| && r[i].totalDeals == 0
      ensures r[i].totalCommissions == 0.0
    {
      NoEntriesNoTotal(ledger, us[i].id);
    }
    r
  }

  lemma {:induction false} NoEntriesNoTotal(ledger: seq<CommissionEntry>, u: UserId)
    requires UserEntryCount(ledger, u) == 0
    ensures UserTotal(ledger, u) == 0.0
  {
    if ledger != [] {
      NoEntriesNoTotal(ledger[..|ledger| - 1], u);
    }
  }

  lemma {:induction false} UserRateSumBounds(ledger: seq<CommissionEntry>, deals: seq<Deal>, u: UserId)
    requires forall e :: e in ledger ==> DealOf(deals, e).Some?
    requires forall d :: d in deals ==> RateOk(d.commissionRate)
    ensures 0.0 <= UserRateSum(ledger, deals, u) <= MaxCommissionRate * UserEntryCount(ledger, u) as real
  {
    if ledger != [] {
      var last := ledger[|ledger| - 1];
      assert last in ledger;
      assert forall e :: e in ledger[..|ledger| - 1] ==> e in ledger;
      UserRateSumBounds(ledger[..|ledger| - 1], deals, u);
    }
  }

  /** With every deal rate in [0, 100], each user's average rate is too. */
  lemma ByUserRateBounds(ledger: seq<CommissionEntry>, deals: seq<Deal>, users: seq<User>, org: OrgId)
    requires forall e :: e in ledger ==> DealOf(deals, e).Some?
    requires forall d :: d in deals ==> RateOk(d.commissionRate)
    ensures forall row :: row in GetByUser(ledger, deals, users, org) ==> RateOk(row.averageCommissionRate)
  {
    var us := OrgUsers(users, org);
    forall row | row in GetByUser(ledger, deals, users, org) ensures RateOk(row.averageCommissionRate) {
      var i :| 0 <= i < |us| && GetByUser(ledger, deals, users, org)[i] == row;
      UserRateSumBounds(ledger, deals, us[i].id);
      MeanRateBounds(UserRateSum(ledger, deals, us[i].id), UserEntryCount(ledger, us[i].id));
    }
  }

  /** The amounts credited to any user of a set of users. */
  function AmountForUsers(ledger: seq<CommissionEntry>, ids: set<UserId>): real {
    if ledger == [] then 0.0
    else
      var last := ledger[|ledger| - 1];
      AmountForUsers(ledger[..|ledger| - 1], ids) + (if last.userId in ids then last.amount else 0.0)
  }

  lemma {:induction false} AmountForUsersAdd(ledger: seq<CommissionEntry>, ids: set<UserId>, x: UserId)
    requires x !in ids
    ensures AmountForUsers(ledger, ids + {x}) == AmountForUsers(ledger, ids) + UserTotal(ledger, x)
  {
    if ledger != [] {
      AmountForUsersAdd(ledger[..|ledger| - 1], ids, x);
    }
  }

  ghost function Ids(us: seq<User>): set<UserId> {
    set u | u in us :: u.id
  }

  function RowsTotal(rows: seq<UserCommissions>): real {
    if rows == [] then 0.0 else rows[0].totalCommissions + RowsTotal(rows[1..])
  }

  /** With unique ids, the first user's id is not among the others', and
      the others' ids are unique too. */
  lemma UniqueTail(us: seq<User>)
    requires UniqueIds(us) && us != []
    ensures UniqueIds(us[1..]) && us[0].id !in Ids(us[1..])
    ensures Ids(us) == Ids(us[1..]) + {us[0].id}
  {
    var rest := us[1..];
    forall i, j | 0 <= i < j < |rest| ensures rest[i].id != rest[j].id {
      assert rest[i] == us[i + 1] && rest[j] == us[j + 1];
    }
    forall u | u in rest ensures u.id != us[0].id {
      var k :| 0 <= k < |rest| && rest[k] == u;
      assert us[k + 1] == u;
    }
    assert us == [us[0]] + rest;
  }

  lemma {:induction false} UserRowsPartition(ledger: seq<CommissionEntry>, deals: seq<Deal>, us: seq<User>)
    requires forall e :: e in ledger ==> DealOf(deals, e).Some?
    requires UniqueIds(us)
    ensures RowsTotal(UserRows(ledger, deals, us)) == AmountForUsers(ledger, Ids(us))
  {
    if us == [] {
      assert Ids(us) == {};
      NoUsersNoAmount(ledger);
    } else {
      var rest := us[1..];
      UniqueTail(us);
      UserRowsPartition(ledger, deals, rest);
      var rows := UserRows(ledger, deals, us);
      assert rows == [UserRow(ledger, deals, us[0])] + UserRows(ledger, deals, rest);
      assert rows[1..] == UserRows(ledger, deals, rest);
      assert RowsTotal(rows) == UserTotal(ledger, us[0].id) + RowsTotal(UserRows(ledger, deals, rest));
      AmountForUsersAdd(ledger, Ids(rest), us[0].id);
    }
  }

  lemma {:induction false} NoUsersNoAmount(ledger: seq<CommissionEntry>)
    ensures AmountForUsers(ledger, {}) == 0.0
  {
    if ledger != [] {
      NoUsersNoAmount(ledger[..|ledger| - 1]);
    }
  }

  /** The per-user totals add up to everything credited to the
      organization's users: no entry is counted twice or dropped. */
  lemma ByUserPartition(ledger: seq<CommissionEntry>, deals: seq<Deal>, users: seq<User>, org: OrgId)
    requires forall e :: e in ledger ==> DealOf(deals, e).Some?
    requires UniqueIds(users)
    ensures RowsTotal(GetByUser(ledger, deals, users, org))
            == AmountForUsers(ledger, set u | u in users && u.organizationId == org :: u.id)
  {
    var us := OrgUsers(users, org);
    UserRowsPartition(ledger, deals, us);
    assert Ids(us) == set u | u in users && u.organizationId == org :: u.id;
  }

  lemma UserTotalAppend(ledger: seq<CommissionEntry>, e: CommissionEntry, u: UserId)
    ensures UserTotal(ledger + [e], u) == UserTotal(ledger, u) + (if e.userId == u then e.amount else 0.0)
  {
    assert (ledger + [e])[..|ledger|] == ledger;
  }

  /** Closing a deal credits its commission to the organization's first
      user, and to nobody else. */
  lemma ClosingCreditsFirstMember(s: DealLifecycle.DealStore, id: DealId, change: StageChange, org: OrgId, now: Time, v: UserId)
    requires DealLifecycle.Owns(s, id, org) && DealLifecycle.Edge(s.deals[id].stage, change.stage)
    requires change.stage == Closed
    ensures var s' := DealLifecycle.ChangeStage(s, id, change, org, now).1;
            var first := DealLifecycle.FirstMember(s.members, org);
            var d := s.deals[id];
            UserTotal(s'.ledger, v)
            == UserTotal(s.ledger, v)
               + (if first == Some(v) then DealLifecycle.CommissionAmount(d.amount, d.commissionRate) else 0.0)
  {
    DealLifecycle.ChangeStageCommission(s, id, change, org, now);
    var first := DealLifecycle.FirstMember(s.members, org);
    var d := s.deals[id];
    if first.Some? {
      var e := CommissionEntry(|s.ledger|, d.id, first.value, d.amount * d.commissionRate / 100.0, now);
      UserTotalAppend(s.ledger, e, v);
    } else {
      assert DealLifecycle.ChangeStage(s, id, change, org, now).1.ledger == s.ledger;
    }
  }
}
