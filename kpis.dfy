/** KpisService (apps/api/src/modules/kpis/kpis.service.ts): the dashboard
    of one organization, computed from the rows of the deal table, the
    commission ledger, the user table and the audit log. */
module Kpis {
  import opened Common
  import opened Records
  import opened Ordering
  import Commissions

  // ---------------------------------------------------------------------
  // Summary

  datatype KpiSummary = KpiSummary(
    totalDeals: nat,
    totalRevenue: real,
    totalCommissions: real,
    averageDealSize: real,
    averageCommissionRate: real,
    conversionRate: real)

  /** `_sum: { amount }` over the organization's deals; 0 when empty. */
  function OrgRevenue(deals: seq<Deal>, org: OrgId): real {
    if deals == [] then 0.0
    else (if deals[0].organizationId == org then deals[0].amount else 0.0) + OrgRevenue(deals[1..], org)
  }

  /** The number of the organization's deals in one stage. */
  function StageCount(deals: seq<Deal>, org: OrgId, stage: DealStage): nat {
    if deals == [] then 0
    else (if deals[0].organizationId == org && deals[0].stage == stage then 1 else 0) + StageCount(deals[1..], org, stage)
  }

  /** The summed amount of the organization's deals in one stage. */
  function StageAmount(deals: seq<Deal>, org: OrgId, stage: DealStage): real {
    if deals == [] then 0.0
    else (if deals[0].organizationId == org && deals[0].stage == stage then deals[0].amount else 0.0)
         + StageAmount(deals[1..], org, stage)
  }

  /** `total > 0 ? (count / total) * 100 : 0`. */
  function Percentage(count: nat, total: nat): real {
    if total > 0 then count as real / total as real * 100.0 else 0.0
  }

  /** The summary block: counts and sums over the organization's deals and
      the commission entries on them; averages and the conversion rate are
      0 for an organization without deals. */
  function Summary(deals: seq<Deal>, ledger: seq<CommissionEntry>, org: OrgId): (r: KpiSummary)
    ensures r.totalDeals == Commissions.OrgDealCount(deals, org)
    ensures r.totalRevenue == OrgRevenue(deals, org)
    ensures r.totalCommissions == Commissions.OrgCommissions(ledger, deals, org, None)
    ensures r.totalDeals == 0 ==> r.averageDealSize == 0.0 && r.averageCommissionRate == 0.0 && r.conversionRate == 0.0
    ensures r.totalDeals > 0 ==> r.averageDealSize == r.totalRevenue / r.totalDeals as real
    ensures r.totalDeals > 0 ==> r.averageCommissionRate == Commissions.OrgRateSum(deals, org) / r.totalDeals as real
    ensures r.totalDeals > 0 ==> r.conversionRate == StageCount(deals, org, Closed) as real / r.totalDeals as real * 100.0
  {
    var total := Commissions.OrgDealCount(deals, org);
    KpiSummary(
      total,
      OrgRevenue(deals, org),
      Commissions.OrgCommissions(ledger, deals, org, None),
      Commissions.Mean(OrgRevenue(deals, org), total),
      Commissions.Mean(Commissions.OrgRateSum(deals, org), total),
      Percentage(StageCount(deals, org, Closed), total))
  }

  /** Every deal of the organization is in exactly one stage. */
  lemma {:induction false} StagesPartitionDeals(deals: seq<Deal>, org: OrgId)
    ensures StageCount(deals, org, Prospect) + StageCount(deals, org, Active)
            + StageCount(deals, org, Closed) + StageCount(deals, org, Lost)
            == Commissions.OrgDealCount(deals, org)
  {
    if deals != [] {
      StagesPartitionDeals(deals[1..], org);
    }
  }

  lemma {:induction false} NoDealsNoRevenue(deals: seq<Deal>, org: OrgId)
    requires Commissions.OrgDealCount(deals, org) == 0
    ensures OrgRevenue(deals, org) == 0.0
  {
    if deals != [] {
      NoDealsNoRevenue(deals[1..], org);
    }
  }

  /** An organization without deals gets 0 for every summary figure, the
      divisions included. */
  lemma SummaryZeroDefaults(deals: seq<Deal>, ledger: seq<CommissionEntry>, org: OrgId)
    requires forall d :: d in deals ==> d.organizationId != org
    ensures Summary(deals, ledger, org) == KpiSummary(0, 0.0, 0.0, 0.0, 0.0, 0.0)
  {
    Commissions.NoOrgDealCount(deals, org);
    NoDealsNoRevenue(deals, org);
    Commissions.NoDealsNoCommissions(ledger, deals, org, None);
  }

  lemma PercentageBounds(count: nat, total: nat)
    requires count <= total
    ensures 0.0 <= Percentage(count, total) <= 100.0
  {
    if total > 0 {
      assert count as real / total as real <= 1.0;
    }
  }

  /** The conversion rate, the CLOSED share of all deals, lies in [0, 100]. */
  lemma ConversionBounds(deals: seq<Deal>, ledger: seq<CommissionEntry>, org: OrgId)
    ensures 0.0 <= Summary(deals, ledger, org).conversionRate <= 100.0
  {
    StagesPartitionDeals(deals, org);
    PercentageBounds(StageCount(deals, org, Closed), Commissions.OrgDealCount(deals, org));
  }

  // ---------------------------------------------------------------------
  // Stage breakdown

  datatype StageRow = StageRow(stage: DealStage, count: nat, totalAmount: real, percentage: real)

  const Stages: seq<DealStage> := [Prospect, Active, Closed, Lost]

  function StageRowOf(deals: seq<Deal>, org: OrgId, stage: DealStage): StageRow {
    var count := StageCount(deals, org, stage);
    StageRow(stage, count, StageAmount(deals, org, stage), Percentage(count, Commissions.OrgDealCount(deals, org)))
  }

  /** One row per listed stage that has deals, in list order. */
  function StageRows(deals: seq<Deal>, org: OrgId, stages: seq<DealStage>): seq<StageRow> {
    if stages == [] then []
    else
      (if StageCount(deals, org, stages[0]) > 0 then [StageRowOf(deals, org, stages[0])] else [])
      + StageRows(deals, org, stages[1..])
  }

  lemma {:induction false} StageRowsContents(deals: seq<Deal>, org: OrgId, stages: seq<DealStage>)
    ensures forall row :: row in StageRows(deals, org, stages) ==>
              row.stage in stages && row.count > 0 && row == StageRowOf(deals, org, row.stage)
    ensures forall st :: st in stages && StageCount(deals, org, st) > 0 ==>
              exists row :: row in StageRows(deals, org, stages) && row.stage == st
  {
    if stages != [] {
      StageRowsContents(deals, org, stages[1..]);
      var head: seq<StageRow> := if StageCount(deals, org, stages[0]) > 0 then [StageRowOf(deals, org, stages[0])] else [];
      var rest := StageRows(deals, org, stages[1..]);
      assert StageRows(deals, org, stages) == head + rest;
      forall st | st in stages && StageCount(deals, org, st) > 0
        ensures exists row: StageRow :: row in head + rest && row.stage == st
      {
        if st == stages[0] {
          assert head[0] in head + rest;
        } else {
          assert st in stages[1..];
          var row :| row in rest && row.stage == st;
          assert row in head + rest;
        }
      }
    }
  }

  lemma {:induction false} StageRowsStages(deals: seq<Deal>, org: OrgId, stages: seq<DealStage>)
    ensures forall i :: 0 <= i < |StageRows(deals, org, stages)| ==> StageRows(deals, org, stages)[i].stage in stages
  {
    if stages != [] {
      StageRowsStages(deals, org, stages[1..]);
      var head: seq<StageRow> := if StageCount(deals, org, stages[0]) > 0 then [StageRowOf(deals, org, stages[0])] else [];
      var rest := StageRows(deals, org, stages[1..]);
      assert StageRows(deals, org, stages) == head + rest;
      forall i | 0 <= i < |head + rest| ensures (head + rest)[i].stage in stages {
        if i < |head| {
          assert (head + rest)[i] == head[0];
        } else {
          assert (head + rest)[i] == rest[i - |head|];
          assert rest[i - |head|].stage in stages[1..];
        }
      }
    }
  }

  /** Position of a stage in `Stages`. */
  function StageIndex(s: DealStage): nat {
    match s
    case Prospect => 0
    case Active => 1
    case Closed => 2
    case Lost => 3
  }

  /** The rows' stages strictly follow the enum order. */
  predicate StagesIncreasing(rows: seq<StageRow>) {
    forall i, j :: 0 <= i < j < |rows| ==> StageIndex(rows[i].stage) < StageIndex(rows[j].stage)
  }

  lemma ConsIncreasing(head: seq<StageRow>, rest: seq<StageRow>)
    requires |head| <= 1 && StagesIncreasing(rest)
    requires forall x, k :: x in head && 0 <= k < |rest| ==> StageIndex(x.stage) < StageIndex(rest[k].stage)
    ensures StagesIncreasing(head + rest)
  {
    var r := head + rest;
    forall i, j | 0 <= i < j < |r| ensures StageIndex(r[i].stage) < StageIndex(r[j].stage) {
      if i < |head| {
        assert r[i] == head[0] && head[0] in head && r[j] == rest[j - |head|];
      } else {
        assert r[i] == rest[i - |head|] && r[j] == rest[j - |head|];
      }
    }
  }

  lemma {:induction false} StageRowsOrdered(deals: seq<Deal>, org: OrgId, stages: seq<DealStage>)
    requires forall i, j :: 0 <= i < j < |stages| ==> StageIndex(stages[i]) < StageIndex(stages[j])
    ensures StagesIncreasing(StageRows(deals, org, stages))
  {
    if stages != [] {
      StageRowsOrdered(deals, org, stages[1..]);
      StageRowsStages(deals, org, stages[1..]);
      var head: seq<StageRow> := if StageCount(deals, org, stages[0]) > 0 then [StageRowOf(deals, org, stages[0])] else [];
      var rest := StageRows(deals, org, stages[1..]);
      assert StageRows(deals, org, stages) == head + rest;
      forall x, k | x in head && 0 <= k < |rest| ensures StageIndex(x.stage) < StageIndex(rest[k].stage) {
        var m :| 0 <= m < |stages[1..]| && stages[1..][m] == rest[k].stage;
        assert stages[m + 1] == rest[k].stage;
      }
      ConsIncreasing(head, rest);
    }
  }

  /** `groupBy({ by: ['stage'] })`: a row for each stage that has deals of
      the organization, with its count, summed amount and share, each stage
      at most once. */
  function Breakdown(deals: seq<Deal>, org: OrgId): (r: seq<StageRow>)
    ensures forall row :: row in r ==> row.count > 0 && row == StageRowOf(deals, org, row.stage)
    ensures forall st :: StageCount(deals, org, st) > 0 <==> exists row :: row in r && row.stage == st
    ensures forall i, j :: 0 <= i < j < |r| ==> r[i].stage != r[j].stage
  {
    StagesListing();
    ListedStageRows(deals, org, Stages);
    StageRows(deals, org, Stages)
  }

  /** `Stages` names every stage, in enum order. */
  lemma StagesListing()
    ensures forall st :: st in Stages
    ensures forall i, j :: 0 <= i < j < |Stages| ==> StageIndex(Stages[i]) < StageIndex(Stages[j])
  {
    forall st ensures st in Stages {
      assert Stages[StageIndex(st)] == st;
    }
  }

  /** Over a list naming every stage once, in enum order, the rows are one
      per stage with deals, each stage at most once. */
  lemma ListedStageRows(deals: seq<Deal>, org: OrgId, stages: seq<DealStage>)
    requires forall st :: st in stages
    requires forall i, j :: 0 <= i < j < |stages| ==> StageIndex(stages[i]) < StageIndex(stages[j])
    ensures forall row :: row in StageRows(deals, org, stages) ==> row.count > 0 && row == StageRowOf(deals, org, row.stage)
    ensures forall st :: StageCount(deals, org, st) > 0 <==> exists row :: row in StageRows(deals, org, stages) && row.stage == st
    ensures forall i, j :: 0 <= i < j < |StageRows(deals, org, stages)| ==>
              StageRows(deals, org, stages)[i].stage != StageRows(deals, org, stages)[j].stage
  {
    StageRowsContents(deals, org, stages);
    StageRowsOrdered(deals, org, stages);
  }

  function SumCounts(rows: seq<StageRow>): nat {
    if rows == [] then 0 else rows[0].count + SumCounts(rows[1..])
  }

  function SumPercentages(rows: seq<StageRow>): real {
    if rows == [] then 0.0 else rows[0].percentage + SumPercentages(rows[1..])
  }

  function CountOver(deals: seq<Deal>, org: OrgId, stages: seq<DealStage>): nat {
    if stages == [] then 0 else StageCount(deals, org, stages[0]) + CountOver(deals, org, stages[1..])
  }

  lemma PercentageAdd(a: nat, b: nat, total: nat)
    ensures Percentage(a, total) + Percentage(b, total) == Percentage(a + b, total)
  {
    if total > 0 {
      assert (a + b) as real / total as real == a as real / total as real + b as real / total as real;
    }
  }

  lemma {:induction false} StageRowsSums(deals: seq<Deal>, org: OrgId, stages: seq<DealStage>)
    ensures SumCounts(StageRows(deals, org, stages)) == CountOver(deals, org, stages)
    ensures SumPercentages(StageRows(deals, org, stages))
            == Percentage(CountOver(deals, org, stages), Commissions.OrgDealCount(deals, org))
  {
    var total := Commissions.OrgDealCount(deals, org);
    if stages == [] {
      assert Percentage(0, total) == 0.0;
    } else {
      StageRowsSums(deals, org, stages[1..]);
      var c := StageCount(deals, org, stages[0]);
      var rest := StageRows(deals, org, stages[1..]);
      assert CountOver(deals, org, stages) == c + CountOver(deals, org, stages[1..]);
      PercentageAdd(c, CountOver(deals, org, stages[1..]), total);
      if c == 0 {
        assert StageRows(deals, org, stages) == rest;
        assert Percentage(0, total) == 0.0;
      } else {
        var row := StageRowOf(deals, org, stages[0]);
        var r := [row] + rest;
        assert StageRows(deals, org, stages) == r;
        assert r[1..] == rest;
        assert SumCounts(r) == c + SumCounts(rest);
        assert SumPercentages(r) == Percentage(c, total) + SumPercentages(rest);
      }
    }
  }

  lemma CountOverStages(deals: seq<Deal>, org: OrgId)
    ensures CountOver(deals, org, Stages)
            == StageCount(deals, org, Prospect) + StageCount(deals, org, Active)
               + StageCount(deals, org, Closed) + StageCount(deals, org, Lost)
  {
    var s1, s2, s3: seq<DealStage> := [Active, Closed, Lost], [Closed, Lost], [Lost];
    assert Stages[1..] == s1 && s1[1..] == s2 && s2[1..] == s3 && s3[1..] == [];
    assert CountOver(deals, org, s3) == StageCount(deals, org, Lost) + CountOver(deals, org, []);
    assert CountOver(deals, org, s2) == StageCount(deals, org, Closed) + CountOver(deals, org, s3);
    assert CountOver(deals, org, s1) == StageCount(deals, org, Active) + CountOver(deals, org, s2);
  }

  /** The breakdown accounts for every deal once: its counts add up to the
      total, and, when there are deals, its percentages to 100. */
  lemma BreakdownTotals(deals: seq<Deal>, org: OrgId)
    ensures SumCounts(Breakdown(deals, org)) == Commissions.OrgDealCount(deals, org)
    ensures Commissions.OrgDealCount(deals, org) > 0 ==> SumPercentages(Breakdown(deals, org)) == 100.0
  {
    assert Breakdown(deals, org) == StageRows(deals, org, Stages);
    StageRowsSums(deals, org, Stages);
    StagesPartitionDeals(deals, org);
    CountOverStages(deals, org);
    if Commissions.OrgDealCount(deals, org) > 0 {
      PercentageWhole(Commissions.OrgDealCount(deals, org));
    }
  }

  lemma PercentageWhole(total: nat)
    requires total > 0
    ensures Percentage(total, total) == 100.0
  {
    assert total as real / total as real == 1.0;
  }

  /** The conversion rate is the CLOSED row's percentage, or 0 when there
      is no CLOSED row. */
  lemma ConversionIsClosedShare(deals: seq<Deal>, ledger: seq<CommissionEntry>, org: OrgId)
    ensures forall row :: row in Breakdown(deals, org) && row.stage == Closed ==>
              row.percentage == Summary(deals, ledger, org).conversionRate
    ensures (forall row :: row in Breakdown(deals, org) ==> row.stage != Closed) ==>
              Summary(deals, ledger, org).conversionRate == 0.0
  {
    var b := Breakdown(deals, org);
    if forall row :: row in b ==> row.stage != Closed {
      assert StageCount(deals, org, Closed) > 0 ==> exists row :: row in b && row.stage == Closed;
      assert Percentage(0, Commissions.OrgDealCount(deals, org)) == 0.0;
    }
  }

  // ---------------------------------------------------------------------
  // Recent activity

  datatype Activity = Activity(id: AuditId, action: string, entity: string, description: string, createdAt: Time)

  const RecentLimit: nat := 10

  /** The organization's audit entries, in log order. */
  function OrgAudit(audit: seq<AuditEntry>, org: OrgId): (r: seq<AuditEntry>)
    ensures forall a :: a in r <==> a in audit && a.organizationId == org
  {
    if audit == [] then []
    else (if audit[0].organizationId == org then [audit[0]] else []) + OrgAudit(audit[1..], org)
  }

  function AuditNewestFirst(a: AuditEntry): int {
    -a.createdAt
  }

  /** ASCII `toLowerCase`. */
  function Lower(c: char): char {
    if 'A' <= c <= 'Z' then (c as int + 32) as char else c
  }

  function LowerAscii(s: string): (r: string)
    ensures |r| == |s| && forall i :: 0 <= i < |s| ==> r[i] == Lower(s[i])
  {
    seq(|s|, i requires 0 <= i < |s| => Lower(s[i]))
  }

  /** `String.prototype.replace` with a one-character pattern: only the
      first occurrence is replaced. */
  function ReplaceFirst(s: string, from: char, to: char): (r: string)
    ensures |r| == |s|
  {
    if s == [] then []
    else if s[0] == from then [to] + s[1..]
    else [s[0]] + ReplaceFirst(s[1..], from, to)
  }

  /** Without the pattern the string is returned unchanged. */
  lemma {:induction false} ReplaceFirstAbsent(s: string, from: char, to: char)
    requires from !in s
    ensures ReplaceFirst(s, from, to) == s
  {
    if s != [] {
      ReplaceFirstAbsent(s[1..], from, to);
    }
  }

  /** With the pattern, exactly its first occurrence is replaced: what
      follows it, further occurrences included, is kept. */
  lemma {:induction false} ReplaceFirstAt(a: string, b: string, from: char, to: char)
    requires from !in a
    ensures ReplaceFirst(a + [from] + b, from, to) == a + [to] + b
  {
    if a == [] {
      assert a + [from] + b == [from] + b;
    } else {
      ReplaceFirstAt(a[1..], b, from, to);
      assert (a + [from] + b)[1..] == a[1..] + [from] + b;
    }
  }

  /** The index of the first occurrence of `c`. */
  function FirstIndex(s: string, c: char): (i: nat)
    requires c in s
    ensures i < |s| && s[i] == c && c !in s[..i]
  {
    if s[0] == c then 0
    else
      var j := FirstIndex(s[1..], c);
      assert s[..j + 1] == [s[0]] + s[1..][..j];
      j + 1
  }

  /** The number of times `c` occurs in `s`. */
  function Occurrences(s: string, c: char): nat {
    if s == [] then 0 else (if s[0] == c then 1 else 0) + Occurrences(s[1..], c)
  }

  lemma {:induction false} OccurrencesAppend(a: string, b: string, c: char)
    ensures Occurrences(a + b, c) == Occurrences(a, c) + Occurrences(b, c)
  {
    if a == [] {
      assert a + b == b;
    } else {
      assert (a + b)[0] == a[0];
      assert (a + b)[1..] == a[1..] + b;
      OccurrencesAppend(a[1..], b, c);
    }
  }

  lemma {:induction false} NoOccurrences(s: string, c: char)
    requires c !in s
    ensures Occurrences(s, c) == 0
  {
    if s != [] {
      NoOccurrences(s[1..], c);
    }
  }

  /** Replacing the first '_' by a space removes exactly one underscore:
      an action with two keeps one. */
  lemma ReplaceFirstRemovesOne(s: string)
    requires '_' in s
    ensures Occurrences(ReplaceFirst(s, '_', ' '), '_') == Occurrences(s, '_') - 1
  {
    var i := FirstIndex(s, '_');
    var a, b := s[..i], s[i + 1..];
    assert s == a + ['_'] + b;
    ReplaceFirstAt(a, b, '_', ' ');
    OccurrencesAppend(a + ['_'], b, '_');
    OccurrencesAppend(a, ['_'], '_');
    OccurrencesAppend(a + [' '], b, '_');
    OccurrencesAppend(a, [' '], '_');
    NoOccurrences(a, '_');
  }

  /** Each character of the replaced string: the first `from` becomes
      `to`, every other character stays. */
  lemma {:induction false} ReplaceFirstPointwise(s: string, from: char, to: char)
    ensures forall i :: 0 <= i < |s| ==>
              ReplaceFirst(s, from, to)[i] == (if s[i] == from && from !in s[..i] then to else s[i])
  {
    if s != [] {
      ReplaceFirstPointwise(s[1..], from, to);
      forall i | 0 < i < |s|
        ensures ReplaceFirst(s, from, to)[i] == (if s[i] == from && from !in s[..i] then to else s[i])
      {
        assert s[1..][i - 1] == s[i];
        assert s[..i] == [s[0]] + s[1..][..i - 1];
      }
    }
  }

  const Performed := " performed "

  /** The activity text: the user's name, " performed ", then the action's
      wire name lower-cased with its first underscore turned into a space. */
  function Describe(name: string, action: AuditAction): (r: string)
    ensures |r| == |name| + |Performed| + |ActionName(action)|
    ensures r[..|name|] == name && r[|name|..|name| + |Performed|] == Performed
    ensures forall i :: 0 <= i < |LowerAscii(ActionName(action))| ==>
              r[|name| + |Performed| + i]
              == (if LowerAscii(ActionName(action))[i] == '_' && '_' !in LowerAscii(ActionName(action))[..i]
                  then ' ' else LowerAscii(ActionName(action))[i])
  {
    var lowered := LowerAscii(ActionName(action));
    ReplaceFirstPointwise(lowered, '_', ' ');
    name + Performed + ReplaceFirst(lowered, '_', ' ')
  }

  /** Only the first underscore goes: USER_LOGGED_IN reads "user logged_in". */
  lemma DescribeUserLoggedIn(name: string)
    ensures Describe(name, UserLoggedIn) == name + " performed user logged_in"
  {
    assert LowerAscii(ActionName(UserLoggedIn)) == "user" + ['_'] + "logged_in";
    ReplaceFirstAt("user", "logged_in", '_', ' ');
  }

  /** One `recentActivity` item: the entry's id, action name, entity and
      time, described with the name of the user who acted. */
  function ToActivity(a: AuditEntry, users: seq<User>): (r: Activity)
    requires FindById(users, UserKey, a.userId).Some?
    ensures r.id == a.id && r.action == ActionName(a.action) && r.entity == a.entity && r.createdAt == a.createdAt
    ensures exists u :: u in users && u.id == a.userId && r.description == Describe(u.name, a.action)
  {
    Activity(a.id, ActionName(a.action), a.entity, Describe(FindById(users, UserKey, a.userId).value.name, a.action), a.createdAt)
  }

  /** Every audit entry of the organization names an existing user. */
  predicate AuditLinked(audit: seq<AuditEntry>, users: seq<User>, org: OrgId) {
    forall a :: a in audit && a.organizationId == org ==> FindById(users, UserKey, a.userId).Some?
  }

  function ToActivities(es: seq<AuditEntry>, users: seq<User>): (r: seq<Activity>)
    requires forall a :: a in es ==> FindById(users, UserKey, a.userId).Some?
    ensures |r| == |es| && forall i :: 0 <= i < |es| ==> r[i] == ToActivity(es[i], users)
  {
    if es == [] then [] else [ToActivity(es[0], users)] + ToActivities(es[1..], users)
  }

  /** The organization's entries, newest first. */
  function NewestAudit(audit: seq<AuditEntry>, org: OrgId): (r: seq<AuditEntry>)
    ensures forall a :: a in r <==> a in audit && a.organizationId == org
    ensures |r| == |OrgAudit(audit, org)|
    ensures Ascending(r, AuditNewestFirst)
  {
    var r := SortByRank(OrgAudit(audit, org), AuditNewestFirst);
    SameMembers(OrgAudit(audit, org), r);
    assert |r| == |multiset(r)| == |OrgAudit(audit, org)|;
    r
  }

  /** `auditLog.findMany({ where: { organizationId }, orderBy: { createdAt:
      'desc' }, take: 10 })`, each entry described. */
  function RecentActivity(audit: seq<AuditEntry>, users: seq<User>, org: OrgId): (r: seq<Activity>)
    requires AuditLinked(audit, users, org)
    ensures |r| == (if |OrgAudit(audit, org)| < RecentLimit then |OrgAudit(audit, org)| else RecentLimit)
  {
    ToActivities(Take(NewestAudit(audit, org), RecentLimit), users)
  }

  /** Every activity shown is an entry of the organization, and they come
      newest first. */
  lemma RecentActivityOrdered(audit: seq<AuditEntry>, users: seq<User>, org: OrgId)
    requires AuditLinked(audit, users, org)
    ensures var r := RecentActivity(audit, users, org);
            forall i :: 0 <= i < |r| ==> exists a :: a in audit && a.organizationId == org && r[i] == ToActivity(a, users)
    ensures var r := RecentActivity(audit, users, org);
            forall i, j :: 0 <= i < j < |r| ==> r[i].createdAt >= r[j].createdAt
  {
    var sorted := NewestAudit(audit, org);
    var shown := Take(sorted, RecentLimit);
    var r := RecentActivity(audit, users, org);
    forall i | 0 <= i < |r| ensures exists a :: a in audit && a.organizationId == org && r[i] == ToActivity(a, users) {
      assert shown[i] == sorted[i] && sorted[i] in sorted;
    }
    forall i, j | 0 <= i < j < |r| ensures r[i].createdAt >= r[j].createdAt {
      AscendingAt(sorted, AuditNewestFirst, i, j);
    }
  }

  /** No entry of the organization that is left out is newer than one
      shown: the ten shown are the newest. */
  lemma RecentActivityIsNewest(audit: seq<AuditEntry>, users: seq<User>, org: OrgId, a: AuditEntry)
    requires AuditLinked(audit, users, org)
    requires a in audit && a.organizationId == org
    ensures var r := RecentActivity(audit, users, org);
            (exists i :: 0 <= i < |r| && r[i] == ToActivity(a, users))
            || (forall i :: 0 <= i < |r| ==> a.createdAt <= r[i].createdAt)
  {
    var sorted := NewestAudit(audit, org);
    var shown := Take(sorted, RecentLimit);
    var r := RecentActivity(audit, users, org);
    var k :| 0 <= k < |sorted| && sorted[k] == a;
    if k < |r| {
      assert shown[k] == a;
      assert r[k] == ToActivity(a, users);
    } else {
      forall i | 0 <= i < |r| ensures a.createdAt <= r[i].createdAt {
        AscendingAt(sorted, AuditNewestFirst, i, k);
      }
    }
  }

  // ---------------------------------------------------------------------
  // The dashboard

  datatype RevenuePoint = RevenuePoint(period: string, revenue: real, deals: nat, commissions: real)

  datatype Dashboard = Dashboard(
    summary: KpiSummary,
    stageBreakdown: seq<StageRow>,
    revenueTrend: seq<RevenuePoint>,
    recentActivity: seq<Activity>)

  /** getDashboard: the summary, the breakdown, an always-empty revenue
      trend and the ten newest activities.  Its parts agree: the breakdown
      counts add up to the summary's total and its percentages to 100, and
      the conversion rate is a share in [0, 100]. */
  function GetDashboard(deals: seq<Deal>, ledger: seq<CommissionEntry>, users: seq<User>, audit: seq<AuditEntry>, org: OrgId): (r: Dashboard)
    requires AuditLinked(audit, users, org)
    ensures r.revenueTrend == []
    ensures |r.recentActivity| <= RecentLimit
    ensures SumCounts(r.stageBreakdown) == r.summary.totalDeals
    ensures r.summary.totalDeals > 0 ==> SumPercentages(r.stageBreakdown) == 100.0
    ensures 0.0 <= r.summary.conversionRate <= 100.0
  {
    BreakdownTotals(deals, org);
    ConversionBounds(deals, ledger, org);
    Dashboard(Summary(deals, ledger, org), Breakdown(deals, org), [], RecentActivity(audit, users, org))
  }
}
