/** DealsService (apps/api/src/modules/deals/deals.service.ts) as an object
    over the tables it reads and writes.  Every operation is proved to leave
    the tables as the corresponding function of `DealLifecycle` says, so the
    properties proved there hold of these methods. */
module Deals {
  import opened Common
  import opened Records
  import opened DealDto
  import opened Ordering
  import DealLifecycle

  class DealsService {
    /** The deal table, keyed by id. */
    var deals: map<DealId, Deal>
    /** The commission ledger, in insertion order. */
    var ledger: seq<CommissionEntry>
    /** Per organization, its users in the order the user table returns
        them; read by the commission step, never written here. */
    var members: map<OrgId, seq<UserId>>
    /** The next deal id to hand out. */
    var nextDealId: DealId

    function State(): DealLifecycle.DealStore
      reads this
    {
      DealLifecycle.DealStore(deals, ledger, members, nextDealId)
    }

    ghost predicate Valid()
      reads this
    {
      DealLifecycle.StoreValid(State())
    }

    constructor(members: map<OrgId, seq<UserId>>)
      ensures Valid()
      ensures State() == DealLifecycle.DealStore(map[], [], members, 0)
    {
      deals := map[];
      ledger := [];
      this.members := members;
      nextDealId := 0;
    }

    /** create: inserts the request as a new deal of `org`. */
    method Create(c: CreateDealRequest, org: OrgId, now: Time) returns (d: Deal)
      requires Valid()
      modifies this
      ensures Valid()
      ensures (d, State()) == DealLifecycle.CreateDeal(old(State()), c, org, now)
    {
      d := Deal(nextDealId, c.title, c.amount, c.stage, c.commissionRate, c.closeDate, c.description, org, now, now);
      deals := deals[d.id := d];
      nextDealId := nextDealId + 1;
    }

    /** findAll: the deals of `org` that pass the filters, each once,
        newest first. */
    method FindAll(org: OrgId, f: DealFilters) returns (r: seq<Deal>)
      requires Valid()
      ensures forall i :: 0 <= i < |r| ==> r[i].id in deals && deals[r[i].id] == r[i]
                                            && DealLifecycle.DealMatches(r[i], org, f)
      ensures forall id :: id in deals && DealLifecycle.DealMatches(deals[id], org, f) ==>
                exists i :: 0 <= i < |r| && r[i].id == id
      ensures forall i, j :: 0 <= i < j < |r| ==> r[i].id != r[j].id
      ensures forall i, j :: 0 <= i < j < |r| ==> r[i].createdAt >= r[j].createdAt
    {
      var ks := SelectOrdered(deals, d => DealLifecycle.DealMatches(d, org, f), (d: Deal) => -d.createdAt);
      r := [];
      for i := 0 to |ks|
        invariant |r| == i
        invariant forall j :: 0 <= j < i ==> r[j] == deals[ks[j]] && r[j].id == ks[j]
      {
        r := r + [deals[ks[i]]];
      }
      forall id | id in deals && DealLifecycle.DealMatches(deals[id], org, f)
        ensures exists i :: 0 <= i < |r| && r[i].id == id
      {
        var i :| 0 <= i < |ks| && ks[i] == id;
        assert r[i].id == id;
      }
    }

    /** findOne: the deal with the sum of its ledger entries, folded in
        ledger order. */
    method FindOne(id: DealId, org: OrgId) returns (r: Result<DealWithCommission>)
      ensures r == DealLifecycle.FindOne(State(), id, org)
    {
      if !(id in deals && deals[id].organizationId == org) {
        return Err(DealLifecycle.DealNotFound);
      }
      var deal := deals[id];
      var sum := 0.0;
      for i := 0 to |ledger|
        invariant sum == DealLifecycle.CommissionTotal(ledger[..i], id)
      {
        assert ledger[..i + 1][..i] == ledger[..i];
        if ledger[i].dealId == id {
          sum := sum + ledger[i].amount;
        }
      }
      assert ledger[..|ledger|] == ledger;
      r := Ok(DealWithCommission(deal, sum, deal.stage == Closed));
    }

    /** update: tenant-scoped lookup, then every field of the patch written. */
    method Update(id: DealId, p: DealPatch, org: OrgId, now: Time) returns (r: Result<Deal>)
      requires Valid()
      modifies this
      ensures Valid()
      ensures (r, State()) == DealLifecycle.UpdateDeal(old(State()), id, p, org, now)
    {
      if !(id in deals && deals[id].organizationId == org) {
        return Err(DealLifecycle.DealNotFound);
      }
      var updated := DealLifecycle.ApplyPatch(deals[id], p, now);
      deals := deals[id := updated];
      r := Ok(updated);
    }

    /** changeStage: lookup, transition check, close date, write, and on
        CLOSED the commission row. */
    method ChangeStage(id: DealId, change: StageChange, org: OrgId, now: Time) returns (r: Result<Deal>)
      requires Valid()
      modifies this
      ensures Valid()
      ensures (r, State()) == DealLifecycle.ChangeStage(old(State()), id, change, org, now)
    {
      ghost var before := State();
      if !(id in deals && deals[id].organizationId == org) {
        return Err(DealLifecycle.DealNotFound);
      }
      var deal := deals[id];
      var check := DealLifecycle.ValidateStageTransition(deal.stage, change.stage);
      if check.Fail? {
        return Err(check.error);
      }
      var closeDate := deal.closeDate;
      if change.stage == Closed && change.closeDate.None? {
        closeDate := Some(now);
      } else if change.closeDate.Some? {
        closeDate := change.closeDate;
      }
      assert closeDate == DealLifecycle.NextCloseDate(deal.closeDate, change, now);
      var updated := deal.(stage := change.stage, closeDate := closeDate, updatedAt := now);
      deals := deals[id := updated];
      if change.stage == Closed {
        CalculateCommission(updated, now);
      }
      r := Ok(updated);
      assert check == Pass;
      assert ledger == before.ledger + (if change.stage == Closed then DealLifecycle.CommissionEntries(updated, before.members, |before.ledger|, now) else []);
      assert State() == before.(deals := before.deals[id := updated], ledger := ledger);
    }

    /** calculateCommission: credits the organization's first user, if it
        has one, with amount * rate / 100. */
    method CalculateCommission(deal: Deal, now: Time)
      modifies this`ledger
      ensures ledger == old(ledger) + DealLifecycle.CommissionEntries(deal, members, |old(ledger)|, now)
    {
      var amount := DealLifecycle.CommissionAmount(deal.amount, deal.commissionRate);
      if deal.organizationId in members && |members[deal.organizationId]| > 0 {
        var user := members[deal.organizationId][0];
        ledger := ledger + [CommissionEntry(|ledger|, deal.id, user, amount, now)];
      }
    }

    /** remove: tenant-scoped lookup, then the row deleted. */
    method Remove(id: DealId, org: OrgId) returns (r: Result<()>)
      requires Valid()
      modifies this
      ensures Valid()
      ensures (r, State()) == DealLifecycle.RemoveDeal(old(State()), id, org)
    {
      if !(id in deals && deals[id].organizationId == org) {
        return Err(DealLifecycle.DealNotFound);
      }
      deals := deals - {id};
      r := Ok(());
    }
  }
}
