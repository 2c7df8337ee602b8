/** The deal lifecycle and commission engine
    (apps/api/src/modules/deals/deals.service.ts), stated on values: the
    stage machine, the commission formula, and each service operation as a
    function from the store before to the result and the store after.
    The `Deals.DealsService` class runs these operations in place and is
    proved to agree with the functions here; the lemmas below state what
    the operations promise. */
module DealLifecycle {
  import opened Common
  import opened Records
  import opened DealDto

  // ---------------------------------------------------------------------
  // Stage machine

  /** The pipeline's edges: PROSPECT -> ACTIVE | LOST, ACTIVE -> CLOSED | LOST.
      CLOSED and LOST have no way out. */
  predicate Edge(from: DealStage, to: DealStage) {
    || (from == Prospect && (to == Active || to == Lost))
    || (from == Active && (to == Closed || to == Lost))
  }

  /** The table `validTransitions`: allowed targets per current stage. */
  function AllowedTargets(from: DealStage): seq<DealStage> {
    match from
    case Prospect => [Active, Lost]
    case Active => [Closed, Lost]
    case Closed => []
    case Lost => []
  }

  function TransitionError(from: DealStage, to: DealStage): Error {
    BadRequest("Invalid stage transition from " + StageName(from) + " to " + StageName(to))
  }

  /** validateStageTransition: passes exactly on the pipeline's edges;
      otherwise a 400 naming both stages. */
  function ValidateStageTransition(from: DealStage, to: DealStage): (r: Outcome)
    ensures r == Pass <==> Edge(from, to)
    ensures r.Fail? ==> r.error == TransitionError(from, to)
  {
    if to in AllowedTargets(from) then Pass else Fail(TransitionError(from, to))
  }

  /** Position in the pipeline; every edge goes strictly forward. */
  function Rank(s: DealStage): nat {
    match s
    case Prospect => 0
    case Active => 1
    case Closed => 2
    case Lost => 2
  }

  predicate Terminal(s: DealStage) {
    s == Closed || s == Lost
  }

  /** No self-transition is allowed, the terminal stages reject every
      target, CLOSED is entered only from ACTIVE, and every edge moves
      forward, so no stage is entered twice. */
  lemma StageMachineShape(from: DealStage, to: DealStage)
    ensures ValidateStageTransition(from, from).Fail?
    ensures Terminal(from) ==> ValidateStageTransition(from, to).Fail?
    ensures ValidateStageTransition(from, Closed) == Pass <==> from == Active
    ensures ValidateStageTransition(from, to) == Pass ==> Rank(from) < Rank(to)
    ensures ValidateStageTransition(from, to) == Pass <==> to in AllowedTargets(from)
  {
  }

  // ---------------------------------------------------------------------
  // Commission formula

  /** `(amount * commissionRate) / 100`, exact. */
  function CommissionAmount(amount: real, rate: real): (c: real)
    ensures amount >= 0.0 && RateOk(rate) ==> 0.0 <= c <= amount
  {
    var c := amount * rate / 100.0;
    assert amount >= 0.0 && RateOk(rate) ==> 0.0 <= c <= amount by {
      if amount >= 0.0 && RateOk(rate) {
        assert c == amount * (rate / 100.0);
        assert 0.0 <= rate / 100.0 <= 1.0;
        assert amount * (rate / 100.0) <= amount * 1.0;
      }
    }
    c
  }

  lemma CommissionExamples()
    ensures CommissionAmount(50000.0, 15.0) == 7500.0
    ensures CommissionAmount(10000.0, 20.0) == 2000.0
  {
  }

  // ---------------------------------------------------------------------
  // The store

  /** The rows the engine reads and writes: the deal table keyed by id,
      the commission ledger in insertion order, and, per organization, its
      users in the order the database returns them. */
  datatype DealStore = DealStore(
    deals: map<DealId, Deal>,
    ledger: seq<CommissionEntry>,
    members: map<OrgId, seq<UserId>>,
    nextDealId: DealId)

  /** Each deal is filed under its own id; ids come from a counter that
      is ahead of every id in use, and ledger entries are numbered by
      position. */
  ghost predicate StoreValid(s: DealStore) {
    && (forall id :: id in s.deals ==> s.deals[id].id == id && id < s.nextDealId)
    && (forall i :: 0 <= i < |s.ledger| ==> s.ledger[i].id == i && s.ledger[i].dealId < s.nextDealId)
  }

  /** `findFirst({ where: { id, organizationId } })` finds the deal. */
  predicate Owns(s: DealStore, id: DealId, org: OrgId) {
    id in s.deals && s.deals[id].organizationId == org
  }

  const DealNotFound := NotFound("Deal not found")

  // ---------------------------------------------------------------------
  // Ledger folds

  /** `deal.commissions.reduce((sum, c) => sum + c.amount, 0)`: the sum of
      the amounts of the entries of one deal, folded from the left. */
  function CommissionTotal(ledger: seq<CommissionEntry>, id: DealId): real {
    if ledger == [] then 0.0
    else
      var last := ledger[|ledger| - 1];
      CommissionTotal(ledger[..|ledger| - 1], id) + (if last.dealId == id then last.amount else 0.0)
  }

  /** The number of entries of one deal. */
  function EntryCount(ledger: seq<CommissionEntry>, id: DealId): nat {
    if ledger == [] then 0
    else
      var last := ledger[|ledger| - 1];
      EntryCount(ledger[..|ledger| - 1], id) + (if last.dealId == id then 1 else 0)
  }

  lemma {:induction false} LedgerAppend(ledger: seq<CommissionEntry>, more: seq<CommissionEntry>, id: DealId)
    requires forall e :: e in more ==> e.dealId != id
    ensures CommissionTotal(ledger + more, id) == CommissionTotal(ledger, id)
    ensures EntryCount(ledger + more, id) == EntryCount(ledger, id)
  {
    if more == [] {
      assert ledger + more == ledger;
    } else {
      var n := |more| - 1;
      var all := ledger + more;
      assert more[n] in more;
      assert all[|all| - 1] == more[n];
      assert all[..|all| - 1] == ledger + more[..n];
      LedgerAppend(ledger, more[..n], id);
    }
  }

  lemma LedgerAppendOne(ledger: seq<CommissionEntry>, e: CommissionEntry, id: DealId)
    ensures CommissionTotal(ledger + [e], id) == CommissionTotal(ledger, id) + (if e.dealId == id then e.amount else 0.0)
    ensures EntryCount(ledger + [e], id) == EntryCount(ledger, id) + (if e.dealId == id then 1 else 0)
  {
    assert (ledger + [e])[..|ledger|] == ledger;
  }

  /** A deal with no entries has a total of 0. */
  lemma {:induction false} NoEntriesNoCommission(ledger: seq<CommissionEntry>, id: DealId)
    requires forall i :: 0 <= i < |ledger| ==> ledger[i].dealId != id
    ensures CommissionTotal(ledger, id) == 0.0 && EntryCount(ledger, id) == 0
  {
    if ledger != [] {
      NoEntriesNoCommission(ledger[..|ledger| - 1], id);
    }
  }

  // ---------------------------------------------------------------------
  // Operations

  /** create: stores the request as a new deal of `org`, in whatever stage
      the request names, and writes no commission. */
  function CreateDeal(s: DealStore, c: CreateDealRequest, org: OrgId, now: Time): (r: (Deal, DealStore))
    ensures StoreValid(s) ==> StoreValid(r.1) && r.0.id !in s.deals
    ensures r.1.deals == s.deals[r.0.id := r.0] && r.1.ledger == s.ledger && r.1.members == s.members
    ensures r.0.organizationId == org && r.0.stage == c.stage && r.0.title == c.title
            && r.0.amount == c.amount && r.0.commissionRate == c.commissionRate
            && r.0.closeDate == c.closeDate && r.0.description == c.description
            && r.0.createdAt == now && r.0.updatedAt == now
  {
    var d := Deal(s.nextDealId, c.title, c.amount, c.stage, c.commissionRate, c.closeDate, c.description, org, now, now);
    (d, s.(deals := s.deals[d.id := d], nextDealId := s.nextDealId + 1))
  }

  /** A field update: each field the patch names overwrites the stored
      one, the stage included. */
  function ApplyPatch(d: Deal, p: DealPatch, now: Time): (r: Deal)
    ensures r.id == d.id && r.organizationId == d.organizationId && r.createdAt == d.createdAt
    ensures r.updatedAt == now
    ensures r.title == (if p.title.Some? then p.title.value else d.title)
    ensures r.amount == (if p.amount.Some? then p.amount.value else d.amount)
    ensures r.stage == (if p.stage.Some? then p.stage.value else d.stage)
    ensures r.commissionRate == (if p.commissionRate.Some? then p.commissionRate.value else d.commissionRate)
    ensures r.closeDate == (if p.closeDate.Some? then p.closeDate else d.closeDate)
    ensures r.description == (if p.description.Some? then p.description else d.description)
  {
    d.(title := p.title.GetOr(d.title),
       amount := p.amount.GetOr(d.amount),
       stage := p.stage.GetOr(d.stage),
       commissionRate := p.commissionRate.GetOr(d.commissionRate),
       closeDate := if p.closeDate.Some? then p.closeDate else d.closeDate,
       description := if p.description.Some? then p.description else d.description,
       updatedAt := now)
  }

  /** update: a tenant-scoped lookup, then the patch written as is.  No
      stage rule applies and no commission is written. */
  function UpdateDeal(s: DealStore, id: DealId, p: DealPatch, org: OrgId, now: Time): (r: (Result<Deal>, DealStore))
    ensures r.0.Err? <==> !Owns(s, id, org)
    ensures r.0.Err? ==> r.0.error == DealNotFound && r.1 == s
    ensures r.0.Ok? ==> r.1.deals == s.deals[id := r.0.value] && r.0.value.organizationId == org
    ensures r.1.ledger == s.ledger && r.1.members == s.members
    ensures StoreValid(s) ==> StoreValid(r.1)
  {
    if !Owns(s, id, org) then (Err(DealNotFound), s)
    else
      var updated := ApplyPatch(s.deals[id], p, now);
      (Ok(updated), s.(deals := s.deals[id := updated]))
  }

  /** remove: a tenant-scoped lookup, then the row deleted.  Ledger rows
      are not touched. */
  function RemoveDeal(s: DealStore, id: DealId, org: OrgId): (r: (Result<()>, DealStore))
    ensures r.0.Err? <==> !Owns(s, id, org)
    ensures r.0.Err? ==> r.0.error == DealNotFound && r.1 == s
    ensures r.0.Ok? ==> r.1.deals == s.deals - {id} && id !in r.1.deals
    ensures r.1.ledger == s.ledger && r.1.members == s.members
    ensures StoreValid(s) ==> StoreValid(r.1)
  {
    if !Owns(s, id, org) then (Err(DealNotFound), s)
    else (Ok(()), s.(deals := s.deals - {id}))
  }

  /** findOne: the deal, the total of its ledger entries, and whether it is
      closed. */
  function FindOne(s: DealStore, id: DealId, org: OrgId): (r: Result<DealWithCommission>)
    ensures r.Ok? <==> Owns(s, id, org)
    ensures r.Err? ==> r.error == DealNotFound
    ensures r.Ok? ==> r.value.deal == s.deals[id]
    ensures r.Ok? ==> (r.value.isClosed <==> s.deals[id].stage == Closed)
    ensures r.Ok? ==> r.value.commissionAmount == CommissionTotal(s.ledger, id)
  {
    if !Owns(s, id, org) then Err(DealNotFound)
    else
      var deal := s.deals[id];
      Ok(DealWithCommission(deal, CommissionTotal(s.ledger, id), deal.stage == Closed))
  }

  /** The close-date rule of changeStage. */
  function NextCloseDate(current: Option<Time>, change: StageChange, now: Time): (r: Option<Time>)
    ensures change.closeDate.Some? ==> r == change.closeDate
    ensures change.stage == Closed && change.closeDate.None? ==> r == Some(now)
    ensures change.stage != Closed && change.closeDate.None? ==> r == current
  {
    if change.stage == Closed && change.closeDate.None? then Some(now)
    else if change.closeDate.Some? then change.closeDate
    else current
  }

  /** The user that commissions are credited to: the first user the
      database returns for the organization, if there is one. */
  function FirstMember(members: map<OrgId, seq<UserId>>, org: OrgId): Option<UserId> {
    if org in members && |members[org]| > 0 then Some(members[org][0]) else None
  }

  /** calculateCommission: the ledger rows written for a deal that has
      just closed: one, or none when its organization has no user. */
  function CommissionEntries(d: Deal, members: map<OrgId, seq<UserId>>, entryId: EntryId, now: Time): (es: seq<CommissionEntry>)
    ensures |es| == (if FirstMember(members, d.organizationId).Some? then 1 else 0)
    ensures forall e :: e in es ==> e.dealId == d.id && e.id == entryId
  {
    match FirstMember(members, d.organizationId)
    case None => []
    case Some(user) => [CommissionEntry(entryId, d.id, user, CommissionAmount(d.amount, d.commissionRate), now)]
  }

  /** changeStage: a tenant-scoped lookup, the transition check, the
      close-date rule, the write, and on entry to CLOSED the commission
      row. */
  function ChangeStage(s: DealStore, id: DealId, change: StageChange, org: OrgId, now: Time): (r: (Result<Deal>, DealStore))
    ensures r.0.Err? ==> r.1 == s
    ensures r.1.members == s.members && r.1.nextDealId == s.nextDealId
    ensures StoreValid(s) ==> StoreValid(r.1)
  {
    if !Owns(s, id, org) then (Err(DealNotFound), s)
    else
      var deal := s.deals[id];
      match ValidateStageTransition(deal.stage, change.stage)
      case Fail(e) => (Err(e), s)
      case Pass =>
        var updated := deal.(stage := change.stage, closeDate := NextCloseDate(deal.closeDate, change, now), updatedAt := now);
        var appended := if change.stage == Closed then CommissionEntries(updated, s.members, |s.ledger|, now) else [];
        (Ok(updated), s.(deals := s.deals[id := updated], ledger := s.ledger + appended))
  }

  // ---------------------------------------------------------------------
  // What changeStage promises

  /** A deal that is missing, or that belongs to another organization, is
      reported as not found and nothing is written. */
  lemma ChangeStageTenantIsolation(s: DealStore, id: DealId, change: StageChange, org: OrgId, now: Time)
    requires !Owns(s, id, org)
    ensures ChangeStage(s, id, change, org, now) == (Err(DealNotFound), s)
  {
  }

  /** An edge the pipeline lacks is rejected with a message naming both
      stages, before anything is written. */
  lemma ChangeStageRejectsInvalid(s: DealStore, id: DealId, change: StageChange, org: OrgId, now: Time)
    requires Owns(s, id, org) && !Edge(s.deals[id].stage, change.stage)
    ensures ChangeStage(s, id, change, org, now)
            == (Err(BadRequest("Invalid stage transition from " + StageName(s.deals[id].stage)
                               + " to " + StageName(change.stage))), s)
  {
  }

  /** A permitted move rewrites only the target deal, and of it only the
      stage, the close date and the update time. */
  lemma ChangeStageWritesOnlyTarget(s: DealStore, id: DealId, change: StageChange, org: OrgId, now: Time)
    requires Owns(s, id, org) && Edge(s.deals[id].stage, change.stage)
    ensures var (r, s') := ChangeStage(s, id, change, org, now);
            var d := s.deals[id];
            && r.Ok? && r.value.stage == change.stage && r.value.updatedAt == now
            && r.value == d.(stage := r.value.stage, closeDate := r.value.closeDate, updatedAt := now)
            && s'.deals.Keys == s.deals.Keys && s'.deals[id] == r.value
            && (forall k :: k in s.deals && k != id ==> s'.deals[k] == s.deals[k])
  {
  }

  /** The close-date rule: moving to CLOSED without a date stamps `now`;
      a supplied date is stored whatever the target; otherwise the stored
      date stays. */
  lemma ChangeStageCloseDate(s: DealStore, id: DealId, change: StageChange, org: OrgId, now: Time)
    requires Owns(s, id, org) && Edge(s.deals[id].stage, change.stage)
    ensures var r := ChangeStage(s, id, change, org, now).0;
            && r.Ok?
            && (change.stage == Closed && change.closeDate.None? ==> r.value.closeDate == Some(now))
            && (change.closeDate.Some? ==> r.value.closeDate == change.closeDate)
            && (change.stage != Closed && change.closeDate.None? ==> r.value.closeDate == s.deals[id].closeDate)
  {
  }

  /** Entering CLOSED appends exactly one ledger row, crediting the
      organization's first user with amount * rate / 100 (none when the
      organization has no user); moves to ACTIVE or LOST append nothing. */
  lemma ChangeStageCommission(s: DealStore, id: DealId, change: StageChange, org: OrgId, now: Time)
    requires Owns(s, id, org) && Edge(s.deals[id].stage, change.stage)
    ensures change.stage != Closed ==> ChangeStage(s, id, change, org, now).1.ledger == s.ledger
    ensures change.stage == Closed && FirstMember(s.members, org).None? ==> ChangeStage(s, id, change, org, now).1.ledger == s.ledger
    ensures change.stage == Closed && FirstMember(s.members, org).Some? ==>
              ChangeStage(s, id, change, org, now).1.ledger
              == s.ledger + [CommissionEntry(|s.ledger|, s.deals[id].id, FirstMember(s.members, org).value,
                                             s.deals[id].amount * s.deals[id].commissionRate / 100.0, now)]
  {
    var d := s.deals[id];
    if change.stage == Closed && FirstMember(s.members, org).Some? {
      var updated := d.(stage := Closed, closeDate := NextCloseDate(d.closeDate, change, now), updatedAt := now);
      assert ChangeStage(s, id, change, org, now).1.ledger == s.ledger + CommissionEntries(updated, s.members, |s.ledger|, now);
      assert CommissionEntries(updated, s.members, |s.ledger|, now)
             == [CommissionEntry(|s.ledger|, d.id, FirstMember(s.members, org).value, CommissionAmount(d.amount, d.commissionRate), now)];
      assert CommissionAmount(d.amount, d.commissionRate) == d.amount * d.commissionRate / 100.0;
      var e1 := CommissionEntry(|s.ledger|, d.id, FirstMember(s.members, org).value, CommissionAmount(d.amount, d.commissionRate), now);
      var e2 := CommissionEntry(|s.ledger|, s.deals[id].id, FirstMember(s.members, org).value, s.deals[id].amount * s.deals[id].commissionRate / 100.0, now);
      assert e1 == e2;
      assert [e1] == [e2];
    }
  }

  /** After a deal closes, its findOne total has grown by its commission
      (when its organization has a user) and it reports itself closed. */
  lemma {:induction false} CloseRaisesCommissionTotal(s: DealStore, id: DealId, change: StageChange, org: OrgId, now: Time)
    requires StoreValid(s) && Owns(s, id, org)
    requires s.deals[id].stage == Active && change.stage == Closed
    ensures var s' := ChangeStage(s, id, change, org, now).1;
            var d := s.deals[id];
            && FindOne(s', id, org).Ok? && FindOne(s', id, org).value.isClosed
            && FindOne(s', id, org).value.commissionAmount
               == FindOne(s, id, org).value.commissionAmount
                  + (if FirstMember(s.members, org).Some? then CommissionAmount(d.amount, d.commissionRate) else 0.0)
  {
    var d := s.deals[id];
    var updated := d.(stage := Closed, closeDate := NextCloseDate(d.closeDate, change, now), updatedAt := now);
    var appended := CommissionEntries(updated, s.members, |s.ledger|, now);
    if appended == [] {
      assert s.ledger + appended == s.ledger;
    } else {
      assert appended == [appended[0]];
      LedgerAppendOne(s.ledger, appended[0], id);
    }
  }

  // ---------------------------------------------------------------------
  // At most one commission per deal

  /** One stage-change request as the endpoint receives it. */
  datatype StageRequest = StageRequest(id: DealId, change: StageChange, org: OrgId, now: Time)

  /** A sequence of stage-change requests served one after the other. */
  function RunStageChanges(s: DealStore, reqs: seq<StageRequest>): DealStore
    decreases |reqs|
  {
    if reqs == [] then s
    else
      var q := reqs[0];
      RunStageChanges(ChangeStage(s, q.id, q.change, q.org, q.now).1, reqs[1..])
  }

  /** 1 while the deal can still reach CLOSED, else 0. */
  function Open(s: DealStore, id: DealId): nat {
    if id in s.deals && !Terminal(s.deals[id].stage) then 1 else 0
  }

  lemma StepKeepsBudget(s: DealStore, q: StageRequest, id: DealId)
    requires StoreValid(s)
    ensures var s' := ChangeStage(s, q.id, q.change, q.org, q.now).1;
            EntryCount(s'.ledger, id) + Open(s', id) <= EntryCount(s.ledger, id) + Open(s, id)
  {
    var (r, s') := ChangeStage(s, q.id, q.change, q.org, q.now);
    if r.Ok? {
      var d := s.deals[q.id];
      var updated := d.(stage := q.change.stage, closeDate := NextCloseDate(d.closeDate, q.change, q.now), updatedAt := q.now);
      var appended := if q.change.stage == Closed then CommissionEntries(updated, s.members, |s.ledger|, q.now) else [];
      assert s'.ledger == s.ledger + appended;
      assert forall e :: e in appended ==> e.dealId == q.id;
      if q.id != id {
        LedgerAppend(s.ledger, appended, id);
        assert Open(s', id) == Open(s, id);
      } else if appended == [] {
        assert s'.ledger == s.ledger;
      } else {
        assert Edge(d.stage, Closed) && d.stage == Active;
        assert Open(s, id) == 1 && Open(s', id) == 0;
        assert appended == [appended[0]];
        LedgerAppendOne(s.ledger, appended[0], id);
      }
    }
  }

  /** However many stage changes are requested, each deal gets at most one
      commission row from them, and none once it is CLOSED or LOST. */
  lemma {:induction false} AtMostOneCommission(s: DealStore, reqs: seq<StageRequest>, id: DealId)
    requires StoreValid(s)
    ensures EntryCount(RunStageChanges(s, reqs).ledger, id) <= EntryCount(s.ledger, id) + Open(s, id)
    decreases |reqs|
  {
    if reqs != [] {
      var q := reqs[0];
      var s' := ChangeStage(s, q.id, q.change, q.org, q.now).1;
      StepKeepsBudget(s, q, id);
      AtMostOneCommission(s', reqs[1..], id);
    }
  }

  // ---------------------------------------------------------------------
  // create and update go around the stage machine

  /** A deal can be created directly in CLOSED: no commission row is
      written and no close date is stamped. */
  lemma CreateBypassesMachine(s: DealStore, c: CreateDealRequest, org: OrgId, now: Time)
    requires c.stage == Closed && c.closeDate.None?
    ensures var (d, s') := CreateDeal(s, c, org, now);
            d.stage == Closed && d.closeDate.None? && s'.ledger == s.ledger
  {
  }

  /** An update may move a PROSPECT deal straight to CLOSED, an edge the
      stage machine forbids, and writes no commission row. */
  lemma UpdateBypassesMachine(s: DealStore, id: DealId, org: OrgId, now: Time)
    requires Owns(s, id, org) && s.deals[id].stage == Prospect
    ensures var (r, s') := UpdateDeal(s, id, DealPatch(None, None, Some(Closed), None, None, None), org, now);
            && !Edge(Prospect, Closed)
            && r.Ok? && r.value.stage == Closed && s'.ledger == s.ledger
  {
  }

  /** The at-most-one bound holds for changeStage alone: update may reopen
      a CLOSED deal, and closing it again credits a second entry. */
  lemma ReopenThenCloseCreditsTwice(s: DealStore, id: DealId, org: OrgId, t1: Time, t2: Time,
                                    r1: Result<Deal>, s1: DealStore, r2: Result<Deal>, s2: DealStore)
    requires Owns(s, id, org) && s.deals[id].id == id && s.deals[id].stage == Closed && FirstMember(s.members, org).Some?
    requires 0 <= |s.ledger| - 1 && s.ledger[|s.ledger| - 1].dealId == id
    requires (r1, s1) == UpdateDeal(s, id, DealPatch(None, None, Some(Active), None, None, None), org, t1)
    requires (r2, s2) == ChangeStage(s1, id, StageChange(Closed, None), org, t2)
    ensures r1.Ok? && r2.Ok? && r2.value.stage == Closed
    ensures |s2.ledger| == |s.ledger| + 1 && s2.ledger[..|s.ledger|] == s.ledger
    ensures s2.ledger[|s.ledger| - 1].dealId == id && s2.ledger[|s.ledger|].dealId == id
  {
    assert Owns(s1, id, org) && s1.deals[id].stage == Active;
    MoveOutcome(s1, id, StageChange(Closed, None), org, t2, r2, s2);
    assert r2.value.id == id;
    assert |CommissionEntries(r2.value, s1.members, |s1.ledger|, t2)| == 1;
    assert s2.ledger[|s.ledger|] == CommissionEntries(r2.value, s1.members, |s1.ledger|, t2)[0];
  }

  // ---------------------------------------------------------------------
  // The end-to-end scenario

  /** The create body of the scenario: title and amount, a 20% rate, the
      stage left to its default. */
  const ScenarioBody := CreateDealBody(Some("Acme renewal"), Some(10000.0), None, Some(20.0), None, None)

  lemma ScenarioRequest()
    ensures ParseCreateDeal(ScenarioBody) == Ok(CreateDealRequest("Acme renewal", 10000.0, Prospect, 20.0, None, None))
  {
    ShortTitleOk("Acme renewal");
  }

  /** A successful move of a deal of `org`, written out: the deal's new
      stage, close date and update time, the ledger after it, and nothing
      else changed. */
  lemma MoveOutcome(s: DealStore, id: DealId, change: StageChange, org: OrgId, now: Time, r: Result<Deal>, s': DealStore)
    requires Owns(s, id, org) && Edge(s.deals[id].stage, change.stage)
    requires (r, s') == ChangeStage(s, id, change, org, now)
    ensures r.Ok? && r.value == s.deals[id].(stage := change.stage, closeDate := NextCloseDate(s.deals[id].closeDate, change, now), updatedAt := now)
    ensures s'.deals == s.deals[id := r.value] && s'.members == s.members && s'.nextDealId == s.nextDealId
    ensures s'.ledger == s.ledger + (if change.stage == Closed then CommissionEntries(r.value, s.members, |s.ledger|, now) else [])
  {
  }

  /** Closing the scenario deal from ACTIVE: close date stamped, one row
      of 2000 for the first user, findOne reporting 2000 and closed. */
  lemma ScenarioClose(s: DealStore, id: DealId, org: OrgId, user: UserId, t: Time, r: Result<Deal>, s': DealStore)
    requires Owns(s, id, org) && s.deals[id].id == id && s.deals[id].stage == Active && s.deals[id].closeDate.None?
    requires s.deals[id].amount == 10000.0 && s.deals[id].commissionRate == 20.0
    requires FirstMember(s.members, org) == Some(user)
    requires forall i :: 0 <= i < |s.ledger| ==> s.ledger[i].dealId != id
    requires (r, s') == ChangeStage(s, id, StageChange(Closed, None), org, t)
    ensures r.Ok? && r.value.stage == Closed && r.value.closeDate == Some(t)
    ensures s'.ledger == s.ledger + [CommissionEntry(|s.ledger|, id, user, 2000.0, t)]
    ensures FindOne(s', id, org) == Ok(DealWithCommission(r.value, 2000.0, true))
  {
    MoveOutcome(s, id, StageChange(Closed, None), org, t, r, s');
    var e := CommissionEntry(|s.ledger|, id, user, 2000.0, t);
    assert CommissionAmount(r.value.amount, r.value.commissionRate) == 2000.0;
    assert CommissionEntries(r.value, s.members, |s.ledger|, t) == [e];
    NoEntriesNoCommission(s.ledger, id);
    LedgerAppendOne(s.ledger, e, id);
    assert Owns(s', id, org) && s'.deals[id] == r.value;
  }

  /** Creating the scenario deal: PROSPECT, 10000 at 20%, no close date,
      a fresh id with no ledger rows. */
  lemma ScenarioCreated(s: DealStore, org: OrgId, t: Time, d: Deal, s': DealStore)
    requires StoreValid(s)
    requires ParseCreateDeal(ScenarioBody).Ok? && (d, s') == CreateDeal(s, ParseCreateDeal(ScenarioBody).value, org, t)
    ensures d.stage == Prospect && d.amount == 10000.0 && d.commissionRate == 20.0 && d.closeDate.None?
    ensures Owns(s', d.id, org) && s'.deals[d.id] == d
    ensures s'.ledger == s.ledger && s'.members == s.members
    ensures forall i :: 0 <= i < |s.ledger| ==> s.ledger[i].dealId != d.id
  {
    ScenarioRequest();
  }

  /** Moving a PROSPECT deal without a close date to ACTIVE writes the
      stage and nothing to the ledger. */
  lemma ScenarioActivate(s: DealStore, id: DealId, org: OrgId, t: Time, r: Result<Deal>, s': DealStore)
    requires Owns(s, id, org) && s.deals[id].stage == Prospect
    requires (r, s') == ChangeStage(s, id, StageChange(Active, None), org, t)
    ensures r.Ok? && r.value == s.deals[id].(stage := Active, updatedAt := t)
    ensures Owns(s', id, org) && s'.deals[id] == r.value
    ensures s'.ledger == s.ledger && s'.members == s.members
  {
    MoveOutcome(s, id, StageChange(Active, None), org, t, r, s');
  }

  /** A CLOSED deal cannot be moved to LOST; the error names both stages. */
  lemma ScenarioLost(s: DealStore, id: DealId, org: OrgId, t: Time, r: Result<Deal>, s': DealStore)
    requires Owns(s, id, org) && s.deals[id].stage == Closed
    requires (r, s') == ChangeStage(s, id, StageChange(Lost, None), org, t)
    ensures r == Err(BadRequest("Invalid stage transition from CLOSED to LOST")) && s' == s
  {
    ChangeStageRejectsInvalid(s, id, StageChange(Lost, None), org, t);
    assert TransitionError(Closed, Lost) == BadRequest("Invalid stage transition from CLOSED to LOST");
  }

  /** Create the scenario deal (it starts in PROSPECT), move it to ACTIVE
      (no ledger row), then to CLOSED (close date stamped, one row of 2000
      for the organization's first user, findOne reports 2000 and closed),
      then try LOST (rejected with the stages named, nothing written). */
  lemma {:induction false} EndToEnd(s: DealStore, org: OrgId, user: UserId, t0: Time, t1: Time, t2: Time, t3: Time,
                                    d: Deal, s1: DealStore, r2: Result<Deal>, s2: DealStore,
                                    r3: Result<Deal>, s3: DealStore, r4: Result<Deal>, s4: DealStore)
    requires StoreValid(s) && FirstMember(s.members, org) == Some(user)
    requires ParseCreateDeal(ScenarioBody).Ok? && (d, s1) == CreateDeal(s, ParseCreateDeal(ScenarioBody).value, org, t0)
    requires (r2, s2) == ChangeStage(s1, d.id, StageChange(Active, None), org, t1)
    requires (r3, s3) == ChangeStage(s2, d.id, StageChange(Closed, None), org, t2)
    requires (r4, s4) == ChangeStage(s3, d.id, StageChange(Lost, None), org, t3)
    ensures d.stage == Prospect && d.amount == 10000.0 && d.commissionRate == 20.0
    ensures r2.Ok? && r2.value.stage == Active && s2.ledger == s.ledger
    ensures r3.Ok? && r3.value.stage == Closed && r3.value.closeDate == Some(t2)
    ensures s3.ledger == s.ledger + [CommissionEntry(|s.ledger|, d.id, user, 2000.0, t2)]
    ensures FindOne(s3, d.id, org) == Ok(DealWithCommission(r3.value, 2000.0, true))
    ensures r4 == Err(BadRequest("Invalid stage transition from CLOSED to LOST")) && s4 == s3
  {
    ScenarioCreated(s, org, t0, d, s1);
    ScenarioActivate(s1, d.id, org, t1, r2, s2);
    ScenarioClose(s2, d.id, org, user, t2, r3, s3);
    ScenarioLost(s3, d.id, org, t3, r4, s4);
  }

  // ---------------------------------------------------------------------
  // findAll

  /** JavaScript truthiness of an optional number: absent and 0 are both
      false. */
  predicate Truthy(v: Option<real>) {
    v.Some? && v.value != 0.0
  }

  /** The `where` object of findAll: the organization, then each filter
      only when it is truthy. */
  predicate DealMatches(d: Deal, org: OrgId, f: DealFilters)
    ensures DealMatches(d, org, f) ==> d.organizationId == org
    ensures f == NoFilters ==> (DealMatches(d, org, f) <==> d.organizationId == org)
    ensures f.stage.Some? && DealMatches(d, org, f) ==> d.stage == f.stage.value
    ensures f.minAmount.Some? && f.minAmount.value != 0.0 && DealMatches(d, org, f) ==> d.amount >= f.minAmount.value
    ensures f.maxAmount.Some? && f.maxAmount.value != 0.0 && DealMatches(d, org, f) ==> d.amount <= f.maxAmount.value
  {
    && d.organizationId == org
    && (f.stage.None? || d.stage == f.stage.value)
    && (!Truthy(f.minAmount) || d.amount >= f.minAmount.value)
    && (!Truthy(f.maxAmount) || d.amount <= f.maxAmount.value)
    && (f.startDate.None? || d.createdAt >= f.startDate.value)
    && (f.endDate.None? || d.createdAt <= f.endDate.value)
  }

  /** A bound of 0 filters nothing: `maxAmount = 0` returns deals of any
      amount, not only those of amount at most 0. */
  lemma ZeroAmountBoundsIgnored(d: Deal, org: OrgId, f: DealFilters)
    ensures DealMatches(d, org, f.(minAmount := Some(0.0))) == DealMatches(d, org, f.(minAmount := None))
    ensures DealMatches(d, org, f.(maxAmount := Some(0.0))) == DealMatches(d, org, f.(maxAmount := None))
  {
  }
}
