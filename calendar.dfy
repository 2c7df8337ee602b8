/** CalendarService (apps/api/src/modules/calendar/calendar.service.ts):
    availability slots, each owned by one user, who alone can see, change
    or delete it. */
module Calendar {
  import opened Common
  import opened Records
  import opened Ordering

  type SlotId = nat

  /** A calendar slot as stored (and, field for field, as returned). */
  datatype CalendarSlot = CalendarSlot(
    id: SlotId,
    userId: UserId,
    start: Time,
    end: Time,
    isBooked: bool,
    title: Option<string>,
    description: Option<string>,
    createdAt: Time,
    updatedAt: Time)

  /** CreateCalendarSlotDto; `isBooked` is optional and defaults to false. */
  datatype CreateSlotRequest = CreateSlotRequest(
    start: Time,
    end: Time,
    isBooked: Option<bool>,
    title: Option<string>,
    description: Option<string>)

  /** UpdateCalendarSlotDto: every field optional; the owner is not among
      them. */
  datatype SlotPatch = SlotPatch(
    start: Option<Time>,
    end: Option<Time>,
    isBooked: Option<bool>,
    title: Option<string>,
    description: Option<string>)

  const SlotNotFound := NotFound("Calendar slot not found")

  /** The fields the patch names overwrite the stored ones. */
  function ApplySlotPatch(slot: CalendarSlot, p: SlotPatch, now: Time): (r: CalendarSlot)
    ensures r.id == slot.id && r.userId == slot.userId && r.createdAt == slot.createdAt && r.updatedAt == now
    ensures r.start == (if p.start.Some? then p.start.value else slot.start)
    ensures r.end == (if p.end.Some? then p.end.value else slot.end)
    ensures r.isBooked == (if p.isBooked.Some? then p.isBooked.value else slot.isBooked)
    ensures r.title == (if p.title.Some? then p.title else slot.title)
    ensures r.description == (if p.description.Some? then p.description else slot.description)
  {
    slot.(start := p.start.GetOr(slot.start),
          end := p.end.GetOr(slot.end),
          isBooked := p.isBooked.GetOr(slot.isBooked),
          title := if p.title.Some? then p.title else slot.title,
          description := if p.description.Some? then p.description else slot.description,
          updatedAt := now)
  }

  /** A patch that names nothing changes nothing but the update time. */
  lemma EmptyPatchKeepsSlot(slot: CalendarSlot, now: Time)
    ensures ApplySlotPatch(slot, SlotPatch(None, None, None, None, None), now) == slot.(updatedAt := now)
  {
  }

  class CalendarService {
    var slots: map<SlotId, CalendarSlot>
    var nextSlotId: SlotId

    ghost predicate Valid()
      reads this
    {
      forall id :: id in slots ==> slots[id].id == id && id < nextSlotId
    }

    /** `findFirst({ where: { id, userId } })` finds the slot. */
    predicate Owned(id: SlotId, owner: UserId)
      reads this
    {
      id in slots && slots[id].userId == owner
    }

    constructor()
      ensures Valid() && slots == map[]
    {
      slots := map[];
      nextSlotId := 0;
    }

    /** create: stores the slot for the caller.  Any start and end are
        accepted, an end before the start included. */
    method Create(req: CreateSlotRequest, owner: UserId, now: Time) returns (slot: CalendarSlot)
      requires Valid()
      modifies this
      ensures Valid()
      ensures slot.id !in old(slots) && slots == old(slots)[slot.id := slot]
      ensures slot.userId == owner && slot.start == req.start && slot.end == req.end
      ensures slot.isBooked == (req.isBooked == Some(true))
      ensures slot.title == req.title && slot.description == req.description
      ensures slot.createdAt == now && slot.updatedAt == now
    {
      slot := CalendarSlot(nextSlotId, owner, req.start, req.end, req.isBooked.GetOr(false),
                           req.title, req.description, now, now);
      slots := slots[slot.id := slot];
      nextSlotId := nextSlotId + 1;
    }

    /** findAll: exactly the caller's slots, each once, by start time. */
    method FindAll(owner: UserId) returns (r: seq<CalendarSlot>)
      requires Valid()
      ensures forall i :: 0 <= i < |r| ==> r[i].id in slots && slots[r[i].id] == r[i] && r[i].userId == owner
      ensures forall id :: Owned(id, owner) ==> exists i :: 0 <= i < |r| && r[i].id == id
      ensures forall i, j :: 0 <= i < j < |r| ==> r[i].id != r[j].id
      ensures forall i, j :: 0 <= i < j < |r| ==> r[i].start <= r[j].start
    {
      var ks := SelectOrdered(slots, (s: CalendarSlot) => s.userId == owner, (s: CalendarSlot) => s.start);
      r := [];
      for i := 0 to |ks|
        invariant |r| == i
        invariant forall j :: 0 <= j < i ==> r[j] == slots[ks[j]] && r[j].id == ks[j]
      {
        r := r + [slots[ks[i]]];
      }
      forall id | Owned(id, owner)
        ensures exists i :: 0 <= i < |r| && r[i].id == id
      {
        var i :| 0 <= i < |ks| && ks[i] == id;
        assert r[i].id == id;
      }
    }

    /** findOne: the slot, only for its owner. */
    method FindOne(id: SlotId, owner: UserId) returns (r: Result<CalendarSlot>)
      ensures r.Ok? <==> Owned(id, owner)
      ensures r.Ok? ==> r.value == slots[id]
      ensures r.Err? ==> r.error == SlotNotFound
    {
      if id in slots && slots[id].userId == owner {
        r := Ok(slots[id]);
      } else {
        r := Err(SlotNotFound);
      }
    }

    /** update: only the owner's slot, and only the fields supplied. */
    method Update(id: SlotId, p: SlotPatch, owner: UserId, now: Time) returns (r: Result<CalendarSlot>)
      requires Valid()
      modifies this
      ensures Valid()
      ensures r.Ok? <==> old(Owned(id, owner))
      ensures r.Err? ==> r.error == SlotNotFound && slots == old(slots)
      ensures r.Ok? ==> r.value == ApplySlotPatch(old(slots[id]), p, now) && slots == old(slots)[id := r.value]
      ensures nextSlotId == old(nextSlotId)
    {
      if !(id in slots && slots[id].userId == owner) {
        return Err(SlotNotFound);
      }
      var updated := ApplySlotPatch(slots[id], p, now);
      slots := slots[id := updated];
      r := Ok(updated);
    }

    /** remove: only the owner's slot; every other slot stays. */
    method Remove(id: SlotId, owner: UserId) returns (r: Result<()>)
      requires Valid()
      modifies this
      ensures Valid()
      ensures r.Ok? <==> old(Owned(id, owner))
      ensures r.Err? ==> r.error == SlotNotFound && slots == old(slots)
      ensures r.Ok? ==> slots == old(slots) - {id}
      ensures nextSlotId == old(nextSlotId)
    {
      if !(id in slots && slots[id].userId == owner) {
        return Err(SlotNotFound);
      }
      slots := slots - {id};
      r := Ok(());
    }
  }
}
