/**
 * The `time_slots` table: one row per concrete bookable interval of a doctor.
 * Row ids are issued by the store (the database's uuid default), modelled as
 * consecutive naturals.
 */
module TimeSlots {
  import opened Common

  /** The two values the code writes into `consultation_mode`: 'online' and 'in-person'. */
  datatype SlotMode = Online | InPerson

  /** The object `generateTimeSlots` pushes for insertion (a row without an id). */
  datatype SlotDraft = SlotDraft(
    doctorId: string,
    slotDate: int,    // day number
    startTime: int,   // minutes since midnight
    endTime: int,     // minutes since midnight
    mode: SlotMode,
    isBooked: bool,
    isLocked: bool)

  /** A stored row. `lockedUntil` is an instant in milliseconds since the epoch. */
  datatype TimeSlot = TimeSlot(
    id: nat,
    doctorId: string,
    slotDate: int,
    startTime: int,
    endTime: int,
    mode: SlotMode,
    isBooked: bool,
    isLocked: bool,
    lockedBy: Option<string>,
    lockedUntil: Option<int>)

  /** The row the store creates from a draft: the lock columns start out null. */
  function Stored(id: nat, d: SlotDraft): (t: TimeSlot)
    ensures t.id == id && t.lockedBy == None && t.lockedUntil == None
  {
    TimeSlot(id, d.doctorId, d.slotDate, d.startTime, d.endTime, d.mode, d.isBooked, d.isLocked, None, None)
  }

  /** The rows a batch insert of `drafts` adds when the ids start at `base`. */
  function Numbered(base: nat, drafts: seq<SlotDraft>): (m: map<nat, TimeSlot>)
    ensures forall i :: i in m <==> base <= i < base + |drafts|
    ensures forall i :: i in m ==> m[i] == Stored(i, drafts[i - base])
  {
    if drafts == [] then map[]
    else Numbered(base, drafts[..|drafts| - 1])[base + |drafts| - 1 := Stored(base + |drafts| - 1, drafts[|drafts| - 1])]
  }

  /** Each row is filed under its own id. */
  predicate Keyed(rows: map<nat, TimeSlot>) {
    forall k :: k in rows ==> rows[k].id == k
  }

  class SlotStore {
    var rows: map<nat, TimeSlot>
    var nextId: nat

    /** Each row is filed under its own id, and every id issued so far is below `nextId`. */
    ghost predicate Valid()
      reads this
    {
      Keyed(rows) && forall k :: k in rows ==> k < nextId
    }

    constructor ()
      ensures Valid() && rows == map[] && nextId == 0
    {
      rows := map[];
      nextId := 0;
    }

    /**
     * One `insert` of a batch: either every draft becomes a row with a fresh
     * id, or (the call errors) nothing is written.
     */
    method InsertAll(drafts: seq<SlotDraft>, fails: bool) returns (ok: bool)
      requires Valid()
      modifies this
      ensures Valid()
      ensures ok == !fails
      ensures ok ==> rows == old(rows) + Numbered(old(nextId), drafts) && nextId == old(nextId) + |drafts|
      ensures !ok ==> rows == old(rows) && nextId == old(nextId)
    {
      if fails {
        return false;
      }
      rows := rows + Numbered(nextId, drafts);
      nextId := nextId + |drafts|;
      ok := true;
    }
  }
}
