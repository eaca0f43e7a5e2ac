/**
 * The patient's slot picker (`CalendarSlotPicker.tsx`): the availability
 * query on `time_slots`, the five-minute lock a click writes, and the
 * grouping of the fetched slots by time range.
 *
 * Instants (`now`, `locked_until`) are milliseconds since the epoch.
 */
module CalendarSlotPicker {
  import opened Common
  import opened TimeSlots

  /** The `consultationMode` select: 'all', 'online' or 'in-person'. */
  datatype ModeFilter = AllModes | OnlyMode(mode: SlotMode)

  /** The lock length: five minutes. */
  const LockMs: int := 5 * 60 * 1000

  // ------------------------------------------------------------ the query

  /**
   * The row filter of the query: the doctor and the date match, the stored
   * flags say neither booked nor locked, and the mode matches unless the
   * filter is 'all'. `locked_until` plays no part.
   */
  predicate Available(s: TimeSlot, doctorId: string, date: int, filter: ModeFilter): (b: bool)
    ensures s.isBooked || s.isLocked ==> !b
    ensures filter.AllModes? ==> (b <==> s.doctorId == doctorId && s.slotDate == date && !s.isBooked && !s.isLocked)
  {
    && s.doctorId == doctorId
    && s.slotDate == date
    && !s.isBooked
    && !s.isLocked
    && (filter.OnlyMode? ==> s.mode == filter.mode)
  }

  /** The members of `pool` the query selects. */
  function AvailableAmong(pool: set<TimeSlot>, doctorId: string, date: int, filter: ModeFilter): (r: set<TimeSlot>)
    ensures forall s :: s in r <==> s in pool && Available(s, doctorId, date, filter)
  {
    set s | s in pool && Available(s, doctorId, date, filter)
  }

  /** The stored rows the query selects, as a set. */
  function AvailableRows(rows: map<nat, TimeSlot>, doctorId: string, date: int, filter: ModeFilter): (r: set<TimeSlot>)
    ensures forall s :: s in r <==> s in rows.Values && Available(s, doctorId, date, filter)
  {
    AvailableAmong(rows.Values, doctorId, date, filter)
  }

  /** One more row looked at: the selection grows by that row exactly when it is available. */
  lemma AvailableAmongAdd(pool: set<TimeSlot>, x: TimeSlot, doctorId: string, date: int, filter: ModeFilter)
    requires x !in pool
    ensures multiset(AvailableAmong(pool + {x}, doctorId, date, filter))
            == multiset(AvailableAmong(pool, doctorId, date, filter))
               + (if Available(x, doctorId, date, filter) then multiset{x} else multiset{})
  {
    var a, b := AvailableAmong(pool + {x}, doctorId, date, filter), AvailableAmong(pool, doctorId, date, filter);
    if Available(x, doctorId, date, filter) {
      assert a == b + {x};
      assert x !in b;
    } else {
      assert a == b;
    }
  }

  predicate SortedByStart(s: seq<TimeSlot>) {
    forall i, j :: 0 <= i < j < |s| ==> s[i].startTime <= s[j].startTime
  }

  /** Places `x` before the first slot that starts later. */
  function InsertByStart(x: TimeSlot, s: seq<TimeSlot>): (t: seq<TimeSlot>)
    ensures multiset(t) == multiset(s) + multiset{x}
  {
    if s == [] || x.startTime < s[0].startTime then [x] + s
    else assert s == [s[0]] + s[1..]; [s[0]] + InsertByStart(x, s[1..])
  }

  /** Every element of the insertion is the inserted slot or one of the list's. */
  lemma {:induction false} InsertByStartElems(x: TimeSlot, s: seq<TimeSlot>)
    ensures forall y :: y in InsertByStart(x, s) ==> y == x || y in s
  {
    if s != [] && x.startTime >= s[0].startTime {
      InsertByStartElems(x, s[1..]);
    }
  }

  lemma {:induction false} InsertByStartSorted(x: TimeSlot, s: seq<TimeSlot>)
    requires SortedByStart(s)
    ensures SortedByStart(InsertByStart(x, s))
  {
    if s != [] && x.startTime >= s[0].startTime {
      InsertByStartSorted(x, s[1..]);
      var t := InsertByStart(x, s[1..]);
      InsertByStartElems(x, s[1..]);
      forall j | 0 <= j < |t| ensures s[0].startTime <= t[j].startTime {
        assert t[j] in t;
      }
    }
  }

  /** One more row looked at by the query: it goes into the sorted result exactly when it is available. */
  lemma QueryStep(r: seq<TimeSlot>, x: TimeSlot, done: set<TimeSlot>, doctorId: string, date: int, filter: ModeFilter)
    requires x !in done && SortedByStart(r)
    requires multiset(r) == multiset(AvailableAmong(done, doctorId, date, filter))
    ensures var r' := if Available(x, doctorId, date, filter) then InsertByStart(x, r) else r;
      && SortedByStart(r')
      && multiset(r') == multiset(AvailableAmong(done + {x}, doctorId, date, filter))
  {
    AvailableAmongAdd(done, x, doctorId, date, filter);
    InsertByStartSorted(x, r);
  }

  /**
   * `fetchAvailableSlots`'s query: every available row exactly once, ordered
   * by `start_time`. The store leaves the order of equal start times open;
   * this walk settles it one way.
   */
  method QueryAvailable(rows: map<nat, TimeSlot>, doctorId: string, date: int, filter: ModeFilter)
    returns (r: seq<TimeSlot>)
    ensures SortedByStart(r)
    ensures multiset(r) == multiset(AvailableRows(rows, doctorId, date, filter))
  {
    r := [];
    var pending := rows.Values;
    ghost var done: set<TimeSlot> := {};
    while pending != {}
      invariant pending <= rows.Values && done == rows.Values - pending
      invariant SortedByStart(r)
      invariant multiset(r) == multiset(AvailableAmong(done, doctorId, date, filter))
      decreases pending
    {
      var s :| s in pending;
      QueryStep(r, s, done, doctorId, date, filter);
      if Available(s, doctorId, date, filter) {
        r := InsertByStart(s, r);
      }
      pending := pending - {s};
      done := done + {s};
    }
  }

  // ------------------------------------------------------------ the lock

  /**
   * The update `handleSlotSelect` sends, applied to one row: `is_locked`
   * true, `locked_until` the given instant, and `locked_by` the current
   * user's id. Without a signed-in user the id is `undefined`, which the
   * request body drops, so `locked_by` keeps its old value.
   */
  function Locked(row: TimeSlot, user: Option<string>, until: int): (r: TimeSlot)
    ensures r.isLocked && r.lockedUntil == Some(until)
    ensures r.lockedBy == if user.Some? then user else row.lockedBy
    ensures r.(isLocked := row.isLocked, lockedBy := row.lockedBy, lockedUntil := row.lockedUntil) == row
  {
    row.(isLocked := true, lockedUntil := Some(until), lockedBy := if user.Some? then user else row.lockedBy)
  }

  /**
   * An update keyed by id: the row with that id, if there is one, gets
   * the lock whatever its `is_booked` and lock state; no other row changes
   * and no row appears or disappears.
   */
  function LockWrite(rows: map<nat, TimeSlot>, id: nat, user: Option<string>, until: int): (r: map<nat, TimeSlot>)
    ensures r.Keys == rows.Keys
    ensures forall k :: k in rows && k != id ==> r[k] == rows[k]
    ensures id in rows ==> r[id] == Locked(rows[id], user, until)
  {
    if id in rows then rows[id := Locked(rows[id], user, until)] else rows
  }

  /** Of two users who lock the same row in turn, the second holds it, until its own expiry. */
  lemma SecondLockerWins(rows: map<nat, TimeSlot>, id: nat, first: Option<string>, second: string, t1: int, t2: int)
    requires id in rows
    ensures var after := LockWrite(LockWrite(rows, id, first, t1), id, Some(second), t2);
      after[id].lockedBy == Some(second) && after[id].lockedUntil == Some(t2)
  {
  }

  /**
   * After a lock, the row is gone from every availability query, and every
   * other row's availability is as before. Since the query has no clock
   * input, this holds however much later the query runs, past
   * `locked_until` included.
   */
  lemma LockHidesExactlyThatRow(rows: map<nat, TimeSlot>, id: nat, user: Option<string>, until: int,
                                doctorId: string, date: int, filter: ModeFilter)
    requires Keyed(rows) && id in rows
    ensures AvailableRows(LockWrite(rows, id, user, until), doctorId, date, filter)
            == AvailableRows(rows, doctorId, date, filter) - {rows[id]}
  {
    var after := LockWrite(rows, id, user, until);
    var a, b := AvailableRows(after, doctorId, date, filter), AvailableRows(rows, doctorId, date, filter) - {rows[id]};
    forall s | s in a ensures s in b {
      var k :| k in after && after[k] == s;
      assert k != id;
      assert rows[k] == s && s.id == k;
    }
    forall s | s in b ensures s in a {
      var k :| k in rows && rows[k] == s;
      assert k != id;
      assert after[k] == s;
    }
  }

  // ------------------------------------------------------------ grouping

  /** The key `${start_time}-${end_time}`; distinct ranges give distinct keys. */
  datatype RangeKey = RangeKey(start: int, end: int)

  function KeyOf(s: TimeSlot): RangeKey {
    RangeKey(s.startTime, s.endTime)
  }

  function HasKey(k: RangeKey): TimeSlot -> bool {
    (s: TimeSlot) => KeyOf(s) == k
  }

  predicate Distinct<T(==)>(s: seq<T>) {
    forall i, j :: 0 <= i < j < |s| ==> s[i] != s[j]
  }

  /** The keys of the groups in the order an object lists them: order of first insertion. */
  function FirstKeys(slots: seq<TimeSlot>): (ks: seq<RangeKey>)
    ensures Distinct(ks)
    ensures forall s :: s in slots ==> KeyOf(s) in ks
  {
    if slots == [] then []
    else
      var ks := FirstKeys(slots[..|slots| - 1]);
      var x := slots[|slots| - 1];
      assert slots == slots[..|slots| - 1] + [x];
      if KeyOf(x) in ks then ks else ks + [KeyOf(x)]
  }

  /** The group under key `k`: the slots with that range, in fetch order. */
  function Group(slots: seq<TimeSlot>, k: RangeKey): seq<TimeSlot> {
    Filter(HasKey(k), slots)
  }

  /**
   * The `reduce` into `acc`: walking the slots in order, a new key gets an
   * empty group, then the slot is pushed onto its key's group.
   */
  method GroupSlots(slots: seq<TimeSlot>) returns (keys: seq<RangeKey>, groups: map<RangeKey, seq<TimeSlot>>)
    ensures keys == FirstKeys(slots)
    ensures forall k :: k in groups <==> k in keys
    ensures forall k :: k in groups ==> groups[k] == Group(slots, k)
  {
    keys, groups := [], map[];
    for i := 0 to |slots|
      invariant keys == FirstKeys(slots[..i])
      invariant forall k :: k in groups <==> k in keys
      invariant forall k :: k in groups ==> groups[k] == Group(slots[..i], k)
    {
      var s := slots[i];
      var key := KeyOf(s);
      GroupStep(slots, i);
      var group := if key in groups then groups[key] else [];
      assert group == Group(slots[..i], key);
      if key !in groups {
        keys := keys + [key];
      }
      ghost var prev := groups;
      groups := groups[key := group + [s]];
      forall k | k in groups ensures groups[k] == Group(slots[..i + 1], k) {
        GroupStepAt(slots, i, k);
        if k != key {
          assert groups[k] == prev[k];
        }
      }
    }
    assert slots[..|slots|] == slots;
  }

  /** What one more slot does to the keys, and to the group of a new key. */
  lemma GroupStep(slots: seq<TimeSlot>, i: nat)
    requires i < |slots|
    ensures var k := KeyOf(slots[i]);
      FirstKeys(slots[..i + 1]) == if k in FirstKeys(slots[..i]) then FirstKeys(slots[..i]) else FirstKeys(slots[..i]) + [k]
    ensures KeyOf(slots[i]) !in FirstKeys(slots[..i]) ==> Group(slots[..i], KeyOf(slots[i])) == []
  {
    assert slots[..i + 1] == slots[..i] + [slots[i]];
    assert slots[..i + 1][..i] == slots[..i];
    if KeyOf(slots[i]) !in FirstKeys(slots[..i]) {
      FilterKeepsNone(HasKey(KeyOf(slots[i])), slots[..i]);
    }
  }

  /** One more slot is pushed onto its own key's group, and leaves the others alone. */
  lemma GroupStepAt(slots: seq<TimeSlot>, i: nat, k: RangeKey)
    requires i < |slots|
    ensures Group(slots[..i + 1], k) == Group(slots[..i], k) + (if KeyOf(slots[i]) == k then [slots[i]] else [])
  {
    assert slots[..i + 1] == slots[..i] + [slots[i]];
    FilterConcat(HasKey(k), slots[..i], [slots[i]]);
  }

  /**
   * Every slot lands in exactly one group, the one keyed by its own range,
   * and each group keeps the slots in the order they were fetched.
   */
  lemma GroupsPartition(slots: seq<TimeSlot>, s: TimeSlot, k: RangeKey)
    requires s in slots && k in FirstKeys(slots)
    ensures s in Group(slots, k) <==> k == KeyOf(s)
    ensures IsSubseq(Group(slots, k), slots)
  {
    FilterIsSubseq(HasKey(k), slots);
  }

  /** No group is empty: every listed key is the range of some fetched slot. */
  lemma {:induction false} FirstKeysNonEmpty(slots: seq<TimeSlot>, k: RangeKey)
    requires k in FirstKeys(slots)
    ensures Group(slots, k) != []
  {
    var prefix, x := slots[..|slots| - 1], slots[|slots| - 1];
    assert slots == prefix + [x];
    FilterConcat(HasKey(k), prefix, [x]);
    if KeyOf(x) != k {
      FirstKeysNonEmpty(prefix, k);
    }
  }

  /** The sizes of the groups listed in `ks`, added up. */
  function GroupSizes(ks: seq<RangeKey>, slots: seq<TimeSlot>): nat {
    if ks == [] then 0 else |Group(slots, ks[0])| + GroupSizes(ks[1..], slots)
  }

  lemma {:induction false} GroupSizesSnocKey(ks: seq<RangeKey>, k: RangeKey, slots: seq<TimeSlot>)
    ensures GroupSizes(ks + [k], slots) == GroupSizes(ks, slots) + |Group(slots, k)|
  {
    if ks != [] {
      assert (ks + [k])[1..] == ks[1..] + [k];
      GroupSizesSnocKey(ks[1..], k, slots);
    }
  }

  /** Appending a slot grows the listed groups' total by one exactly when its key is listed. */
  lemma {:induction false} GroupSizesSnocSlot(ks: seq<RangeKey>, slots: seq<TimeSlot>, x: TimeSlot)
    requires Distinct(ks)
    ensures GroupSizes(ks, slots + [x]) == GroupSizes(ks, slots) + (if KeyOf(x) in ks then 1 else 0)
  {
    if ks != [] {
      GroupSizesSnocSlot(ks[1..], slots, x);
      FilterConcat(HasKey(ks[0]), slots, [x]);
      assert KeyOf(x) in ks <==> KeyOf(x) == ks[0] || KeyOf(x) in ks[1..];
      assert ks[0] !in ks[1..];
    }
  }

  /** The groups together hold as many slots as were fetched. */
  lemma {:induction false} GroupSizesTotal(slots: seq<TimeSlot>)
    ensures GroupSizes(FirstKeys(slots), slots) == |slots|
  {
    if slots != [] {
      var prefix, x := slots[..|slots| - 1], slots[|slots| - 1];
      assert slots == prefix + [x];
      var ks := FirstKeys(prefix);
      GroupSizesTotal(prefix);
      GroupSizesSnocSlot(ks, prefix, x);
      if KeyOf(x) !in ks {
        GroupSizesSnocKey(ks, KeyOf(x), slots);
        FilterConcat(HasKey(KeyOf(x)), prefix, [x]);
        FilterKeepsNone(HasKey(KeyOf(x)), prefix);
      }
    }
  }

  // ------------------------------------------------------------ the component

  /** The picker's state: the chosen date and mode filter, and the slots last fetched for them. */
  class SlotPicker {
    const doctorId: string
    const store: SlotStore
    var selectedDate: int
    var consultationMode: ModeFilter
    var availableSlots: seq<TimeSlot>

    /** Opens on `today` with every mode and nothing fetched yet. */
    constructor (doctorId: string, store: SlotStore, today: int)
      ensures this.doctorId == doctorId && this.store == store
      ensures selectedDate == today && consultationMode == AllModes && availableSlots == []
    {
      this.doctorId := doctorId;
      this.store := store;
      selectedDate := today;
      consultationMode := AllModes;
      availableSlots := [];
    }

    /** `fetchAvailableSlots`: on success the list is replaced by the query's result; on error it is kept. */
    method FetchAvailableSlots(fails: bool)
      modifies this`availableSlots
      ensures fails ==> availableSlots == old(availableSlots)
      ensures !fails ==> SortedByStart(availableSlots)
      ensures !fails ==> multiset(availableSlots)
                         == multiset(AvailableRows(store.rows, doctorId, selectedDate, consultationMode))
    {
      if !fails {
        availableSlots := QueryAvailable(store.rows, doctorId, selectedDate, consultationMode);
      }
    }

    /** Picking a date re-runs the query for it. */
    method SelectDate(date: int, fails: bool)
      modifies this`selectedDate, this`availableSlots
      ensures selectedDate == date
      ensures fails ==> availableSlots == old(availableSlots)
      ensures !fails ==> SortedByStart(availableSlots)
      ensures !fails ==> multiset(availableSlots) == multiset(AvailableRows(store.rows, doctorId, date, consultationMode))
    {
      selectedDate := date;
      FetchAvailableSlots(fails);
    }

    /** Picking a mode re-runs the query with it. */
    method SelectMode(filter: ModeFilter, fails: bool)
      modifies this`consultationMode, this`availableSlots
      ensures consultationMode == filter
      ensures fails ==> availableSlots == old(availableSlots)
      ensures !fails ==> SortedByStart(availableSlots)
      ensures !fails ==> multiset(availableSlots) == multiset(AvailableRows(store.rows, doctorId, selectedDate, filter))
    {
      consultationMode := filter;
      FetchAvailableSlots(fails);
    }

    /**
     * `handleSlotSelect`: writes the lock for `now` plus five minutes and,
     * if the write did not error, hands the caller its own copy of the slot
     * with only `locked_until` replaced. On error nothing changes and the
     * callback is not made.
     */
    method HandleSlotSelect(slot: TimeSlot, currentUser: Option<string>, now: int, fails: bool)
      returns (selected: Option<TimeSlot>)
      requires store.Valid()
      modifies store
      ensures store.Valid() && store.nextId == old(store.nextId)
      ensures fails ==> store.rows == old(store.rows) && selected == None
      ensures !fails ==> store.rows == LockWrite(old(store.rows), slot.id, currentUser, now + LockMs)
      ensures !fails ==> selected == Some(slot.(lockedUntil := Some(now + LockMs)))
    {
      if fails {
        return None;
      }
      store.rows := LockWrite(store.rows, slot.id, currentUser, now + LockMs);
      selected := Some(slot.(lockedUntil := Some(now + LockMs)));
    }
  }
}
