/**
 * The doctor's dashboard (`DoctorDashboard.tsx`): the three counters
 * computed after loading, and the calendar panel listing one day's
 * appointments. Appointment dates are day numbers; `now` is an instant in
 * milliseconds; calendar days are counted in UTC.
 */
module DoctorDashboard {
  import opened Common
  import opened AppointmentsList

  const DayMs: int := 24 * 60 * 60 * 1000

  /** `toDateString` equality: the day number an instant falls on. */
  function DayOf(instant: int): int {
    instant / DayMs
  }

  /** `new Date(appointment_date)`: midnight at the start of that day. */
  function Midnight(date: int): (t: int)
    ensures DayOf(t) == date
  {
    date * DayMs
  }

  datatype Stats = Stats(todayAppointments: nat, weeklyAppointments: nat, totalPatients: nat)

  /** The appointment's date is the calendar day of `instant`. */
  function OnDayOf(instant: int): Appointment -> bool {
    (a: Appointment) => DayOf(Midnight(a.appointmentDate)) == DayOf(instant)
  }

  /** The appointment's midnight is not before `now` minus seven days. */
  function NotBeforeWeekAgo(now: int): Appointment -> bool {
    (a: Appointment) => Midnight(a.appointmentDate) >= now - 7 * DayMs
  }

  /** The distinct patient ids of the appointments. */
  function PatientIds(s: seq<Appointment>): (ids: set<string>)
    ensures forall a :: a in s ==> a.patientId in ids
    ensures forall p :: p in ids ==> exists i :: 0 <= i < |s| && s[i].patientId == p
  {
    if s == [] then {}
    else
      var prefix := s[..|s| - 1];
      assert s == prefix + [s[|s| - 1]];
      var ids := PatientIds(prefix);
      assert forall p :: p in ids ==> exists i :: 0 <= i < |prefix| && prefix[i].patientId == p;
      assert forall i :: 0 <= i < |prefix| ==> prefix[i] == s[i];
      ids + {s[|s| - 1].patientId}
  }

  /** There are never more distinct patients than appointments. */
  lemma {:induction false} PatientIdsBound(s: seq<Appointment>)
    ensures |PatientIds(s)| <= |s|
  {
    if s != [] {
      PatientIdsBound(s[..|s| - 1]);
    }
  }

  /**
   * The counters `fetchDoctorData` stores: appointments on today's date,
   * appointments from a week ago on (future ones included), and distinct
   * patients. With no data every counter is 0.
   */
  function ComputeStats(data: Option<seq<Appointment>>, now: int): (st: Stats)
    ensures data.None? ==> st == Stats(0, 0, 0)
    ensures data.Some? ==> st.todayAppointments <= |data.value| && st.weeklyAppointments <= |data.value|
  {
    if data.None? then Stats(0, 0, 0)
    else Stats(|Filter(OnDayOf(now), data.value)|,
               |Filter(NotBeforeWeekAgo(now), data.value)|,
               |PatientIds(data.value)|)
  }

  /** The start of today's day is less than a day before now. */
  lemma DayStart(now: int)
    ensures now - DayMs < Midnight(DayOf(now)) <= now
  {
  }

  /** An appointment dated today is not before a week ago. */
  lemma TodayWithinWeek(now: int, a: Appointment)
    ensures OnDayOf(now)(a) ==> NotBeforeWeekAgo(now)(a)
  {
    if OnDayOf(now)(a) {
      assert a.appointmentDate == DayOf(now);
      DayStart(now);
    }
  }

  /**
   * Every counter is bounded by the number of appointments, today's count by
   * the weekly one, and all are 0 without data.
   */
  lemma StatsBounds(data: Option<seq<Appointment>>, now: int)
    ensures var st := ComputeStats(data, now);
      && (data.None? ==> st == Stats(0, 0, 0))
      && (data.Some? ==> st.todayAppointments <= st.weeklyAppointments <= |data.value|
                         && st.totalPatients <= |data.value|)
      && (data.Some? && data.value != [] ==> st.totalPatients >= 1)
  {
    if data.Some? {
      PatientIdsBound(data.value);
      forall a ensures OnDayOf(now)(a) ==> NotBeforeWeekAgo(now)(a) {
        TodayWithinWeek(now, a);
      }
      FilterNarrows(OnDayOf(now), NotBeforeWeekAgo(now), data.value);
      if data.value != [] {
        assert data.value[0].patientId in PatientIds(data.value);
      }
    }
  }

  /** The calendar panel: the appointments dated on the selected day, in list order. */
  function DayPanel(apts: seq<Appointment>, selectedDay: int): (r: seq<Appointment>)
    ensures forall a :: a in r <==> a in apts && a.appointmentDate == selectedDay
  {
    Filter(OnDayOf(Midnight(selectedDay)), apts)
  }

  /** "No appointments scheduled for this date" shows exactly when no appointment has that date. */
  predicate ShowsEmptyMessage(apts: seq<Appointment>, selectedDay: int) {
    |DayPanel(apts, selectedDay)| == 0
  }

  lemma EmptyMessageIff(apts: seq<Appointment>, selectedDay: int)
    ensures ShowsEmptyMessage(apts, selectedDay) <==> forall a :: a in apts ==> a.appointmentDate != selectedDay
  {
    var r := DayPanel(apts, selectedDay);
    if r != [] {
      assert r[0] in r;
    }
  }

  /** Today's counter is the length of the panel when the panel shows today. */
  lemma TodayCountIsTodayPanel(data: seq<Appointment>, now: int)
    ensures ComputeStats(Some(data), now).todayAppointments == |DayPanel(data, DayOf(now))|
  {
    FilterSame(OnDayOf(now), OnDayOf(Midnight(DayOf(now))), data);
  }

  datatype DoctorRecord = DoctorRecord(id: string, userId: string)

  /** The page state after the first render. */
  class Dashboard {
    var selectedDay: int
    var appointments: seq<Appointment>
    var stats: Stats
    var doctorProfile: Option<DoctorRecord>
    var loading: bool

    constructor (today: int)
      ensures selectedDay == today && appointments == [] && stats == Stats(0, 0, 0)
      ensures doctorProfile == None && loading
    {
      selectedDay := today;
      appointments := [];
      stats := Stats(0, 0, 0);
      doctorProfile := None;
      loading := true;
    }

    /**
     * `fetchDoctorData`, with the two query results as parameters (errors
     * are not inspected: a failed query is a missing result). Without a
     * doctor record only `loading` changes.
     */
    method FetchDoctorData(doctor: Option<DoctorRecord>, data: Option<seq<Appointment>>, now: int)
      modifies this
      ensures !loading && selectedDay == old(selectedDay)
      ensures doctor.None? ==>
        appointments == old(appointments) && stats == old(stats) && doctorProfile == old(doctorProfile)
      ensures doctor.Some? ==>
        && doctorProfile == doctor
        && appointments == (if data.Some? then data.value else [])
        && stats == ComputeStats(data, now)
    {
      if doctor.None? {
        loading := false;
        return;
      }
      doctorProfile := doctor;
      appointments := if data.Some? then data.value else [];
      stats := ComputeStats(data, now);
      loading := false;
    }

    /** The calendar's `onSelect`. */
    method SelectDay(day: int)
      modifies this`selectedDay
      ensures selectedDay == day
    {
      selectedDay := day;
    }
  }
}
