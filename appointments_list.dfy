/**
 * The doctor's appointment list (`AppointmentsList.tsx`): the status and
 * search filters, the status buttons and the badge variant. Statuses are the
 * strings this component writes: 'booked', 'completed', 'cancelled',
 * 'rescheduled'.
 */
module AppointmentsList {
  import opened Common
  import opened Text

  /** The joined `profiles` columns. */
  datatype Profile = Profile(fullName: Option<string>, phone: Option<string>)

  /** An `appointments` row with its patient's profile; dates are day numbers, times minutes. */
  datatype Appointment = Appointment(
    id: string,
    patientId: string,
    doctorId: string,
    slotId: string,
    appointmentDate: int,
    startTime: int,
    endTime: int,
    mode: string,
    status: string,
    notes: Option<string>,
    otpVerified: bool,
    profile: Option<Profile>)

  // ------------------------------------------------------------ filtering

  function StatusIs(status: string): Appointment -> bool {
    (a: Appointment) => a.status == status
  }

  /**
   * The search test: the patient's name contains the term ignoring case, or
   * the phone contains it as typed. A missing profile, name or phone does
   * not match.
   */
  predicate Hit(term: string, a: Appointment): (h: bool)
    ensures term == "" ==>
      (h <==> a.profile.Some? && (a.profile.value.fullName.Some? || a.profile.value.phone.Some?))
  {
    && a.profile.Some?
    && ((a.profile.value.fullName.Some? && Contains(Lower(a.profile.value.fullName.value), Lower(term)))
        || (a.profile.value.phone.Some? && Contains(a.profile.value.phone.value, term)))
  }

  function SearchHit(term: string): Appointment -> bool {
    (a: Appointment) => Hit(term, a)
  }

  /** Both filters in one test: the status one unless it is 'all', the search one unless the term is empty. */
  predicate Shown(status: string, term: string, a: Appointment): (b: bool)
    ensures status == "all" && term == "" ==> b
    ensures status != "all" && a.status != status ==> !b
  {
    (status == "all" || a.status == status) && (term == "" || Hit(term, a))
  }

  function ShownBy(status: string, term: string): Appointment -> bool {
    (a: Appointment) => Shown(status, term, a)
  }

  /**
   * `filterAppointments` as a value: the list narrowed by status, then by
   * search term. It holds exactly the appointments both filters accept.
   */
  function FilterAppointments(apts: seq<Appointment>, status: string, term: string): (r: seq<Appointment>)
    ensures forall a :: a in r <==> a in apts && Shown(status, term, a)
    ensures status == "all" && term == "" ==> r == apts
  {
    var byStatus := if status != "all" then Filter(StatusIs(status), apts) else apts;
    if term != "" then Filter(SearchHit(term), byStatus) else byStatus
  }

  /** The two stages amount to one filter by both tests, so the order of the list is kept. */
  lemma FilterAppointmentsIsOneFilter(apts: seq<Appointment>, status: string, term: string)
    ensures FilterAppointments(apts, status, term) == Filter(ShownBy(status, term), apts)
    ensures IsSubseq(FilterAppointments(apts, status, term), apts)
  {
    if status != "all" && term != "" {
      FilterTwice(StatusIs(status), SearchHit(term), ShownBy(status, term), apts);
    } else if status != "all" {
      FilterSame(StatusIs(status), ShownBy(status, term), apts);
    } else if term != "" {
      FilterSame(SearchHit(term), ShownBy(status, term), apts);
    } else {
      FilterKeepsAll(ShownBy(status, term), apts);
    }
    FilterIsSubseq(ShownBy(status, term), apts);
  }

  /**
   * Typing more narrows the list: a term that contains the previous one
   * shows a subsequence of what the previous one showed.
   */
  lemma SearchNarrows(apts: seq<Appointment>, status: string, term: string, longer: string)
    requires Contains(longer, term)
    ensures IsSubseq(FilterAppointments(apts, status, longer), FilterAppointments(apts, status, term))
  {
    FilterAppointmentsIsOneFilter(apts, status, term);
    FilterAppointmentsIsOneFilter(apts, status, longer);
    forall a | Shown(status, longer, a) ensures Shown(status, term, a) {
      if term != "" {
        assert longer != "" by {
          if longer == "" { ContainsAt(longer, term); }
        }
        var p := a.profile.value;
        if p.fullName.Some? && Contains(Lower(p.fullName.value), Lower(longer)) {
          LowerKeepsContains(longer, term);
          ContainsTransitive(Lower(p.fullName.value), Lower(longer), Lower(term));
        } else {
          ContainsTransitive(p.phone.value, longer, term);
        }
      }
    }
    FilterNarrows(ShownBy(status, longer), ShownBy(status, term), apts);
  }

  // ------------------------------------------------------------ ordering

  /** The fetch order: newest date first, and within a date earliest start first. */
  predicate ListOrdered(s: seq<Appointment>) {
    forall i, j :: 0 <= i < j < |s| ==>
      s[i].appointmentDate > s[j].appointmentDate
      || (s[i].appointmentDate == s[j].appointmentDate && s[i].startTime <= s[j].startTime)
  }

  /** Filtering keeps the fetch order. */
  lemma {:induction false} FilterKeepsOrder(p: Appointment -> bool, s: seq<Appointment>)
    requires ListOrdered(s)
    ensures ListOrdered(Filter(p, s))
  {
    if s != [] {
      FilterKeepsOrder(p, s[1..]);
      var rest := Filter(p, s[1..]);
      forall j | 0 <= j < |rest|
        ensures s[0].appointmentDate > rest[j].appointmentDate
                || (s[0].appointmentDate == rest[j].appointmentDate && s[0].startTime <= rest[j].startTime)
      {
        assert rest[j] in s[1..];
      }
    }
  }

  // ------------------------------------------------------------ status changes

  /** The list after a status change: the appointment with that id gets the new status, the rest are kept. */
  function SetStatus(apts: seq<Appointment>, id: string, status: string): (r: seq<Appointment>)
    ensures |r| == |apts|
    ensures forall i :: 0 <= i < |r| ==>
      && r[i].(status := apts[i].status) == apts[i]
      && r[i].status == if apts[i].id == id then status else apts[i].status
  {
    seq(|apts|, i requires 0 <= i < |apts| => if apts[i].id == id then apts[i].(status := status) else apts[i])
  }

  /** A second status change of the same appointment overrides the first. */
  lemma SetStatusTwice(apts: seq<Appointment>, id: string, first: string, second: string)
    ensures SetStatus(SetStatus(apts, id, first), id, second) == SetStatus(apts, id, second)
  {
  }

  /** Cancelling a booked appointment and then restoring it gives back the list as it was. */
  lemma CancelThenRestore(apts: seq<Appointment>, id: string)
    requires forall a :: a in apts && a.id == id ==> a.status == "booked"
    ensures SetStatus(SetStatus(apts, id, "cancelled"), id, "booked") == apts
  {
    SetStatusTwice(apts, id, "cancelled", "booked");
    var r := SetStatus(apts, id, "booked");
    forall i | 0 <= i < |apts| ensures r[i] == apts[i] {
      assert apts[i] in apts;
    }
  }

  /** A status change keeps the fetch order: dates and times are untouched. */
  lemma SetStatusKeepsOrder(apts: seq<Appointment>, id: string, status: string)
    requires ListOrdered(apts)
    ensures ListOrdered(SetStatus(apts, id, status))
  {
  }

  /**
   * The buttons a card offers: a booked appointment can be completed or
   * cancelled, a cancelled one restored to booked, and nothing else has any.
   */
  function OfferedStatuses(status: string): (r: seq<string>)
    ensures forall s :: s in r ==> s != status
    ensures r != [] <==> status == "booked" || status == "cancelled"
    ensures "booked" in r <==> status == "cancelled"
    ensures forall t :: t in r <==>
      (status == "booked" && (t == "completed" || t == "cancelled")) || (status == "cancelled" && t == "booked")
  {
    if status == "booked" then ["completed", "cancelled"]
    else if status == "cancelled" then ["booked"]
    else []
  }

  /** Completed and rescheduled appointments are final: no button leads away from them. */
  lemma CompletedIsFinal(status: string)
    requires status == "completed" || status == "rescheduled"
    ensures OfferedStatuses(status) == []
  {
  }

  datatype BadgeVariant = Default | Destructive | Secondary

  /** `getStatusVariant`: only a cancellation is destructive; booked and completed share the default. */
  function GetStatusVariant(status: string): (v: BadgeVariant)
    ensures v == Destructive <==> status == "cancelled"
    ensures v == Default <==> status == "booked" || status == "completed"
    ensures v == Secondary <==> !(status in {"booked", "completed", "cancelled"})
  {
    match status
    case "booked" => Default
    case "completed" => Default
    case "cancelled" => Destructive
    case "rescheduled" => Secondary
    case _ => Secondary
  }

  // ------------------------------------------------------------ the component

  /**
   * The component state: the fetched list, the two filter inputs, and the
   * list shown, which the effect recomputes whenever one of the others
   * changes.
   */
  class AppointmentsPanel {
    var appointments: seq<Appointment>
    var statusFilter: string
    var searchTerm: string
    var filtered: seq<Appointment>

    ghost predicate Valid()
      reads this
    {
      && ListOrdered(appointments)
      && filtered == FilterAppointments(appointments, statusFilter, searchTerm)
    }

    constructor ()
      ensures Valid()
      ensures appointments == [] && statusFilter == "all" && searchTerm == "" && filtered == []
    {
      appointments := [];
      statusFilter := "all";
      searchTerm := "";
      filtered := [];
    }

    /** `filterAppointments`: narrows the list in two stages and stores the result. */
    method Refilter()
      requires ListOrdered(appointments)
      modifies this`filtered
      ensures Valid() && ListOrdered(filtered)
    {
      var result := appointments;
      if statusFilter != "all" {
        result := Filter(StatusIs(statusFilter), result);
      }
      if searchTerm != "" {
        result := Filter(SearchHit(searchTerm), result);
      }
      filtered := result;
      FilterAppointmentsIsOneFilter(appointments, statusFilter, searchTerm);
      FilterKeepsOrder(ShownBy(statusFilter, searchTerm), appointments);
    }

    /**
     * `fetchAppointments`: the rows come back newest date first; missing
     * data counts as an empty list, and on error the list is kept.
     */
    method FetchAppointments(data: Option<seq<Appointment>>, fails: bool)
      requires Valid()
      requires data.Some? ==> ListOrdered(data.value)
      modifies this`appointments, this`filtered
      ensures Valid()
      ensures appointments == if fails then old(appointments) else if data.Some? then data.value else []
    {
      if !fails {
        appointments := if data.Some? then data.value else [];
        Refilter();
      }
    }

    method SetStatusFilter(status: string)
      requires Valid()
      modifies this`statusFilter, this`filtered
      ensures Valid() && statusFilter == status
    {
      statusFilter := status;
      Refilter();
    }

    method SetSearchTerm(term: string)
      requires Valid()
      modifies this`searchTerm, this`filtered
      ensures Valid() && searchTerm == term
    {
      searchTerm := term;
      Refilter();
    }

    /**
     * `updateAppointmentStatus`: when the write succeeds, the appointment
     * with that id takes the new status and nothing else changes; the shown
     * list is recomputed. When it fails, nothing changes.
     */
    method UpdateAppointmentStatus(id: string, status: string, fails: bool)
      requires Valid()
      modifies this`appointments, this`filtered
      ensures Valid()
      ensures appointments == if fails then old(appointments) else SetStatus(old(appointments), id, status)
    {
      if !fails {
        SetStatusKeepsOrder(appointments, id, status);
        appointments := SetStatus(appointments, id, status);
        Refilter();
      }
    }
  }
}
