/**
 * The patient's appointments page (`Appointments.tsx`): the upcoming/past
 * split, the 24-hour reschedule window, the status colour and which buttons
 * a card shows. The page works on its own mock list; its statuses are
 * 'confirmed', 'completed', 'cancelled' and 'rescheduled', and instants are
 * milliseconds since the epoch.
 */
module Appointments {
  import opened Common

  datatype PatientAppointment = PatientAppointment(
    id: string,
    doctorName: string,
    specialization: string,
    date: int,         // instant of the appointment
    mode: string,
    status: string,
    fee: int,
    symptoms: string,
    bookingId: string)

  const HourMs: int := 60 * 60 * 1000
  const DayMs: int := 24 * HourMs

  /** `isPast(date)`: strictly before the current instant. */
  predicate IsPast(date: int, now: int) {
    date < now
  }

  /** `isToday(date)`: the same calendar day as now (days counted in UTC). */
  predicate IsToday(date: int, now: int): (b: bool)
    ensures date == now ==> b
    ensures b ==> -DayMs < date - now < DayMs
  {
    date / DayMs == now / DayMs
  }

  predicate IsUpcoming(now: int, a: PatientAppointment) {
    !IsPast(a.date, now) && a.status != "cancelled" && a.status != "completed"
  }

  predicate IsPastEntry(now: int, a: PatientAppointment) {
    IsPast(a.date, now) || a.status == "completed" || a.status == "cancelled"
  }

  function UpcomingTest(now: int): PatientAppointment -> bool {
    (a: PatientAppointment) => IsUpcoming(now, a)
  }

  function PastTest(now: int): PatientAppointment -> bool {
    (a: PatientAppointment) => IsPastEntry(now, a)
  }

  /** `upcomingAppointments`: future, and neither cancelled nor completed. */
  function UpcomingAppointments(apts: seq<PatientAppointment>, now: int): (r: seq<PatientAppointment>)
    ensures forall a :: a in r <==> a in apts && now <= a.date && a.status != "cancelled" && a.status != "completed"
  {
    Filter(UpcomingTest(now), apts)
  }

  /** `pastAppointments`: past, or completed, or cancelled whatever the date. */
  function PastAppointments(apts: seq<PatientAppointment>, now: int): (r: seq<PatientAppointment>)
    ensures forall a :: a in r <==> a in apts && (a.date < now || a.status == "completed" || a.status == "cancelled")
  {
    Filter(PastTest(now), apts)
  }

  /**
   * The two tabs split the list: each appointment is on exactly one of them,
   * as often as it occurs, and each tab keeps the list's order.
   */
  lemma TabsPartition(apts: seq<PatientAppointment>, now: int)
    ensures multiset(UpcomingAppointments(apts, now)) + multiset(PastAppointments(apts, now)) == multiset(apts)
    ensures |UpcomingAppointments(apts, now)| + |PastAppointments(apts, now)| == |apts|
    ensures forall a :: a in apts ==> (a in UpcomingAppointments(apts, now) <==> a !in PastAppointments(apts, now))
    ensures IsSubseq(UpcomingAppointments(apts, now), apts) && IsSubseq(PastAppointments(apts, now), apts)
  {
    FilterPartition(UpcomingTest(now), PastTest(now), apts);
    assert |multiset(UpcomingAppointments(apts, now)) + multiset(PastAppointments(apts, now))| == |multiset(apts)|;
    FilterIsSubseq(UpcomingTest(now), apts);
    FilterIsSubseq(PastTest(now), apts);
  }

  /**
   * `canReschedule`: the hours until the appointment, as a real quotient,
   * exceed 24. (Millisecond differences are whole numbers well inside the
   * range where the double-precision quotient is exact enough to decide
   * this comparison.)
   */
  predicate CanReschedule(date: int, now: int): (b: bool)
    ensures b ==> !IsPast(date, now)
  {
    (date - now) as real / (HourMs as real) > 24.0
  }

  /** The reschedule window is "strictly more than 86 400 000 ms ahead". */
  lemma CanRescheduleIff(date: int, now: int)
    ensures CanReschedule(date, now) <==> date - now > DayMs
  {
    var x := (date - now) as real;
    assert x / 3600000.0 > 24.0 <==> x > 86400000.0;
  }

  datatype Tone = Primary | Destructive | Accent | Muted

  /** `getStatusColor`: confirmed and completed share the primary colour. */
  function GetStatusColor(status: string): (t: Tone)
    ensures t == Primary <==> status == "confirmed" || status == "completed"
    ensures t == Destructive <==> status == "cancelled"
    ensures t == Accent <==> status == "rescheduled"
    ensures t == Muted <==> !(status in {"confirmed", "completed", "cancelled", "rescheduled"})
  {
    match status
    case "confirmed" => Primary
    case "completed" => Primary
    case "cancelled" => Destructive
    case "rescheduled" => Accent
    case _ => Muted
  }

  datatype Action = JoinCall | Reschedule | Cancel | Contact

  /**
   * The buttons under a card, left to right: only a confirmed appointment
   * on a card with actions gets any; Join Call on its day, Reschedule and
   * Cancel while more than 24 hours remain, and Contact always.
   */
  function CardActions(a: PatientAppointment, showActions: bool, now: int): (r: seq<Action>)
    ensures r != [] <==> showActions && a.status == "confirmed"
    ensures JoinCall in r <==> showActions && a.status == "confirmed" && IsToday(a.date, now)
    ensures Reschedule in r <==> showActions && a.status == "confirmed" && CanReschedule(a.date, now)
    ensures Cancel in r <==> Reschedule in r
  {
    if showActions && a.status == "confirmed" then
      (if IsToday(a.date, now) then [JoinCall] else [])
      + (if CanReschedule(a.date, now) then [Reschedule, Cancel] else [])
      + [Contact]
    else []
  }

  /** A card never offers both joining today's call and rescheduling it. */
  lemma JoinExcludesReschedule(a: PatientAppointment, showActions: bool, now: int)
    ensures !(JoinCall in CardActions(a, showActions, now) && Reschedule in CardActions(a, showActions, now))
  {
    if JoinCall in CardActions(a, showActions, now) {
      CanRescheduleIff(a.date, now);
      var q := now / DayMs;
      assert a.date / DayMs == q;
      assert q * DayMs <= a.date < q * DayMs + DayMs;
      assert q * DayMs <= now;
    }
  }

  datatype Tab = UpcomingTab | PastTab

  /** The list a tab shows and whether its cards carry actions. */
  function TabCards(tab: Tab, apts: seq<PatientAppointment>, now: int): seq<(PatientAppointment, seq<Action>)> {
    var list := if tab == UpcomingTab then UpcomingAppointments(apts, now) else PastAppointments(apts, now);
    seq(|list|, i requires 0 <= i < |list| => (list[i], CardActions(list[i], tab == UpcomingTab, now)))
  }

  /**
   * The past tab shows no buttons at all; on the upcoming tab, Reschedule
   * appears exactly on confirmed appointments more than a day away.
   */
  lemma TabActions(tab: Tab, apts: seq<PatientAppointment>, now: int, i: nat)
    requires i < |TabCards(tab, apts, now)|
    ensures var (a, acts) := TabCards(tab, apts, now)[i];
      && (tab == PastTab ==> acts == [])
      && (tab == UpcomingTab ==> (Reschedule in acts <==> a.status == "confirmed" && a.date - now > DayMs))
  {
    var list := if tab == UpcomingTab then UpcomingAppointments(apts, now) else PastAppointments(apts, now);
    assert TabCards(tab, apts, now)[i] == (list[i], CardActions(list[i], tab == UpcomingTab, now));
    CanRescheduleIff(list[i].date, now);
  }
}
